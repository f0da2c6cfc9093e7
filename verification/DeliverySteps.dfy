/** Delivery as a protocol of small steps. Between any two of them the process
    can end, and the Hub can act for somebody else: clean up, or take batches
    and snapshots of other agents. */
module DeliverySteps {
  import opened Options
  import opened Rows
  import opened Store
  import opened StoreClass
  import opened StoreRuns
  import opened IngestRules
  import opened Delivery
  import opened EntryIds

  /** Where the agent's one collecting goroutine is. */
  datatype Phase =
    | Idle                                               // waits for the next event
    | Due                                                // a flush begins
    | Refused(e: Entry, bytes: nat)                      // the queue was full
    | Replaying(hand: Option<EntryBatch>)                // sends the spool, a new batch in hand
    | Removing(hand: Option<EntryBatch>)                 // an item was answered, its file is still there
    | Sending(batch: EntryBatch)                         // the spool is empty, the new batch is next
    | Spooling(batch: EntryBatch)                        // delivery failed, the batch goes to the spool
    | Storing(batch: EntryBatch, e: Entry, bytes: nat)   // the full queue's batch goes to the spool
    | Retrying(e: Entry, bytes: nat)                     // the refused entry is added again
    | Ended                                              // the collection returned, or a process starts

  function Hand(p: Phase): Option<EntryBatch> {
    match p
    case Replaying(hand) => hand
    case Removing(hand) => hand
    case Sending(batch) => Some(batch)
    case Spooling(batch) => Some(batch)
    case Storing(batch, _, _) => Some(batch)
    case _ => None
  }

  /** The collected entry that is in no queue and no batch. */
  function Waiting(p: Phase): seq<Entry> {
    match p
    case Refused(e, _) => [e]
    case Storing(_, e, _) => [e]
    case Retrying(e, _) => [e]
    case _ => []
  }

  /** `names` is history: boot and counter of every id given. */
  datatype World = World(s: State, phase: Phase, entryId: nat, names: seq<(string, nat)>)

  datatype Action =
    | Arrive(e: Entry, bytes: nat)             // a log line
    | Tick                                     // the flush ticker
    | Take(order: seq<ContainerInfo>)          // queue.Flush, listing the containers in some order
    | ReadFails                                // the spool cannot be read
    | SendHead(shot: Shot)                     // the next spooled batch is sent
    | RemoveHead(fails: bool)                  // and its file removed
    | ReplayDone                               // the spool is empty
    | SendNew(shot: Shot)                      // the new batch is sent
    | Save(saving: Saving)                     // the batch in hand is written to the spool
    | AddAgain                                 // the refused entry is added again
    | Discover(infos: seq<ContainerInfo>)      // container discovery
    | Return                                   // the stream closed, the collection returns
    | Restart(infos: seq<ContainerInfo>)       // a collection begins with discovery and a replay
    | Reboot(bootId: string)                   // the process ends, wherever it is; a new one starts
    | Elsewhere(event: Event)                  // the Hub acts for somebody else

  /** Boot ids are fresh nonces without a slash, and a batch identity is written
      only by its own agent. */
  ghost predicate Possible(cfg: Config, w: World, a: Action) {
    match a
    case Arrive(_, _) => w.phase.Idle?
    case Tick => w.phase.Idle?
    case Take(order) => (w.phase.Due? || w.phase.Refused?) && Lists(order, w.s.queue.containers)
    case ReadFails => w.phase.Replaying?
    case SendHead(_) => w.phase.Replaying? && w.s.spool != []
    case RemoveHead(_) => w.phase.Removing?
    case ReplayDone => w.phase.Replaying? && w.s.spool == []
    case SendNew(_) => w.phase.Sending?
    case Save(_) => w.phase.Spooling? || w.phase.Storing?
    case AddAgain => w.phase.Retrying?
    case Discover(_) => w.phase.Idle?
    case Return => w.phase.Idle?
    case Restart(_) => w.phase.Ended?
    case Reboot(bootId) => bootId !in w.s.ledger.boots && bootId != "" && '/' !in bootId
    case Elsewhere(event) => event.Write? ==> event.batch.key.agentId != cfg.node.id
  }

  /** A replay that fails leaves the new batch to the spool. */
  function Stopped(hand: Option<EntryBatch>): Phase {
    if hand.Some? then Spooling(hand.value) else Idle
  }

  /** Adds an entry, or hands it on refused. */
  function TryAdd(cfg: Config, w: World, e: Entry, bytes: nat, refused: Phase): World {
    match Add(cfg, w.s.queue, e, bytes)
    case None => w.(phase := refused)
    case Some(q) => w.(s := w.s.(queue := q), phase := if Ready(cfg, q) then Due else Idle)
  }

  /** The collection returns: queue and waiting entry are dropped. */
  function GiveUp(w: World): World {
    w.(s := DropQueue(w.s, Waiting(w.phase)), phase := Ended)
  }

  /** The next entry gets its id. */
  function Named(cfg: Config, w: World, e: Entry): Entry {
    e.(insertId := InsertId(cfg.node.id, w.s.bootId, w.entryId + 1))
  }

  function Count(w: World, named: Entry): World {
    World(w.s.(ledger := w.s.ledger.(collected := w.s.ledger.collected + [named])), w.phase, w.entryId + 1,
          w.names + [(w.s.bootId, w.entryId + 1)])
  }

  function AfterArrive(cfg: Config, w: World, e: Entry, bytes: nat): World {
    var named := Named(cfg, w, e);
    TryAdd(cfg, Count(w, named), named, bytes, Refused(named, bytes))
  }

  function AfterTake(cfg: Config, w: World, order: seq<ContainerInfo>): World {
    var (flushed, batch) := Flush(cfg, w.s, order);
    w.(s := flushed,
    phase := if w.phase.Refused? then
      if batch.Some? then Storing(batch.value, w.phase.e, w.phase.bytes)
      else Retrying(w.phase.e, w.phase.bytes)
    else Replaying(batch))
  }

  function AfterSendHead(cfg: Config, w: World, shot: Shot): World
    requires w.s.spool != []
  {
    var (sent, ok) := Send(cfg, w.s, w.s.spool[0].batch, shot);
    w.(s := sent, phase := if ok then Removing(Hand(w.phase)) else Stopped(Hand(w.phase)))
  }

  function AfterRemove(w: World, fails: bool): World
    requires w.s.spool != []
  {
    if fails then w.(phase := Stopped(Hand(w.phase)))
    else w.(s := w.s.(spool := w.s.spool[1..]), phase := Replaying(Hand(w.phase)))
  }

  function AfterSendNew(cfg: Config, w: World, shot: Shot): World
    requires w.phase.Sending?
  {
    var (sent, ok) := Send(cfg, w.s, w.phase.batch, shot);
    w.(s := sent, phase := if ok then Idle else Spooling(w.phase.batch))
  }

  function AfterSave(cfg: Config, w: World, saving: Saving): World
    requires w.phase.Spooling? || w.phase.Storing?
  {
    var (saved, ok) := WriteSpool(cfg, w.s, w.phase.batch, saving);
    if w.phase.Spooling? then w.(s := saved, phase := Idle)
    else if ok then w.(s := saved, phase := Retrying(w.phase.e, w.phase.bytes))
    else GiveUp(w.(s := saved))
  }

  /** The process ends: queue and waiting entry are dropped, a batch in hand is
      cut. The next process has a new boot id and counts from the start. */
  function AfterReboot(w: World, bootId: string): World {
    var d := DropQueue(w.s, Waiting(w.phase));
    var lost := if Hand(w.phase).Some? then {Hand(w.phase).value.key} else {};
    World(d.(bootId := bootId, queue := d.queue.(sequence := 0),
          ledger := d.ledger.(boots := d.ledger.boots + {bootId}, cut := d.ledger.cut + lost)),
          Ended, 0, w.names)
  }

  /** An action that is not possible does nothing. */
  function Act(cfg: Config, w: World, a: Action): (next: World)
    requires Keyed(w.s.hub.logs)
    ensures Keyed(next.s.hub.logs)
  {
    match a
    case Arrive(e, bytes) => if w.phase.Idle? then AfterArrive(cfg, w, e, bytes) else w
    case Tick => if w.phase.Idle? then w.(phase := Due) else w
    case Take(order) => if w.phase.Due? || w.phase.Refused? then AfterTake(cfg, w, order) else w
    case ReadFails => if w.phase.Replaying? then w.(phase := Stopped(w.phase.hand)) else w
    case SendHead(shot) =>
      if w.phase.Replaying? && w.s.spool != [] then
        SendKeyed(cfg, w.s, w.s.spool[0].batch, shot);
        AfterSendHead(cfg, w, shot)
      else w
    case RemoveHead(fails) => if w.phase.Removing? && w.s.spool != [] then AfterRemove(w, fails) else w
    case ReplayDone =>
      if w.phase.Replaying? && w.s.spool == [] then
        w.(phase := if w.phase.hand.Some? then Sending(w.phase.hand.value) else Idle)
      else w
    case SendNew(shot) =>
      if w.phase.Sending? then
        SendKeyed(cfg, w.s, w.phase.batch, shot);
        AfterSendNew(cfg, w, shot)
      else w
    case Save(saving) => if w.phase.Spooling? || w.phase.Storing? then AfterSave(cfg, w, saving) else w
    case AddAgain =>
      if w.phase.Retrying? then
        var next := TryAdd(cfg, w, w.phase.e, w.phase.bytes, w.phase);
        if next.phase.Retrying? then GiveUp(w) else next
      else w
    case Discover(infos) =>
      if w.phase.Idle? then
        w.(s := w.s.(queue := w.s.queue.(containers := SetContainers(w.s.queue.containers, infos, |infos|))))
      else w
    case Return => if w.phase.Idle? then GiveUp(w) else w
    case Restart(infos) =>
      if w.phase.Ended? then
        w.(s := w.s.(queue := w.s.queue.(containers := SetContainers(w.s.queue.containers, infos, |infos|))),
        phase := Replaying(None))
      else w
    case Reboot(bootId) => AfterReboot(w, bootId)
    case Elsewhere(event) => w.(s := w.s.(hub := StoreRuns.Step(w.s.hub, cfg.retention, event)))
  }

  lemma SendKeyed(cfg: Config, s: State, batch: EntryBatch, shot: Shot)
    requires Keyed(s.hub.logs)
    ensures Keyed(Send(cfg, s, batch, shot).0.hub.logs)
  {
    var stamped := Stamp(cfg.node, batch);
    InsertRowsKeyed(s.hub.logs, stamped, shot.now, |stamped.entries|);
  }

  /** A new agent in front of an empty Hub. */
  function Start(bootId: string): World {
    World(Initial(bootId), Ended, 0, [])
  }

  function Run(cfg: Config, bootId: string, actions: seq<Action>): (w: World)
    ensures Keyed(w.s.hub.logs)
  {
    if actions == [] then Start(bootId)
    else Act(cfg, Run(cfg, bootId, actions[..|actions| - 1]), actions[|actions| - 1])
  }

  ghost predicate PossibleRun(cfg: Config, bootId: string, actions: seq<Action>) {
    '/' !in bootId && forall i :: 0 <= i < |actions| ==> Possible(cfg, Run(cfg, bootId, actions[..i]), actions[i])
  }

  lemma PossiblePrefix(cfg: Config, bootId: string, actions: seq<Action>)
    requires actions != [] && PossibleRun(cfg, bootId, actions)
    ensures var n := |actions| - 1;
            PossibleRun(cfg, bootId, actions[..n]) && Possible(cfg, Run(cfg, bootId, actions[..n]), actions[n])
  {
    var n := |actions| - 1;
    assert forall i :: 0 <= i < n ==> actions[..n][..i] == actions[..i];
  }
}
