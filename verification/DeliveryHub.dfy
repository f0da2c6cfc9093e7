/** The Hub's side of a delivery run is a run of the store, so what holds of
    store runs holds of every delivery. */
module DeliveryHub {
  import opened Rows
  import opened Store
  import opened StoreRuns
  import opened IngestRules
  import opened Delivery
  import D = DeliverySteps

  /** The transaction of one request, if the request arrives and is valid. */
  function SendEvents(cfg: Config, batch: EntryBatch, shot: Shot): seq<Event> {
    if shot.network == RequestLost || Check(cfg.node, LogBatch(PROTOCOL_VERSION, batch)) != Valid then []
    else [Write(Stamp(cfg.node, batch), shot.now)]
  }

  /** The Hub's transaction in one action of the protocol. */
  function HubEvents(cfg: Config, w: D.World, a: D.Action): seq<Event> {
    match a
    case SendHead(shot) =>
      if w.phase.Replaying? && w.s.spool != [] then SendEvents(cfg, w.s.spool[0].batch, shot) else []
    case SendNew(shot) => if w.phase.Sending? then SendEvents(cfg, w.phase.batch, shot) else []
    case Elsewhere(event) => [event]
    case _ => []
  }

  function Trace(cfg: Config, bootId: string, actions: seq<D.Action>): seq<Event> {
    if actions == [] then []
    else
      var n := |actions| - 1;
      Trace(cfg, bootId, actions[..n]) + HubEvents(cfg, D.Run(cfg, bootId, actions[..n]), actions[n])
  }

  lemma AppendEvents(events: seq<Event>, retention: int, more: seq<Event>)
    requires |more| <= 1
    ensures StoreRuns.Run(events + more, retention)
         == if more == [] then StoreRuns.Run(events, retention)
            else StoreRuns.Step(StoreRuns.Run(events, retention), retention, more[0])
  {
    if more == [] {
      assert events + more == events;
    } else {
      assert (events + more)[..|events|] == events;
    }
  }

  /** The tables after at most one transaction. */
  ghost predicate Follows(cfg: Config, before: Db, more: seq<Event>, after: Db)
    requires Keyed(before.logs)
  {
    |more| <= 1 && after == if more == [] then before else StoreRuns.Step(before, cfg.retention, more[0])
  }

  lemma SendTrace(cfg: Config, s: State, batch: EntryBatch, shot: Shot)
    requires Keyed(s.hub.logs)
    ensures Follows(cfg, s.hub, SendEvents(cfg, batch, shot), Send(cfg, s, batch, shot).0.hub)
  {
    hide Check, AfterWrite, Stamp;
  }

  lemma WriteTrace(cfg: Config, s: State, batch: EntryBatch, saving: Saving)
    ensures WriteSpool(cfg, s, batch, saving).0.hub == s.hub
  {
    hide Insert, Pruned;
  }

  lemma ActTrace(cfg: Config, w: D.World, a: D.Action)
    requires Keyed(w.s.hub.logs)
    ensures Follows(cfg, w.s.hub, HubEvents(cfg, w, a), D.Act(cfg, w, a).s.hub)
  {
    hide Send, SendEvents, WriteSpool, Keyed, StoreRuns.Step, SetContainers, Add;
    match a
    case SendHead(shot) =>
      if w.phase.Replaying? && w.s.spool != [] {
        SendTrace(cfg, w.s, w.s.spool[0].batch, shot);
      }
    case SendNew(shot) =>
      if w.phase.Sending? {
        SendTrace(cfg, w.s, w.phase.batch, shot);
      }
    case Save(saving) =>
      if w.phase.Spooling? || w.phase.Storing? {
        WriteTrace(cfg, w.s, w.phase.batch, saving);
      }
    case _ =>
  }

  /** In every delivery run the Hub's tables are those of the store run of its
      transactions. */
  lemma {:induction false} HubRunsItsTrace(cfg: Config, bootId: string, actions: seq<D.Action>)
    ensures D.Run(cfg, bootId, actions).s.hub == StoreRuns.Run(Trace(cfg, bootId, actions), cfg.retention)
  {
    if actions == [] {
    } else {
      var n := |actions| - 1;
      var w := D.Run(cfg, bootId, actions[..n]);
      HubRunsItsTrace(cfg, bootId, actions[..n]);
      ActTrace(cfg, w, actions[n]);
      AppendEvents(Trace(cfg, bootId, actions[..n]), cfg.retention, HubEvents(cfg, w, actions[n]));
    }
  }

  /** While every batch that comes again still has its receipt, cleanups or not,
      the tables are those of the run that applies each batch identity once, in
      the order of first arrival: redelivery after a lost answer, a spool replay
      or a restart leaves no trace. */
  lemma {:induction false} DeliveryIsExactlyOnce(cfg: Config, bootId: string, actions: seq<D.Action>)
    requires Remembered(Trace(cfg, bootId, actions), cfg.retention)
    ensures D.Run(cfg, bootId, actions).s.hub
         == StoreRuns.Run(FirstDeliveries(Trace(cfg, bootId, actions), cfg.retention), cfg.retention)
  {
    HubRunsItsTrace(cfg, bootId, actions);
    ExactlyOnce(Trace(cfg, bootId, actions), cfg.retention);
  }

  /** It is so in particular when no cleanup forgets a batch, which takes a
      receipt past the replay window and no retained log of the batch. */
  lemma {:induction false} DeliveryIsExactlyOnceUnlessForgotten(cfg: Config, bootId: string, actions: seq<D.Action>)
    requires forall k: nat, key :: !ForgetsAt(Trace(cfg, bootId, actions), cfg.retention, k, key)
    ensures D.Run(cfg, bootId, actions).s.hub
         == StoreRuns.Run(FirstDeliveries(Trace(cfg, bootId, actions), cfg.retention), cfg.retention)
  {
    ExactlyOnceUnlessForgotten(Trace(cfg, bootId, actions), cfg.retention);
    DeliveryIsExactlyOnce(cfg, bootId, actions);
  }
}
