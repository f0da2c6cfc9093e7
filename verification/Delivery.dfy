/** What the agent's operations do to queue, spool and Hub when nothing
    interrupts them. Faults are explicit inputs. The ledger is history only; no
    operation reads it. */
module Delivery {
  import opened Options
  import opened Text
  import opened Rows
  import opened Budget
  import opened Store
  import opened IngestRules

  datatype Config = Config(node: Node, maxEntries: int, maxBytes: int, capacity: int,
                           spoolMaxSize: int, spoolMaxAge: int, retention: int)

  datatype Queue = Queue(entries: seq<Entry>, containers: map<ContainerKey, ContainerInfo>, approxBytes: nat,
                         sequence: nat)

  datatype SpoolItem = SpoolItem(batch: EntryBatch, size: nat, modTime: int)

  /** What became of the collected entries, in order of collection. */
  datatype Segment = Flushed(batch: EntryBatch) | Dropped(entries: seq<Entry>)

  /** `firsts` lists the batch identities in the order of their first
      acceptance; `pruned` and `unsaved` record what the spool lost, `cut` the
      batches in hand when a process ended. */
  datatype Ledger = Ledger(boots: set<string>, collected: seq<Entry>, segments: seq<Segment>, firsts: seq<BatchKey>,
                           pruned: set<BatchKey>, unsaved: set<BatchKey>, cut: set<BatchKey>)

  datatype State = State(bootId: string, queue: Queue, spool: seq<SpoolItem>, hub: Db, ledger: Ledger)

  // ---- faults ------------------------------------------------------------------------

  datatype Network = Answered | RequestLost | AnswerLost

  /** One request: its fate, and the Hub's clock. */
  datatype Shot = Shot(network: Network, now: int)

  /** One item of a replay. */
  datatype Attempt = Attempt(shot: Shot, removeFails: bool)

  /** NotStored: the file was not written. NotPruned: it was, and the pruning
      that follows failed after so many files were removed. */
  datatype WriteFault = NoFault | NotStored | NotPruned(removed: nat)

  datatype Saving = Saving(fault: WriteFault, size: nat, now: int)

  /** The circumstances of one flush: the order in which the container map is
      listed, the replay, the request of the new batch, and the spool write. */
  datatype Moment = Moment(order: seq<ContainerInfo>, readFails: bool, sends: seq<Attempt>, last: Shot, saving: Saving)

  // ---- BatchQueue ----------------------------------------------------------------------

  function Add(cfg: Config, q: Queue, e: Entry, bytes: nat): Option<Queue> {
    if |q.entries| >= cfg.capacity then None
    else Some(q.(entries := q.entries + [e], approxBytes := q.approxBytes + bytes))
  }

  function SetContainers(containers: map<ContainerKey, ContainerInfo>, infos: seq<ContainerInfo>,
                         n: nat): map<ContainerKey, ContainerInfo>
    requires n <= |infos|
  {
    if n == 0 then containers
    else SetContainers(containers, infos, n - 1)[ContainerKey(infos[n - 1].nodeId, infos[n - 1].id) := infos[n - 1]]
  }

  predicate Ready(cfg: Config, q: Queue) {
    |q.entries| >= cfg.maxEntries || q.approxBytes >= cfg.maxBytes
  }

  predicate NothingQueued(q: Queue) {
    q.entries == [] && q.containers == map[]
  }

  function NextBatch(cfg: Config, bootId: string, q: Queue, order: seq<ContainerInfo>): EntryBatch {
    EntryBatch(BatchKey(cfg.node.id, bootId, q.sequence + 1), q.entries, order)
  }

  function Emptied(q: Queue): Queue {
    Queue([], map[], 0, q.sequence + 1)
  }

  /** A listing of the container map, in any order. */
  ghost predicate Lists(order: seq<ContainerInfo>, containers: map<ContainerKey, ContainerInfo>) {
    |order| == |containers| && forall c :: c in order <==> c in containers.Values
  }

  // ---- Spool -------------------------------------------------------------------------------

  /** Items sort by sequence, then by file name. */
  predicate KeyBefore(a: BatchKey, b: BatchKey) {
    a.sequence < b.sequence || (a.sequence == b.sequence && Less(a.bootId, b.bootId))
  }

  predicate SameFile(a: BatchKey, b: BatchKey) {
    a.sequence == b.sequence && a.bootId == b.bootId
  }

  function Insert(spool: seq<SpoolItem>, item: SpoolItem): seq<SpoolItem> {
    if spool == [] then [item]
    else if SameFile(spool[0].batch.key, item.batch.key) then [item] + spool[1..]
    else if KeyBefore(item.batch.key, spool[0].batch.key) then [item] + spool
    else [spool[0]] + Insert(spool[1..], item)
  }

  predicate TooOld(cfg: Config, now: int, item: SpoolItem) {
    cfg.spoolMaxAge > 0 && now - item.modTime > cfg.spoolMaxAge
  }

  function DropOld(cfg: Config, now: int, spool: seq<SpoolItem>): seq<SpoolItem> {
    if spool == [] then []
    else if TooOld(cfg, now, spool[0]) then DropOld(cfg, now, spool[1..])
    else [spool[0]] + DropOld(cfg, now, spool[1..])
  }

  function ItemSize(item: SpoolItem): nat {
    item.size
  }

  function Prune(cfg: Config, now: int, spool: seq<SpoolItem>): seq<SpoolItem> {
    var young := DropOld(cfg, now, spool);
    if cfg.spoolMaxSize <= 0 then young else DropOldest(young, ItemSize, cfg.spoolMaxSize)
  }

  /** The same loops when they stop after n removals. */
  function DropOldUpTo(cfg: Config, now: int, spool: seq<SpoolItem>, n: nat): seq<SpoolItem> {
    if spool == [] || n == 0 then spool
    else if TooOld(cfg, now, spool[0]) then DropOldUpTo(cfg, now, spool[1..], n - 1)
    else [spool[0]] + DropOldUpTo(cfg, now, spool[1..], n)
  }

  function OldCount(cfg: Config, now: int, spool: seq<SpoolItem>): nat {
    if spool == [] then 0 else OldCount(cfg, now, spool[1..]) + if TooOld(cfg, now, spool[0]) then 1 else 0
  }

  function DropOldestUpTo(spool: seq<SpoolItem>, max: nat, n: nat): seq<SpoolItem> {
    if n == 0 || Total(spool, ItemSize) <= max then spool else DropOldestUpTo(spool[1..], max, n - 1)
  }

  function PruneUpTo(cfg: Config, now: int, spool: seq<SpoolItem>, n: nat): seq<SpoolItem> {
    var aged := OldCount(cfg, now, spool);
    if n < aged then DropOldUpTo(cfg, now, spool, n)
    else if cfg.spoolMaxSize <= 0 then DropOld(cfg, now, spool)
    else DropOldestUpTo(DropOld(cfg, now, spool), cfg.spoolMaxSize, n - aged)
  }

  /** What the pruning leaves. */
  function Pruned(cfg: Config, now: int, stored: seq<SpoolItem>, fault: WriteFault): seq<SpoolItem> {
    match fault
    case NotPruned(n) => PruneUpTo(cfg, now, stored, n)
    case _ => Prune(cfg, now, stored)
  }

  function KeysOf(spool: seq<SpoolItem>): set<BatchKey> {
    set item | item in spool :: item.batch.key
  }

  function WriteSpool(cfg: Config, s: State, batch: EntryBatch, saving: Saving): (State, bool) {
    var stored := Insert(s.spool, SpoolItem(batch, saving.size, saving.now));
    if saving.fault.NotStored? then (s.(ledger := s.ledger.(unsaved := s.ledger.unsaved + {batch.key})), false)
    else
      var kept := Pruned(cfg, saving.now, stored, saving.fault);
      var gone := KeysOf(stored) - KeysOf(kept);
      (s.(spool := kept, ledger := s.ledger.(pruned := s.ledger.pruned + gone)), saving.fault.NoFault?)
  }

  // ---- sending -----------------------------------------------------------------------------

  function Send(cfg: Config, s: State, batch: EntryBatch, shot: Shot): (r: (State, bool))
    ensures r.0 == s.(hub := r.0.hub, ledger := s.ledger.(firsts := r.0.ledger.firsts))
  {
    if shot.network == RequestLost then (s, false)
    else
      var (hub, success) := Receive(s.hub, cfg.node, batch, shot.now);
      var firsts := if Stores(s.hub, cfg.node, batch) && batch.key !in s.ledger.firsts
                    then s.ledger.firsts + [batch.key] else s.ledger.firsts;
      (s.(hub := hub, ledger := s.ledger.(firsts := firsts)), success && shot.network == Answered)
  }

  /** The loop over the spool: each item is sent, then removed. An item beyond
      the given faults counts as not sent. */
  function ReplayItems(cfg: Config, s: State, sends: seq<Attempt>): (State, bool)
    decreases |sends|
  {
    if s.spool == [] then (s, true)
    else if sends == [] then (s, false)
    else
      var (sent, ok) := Send(cfg, s, s.spool[0].batch, sends[0].shot);
      if !ok || sends[0].removeFails then (sent, false)
      else ReplayItems(cfg, sent.(spool := sent.spool[1..]), sends[1..])
  }

  function Replay(cfg: Config, s: State, m: Moment): (State, bool) {
    if m.readFails then (s, false) else ReplayItems(cfg, s, m.sends)
  }

  function Flush(cfg: Config, s: State, order: seq<ContainerInfo>): (State, Option<EntryBatch>) {
    if NothingQueued(s.queue) then (s, None)
    else
      var batch := NextBatch(cfg, s.bootId, s.queue, order);
      (s.(queue := Emptied(s.queue), ledger := s.ledger.(segments := s.ledger.segments + [Flushed(batch)])),
       Some(batch))
  }

  function FlushQueue(cfg: Config, s: State, m: Moment): (State, bool) {
    var (flushed, batch) := Flush(cfg, s, m.order);
    match batch
    case None => Replay(cfg, s, m)
    case Some(batch) =>
      var (replayed, ok) := Replay(cfg, flushed, m);
      if !ok then (WriteSpool(cfg, replayed, batch, m.saving).0, false)
      else
        var (sent, delivered) := Send(cfg, replayed, batch, m.last);
        if delivered then (sent, true) else (WriteSpool(cfg, sent, batch, m.saving).0, false)
  }

  // ---- the collection loop -------------------------------------------------------------------

  /** The collection ends: what is still queued is gone. */
  function DropQueue(s: State, extra: seq<Entry>): State {
    s.(queue := Queue([], map[], 0, s.queue.sequence),
    ledger := s.ledger.(segments := s.ledger.segments + [Dropped(s.queue.entries + extra)]))
  }

  function FlushIfReady(cfg: Config, s: State, m: Moment): State {
    if Ready(cfg, s.queue) then FlushQueue(cfg, s, m).0 else s
  }

  function Enqueue(cfg: Config, s: State, e: Entry, bytes: nat, m: Moment): (State, bool) {
    match Add(cfg, s.queue, e, bytes)
    case None => (DropQueue(s, [e]), true)
    case Some(q) => (FlushIfReady(cfg, s.(queue := q), m), false)
  }

  /** The full queue goes to the spool, then the entry is added again. */
  function MakeRoom(cfg: Config, s: State, e: Entry, bytes: nat, full: Moment, m: Moment): (State, bool) {
    var (flushed, batch) := Flush(cfg, s, full.order);
    match batch
    case None => Enqueue(cfg, s, e, bytes, m)
    case Some(batch) =>
      var (stored, ok) := WriteSpool(cfg, flushed, batch, full.saving);
      if ok then Enqueue(cfg, stored, e, bytes, m) else (DropQueue(stored, [e]), true)
  }

  /** One entry from the stream; `full` are the circumstances of the write that
      makes room. The flag says that the collection returned. */
  function Collect(cfg: Config, s: State, e: Entry, bytes: nat, full: Moment, m: Moment): (State, bool) {
    var taken := s.(ledger := s.ledger.(collected := s.ledger.collected + [e]));
    if Add(cfg, s.queue, e, bytes).Some? then Enqueue(cfg, taken, e, bytes, m)
    else MakeRoom(cfg, taken, e, bytes, full, m)
  }

  function Initial(bootId: string): State {
    State(bootId, Queue([], map[], 0, 0), [], EMPTY, Ledger({bootId}, [], [], [], {}, {}, {}))
  }
}
