/** The agent's objects: queue, spool and collection steps, proved against the
    step functions of module Delivery. */
module AgentClass {
  import opened Options
  import opened Rows
  import opened Budget
  import opened Store
  import opened IngestRules
  import opened Delivery
  import opened EntryIds
  import opened SpoolLaws

  class BatchQueue {
    const cfg: Config
    const bootId: string
    var entries: seq<Entry>
    var containers: map<ContainerKey, ContainerInfo>
    var approxBytes: nat
    var sequence: nat

    function Value(): Queue
      reads this
    {
      Queue(entries, containers, approxBytes, sequence)
    }

    constructor (cfg: Config, bootId: string, initialSequence: nat)
      ensures this.cfg == cfg && this.bootId == bootId
      ensures Value() == Queue([], map[], 0, initialSequence)
    {
      this.cfg, this.bootId := cfg, bootId;
      entries, containers, approxBytes, sequence := [], map[], 0, initialSequence;
    }

    method Add(e: Entry, bytes: nat) returns (full: bool)
      modifies this
      ensures match Delivery.Add(cfg, old(Value()), e, bytes)
              case None => full && Value() == old(Value())
              case Some(q) => !full && Value() == q
      ensures full <==> |old(entries)| >= cfg.capacity
      ensures entries == (if full then old(entries) else old(entries) + [e])
      ensures approxBytes == (if full then old(approxBytes) else old(approxBytes) + bytes)
      ensures containers == old(containers) && sequence == old(sequence)
    {
      if |entries| >= cfg.capacity {
        return true;
      }
      entries := entries + [e];
      approxBytes := approxBytes + bytes;
      full := false;
    }

    method SetContainers(infos: seq<ContainerInfo>)
      modifies this`containers
      ensures containers == Delivery.SetContainers(old(containers), infos, |infos|)
    {
      for i := 0 to |infos|
        invariant containers == Delivery.SetContainers(old(containers), infos, i)
      {
        containers := containers[ContainerKey(infos[i].nodeId, infos[i].id) := infos[i]];
      }
    }

    method Ready() returns (ready: bool)
      ensures ready == Delivery.Ready(cfg, Value())
      ensures ready <==> |entries| >= cfg.maxEntries || approxBytes >= cfg.maxBytes
    {
      ready := |entries| >= cfg.maxEntries || approxBytes >= cfg.maxBytes;
    }

    /** The listing order of the container map is arbitrary; the batch shows the
        order taken. */
    method Flush() returns (batch: Option<EntryBatch>)
      modifies this
      ensures NothingQueued(old(Value())) ==> batch == None && Value() == old(Value())
      ensures !NothingQueued(old(Value())) ==>
                batch.Some? && Lists(batch.value.containers, old(containers)) && Value() == Emptied(old(Value())) &&
                batch.value == NextBatch(cfg, bootId, old(Value()), batch.value.containers)
      ensures batch.None? <==> old(entries) == [] && old(containers) == map[]
      ensures entries == [] && containers == map[] && (batch.Some? ==> approxBytes == 0)
      ensures sequence == old(sequence) + if batch.Some? then 1 else 0
      ensures batch.Some? ==>
                && batch.value.entries == old(entries)
                && batch.value.key == BatchKey(cfg.node.id, bootId, sequence)
    {
      if |entries| == 0 && |containers| == 0 {
        return None;
      }
      sequence := sequence + 1;
      var listed := ListContainers(containers);
      batch := Some(EntryBatch(BatchKey(cfg.node.id, bootId, sequence), entries, listed));
      entries := [];
      containers := map[];
      approxBytes := 0;
    }
  }

  method ListContainers(containers: map<ContainerKey, ContainerInfo>) returns (order: seq<ContainerInfo>)
    ensures Lists(order, containers)
  {
    order := [];
    var left := containers;
    while left != map[]
      invariant forall key :: key in left ==> key in containers && left[key] == containers[key]
      invariant forall key :: key in containers && key !in left ==> containers[key] in order
      invariant forall c :: c in order ==> c in containers.Values
      invariant |order| + |left| == |containers|
      decreases |left|
    {
      var key :| key in left;
      assert left[key] in containers.Values;
      order := order + [left[key]];
      left := left - {key};
    }
  }

  // ---- what the pruning loops keep ------------------------------------------------------

  function Left(failing: Option<nat>, removed: nat): Option<nat>
    requires failing.Some? ==> removed <= failing.value
  {
    if failing.Some? then Some(failing.value - removed) else None
  }

  function OldestRemoved(items: seq<SpoolItem>, max: nat, failing: Option<nat>): seq<SpoolItem> {
    if failing.Some? then DropOldestUpTo(items, max, failing.value) else DropOldest(items, ItemSize, max)
  }

  /** `rest` is what the loop over `all` has still to look at. */
  ghost predicate Removing(cfg: Config, now: int, all: seq<SpoolItem>, kept: seq<SpoolItem>, rest: seq<SpoolItem>,
                           removed: nat) {
    && kept + DropOld(cfg, now, rest) == DropOld(cfg, now, all)
    && removed + OldCount(cfg, now, rest) == OldCount(cfg, now, all)
  }

  ghost predicate RemovingUpTo(cfg: Config, now: int, all: seq<SpoolItem>, kept: seq<SpoolItem>, rest: seq<SpoolItem>,
                               left: nat, n: nat) {
    kept + DropOldUpTo(cfg, now, rest, left) == DropOldUpTo(cfg, now, all, n)
  }

  lemma RemovingStep(cfg: Config, now: int, all: seq<SpoolItem>, kept: seq<SpoolItem>, rest: seq<SpoolItem>,
                     removed: nat)
    requires rest != [] && Removing(cfg, now, all, kept, rest, removed)
    ensures if TooOld(cfg, now, rest[0]) then Removing(cfg, now, all, kept, rest[1..], removed + 1)
            else Removing(cfg, now, all, kept + [rest[0]], rest[1..], removed)
  {
    assert kept + ([rest[0]] + DropOld(cfg, now, rest[1..])) == kept + [rest[0]] + DropOld(cfg, now, rest[1..]);
  }

  lemma RemovingUpToStep(cfg: Config, now: int, all: seq<SpoolItem>, kept: seq<SpoolItem>, rest: seq<SpoolItem>,
                         left: nat, n: nat)
    requires rest != [] && RemovingUpTo(cfg, now, all, kept, rest, left, n)
    ensures left == 0 ==> kept + rest == DropOldUpTo(cfg, now, all, n)
    ensures TooOld(cfg, now, rest[0]) && left > 0 ==> RemovingUpTo(cfg, now, all, kept, rest[1..], left - 1, n)
    ensures !TooOld(cfg, now, rest[0]) ==> RemovingUpTo(cfg, now, all, kept + [rest[0]], rest[1..], left, n)
  {
    assert kept + ([rest[0]] + DropOldUpTo(cfg, now, rest[1..], left))
        == kept + [rest[0]] + DropOldUpTo(cfg, now, rest[1..], left);
    if left == 0 && !TooOld(cfg, now, rest[0]) {
      assert rest == [rest[0]] + rest[1..];
      assert DropOldUpTo(cfg, now, rest[1..], left) == rest[1..];
    }
  }

  class Spool {
    const cfg: Config
    var items: seq<SpoolItem>

    constructor (cfg: Config)
      ensures this.cfg == cfg && items == []
    {
      this.cfg := cfg;
      items := [];
    }

    method Write(batch: EntryBatch, size: nat, now: int, fault: WriteFault) returns (ok: bool)
      modifies this
      ensures ok == fault.NoFault?
      ensures var stored := Insert(old(items), SpoolItem(batch, size, now));
              items == if fault.NotStored? then old(items) else Pruned(cfg, now, stored, fault)
      ensures SpoolSorted(old(items)) ==> InReplayOrder(items)
      ensures ok ==> forall x :: x in items ==> cfg.spoolMaxAge <= 0 || now - x.modTime <= cfg.spoolMaxAge
      ensures ok && cfg.spoolMaxSize > 0 ==> Total(items, ItemSize) <= cfg.spoolMaxSize
      ensures !fault.NotStored? ==>
                var stored := Insert(old(items), SpoolItem(batch, size, now));
                forall i :: 0 <= i < |stored| && (cfg.spoolMaxAge <= 0 || now - stored[i].modTime <= cfg.spoolMaxAge) &&
                            (cfg.spoolMaxSize <= 0
                             || YoungBytes(cfg.spoolMaxAge, now, stored[i..]) <= cfg.spoolMaxSize)
                            ==> stored[i] in items
    {
      hide Prune, PruneUpTo, Insert, YoungBytes, Total, SpoolSorted, InReplayOrder;
      WrittenInOrder(cfg, items, SpoolItem(batch, size, now), now, fault);
      if fault.NotStored? {
        return false;
      }
      items := Insert(items, SpoolItem(batch, size, now));
      ok := PruneLocked(now, if fault.NotPruned? then Some(fault.removed) else None);
    }

    /** Age first, then size: the oldest items go until the budget is met. With
        `failing` the removal after so many fails. */
    method PruneLocked(now: int, failing: Option<nat>) returns (ok: bool)
      modifies this
      ensures ok == failing.None?
      ensures items == if failing.Some? then PruneUpTo(cfg, now, old(items), failing.value)
                       else Prune(cfg, now, old(items))
      ensures ok ==> items == Survivors(cfg.spoolMaxAge, cfg.spoolMaxSize, now, old(items))
      ensures ok ==> forall x :: x in items ==> cfg.spoolMaxAge <= 0 || now - x.modTime <= cfg.spoolMaxAge
      ensures ok && cfg.spoolMaxSize > 0 ==> Total(items, ItemSize) <= cfg.spoolMaxSize
      ensures forall i :: 0 <= i < |old(items)| &&
                          (cfg.spoolMaxAge <= 0 || now - old(items)[i].modTime <= cfg.spoolMaxAge) &&
                          (cfg.spoolMaxSize <= 0
                           || YoungBytes(cfg.spoolMaxAge, now, old(items)[i..]) <= cfg.spoolMaxSize)
                          ==> old(items)[i] in items
      ensures failing.Some? ==>
                var left := Survivors(cfg.spoolMaxAge, cfg.spoolMaxSize, now, old(items));
                |items| == if failing.value <= |old(items)| - |left| then |old(items)| - failing.value else |left|
    {
      hide YoungBytes, Total, DropOldest, Survivors, DropOldUpTo, DropOldestUpTo;
      PruneIsSurvivors(cfg, now, items);
      SurvivorsFit(cfg, now, items);
      PrunedByAgeAndSize(cfg, now, items, if failing.Some? then NotPruned(failing.value) else NoFault);
      if failing.Some? {
        PruneUpToRemoves(cfg, now, items, failing.value);
      }
      var removed, done := RemoveOld(now, failing);
      if !done {
        return false;
      }
      if cfg.spoolMaxSize > 0 {
        RemoveOldest(cfg.spoolMaxSize, if failing.Some? then Some(failing.value - removed) else None);
      }
      ok := failing.None?;
    }

    method RemoveOldest(max: nat, failing: Option<nat>)
      modifies this
      ensures items == OldestRemoved(old(items), max, failing)
    {
      ghost var young := items;
      var total, removed := Total(items, ItemSize), 0;
      while total > max
        invariant total == Total(items, ItemSize) && (failing.Some? ==> removed <= failing.value)
        invariant OldestRemoved(items, max, Left(failing, removed)) == OldestRemoved(young, max, failing)
        decreases |items|
      {
        if failing == Some(removed) {
          return;
        }
        total := total - ItemSize(items[0]);
        items := items[1..];
        removed := removed + 1;
      }
    }

    method RemoveOld(now: int, failing: Option<nat>) returns (removed: nat, done: bool)
      modifies this
      ensures done ==> items == DropOld(cfg, now, old(items)) && removed == OldCount(cfg, now, old(items))
      ensures done && failing.Some? ==> removed <= failing.value
      ensures !done ==> failing.Some? && failing.value < OldCount(cfg, now, old(items))
      ensures !done ==> items == DropOldUpTo(cfg, now, old(items), failing.value)
    {
      removed := 0;
      var kept: seq<SpoolItem> := [];
      for i := 0 to |items|
        invariant items == old(items)
        invariant Removing(cfg, now, items, kept, items[i..], removed)
        invariant failing.Some? ==> removed <= failing.value
        invariant failing.Some? ==>
            RemovingUpTo(cfg, now, items, kept, items[i..], failing.value - removed, failing.value)
      {
        assert items[i..][1..] == items[i + 1..] && items[i..][0] == items[i];
        RemovingStep(cfg, now, items, kept, items[i..], removed);
        if failing.Some? {
          RemovingUpToStep(cfg, now, items, kept, items[i..], failing.value - removed, failing.value);
        }
        if !TooOld(cfg, now, items[i]) {
          kept := kept + [items[i]];
        } else if failing == Some(removed) {
          items := kept + items[i..];
          return removed, false;
        } else {
          removed := removed + 1;
        }
      }
      items := kept;
      done := true;
    }

    method RemoveFirst()
      requires items != []
      modifies this
      ensures items == old(items)[1..]
    {
      items := items[1..];
    }
  }

  lemma NothingListed(order: seq<ContainerInfo>, containers: map<ContainerKey, ContainerInfo>)
    requires |containers| == 0 && (order == [] || Lists(order, containers))
    ensures order == []
  {}

  /** The agent and the Hub it talks to. The ledger is ghost history. */
  class Agent {
    const cfg: Config
    const bootId: string
    const queue: BatchQueue
    const spool: Spool
    var entryId: nat
    var hub: Db
    ghost var ledger: Ledger

    ghost predicate Valid()
    {
      queue.cfg == cfg && queue.bootId == bootId && spool.cfg == cfg
    }

    ghost function Value(): State
      reads this, queue, spool
    {
      State(bootId, queue.Value(), spool.items, hub, ledger)
    }

    constructor (cfg: Config, bootId: string)
      ensures Valid() && fresh(queue) && fresh(spool) && Value() == Initial(bootId) && entryId == 0
    {
      this.cfg, this.bootId := cfg, bootId;
      queue := new BatchQueue(cfg, bootId, 0);
      spool := new Spool(cfg);
      entryId, hub := 0, EMPTY;
      ledger := Ledger({bootId}, [], [], [], {}, {}, {});
    }

    method SendBatch(batch: EntryBatch, shot: Shot) returns (ok: bool)
      modifies this`hub, this`ledger
      ensures (Value(), ok) == Send(cfg, old(Value()), batch, shot)
    {
      if shot.network == RequestLost {
        return false;
      }
      ledger := ledger.(firsts := if Stores(hub, cfg.node, batch) && batch.key !in ledger.firsts
      then ledger.firsts + [batch.key] else ledger.firsts);
      var (after, success) := Receive(hub, cfg.node, batch, shot.now);
      hub := after;
      ok := success && shot.network == Answered;
    }

    method ReplaySpool(m: Moment) returns (ok: bool)
      requires Valid()
      modifies this`hub, this`ledger, spool
      ensures (Value(), ok) == Replay(cfg, old(Value()), m)
    {
      if m.readFails {
        return false;
      }
      var i := 0;
      while |spool.items| > 0
        invariant i <= |m.sends|
        invariant queue.Value() == old(queue.Value())
        invariant ReplayItems(cfg, Value(), m.sends[i..]) == ReplayItems(cfg, old(Value()), m.sends)
        decreases |spool.items|
      {
        if i == |m.sends| {
          return false;
        }
        assert m.sends[i..][0] == m.sends[i] && m.sends[i..][1..] == m.sends[i + 1..];
        ghost var before := Value();
        var sent := SendBatch(spool.items[0].batch, m.sends[i].shot);
        assert (Value(), sent) == Send(cfg, before, before.spool[0].batch, m.sends[i].shot);
        if !sent || m.sends[i].removeFails {
          return false;
        }
        spool.RemoveFirst();
        i := i + 1;
      }
      ok := true;
    }

    method WriteToSpool(batch: EntryBatch, saving: Saving) returns (ok: bool)
      requires Valid()
      modifies this`ledger, spool
      ensures (Value(), ok) == WriteSpool(cfg, old(Value()), batch, saving)
    {
      ghost var stored := Insert(spool.items, SpoolItem(batch, saving.size, saving.now));
      ok := spool.Write(batch, saving.size, saving.now, saving.fault);
      if saving.fault.NotStored? {
        ledger := ledger.(unsaved := ledger.unsaved + {batch.key});
      } else {
        ledger := ledger.(pruned := ledger.pruned + (KeysOf(stored) - KeysOf(spool.items)));
      }
    }

    /** Takes the queue's batch; `order` is the listing the flush took. */
    method TakeBatch() returns (batch: Option<EntryBatch>, ghost order: seq<ContainerInfo>)
      requires Valid()
      modifies this`ledger, queue
      ensures Lists(order, old(queue.containers))
      ensures (Value(), batch) == Flush(cfg, old(Value()), order)
    {
      batch := queue.Flush();
      order := [];
      if batch.Some? {
        order := batch.value.containers;
        ledger := ledger.(segments := ledger.segments + [Flushed(batch.value)]);
      }
    }

    method FlushQueue(m: Moment) returns (ok: bool, ghost order: seq<ContainerInfo>)
      requires Valid()
      modifies this`hub, this`ledger, queue, spool
      ensures Lists(order, old(queue.containers))
      ensures (Value(), ok) == Delivery.FlushQueue(cfg, old(Value()), m.(order := order))
    {
      var batch;
      batch, order := TakeBatch();
      if batch.None? {
        ok := ReplaySpool(m);
        return;
      }
      ghost var flushed := Value();
      var replayed := ReplaySpool(m);
      assert (Value(), replayed) == Replay(cfg, flushed, m.(order := order));
      if !replayed {
        var _ := WriteToSpool(batch.value, m.saving);
        ok := false;
        return;
      }
      var delivered := SendBatch(batch.value, m.last);
      if !delivered {
        var _ := WriteToSpool(batch.value, m.saving);
      }
      ok := delivered;
    }

    /** The queue is abandoned when the collection returns. */
    method AbandonQueue(ghost extra: seq<Entry>)
      requires Valid()
      modifies this`ledger, queue
      ensures Value() == DropQueue(old(Value()), extra)
    {
      ledger := ledger.(segments := ledger.segments + [Dropped(queue.entries + extra)]);
      queue.entries, queue.containers, queue.approxBytes := [], map[], 0;
    }

    method FlushIfReady(m: Moment) returns (ghost order: seq<ContainerInfo>)
      requires Valid()
      modifies this`hub, this`ledger, queue, spool
      ensures if Delivery.Ready(cfg, old(queue.Value())) then Lists(order, old(queue.containers)) else order == []
      ensures Value() == Delivery.FlushIfReady(cfg, old(Value()), m.(order := order))
    {
      order := [];
      var ready := queue.Ready();
      if ready {
        var delivered;
        delivered, order := FlushQueue(m);
      }
    }

    /** A full queue goes to the spool. */
    method MakeRoom(full: Moment) returns (stored: bool, ghost order: seq<ContainerInfo>)
      requires Valid()
      modifies this`hub, this`ledger, queue, spool
      ensures Lists(order, old(queue.containers))
      ensures var (flushed, batch) := Flush(cfg, old(Value()), order);
              (Value(), stored) == if batch.Some? then WriteSpool(cfg, flushed, batch.value, full.saving)
                else (flushed, true)
    {
      var batch;
      batch, order := TakeBatch();
      stored := true;
      if batch.Some? {
        stored := WriteToSpool(batch.value, full.saving);
      }
    }

    /** The second attempt, after room was made. */
    method AddAgain(e: Entry, bytes: nat, m: Moment) returns (ended: bool, ghost order: seq<ContainerInfo>)
      requires Valid()
      modifies this`hub, this`ledger, queue, spool
      ensures order == [] || Lists(order, old(queue.containers))
      ensures (Value(), ended) == Delivery.Enqueue(cfg, old(Value()), e, bytes, m.(order := order))
    {
      var refused := queue.Add(e, bytes);
      if refused {
        AbandonQueue([e]);
        return true, [];
      }
      order := FlushIfReady(m);
      ended := false;
    }

    /** A refused entry: room is made for it, and it is added again. */
    method AddRefused(e: Entry, bytes: nat, full: Moment, m: Moment)
      returns (ended: bool, ghost fullOrder: seq<ContainerInfo>, ghost order: seq<ContainerInfo>)
      requires Valid()
      modifies this`hub, this`ledger, queue, spool
      ensures Lists(fullOrder, old(queue.containers)) && order == []
      ensures (Value(), ended)
           == Delivery.MakeRoom(cfg, old(Value()), e, bytes, full.(order := fullOrder), m.(order := order))
    {
      hide Delivery.Enqueue, Delivery.DropQueue, Insert, Pruned, Lists;
      order := [];
      var stored;
      stored, fullOrder := MakeRoom(full);
      ghost var left := queue.containers;
      if !stored {
        AbandonQueue([e]);
        return true, fullOrder, order;
      }
      ended, order := AddAgain(e, bytes, m);
      NothingListed(order, left);
    }

    /** One arriving entry, named and collected; the result says whether the collection returned. */
    method Collect(e: Entry, bytes: nat, full: Moment, m: Moment)
      returns (ended: bool, ghost fullOrder: seq<ContainerInfo>, ghost order: seq<ContainerInfo>)
      requires Valid()
      modifies this`entryId, this`hub, this`ledger, queue, spool
      ensures entryId == old(entryId) + 1
      ensures match Delivery.Add(cfg, old(queue.Value()), e, bytes)
              case None => Lists(fullOrder, old(queue.containers)) && order == []
              case Some(q) => Delivery.Ready(cfg, q) ==> Lists(order, old(queue.containers))
      ensures var named := e.(insertId := InsertId(cfg.node.id, bootId, entryId));
              (Value(), ended)
                == Delivery.Collect(cfg, old(Value()), named, bytes, full.(order := fullOrder), m.(order := order))
    {
      hide Delivery.MakeRoom, Delivery.FlushQueue, Lists, InsertId;
      entryId := entryId + 1;
      var named := e.(insertId := InsertId(cfg.node.id, bootId, entryId));
      ledger := ledger.(collected := ledger.collected + [named]);
      fullOrder, order := [], [];
      var refused := queue.Add(named, bytes);
      if refused {
        ended, fullOrder, order := AddRefused(named, bytes, full, m);
        return;
      }
      order := FlushIfReady(m);
      ended := false;
    }
  }
}
