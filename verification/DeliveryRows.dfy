/** What the Hub's tables hold of the batches an agent delivered. */
module DeliveryRows {
  import opened Rows
  import opened Store
  import opened IngestRules
  import opened EntryIds
  import opened Delivery
  import opened DeliverySteps
  import opened DeliveryRuns
  import opened SpoolLaws
  import opened DeliveryBooks

  // ---- entry ids are given once ----------------------------------------------------------

  ghost predicate Given(w: World) {
    forall i :: 0 <= i < |w.names| ==>
                  w.names[i].0 in w.s.ledger.boots && (w.names[i].0 == w.s.bootId ==> w.names[i].1 <= w.entryId)
  }

  ghost predicate Apart(names: seq<(string, nat)>) {
    forall i, j :: 0 <= i < j < |names| ==> names[i] != names[j]
  }

  ghost predicate Numbered(w: World) {
    && w.s.bootId in w.s.ledger.boots && (forall b :: b in w.s.ledger.boots ==> '/' !in b)
    && Given(w) && Apart(w.names)
  }

  ghost predicate NamedBy(cfg: Config, w: World) {
    && |w.names| == |w.s.ledger.collected|
    && forall i :: 0 <= i < |w.names| ==>
                     w.s.ledger.collected[i].insertId == InsertId(cfg.node.id, w.names[i].0, w.names[i].1)
  }

  /** Only an arriving entry and a new process touch boots, names and counter. */
  lemma {:induction false} OthersSame(cfg: Config, w: World, a: Action)
    requires Keyed(w.s.hub.logs) && !a.Arrive? && !a.Reboot?
    ensures var next := Act(cfg, w, a);
            next.names == w.names && next.entryId == w.entryId && next.s.bootId == w.s.bootId &&
            next.s.ledger.boots == w.s.ledger.boots && next.s.ledger.collected == w.s.ledger.collected
  {
    hide SetContainers, InsertId, Add, Pruned, Insert, KeysOf, Send, Keyed, StoreRuns.Step;
  }

  lemma ArriveNames(cfg: Config, w: World, e: Entry, bytes: nat)
    ensures var next := AfterArrive(cfg, w, e, bytes);
            next.names == w.names + [(w.s.bootId, w.entryId + 1)] && next.entryId == w.entryId + 1 &&
            next.s.bootId == w.s.bootId && next.s.ledger.boots == w.s.ledger.boots &&
            next.s.ledger.collected == w.s.ledger.collected + [Named(cfg, w, e)]
  {
    hide InsertId;
  }

  lemma {:induction false} ActNumbered(cfg: Config, w: World, a: Action)
    requires Keyed(w.s.hub.logs) && Numbered(w) && Possible(cfg, w, a)
    ensures Numbered(Act(cfg, w, a))
  {
    hide AfterArrive, AfterTake, AfterSendHead, AfterRemove, AfterSendNew, AfterSave, TryAdd, GiveUp, SetContainers;
    match a
    case Arrive(e, bytes) => ArriveNames(cfg, w, e, bytes);
    case Reboot(_) =>
    case _ => OthersSame(cfg, w, a);
  }

  lemma {:induction false} ActNamed(cfg: Config, w: World, a: Action)
    requires Keyed(w.s.hub.logs) && NamedBy(cfg, w) && Possible(cfg, w, a)
    ensures NamedBy(cfg, Act(cfg, w, a))
  {
    hide AfterArrive, AfterTake, AfterSendHead, AfterRemove, AfterSendNew, AfterSave, TryAdd, GiveUp, SetContainers,
      InsertId;
    match a
    case Arrive(e, bytes) => ArriveNames(cfg, w, e, bytes);
    case Reboot(_) =>
    case _ => OthersSame(cfg, w, a);
  }

  lemma {:induction false} RunNumbered(cfg: Config, bootId: string, actions: seq<Action>)
    requires PossibleRun(cfg, bootId, actions)
    ensures Numbered(Run(cfg, bootId, actions)) && NamedBy(cfg, Run(cfg, bootId, actions))
  {
    if actions == [] {
    } else {
      var n := |actions| - 1;
      PossiblePrefix(cfg, bootId, actions);
      RunNumbered(cfg, bootId, actions[..n]);
      ActNumbered(cfg, Run(cfg, bootId, actions[..n]), actions[n]);
      ActNamed(cfg, Run(cfg, bootId, actions[..n]), actions[n]);
    }
  }

  ghost predicate Distinct(entries: seq<Entry>) {
    forall i, j :: 0 <= i < j < |entries| ==> entries[i].insertId != entries[j].insertId
  }

  /** Over restarts of the agent, no two collected entries have the same id. */
  lemma {:induction false} EntryIdsAreFresh(cfg: Config, bootId: string, actions: seq<Action>)
    requires PossibleRun(cfg, bootId, actions)
    ensures Distinct(Run(cfg, bootId, actions).s.ledger.collected)
  {
    RunNumbered(cfg, bootId, actions);
    var w := Run(cfg, bootId, actions);
    forall i, j | 0 <= i < j < |w.names| ensures w.s.ledger.collected[i].insertId != w.s.ledger.collected[j].insertId {
      hide InsertId;
      if w.s.ledger.collected[i].insertId == w.s.ledger.collected[j].insertId {
        InsertIdUnique(cfg.node.id, w.names[i].0, w.names[i].1, w.names[j].0, w.names[j].1);
      }
    }
  }

  // ---- where an entry is --------------------------------------------------------------------

  lemma {:induction false} ContentAt(segments: seq<Segment>, i: nat, k: nat)
    requires i < |segments| && k < |Content(segments[i])|
    ensures |Contents(segments[..i])| + k < |Contents(segments)|
    ensures Contents(segments)[|Contents(segments[..i])| + k] == Content(segments[i])[k]
  {
    var n := |segments| - 1;
    var init, last := Contents(segments[..n]), Content(segments[n]);
    assert Contents(segments) == init + last;
    if i < n {
      ContentAt(segments[..n], i, k);
      assert segments[..n][..i] == segments[..i];
      assert (init + last)[|Contents(segments[..i])| + k] == init[|Contents(segments[..i])| + k];
    } else {
      assert (init + last)[|init| + k] == last[k];
    }
  }

  /** The positions of different segments do not meet. */
  lemma ContentBefore(segments: seq<Segment>, i: nat, j: nat, k: nat)
    requires i < j < |segments| && k < |Content(segments[i])|
    ensures |Contents(segments[..i])| + k < |Contents(segments[..j])|
  {
    ContentAt(segments[..j], i, k);
    assert segments[..j][..i] == segments[..i];
  }

  /** An id is found in one batch, at one place. */
  lemma OnePlace(segments: seq<Segment>, rest: seq<Entry>, i: nat, k: nat, j: nat, l: nat)
    requires Distinct(Contents(segments) + rest)
    requires i < |segments| && j < |segments| && k < |Content(segments[i])| && l < |Content(segments[j])|
    requires Content(segments[i])[k].insertId == Content(segments[j])[l].insertId
    ensures i == j && k == l
  {
    var all := Contents(segments) + rest;
    ContentAt(segments, i, k);
    ContentAt(segments, j, l);
    assert all[|Contents(segments[..i])| + k] == Content(segments[i])[k];
    assert all[|Contents(segments[..j])| + l] == Content(segments[j])[l];
    if i < j {
      ContentBefore(segments, i, j, k);
    } else if j < i {
      ContentBefore(segments, j, i, l);
    }
  }

  ghost predicate OneKey(segments: seq<Segment>) {
    forall a, b :: Flushed(a) in segments && Flushed(b) in segments && a.key == b.key ==> a == b
  }

  ghost predicate OneBatch(segments: seq<Segment>) {
    forall a, b, e, f :: Flushed(a) in segments && Flushed(b) in segments && e in a.entries && f in b.entries ==>
                           e.insertId == f.insertId ==> a == b && e == f
  }

  lemma Placed(segments: seq<Segment>, a: EntryBatch, e: Entry) returns (i: nat, k: nat)
    requires Flushed(a) in segments && e in a.entries
    ensures i < |segments| && segments[i] == Flushed(a) && k < |a.entries| && a.entries[k] == e
  {
    i :| 0 <= i < |segments| && segments[i] == Flushed(a);
    k :| 0 <= k < |a.entries| && a.entries[k] == e;
  }

  lemma {:induction false} DistinctOneBatch(segments: seq<Segment>, rest: seq<Entry>)
    requires Distinct(Contents(segments) + rest)
    ensures OneBatch(segments)
  {
    forall a, b, e, f | Flushed(a) in segments && Flushed(b) in segments && e in a.entries && f in b.entries
      ensures e.insertId == f.insertId ==> a == b && e == f
    {
      var i, k := Placed(segments, a, e);
      var j, l := Placed(segments, b, f);
      if e.insertId == f.insertId {
        OnePlace(segments, rest, i, k, j, l);
      }
    }
  }

  lemma {:induction false} FreshOneKey(segments: seq<Segment>)
    requires FreshKeys(segments)
    ensures OneKey(segments)
  {
    forall a, b | Flushed(a) in segments && Flushed(b) in segments && a.key == b.key ensures a == b {
      var i :| 0 <= i < |segments| && segments[i] == Flushed(a);
      var j :| 0 <= j < |segments| && segments[j] == Flushed(b);
    }
  }

  lemma {:induction false} RunOneKey(cfg: Config, bootId: string, actions: seq<Action>)
    requires PossibleRun(cfg, bootId, actions)
    ensures OneKey(Run(cfg, bootId, actions).s.ledger.segments)
  {
    hide PossibleRun, Run, OneKey, FreshKeys;
    IdentitiesAreFresh(cfg, bootId, actions);
    FreshOneKey(Run(cfg, bootId, actions).s.ledger.segments);
  }

  lemma {:induction false} RunOneBatch(cfg: Config, bootId: string, actions: seq<Action>)
    requires PossibleRun(cfg, bootId, actions)
    ensures OneBatch(Run(cfg, bootId, actions).s.ledger.segments)
  {
    hide PossibleRun, Run, Distinct, Contents, OneBatch;
    var w := Run(cfg, bootId, actions);
    var segments, rest := w.s.ledger.segments, w.s.queue.entries + Waiting(w.phase);
    EntryIdsAreFresh(cfg, bootId, actions);
    EntriesAreConserved(cfg, bootId, actions);
    assert w.s.ledger.collected == Contents(segments) + rest;
    DistinctOneBatch(segments, rest);
  }

  // ---- rows --------------------------------------------------------------------------------

  /** The entry is stored, owned by the node, under that very batch. */
  ghost predicate StoredUnder(cfg: Config, logs: Logs, key: BatchKey, e: Entry) {
    e.insertId in logs && logs[e.insertId].batch == key && logs[e.insertId].entry == StampEntry(cfg.node, e)
  }

  /** A row of somebody else's batch has the id already. */
  ghost predicate Taken(cfg: Config, logs: Logs, id: string) {
    id in logs && logs[id].batch.agentId != cfg.node.id
  }

  ghost predicate OwnRow(cfg: Config, logs: Logs, id: string) {
    id in logs && logs[id].batch.agentId == cfg.node.id
  }

  /** The row is an entry of a batch that was flushed and accepted. */
  ghost predicate Origin(cfg: Config, s: State, id: string) {
    exists batch, e :: Flushed(batch) in s.ledger.segments && batch.key in s.ledger.firsts && e in batch.entries
                       && e.insertId == id && StoredUnder(cfg, s.hub.logs, batch.key, e)
  }

  ghost predicate OwnRows(cfg: Config, s: State) {
    forall id :: OwnRow(cfg, s.hub.logs, id) ==> Origin(cfg, s, id)
  }

  ghost predicate Settled(cfg: Config, logs: Logs, key: BatchKey, e: Entry, cleaned: set<string>) {
    StoredUnder(cfg, logs, key, e) || Taken(cfg, logs, e.insertId) || e.insertId in cleaned
  }

  /** Every entry of an applied batch is stored, or its id was taken, or its row
      was cleaned up. */
  ghost predicate Kept(cfg: Config, s: State, cleaned: set<string>) {
    forall batch, e :: Flushed(batch) in s.ledger.segments && batch.key in s.ledger.firsts && e in batch.entries ==>
                         Settled(cfg, s.hub.logs, batch.key, e, cleaned)
  }

  /** What is in the spool or in hand was flushed. */
  ghost predicate OwnBatches(w: World) {
    && (forall item :: item in w.s.spool ==> Flushed(item.batch) in w.s.ledger.segments)
    && (Hand(w.phase).Some? ==> Flushed(Hand(w.phase).value) in w.s.ledger.segments)
  }

  // ---- what a write inserts -------------------------------------------------------------------

  ghost predicate Grows(before: Logs, after: Logs) {
    forall id :: id in before ==> id in after && after[id] == before[id]
  }

  lemma {:induction false} InsertedIds(logs: Logs, batch: EntryBatch, now: int, n: nat)
    requires n <= |batch.entries|
    ensures forall i :: 0 <= i < n ==> batch.entries[i].insertId in InsertRows(logs, batch, now, n)
  {
    if n == 0 {
    } else {
      InsertedIds(logs, batch, now, n - 1);
    }
  }

  /** A row that is new is that of an entry with its id. */
  lemma {:induction false} InsertedFrom(logs: Logs, batch: EntryBatch, now: int, n: nat, id: string) returns (i: nat)
    requires n <= |batch.entries| && id in InsertRows(logs, batch, now, n) && id !in logs
    ensures i < n && batch.entries[i].insertId == id && InsertRows(logs, batch, now, n)[id] == RowOf(batch, now, i)
  {
    if id in InsertRows(logs, batch, now, n - 1) {
      i := InsertedFrom(logs, batch, now, n - 1, id);
    } else {
      i := n - 1;
    }
  }

  ghost predicate NewRows(cfg: Config, before: Logs, after: Logs, batch: EntryBatch) {
    forall id :: id in after && id !in before ==>
                   exists e :: e in batch.entries && e.insertId == id && StoredUnder(cfg, after, batch.key, e)
  }

  ghost predicate AllIn(logs: Logs, batch: EntryBatch) {
    forall e :: e in batch.entries ==> e.insertId in logs
  }

  lemma StampedRows(cfg: Config, logs: Logs, batch: EntryBatch, now: int)
    ensures var after := InsertRows(logs, Stamp(cfg.node, batch), now, |batch.entries|);
            Grows(logs, after) && AllIn(after, batch) && NewRows(cfg, logs, after, batch)
  {
    var stamped, n := Stamp(cfg.node, batch), |batch.entries|;
    var after := InsertRows(logs, stamped, now, n);
    StoreRuns.InsertedRows(logs, stamped, now, n);
    forall e | e in batch.entries ensures e.insertId in after {
      var i :| 0 <= i < n && batch.entries[i] == e;
      InsertedIds(logs, stamped, now, n);
      assert stamped.entries[i].insertId == e.insertId;
    }
    forall id | id in after && id !in logs
      ensures exists e :: e in batch.entries && e.insertId == id && StoredUnder(cfg, after, batch.key, e)
    {
      var i := InsertedFrom(logs, stamped, now, n, id);
      assert batch.entries[i] in batch.entries && StoredUnder(cfg, after, batch.key, batch.entries[i]);
    }
  }

  /** The tables after one delivery that stores the batch. */
  lemma StoresRows(cfg: Config, s: State, batch: EntryBatch, shot: Shot)
    requires Stores(s.hub, cfg.node, batch) && !NoContent(batch) && shot.network != RequestLost
    ensures var logs := Send(cfg, s, batch, shot).0.hub.logs;
            Grows(s.hub.logs, logs) && AllIn(logs, batch) && NewRows(cfg, s.hub.logs, logs, batch)
  {
    hide Grows, AllIn, NewRows;
    StampedRows(cfg, s.hub.logs, batch, shot.now);
    assert Send(cfg, s, batch, shot).0.hub.logs
        == InsertRows(s.hub.logs, Stamp(cfg.node, batch), shot.now, |batch.entries|);
  }

  /** A delivery that stores nothing changes nothing. */
  lemma StoresNothing(cfg: Config, s: State, batch: EntryBatch, shot: Shot)
    requires shot.network == RequestLost || !Stores(s.hub, cfg.node, batch)
    ensures Send(cfg, s, batch, shot).0 == s
  {}

  // ---- deliveries -------------------------------------------------------------------------------

  ghost predicate OneEach(segments: seq<Segment>) {
    OneKey(segments) && OneBatch(segments)
  }

  lemma OriginLater(cfg: Config, s: State, t: State, id: string)
    requires Origin(cfg, s, id) && id in t.hub.logs && t.hub.logs[id] == s.hub.logs[id]
    requires forall b :: Flushed(b) in s.ledger.segments ==> Flushed(b) in t.ledger.segments
    requires forall key :: key in s.ledger.firsts ==> key in t.ledger.firsts
    ensures Origin(cfg, t, id)
  {
    var b, e :| Flushed(b) in s.ledger.segments && b.key in s.ledger.firsts && e in b.entries
                && e.insertId == id && StoredUnder(cfg, s.hub.logs, b.key, e);
    assert StoredUnder(cfg, t.hub.logs, b.key, e);
  }

  lemma StoredOwnRows(cfg: Config, s: State, t: State, batch: EntryBatch)
    requires OwnRows(cfg, s) && Flushed(batch) in s.ledger.segments && t.ledger.segments == s.ledger.segments
    requires batch.key in t.ledger.firsts && forall key :: key in s.ledger.firsts ==> key in t.ledger.firsts
    requires Grows(s.hub.logs, t.hub.logs) && NewRows(cfg, s.hub.logs, t.hub.logs, batch)
    ensures OwnRows(cfg, t)
  {
    forall id | OwnRow(cfg, t.hub.logs, id) ensures Origin(cfg, t, id) {
      if id in s.hub.logs {
        OriginLater(cfg, s, t, id);
      } else {
        var e :| e in batch.entries && e.insertId == id && StoredUnder(cfg, t.hub.logs, batch.key, e);
        assert Flushed(batch) in t.ledger.segments;
      }
    }
  }

  /** In a batch just stored, each id is under the batch or was taken. */
  lemma StoredSettles(cfg: Config, t: State, batch: EntryBatch, e: Entry, cleaned: set<string>)
    requires OwnRows(cfg, t) && OneBatch(t.ledger.segments) && Flushed(batch) in t.ledger.segments
    requires e in batch.entries && e.insertId in t.hub.logs
    ensures Settled(cfg, t.hub.logs, batch.key, e, cleaned)
  {
    if OwnRow(cfg, t.hub.logs, e.insertId) {
      assert Origin(cfg, t, e.insertId);
      var c, f :| Flushed(c) in t.ledger.segments && c.key in t.ledger.firsts && f in c.entries
                  && f.insertId == e.insertId && StoredUnder(cfg, t.hub.logs, c.key, f);
      assert c == batch && f == e;
    }
  }

  lemma GrowsSettled(cfg: Config, before: Logs, after: Logs, key: BatchKey, e: Entry, cleaned: set<string>)
    requires Grows(before, after) && Settled(cfg, before, key, e, cleaned)
    ensures Settled(cfg, after, key, e, cleaned)
  {}

  lemma StoredKept(cfg: Config, s: State, t: State, batch: EntryBatch, cleaned: set<string>)
    requires OwnRows(cfg, t) && Kept(cfg, s, cleaned) && t.ledger.segments == s.ledger.segments
    requires OneEach(s.ledger.segments) && Flushed(batch) in s.ledger.segments
    requires Grows(s.hub.logs, t.hub.logs) && AllIn(t.hub.logs, batch)
    requires forall key :: key in t.ledger.firsts ==> key in s.ledger.firsts || key == batch.key
    ensures Kept(cfg, t, cleaned)
  {
    hide Grows, OwnRows, Settled, OneBatch;
    forall b, e | Flushed(b) in t.ledger.segments && b.key in t.ledger.firsts && e in b.entries
      ensures Settled(cfg, t.hub.logs, b.key, e, cleaned)
    {
      if b.key == batch.key {
        assert b == batch;
        StoredSettles(cfg, t, batch, e, cleaned);
      } else {
        GrowsSettled(cfg, s.hub.logs, t.hub.logs, b.key, e, cleaned);
      }
    }
  }

  lemma SendFirsts(cfg: Config, s: State, batch: EntryBatch, shot: Shot)
    ensures var firsts := Send(cfg, s, batch, shot).0.ledger.firsts;
            (forall key :: key in s.ledger.firsts ==> key in firsts) &&
            (forall key :: key in firsts ==> key in s.ledger.firsts || key == batch.key) &&
            (shot.network != RequestLost && Stores(s.hub, cfg.node, batch) ==> batch.key in firsts)
  {
    hide Stores, Receive;
  }

  /** A delivery keeps the rows of this agent in order. */
  lemma SendRows(cfg: Config, s: State, batch: EntryBatch, shot: Shot, cleaned: set<string>)
    requires OwnRows(cfg, s) && Kept(cfg, s, cleaned) && OneEach(s.ledger.segments)
    requires Flushed(batch) in s.ledger.segments && !NoContent(batch)
    ensures OwnRows(cfg, Send(cfg, s, batch, shot).0) && Kept(cfg, Send(cfg, s, batch, shot).0, cleaned)
  {
    hide *;
    var t := Send(cfg, s, batch, shot).0;
    if shot.network != RequestLost && Stores(s.hub, cfg.node, batch) {
      SendFirsts(cfg, s, batch, shot);
      StoresRows(cfg, s, batch, shot);
      StoredOwnRows(cfg, s, t, batch);
      StoredKept(cfg, s, t, batch, cleaned);
    } else {
      StoresNothing(cfg, s, batch, shot);
    }
  }

  // ---- what the Hub does for others ---------------------------------------------------------------

  /** The ids whose rows a cleanup deletes. */
  function CleanedBy(before: Logs, after: Logs, event: StoreRuns.Event): set<string> {
    if event.Clean? then before.Keys - after.Keys else {}
  }

  /** Rows of this agent are not added; rows are kept as they are or cleaned up. */
  ghost predicate Keeps(cfg: Config, before: Logs, after: Logs, cleaned: set<string>) {
    && (forall id :: OwnRow(cfg, after, id) ==> id in before && after[id] == before[id])
    && (forall id :: id in before ==> (id in after && after[id] == before[id]) || id in cleaned)
  }

  /** What the Hub does for others deletes rows only in a cleanup. */
  lemma {:induction false} ElsewhereLogs(cfg: Config, db: Db, event: StoreRuns.Event)
    requires Keyed(db.logs) && (event.Write? ==> event.batch.key.agentId != cfg.node.id)
    ensures var logs := StoreRuns.Step(db, cfg.retention, event).logs;
            Keeps(cfg, db.logs, logs, CleanedBy(db.logs, logs, event))
  {
    if event.Write? {
      StoreRuns.InsertedRows(db.logs, event.batch, event.now, |event.batch.entries|);
    }
  }

  lemma KeepsOwnRows(cfg: Config, s: State, t: State, more: set<string>)
    requires OwnRows(cfg, s) && t == s.(hub := t.hub) && Keeps(cfg, s.hub.logs, t.hub.logs, more)
    ensures OwnRows(cfg, t)
  {
    forall id | OwnRow(cfg, t.hub.logs, id) ensures Origin(cfg, t, id) {
      OriginLater(cfg, s, t, id);
    }
  }

  lemma KeepsSettled(cfg: Config, before: Logs, after: Logs, key: BatchKey, e: Entry, cleaned: set<string>,
                     more: set<string>)
    requires Keeps(cfg, before, after, more) && Settled(cfg, before, key, e, cleaned)
    ensures Settled(cfg, after, key, e, cleaned + more)
  {}

  lemma KeepsKept(cfg: Config, s: State, t: State, cleaned: set<string>, more: set<string>)
    requires Kept(cfg, s, cleaned) && t == s.(hub := t.hub) && Keeps(cfg, s.hub.logs, t.hub.logs, more)
    ensures Kept(cfg, t, cleaned + more)
  {
    hide Keeps, Settled;
    forall b, e | Flushed(b) in t.ledger.segments && b.key in t.ledger.firsts && e in b.entries
      ensures Settled(cfg, t.hub.logs, b.key, e, cleaned + more)
    {
      KeepsSettled(cfg, s.hub.logs, t.hub.logs, b.key, e, cleaned, more);
    }
  }

  lemma {:induction false} ElsewhereRows(cfg: Config, s: State, event: StoreRuns.Event, cleaned: set<string>)
    requires Keyed(s.hub.logs) && OwnRows(cfg, s) && Kept(cfg, s, cleaned)
    requires event.Write? ==> event.batch.key.agentId != cfg.node.id
    ensures var t := s.(hub := StoreRuns.Step(s.hub, cfg.retention, event));
            OwnRows(cfg, t) && Kept(cfg, t, cleaned + CleanedBy(s.hub.logs, t.hub.logs, event))
  {
    hide *;
    var t := s.(hub := StoreRuns.Step(s.hub, cfg.retention, event));
    var more := CleanedBy(s.hub.logs, t.hub.logs, event);
    ElsewhereLogs(cfg, s.hub, event);
    KeepsOwnRows(cfg, s, t, more);
    KeepsKept(cfg, s, t, cleaned, more);
  }

  /** Rows of unchanged tables, with more batches flushed but none more applied. */
  ghost predicate SameHub(s: State, t: State) {
    && t.hub.logs == s.hub.logs && t.ledger.firsts == s.ledger.firsts
    && (forall b :: Flushed(b) in s.ledger.segments ==> Flushed(b) in t.ledger.segments)
    && (forall b :: Flushed(b) in t.ledger.segments ==> Flushed(b) in s.ledger.segments || b.key !in s.ledger.firsts)
  }

  lemma SameRows(cfg: Config, s: State, t: State, cleaned: set<string>)
    requires OwnRows(cfg, s) && Kept(cfg, s, cleaned) && SameHub(s, t)
    ensures OwnRows(cfg, t) && Kept(cfg, t, cleaned)
  {
    hide StoredUnder, Settled;
  }

  // ---- every action ----------------------------------------------------------------------------

  ghost predicate RowsSound(cfg: Config, w: World, cleaned: set<string>) {
    OwnRows(cfg, w.s) && Kept(cfg, w.s, cleaned) && OwnBatches(w)
  }

  lemma TakeRows(cfg: Config, w: World, order: seq<ContainerInfo>, cleaned: set<string>)
    requires Sound(cfg, w.s) && RowsSound(cfg, w, cleaned) && Possible(cfg, w, Take(order))
    ensures RowsSound(cfg, AfterTake(cfg, w, order), cleaned)
  {
    hide OwnRows, Kept;
      var (t, batch) := Flush(cfg, w.s, order);
    assert batch.Some? ==> batch.value.key !in w.s.ledger.firsts;
    SameRows(cfg, w.s, t, cleaned);
  }

  lemma DropRows(cfg: Config, s: State, extra: seq<Entry>, cleaned: set<string>)
    requires OwnRows(cfg, s) && Kept(cfg, s, cleaned)
    ensures OwnRows(cfg, DropQueue(s, extra)) && Kept(cfg, DropQueue(s, extra), cleaned)
    ensures forall b :: Flushed(b) in s.ledger.segments ==> Flushed(b) in DropQueue(s, extra).ledger.segments
  {
    hide OwnRows, Kept;
    SameRows(cfg, s, DropQueue(s, extra), cleaned);
  }

  lemma SavedItems(cfg: Config, s: State, batch: EntryBatch, saving: Saving)
    requires Sound(cfg, s) && Held(cfg, s, batch)
    ensures forall x :: x in WriteSpool(cfg, s, batch, saving).0.spool ==> x in s.spool || x.batch == batch
  {
    hide Pruned, Insert;
    var item := SpoolItem(batch, saving.size, saving.now);
    InsertItem(s.spool, item);
    PrunedKeeps(cfg, saving.now, Insert(s.spool, item), saving.fault);
  }

  lemma SavedSame(cfg: Config, s: State, batch: EntryBatch, saving: Saving)
    ensures SameHub(s, WriteSpool(cfg, s, batch, saving).0)
    ensures WriteSpool(cfg, s, batch, saving).0.ledger.segments == s.ledger.segments
  {
    hide Pruned, Insert, KeysOf;
  }

  lemma SaveRows(cfg: Config, w: World, saving: Saving, cleaned: set<string>)
    requires WorldSound(cfg, w) && RowsSound(cfg, w, cleaned) && (w.phase.Spooling? || w.phase.Storing?)
    ensures RowsSound(cfg, AfterSave(cfg, w, saving), cleaned)
  {
    hide OwnRows, Kept, WriteSpool, SameHub, Sound, Accounted, Held, DropQueue;
    var saved := WriteSpool(cfg, w.s, w.phase.batch, saving).0;
    SavedItems(cfg, w.s, w.phase.batch, saving);
    SavedSame(cfg, w.s, w.phase.batch, saving);
    SameRows(cfg, w.s, saved, cleaned);
    DropRows(cfg, saved, Waiting(w.phase), cleaned);
    DropSpool(saved, Waiting(w.phase));
  }

  lemma DropSpool(s: State, extra: seq<Entry>)
    ensures DropQueue(s, extra).spool == s.spool
  {}

  lemma SendHeadRows(cfg: Config, w: World, shot: Shot, cleaned: set<string>)
    requires WorldSound(cfg, w) && RowsSound(cfg, w, cleaned) && w.phase.Replaying? && w.s.spool != []
    requires OneEach(w.s.ledger.segments)
    ensures RowsSound(cfg, AfterSendHead(cfg, w, shot), cleaned)
  {
    hide OwnRows, Kept, Send, OneEach, Accounted;
    var batch := w.s.spool[0].batch;
    assert w.s.spool[0] in w.s.spool;
    SendRows(cfg, w.s, batch, shot, cleaned);
  }

  lemma SendNewRows(cfg: Config, w: World, shot: Shot, cleaned: set<string>)
    requires WorldSound(cfg, w) && RowsSound(cfg, w, cleaned) && w.phase.Sending?
    requires OneEach(w.s.ledger.segments)
    ensures RowsSound(cfg, AfterSendNew(cfg, w, shot), cleaned)
  {
    hide OwnRows, Kept, Send, OneEach, Sound, Accounted;
    SendRows(cfg, w.s, w.phase.batch, shot, cleaned);
  }

  /** The ids that an action cleans up. */
  ghost function CleanedIn(cfg: Config, w: World, a: Action): set<string>
    requires Keyed(w.s.hub.logs)
  {
    if a.Elsewhere? then CleanedBy(w.s.hub.logs, Act(cfg, w, a).s.hub.logs, a.event) else {}
  }

  /** Actions that leave the Hub's tables, what was accepted and every batch. */
  ghost predicate Quiet(a: Action) {
    !(a.Take? || a.SendHead? || a.SendNew? || a.Save? || a.Elsewhere?)
  }

  /** The queue and the waiting entry become a drop, or nothing was flushed. */
  lemma DropSame(s: State, extra: seq<Entry>)
    ensures SameHub(s, DropQueue(s, extra))
  {}

  /** Only the queue, the spool, or what was collected differs. */
  lemma LedgerSame(s: State, t: State)
    requires t.hub == s.hub && t.ledger == s.ledger.(collected := t.ledger.collected)
    ensures SameHub(s, t)
  {}

  lemma {:induction false} QuietSame(cfg: Config, w: World, a: Action)
    requires Keyed(w.s.hub.logs) && Quiet(a)
    ensures SameHub(w.s, Act(cfg, w, a).s)
  {
    hide SetContainers, InsertId, Add, AfterTake, AfterSendHead, AfterSendNew, AfterSave, Named, Stopped, SameHub,
      Keyed, StoreRuns.Step;
    var next := Act(cfg, w, a).s;
    DropSame(w.s, Waiting(w.phase));
    if next.ledger.segments == w.s.ledger.segments && next.ledger.boots == w.s.ledger.boots {
      LedgerSame(w.s, next);
    } else {
      DroppedSame(w.s, next, Waiting(w.phase));
    }
  }

  lemma DroppedSame(s: State, t: State, extra: seq<Entry>)
    requires SameHub(s, DropQueue(s, extra))
    requires t.hub == s.hub && t.ledger.firsts == s.ledger.firsts
    requires t.ledger.segments == DropQueue(s, extra).ledger.segments
    ensures SameHub(s, t)
  {}

  lemma {:induction false} QuietBatches(cfg: Config, w: World, a: Action)
    requires Keyed(w.s.hub.logs) && Quiet(a) && OwnBatches(w)
    ensures OwnBatches(Act(cfg, w, a))
  {
    hide SetContainers, InsertId, Add, AfterTake, AfterSendHead, AfterSendNew, AfterSave, Named;
  }

  lemma {:induction false} QuietRows(cfg: Config, w: World, a: Action, cleaned: set<string>)
    requires Keyed(w.s.hub.logs) && RowsSound(cfg, w, cleaned) && Quiet(a)
    ensures RowsSound(cfg, Act(cfg, w, a), cleaned)
  {
    hide OwnRows, Kept, OwnBatches, Act, SameHub, Quiet;
    QuietSame(cfg, w, a);
    QuietBatches(cfg, w, a);
    SameRows(cfg, w.s, Act(cfg, w, a).s, cleaned);
  }

  lemma {:induction false} ElsewhereWorld(cfg: Config, w: World, event: StoreRuns.Event, cleaned: set<string>)
    requires Keyed(w.s.hub.logs) && RowsSound(cfg, w, cleaned) && Possible(cfg, w, Elsewhere(event))
    ensures RowsSound(cfg, Act(cfg, w, Elsewhere(event)), cleaned + CleanedIn(cfg, w, Elsewhere(event)))
  {
    hide OwnRows, Kept;
    ElsewhereRows(cfg, w.s, event, cleaned);
  }

  lemma {:induction false} ActRows(cfg: Config, w: World, a: Action, cleaned: set<string>)
    requires WorldSound(cfg, w) && Possible(cfg, w, a) && RowsSound(cfg, w, cleaned) && OneEach(w.s.ledger.segments)
    ensures RowsSound(cfg, Act(cfg, w, a), cleaned + CleanedIn(cfg, w, a))
  {
    hide OwnRows, Kept, OwnBatches, Accounted, Held, OneEach, CleanedBy, AfterArrive, AfterTake, AfterSendHead,
      AfterRemove, AfterSendNew, AfterSave, AfterReboot, TryAdd, GiveUp, SetContainers, Stopped;
    assert cleaned + {} == cleaned;
    match a
    case Take(order) => TakeRows(cfg, w, order, cleaned);
    case SendHead(shot) => SendHeadRows(cfg, w, shot, cleaned);
    case SendNew(shot) => SendNewRows(cfg, w, shot, cleaned);
    case Save(saving) => SaveRows(cfg, w, saving, cleaned);
    case Elsewhere(event) => ElsewhereWorld(cfg, w, event, cleaned);
    case _ => QuietRows(cfg, w, a, cleaned);
  }

  // ---- runs ----------------------------------------------------------------------------------------

  /** The ids whose rows a cleanup of the run deleted. */
  ghost function Cleaned(cfg: Config, bootId: string, actions: seq<Action>): set<string> {
    if actions == [] then {}
    else
      var n := |actions| - 1;
      Cleaned(cfg, bootId, actions[..n]) + CleanedIn(cfg, Run(cfg, bootId, actions[..n]), actions[n])
  }

  lemma {:induction false} RunRows(cfg: Config, bootId: string, actions: seq<Action>)
    requires PossibleRun(cfg, bootId, actions)
    ensures RowsSound(cfg, Run(cfg, bootId, actions), Cleaned(cfg, bootId, actions))
  {
    if actions == [] {
      assert Run(cfg, bootId, actions) == Start(bootId);
    } else {
      var n := |actions| - 1;
      var w := Run(cfg, bootId, actions[..n]);
      PossiblePrefix(cfg, bootId, actions);
      RunRows(cfg, bootId, actions[..n]);
      RunSound(cfg, bootId, actions[..n]);
      RunOneKey(cfg, bootId, actions[..n]);
      RunOneBatch(cfg, bootId, actions[..n]);
      ActRows(cfg, w, actions[n], Cleaned(cfg, bootId, actions[..n]));
    }
  }

  /** Applied means stored: every entry of a batch the Hub accepted is in its
      tables under that very batch, owned by the node, unless a cleanup deleted
      the row, or the id was taken before by a batch of somebody else. */
  lemma {:induction false} AppliedEntriesAreStored(cfg: Config, bootId: string, actions: seq<Action>,
                                                   batch: EntryBatch, e: Entry)
    requires PossibleRun(cfg, bootId, actions)
    requires var ledger := Run(cfg, bootId, actions).s.ledger;
             Flushed(batch) in ledger.segments && batch.key in ledger.firsts && e in batch.entries
    ensures var logs := Run(cfg, bootId, actions).s.hub.logs;
            || StoredUnder(cfg, logs, batch.key, e)
            || Taken(cfg, logs, e.insertId)
            || e.insertId in Cleaned(cfg, bootId, actions)
  {
    RunRows(cfg, bootId, actions);
    assert Settled(cfg, Run(cfg, bootId, actions).s.hub.logs, batch.key, e, Cleaned(cfg, bootId, actions));
  }

  /** Every stored row of a batch of this agent is an entry of a batch it flushed
      and the Hub accepted. */
  lemma {:induction false} StoredRowsWereFlushed(cfg: Config, bootId: string, actions: seq<Action>, id: string)
    requires PossibleRun(cfg, bootId, actions)
    requires id in Run(cfg, bootId, actions).s.hub.logs
    requires Run(cfg, bootId, actions).s.hub.logs[id].batch.agentId == cfg.node.id
    ensures var s := Run(cfg, bootId, actions).s;
            exists batch, e :: Flushed(batch) in s.ledger.segments && batch.key in s.ledger.firsts && e in batch.entries
                               && e.insertId == id && StoredUnder(cfg, s.hub.logs, batch.key, e)
  {
    RunRows(cfg, bootId, actions);
    assert OwnRow(cfg, Run(cfg, bootId, actions).s.hub.logs, id);
  }
}
