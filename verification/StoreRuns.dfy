/** Whole runs of the store: receipts, replays and heartbeat authority. */
module StoreRuns {
  import opened Options
  import opened Rows
  import opened Store
  import opened StoreClass

  /** One transaction. Fault is a call that failed in the database and was
      rolled back. */
  datatype Event =
    | Write(batch: EntryBatch, now: int)
    | Sync(nodeId: string, infos: seq<ContainerInfo>, now: int)
    | Clean(before: Option<int>, maxBytes: int, mode: Mode, now: int)
    | Fault

  function Step(db: Db, retention: int, event: Event): (next: Db)
    requires Keyed(db.logs)
    ensures Keyed(next.logs)
  {
    match event
    case Write(batch, now) =>
      InsertRowsKeyed(db.logs, batch, now, |batch.entries|);
      AfterWrite(db, batch, now)
    case Sync(nodeId, infos, now) => AfterSync(db, nodeId, infos, now)
    case Clean(before, maxBytes, mode, now) => AfterCleanup(db, retention, before, maxBytes, mode, now)
    case Fault => db
  }

  function Run(events: seq<Event>, retention: int): (db: Db)
    ensures Keyed(db.logs)
  {
    if events == [] then EMPTY else Step(Run(events[..|events| - 1], retention), retention, events[|events| - 1])
  }

  lemma RunStep(events: seq<Event>, retention: int, i: nat)
    requires i < |events|
    ensures Run(events[..i + 1], retention) == Step(Run(events[..i], retention), retention, events[i])
  {
    assert events[..i + 1][..i] == events[..i];
  }

  // ---- every retained log has its receipt ---------------------------------------

  ghost predicate Covered(db: Db) {
    forall id :: id in db.logs && db.logs[id].batch.agentId != "" ==> db.logs[id].batch in db.receipts
  }

  lemma {:induction false} InsertedRows(logs: Logs, batch: EntryBatch, now: int, n: nat)
    requires n <= |batch.entries|
    ensures forall id :: id in logs ==>
                           id in InsertRows(logs, batch, now, n) && InsertRows(logs, batch, now, n)[id] == logs[id]
    ensures forall id :: id in InsertRows(logs, batch, now, n) && id !in logs ==>
                           InsertRows(logs, batch, now, n)[id].batch == batch.key
  {
    if n == 0 {
    } else {
      InsertedRows(logs, batch, now, n - 1);
    }
  }

  lemma StepCovered(db: Db, retention: int, event: Event)
    requires Keyed(db.logs) && Covered(db)
    ensures Covered(Step(db, retention, event))
  {
    match event
    case Write(batch, now) =>
      InsertedRows(db.logs, batch, now, |batch.entries|);
    case Sync(_, _, _) =>
    case Clean(before, maxBytes, mode, now) =>
      var next := Step(db, retention, event);
      forall id | id in next.logs && next.logs[id].batch.agentId != "" ensures next.logs[id].batch in next.receipts {
        assert id in db.logs && next.logs[id] == db.logs[id];
        assert HasLogs(next.logs, next.logs[id].batch);
      }
    case Fault =>
  }

  /** In every run, every retained log of an agent still has its receipt, so a
      replay of its batch is recognised however old it is. */
  lemma {:induction false} RetainedLogsHaveReceipts(events: seq<Event>, retention: int)
    ensures Covered(Run(events, retention))
  {
    if events == [] {
    } else {
      RetainedLogsHaveReceipts(events[..|events| - 1], retention);
      StepCovered(Run(events[..|events| - 1], retention), retention, events[|events| - 1]);
    }
  }

  // ---- a second acceptance ---------------------------------------------------------

  /** The i-th event is a write of this batch identity that stored something. */
  ghost predicate AcceptedAt(events: seq<Event>, retention: int, i: nat, key: BatchKey) {
    && i < |events| && events[i].Write? && events[i].batch.key == key && !NoContent(events[i].batch)
    && WriteOutcome(Run(events[..i], retention), events[i].batch) == Accepted
  }

  /** The k-th event is a cleanup that found the receipt older than the replay
      window and kept no log of the batch. */
  ghost predicate ForgetsAt(events: seq<Event>, retention: int, k: nat, key: BatchKey) {
    && k < |events| && events[k].Clean?
    && key in Run(events[..k], retention).receipts
    && Run(events[..k], retention).receipts[key] < Cutoff(retention, events[k].now)
    && !HasLogs(Run(events[..k + 1], retention).logs, key)
  }

  lemma ReceiptStep(events: seq<Event>, retention: int, k: nat, key: BatchKey)
    requires k < |events| && key in Run(events[..k], retention).receipts
    ensures key in Run(events[..k + 1], retention).receipts || ForgetsAt(events, retention, k, key)
  {
    RunStep(events, retention, k);
  }

  lemma {:induction false} ReceiptLost(events: seq<Event>, retention: int, i: nat, j: nat, key: BatchKey)
    returns (k: nat)
    requires i <= j <= |events|
    requires key in Run(events[..i], retention).receipts && key !in Run(events[..j], retention).receipts
    ensures i <= k < j && ForgetsAt(events, retention, k, key)
    decreases j - i
  {
    hide Run, ForgetsAt;
    ReceiptStep(events, retention, i, key);
    if key in Run(events[..i + 1], retention).receipts {
      k := ReceiptLost(events, retention, i + 1, j, key);
    } else {
      k := i;
    }
  }

  /** A batch is accepted a second time only if a cleanup in between dropped its
      receipt, past the replay window and with none of its logs retained. */
  lemma SecondAcceptanceNeedsCleanup(events: seq<Event>, retention: int, i: nat, j: nat, key: BatchKey)
    requires i < j && key.agentId != ""
    requires AcceptedAt(events, retention, i, key) && AcceptedAt(events, retention, j, key)
    ensures exists k :: i < k < j && ForgetsAt(events, retention, k, key)
  {
    RunStep(events, retention, i);
    var k := ReceiptLost(events, retention, i + 1, j, key);
  }

  /** With no cleanup in the run, a batch identity is accepted at most once. */
  lemma AcceptedAtMostOnce(events: seq<Event>, retention: int, i: nat, j: nat, key: BatchKey)
    requires NoCleanup(events) && key.agentId != ""
    requires AcceptedAt(events, retention, i, key) && AcceptedAt(events, retention, j, key)
    ensures i == j
  {
    if i < j {
      SecondAcceptanceNeedsCleanup(events, retention, i, j, key);
    } else if j < i {
      SecondAcceptanceNeedsCleanup(events, retention, j, i, key);
    }
  }

  // ---- redelivery is a stutter, and the table is exactly-once -----------------------

  /** A delivery leaves the tables alone exactly when its receipt is kept, or it
      has nothing to write. */
  lemma RedeliveryStutters(db: Db, retention: int, batch: EntryBatch, now: int)
    requires Keyed(db.logs) && batch.key.agentId != ""
    ensures Step(db, retention, Write(batch, now)) == db
       <==> batch.key in db.receipts || NoContent(batch) || WriteOutcome(db, batch) == Failed
  {
    var next := Step(db, retention, Write(batch, now));
    if batch.key !in db.receipts && !NoContent(batch) && WriteOutcome(db, batch) != Failed {
      assert batch.key in next.receipts;
    }
  }

  /** Batch identities written with success by the events. */
  ghost function Written(events: seq<Event>, retention: int): set<BatchKey> {
    if events == [] then {}
    else
      var n := |events| - 1;
      Written(events[..n], retention) +
      if AcceptedAt(events, retention, n, if events[n].Write? then events[n].batch.key else BatchKey("", "", 0))
      then {events[n].batch.key} else {}
  }

  /** The run with every later delivery of a written batch left out. */
  ghost function FirstDeliveries(events: seq<Event>, retention: int): seq<Event> {
    if events == [] then []
    else
      var n := |events| - 1;
      var kept := FirstDeliveries(events[..n], retention);
      if events[n].Write? && events[n].batch.key.agentId != "" && events[n].batch.key in Written(events[..n], retention)
      then kept else kept + [events[n]]
  }

  ghost predicate NoCleanup(events: seq<Event>) {
    forall i :: 0 <= i < |events| ==> !events[i].Clean?
  }

  /** The n-th event delivers a batch that was written before. */
  ghost predicate Redelivers(events: seq<Event>, retention: int, n: nat) {
    && n < |events| && events[n].Write? && events[n].batch.key.agentId != ""
    && events[n].batch.key in Written(events[..n], retention)
  }

  /** Whatever cleanups there are, a batch that comes again still has its receipt. */
  ghost predicate Remembered(events: seq<Event>, retention: int) {
    forall n: nat :: Redelivers(events, retention, n) ==> events[n].batch.key in Run(events[..n], retention).receipts
  }

  lemma RememberedPrefix(events: seq<Event>, retention: int)
    requires events != [] && Remembered(events, retention)
    ensures Remembered(events[..|events| - 1], retention)
  {
    var init := events[..|events| - 1];
    forall n: nat | Redelivers(init, retention, n) ensures init[n].batch.key in Run(init[..n], retention).receipts {
      assert init[..n] == events[..n];
      assert Redelivers(events, retention, n);
    }
  }

  /** While a batch that comes again has its receipt, a run with any number of
      redeliveries and cleanups ends in the same tables as the run that applies
      each batch identity once, in the order of first arrival. */
  lemma {:induction false} ExactlyOnce(events: seq<Event>, retention: int)
    requires Remembered(events, retention)
    ensures Run(events, retention) == Run(FirstDeliveries(events, retention), retention)
  {
    if events == [] {
    } else {
      var n := |events| - 1;
      var init, last := events[..n], events[n];
      RememberedPrefix(events, retention);
      ExactlyOnce(init, retention);
      var kept := FirstDeliveries(init, retention);
      if Redelivers(events, retention, n) {
        RedeliveryStutters(Run(init, retention), retention, last.batch, last.now);
      } else {
        assert (kept + [last])[..|kept|] == kept;
      }
    }
  }

  lemma {:induction false} WrittenAt(events: seq<Event>, retention: int, n: nat, key: BatchKey) returns (i: nat)
    requires n <= |events| && key in Written(events[..n], retention)
    ensures i < n && AcceptedAt(events, retention, i, key)
  {
    var last := events[n - 1];
    assert events[..n][..n - 1] == events[..n - 1];
    if key in Written(events[..n - 1], retention) {
      i := WrittenAt(events, retention, n - 1, key);
    } else {
      i := n - 1;
    }
  }

  /** A batch that comes again without its receipt was forgotten by a cleanup
      that found the receipt past the replay window and no log of the batch. */
  lemma {:induction false} ForgottenByCleanup(events: seq<Event>, retention: int, n: nat) returns (k: nat)
    requires Redelivers(events, retention, n) && events[n].batch.key !in Run(events[..n], retention).receipts
    ensures k < n && ForgetsAt(events, retention, k, events[n].batch.key)
  {
    var key := events[n].batch.key;
    var i := WrittenAt(events, retention, n, key);
    RunStep(events, retention, i);
    k := ReceiptLost(events, retention, i + 1, n, key);
  }

  /** So a run in which no cleanup forgets a batch is exactly-once. */
  lemma {:induction false} ExactlyOnceUnlessForgotten(events: seq<Event>, retention: int)
    requires forall k: nat, key: BatchKey :: !ForgetsAt(events, retention, k, key)
    ensures Remembered(events, retention)
    ensures Run(events, retention) == Run(FirstDeliveries(events, retention), retention)
  {
    forall n: nat | Redelivers(events, retention, n)
      ensures events[n].batch.key in Run(events[..n], retention).receipts
    {
      if events[n].batch.key !in Run(events[..n], retention).receipts {
        var k := ForgottenByCleanup(events, retention, n);
      }
    }
    ExactlyOnce(events, retention);
  }

  // ---- heartbeat authority -----------------------------------------------------------

  ghost predicate ActiveIn(containers: Containers, nodeId: string, id: string) {
    ContainerKey(nodeId, id) in containers && containers[ContainerKey(nodeId, id)].active
  }

  ghost predicate Listed(infos: seq<ContainerInfo>, n: nat, id: string) {
    exists i :: 0 <= i < n <= |infos| && infos[i].id == id
  }

  /** The container ids of the node's last successful snapshot. */
  ghost function Snapshot(events: seq<Event>, nodeId: string): set<string> {
    if events == [] then {}
    else
      var last := events[|events| - 1];
      if last.Sync? && last.nodeId == nodeId && !SyncFails(nodeId, last.infos)
      then set i | 0 <= i < |last.infos| :: last.infos[i].id
      else Snapshot(events[..|events| - 1], nodeId)
  }

  lemma {:induction false} BatchKeepsActive(containers: Containers, infos: seq<ContainerInfo>, now: int, n: nat,
                                            nodeId: string, id: string)
    requires n <= |infos|
    ensures ActiveIn(UpsertBatch(containers, infos, now, n), nodeId, id) <==> ActiveIn(containers, nodeId, id)
  {
    if n == 0 {
    } else {
      BatchKeepsActive(containers, infos, now, n - 1, nodeId, id);
    }
  }

  lemma {:induction false} SnapshotActive(containers: Containers, owner: string, infos: seq<ContainerInfo>, now: int,
                                          n: nat, nodeId: string, id: string)
    requires n <= |infos|
    ensures ActiveIn(UpsertSnapshot(containers, owner, infos, now, n), nodeId, id)
       <==> (nodeId == owner && Listed(infos, n, id)) || ActiveIn(containers, nodeId, id)
  {
    if n == 0 {
    } else {
      SnapshotActive(containers, owner, infos, now, n - 1, nodeId, id);
      assert Listed(infos, n, id) <==> Listed(infos, n - 1, id) || infos[n - 1].id == id;
    }
  }

  lemma StepActive(db: Db, retention: int, event: Event, nodeId: string, id: string)
    requires Keyed(db.logs)
    ensures ActiveIn(Step(db, retention, event).containers, nodeId, id)
       <==> if event.Sync? && event.nodeId == nodeId && !SyncFails(nodeId, event.infos)
            then Listed(event.infos, |event.infos|, id) else ActiveIn(db.containers, nodeId, id)
  {
    match event
    case Write(batch, now) =>
      BatchKeepsActive(db.containers, batch.containers, now, |batch.containers|, nodeId, id);
    case Sync(owner, infos, now) =>
      SnapshotActive(Deactivate(db.containers, owner), owner, infos, now, |infos|, nodeId, id);
    case Clean(_, _, _, _) =>
    case Fault =>
  }

  /** After any run, stale replays, cleanups and rolled back calls included, the
      active containers of a node are the ids of its last successful snapshot. */
  lemma {:induction false} HeartbeatAuthority(events: seq<Event>, retention: int, nodeId: string, id: string)
    ensures ActiveIn(Run(events, retention).containers, nodeId, id) <==> id in Snapshot(events, nodeId)
  {
    if events == [] {
    } else {
      var n := |events| - 1;
      HeartbeatAuthority(events[..n], retention, nodeId, id);
      StepActive(Run(events[..n], retention), retention, events[n], nodeId, id);
    }
  }
}
