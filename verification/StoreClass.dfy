/** The store itself: transactions over the tables, proved against the table
    functions of module Store. */
module StoreClass {
  import opened Options
  import opened Text
  import opened Rows
  import opened Budget
  import opened Store
  import opened StoreLaws

  lemma {:induction false} InsertRowsKeyed(logs: Logs, batch: EntryBatch, now: int, n: nat)
    requires Keyed(logs) && n <= |batch.entries|
    ensures Keyed(InsertRows(logs, batch, now, n))
  {
    if n == 0 {
    } else {
      InsertRowsKeyed(logs, batch, now, n - 1);
    }
  }

  /** Blank ids among the first entries. */
  lemma BlankIds(batch: EntryBatch, n: nat)
    requires n < |batch.entries|
    ensures BlankId(batch, n + 1) <==> BlankId(batch, n) || Trim(batch.entries[n].insertId) == ""
    ensures BlankId(batch, n + 1) ==> BlankId(batch, |batch.entries|)
  {
    hide Trim;
  }

  lemma NoneBlank(batch: EntryBatch)
    ensures !BlankId(batch, 0)
  {}

  class SqliteStore {
    var logs: Logs
    var receipts: map<BatchKey, int>
    var containers: Containers
    const replayRetention: int

    ghost predicate Valid()
      reads this
    {
      Keyed(logs)
    }

    function State(): Db
      reads this
    {
      Db(logs, receipts, containers)
    }

    /** Seven days in nanoseconds, unless configured. */
    function ReplayWindow(): int {
      if replayRetention <= 0 then 604800000000000 else replayRetention
    }

    constructor (replayRetention: int)
      ensures Valid() && State() == EMPTY && this.replayRetention == replayRetention
    {
      logs, receipts, containers := map[], map[], map[];
      this.replayRetention := replayRetention;
    }

    static method Open(replayRetention: int) returns (store: SqliteStore?)
      ensures store == null <==> replayRetention <= 0
      ensures store != null ==>
                fresh(store) && store.Valid() && store.State() == EMPTY && store.replayRetention == replayRetention
    {
      if replayRetention <= 0 {
        return null;
      }
      store := new SqliteStore(replayRetention);
    }

    method WriteBatch(batch: EntryBatch, now: int) returns (outcome: Outcome)
      requires Valid()
      modifies this
      ensures Valid()
      ensures outcome == WriteOutcome(old(State()), batch)
      ensures State() == AfterWrite(old(State()), batch, now)
      ensures outcome != Accepted ==> State() == old(State())
      ensures outcome == Accepted && (batch.entries != [] || batch.containers != []) ==>
                && receipts == (if batch.key.agentId != "" then old(receipts)[batch.key := now] else old(receipts))
                && (forall id :: id in old(logs) ==> id in logs && logs[id] == old(logs)[id])
                && (forall i :: 0 <= i < |batch.entries| ==> batch.entries[i].insertId in logs)
    {
      hide InsertRows, UpsertBatch, BlankId, Trim;
      forall id {
        WrittenRow(logs, batch, now, |batch.entries|, id);
      }
      if |batch.entries| > MAX_ENTRIES {
        return Failed;
      }
      if |batch.entries| == 0 && |batch.containers| == 0 {
        return Accepted;
      }
      var savedReceipts := receipts;
      if batch.key.agentId != "" {
        if batch.key in receipts {
          return Duplicate;
        }
        receipts := receipts[batch.key := now];
      }
      var inserted := InsertEntries(batch, now);
      if !inserted {
        receipts := savedReceipts;
        return Failed;
      }
      UpsertContainers(batch.containers, now);
      outcome := Accepted;
    }

    /** The entry loop of the transaction; a blank id undoes it. */
    method InsertEntries(batch: EntryBatch, now: int) returns (inserted: bool)
      requires Valid()
      modifies this`logs
      ensures Valid()
      ensures inserted == !BlankId(batch, |batch.entries|)
      ensures logs == if inserted then InsertRows(old(logs), batch, now, |batch.entries|) else old(logs)
    {
      hide InsertRow, BlankId, Trim, Keyed;
      var saved := logs;
      assert !BlankId(batch, 0) by { NoneBlank(batch); }
      for index := 0 to |batch.entries|
        invariant logs == InsertRows(saved, batch, now, index)
        invariant !BlankId(batch, index)
      {
        BlankIds(batch, index);
        var entry := batch.entries[index];
        if Trim(entry.insertId) == "" {
          logs := saved;
          return false;
        }
        logs := InsertRow(logs, Row(entry, batch.key, now, index));
      }
      InsertRowsKeyed(saved, batch, now, |batch.entries|);
      inserted := true;
    }

    method UpsertContainers(infos: seq<ContainerInfo>, now: int)
      modifies this`containers
      ensures containers == UpsertBatch(old(containers), infos, now, |infos|)
    {
      for index := 0 to |infos|
        invariant containers == UpsertBatch(old(containers), infos, now, index)
      {
        containers := Upsert(containers, infos[index], now, false, false);
      }
    }

    method SyncContainers(nodeId: string, infos: seq<ContainerInfo>, now: int) returns (failed: bool)
      requires Valid()
      modifies this`containers
      ensures Valid()
      ensures failed == SyncFails(nodeId, infos)
      ensures State() == AfterSync(old(State()), nodeId, infos, now)
      ensures failed ==> containers == old(containers)
      ensures !failed ==>
                forall key: ContainerKey :: key.nodeId == nodeId ==>
                                              (key in containers && containers[key].active
                                               <==> exists i :: 0 <= i < |infos| && infos[i].id == key.id)
      ensures forall key: ContainerKey :: key.nodeId != nodeId ==>
                                            (key in containers <==> key in old(containers)) &&
                                            (key in containers ==> containers[key] == old(containers)[key])
    {
      hide Upsert, Deactivate, Trim, Keyed;
      if !SyncFails(nodeId, infos) {
        forall key: ContainerKey {
          SyncedContainer(State(), nodeId, infos, now, key);
        }
      }
      if Trim(nodeId) == "" {
        return true;
      }
      var saved := containers;
      containers := Deactivate(containers, nodeId);
      for index := 0 to |infos|
        invariant forall i :: 0 <= i < index ==> !BadItem(nodeId, infos[i])
        invariant containers == UpsertSnapshot(Deactivate(saved, nodeId), nodeId, infos, now, index)
      {
        var container := infos[index];
        if Trim(container.id) == "" || (container.nodeId != "" && container.nodeId != nodeId) {
          containers := saved;
          return true;
        }
        containers := Upsert(containers, container.(nodeId := nodeId), now, true, true);
      }
      failed := false;
    }

    method Cleanup(before: Option<int>, maxBytes: int, mode: Mode, now: int) returns (deleted: nat)
      requires Valid()
      modifies this
      ensures Valid()
      ensures State() == AfterCleanup(old(State()), replayRetention, before, maxBytes, mode, now)
      ensures deleted == |old(logs)| - |logs|
      ensures forall id :: id in logs ==> id in old(logs) && logs[id] == old(logs)[id]
      ensures mode == Independent ==>
                forall id :: id in old(logs) ==>
                               var young := before.None? || old(logs)[id].entry.timestamp >= before.value;
                               (id in logs ==> young) && (young && maxBytes <= 0 ==> id in logs)
      ensures mode == Source ==>
                forall id :: id in old(logs) ==>
                               var young := SourceHas(old(containers), old(logs)[id].entry);
                               (id in logs ==> young) && (young && maxBytes <= 0 ==> id in logs)
      ensures mode == Min ==>
                forall id :: id in old(logs) ==>
                               var young := (before.None? || old(logs)[id].entry.timestamp >= before.value)
                                            && SourceHas(old(containers), old(logs)[id].entry);
                               (id in logs ==> young) && (young && maxBytes <= 0 ==> id in logs)
      ensures maxBytes > 0 ==>
                var young := YoungRows(old(State()), before, mode);
                forall id :: id in logs <==> id in young && Payload(Ordered(AtOrAfter(young, id))) <= maxBytes
    {
      hide AfterAge, AfterBudget, AfterAuxiliary, SourceHas, YoungRow, Ordered, AtOrAfter, Payload;
      CleanedRows(State(), replayRetention, before, maxBytes, mode, now);
      deleted := DeleteLogs(before, maxBytes, mode);
      CleanupAuxiliary(now);
    }

    /** The age clauses first, then the budget. */
    method DeleteLogs(before: Option<int>, maxBytes: int, mode: Mode) returns (deleted: nat)
      requires Valid()
      modifies this`logs
      ensures Valid()
      ensures logs == AfterBudget(AfterAge(old(State()), before, mode), maxBytes)
      ensures deleted == |old(logs)| - |logs|
    {
      hide AfterAge;
      AgeShrinks(State(), before, mode);
      deleted := |logs| - |AfterAge(State(), before, mode)|;
      logs := AfterAge(State(), before, mode);
      if maxBytes > 0 {
        var removed := DeleteOverBudget(maxBytes);
        deleted := deleted + removed;
      }
    }

    /** One sum, one scan and one range delete. */
    method DeleteOverBudget(maxBytes: int) returns (removed: nat)
      requires Valid() && maxBytes > 0
      modifies this`logs
      ensures Valid()
      ensures logs == AfterBudget(old(logs), maxBytes)
      ensures removed == |old(logs)| - |logs|
    {
      hide Total, RowSize, Ordered, DeleteUpTo, AfterBudget, Keyed, NoLesserCut;
      var rows := Ordered(logs);
      var logicalBytes := Total(rows, RowSize);
      var index := 0;
      FirstCut(rows, maxBytes);
      if logicalBytes <= maxBytes {
        CutIsPolicy(logs, maxBytes, 0);
        return 0;
      }
      while logicalBytes > maxBytes
        invariant index <= |rows| && logs == old(logs)
        invariant logicalBytes == Total(rows[index..], RowSize) && NoLesserCut(rows, maxBytes, index)
        invariant logicalBytes <= maxBytes ==> index > 0
        decreases |rows| - index
      {
        NextCut(rows, maxBytes, index);
        logicalBytes := logicalBytes - RowSize(rows[index]);
        index := index + 1;
      }
      CutIsPolicy(logs, maxBytes, index);
      removed := index;
      logs := DeleteUpTo(logs, rows[index - 1].entry);
    }

    /** Two delete statements, with the default window for a retention that is
        not positive. A receipt survives exactly when it is within the
        replay window or a log of its batch is kept, a container when it is
        active, was seen within the window, or a log of it is kept. */
    method CleanupAuxiliary(now: int)
      modifies this`receipts, this`containers
      ensures forall key :: key in receipts <==>
                            key in old(receipts) && (old(receipts)[key] >= now - ReplayWindow()
                                                     || exists id :: id in logs && logs[id].batch == key)
      ensures forall key :: key in receipts ==> receipts[key] == old(receipts)[key]
      ensures forall key :: key in containers <==>
                            key in old(containers) && (old(containers)[key].active
                                                       || old(containers)[key].lastSeen >= now - ReplayWindow()
                                                       || exists id :: id in logs && logs[id].entry.nodeId == key.nodeId
                                                                       && logs[id].entry.containerId == key.id)
      ensures forall key :: key in containers ==> containers[key] == old(containers)[key]
      ensures State() == AfterAuxiliary(old(State()), replayRetention, now)
    {
      hide KeptReceipts, KeptContainers, HasLogs, HasContainerLogs;
      var retention := replayRetention;
      if retention <= 0 {
        retention := DEFAULT_REPLAY_RETENTION;
      }
      var cutoff := now - retention;
      ReceiptsKept(logs, receipts, cutoff);
      ContainersKept(logs, containers, cutoff);
      DeleteReceipts(cutoff);
      DeleteContainers(cutoff);
    }

    method DeleteReceipts(cutoff: int)
      modifies this`receipts
      ensures receipts == KeptReceipts(logs, old(receipts), cutoff)
    {
      hide HasLogs;
      receipts := receipts - set key | key in receipts && receipts[key] < cutoff && !HasLogs(logs, key);
    }

    method DeleteContainers(cutoff: int)
      modifies this`containers
      ensures containers == KeptContainers(logs, old(containers), cutoff)
    {
      hide HasContainerLogs;
      containers := containers - set key | key in containers && !containers[key].active
                                           && containers[key].lastSeen < cutoff && !HasContainerLogs(logs, key);
    }
  }

  /** Every cut before row k leaves too much. */
  ghost predicate NoLesserCut(rows: seq<Row>, maxBytes: int, k: nat)
    requires k <= |rows|
  {
    forall j :: 0 <= j < k ==> Total(rows[j..], RowSize) > maxBytes
  }

  lemma FirstCut(rows: seq<Row>, maxBytes: int)
    ensures NoLesserCut(rows, maxBytes, 0)
    ensures Total(rows, RowSize) == Total(rows[0..], RowSize)
  {
    assert rows[0..] == rows;
  }

  lemma NextCut(rows: seq<Row>, maxBytes: int, k: nat)
    requires maxBytes > 0 && k <= |rows| && NoLesserCut(rows, maxBytes, k) && Total(rows[k..], RowSize) > maxBytes
    ensures k < |rows| && Total(rows[k + 1..], RowSize) == Total(rows[k..], RowSize) - RowSize(rows[k])
    ensures NoLesserCut(rows, maxBytes, k + 1)
  {
    assert rows[|rows|..] == [];
    TotalSuffix(rows, RowSize, k);
  }

  /** The least cut that fits is the policy's. */
  lemma CutIsPolicy(logs: Logs, maxBytes: int, k: nat)
    requires Keyed(logs) && maxBytes > 0 && k <= |Ordered(logs)|
    requires NoLesserCut(Ordered(logs), maxBytes, k) && Total(Ordered(logs)[k..], RowSize) <= maxBytes
    ensures Keyed(AfterBudget(logs, maxBytes)) && k == |logs| - |AfterBudget(logs, maxBytes)|
    ensures AfterBudget(logs, maxBytes)
         == if k == 0 then logs else DeleteUpTo(logs, Ordered(logs)[k - 1].entry)
  {
    hide Ordered, RowSize, DeleteUpTo, Total, KeepOnly, Keyed;
    LeastCutIsDropCount(Ordered(logs), RowSize, maxBytes, k);
    BudgetKeepsNewest(logs, maxBytes);
    if k == 0 {
      assert Ordered(logs)[0..] == Ordered(logs);
      KeepAll(logs);
    } else {
      RangeDelete(logs, k);
    }
  }

  lemma KeepAll(logs: Logs)
    requires Keyed(logs)
    ensures KeepOnly(logs, Ordered(logs)) == logs
  {
    OrderedRows(logs);
    assert forall id :: id in logs ==> Holds(logs, logs[id]);
  }

  lemma AgeShrinks(db: Db, before: Option<int>, mode: Mode)
    requires Keyed(db.logs)
    ensures Keyed(AfterAge(db, before, mode)) && |AfterAge(db, before, mode)| <= |db.logs|
  {
    hide Expired;
    MapSize(AfterAge(db, before, mode), db.logs);
  }

  lemma {:induction false} MapSize(part: Logs, all: Logs)
    requires part.Keys <= all.Keys
    ensures |part| <= |all|
  {
    SetSize(part.Keys, all.Keys);
    assert |part| == |part.Keys| && |all| == |all.Keys|;
  }

  lemma {:induction false} SetSize(part: set<string>, all: set<string>)
    requires part <= all
    ensures |part| <= |all|
    decreases |part|
  {
    if part == {} {
    } else {
      var x :| x in part;
      SetSize(part - {x}, all - {x});
    }
  }
}
