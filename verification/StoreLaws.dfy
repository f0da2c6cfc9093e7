/** What writes, snapshots and cleanups do to a single row, a single container
    and a single receipt. */
module StoreLaws {
  import opened Options
  import opened Text
  import opened Rows
  import opened Budget
  import opened Store

  // ---- writing a batch ----------------------------------------------------------------

  lemma WriteOutcomes(db: Db, batch: EntryBatch)
    ensures var empty := batch.entries == [] && batch.containers == [];
            var repeated := batch.key.agentId != "" && batch.key in db.receipts;
            var blank := exists e :: e in batch.entries && forall i :: 0 <= i < |e.insertId| ==> IsSpace(e.insertId[i]);
            match WriteOutcome(db, batch)
            case Failed => |batch.entries| > 50000 || (!empty && !repeated && blank)
            case Duplicate => |batch.entries| <= 50000 && !empty && repeated
            case Accepted => |batch.entries| <= 50000 && (empty || (!repeated && !blank))
  {
    hide Trim, IsSpace;
    forall e | e in batch.entries
      ensures Trim(e.insertId) == "" <==> forall i :: 0 <= i < |e.insertId| ==> IsSpace(e.insertId[i])
    {
      BlankText(e.insertId);
    }
  }

  /** A known row stays as it is; a new one is the first entry of its id. */
  lemma {:induction false} WrittenRow(logs: Logs, batch: EntryBatch, now: int, n: nat, id: string)
    requires n <= |batch.entries|
    ensures var after := InsertRows(logs, batch, now, n);
            (id in logs ==> id in after && after[id] == logs[id]) &&
            (id !in logs ==> (id in after <==> exists i :: 0 <= i < n && batch.entries[i].insertId == id)) &&
            forall i :: 0 <= i < n && batch.entries[i].insertId == id && id !in logs &&
                        (forall j :: 0 <= j < i ==> batch.entries[j].insertId != id)
                        ==> after[id] == Row(batch.entries[i], batch.key, now, i)
  {
    if n == 0 {
    } else {
      WrittenRow(logs, batch, now, n - 1, id);
    }
  }

  /** An accepted batch leaves its receipt, dated now; otherwise nothing changes. */
  lemma WrittenReceipt(db: Db, batch: EntryBatch, now: int, key: BatchKey)
    ensures var after := AfterWrite(db, batch, now);
            var stored := WriteOutcome(db, batch) == Accepted && (batch.entries != [] || batch.containers != []);
            && (!stored ==> after == db)
            && (key in after.receipts <==> key in db.receipts || (stored && key == batch.key && key.agentId != ""))
            && (key in after.receipts ==>
                  after.receipts[key] == if stored && key == batch.key && key.agentId != "" then now
                  else db.receipts[key])
  {
    hide WriteOutcome, InsertRows, UpsertBatch;
  }

  // ---- container metadata -----------------------------------------------------------------

  ghost predicate Names(info: ContainerInfo, key: ContainerKey) {
    info.nodeId == key.nodeId && info.id == key.id
  }

  ghost predicate LastOf(infos: seq<ContainerInfo>, n: nat, key: ContainerKey, i: nat) {
    i < n <= |infos| && Names(infos[i], key) && forall j :: i < j < n ==> !Names(infos[j], key)
  }

  ghost predicate FirstOf(infos: seq<ContainerInfo>, n: nat, key: ContainerKey, i: nat) {
    i < n <= |infos| && Names(infos[i], key) && forall j :: 0 <= j < i ==> !Names(infos[j], key)
  }

  /** The last report of the container with a positive oldest time. */
  ghost predicate LastDated(infos: seq<ContainerInfo>, n: nat, key: ContainerKey, i: nat) {
    && i < n <= |infos| && Names(infos[i], key) && infos[i].oldestLogAt > 0
    && forall j :: i < j < n && Names(infos[j], key) ==> infos[j].oldestLogAt <= 0
  }

  /** Upserts of the first n reports. */
  ghost function Upserts(containers: Containers, infos: seq<ContainerInfo>, now: int, n: nat, active: bool,
                         updateActive: bool): Containers
    requires n <= |infos|
  {
    if n == 0 then containers
    else Upsert(Upserts(containers, infos, now, n - 1, active, updateActive), infos[n - 1], now, active, updateActive)
  }

  lemma {:induction false} Unreported(containers: Containers, infos: seq<ContainerInfo>, now: int, n: nat, active: bool,
                                      updateActive: bool, key: ContainerKey)
    requires n <= |infos| && forall i :: 0 <= i < n ==> !Names(infos[i], key)
    ensures var after := Upserts(containers, infos, now, n, active, updateActive);
            (key in after <==> key in containers) && (key in containers ==> after[key] == containers[key])
  {
    if n == 0 {
    } else {
      Unreported(containers, infos, now, n - 1, active, updateActive, key);
    }
  }

  /** What the table knew: counts are written once, and whether a container is
      active changes only when that is asked for. */
  lemma {:induction false} KnownContainer(containers: Containers, infos: seq<ContainerInfo>, now: int, n: nat,
                                          active: bool, updateActive: bool, key: ContainerKey)
    requires n <= |infos|
    ensures var after := Upserts(containers, infos, now, n, active, updateActive);
            if key in containers then
              && key in after && after[key].counts == containers[key].counts
              && (!updateActive ==> after[key].active == containers[key].active)
            else key in after ==> after[key].active == active
  {
    if n == 0 {
    } else {
      KnownContainer(containers, infos, now, n - 1, active, updateActive, key);
    }
  }

  /** The last report of a container gives its name and metadata, and it was
      seen now. */
  lemma {:induction false} LastReport(containers: Containers, infos: seq<ContainerInfo>, now: int, n: nat, active: bool,
                                      updateActive: bool, key: ContainerKey, i: nat)
    requires LastOf(infos, n, key, i)
    ensures var after := Upserts(containers, infos, now, n, active, updateActive);
            && key in after && after[key].nodeName == infos[i].nodeName && after[key].meta == infos[i].meta
            && after[key].lastSeen == now && (updateActive ==> after[key].active == active)
  {
    KnownContainer(containers, infos, now, n, active, updateActive, key);
    if i == n - 1 {
      KnownContainer(containers, infos, now, n - 1, active, updateActive, key);
    } else {
      LastReport(containers, infos, now, n - 1, active, updateActive, key, i);
    }
  }

  /** A new container has the counts of its first report. */
  lemma {:induction false} FirstReport(containers: Containers, infos: seq<ContainerInfo>, now: int, n: nat,
                                       active: bool, updateActive: bool, key: ContainerKey, i: nat)
    requires FirstOf(infos, n, key, i) && key !in containers
    ensures var after := Upserts(containers, infos, now, n, active, updateActive);
            key in after && after[key].counts == infos[i].counts
  {
    if i == n - 1 {
      Unreported(containers, infos, now, i, active, updateActive, key);
    } else {
      FirstReport(containers, infos, now, n - 1, active, updateActive, key, i);
    }
  }

  /** The oldest time is the last positive one reported. */
  lemma {:induction false} DatedReport(containers: Containers, infos: seq<ContainerInfo>, now: int, n: nat,
                                       active: bool, updateActive: bool, key: ContainerKey, i: nat)
    requires LastDated(infos, n, key, i)
    ensures var after := Upserts(containers, infos, now, n, active, updateActive);
            key in after && after[key].oldestLogAt == infos[i].oldestLogAt
  {
    if i == n - 1 {
    } else {
      DatedReport(containers, infos, now, n - 1, active, updateActive, key, i);
    }
  }

  /** Without one a known container keeps its own. */
  lemma {:induction false} UndatedReports(containers: Containers, infos: seq<ContainerInfo>, now: int, n: nat,
                                          active: bool, updateActive: bool, key: ContainerKey)
    requires n <= |infos| && key in containers
    requires forall i :: 0 <= i < n && Names(infos[i], key) ==> infos[i].oldestLogAt <= 0
    ensures var after := Upserts(containers, infos, now, n, active, updateActive);
            key in after && after[key].oldestLogAt == containers[key].oldestLogAt
  {
    if n == 0 {
    } else {
      UndatedReports(containers, infos, now, n - 1, active, updateActive, key);
    }
  }

  /** A batch's metadata: new containers are inactive, known ones stay as active
      as they were. */
  lemma {:induction false} BatchUpserts(containers: Containers, infos: seq<ContainerInfo>, now: int, n: nat)
    requires n <= |infos|
    ensures UpsertBatch(containers, infos, now, n) == Upserts(containers, infos, now, n, false, false)
  {
    if n == 0 {
    } else {
      BatchUpserts(containers, infos, now, n - 1);
    }
  }

  ghost function Owned(nodeId: string, infos: seq<ContainerInfo>): (r: seq<ContainerInfo>)
    ensures |r| == |infos|
  {
    seq(|infos|, i requires 0 <= i < |infos| => infos[i].(nodeId := nodeId))
  }

  /** A snapshot's: the node owns them, and they are active. */
  lemma {:induction false} SnapshotUpserts(containers: Containers, nodeId: string, infos: seq<ContainerInfo>, now: int,
                                           n: nat)
    requires n <= |infos|
    ensures UpsertSnapshot(containers, nodeId, infos, now, n)
         == Upserts(containers, Owned(nodeId, infos), now, n, true, true)
  {
    if n == 0 {
    } else {
      SnapshotUpserts(containers, nodeId, infos, now, n - 1);
    }
  }

  // ---- snapshots ----------------------------------------------------------------------------

  lemma SyncFailures(nodeId: string, infos: seq<ContainerInfo>)
    ensures SyncFails(nodeId, infos)
       <==> || (forall i :: 0 <= i < |nodeId| ==> IsSpace(nodeId[i]))
            || exists c :: c in infos && ((c.nodeId != "" && c.nodeId != nodeId)
                                          || forall i :: 0 <= i < |c.id| ==> IsSpace(c.id[i]))
  {
    hide Trim, IsSpace;
    BlankText(nodeId);
    forall c | c in infos ensures Trim(c.id) == "" <==> forall i :: 0 <= i < |c.id| ==> IsSpace(c.id[i]) {
      BlankText(c.id);
    }
  }

  /** A snapshot makes exactly the containers it lists active on its node, and
      leaves other nodes alone. */
  lemma SyncedContainer(db: Db, nodeId: string, infos: seq<ContainerInfo>, now: int, key: ContainerKey)
    requires !SyncFails(nodeId, infos)
    ensures var after := AfterSync(db, nodeId, infos, now).containers;
            if key.nodeId == nodeId && exists i :: 0 <= i < |infos| && infos[i].id == key.id then
              key in after && after[key].active && after[key].lastSeen == now
            else
              && (key in after <==> key in db.containers)
              && (key in after ==>
                    after[key] == if key.nodeId == nodeId then db.containers[key].(active := false)
                    else db.containers[key])
  {
    hide Upserts, UpsertSnapshot;
    var inactive, owned := Deactivate(db.containers, nodeId), Owned(nodeId, infos);
    SnapshotUpserts(inactive, nodeId, infos, now, |infos|);
    if key.nodeId == nodeId && exists i :: 0 <= i < |infos| && infos[i].id == key.id {
      var j :| 0 <= j < |infos| && infos[j].id == key.id;
      assert Names(owned[j], key);
      var i := LastNamed(owned, |owned|, key);
      LastReport(inactive, owned, now, |owned|, true, true, key, i);
    } else {
      Unreported(inactive, owned, now, |owned|, true, true, key);
    }
  }

  lemma {:induction false} LastNamed(infos: seq<ContainerInfo>, n: nat, key: ContainerKey) returns (i: nat)
    requires exists j :: 0 <= j < n <= |infos| && Names(infos[j], key)
    ensures LastOf(infos, n, key, i)
  {
    if Names(infos[n - 1], key) {
      i := n - 1;
    } else {
      i := LastNamed(infos, n - 1, key);
    }
  }

  // ---- cleanups -----------------------------------------------------------------------------

  /** The row is not older than the boundary, or than anything its source still
      has; or neither. */
  ghost predicate YoungRow(containers: Containers, before: Option<int>, mode: Mode, e: Entry) {
    match mode
    case Independent => before.None? || e.timestamp >= before.value
    case Source => SourceHas(containers, e)
    case Min => (before.None? || e.timestamp >= before.value) && SourceHas(containers, e)
  }

  /** No container of the row reports only younger logs. */
  ghost predicate SourceHas(containers: Containers, e: Entry) {
    forall key :: key in containers && key.nodeId == e.nodeId && key.id == e.containerId
                  && containers[key].oldestLogAt > 0
                  ==> e.timestamp >= containers[key].oldestLogAt
  }

  ghost function YoungRows(db: Db, before: Option<int>, mode: Mode): (young: Logs)
    requires Keyed(db.logs)
    ensures Keyed(young)
  {
    map id | id in db.logs && YoungRow(db.containers, before, mode, db.logs[id].entry) :: db.logs[id]
  }

  lemma AgeRows(db: Db, before: Option<int>, mode: Mode)
    requires Keyed(db.logs)
    ensures AfterAge(db, before, mode) == YoungRows(db, before, mode)
  {
    forall id | id in db.logs
      ensures Expired(db.containers, before, mode, db.logs[id])
         <==> !YoungRow(db.containers, before, mode, db.logs[id].entry)
    {
      var e := db.logs[id].entry;
      assert SourceHas(db.containers, e)
        <==> (ContainerKey(e.nodeId, e.containerId) in db.containers
              && db.containers[ContainerKey(e.nodeId, e.containerId)].oldestLogAt > 0
              ==> e.timestamp >= db.containers[ContainerKey(e.nodeId, e.containerId)].oldestLogAt);
    }
  }

  function Payload(rows: seq<Row>): nat {
    if rows == [] then 0 else rows[0].entry.size + Payload(rows[1..])
  }

  lemma {:induction false} PayloadTotal(rows: seq<Row>)
    ensures Total(rows, RowSize) == Payload(rows)
  {
    if rows == [] {
    } else {
      PayloadTotal(rows[1..]);
    }
  }

  /** The rows of a table that are not before this one. */
  ghost function AtOrAfter(logs: Logs, id: string): (from: Logs)
    requires Keyed(logs) && id in logs
    ensures Keyed(from)
  {
    map other | other in logs && !Before(logs[other].entry, logs[id].entry) :: logs[other]
  }

  lemma SuffixAt(logs: Logs, k: nat)
    requires Keyed(logs) && k < |Ordered(logs)| && Ordered(logs)[k].entry.insertId in logs
    ensures Ordered(AtOrAfter(logs, Ordered(logs)[k].entry.insertId)) == Ordered(logs)[k..]
  {
    hide Ordered, Before, Keyed;
    var rows := Ordered(logs);
    OrderedRows(logs);
    var from := AtOrAfter(logs, rows[k].entry.insertId);
    assert rows[k] in rows;
    forall r ensures r in rows[k..] <==> Holds(from, r) {
      if Holds(logs, r) {
        var i :| 0 <= i < |rows| && rows[i] == r;
        PositionAfter(rows, k, i);
      }
    }
    OrderedIs(from, rows[k..]);
  }

  lemma PositionAfter(rows: seq<Row>, k: nat, i: nat)
    requires Sorted(rows) && k < |rows| && i < |rows|
    ensures !Before(rows[i].entry, rows[k].entry) <==> i >= k
    ensures rows[i] in rows[k..] <==> i >= k
  {
    BeforeTotal(rows[i].entry, rows[k].entry);
    if i >= k {
      assert rows[k..][i - k] == rows[i];
    } else {
      forall j | 0 <= j < |rows[k..]| ensures rows[k..][j] != rows[i] {
        BeforeTotal(rows[i].entry, rows[k + j].entry);
      }
    }
  }

  /** The budget keeps a row exactly when it fits together with every row that is
      not before it. */
  lemma BudgetRow(logs: Logs, maxBytes: int, id: string)
    requires Keyed(logs) && maxBytes > 0 && id in logs
    ensures id in AfterBudget(logs, maxBytes) <==> Payload(Ordered(AtOrAfter(logs, id))) <= maxBytes
  {
    hide Ordered, Before, Payload, AtOrAfter, DropOldest, Total;
    var rows := Ordered(logs);
    OrderedRows(logs);
    assert Holds(logs, logs[id]);
    var k :| 0 <= k < |rows| && rows[k] == logs[id];
    SuffixAt(logs, k);
    PayloadTotal(rows[k..]);
    DropOldestIsLeast(rows, RowSize, maxBytes);
    var cut := DropCount(rows, RowSize, maxBytes);
    KeptFrom(rows, cut, k);
    if k >= cut {
      SuffixFits(rows, cut, k, maxBytes);
    }
  }

  lemma KeptFrom(rows: seq<Row>, cut: nat, k: nat)
    requires Sorted(rows) && cut <= |rows| && k < |rows|
    ensures rows[k] in rows[cut..] <==> k >= cut
  {
    if cut < |rows| {
      PositionAfter(rows, cut, k);
    }
  }

  lemma {:induction false} SuffixFits(rows: seq<Row>, from: nat, k: nat, max: int)
    requires from <= k <= |rows| && Total(rows[from..], RowSize) <= max
    ensures Total(rows[k..], RowSize) <= max
    decreases k - from
  {
    if from == k {
    } else {
      TotalSuffix(rows, RowSize, from);
      SuffixFits(rows, from + 1, k, max);
    }
  }

  /** A cleanup keeps a row, unchanged, exactly when it is young and, under a
      budget, fits together with the young rows that are not before it. */
  lemma CleanedRow(db: Db, retention: int, before: Option<int>, maxBytes: int, mode: Mode, now: int, id: string)
    requires Keyed(db.logs)
    ensures var after := AfterCleanup(db, retention, before, maxBytes, mode, now).logs;
            var young := YoungRows(db, before, mode);
            && (id in after <==> id in young && (maxBytes <= 0 || Payload(Ordered(AtOrAfter(young, id))) <= maxBytes))
            && (id in after ==> after[id] == db.logs[id])
  {
    hide AfterAge, Ordered, AtOrAfter, Payload, YoungRow, KeptReceipts, KeptContainers, DropOldest;
    var young := YoungRows(db, before, mode);
    AgeRows(db, before, mode);
    if maxBytes > 0 && id in young {
      BudgetRow(young, maxBytes, id);
    }
  }

  /** The same, mode by mode. */
  lemma CleanedRows(db: Db, retention: int, before: Option<int>, maxBytes: int, mode: Mode, now: int)
    requires Keyed(db.logs)
    ensures var after := AfterCleanup(db, retention, before, maxBytes, mode, now).logs;
            forall id :: id in after ==> id in db.logs && after[id] == db.logs[id]
    ensures var after := AfterCleanup(db, retention, before, maxBytes, mode, now).logs;
            forall id :: id in db.logs ==>
                           var young := match mode
                             case Independent => before.None? || db.logs[id].entry.timestamp >= before.value
                             case Source => SourceHas(db.containers, db.logs[id].entry)
                             case Min => (before.None? || db.logs[id].entry.timestamp >= before.value) &&
                                         SourceHas(db.containers, db.logs[id].entry);
                           (id in after ==> young) && (young && maxBytes <= 0 ==> id in after)
    ensures maxBytes > 0 ==>
              var after := AfterCleanup(db, retention, before, maxBytes, mode, now).logs;
              var young := YoungRows(db, before, mode);
              forall id :: id in after <==> id in young && Payload(Ordered(AtOrAfter(young, id))) <= maxBytes
  {
    hide AfterCleanup, Ordered, AtOrAfter, Payload, SourceHas;
    forall id {
      CleanedRow(db, retention, before, maxBytes, mode, now, id);
    }
  }

  lemma ReceiptsKept(logs: Logs, receipts: map<BatchKey, int>, cutoff: int)
    ensures var kept := KeptReceipts(logs, receipts, cutoff);
            forall key :: (key in kept <==>
                           key in receipts && (receipts[key] >= cutoff
                                               || exists id :: id in logs && logs[id].batch == key)) &&
                          (key in kept ==> kept[key] == receipts[key])
  {}

  lemma ContainersKept(logs: Logs, containers: Containers, cutoff: int)
    ensures var kept := KeptContainers(logs, containers, cutoff);
            forall key :: (key in kept <==>
                           key in containers && (containers[key].active || containers[key].lastSeen >= cutoff
                                                 || exists id :: id in logs && logs[id].entry.nodeId == key.nodeId
                                                                 && logs[id].entry.containerId == key.id)) &&
                          (key in kept ==> kept[key] == containers[key])
  {}
}
