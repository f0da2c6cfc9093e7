/** The Hub's SQLite store: batch receipts, log rows and container snapshots.
    Tables are maps keyed by primary key; a transaction that fails restores
    them. */
module Store {
  import opened Options
  import opened Text
  import opened Rows
  import opened Budget

  const MAX_ENTRIES := 50000
  const DEFAULT_REPLAY_RETENTION := 7 * 24 * 3600 * 1_000_000_000

  /** Reported container metadata. `meta` stands for the columns every upsert
      overwrites, `counts` for those only an insert writes. */
  datatype ContainerInfo = ContainerInfo(nodeId: string, nodeName: string, id: string, meta: string, counts: string,
                                         oldestLogAt: int)

  datatype ContainerKey = ContainerKey(nodeId: string, id: string)

  datatype ContainerRow = ContainerRow(nodeName: string, meta: string, counts: string, oldestLogAt: int,
                                       lastSeen: int, active: bool)

  type Containers = map<ContainerKey, ContainerRow>

  datatype EntryBatch = EntryBatch(key: BatchKey, entries: seq<Entry>, containers: seq<ContainerInfo>)

  datatype Db = Db(logs: Logs, receipts: map<BatchKey, int>, containers: Containers)

  const EMPTY := Db(map[], map[], map[])

  datatype Outcome = Accepted | Duplicate | Failed

  datatype Mode = Independent | Source | Min

  // ---- WriteBatch --------------------------------------------------------------

  predicate NoContent(batch: EntryBatch) {
    batch.entries == [] && batch.containers == []
  }

  predicate BlankId(batch: EntryBatch, n: nat) {
    exists i :: 0 <= i < n <= |batch.entries| && Trim(batch.entries[i].insertId) == ""
  }

  function WriteOutcome(db: Db, batch: EntryBatch): Outcome {
    if |batch.entries| > MAX_ENTRIES then Failed
    else if NoContent(batch) then Accepted
    else if batch.key.agentId != "" && batch.key in db.receipts then Duplicate
    else if BlankId(batch, |batch.entries|) then Failed
    else Accepted
  }

  /** INSERT OR IGNORE INTO logs. */
  function InsertRow(logs: Logs, r: Row): Logs {
    if r.entry.insertId in logs then logs else logs[r.entry.insertId := r]
  }

  function RowOf(batch: EntryBatch, now: int, i: nat): Row
    requires i < |batch.entries|
  {
    Row(batch.entries[i], batch.key, now, i)
  }

  function InsertRows(logs: Logs, batch: EntryBatch, now: int, n: nat): Logs
    requires n <= |batch.entries|
  {
    if n == 0 then logs else InsertRow(InsertRows(logs, batch, now, n - 1), RowOf(batch, now, n - 1))
  }

  function Upsert(containers: Containers, c: ContainerInfo, now: int, active: bool, updateActive: bool): Containers {
    var key := ContainerKey(c.nodeId, c.id);
    if key in containers then
      var row := containers[key];
      containers[key := row.(nodeName := c.nodeName, meta := c.meta,
      oldestLogAt := if c.oldestLogAt > 0 then c.oldestLogAt else row.oldestLogAt,
      lastSeen := now,
      active := if updateActive then active else row.active)]
    else containers[key := ContainerRow(c.nodeName, c.meta, c.counts, c.oldestLogAt, now, active)]
  }

  function UpsertBatch(containers: Containers, infos: seq<ContainerInfo>, now: int, n: nat): Containers
    requires n <= |infos|
  {
    if n == 0 then containers else Upsert(UpsertBatch(containers, infos, now, n - 1), infos[n - 1], now, false, false)
  }

  function AfterWrite(db: Db, batch: EntryBatch, now: int): Db {
    if WriteOutcome(db, batch) != Accepted || NoContent(batch) then db
    else Db(InsertRows(db.logs, batch, now, |batch.entries|),
            if batch.key.agentId != "" then db.receipts[batch.key := now] else db.receipts,
            UpsertBatch(db.containers, batch.containers, now, |batch.containers|))
  }

  // ---- SyncContainers ------------------------------------------------------------

  predicate BadItem(nodeId: string, c: ContainerInfo) {
    Trim(c.id) == "" || (c.nodeId != "" && c.nodeId != nodeId)
  }

  predicate SyncFails(nodeId: string, infos: seq<ContainerInfo>) {
    Trim(nodeId) == "" || exists i :: 0 <= i < |infos| && BadItem(nodeId, infos[i])
  }

  function Deactivate(containers: Containers, nodeId: string): Containers {
    map key | key in containers ::
      if key.nodeId == nodeId then containers[key].(active := false) else containers[key]
  }

  function UpsertSnapshot(containers: Containers, nodeId: string, infos: seq<ContainerInfo>, now: int,
                          n: nat): Containers
    requires n <= |infos|
  {
    if n == 0 then containers
    else Upsert(UpsertSnapshot(containers, nodeId, infos, now, n - 1), infos[n - 1].(nodeId := nodeId), now, true, true)
  }

  function AfterSync(db: Db, nodeId: string, infos: seq<ContainerInfo>, now: int): Db {
    if SyncFails(nodeId, infos) then db
    else db.(containers := UpsertSnapshot(Deactivate(db.containers, nodeId), nodeId, infos, now, |infos|))
  }

  // ---- Cleanup --------------------------------------------------------------------

  /** The age clauses: the Hub's own boundary, the source boundary, or both. */
  predicate Expired(containers: Containers, before: Option<int>, mode: Mode, row: Row) {
    var key := ContainerKey(row.entry.nodeId, row.entry.containerId);
    || (mode != Source && before.Some? && row.entry.timestamp < before.value)
    || (mode != Independent && key in containers && containers[key].oldestLogAt > 0
        && row.entry.timestamp < containers[key].oldestLogAt)
  }

  function AfterAge(db: Db, before: Option<int>, mode: Mode): Logs {
    map id | id in db.logs && !Expired(db.containers, before, mode, db.logs[id]) :: db.logs[id]
  }

  function RowSize(r: Row): nat {
    r.entry.size
  }

  function KeepOnly(logs: Logs, rows: seq<Row>): Logs {
    map id | id in logs && logs[id] in rows :: logs[id]
  }

  /** The budget policy: while the payload total is over the budget, delete the
      oldest row. */
  function AfterBudget(logs: Logs, maxBytes: int): Logs
    requires Keyed(logs)
  {
    if maxBytes <= 0 then logs else KeepOnly(logs, DropOldest(Ordered(logs), RowSize, maxBytes))
  }

  predicate HasLogs(logs: Logs, key: BatchKey) {
    exists id :: id in logs && logs[id].batch == key
  }

  predicate HasContainerLogs(logs: Logs, key: ContainerKey) {
    exists id :: id in logs && logs[id].entry.nodeId == key.nodeId && logs[id].entry.containerId == key.id
  }

  function Cutoff(retention: int, now: int): int {
    now - (if retention <= 0 then DEFAULT_REPLAY_RETENTION else retention)
  }

  function KeptReceipts(logs: Logs, receipts: map<BatchKey, int>, cutoff: int): map<BatchKey, int> {
    map key | key in receipts && (receipts[key] >= cutoff || HasLogs(logs, key)) :: receipts[key]
  }

  function KeptContainers(logs: Logs, containers: Containers, cutoff: int): Containers {
    map key | key in containers && (containers[key].active || containers[key].lastSeen >= cutoff
                                    || HasContainerLogs(logs, key)) :: containers[key]
  }

  function AfterAuxiliary(db: Db, retention: int, now: int): Db {
    var cutoff := Cutoff(retention, now);
    Db(db.logs, KeptReceipts(db.logs, db.receipts, cutoff), KeptContainers(db.logs, db.containers, cutoff))
  }

  function AfterCleanup(db: Db, retention: int, before: Option<int>, maxBytes: int, mode: Mode, now: int): Db
    requires Keyed(db.logs)
  {
    AfterAuxiliary(db.(logs := AfterBudget(AfterAge(db, before, mode), maxBytes)), retention, now)
  }

  // ---- the range delete is the policy ------------------------------------------------

  predicate AtMost(a: Entry, cutoff: Entry) {
    a.timestamp < cutoff.timestamp
    || (a.timestamp == cutoff.timestamp && (a.insertId == cutoff.insertId || Less(a.insertId, cutoff.insertId)))
  }

  /** DELETE FROM logs WHERE (timestamp_ns, insert_id) <= cutoff. */
  function DeleteUpTo(logs: Logs, cutoff: Entry): Logs {
    map id | id in logs && !AtMost(logs[id].entry, cutoff) :: logs[id]
  }

  lemma RangeDelete(logs: Logs, k: nat)
    requires Keyed(logs) && 0 < k <= |Ordered(logs)|
    ensures DeleteUpTo(logs, Ordered(logs)[k - 1].entry) == KeepOnly(logs, Ordered(logs)[k..])
  {
    var rows := Ordered(logs);
    OrderedRows(logs);
    forall id | id in logs ensures AtMost(logs[id].entry, rows[k - 1].entry) <==> logs[id] !in rows[k..] {
      assert Holds(logs, logs[id]) && logs[id] in rows;
      var i :| 0 <= i < |rows| && rows[i] == logs[id];
      PositionAtMost(rows, k, i);
    }
  }

  lemma PositionAtMost(rows: seq<Row>, k: nat, i: nat)
    requires Sorted(rows) && 0 < k <= |rows| && i < |rows|
    ensures AtMost(rows[i].entry, rows[k - 1].entry) <==> i < k
    ensures rows[i] in rows[k..] <==> i >= k
  {
    BeforeTotal(rows[i].entry, rows[k - 1].entry);
    if i >= k {
      assert rows[k..][i - k] == rows[i];
    } else {
      forall j | 0 <= j < |rows[k..]| ensures rows[k..][j] != rows[i] {
        BeforeTotal(rows[i].entry, rows[k + j].entry);
      }
    }
  }

  /** A table cut to its newest rows, read in order, is those rows. */
  lemma KeptSuffix(logs: Logs, k: nat)
    requires Keyed(logs) && k <= |Ordered(logs)|
    ensures var kept := KeepOnly(logs, Ordered(logs)[k..]);
            Keyed(kept) && Ordered(kept) == Ordered(logs)[k..] && |kept| == |logs| - k
  {
    hide Ordered, Before;
    var rows, suffix := Ordered(logs), Ordered(logs)[k..];
    var kept := KeepOnly(logs, suffix);
    OrderedRows(logs);
    forall r ensures r in suffix <==> Holds(kept, r) {
      assert r in suffix ==> r in rows;
    }
    OrderedIs(kept, suffix);
    OrderedRows(kept);
  }

  /** What the budget leaves, read in order, is what the simple loop leaves. */
  lemma BudgetKeepsNewest(logs: Logs, maxBytes: int)
    requires Keyed(logs) && maxBytes > 0
    ensures Keyed(AfterBudget(logs, maxBytes))
    ensures Ordered(AfterBudget(logs, maxBytes)) == DropOldest(Ordered(logs), RowSize, maxBytes)
    ensures |AfterBudget(logs, maxBytes)| == |logs| - DropCount(Ordered(logs), RowSize, maxBytes)
  {
    hide Ordered, RowSize, Total, Keyed, KeepOnly, DropOldest, DropCount;
    DropOldestIsLeast(Ordered(logs), RowSize, maxBytes);
    KeptSuffix(logs, DropCount(Ordered(logs), RowSize, maxBytes));
  }
}
