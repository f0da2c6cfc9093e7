/** What the Hub accepts from an authenticated agent, and what it stamps. */
module IngestRules {
  import opened Text
  import opened Rows
  import opened Store

  const PROTOCOL_VERSION := 2
  const MAX_BATCH_ENTRIES := 500

  datatype Node = Node(id: string, name: string)

  /** An agent's request body. */
  datatype LogBatch = LogBatch(protocolVersion: int, batch: EntryBatch)

  datatype Verdict = Valid | InvalidBatch | AgentMismatch

  predicate ForeignEntry(node: Node, e: Entry) {
    e.nodeId != "" && e.nodeId != node.id
  }

  /** The entry loop: a blank id or a foreign node id ends it. */
  function CheckEntries(node: Node, entries: seq<Entry>): Verdict {
    if entries == [] then Valid
    else if Trim(entries[0].insertId) == "" then InvalidBatch
    else if ForeignEntry(node, entries[0]) then AgentMismatch
    else CheckEntries(node, entries[1..])
  }

  predicate ForeignContainer(node: Node, c: ContainerInfo) {
    c.nodeId != "" && c.nodeId != node.id
  }

  function Check(node: Node, request: LogBatch): Verdict {
    var batch := request.batch;
    if request.protocolVersion != PROTOCOL_VERSION || batch.key.agentId == "" || batch.key.bootId == ""
    then InvalidBatch
    else if node.id != batch.key.agentId then AgentMismatch
      else if |batch.entries| > MAX_BATCH_ENTRIES then InvalidBatch
      else
        var entries := CheckEntries(node, batch.entries);
        if entries != Valid then entries
        else if exists c :: c in batch.containers && ForeignContainer(node, c) then AgentMismatch
        else Valid
  }

  function StampEntry(node: Node, e: Entry): Entry {
    e.(nodeId := node.id, nodeName := node.name)
  }

  function StampContainer(node: Node, c: ContainerInfo): ContainerInfo {
    c.(nodeId := node.id, nodeName := node.name)
  }

  /** The batch as it is stored: every entry and container owned by the node. */
  function Stamp(node: Node, batch: EntryBatch): (r: EntryBatch)
    ensures r.key == batch.key && |r.entries| == |batch.entries| && |r.containers| == |batch.containers|
    ensures forall i :: 0 <= i < |r.entries| ==>
                          r.entries[i] == batch.entries[i].(nodeId := node.id, nodeName := node.name)
    ensures forall i :: 0 <= i < |r.containers| ==>
                          r.containers[i] == batch.containers[i].(nodeId := node.id, nodeName := node.name)
  {
    EntryBatch(batch.key,
               seq(|batch.entries|, i requires 0 <= i < |batch.entries| => StampEntry(node, batch.entries[i])),
               seq(|batch.containers|,
               i requires 0 <= i < |batch.containers| => StampContainer(node, batch.containers[i])))
  }

  /** One delivery at the Hub: the tables after it, and whether the agent gets
      a success reply. */
  function Receive(db: Db, node: Node, batch: EntryBatch, now: int): (Db, bool) {
    if Check(node, LogBatch(PROTOCOL_VERSION, batch)) != Valid then (db, false)
    else (AfterWrite(db, Stamp(node, batch), now), WriteOutcome(db, Stamp(node, batch)) != Failed)
  }

  /** The delivery stored the batch for the first time since its receipt. */
  predicate Stores(db: Db, node: Node, batch: EntryBatch) {
    Check(node, LogBatch(PROTOCOL_VERSION, batch)) == Valid && WriteOutcome(db, Stamp(node, batch)) == Accepted
  }

  /** An answered batch that carries anything has its receipt. */
  lemma SuccessLeavesReceipt(db: Db, node: Node, batch: EntryBatch, now: int)
    requires !NoContent(batch) && Receive(db, node, batch, now).1
    ensures batch.key in Receive(db, node, batch, now).0.receipts
    ensures Stores(db, node, batch) || batch.key in db.receipts
  {}

  lemma {:induction false} CheckedEntries(node: Node, entries: seq<Entry>)
    ensures CheckEntries(node, entries) == Valid
       <==> forall e :: e in entries ==> Trim(e.insertId) != "" && !ForeignEntry(node, e)
  {
    if entries == [] {
    } else {
      CheckedEntries(node, entries[1..]);
      assert entries == [entries[0]] + entries[1..];
    }
  }

  /** The whole check: version and identity are given, the agent is the node that
      sent it, there are few entries, each with an id, and nothing claims another
      node. */
  lemma CheckMeans(node: Node, request: LogBatch)
    ensures Check(node, request) == Valid
       <==> && request.protocolVersion == 2 && request.batch.key.agentId != "" && request.batch.key.bootId != ""
            && request.batch.key.agentId == node.id && |request.batch.entries| <= 500
            && (forall e :: e in request.batch.entries ==>
                              !(forall i :: 0 <= i < |e.insertId| ==> IsSpace(e.insertId[i])) &&
                              (e.nodeId == "" || e.nodeId == node.id))
            && (forall c :: c in request.batch.containers ==> c.nodeId == "" || c.nodeId == node.id)
  {
    hide Trim, IsSpace;
    CheckedEntries(node, request.batch.entries);
    forall e | e in request.batch.entries
      ensures Trim(e.insertId) == "" <==> forall i :: 0 <= i < |e.insertId| ==> IsSpace(e.insertId[i])
    {
      BlankText(e.insertId);
    }
  }

  /** A batch whose entries are named, own and few passes the check. */
  lemma CheckAccepts(node: Node, batch: EntryBatch)
    requires node.id != "" && batch.key.agentId == node.id && batch.key.bootId != ""
    requires |batch.entries| <= MAX_BATCH_ENTRIES
    requires forall e :: e in batch.entries ==> Trim(e.insertId) != "" && !ForeignEntry(node, e)
    requires forall c :: c in batch.containers ==> !ForeignContainer(node, c)
    ensures Check(node, LogBatch(PROTOCOL_VERSION, batch)) == Valid
  {
    CheckedEntries(node, batch.entries);
  }
}
