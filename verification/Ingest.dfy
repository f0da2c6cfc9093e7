/** The ingest service: check, stamp ownership, store, and publish what was
    stored for the first time. */
module Ingest {
  import opened Text
  import opened Rows
  import opened Store
  import opened StoreClass
  import opened IngestRules
  import B = Broker

  function PublishAll(b: B.State, entries: seq<Entry>, n: nat): B.State
    requires n <= |entries|
  {
    if n == 0 then b else B.AfterPublish(PublishAll(b, entries, n - 1), entries[n - 1])
  }

  lemma {:induction false} SeenGrows(b: B.State, entries: seq<Entry>, n: nat, id: string)
    requires n <= |entries| && id in PublishAll(b, entries, n).seen
    ensures id in b.seen || exists i :: 0 <= i < n && entries[i].insertId == id
  {
    hide B.Deliver, B.WritesToClosed;
    if n == 0 {
    } else if id in PublishAll(b, entries, n - 1).seen {
      SeenGrows(b, entries, n - 1, id);
    } else {
      assert entries[n - 1].insertId == id;
    }
  }

  /** One publication accepts the entry or refuses its id. */
  lemma PublishesOne(b: B.State, e: Entry)
    ensures var a := B.AfterPublish(b, e);
            if e.insertId != "" && e.insertId in b.seen then a == b else a.accepted == b.accepted + [e]
  {
    hide B.Deliver, B.WritesToClosed;
  }

  /** Publishing a batch accepts entries of it in order, and every one whose id is
      new to the bus and to the batch. */
  lemma {:induction false} PublishesNew(b: B.State, entries: seq<Entry>, n: nat)
    requires n <= |entries|
    ensures var a := PublishAll(b, entries, n);
            b.accepted <= a.accepted && B.Subsequence(a.accepted[|b.accepted|..], entries[..n])
  {
    hide B.AfterPublish, B.Subsequence;
    if n == 0 {
      B.NothingSent(entries[..0]);
      assert b.accepted[|b.accepted|..] == [];
    } else {
      var m, e := PublishAll(b, entries, n - 1), entries[n - 1];
      PublishesNew(b, entries, n - 1);
      PublishesOne(m, e);
      var more := m.accepted[|b.accepted|..];
      B.SubsequenceGrows(more, entries[..n - 1], e);
      assert entries[..n] == entries[..n - 1] + [e];
      assert (m.accepted + [e])[|b.accepted|..] == more + [e];
    }
  }

  lemma {:induction false} NewIsAccepted(b: B.State, entries: seq<Entry>, n: nat, i: nat)
    requires i < n <= |entries| && (entries[i].insertId == "" || entries[i].insertId !in b.seen)
    requires forall j :: 0 <= j < i ==> entries[j].insertId != entries[i].insertId
    ensures var a := PublishAll(b, entries, n);
            b.accepted <= a.accepted && entries[i] in a.accepted[|b.accepted|..]
  {
    hide B.AfterPublish, B.Subsequence;
    var m := PublishAll(b, entries, n - 1);
    PublishesNew(b, entries, n - 1);
    PublishesOne(m, entries[n - 1]);
    assert (m.accepted + [entries[n - 1]])[|b.accepted|..] == m.accepted[|b.accepted|..] + [entries[n - 1]];
    if i < n - 1 {
      NewIsAccepted(b, entries, n - 1, i);
    } else if entries[i].insertId in m.seen {
      SeenGrows(b, entries, n - 1, entries[i].insertId);
    }
  }

  /** No id, or another node's. */
  ghost predicate Bad(node: Node, e: Entry) {
    (forall i :: 0 <= i < |e.insertId| ==> IsSpace(e.insertId[i])) || (e.nodeId != "" && e.nodeId != node.id)
  }

  lemma BadMeans(node: Node, e: Entry)
    ensures Trim(e.insertId) == "" <==> forall i :: 0 <= i < |e.insertId| ==> IsSpace(e.insertId[i])
    ensures Bad(node, e) <==> Trim(e.insertId) == "" || ForeignEntry(node, e)
  {
    hide Trim, IsSpace;
    BlankText(e.insertId);
  }

  method StampEntries(node: Node, entries: seq<Entry>) returns (verdict: Verdict, stamped: seq<Entry>)
    ensures verdict == CheckEntries(node, entries)
    ensures verdict == Verdict.Valid ==>
              |stamped| == |entries| && forall i :: 0 <= i < |entries| ==> stamped[i] == StampEntry(node, entries[i])
    ensures verdict != Verdict.Valid ==>
              |stamped| < |entries| && (forall j :: 0 <= j < |stamped| ==> !Bad(node, entries[j])) &&
              var e := entries[|stamped|];
              Bad(node, e) &&
              (verdict == InvalidBatch <==> forall i :: 0 <= i < |e.insertId| ==> IsSpace(e.insertId[i]))
    ensures verdict == Verdict.Valid ==> forall e :: e in entries ==> !Bad(node, e)
  {
    hide Trim, IsSpace, Bad;
    stamped := [];
    for index := 0 to |entries|
      invariant CheckEntries(node, entries) == CheckEntries(node, entries[index..])
      invariant |stamped| == index && forall i :: 0 <= i < index ==> stamped[i] == StampEntry(node, entries[i])
      invariant forall j :: 0 <= j < index ==> !Bad(node, entries[j])
    {
      BadMeans(node, entries[index]);
      var entry := entries[index];
      assert entries[index..][0] == entry && entries[index..][1..] == entries[index + 1..];
      if Trim(entry.insertId) == "" {
        return InvalidBatch, stamped;
      }
      if entry.nodeId != "" && entry.nodeId != node.id {
        return AgentMismatch, stamped;
      }
      stamped := stamped + [entry.(nodeId := node.id, nodeName := node.name)];
    }
    verdict := Verdict.Valid;
  }

  method StampContainers(node: Node, infos: seq<ContainerInfo>) returns (foreign: bool, stamped: seq<ContainerInfo>)
    ensures foreign <==> exists c :: c in infos && ForeignContainer(node, c)
    ensures !foreign ==> |stamped| == |infos| && forall i :: 0 <= i < |infos| ==>
                                                               stamped[i] == StampContainer(node, infos[i])
  {
    stamped := [];
    for index := 0 to |infos|
      invariant forall i :: 0 <= i < index ==> !ForeignContainer(node, infos[i])
      invariant |stamped| == index && forall i :: 0 <= i < index ==> stamped[i] == StampContainer(node, infos[i])
    {
      if infos[index].nodeId != "" && infos[index].nodeId != node.id {
        assert infos[index] in infos && ForeignContainer(node, infos[index]);
        return true, stamped;
      }
      stamped := stamped + [infos[index].(nodeId := node.id, nodeName := node.name)];
    }
    foreign := false;
  }

  /** The reply is a success exactly when Receive says so; subscribers see the
      stamped entries exactly when the batch was accepted. */
  method Ingest(store: SqliteStore, bus: B.EventBus, node: Node, request: LogBatch, now: int)
    returns (count: nat, accepted: bool, failed: bool)
    requires store.Valid() && bus.members <= bus.subscribers.Keys
    modifies store, bus
    ensures store.Valid()
    ensures Check(node, request) != Verdict.Valid ==>
              failed && store.State() == old(store.State()) && bus.Value() == old(bus.Value())
    ensures Check(node, request) == Verdict.Valid ==>
              (store.State(), !failed) == Receive(old(store.State()), node, request.batch, now) &&
              (accepted <==> Stores(old(store.State()), node, request.batch)) &&
              bus.Value() == if accepted
              then PublishAll(old(bus.Value()), Stamp(node, request.batch).entries,
                              |request.batch.entries|)
              else old(bus.Value())
    ensures failed ==> count == 0 && !accepted
    ensures !failed ==> count == |request.batch.entries|
  {
    var batch := request.batch;
    if request.protocolVersion != PROTOCOL_VERSION || batch.key.agentId == "" || batch.key.bootId == "" {
      return 0, false, true;
    }
    if node.id != batch.key.agentId {
      return 0, false, true;
    }
    if |batch.entries| > MAX_BATCH_ENTRIES {
      return 0, false, true;
    }
    var verdict, entries := StampEntries(node, batch.entries);
    if verdict != Verdict.Valid {
      return 0, false, true;
    }
    var foreign, infos := StampContainers(node, batch.containers);
    if foreign {
      return 0, false, true;
    }
    var stamped := EntryBatch(batch.key, entries, infos);
    assert stamped == Stamp(node, batch);
    var outcome := store.WriteBatch(stamped, now);
    if outcome == Failed {
      return 0, false, true;
    }
    if outcome == Accepted {
      PublishEntries(bus, entries);
    }
    return |batch.entries|, outcome == Accepted, false;
  }

  method PublishEntries(bus: B.EventBus, entries: seq<Entry>)
    requires bus.members <= bus.subscribers.Keys
    modifies bus
    ensures bus.Value() == PublishAll(old(bus.Value()), entries, |entries|)
  {
    for i := 0 to |entries|
      invariant bus.members == old(bus.members) && bus.members <= bus.subscribers.Keys
      invariant bus.Value() == PublishAll(old(bus.Value()), entries, i)
    {
      bus.Publish(entries[i]);
    }
  }
}
