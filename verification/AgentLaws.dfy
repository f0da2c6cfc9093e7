/** What the agent's operations do to a single container, and that a flush delivers
    everything when nothing fails. */
module AgentLaws {
  import opened Text
  import opened Store
  import opened StoreLaws
  import opened IngestRules
  import opened Delivery

  // ---- metadata ----------------------------------------------------------------------------

  /** A container that is not discovered keeps what the queue knew of it. */
  lemma {:induction false} Undiscovered(containers: map<ContainerKey, ContainerInfo>, infos: seq<ContainerInfo>, n: nat,
                                        key: ContainerKey)
    requires n <= |infos| && forall i :: 0 <= i < n ==> !Names(infos[i], key)
    ensures var after := SetContainers(containers, infos, n);
            (key in after <==> key in containers) && (key in after ==> after[key] == containers[key])
  {
    if n == 0 {
    } else {
      Undiscovered(containers, infos, n - 1, key);
    }
  }

  /** Of one that is, the last report counts. */
  lemma {:induction false} LastDiscovered(containers: map<ContainerKey, ContainerInfo>, infos: seq<ContainerInfo>,
                                          n: nat, key: ContainerKey, i: nat)
    requires LastOf(infos, n, key, i)
    ensures var after := SetContainers(containers, infos, n); key in after && after[key] == infos[i]
  {
    if i == n - 1 {
    } else {
      LastDiscovered(containers, infos, n - 1, key, i);
    }
  }

  // ---- a delivery that nothing disturbs --------------------------------------------------------

  /** A batch that the Hub takes from this agent. */
  ghost predicate Deliverable(node: Node, batch: EntryBatch) {
    && batch.key.agentId == node.id != "" && batch.key.bootId != "" && |batch.entries| <= 500
    && (forall e :: e in batch.entries ==>
                      !(forall i :: 0 <= i < |e.insertId| ==> IsSpace(e.insertId[i])) &&
                      (e.nodeId == "" || e.nodeId == node.id))
    && (forall c :: c in batch.containers ==> c.nodeId == "" || c.nodeId == node.id)
  }

  lemma StampedNames(node: Node, batch: EntryBatch)
    requires Deliverable(node, batch)
    ensures forall e :: e in Stamp(node, batch).entries ==>
                          !(forall i :: 0 <= i < |e.insertId| ==> IsSpace(e.insertId[i]))
  {
    hide IsSpace;
    var stamped := Stamp(node, batch);
    forall e | e in stamped.entries ensures !(forall i :: 0 <= i < |e.insertId| ==> IsSpace(e.insertId[i])) {
      var k :| 0 <= k < |stamped.entries| && stamped.entries[k] == e;
      assert batch.entries[k] in batch.entries && e.insertId == batch.entries[k].insertId;
    }
  }

  /** An answered request for such a batch succeeds, and the Hub holds its receipt
      if it carries anything. */
  lemma AnsweredSendDelivers(cfg: Config, s: State, batch: EntryBatch, shot: Shot)
    requires shot.network == Answered && Deliverable(cfg.node, batch)
    ensures Send(cfg, s, batch, shot).1
    ensures batch.entries != [] || batch.containers != [] ==> batch.key in Send(cfg, s, batch, shot).0.hub.receipts
    ensures forall key :: key in s.hub.receipts ==> key in Send(cfg, s, batch, shot).0.hub.receipts
  {
    hide Check, WriteOutcome, Stamp, AfterWrite, IsSpace;
    CheckMeans(cfg.node, LogBatch(PROTOCOL_VERSION, batch));
    StampedNames(cfg.node, batch);
    var stamped := Stamp(cfg.node, batch);
    WriteOutcomes(s.hub, stamped);
    forall key {
      WrittenReceipt(s.hub, stamped, shot.now, key);
    }
  }

  ghost predicate AllAnswered(sends: seq<Attempt>) {
    forall i :: 0 <= i < |sends| ==> sends[i].shot.network == Answered && !sends[i].removeFails
  }

  ghost predicate Holds(s: State, spool: seq<SpoolItem>) {
    forall item :: item in spool && (item.batch.entries != [] || item.batch.containers != []) ==>
                     item.batch.key in s.hub.receipts
  }

  /** A replay that nothing disturbs empties the spool into the Hub. */
  lemma {:induction false} QuietReplayDelivers(cfg: Config, s: State, sends: seq<Attempt>)
    requires AllAnswered(sends) && |sends| >= |s.spool|
    requires forall item :: item in s.spool ==> Deliverable(cfg.node, item.batch)
    ensures var (t, ok) := ReplayItems(cfg, s, sends);
            ok && t.spool == [] && t.queue == s.queue && Holds(t, s.spool) &&
            forall key :: key in s.hub.receipts ==> key in t.hub.receipts
    decreases |sends|
  {
    hide Send, Deliverable;
    if s.spool == [] {
    } else {
      var head, tail := s.spool[0], s.spool[1..];
      assert s.spool == [head] + tail;
      AnsweredSendDelivers(cfg, s, head.batch, sends[0].shot);
      var sent := Send(cfg, s, head.batch, sends[0].shot).0;
      QuietReplayDelivers(cfg, sent.(spool := tail), sends[1..]);
    }
  }

  /** A flush that nothing disturbs leaves queue and spool empty, with everything
      that was in them at the Hub. */
  lemma {:induction false} QuietFlushDelivers(cfg: Config, s: State, m: Moment)
    requires !m.readFails && AllAnswered(m.sends) && |m.sends| >= |s.spool| && m.last.network == Answered
    requires forall item :: item in s.spool ==> Deliverable(cfg.node, item.batch)
    requires Deliverable(cfg.node, NextBatch(cfg, s.bootId, s.queue, m.order))
    ensures var (t, ok) := FlushQueue(cfg, s, m);
            && ok && t.spool == [] && NothingQueued(t.queue) && Holds(t, s.spool)
            && (s.queue.entries != [] || (s.queue.containers != map[] && m.order != []) ==>
                  NextBatch(cfg, s.bootId, s.queue, m.order).key in t.hub.receipts)
  {
    hide Send, Deliverable, ReplayItems, AllAnswered, WriteSpool;
      var (flushed, batch) := Flush(cfg, s, m.order);
    QuietReplayDelivers(cfg, flushed, m.sends);
    if batch.Some? {
      AnsweredSendDelivers(cfg, Replay(cfg, flushed, m).0, batch.value, m.last);
    }
  }
}
