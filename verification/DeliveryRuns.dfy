/** Whole runs of the delivery protocol: no batch disappears unrecorded, and
    the Hub sees the batches of one boot in order. */
module DeliveryRuns {
  import opened Text
  import opened Rows
  import opened Store
  import opened Delivery
  import opened DeliverySteps
  import opened SpoolLaws

  // ---- what every step keeps ---------------------------------------------------------

  ghost predicate Ours(cfg: Config, s: State, key: BatchKey) {
    && key.agentId == cfg.node.id && key.bootId in s.ledger.boots
    && (key.bootId == s.bootId ==> key.sequence <= s.queue.sequence)
  }

  /** First acceptances of one boot come in strictly increasing sequence. */
  ghost predicate InSequence(firsts: seq<BatchKey>) {
    forall i, j :: 0 <= i < j < |firsts| && firsts[i].bootId == firsts[j].bootId ==>
                     firsts[i].sequence < firsts[j].sequence
  }

  /** The key comes after every first acceptance of its boot. */
  ghost predicate Later(firsts: seq<BatchKey>, key: BatchKey) {
    forall f :: f in firsts && f.bootId == key.bootId ==> f.sequence < key.sequence
  }

  ghost predicate Sound(cfg: Config, s: State) {
    && Keyed(s.hub.logs) && s.bootId in s.ledger.boots
    && SpoolSorted(s.spool) && InSequence(s.ledger.firsts)
    && (forall item :: item in s.spool ==> Ours(cfg, s, item.batch.key) && !NoContent(item.batch))
    && (forall key :: key in s.ledger.firsts ==> Ours(cfg, s, key))
    && (forall key :: key in s.hub.receipts && key.agentId == cfg.node.id ==> key in s.ledger.firsts)
    && (forall item :: item in s.spool && item.batch.key !in s.ledger.firsts ==> Later(s.ledger.firsts, item.batch.key))
  }

  /** The batch in hand is the newest of the running boot, and is not applied
      out of turn. */
  ghost predicate Held(cfg: Config, s: State, batch: EntryBatch) {
    && Ours(cfg, s, batch.key) && batch.key.bootId == s.bootId && !NoContent(batch)
    && (forall item :: item in s.spool && item.batch.key.bootId == s.bootId ==>
                         item.batch.key.sequence < batch.key.sequence)
    && (batch.key in s.ledger.firsts || Later(s.ledger.firsts, batch.key))
  }

  ghost predicate FlushedKey(segments: seq<Segment>, key: BatchKey) {
    exists i :: 0 <= i < |segments| && segments[i].Flushed? && segments[i].batch.key == key
  }

  function HandKeys(p: Phase): set<BatchKey> {
    if Hand(p).Some? then {Hand(p).value.key} else {}
  }

  ghost predicate Lost(s: State, key: BatchKey) {
    key in s.ledger.pruned || key in s.ledger.unsaved || key in s.ledger.cut
  }

  /** Every flushed batch is at the Hub, in the spool, in hand, or recorded as lost. */
  ghost predicate Accounted(s: State, inHand: set<BatchKey>) {
    forall key :: FlushedKey(s.ledger.segments, key) ==>
                    key in s.ledger.firsts || key in KeysOf(s.spool) || key in inHand || Lost(s, key)
  }

  ghost predicate WorldSound(cfg: Config, w: World) {
    && Sound(cfg, w.s) && Accounted(w.s, HandKeys(w.phase))
    && (Hand(w.phase).Some? ==> Held(cfg, w.s, Hand(w.phase).value))
    && (w.phase.Removing? ==> w.s.spool != [] && w.s.spool[0].batch.key in w.s.ledger.firsts)
    && (w.phase.Sending? ==> w.s.spool == [])
  }

  // ---- sending ---------------------------------------------------------------------------

  /** One delivery: a success means the batch was accepted, now or before; a
      first acceptance is entered once, and receipts of this agent are of
      accepted batches. */
  lemma SendEffect(cfg: Config, s: State, batch: EntryBatch, shot: Shot)
    requires Keyed(s.hub.logs) && !NoContent(batch)
    requires forall key :: key in s.hub.receipts && key.agentId == cfg.node.id ==> key in s.ledger.firsts
    ensures var (t, ok) := Send(cfg, s, batch, shot);
            Keyed(t.hub.logs) && (ok ==> batch.key in t.ledger.firsts) &&
            (t.ledger.firsts == s.ledger.firsts
             || (batch.key !in s.ledger.firsts && t.ledger.firsts == s.ledger.firsts + [batch.key])) &&
            (forall key :: key in t.hub.receipts && key.agentId == cfg.node.id ==> key in t.ledger.firsts)
  {
    SendKeyed(cfg, s, batch, shot);
  }

  lemma AppendInSequence(firsts: seq<BatchKey>, key: BatchKey)
    requires InSequence(firsts) && Later(firsts, key)
    ensures InSequence(firsts + [key])
  {
    forall i | 0 <= i < |firsts| && firsts[i].bootId == key.bootId ensures firsts[i].sequence < key.sequence {
      assert firsts[i] in firsts;
    }
  }

  /** Sending a batch that is due next keeps everything. */
  lemma {:induction false} SendSound(cfg: Config, s: State, batch: EntryBatch, shot: Shot)
    requires Sound(cfg, s) && Ours(cfg, s, batch.key) && !NoContent(batch)
    requires batch.key in s.ledger.firsts || Later(s.ledger.firsts, batch.key)
    requires forall item :: item in s.spool && item.batch.key.bootId == batch.key.bootId
                            && item.batch.key !in s.ledger.firsts && item.batch.key != batch.key
                            ==> batch.key.sequence < item.batch.key.sequence
    ensures Sound(cfg, Send(cfg, s, batch, shot).0)
    ensures Send(cfg, s, batch, shot).1 ==> batch.key in Send(cfg, s, batch, shot).0.ledger.firsts
    ensures forall key :: key in s.ledger.firsts ==> key in Send(cfg, s, batch, shot).0.ledger.firsts
    ensures forall key :: key in Send(cfg, s, batch, shot).0.ledger.firsts ==>
                            key in s.ledger.firsts || key == batch.key
  {
    hide Send, SpoolSorted, NoContent, KeyBefore;
    SendEffect(cfg, s, batch, shot);
    var t := Send(cfg, s, batch, shot).0;
    if t.ledger.firsts != s.ledger.firsts {
      AppendInSequence(s.ledger.firsts, batch.key);
      forall item | item in t.spool && item.batch.key !in t.ledger.firsts
        ensures Later(t.ledger.firsts, item.batch.key)
      {
        assert item.batch.key != batch.key;
      }
    }
  }

  // ---- the spool ----------------------------------------------------------------------------

  lemma SpoolTail(cfg: Config, s: State)
    requires Sound(cfg, s) && s.spool != []
    ensures Sound(cfg, s.(spool := s.spool[1..]))
    ensures forall item :: item in s.spool[1..] ==> item in s.spool && KeyBefore(s.spool[0].batch.key, item.batch.key)
    ensures KeysOf(s.spool) == KeysOf(s.spool[1..]) + {s.spool[0].batch.key}
  {
    hide Later, InSequence, NoContent, KeyBefore;
    var tail := s.spool[1..];
    assert s.spool == [s.spool[0]] + tail;
    forall item | item in tail ensures item in s.spool && KeyBefore(s.spool[0].batch.key, item.batch.key) {
      var i :| 0 <= i < |tail| && tail[i] == item;
      assert s.spool[i + 1] == item;
    }
  }

  /** The head of the spool is due next. */
  lemma HeadIsDue(cfg: Config, s: State)
    requires Sound(cfg, s) && s.spool != []
    ensures var key := s.spool[0].batch.key;
            (key in s.ledger.firsts || Later(s.ledger.firsts, key)) && Ours(cfg, s, key) &&
            !NoContent(s.spool[0].batch) &&
            forall item :: item in s.spool && item.batch.key.bootId == key.bootId && item.batch.key != key
                           ==> key.sequence < item.batch.key.sequence
  {
    var head := s.spool[0];
    assert head in s.spool;
    SpoolTail(cfg, s);
    assert s.spool == [head] + s.spool[1..];
    forall item | item in s.spool && item.batch.key.bootId == head.batch.key.bootId && item.batch.key != head.batch.key
      ensures head.batch.key.sequence < item.batch.key.sequence
    {
      assert item in s.spool[1..];
      LessTotal(head.batch.key.bootId, head.batch.key.bootId);
    }
  }

  lemma SmallerSpoolSound(cfg: Config, s: State, spool: seq<SpoolItem>, t: State)
    requires Sound(cfg, s) && SpoolSorted(spool) && forall x :: x in spool ==> x in s.spool
    requires t == s.(spool := spool, ledger := s.ledger.(pruned := t.ledger.pruned))
    ensures Sound(cfg, t)
  {}

  /** Spooling the batch in hand settles it: stored, pruned or recorded unsaved. */
  lemma WriteSound(cfg: Config, s: State, batch: EntryBatch, saving: Saving)
    requires Sound(cfg, s) && Accounted(s, {batch.key}) && Held(cfg, s, batch)
    ensures Sound(cfg, WriteSpool(cfg, s, batch, saving).0) && Accounted(WriteSpool(cfg, s, batch, saving).0, {})
  {
    var item := SpoolItem(batch, saving.size, saving.now);
    var stored := Insert(s.spool, item);
    InsertItem(s.spool, item);
    var t := s.(spool := stored);
    assert Sound(cfg, t);
    assert batch.key in KeysOf(stored) by { assert item in stored; }
    assert KeysOf(s.spool) <= KeysOf(stored);
    if !saving.fault.NotStored? {
      PrunedKeeps(cfg, saving.now, stored, saving.fault);
      var u := WriteSpool(cfg, s, batch, saving).0;
      SmallerSpoolSound(cfg, t, Pruned(cfg, saving.now, stored, saving.fault), u);
    }
  }

  // ---- flushing --------------------------------------------------------------------------------

  lemma FlushSound(cfg: Config, s: State, order: seq<ContainerInfo>)
    requires Sound(cfg, s) && Accounted(s, {}) && Lists(order, s.queue.containers)
    ensures var (t, batch) := Flush(cfg, s, order);
            Sound(cfg, t) &&
            match batch case None => t == s case Some(b) => Held(cfg, t, b) && Accounted(t, {b.key})
  {
    var (t, batch) := Flush(cfg, s, order);
    if batch.Some? {
      FlushedLast(s.ledger.segments, batch.value);
      NewBatchHasContent(cfg, s, order);
      assert forall key :: Ours(cfg, s, key) ==> Ours(cfg, t, key);
    }
  }

  lemma FlushedLast(segments: seq<Segment>, batch: EntryBatch)
    ensures forall key :: FlushedKey(segments + [Flushed(batch)], key) <==>
                          FlushedKey(segments, key) || key == batch.key
  {
    var more := segments + [Flushed(batch)];
    forall key ensures FlushedKey(more, key) <==> FlushedKey(segments, key) || key == batch.key {
      assert more[|segments|] == Flushed(batch);
      if FlushedKey(segments, key) {
        var i :| 0 <= i < |segments| && segments[i].Flushed? && segments[i].batch.key == key;
        assert more[i] == segments[i];
      }
    }
  }

  lemma NewBatchHasContent(cfg: Config, s: State, order: seq<ContainerInfo>)
    requires !NothingQueued(s.queue) && Lists(order, s.queue.containers)
    ensures !NoContent(NextBatch(cfg, s.bootId, s.queue, order))
  {
    assert |s.queue.containers| == 0 ==> s.queue.containers == map[];
  }

  lemma DropQueueSound(cfg: Config, s: State, extra: seq<Entry>, inHand: set<BatchKey>)
    requires Sound(cfg, s) && Accounted(s, inHand)
    ensures Sound(cfg, DropQueue(s, extra)) && Accounted(DropQueue(s, extra), inHand)
  {
    var t := DropQueue(s, extra);
    assert forall key :: FlushedKey(t.ledger.segments, key) ==> FlushedKey(s.ledger.segments, key);
  }

  // ---- every action ----------------------------------------------------------------------------

  /** A change of the queue's content touches none of this. */
  lemma QueueSound(cfg: Config, s: State, t: State, inHand: set<BatchKey>)
    requires Sound(cfg, s) && Accounted(s, inHand)
    requires t == s.(queue := t.queue, ledger := s.ledger.(collected := t.ledger.collected))
    requires t.queue.sequence == s.queue.sequence
    ensures Sound(cfg, t) && Accounted(t, inHand)
  {}

  lemma TakeSound(cfg: Config, w: World, order: seq<ContainerInfo>)
    requires WorldSound(cfg, w) && Possible(cfg, w, Take(order))
    ensures WorldSound(cfg, AfterTake(cfg, w, order))
  {
    FlushSound(cfg, w.s, order);
  }

  /** A delivery of a spooled batch leaves every batch where it is. */
  lemma SentKeeps(cfg: Config, s: State, t: State, item: SpoolItem, inHand: set<BatchKey>)
    requires item in s.spool && Accounted(s, inHand)
    requires t == s.(hub := t.hub, ledger := s.ledger.(firsts := t.ledger.firsts))
    requires forall key :: key in s.ledger.firsts ==> key in t.ledger.firsts
    requires forall key :: key in t.ledger.firsts ==> key in s.ledger.firsts || key == item.batch.key
    ensures Accounted(t, inHand)
    ensures forall batch :: Held(cfg, s, batch) ==> Held(cfg, t, batch)
  {}

  lemma SendHeadSound(cfg: Config, w: World, shot: Shot)
    requires WorldSound(cfg, w) && w.phase.Replaying? && w.s.spool != []
    ensures WorldSound(cfg, AfterSendHead(cfg, w, shot))
  {
    hide Send, SpoolSorted, InSequence, Later, FlushedKey, Lost;
    var head := w.s.spool[0];
    HeadIsDue(cfg, w.s);
    SendSound(cfg, w.s, head.batch, shot);
    SentKeeps(cfg, w.s, Send(cfg, w.s, head.batch, shot).0, head, HandKeys(w.phase));
  }

  lemma RemoveSound(cfg: Config, w: World, fails: bool)
    requires WorldSound(cfg, w) && w.phase.Removing?
    ensures WorldSound(cfg, AfterRemove(w, fails))
  {
    SpoolTail(cfg, w.s);
    assert HandKeys(Stopped(w.phase.hand)) == HandKeys(w.phase);
  }

  lemma SendNewSound(cfg: Config, w: World, shot: Shot)
    requires WorldSound(cfg, w) && w.phase.Sending?
    ensures WorldSound(cfg, AfterSendNew(cfg, w, shot))
  {
    SendSound(cfg, w.s, w.phase.batch, shot);
    SendEffect(cfg, w.s, w.phase.batch, shot);
  }

  lemma SaveSound(cfg: Config, w: World, saving: Saving)
    requires WorldSound(cfg, w) && (w.phase.Spooling? || w.phase.Storing?)
    ensures WorldSound(cfg, AfterSave(cfg, w, saving))
  {
    hide Sound, Accounted, Held, FlushedKey, KeyBefore;
    WriteSound(cfg, w.s, w.phase.batch, saving);
    var saved := WriteSpool(cfg, w.s, w.phase.batch, saving).0;
    DropQueueSound(cfg, saved, Waiting(w.phase), {});
  }

  lemma RebootSound(cfg: Config, w: World, bootId: string)
    requires WorldSound(cfg, w) && Possible(cfg, w, Reboot(bootId))
    ensures WorldSound(cfg, AfterReboot(w, bootId))
  {
    DropQueueSound(cfg, w.s, Waiting(w.phase), HandKeys(w.phase));
    var t := AfterReboot(w, bootId).s;
    assert forall key :: Ours(cfg, w.s, key) ==> Ours(cfg, t, key);
  }

  /** What else the Hub does leaves no new receipt of this agent. */
  lemma OtherReceipts(db: Db, retention: int, event: StoreRuns.Event, agentId: string, key: BatchKey)
    requires Keyed(db.logs) && (event.Write? ==> event.batch.key.agentId != agentId)
    requires key.agentId == agentId && key in StoreRuns.Step(db, retention, event).receipts
    ensures key in db.receipts
  {}

  lemma HubSound(cfg: Config, s: State, hub: Db)
    requires Sound(cfg, s) && Keyed(hub.logs)
    requires forall key :: key in hub.receipts && key.agentId == cfg.node.id ==> key in s.hub.receipts
    ensures Sound(cfg, s.(hub := hub))
  {
    hide SpoolSorted, InSequence, Later, NoContent;
  }

  lemma ElsewhereSound(cfg: Config, w: World, event: StoreRuns.Event)
    requires WorldSound(cfg, w) && Possible(cfg, w, Elsewhere(event))
    ensures WorldSound(cfg, Act(cfg, w, Elsewhere(event)))
  {
    hide Later, NoContent, FlushedKey, StoreRuns.Step, SpoolSorted, InSequence;
    var hub := StoreRuns.Step(w.s.hub, cfg.retention, event);
    forall key | key in hub.receipts && key.agentId == cfg.node.id ensures key in w.s.hub.receipts {
      OtherReceipts(w.s.hub, cfg.retention, event, cfg.node.id, key);
    }
    HubSound(cfg, w.s, hub);
  }

  lemma AddSound(cfg: Config, w: World, e: Entry, bytes: nat, refused: Phase)
    requires WorldSound(cfg, w) && Hand(w.phase).None? && Hand(refused).None? && !refused.Removing? && !refused.Sending?
    ensures WorldSound(cfg, TryAdd(cfg, w, e, bytes, refused))
  {
    QueueSound(cfg, w.s, TryAdd(cfg, w, e, bytes, refused).s, {});
  }

  lemma GiveUpSound(cfg: Config, w: World)
    requires WorldSound(cfg, w) && Hand(w.phase).None?
    ensures WorldSound(cfg, GiveUp(w))
  {
    DropQueueSound(cfg, w.s, Waiting(w.phase), {});
  }

  lemma ArriveSound(cfg: Config, w: World, e: Entry, bytes: nat)
    requires WorldSound(cfg, w) && w.phase.Idle?
    ensures WorldSound(cfg, AfterArrive(cfg, w, e, bytes))
  {
    var named := Named(cfg, w, e);
    QueueSound(cfg, w.s, Count(w, named).s, {});
    AddSound(cfg, Count(w, named), named, bytes, Refused(named, bytes));
  }

  /** Only the phase moves. */
  lemma PhaseSound(cfg: Config, w: World, a: Action)
    requires WorldSound(cfg, w) && Possible(cfg, w, a) && (a.Tick? || a.ReadFails? || a.ReplayDone?)
    ensures WorldSound(cfg, Act(cfg, w, a))
  {
    hide Ours, SpoolSorted, InSequence, Later, NoContent, FlushedKey, Lost;
  }

  /** Only the metadata in the queue changes, and a new collection replays first. */
  lemma MetadataSound(cfg: Config, w: World, a: Action)
    requires WorldSound(cfg, w) && Possible(cfg, w, a) && (a.Discover? || a.Restart?)
    ensures WorldSound(cfg, Act(cfg, w, a))
  {
    hide SpoolSorted, InSequence, Later, NoContent, FlushedKey, Lost, SetContainers;
    QueueSound(cfg, w.s, Act(cfg, w, a).s, {});
  }

  lemma AddAgainSound(cfg: Config, w: World)
    requires WorldSound(cfg, w) && w.phase.Retrying?
    ensures WorldSound(cfg, Act(cfg, w, AddAgain))
  {
    hide TryAdd, GiveUp, Accounted;
    AddSound(cfg, w, w.phase.e, w.phase.bytes, w.phase);
    GiveUpSound(cfg, w);
  }

  lemma SoundIsKeyed(cfg: Config, w: World)
    requires WorldSound(cfg, w)
    ensures Keyed(w.s.hub.logs)
  {}

  lemma {:induction false} ActSound(cfg: Config, w: World, a: Action)
    requires WorldSound(cfg, w) && Possible(cfg, w, a)
    ensures WorldSound(cfg, Act(cfg, w, a))
  {
    hide WorldSound, Keyed, Send, WriteSpool, AfterTake, AfterSendHead, AfterRemove, AfterSendNew, AfterSave,
      AfterReboot, AfterArrive, GiveUp, TryAdd;
    SoundIsKeyed(cfg, w);
    match a
    case Arrive(e, bytes) => ArriveSound(cfg, w, e, bytes);
    case Take(order) => TakeSound(cfg, w, order);
    case SendHead(shot) => SendHeadSound(cfg, w, shot);
    case RemoveHead(fails) => RemoveSound(cfg, w, fails);
    case SendNew(shot) => SendNewSound(cfg, w, shot);
    case Save(saving) => SaveSound(cfg, w, saving);
    case AddAgain => AddAgainSound(cfg, w);
    case Return => GiveUpSound(cfg, w);
    case Reboot(bootId) => RebootSound(cfg, w, bootId);
    case Elsewhere(event) => ElsewhereSound(cfg, w, event);
    case _ =>
      if a.Discover? || a.Restart? {
        MetadataSound(cfg, w, a);
      } else {
        PhaseSound(cfg, w, a);
      }
  }

  // ---- runs ------------------------------------------------------------------------------------

  lemma {:induction false} RunSound(cfg: Config, bootId: string, actions: seq<Action>)
    requires PossibleRun(cfg, bootId, actions)
    ensures WorldSound(cfg, Run(cfg, bootId, actions))
  {
    if actions == [] {
    } else {
      var n := |actions| - 1;
      PossiblePrefix(cfg, bootId, actions);
      RunSound(cfg, bootId, actions[..n]);
      ActSound(cfg, Run(cfg, bootId, actions[..n]), actions[n]);
    }
  }

  /** Conservation: wherever requests and answers are lost, spool operations
      fail, the Hub acts in between or the process ends, a flushed batch is
      applied at the Hub, or in the spool, or in hand, or recorded as pruned,
      unsaved or cut off. */
  lemma {:induction false} NoBatchDisappears(cfg: Config, bootId: string, actions: seq<Action>)
    requires PossibleRun(cfg, bootId, actions)
    ensures var w := Run(cfg, bootId, actions);
            forall key :: FlushedKey(w.s.ledger.segments, key) ==>
                            || key in w.s.ledger.firsts || key in KeysOf(w.s.spool) || key in HandKeys(w.phase)
                            || key in w.s.ledger.pruned || key in w.s.ledger.unsaved || key in w.s.ledger.cut
  {
    RunSound(cfg, bootId, actions);
  }

  /** Order: the Hub first accepts the batches of one boot in strictly
      increasing sequence. */
  lemma {:induction false} BootsArriveInOrder(cfg: Config, bootId: string, actions: seq<Action>)
    requires PossibleRun(cfg, bootId, actions)
    ensures var firsts := Run(cfg, bootId, actions).s.ledger.firsts;
            forall i, j :: 0 <= i < j < |firsts| && firsts[i].bootId == firsts[j].bootId ==>
                             firsts[i].sequence < firsts[j].sequence
  {
    RunSound(cfg, bootId, actions);
  }

  // ---- what the spool gives up ------------------------------------------------------------------

  /** At this write the key's file was over the age limit, or did not fit the
      budget with the younger ones behind it. */
  ghost predicate Fell(cfg: Config, w: World, saving: Saving, key: BatchKey) {
    && (w.phase.Spooling? || w.phase.Storing?)
    && var stored := Insert(w.s.spool, SpoolItem(w.phase.batch, saving.size, saving.now));
    exists i :: 0 <= i < |stored| && stored[i].batch.key == key &&
                ((cfg.spoolMaxAge > 0 && saving.now - stored[i].modTime > cfg.spoolMaxAge)
                 || (cfg.spoolMaxSize > 0
                     && YoungBytes(cfg.spoolMaxAge, saving.now, stored[i..]) > cfg.spoolMaxSize))
  }

  lemma SavePrunes(cfg: Config, w: World, saving: Saving, key: BatchKey)
    requires w.phase.Spooling? || w.phase.Storing?
    requires key in AfterSave(cfg, w, saving).s.ledger.pruned && key !in w.s.ledger.pruned
    ensures Fell(cfg, w, saving, key)
  {
    hide Insert, Pruned, YoungBytes;
    var stored := Insert(w.s.spool, SpoolItem(w.phase.batch, saving.size, saving.now));
    PrunedByAgeAndSize(cfg, saving.now, stored, saving.fault);
    var item :| item in stored && item.batch.key == key && item !in Pruned(cfg, saving.now, stored, saving.fault);
    var i :| 0 <= i < |stored| && stored[i] == item;
  }

  lemma OnlySavesPrune(cfg: Config, w: World, a: Action)
    requires Keyed(w.s.hub.logs) && !a.Save?
    ensures Act(cfg, w, a).s.ledger.pruned == w.s.ledger.pruned
  {
    hide Keyed, StoreRuns.Step, SetContainers, Insert, Pruned, Send;
  }

  ghost predicate FellAt(cfg: Config, bootId: string, actions: seq<Action>, n: nat, key: BatchKey) {
    n < |actions| && actions[n].Save? && Fell(cfg, Run(cfg, bootId, actions[..n]), actions[n].saving, key)
  }

  lemma FellEarlier(cfg: Config, bootId: string, actions: seq<Action>, n: nat, key: BatchKey)
    requires actions != [] && FellAt(cfg, bootId, actions[..|actions| - 1], n, key)
    ensures FellAt(cfg, bootId, actions, n, key)
  {
    hide Fell, Run;
    assert actions[..|actions| - 1][..n] == actions[..n];
  }

  /** Over every run: a batch entered as pruned was over the age limit, or fell
      to the size budget, at one of the run's writes. */
  lemma {:induction false} PrunedWereDue(cfg: Config, bootId: string, actions: seq<Action>, key: BatchKey)
    requires PossibleRun(cfg, bootId, actions) && key in Run(cfg, bootId, actions).s.ledger.pruned
    ensures exists n: nat :: FellAt(cfg, bootId, actions, n, key)
  {
    hide Act, Fell, Possible;
    var n := |actions| - 1;
    PossiblePrefix(cfg, bootId, actions);
    var w := Run(cfg, bootId, actions[..n]);
    if key in w.s.ledger.pruned {
      PrunedWereDue(cfg, bootId, actions[..n], key);
      var m: nat :| FellAt(cfg, bootId, actions[..n], m, key);
      FellEarlier(cfg, bootId, actions, m, key);
    } else {
      PrunedNow(cfg, w, actions[n], key);
      assert FellAt(cfg, bootId, actions, n, key);
    }
  }

  lemma PrunedNow(cfg: Config, w: World, a: Action, key: BatchKey)
    requires Keyed(w.s.hub.logs) && Possible(cfg, w, a)
    requires key in Act(cfg, w, a).s.ledger.pruned && key !in w.s.ledger.pruned
    ensures a.Save? && Fell(cfg, w, a.saving, key)
  {
    hide Keyed, Fell, AfterSave;
    if a.Save? {
      SavePrunes(cfg, w, a.saving, key);
    } else {
      OnlySavesPrune(cfg, w, a);
    }
  }
}
