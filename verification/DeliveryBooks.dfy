/** The books of a delivery run: entries, batch sizes and sequences. */
module DeliveryBooks {
  import opened Rows
  import opened Store
  import opened IngestRules
  import opened Delivery
  import opened DeliverySteps

  datatype Books = Books(bootId: string, queue: Queue, boots: set<string>, collected: seq<Entry>,
                         segments: seq<Segment>)

  function BooksOf(s: State): Books {
    Books(s.bootId, s.queue, s.ledger.boots, s.ledger.collected, s.ledger.segments)
  }

  function Content(segment: Segment): seq<Entry> {
    match segment
    case Flushed(batch) => batch.entries
    case Dropped(entries) => entries
  }

  function Contents(segments: seq<Segment>): seq<Entry> {
    if segments == [] then [] else Contents(segments[..|segments| - 1]) + Content(segments[|segments| - 1])
  }

  ghost predicate SequencesGrow(b: Books) {
    && (forall i, j :: 0 <= i < j < |b.segments| && b.segments[i].Flushed? && b.segments[j].Flushed?
                       && b.segments[i].batch.key.bootId == b.segments[j].batch.key.bootId
                       ==> b.segments[i].batch.key.sequence < b.segments[j].batch.key.sequence)
    && (forall i :: 0 <= i < |b.segments| && b.segments[i].Flushed? ==>
                      b.segments[i].batch.key.bootId in b.boots &&
                      (b.segments[i].batch.key.bootId == b.bootId ==>
                         b.segments[i].batch.key.sequence <= b.queue.sequence))
  }

  /** After every action: sequences of a boot grow, and the collected entries
      are, in order, those of the segments, the queue, and the one refused. */
  ghost predicate Tidy(b: Books, p: Phase) {
    && b.bootId in b.boots && SequencesGrow(b)
    && b.collected == Contents(b.segments) + b.queue.entries + Waiting(p)
  }

  lemma ContentsAppend(segments: seq<Segment>, segment: Segment)
    ensures Contents(segments + [segment]) == Contents(segments) + Content(segment)
  {
    assert (segments + [segment])[..|segments|] == segments;
  }

  lemma FlushedKeeps(b: Books, batch: EntryBatch, q: Queue)
    requires SequencesGrow(b) && b.bootId in b.boots
    requires batch.key.bootId == b.bootId && batch.key.sequence == b.queue.sequence + 1
    requires q.sequence == b.queue.sequence + 1
    ensures SequencesGrow(b.(segments := b.segments + [Flushed(batch)], queue := q))
  {}

  /** The queue becomes a batch. */
  lemma FlushedTidy(b: Books, p: Phase, batch: EntryBatch, q: Queue, after: Phase)
    requires Tidy(b, p) && batch.entries == b.queue.entries
    requires batch.key.bootId == b.bootId && batch.key.sequence == b.queue.sequence + 1
    requires q.entries == [] && q.sequence == b.queue.sequence + 1 && Waiting(after) == Waiting(p)
    ensures Tidy(b.(segments := b.segments + [Flushed(batch)], queue := q), after)
  {
    hide SequencesGrow, Contents;
    ContentsAppend(b.segments, Flushed(batch));
    FlushedKeeps(b, batch, q);
    assert b.collected == Contents(b.segments) + batch.entries + [] + Waiting(after);
  }

  lemma TakeTidy(cfg: Config, w: World, order: seq<ContainerInfo>)
    requires Tidy(BooksOf(w.s), w.phase) && (w.phase.Due? || w.phase.Refused?)
    ensures Tidy(BooksOf(AfterTake(cfg, w, order).s), AfterTake(cfg, w, order).phase)
  {
    var (t, batch) := Flush(cfg, w.s, order);
    if batch.Some? {
      FlushedTidy(BooksOf(w.s), w.phase, batch.value, t.queue, AfterTake(cfg, w, order).phase);
    }
  }

  lemma DroppedKeeps(b: Books, entries: seq<Entry>, q: Queue)
    requires SequencesGrow(b) && q.sequence == b.queue.sequence
    ensures SequencesGrow(b.(segments := b.segments + [Dropped(entries)], queue := q))
  {}

  /** Dropping the queue and the waiting entry. */
  lemma DropTidy(s: State, p: Phase)
    requires Tidy(BooksOf(s), p)
    ensures Tidy(BooksOf(DropQueue(s, Waiting(p))), Ended)
  {
    var t, gone := DropQueue(s, Waiting(p)), s.queue.entries + Waiting(p);
    ContentsAppend(s.ledger.segments, Dropped(gone));
    DroppedKeeps(BooksOf(s), gone, t.queue);
    assert s.ledger.collected == Contents(s.ledger.segments) + gone + [] + [];
  }

  /** Adding the entry that waits. */
  lemma AddTidy(cfg: Config, w: World, e: Entry, bytes: nat, refused: Phase)
    requires w.s.bootId in w.s.ledger.boots && SequencesGrow(BooksOf(w.s)) && Waiting(refused) == [e]
    requires w.s.ledger.collected == Contents(w.s.ledger.segments) + w.s.queue.entries + [e]
    ensures Tidy(BooksOf(TryAdd(cfg, w, e, bytes, refused).s), TryAdd(cfg, w, e, bytes, refused).phase)
  {
    var next := TryAdd(cfg, w, e, bytes, refused);
    assert next.phase != refused ==>
        w.s.ledger.collected == Contents(w.s.ledger.segments) + next.s.queue.entries + [];
  }

  lemma ArriveTidy(cfg: Config, w: World, e: Entry, bytes: nat)
    requires Tidy(BooksOf(w.s), w.phase) && w.phase.Idle?
    ensures Tidy(BooksOf(AfterArrive(cfg, w, e, bytes).s), AfterArrive(cfg, w, e, bytes).phase)
  {
    var named := Named(cfg, w, e);
    var taken := Count(w, named);
    assert BooksOf(taken.s) == BooksOf(w.s).(collected := w.s.ledger.collected + [named]);
    assert w.s.ledger.collected + [named] == Contents(w.s.ledger.segments) + w.s.queue.entries + [named];
    AddTidy(cfg, taken, named, bytes, Refused(named, bytes));
  }

  lemma SendBooks(cfg: Config, s: State, batch: EntryBatch, shot: Shot)
    ensures BooksOf(Send(cfg, s, batch, shot).0) == BooksOf(s)
  {}

  lemma WriteBooks(cfg: Config, s: State, batch: EntryBatch, saving: Saving)
    ensures BooksOf(WriteSpool(cfg, s, batch, saving).0) == BooksOf(s)
  {}

  lemma SaveTidy(cfg: Config, w: World, saving: Saving)
    requires Tidy(BooksOf(w.s), w.phase) && (w.phase.Spooling? || w.phase.Storing?)
    ensures Tidy(BooksOf(AfterSave(cfg, w, saving).s), AfterSave(cfg, w, saving).phase)
  {
    hide WriteSpool, SequencesGrow, Contents;
      var (saved, ok) := WriteSpool(cfg, w.s, w.phase.batch, saving);
    WriteBooks(cfg, w.s, w.phase.batch, saving);
    DropTidy(saved, w.phase);
  }

  lemma RebootTidy(w: World, bootId: string)
    requires Tidy(BooksOf(w.s), w.phase) && bootId !in w.s.ledger.boots
    ensures Tidy(BooksOf(AfterReboot(w, bootId).s), Ended)
  {
    DropTidy(w.s, w.phase);
  }

  /** Sending, removing, discovery and the Hub's own work leave the books alone. */
  lemma PhaseTidy(b: Books, p: Phase, q: Queue, after: Phase)
    requires Tidy(b, p) && q.entries == b.queue.entries && q.sequence == b.queue.sequence &&
             Waiting(after) == Waiting(p)
    ensures Tidy(b.(queue := q), after)
  {}

  lemma {:induction false} ActTidy(cfg: Config, w: World, a: Action)
    requires Keyed(w.s.hub.logs) && Tidy(BooksOf(w.s), w.phase) && Possible(cfg, w, a)
    ensures Tidy(BooksOf(Act(cfg, w, a).s), Act(cfg, w, a).phase)
  {
    hide Send, SequencesGrow, Contents, WriteSpool, AfterTake, AfterSave, TryAdd, SetContainers, Keyed,
      StoreRuns.Step;
    var next := Act(cfg, w, a);
    match a
    case Arrive(e, bytes) => ArriveTidy(cfg, w, e, bytes);
    case Tick => PhaseTidy(BooksOf(w.s), w.phase, next.s.queue, next.phase);
    case Take(order) => TakeTidy(cfg, w, order);
    case ReadFails => PhaseTidy(BooksOf(w.s), w.phase, next.s.queue, next.phase);
    case SendHead(shot) =>
      SendBooks(cfg, w.s, w.s.spool[0].batch, shot);
      PhaseTidy(BooksOf(w.s), w.phase, next.s.queue, next.phase);
    case RemoveHead(_) => PhaseTidy(BooksOf(w.s), w.phase, next.s.queue, next.phase);
    case ReplayDone => PhaseTidy(BooksOf(w.s), w.phase, next.s.queue, next.phase);
    case SendNew(shot) =>
      SendBooks(cfg, w.s, w.phase.batch, shot);
      PhaseTidy(BooksOf(w.s), w.phase, next.s.queue, next.phase);
    case Save(saving) => SaveTidy(cfg, w, saving);
    case AddAgain =>
      AddTidy(cfg, w, w.phase.e, w.phase.bytes, w.phase);
      DropTidy(w.s, w.phase);
    case Discover(_) => PhaseTidy(BooksOf(w.s), w.phase, next.s.queue, next.phase);
    case Return => DropTidy(w.s, w.phase);
    case Restart(_) => PhaseTidy(BooksOf(w.s), w.phase, next.s.queue, next.phase);
    case Reboot(bootId) => RebootTidy(w, bootId);
    case Elsewhere(_) => PhaseTidy(BooksOf(w.s), w.phase, next.s.queue, next.phase);
  }

  lemma {:induction false} RunTidy(cfg: Config, bootId: string, actions: seq<Action>)
    requires PossibleRun(cfg, bootId, actions)
    ensures var w := Run(cfg, bootId, actions); Tidy(BooksOf(w.s), w.phase)
  {
    hide Act, Possible, PossibleRun;
    if actions == [] {
    } else {
      var n := |actions| - 1;
      PossiblePrefix(cfg, bootId, actions);
      RunTidy(cfg, bootId, actions[..n]);
      ActTidy(cfg, Run(cfg, bootId, actions[..n]), actions[n]);
    }
  }

  ghost predicate FreshKeys(segments: seq<Segment>) {
    forall i, j :: 0 <= i < j < |segments| && segments[i].Flushed? && segments[j].Flushed? ==>
                     segments[i].batch.key != segments[j].batch.key
  }

  /** No batch identity is used twice, across restarts of the collection and of
      the agent. */
  lemma {:induction false} IdentitiesAreFresh(cfg: Config, bootId: string, actions: seq<Action>)
    requires PossibleRun(cfg, bootId, actions)
    ensures FreshKeys(Run(cfg, bootId, actions).s.ledger.segments)
  {
    RunTidy(cfg, bootId, actions);
  }

  /** Every collected entry is in exactly one flushed batch, in a recorded drop,
      queued, or the one that was just refused; and the order of collection is
      kept. */
  lemma {:induction false} EntriesAreConserved(cfg: Config, bootId: string, actions: seq<Action>)
    requires PossibleRun(cfg, bootId, actions)
    ensures var w := Run(cfg, bootId, actions);
            w.s.ledger.collected == Contents(w.s.ledger.segments) + w.s.queue.entries + Waiting(w.phase) &&
            |Waiting(w.phase)| <= 1
  {
    RunTidy(cfg, bootId, actions);
  }

  // ---- limits ---------------------------------------------------------------------------

  ghost predicate Configured(cfg: Config) {
    1 <= cfg.maxEntries <= MAX_BATCH_ENTRIES && cfg.capacity >= 1
  }

  ghost predicate Limited(cfg: Config, segments: seq<Segment>) {
    forall i :: 0 <= i < |segments| && segments[i].Flushed? ==> |segments[i].batch.entries| <= cfg.maxEntries
  }

  /** Only a waiting agent queues: fewer entries than a batch, or as many when a
      flush is due. */
  predicate QueueFits(cfg: Config, p: Phase, q: Queue) {
    match p
    case Idle => |q.entries| < cfg.maxEntries
    case Refused(_, _) => |q.entries| < cfg.maxEntries
    case Due => |q.entries| <= cfg.maxEntries
    case _ => q.entries == []
  }

  ghost predicate Fits(cfg: Config, w: World) {
    Limited(cfg, w.s.ledger.segments) && QueueFits(cfg, w.phase, w.s.queue)
  }

  lemma AddFits(cfg: Config, w: World, e: Entry, bytes: nat, refused: Phase)
    requires Configured(cfg) && Limited(cfg, w.s.ledger.segments) && |w.s.queue.entries| < cfg.maxEntries
    requires QueueFits(cfg, refused, w.s.queue)
    ensures Fits(cfg, TryAdd(cfg, w, e, bytes, refused))
  {}

  lemma TakeFits(cfg: Config, w: World, order: seq<ContainerInfo>)
    requires Configured(cfg) && Fits(cfg, w) && (w.phase.Due? || w.phase.Refused?)
    ensures Fits(cfg, AfterTake(cfg, w, order))
  {}

  lemma GiveUpFits(cfg: Config, w: World)
    requires Limited(cfg, w.s.ledger.segments)
    ensures Fits(cfg, GiveUp(w))
  {}

  lemma RebootFits(cfg: Config, w: World, bootId: string)
    requires Limited(cfg, w.s.ledger.segments)
    ensures Fits(cfg, AfterReboot(w, bootId))
  {}

  lemma SaveFits(cfg: Config, w: World, saving: Saving)
    requires Fits(cfg, w) && (w.phase.Spooling? || w.phase.Storing?) && Configured(cfg)
    ensures Fits(cfg, AfterSave(cfg, w, saving))
  {
    hide WriteSpool;
    WriteBooks(cfg, w.s, w.phase.batch, saving);
  }

  lemma {:induction false} ActFits(cfg: Config, w: World, a: Action)
    requires Configured(cfg) && Keyed(w.s.hub.logs) && Fits(cfg, w)
    ensures Fits(cfg, Act(cfg, w, a))
  {
    hide Send, Limited, AfterTake, AfterSave, AfterReboot, TryAdd, GiveUp, SetContainers, StoreRuns.Step, Keyed;
    match a
    case Arrive(e, bytes) =>
      if w.phase.Idle? {
        var named := Named(cfg, w, e);
        AddFits(cfg, Count(w, named), named, bytes, Refused(named, bytes));
      }
    case Take(order) => if w.phase.Due? || w.phase.Refused? { TakeFits(cfg, w, order); }
    case Save(saving) => if w.phase.Spooling? || w.phase.Storing? { SaveFits(cfg, w, saving); }
    case AddAgain =>
      if w.phase.Retrying? {
        AddFits(cfg, w, w.phase.e, w.phase.bytes, w.phase);
        GiveUpFits(cfg, w);
      }
    case Return => GiveUpFits(cfg, w);
    case Reboot(bootId) => RebootFits(cfg, w, bootId);
    case _ =>
  }

  lemma {:induction false} RunFits(cfg: Config, bootId: string, actions: seq<Action>)
    requires Configured(cfg)
    ensures Fits(cfg, Run(cfg, bootId, actions))
  {
    hide Act, Configured;
    if actions == [] {
    } else {
      var n := |actions| - 1;
      RunFits(cfg, bootId, actions[..n]);
      ActFits(cfg, Run(cfg, bootId, actions[..n]), actions[n]);
    }
  }

  /** Every batch ever flushed respects the Hub's entry limit. */
  lemma {:induction false} BatchesRespectTheLimit(cfg: Config, bootId: string, actions: seq<Action>)
    requires Configured(cfg)
    ensures var segments := Run(cfg, bootId, actions).s.ledger.segments;
            forall i :: 0 <= i < |segments| && segments[i].Flushed? ==>
                          |segments[i].batch.entries| <= cfg.maxEntries <= MAX_BATCH_ENTRIES
  {
    RunFits(cfg, bootId, actions);
  }

  /** Once its batch is in the spool, a refused entry always finds room: the
      second attempt never ends the collection. */
  lemma {:induction false} SecondAttemptSucceeds(cfg: Config, bootId: string, actions: seq<Action>)
    requires Configured(cfg) && Run(cfg, bootId, actions).phase.Retrying?
    ensures var w := Run(cfg, bootId, actions);
            var next := Act(cfg, w, AddAgain);
            (next.phase.Idle? || next.phase.Due?) && next.s.queue.entries == [w.phase.e]
  {
    RunFits(cfg, bootId, actions);
  }
}
