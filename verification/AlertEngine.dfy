/** The alert engine: many rules, their states, and the store file that holds them. */
module AlertEngine {
  import opened Options
  import opened Alerts
  import opened AlertLife

  datatype EditResult = Saved | NotFound | Invalid | NotPersisted

  datatype RulePatch = RulePatch(threshold: Option<int>, windowSeconds: Option<int>, cooldownSeconds: Option<int>,
                                 enabled: Option<bool>)

  function Patched(r: Rule, patch: RulePatch): Rule {
    Rule(if patch.threshold.Some? then patch.threshold.value else r.threshold,
         if patch.windowSeconds.Some? then patch.windowSeconds.value else r.windowSeconds,
         if patch.cooldownSeconds.Some? then patch.cooldownSeconds.value else r.cooldownSeconds,
         if patch.enabled.Some? then patch.enabled.value else r.enabled)
  }

  /** The notifications of one rule, in order. */
  function Sent(notes: seq<(string, Notification)>, id: string): seq<Notification> {
    if notes == [] then []
    else
      var last := notes[|notes| - 1];
      Sent(notes[..|notes| - 1], id) + if last.0 == id then [last.1] else []
  }

  lemma SentMore(notes: seq<(string, Notification)>, who: string, n: Option<Notification>, id: string)
    ensures var more := if n.Some? then notes + [(who, n.value)] else notes;
            Sent(more, id) == Sent(notes, id) + if who == id then Emitted(n) else []
  {
    if n.Some? {
      assert (notes + [(who, n.value)])[..|notes|] == notes;
    }
  }

  /** The body of processEntry's loop for a rule that is enabled and matches. */
  method RecordMatch(rule: Rule, before: RuleState, now: int, container: string)
    returns (state: RuleState, note: Option<Notification>)
    ensures (state, note) == OnMatch(rule, before, now, container)
  {
    state, note := before, None;
    var kept := TrimMatches(state.matches, now - Window(rule));
    state := state.(matches := kept + [now], updatedAt := now);
    if |state.matches| >= rule.threshold {
      if state.status == FIRING && |state.matches| > state.peak {
        state := state.(peak := |state.matches|);
      }
      if state.status != FIRING {
        state := state.(status := FIRING, sent := false, firingSince := Some(now),
        peak := |state.matches|, container := container);
        if state.lastFiredAt.None? || now - state.lastFiredAt.value >= Cooldown(rule) {
          state := state.(lastFiredAt := Some(now), sent := true);
          note := Some(Notification(Firing, |state.matches|, state.peak, now, state.firingSince, state.container));
        }
      }
    }
  }

  /** The body of resolve's loop. */
  method RecordTick(rule: Rule, before: RuleState, now: int)
    returns (state: RuleState, note: Option<Notification>, changed: bool)
    ensures (state, note) == OnTick(rule, before, now)
    ensures changed <==> |state.matches| != |before.matches| || state.status != before.status
  {
    state, note := before, None;
    var kept := TrimMatches(state.matches, now - Window(rule));
    state := state.(matches := kept);
    changed := |state.matches| != |before.matches|;
    if state.status == FIRING && |state.matches| < rule.threshold {
      var resolved := Notification(Resolved, |state.matches|, state.peak, now, state.firingSince, state.container);
      state := state.(status := OK, updatedAt := now);
      changed := true;
      if state.sent {
        note := Some(resolved);
      }
      state := state.(firingSince := None, peak := 0, container := "", sent := false);
    }
  }

  /** The body of List's loop. */
  method RecordList(rule: Rule, before: RuleState, now: int) returns (state: RuleState)
    ensures state == OnList(rule, before, now)
  {
    var kept := TrimMatches(before.matches, now - Window(rule));
    state := before.(matches := kept);
  }

  /** The body of the loop over the stored rules. */
  method RecordLoad(rule: Rule, stored: RuleState, now: int) returns (state: RuleState)
    ensures state == OnLoad(rule, stored, now)
  {
    var kept := TrimMatches(stored.matches, now - Window(rule));
    state := stored.(matches := kept);
    if state.status == FIRING && |state.matches| < rule.threshold {
      state := state.(status := OK, firingSince := None, peak := 0, container := "", sent := false);
    }
  }

  // ---- the engine's operations on values ---------------------------------------------------

  /** `stored` holds the states in the store file, `traces` the notifications
      that arrived for a rule, `lost` the number of its firing ones that did not,
      `clock` the time of the last operation. */
  datatype Book = Book(rules: map<string, Rule>, states: map<string, RuleState>, stored: map<string, RuleState>,
                       traces: map<string, seq<Notification>>, lost: map<string, nat>, clock: int)

  /** `matching` holds the ids of the rules whose query and severity accept the
      entry; `saves` tells whether the store file can be written; `silent` holds
      the rules whose notification does not arrive. */
  datatype Op =
    | Entry(matching: set<string>, container: string, now: int, saves: bool, silent: set<string>)
    | Resolving(now: int, saves: bool, silent: set<string>)
    | Listing(now: int)
    | Creating(id: string, rule: Rule, now: int, saves: bool)
    | Updating(id: string, rule: Rule, now: int, saves: bool)
    | Deleting(id: string, now: int, saves: bool)
    | Loading(now: int)

  predicate Keyed(b: Book) {
    b.rules.Keys == b.states.Keys == b.stored.Keys == b.traces.Keys == b.lost.Keys
  }

  function Hits(b: Book, matching: set<string>): set<string> {
    set id | id in b.rules && b.rules[id].enabled && id in matching
  }

  function AfterMatch(b: Book, hits: set<string>, container: string, now: int): (r: map<string, RuleState>)
    requires Keyed(b)
    ensures r.Keys == b.rules.Keys == b.states.Keys
  {
    map id | id in b.rules :: if id in hits then OnMatch(b.rules[id], b.states[id], now, container).0 else b.states[id]
  }

  function MatchNotes(b: Book, hits: set<string>, container: string, now: int): (r: map<string, Option<Notification>>)
    requires Keyed(b)
    ensures r.Keys == b.rules.Keys == b.states.Keys
  {
    map id | id in b.rules :: if id in hits then OnMatch(b.rules[id], b.states[id], now, container).1 else None
  }

  function AfterTick(b: Book, now: int): (r: map<string, RuleState>)
    requires Keyed(b)
    ensures r.Keys == b.rules.Keys == b.states.Keys
  {
    map id | id in b.rules :: OnTick(b.rules[id], b.states[id], now).0
  }

  function TickNotes(b: Book, now: int): (r: map<string, Option<Notification>>)
    requires Keyed(b)
    ensures r.Keys == b.rules.Keys == b.states.Keys
  {
    map id | id in b.rules :: OnTick(b.rules[id], b.states[id], now).1
  }

  /** resolve saves when a rule lost a match or was resolved. */
  predicate Moved(before: RuleState, after: RuleState) {
    |after.matches| != |before.matches| || after.status != before.status
  }

  predicate AnyMoved(b: Book, now: int)
    requires Keyed(b)
  {
    exists id :: id in b.rules && Moved(b.states[id], OnTick(b.rules[id], b.states[id], now).0)
  }

  /** The notification that an operation owes to each rule. */
  function Due(b: Book, op: Op): (r: map<string, Option<Notification>>)
    requires Keyed(b)
    ensures r.Keys == b.rules.Keys == b.traces.Keys == b.lost.Keys
  {
    match op
    case Entry(matching, container, now, _, _) =>
      MatchNotes(b, Hits(b, matching), container, now)
    case Resolving(now, _, _) => TickNotes(b, now)
    case _ => map id | id in b.rules :: None
  }

  function Logged(traces: map<string, seq<Notification>>, due: map<string, Option<Notification>>, silent: set<string>):
    map<string, seq<Notification>>
    requires traces.Keys == due.Keys
  {
    map id | id in traces :: traces[id] + Arriving(due[id], id !in silent)
  }

  function Missed(lost: map<string, nat>, due: map<string, Option<Notification>>, silent: set<string>): map<string, nat>
    requires lost.Keys == due.Keys
  {
    map id | id in lost :: lost[id] + Missing(due[id], id !in silent)
  }

  /** Whether an operation writes the store file. */
  predicate Writes(b: Book, op: Op)
    requires Keyed(b)
  {
    match op
    case Entry(matching, _, _, saves, _) => saves && Hits(b, matching) != {}
    case Resolving(now, saves, _) => saves && AnyMoved(b, now)
    case Listing(_) => false
    case Creating(id, rule, _, saves) => saves && WithinBounds(rule)
    case Updating(id, rule, _, saves) => saves && WithinBounds(rule) && id in b.rules
    case Deleting(id, _, saves) => saves && id in b.rules
    case Loading(_) => false
  }

  lemma EntryWrites(b: Book, op: Op)
    requires Keyed(b) && op.Entry?
    ensures Writes(b, op) <==> op.saves && Hits(b, op.matching) != {}
  {}

  function AfterEntry(b: Book, op: Op): (a: Book)
    requires Keyed(b) && op.Entry?
    ensures Keyed(a)
  {
    var states := AfterMatch(b, Hits(b, op.matching), op.container, op.now);
    Book(b.rules, states, if Writes(b, op) then states else b.stored,
         Logged(b.traces, Due(b, op), op.silent), Missed(b.lost, Due(b, op), op.silent), op.now)
  }

  function AfterResolving(b: Book, op: Op): (a: Book)
    requires Keyed(b) && op.Resolving?
    ensures Keyed(a)
  {
    var states := AfterTick(b, op.now);
    Book(b.rules, states, if Writes(b, op) then states else b.stored,
         Logged(b.traces, Due(b, op), op.silent), Missed(b.lost, Due(b, op), op.silent), op.now)
  }

  function Trimmed(b: Book, now: int): (r: map<string, RuleState>)
    requires Keyed(b)
    ensures r.Keys == b.rules.Keys == b.states.Keys
  {
    map id | id in b.rules :: OnList(b.rules[id], b.states[id], now)
  }

  function Reloaded(b: Book, now: int): (r: map<string, RuleState>)
    requires Keyed(b)
    ensures r.Keys == b.rules.Keys == b.stored.Keys
  {
    map id | id in b.rules :: OnLoad(b.rules[id], b.stored[id], now)
  }

  function AfterListing(b: Book, now: int): (a: Book)
    requires Keyed(b)
    ensures Keyed(a)
  {
    b.(states := Trimmed(b, now), clock := now)
  }

  function AfterCreating(b: Book, op: Op): (a: Book)
    requires Keyed(b) && op.Creating?
    ensures Keyed(a)
  {
    if Writes(b, op) then
      var states := b.states[op.id := FreshState(op.now)];
      Book(b.rules[op.id := op.rule], states, states, b.traces[op.id := []], b.lost[op.id := 0], op.now)
    else b.(clock := op.now)
  }

  function AfterUpdating(b: Book, op: Op): (a: Book)
    requires Keyed(b) && op.Updating?
    ensures Keyed(a)
  {
    if Writes(b, op) then
      var states := b.states[op.id := FreshState(op.now)];
      Book(b.rules[op.id := op.rule], states, states, b.traces, b.lost, op.now)
    else b.(clock := op.now)
  }

  function AfterDeleting(b: Book, op: Op): (a: Book)
    requires Keyed(b) && op.Deleting?
    ensures Keyed(a)
  {
    if Writes(b, op) then
      Book(b.rules - {op.id}, b.states - {op.id}, b.states - {op.id}, b.traces - {op.id}, b.lost - {op.id}, op.now)
    else b.(clock := op.now)
  }

  function AfterLoading(b: Book, now: int): (a: Book)
    requires Keyed(b)
    ensures Keyed(a)
  {
    b.(states := Reloaded(b, now), clock := now)
  }

  function After(b: Book, op: Op): (a: Book)
    requires Keyed(b)
    ensures Keyed(a)
  {
    match op
    case Entry(_, _, _, _, _) => AfterEntry(b, op)
    case Resolving(_, _, _) => AfterResolving(b, op)
    case Listing(now) => AfterListing(b, now)
    case Creating(_, _, _, _) => AfterCreating(b, op)
    case Updating(_, _, _, _) => AfterUpdating(b, op)
    case Deleting(_, _, _) => AfterDeleting(b, op)
    case Loading(now) => AfterLoading(b, now)
  }

  // ---- each operation is one step of each rule's life -----------------------------------------

  function LifeOf(b: Book, id: string): Life
    requires Keyed(b) && id in b.rules
  {
    Life(b.rules[id], b.states[id], b.stored[id], b.clock, b.traces[id], b.lost[id])
  }

  function StepOf(b: Book, op: Op, id: string): Step
    requires Keyed(b)
  {
    match op
    case Entry(matching, container, now, _, silent) =>
      if id in Hits(b, matching) then Happens(Matched(now, container), Writes(b, op), id !in silent)
      else Other(now, Writes(b, op))
    case Resolving(now, _, silent) => Happens(Tick(now), Writes(b, op), id !in silent)
    case Listing(now) => Happens(Listed(now), false, true)
    case Updating(target, rule, now, _) =>
      if target == id && Writes(b, op) then Edit(rule, now, true) else Other(now, Writes(b, op))
    case Loading(now) => Reload(now)
    case _ => Other(op.now, Writes(b, op))
  }

  /** A new rule has an id that no rule has. */
  predicate Possible(b: Book, op: Op) {
    b.clock <= op.now && (op.Creating? ==> op.id !in b.rules)
  }

  lemma MatchingIsStep(b: Book, op: Op, id: string)
    requires Keyed(b) && op.Entry? && id in b.rules
    ensures LifeOf(After(b, op), id) == Next(LifeOf(b, id), StepOf(b, op, id))
  {
    assert b.traces[id] + [] == b.traces[id];
  }

  lemma ResolvingIsStep(b: Book, op: Op, id: string)
    requires Keyed(b) && op.Resolving? && id in b.rules
    ensures LifeOf(After(b, op), id) == Next(LifeOf(b, id), StepOf(b, op, id))
  {}

  lemma TrimmingIsStep(b: Book, op: Op, id: string)
    requires Keyed(b) && (op.Listing? || op.Loading?) && id in b.rules
    ensures LifeOf(After(b, op), id) == Next(LifeOf(b, id), StepOf(b, op, id))
  {
    hide OnLoad, OnList, Due, Writes;
    assert b.traces[id] + [] == b.traces[id];
  }

  lemma EditingIsStep(b: Book, op: Op, id: string)
    requires Keyed(b) && (op.Creating? || op.Updating? || op.Deleting?) && Possible(b, op)
    requires id in b.rules && id in After(b, op).rules
    ensures LifeOf(After(b, op), id) == Next(LifeOf(b, id), StepOf(b, op, id))
  {
    hide WithinBounds, OnTick, OnMatch, OnList, OnLoad, FreshState;
  }

  /** Rules do not disturb each other: whatever the engine does is, for each
      rule that stays, one step of that rule's own life. */
  lemma OpIsStep(b: Book, op: Op, id: string)
    requires Keyed(b) && Possible(b, op) && id in b.rules && id in After(b, op).rules
    ensures LifeOf(After(b, op), id) == Next(LifeOf(b, id), StepOf(b, op, id))
    ensures TimeOf(StepOf(b, op, id)) == op.now
  {
    hide Keyed, After, Next, LifeOf, Writes, Hits;
    match op
    case Entry(_, _, _, _, _) => MatchingIsStep(b, op, id);
    case Resolving(_, _, _) => ResolvingIsStep(b, op, id);
    case Listing(_) => TrimmingIsStep(b, op, id);
    case Loading(_) => TrimmingIsStep(b, op, id);
    case _ => EditingIsStep(b, op, id);
  }

  /** Every rule is within its bounds, and no prefix of its notifications has
      more resolutions than firings, lost ones counted in. */
  ghost predicate Healthy(b: Book) {
    Keyed(b) && forall id :: id in b.rules ==> WithinBounds(b.rules[id]) && Sound(LifeOf(b, id))
  }

  lemma BornSound(rule: Rule, now: int)
    ensures Sound(Born(rule, now))
  {}

  lemma {:induction false} OpKeepsBounds(b: Book, op: Op, id: string)
    requires Keyed(b) && Possible(b, op) && id in After(b, op).rules
    requires id in b.rules ==> WithinBounds(b.rules[id])
    ensures WithinBounds(After(b, op).rules[id])
    ensures id !in b.rules ==> op.Creating? && LifeOf(After(b, op), id) == Born(op.rule, op.now)
  {}

  lemma {:induction false} OpKeepsHealth(b: Book, op: Op)
    requires Healthy(b) && Possible(b, op)
    ensures Healthy(After(b, op))
  {
    hide After, Next, StepOf, WithinBounds, Sound, Born;
    var a := After(b, op);
    forall id | id in a.rules ensures WithinBounds(a.rules[id]) && Sound(LifeOf(a, id)) {
      OpKeepsBounds(b, op, id);
      if id in b.rules {
        OpIsStep(b, op, id);
        StepSound(LifeOf(b, id), StepOf(b, op, id));
      } else {
        BornSound(op.rule, op.now);
      }
    }
  }

  function RunOps(ops: seq<Op>): (b: Book)
    ensures Keyed(b)
  {
    if ops == [] then Book(map[], map[], map[], map[], map[], 0)
    else After(RunOps(ops[..|ops| - 1]), ops[|ops| - 1])
  }

  /** Each operation is possible after the ones before it. */
  ghost predicate PossibleRun(ops: seq<Op>) {
    forall i :: 0 <= i < |ops| ==> Possible(RunOps(ops[..i]), ops[i])
  }

  lemma PossibleInit(ops: seq<Op>)
    requires ops != [] && PossibleRun(ops)
    ensures PossibleRun(ops[..|ops| - 1]) && Possible(RunOps(ops[..|ops| - 1]), ops[|ops| - 1])
  {
    hide RunOps, Possible;
    var n := |ops| - 1;
    forall i | 0 <= i < n ensures Possible(RunOps(ops[..n][..i]), ops[i]) {
      assert ops[..n][..i] == ops[..i];
    }
  }

  /** Over every run of the engine, with any rules created, edited, deleted and
      reloaded, any of the writes failing and any notification lost. */
  lemma {:induction false} EngineStaysHealthy(ops: seq<Op>)
    requires PossibleRun(ops)
    ensures Healthy(RunOps(ops))
  {
    hide After, Possible, PossibleRun, Sound, WithinBounds, LifeOf;
    if ops == [] {
    } else {
      var init := ops[..|ops| - 1];
      PossibleInit(ops);
      EngineStaysHealthy(init);
      OpKeepsHealth(RunOps(init), ops[|ops| - 1]);
    }
  }

  /** No prefix of a rule's notifications has more resolved ones than firing ones
      and lost firing ones together; with none lost, no more than firing ones. */
  lemma {:induction false} EngineResolvedAreCovered(ops: seq<Op>, id: string, k: nat)
    requires PossibleRun(ops)
    requires id in RunOps(ops).rules && k <= |RunOps(ops).traces[id]|
    ensures Balance(RunOps(ops).traces[id][..k]) + RunOps(ops).lost[id] >= 0
  {
    hide RunOps, PossibleRun;
    EngineStaysHealthy(ops);
    assert Sound(LifeOf(RunOps(ops), id));
  }

  /** How many announced incidents of the rule ended without a resolution since
      the rule was created. */
  function DroppedOf(ops: seq<Op>, id: string): nat {
    if ops == [] then 0
    else
      var init, last := ops[..|ops| - 1], ops[|ops| - 1];
      var b := RunOps(init);
      if id in b.rules then DroppedOf(init, id) + Silenced(LifeOf(b, id), StepOf(b, last, id)) else 0
  }

  lemma BornSurplus(rule: Rule, now: int)
    ensures Surplus(Born(rule, now)) == 0
  {}

  lemma OpSurplus(b: Book, op: Op, id: string)
    requires Healthy(b) && Possible(b, op) && id in After(b, op).rules
    ensures Surplus(LifeOf(After(b, op), id))
         == if id in b.rules then Surplus(LifeOf(b, id)) + Silenced(LifeOf(b, id), StepOf(b, op, id)) else 0
  {
    hide After, Surplus, Silenced, StepOf, Next, WithinBounds, Sound;
    if id in b.rules {
      OpIsStep(b, op, id);
      StepExact(LifeOf(b, id), StepOf(b, op, id));
    } else {
      OpKeepsBounds(b, op, id);
      BornSurplus(op.rule, op.now);
    }
  }

  lemma {:induction false} EngineBalanceIsExact(ops: seq<Op>, id: string)
    requires PossibleRun(ops)
    requires id in RunOps(ops).rules
    ensures Surplus(LifeOf(RunOps(ops), id)) == DroppedOf(ops, id)
  {
    hide After, Possible, PossibleRun, Healthy, Surplus, LifeOf, Silenced, StepOf;
    var init := ops[..|ops| - 1];
    PossibleInit(ops);
    EngineStaysHealthy(init);
    OpSurplus(RunOps(init), ops[|ops| - 1], id);
    if id in RunOps(init).rules {
      EngineBalanceIsExact(init, id);
    }
  }

  /** In every run of the engine a rule has sent more resolutions than firings
      exactly when its lost firings outnumber its dropped incidents and the one
      still owed. */
  lemma {:induction false} EngineOverdrawnExactly(ops: seq<Op>, id: string)
    requires PossibleRun(ops)
    requires id in RunOps(ops).rules
    ensures var b := RunOps(ops);
            Balance(b.traces[id]) < 0 <==> b.lost[id] > Owed(LifeOf(b, id)) + DroppedOf(ops, id)
  {
    EngineBalanceIsExact(ops, id);
  }

  // ---- reloaded rules ---------------------------------------------------------------------------

  /** A loaded state keeps the last firing and the matches of the window. It is
      firing exactly when it was and still has enough of them, with the incident it
      was stored with; otherwise no incident is left. */
  ghost predicate LoadedFrom(rule: Rule, saved: RuleState, state: RuleState, now: int) {
    && state.matches == TrimFrom(saved.matches, now - Alerts.Window(rule))
    && state.lastFiredAt == saved.lastFiredAt && state.updatedAt == saved.updatedAt
    && (state.status == FIRING <==> saved.status == FIRING && |state.matches| >= rule.threshold)
    && if saved.status == OK || state.status == FIRING then
         state.sent == saved.sent && state.peak == saved.peak && state.container == saved.container
         && state.firingSince == saved.firingSince
       else !state.sent && state.peak == 0 && state.container == "" && state.firingSince == None
  }

  lemma RuleReloaded(b: Book, now: int, id: string)
    requires Keyed(b) && id in b.rules
    ensures LoadedFrom(b.rules[id], b.stored[id], Reloaded(b, now)[id], now)
  {
    hide TrimFrom;
  }

  // ---- disabled rules ---------------------------------------------------------------------------

  /** An entry: a rule that is disabled or does not match stays as it is and is due
      nothing; the others take the match step. */
  lemma RuleOnEntry(b: Book, matching: set<string>, container: string, now: int, id: string)
    requires Keyed(b) && id in b.rules
    ensures var hits := Hits(b, matching);
            var (state, note) := OnMatch(b.rules[id], b.states[id], now, container);
            if b.rules[id].enabled && id in matching then
              AfterMatch(b, hits, container, now)[id] == state && MatchNotes(b, hits, container, now)[id] == note
            else
              AfterMatch(b, hits, container, now)[id] == b.states[id] && MatchNotes(b, hits, container, now)[id] == None
  {
    hide OnMatch;
  }

  /** The rule stays, only resolutions are added to its trace, and no firing of it
      is lost. */
  ghost predicate OnlyResolves(b: Book, a: Book, id: string)
    requires Keyed(b) && Keyed(a)
  {
    && id in b.rules && id in a.rules
    && b.traces[id] <= a.traces[id] && a.lost[id] == b.lost[id]
    && forall k :: |b.traces[id]| <= k < |a.traces[id]| ==> a.traces[id][k].kind == Resolved
  }

  lemma DisabledStep(b: Book, op: Op, id: string)
    requires Keyed(b) && Possible(b, op) && id in b.rules && !b.rules[id].enabled && id in After(b, op).rules
    ensures OnlyResolves(b, After(b, op), id)
  {
    hide After, Writes, FreshState, OnMatch, OnLoad, OnList, TrimFrom, WithinBounds;
    OpIsStep(b, op, id);
  }

  lemma OnlyResolvesNothing(b: Book, id: string)
    requires Keyed(b) && id in b.rules
    ensures OnlyResolves(b, b, id)
  {}

  lemma OnlyResolvesOn(first: Book, second: Book, third: Book, id: string)
    requires Keyed(first) && Keyed(second) && Keyed(third)
    requires OnlyResolves(first, second, id) && OnlyResolves(second, third, id)
    ensures OnlyResolves(first, third, id)
  {}

  /** After the first i operations and after each one since, the rule exists and is
      disabled. */
  ghost predicate DisabledSince(ops: seq<Op>, i: nat, id: string)
    requires i <= |ops|
  {
    && id in RunOps(ops).rules && !RunOps(ops).rules[id].enabled
    && (i < |ops| ==> DisabledSince(ops[..|ops| - 1], i, id))
  }

  /** Over every run: while a rule stays disabled no firing of it is sent, and
      none is lost. */
  lemma {:induction false} DisabledNeverFires(ops: seq<Op>, i: nat, id: string)
    requires PossibleRun(ops) && i <= |ops| && DisabledSince(ops, i, id)
    ensures OnlyResolves(RunOps(ops[..i]), RunOps(ops), id)
  {
    hide Possible, PossibleRun, After, OnlyResolves;
    if i == |ops| {
      assert ops[..i] == ops;
      OnlyResolvesNothing(RunOps(ops), id);
    } else {
      var init := ops[..|ops| - 1];
      PossibleInit(ops);
      assert init[..i] == ops[..i];
      DisabledNeverFires(init, i, id);
      DisabledStep(RunOps(init), ops[|ops| - 1], id);
      OnlyResolvesOn(RunOps(ops[..i]), RunOps(init), RunOps(ops), id);
    }
  }

  // ---- loops over the rules, in any order ------------------------------------------------

  /** The states while the ids in `todo` are still as before. */
  ghost function Mixed(before: map<string, RuleState>, after: map<string, RuleState>,
                       todo: set<string>): map<string, RuleState>
    requires before.Keys == after.Keys
  {
    map id | id in before :: if id in todo then before[id] else after[id]
  }

  lemma MixedStep(before: map<string, RuleState>, after: map<string, RuleState>, todo: set<string>, id: string)
    requires before.Keys == after.Keys && id in before
    ensures Mixed(before, after, todo - {id}) == Mixed(before, after, todo)[id := after[id]]
    ensures after[id] == before[id] ==> Mixed(before, after, todo - {id}) == Mixed(before, after, todo)
    ensures id in Mixed(before, after, todo) && (id in todo ==> Mixed(before, after, todo)[id] == before[id])
  {}

  lemma MixedSame(before: map<string, RuleState>, after: map<string, RuleState>)
    requires before.Keys == after.Keys
    ensures Mixed(before, after, before.Keys) == before && Mixed(before, after, {}) == after
  {}

  /** The notifications sent so far are those due to the rules done. */
  ghost predicate Told(due: map<string, Option<Notification>>, todo: set<string>, notes: seq<(string, Notification)>) {
    forall id :: id in due ==> Sent(notes, id) == if id in todo then [] else Emitted(due[id])
  }

  /** A rule lost a match, or changed between OK and FIRING. */
  ghost predicate SomeChanged(before: map<string, RuleState>, after: map<string, RuleState>) {
    exists id :: id in before && id in after && (|after[id].matches| != |before[id].matches|
                                                 || after[id].status != before[id].status)
  }

  lemma ToldNone(due: map<string, Option<Notification>>)
    ensures Told(due, due.Keys, [])
  {}

  /** What arrived: for each rule that is not silent, what is due to it. */
  ghost predicate Heard(due: map<string, Option<Notification>>, silent: set<string>,
                        arrived: seq<(string, Notification)>)
  {
    forall id :: id in due ==> Sent(arrived, id) == Arriving(due[id], id !in silent)
  }

  /** The states and notifications of one entry, rule by rule. */
  ghost predicate TookEntry(b: Book, matching: set<string>, container: string, now: int, silent: set<string>,
                            states: map<string, RuleState>, arrived: seq<(string, Notification)>)
    requires Keyed(b)
  {
    && states.Keys == b.rules.Keys
    && forall id :: id in b.rules ==>
                      var (state, note) := OnMatch(b.rules[id], b.states[id], now, container);
                      if b.rules[id].enabled && id in matching then
                        states[id] == state && Sent(arrived, id) == if id in silent then [] else Emitted(note)
                      else states[id] == b.states[id] && Sent(arrived, id) == []
  }

  lemma RulesTookEntry(b: Book, matching: set<string>, container: string, now: int, silent: set<string>,
                       arrived: seq<(string, Notification)>)
    requires Keyed(b) && Heard(MatchNotes(b, Hits(b, matching), container, now), silent, arrived)
    ensures TookEntry(b, matching, container, now, silent, AfterMatch(b, Hits(b, matching), container, now), arrived)
  {
    hide OnMatch, AfterMatch, MatchNotes, Hits, Sent;
    forall id | id in b.rules {
      RuleOnEntry(b, matching, container, now, id);
    }
  }

  lemma ToldIsHeard(due: map<string, Option<Notification>>, notes: seq<(string, Notification)>)
    requires Told(due, {}, notes)
    ensures Heard(due, {}, notes)
  {
    hide Sent;
  }

  lemma ToldStep(due: map<string, Option<Notification>>, todo: set<string>, notes: seq<(string, Notification)>,
                 id: string)
    requires id in due && id in todo && Told(due, todo, notes)
    ensures Told(due, todo - {id}, if due[id].Some? then notes + [(id, due[id].value)] else notes)
  {
    forall other | other in due { SentMore(notes, id, due[id], other); }
  }

  /** The notifications that arrive, in the order they are handed over. */
  function Audible(notes: seq<(string, Notification)>, silent: set<string>): seq<(string, Notification)> {
    if notes == [] then []
    else
      var last := notes[|notes| - 1];
      Audible(notes[..|notes| - 1], silent) + if last.0 in silent then [] else [last]
  }

  /** The loop of notify. */
  method HandOver(notes: seq<(string, Notification)>, silent: set<string>)
    returns (arrived: seq<(string, Notification)>)
    ensures arrived == Audible(notes, silent)
  {
    arrived := [];
    for i := 0 to |notes|
      invariant arrived == Audible(notes[..i], silent)
    {
      assert notes[..i + 1][..i] == notes[..i];
      if notes[i].0 !in silent {
        arrived := arrived + [notes[i]];
      }
    }
    assert notes[..|notes|] == notes;
  }

  /** Each rule hears all of its notifications, or it is silent. */
  lemma {:induction false} AudibleSent(notes: seq<(string, Notification)>, silent: set<string>, id: string)
    ensures Sent(Audible(notes, silent), id) == if id in silent then [] else Sent(notes, id)
  {
    if notes == [] {
    } else {
      var init, last := notes[..|notes| - 1], notes[|notes| - 1];
      var heard := Audible(init, silent);
      AudibleSent(init, silent, id);
      SentMore(init, last.0, Some(last.1), id);
      SentMore(heard, last.0, Some(last.1), id);
      assert notes == init + [last] && last == (last.0, last.1);
      if last.0 in silent {
        assert Audible(notes, silent) == heard;
        assert id !in silent ==> Sent(notes, id) == Sent(init, id);
      } else {
        assert Audible(notes, silent) == heard + [last];
      }
    }
  }

  // ---- undoing a change of one rule ---------------------------------------------------------

  lemma AddUndone<T>(m: map<string, T>, id: string, x: T)
    requires id !in m
    ensures m[id := x] - {id} == m
  {}

  lemma PutUndone<T>(m: map<string, T>, id: string, x: T)
    requires id in m
    ensures m[id := x][id := m[id]] == m
  {}

  lemma RemovalUndone<T>(m: map<string, T>, id: string)
    requires id in m
    ensures (m - {id})[id := m[id]] == m
  {}

  lemma Created(b: Book, op: Op, a: Book)
    requires Keyed(b) && op.Creating? && op.saves && WithinBounds(op.rule)
    requires a.rules == b.rules[op.id := op.rule] && a.states == a.stored == b.states[op.id := FreshState(op.now)]
    requires a.traces == b.traces[op.id := []] && a.lost == b.lost[op.id := 0] && a.clock == op.now
    ensures Keyed(a) && a == After(b, op)
  {
    hide FreshState, WithinBounds;
  }

  lemma NotCreated(b: Book, op: Op)
    requires Keyed(b) && op.Creating?
    ensures !op.saves || !WithinBounds(op.rule) ==> After(b, op) == b.(clock := op.now) && Keyed(After(b, op))
  {}

  lemma TakeOne<T>(m: map<string, T>, todo: set<string>, id: string)
    requires id in m && id in todo
    ensures m - (todo - {id}) == (m - todo)[id := m[id]]
  {}

  lemma SameIds(b: Book, id: string)
    requires Keyed(b)
    ensures id in b.rules <==> id in b.states
  {}

  // ---- the engine, changed in place -----------------------------------------------------------

  class Engine {
    var rules: map<string, Rule>
    var states: map<string, RuleState>
    var stored: map<string, RuleState>
    ghost var traces: map<string, seq<Notification>>
    ghost var lost: map<string, nat>
    ghost var clock: int

    constructor ()
      ensures Valid() && View() == RunOps([])
    {
      rules, states, stored, traces, lost, clock := map[], map[], map[], map[], map[], 0;
    }

    ghost function View(): Book
      reads this
    {
      Book(rules, states, stored, traces, lost, clock)
    }

    ghost predicate Valid()
      reads this
    {
      Keyed(View())
    }

    /** The loop of processEntry. */
    method MatchRules(matching: set<string>, container: string, now: int)
      returns (notes: seq<(string, Notification)>, changed: bool)
      requires Valid()
      modifies this`states
      ensures states == AfterMatch(old(View()), Hits(old(View()), matching), container, now)
      ensures Told(MatchNotes(old(View()), Hits(old(View()), matching), container, now), {}, notes)
      ensures changed <==> Hits(old(View()), matching) != {}
      ensures changed <==> exists id :: id in rules && rules[id].enabled && id in matching
      ensures TookEntry(old(View()), matching, container, now, {}, states, notes)
    {
      hide Mixed, Told, OnMatch, Sent, Keyed, TookEntry, Heard;
      ghost var book := View();
      ghost var hits := Hits(View(), matching);
      ghost var due := MatchNotes(View(), hits, container, now);
      ghost var before, after := states, AfterMatch(View(), hits, container, now);
      notes := [];
      changed := false;
      var todo := rules.Keys;
      MixedSame(before, after);
      ToldNone(due);
      while todo != {}
        invariant todo <= rules.Keys
        invariant states == Mixed(before, after, todo) && Told(due, todo, notes)
        invariant changed <==> exists id :: id in hits && id !in todo
      {
        var id :| id in todo;
        MixedStep(before, after, todo, id);
        ToldStep(due, todo, notes, id);
        todo := todo - {id};
        if rules[id].enabled && id in matching {
          var state, note := RecordMatch(rules[id], states[id], now, container);
          if note.Some? {
            notes := notes + [(id, note.value)];
          }
          changed := true;
          states := states[id := state];
        }
      }
      ToldIsHeard(due, notes);
      RulesTookEntry(book, matching, container, now, {}, notes);
    }

    method ProcessEntry(matching: set<string>, container: string, now: int, saves: bool, silent: set<string>)
      returns (arrived: seq<(string, Notification)>)
      requires Valid()
      modifies this
      ensures Valid() && View() == After(old(View()), Entry(matching, container, now, saves, silent))
      ensures Heard(Due(old(View()), Entry(matching, container, now, saves, silent)), silent, arrived)
      ensures TookEntry(old(View()), matching, container, now, silent, states, arrived)
      ensures var matched := exists id :: id in old(rules) && old(rules)[id].enabled && id in matching;
              stored == if saves && matched then states else old(stored)
    {
      hide Keyed, AfterMatch, MatchNotes, Hits, Logged, Missed, Told, Heard, Writes, TookEntry, OnMatch;
      ghost var b, op := View(), Entry(matching, container, now, saves, silent);
      ghost var due := Due(b, op);
      var notes, changed := MatchRules(matching, container, now);
      assert (changed && saves) == Writes(b, op) by { EntryWrites(b, op); }
      Save(changed && saves);
      arrived := Notify(notes, due, silent, now);
      assert lost == AfterEntry(b, op).lost;
      RulesTookEntry(b, matching, container, now, silent, arrived);
    }

    /** saveLocked: the file is written as a whole or left as it is. */
    method Save(save: bool)
      modifies this`stored
      ensures stored == if save then states else old(stored)
    {
      if save {
        stored := states;
      }
    }

    /** After the write, each notification is handed over; whatever does not
        arrive leaves the rules and the store file as they are. */
    method Notify(notes: seq<(string, Notification)>, ghost due: map<string, Option<Notification>>,
                  silent: set<string>, now: int)
      returns (arrived: seq<(string, Notification)>)
      requires Told(due, {}, notes) && traces.Keys == due.Keys == lost.Keys
      modifies this`traces, this`lost, this`clock
      ensures Heard(due, silent, arrived)
      ensures traces == Logged(old(traces), due, silent) && lost == Missed(old(lost), due, silent) && clock == now
    {
      arrived := HandOver(notes, silent);
      forall id | id in due ensures Sent(arrived, id) == Arriving(due[id], id !in silent) {
        AudibleSent(notes, silent, id);
      }
      traces := Logged(traces, due, silent);
      lost := Missed(lost, due, silent);
      clock := now;
    }

    /** The loop of resolve; disabled rules resolve too. */
    method ResolveRules(now: int) returns (notes: seq<(string, Notification)>, changed: bool)
      requires Valid()
      modifies this`states
      ensures states == AfterTick(old(View()), now)
      ensures Told(TickNotes(old(View()), now), {}, notes)
      ensures changed <==> AnyMoved(old(View()), now)
      ensures changed <==> SomeChanged(old(states), states)
    {
      hide Mixed, Told, OnTick, Sent, Keyed;
      ghost var due := TickNotes(View(), now);
      ghost var before, after := states, AfterTick(View(), now);
      notes := [];
      changed := false;
      var todo := rules.Keys;
      MixedSame(before, after);
      ToldNone(due);
      while todo != {}
        invariant todo <= rules.Keys
        invariant states == Mixed(before, after, todo) && Told(due, todo, notes)
        invariant changed <==> exists id :: id in rules && id !in todo && Moved(before[id], after[id])
      {
        var id :| id in todo;
        MixedStep(before, after, todo, id);
        ToldStep(due, todo, notes, id);
        todo := todo - {id};
        var state, note, moved := RecordTick(rules[id], states[id], now);
        if note.Some? {
          notes := notes + [(id, note.value)];
        }
        changed := changed || moved;
        states := states[id := state];
      }
    }

    method Resolve(now: int, saves: bool, silent: set<string>) returns (arrived: seq<(string, Notification)>)
      requires Valid()
      modifies this
      ensures Valid() && View() == After(old(View()), Resolving(now, saves, silent))
      ensures Heard(Due(old(View()), Resolving(now, saves, silent)), silent, arrived)
      ensures stored == if saves && SomeChanged(old(states), states) then states else old(stored)
    {
      hide Keyed, AfterTick, TickNotes, AnyMoved, Logged, Missed, Told, Heard, SomeChanged;
      ghost var b, op := View(), Resolving(now, saves, silent);
      ghost var due := Due(b, op);
      var notes, changed := ResolveRules(now);
      assert (changed && saves) == Writes(b, op);
      Save(changed && saves);
      assert stored == After(b, op).stored;
      arrived := Notify(notes, due, silent, now);
    }

    /** The loop of List. */
    method TrimRules(now: int)
      requires Valid()
      modifies this`states
      ensures states == Trimmed(old(View()), now)
    {
      hide Mixed, Keyed;
      ghost var before, after := states, Trimmed(View(), now);
      var todo := rules.Keys;
      MixedSame(before, after);
      while todo != {}
        invariant todo <= rules.Keys
        invariant states == Mixed(before, after, todo)
      {
        var id :| id in todo;
        MixedStep(before, after, todo, id);
        todo := todo - {id};
        var state := RecordList(rules[id], states[id], now);
        states := states[id := state];
      }
    }

    /** Listing trims every rule's matches and saves nothing. */
    method List(now: int)
      requires Valid()
      modifies this`states, this`clock
      ensures Valid() && View() == After(old(View()), Listing(now))
    {
      hide Keyed, Trimmed;
      ghost var b := View();
      TrimRules(now);
      clock := now;
      assert View() == AfterListing(b, now);
    }

    /** Create, with the random id that no rule has. */
    method Create(id: string, rule: Rule, now: int, saves: bool) returns (result: EditResult)
      requires Valid() && id !in rules
      modifies this
      ensures Valid() && View() == After(old(View()), Creating(id, rule, now, saves))
      ensures result == if !WithinBounds(rule) then Invalid else if saves then Saved else NotPersisted
      ensures rules == if result.Saved? then old(rules)[id := rule] else old(rules)
      ensures states == if result.Saved? then old(states)[id := FreshState(now)] else old(states)
      ensures stored == if result.Saved? then states else old(stored)
    {
      hide Keyed, WithinBounds, FreshState, After, AfterCreating, Writes;
      ghost var b, op := View(), Creating(id, rule, now, saves);
      NotCreated(b, op);
      clock := now;
      if !WithinBounds(rule) {
        return Invalid;
      }
      rules, states := rules[id := rule], states[id := FreshState(now)];
      if saves {
        stored := states;
        traces, lost := traces[id := []], lost[id := 0];
        Created(b, op, View());
        result := Saved;
      } else {
        SameIds(b, id);
        AddUndone(b.rules, id, rule);
        AddUndone(b.states, id, FreshState(now));
        rules, states := rules - {id}, states - {id};
        result := NotPersisted;
      }
    }

    /** The rule starts afresh, unless the store cannot be written. */
    method Update(id: string, rule: Rule, now: int, saves: bool) returns (result: EditResult)
      requires Valid()
      modifies this
      ensures Valid() && View() == After(old(View()), Updating(id, rule, now, saves))
      ensures result == if !WithinBounds(rule) then Invalid else if id !in old(rules) then NotFound
                        else if saves then Saved else NotPersisted
      ensures rules == if result.Saved? then old(rules)[id := rule] else old(rules)
      ensures states == if result.Saved? then old(states)[id := FreshState(now)] else old(states)
      ensures stored == if result.Saved? then states else old(stored)
    {
      hide Keyed, WithinBounds, FreshState;
      ghost var b, op := View(), Updating(id, rule, now, saves);
      assert AfterUpdating(b, op) == After(b, op);
      clock := now;
      if !WithinBounds(rule) {
        return Invalid;
      }
      if id !in rules {
        return NotFound;
      }
      SameIds(b, id);
      PutUndone(rules, id, rule);
      PutUndone(states, id, FreshState(now));
      var previousRule, previousState := rules[id], states[id];
      rules, states := rules[id := rule], states[id := FreshState(now)];
      if saves {
        stored := states;
        result := Saved;
      } else {
        rules, states := rules[id := previousRule], states[id := previousState];
        result := NotPersisted;
      }
    }

    /** Like Update, with the fields the patch leaves out kept; a missing rule is
        noticed first. */
    method Patch(id: string, patch: RulePatch, now: int, saves: bool) returns (result: EditResult)
      requires Valid()
      modifies this
      ensures Valid()
      ensures result.NotFound? <==> id !in old(rules)
      ensures View() == if result.NotFound? then old(View()).(clock := now)
                        else After(old(View()), Updating(id, Patched(old(rules)[id], patch), now, saves))
      ensures result.Invalid? <==> id in old(rules) && !WithinBounds(Patched(old(rules)[id], patch))
      ensures result.Saved? ==>
                && id in old(rules) && id in rules
                && rules[id].threshold == (if patch.threshold.Some? then patch.threshold.value
                                           else old(rules)[id].threshold)
                && rules[id].windowSeconds == (if patch.windowSeconds.Some? then patch.windowSeconds.value
                                               else old(rules)[id].windowSeconds)
                && rules[id].cooldownSeconds == (if patch.cooldownSeconds.Some? then patch.cooldownSeconds.value
                                                 else old(rules)[id].cooldownSeconds)
                && rules[id].enabled == (if patch.enabled.Some? then patch.enabled.value else old(rules)[id].enabled)
    {
      if id !in rules {
        clock := now;
        return NotFound;
      }
      result := Update(id, Patched(rules[id], patch), now, saves);
    }

    method Delete(id: string, now: int, saves: bool) returns (result: EditResult)
      requires Valid()
      modifies this
      ensures Valid() && View() == After(old(View()), Deleting(id, now, saves))
      ensures result == if id !in old(rules) then NotFound else if saves then Saved else NotPersisted
      ensures rules == if result.Saved? then old(rules) - {id} else old(rules)
      ensures states == if result.Saved? then old(states) - {id} else old(states)
      ensures stored == if result.Saved? then states else old(stored)
    {
      hide Keyed;
      ghost var b, op := View(), Deleting(id, now, saves);
      assert AfterDeleting(b, op) == After(b, op);
      clock := now;
      if id !in rules {
        return NotFound;
      }
      SameIds(b, id);
      RemovalUndone(rules, id);
      RemovalUndone(states, id);
      var previousRule, previousState := rules[id], states[id];
      rules, states := rules - {id}, states - {id};
      if saves {
        stored := states;
        traces, lost := traces - {id}, lost - {id};
        result := Saved;
      } else {
        rules, states := rules[id := previousRule], states[id := previousState];
        result := NotPersisted;
      }
    }

    /** The loop over the stored rules. */
    method LoadRules(now: int)
      requires Valid()
      modifies this`states
      ensures states == Reloaded(old(View()), now)
    {
      hide Keyed;
      ghost var after := Reloaded(View(), now);
      states := map[];
      var todo := rules.Keys;
      while todo != {}
        invariant todo <= rules.Keys
        invariant states == after - todo
      {
        var id :| id in todo;
        var state := RecordLoad(rules[id], stored[id], now);
        TakeOne(after, todo, id);
        states := states[id := state];
        todo := todo - {id};
      }
    }

    /** A new process reads the store file; a rule that was firing and no longer
        has its matches comes back OK, silently. */
    method Load(now: int)
      requires Valid()
      modifies this`states, this`clock
      ensures Valid() && View() == After(old(View()), Loading(now))
      ensures forall id :: id in rules ==> LoadedFrom(rules[id], stored[id], states[id], now)
    {
      hide Keyed, Reloaded, LoadedFrom;
      ghost var b := View();
      forall id | id in rules
        ensures id in Reloaded(b, now) && LoadedFrom(rules[id], stored[id], Reloaded(b, now)[id], now)
      {
        RuleReloaded(b, now, id);
      }
      LoadRules(now);
      clock := now;
      assert View() == AfterLoading(b, now);
    }
  }
}
