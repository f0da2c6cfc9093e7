/** A rule over its whole life: edits, failed saves and restarts included. */
module AlertLife {
  import opened Options
  import opened Alerts

  /** `saved` is the state in the store file; `last` is the time of the last
      step; `trace` lists every notification that arrived, and `lost` counts the
      firing ones that did not. */
  datatype Life = Life(rule: Rule, state: RuleState, saved: RuleState, last: int, trace: seq<Notification>, lost: nat)

  /** `saves` tells that the store file, which holds every rule, was written at
      the end of the step: a failed write leaves the old file. The notification
      goes out after the write; it does not arrive when the notifier fails, or
      when the process ends in between. */
  datatype Step =
    | Happens(e: Event, saves: bool, arrives: bool)  // an entry, a tick or a listing
    | Other(now: int, saves: bool)             // something that concerns other rules only
    | Edit(rule: Rule, now: int, saves: bool)  // Update or Patch, undone unless it is saved
    | Reload(now: int)                         // a new process loads the store

  function TimeOf(step: Step): int {
    match step
    case Happens(e, _, _) => e.now
    case Other(now, _) => now
    case Edit(_, now, _) => now
    case Reload(now) => now
  }

  function Arriving(n: Option<Notification>, arrives: bool): seq<Notification> {
    if arrives then Emitted(n) else []
  }

  function Missing(n: Option<Notification>, arrives: bool): nat {
    if !arrives && n.Some? && n.value.kind == Firing then 1 else 0
  }

  function Next(l: Life, step: Step): Life {
    match step
    case Happens(e, saves, arrives) =>
      var (t, n) := Apply(l.rule, l.state, e);
      Life(l.rule, t, if saves then t else l.saved, e.now, l.trace + Arriving(n, arrives), l.lost + Missing(n, arrives))
    case Other(now, saves) => l.(saved := if saves then l.state else l.saved, last := now)
    case Edit(rule, now, saves) =>
      if saves then Life(rule, FreshState(now), FreshState(now), now, l.trace, l.lost) else l.(last := now)
    case Reload(now) => l.(state := OnLoad(l.rule, l.saved, now), last := now)
  }

  function Born(rule: Rule, now: int): Life {
    Life(rule, FreshState(now), FreshState(now), now, [], 0)
  }

  function Run(rule: Rule, now: int, steps: seq<Step>): Life {
    if steps == [] then Born(rule, now) else Next(Run(rule, now, steps[..|steps| - 1]), steps[|steps| - 1])
  }

  /** The clock does not go back. */
  ghost predicate Plausible(rule: Rule, now: int, steps: seq<Step>) {
    forall i :: 0 <= i < |steps| ==> Run(rule, now, steps[..i]).last <= TimeOf(steps[i])
  }

  // ---- firings owed ------------------------------------------------------------------------

  /** Firing minus resolved notifications. */
  function Balance(trace: seq<Notification>): int {
    if trace == [] then 0
    else Balance(trace[..|trace| - 1]) + if trace[|trace| - 1].kind == Firing then 1 else -1
  }

  /** No prefix has more resolutions than firings, `lost` ones counted in. */
  ghost predicate NeverOverdrawn(trace: seq<Notification>, lost: nat) {
    forall k :: 0 <= k <= |trace| ==> Balance(trace[..k]) + lost >= 0
  }

  /** The matches the store file, and the running state, still count. */
  function Live(l: Life): seq<int> {
    TrimFrom(l.saved.matches, l.last - Alerts.Window(l.rule))
  }

  function Held(l: Life): seq<int> {
    TrimFrom(l.state.matches, l.last - Alerts.Window(l.rule))
  }

  /** What every step keeps. The last two clauses make a stale store file
      harmless: whatever it still counts, the running state counts too. */
  ghost predicate Sound(l: Life) {
    && NeverOverdrawn(l.trace, l.lost)
    && Balance(l.trace) + l.lost >= (if l.state.sent then 1 else 0)
    && (l.state.sent ==> l.state.status == FIRING) && (l.saved.sent ==> l.saved.status == FIRING)
    && Live(l) <= Held(l)
    && (l.saved.sent && |Live(l)| >= l.rule.threshold ==> l.state.sent)
  }

  lemma {:induction false} TrimPrefix(a: seq<int>, b: seq<int>, cutoff: int)
    requires a <= b
    ensures TrimFrom(a, cutoff) <= TrimFrom(b, cutoff)
  {
    if a == [] || a[0] >= cutoff {
    } else {
      TrimPrefix(a[1..], b[1..], cutoff);
    }
  }

  lemma {:induction false} TrimTwice(a: seq<int>, first: int, second: int)
    requires first <= second
    ensures TrimFrom(TrimFrom(a, first), second) == TrimFrom(a, second)
    ensures |TrimFrom(a, second)| <= |TrimFrom(a, first)|
  {
    TrimShorter(a, second);
    if a == [] || a[0] >= first {
    } else {
      TrimTwice(a[1..], first, second);
    }
  }

  lemma {:induction false} TrimShorter(a: seq<int>, cutoff: int)
    ensures |TrimFrom(a, cutoff)| <= |a|
  {
    if a == [] || a[0] >= cutoff {
    } else {
      TrimShorter(a[1..], cutoff);
    }
  }

  /** Time passing shrinks what the store file still counts. */
  lemma LiveLater(l: Life, now: int)
    requires Sound(l) && l.last <= now
    ensures Live(l.(last := now)) <= Held(l.(last := now))
    ensures l.saved.sent && |Live(l.(last := now))| >= l.rule.threshold ==> l.state.sent
    ensures Live(l.(last := now)) == TrimFrom(Live(l), now - Alerts.Window(l.rule))
  {
    var w := Alerts.Window(l.rule);
    TrimTwice(l.saved.matches, l.last - w, now - w);
    TrimTwice(l.state.matches, l.last - w, now - w);
    TrimPrefix(Live(l), Held(l), now - w);
  }

  lemma NotifyBalance(trace: seq<Notification>, lost: nat, n: Option<Notification>, arrives: bool)
    requires NeverOverdrawn(trace, lost)
    requires n.Some? && n.value.kind == Resolved ==> Balance(trace) + lost >= 1
    ensures NeverOverdrawn(trace + Arriving(n, arrives), lost + Missing(n, arrives))
    ensures Balance(trace + Arriving(n, arrives)) + lost + Missing(n, arrives)
         == Balance(trace) + lost + if n.None? then 0 else if n.value.kind == Firing then 1 else if arrives then -1
            else 0
  {
    var more := trace + Arriving(n, arrives);
    assert trace[..|trace|] == trace && more[..|trace|] == trace && more[..|more|] == more;
    if n.None? || !arrives {
      assert more == trace;
    }
    forall k | 0 <= k <= |more| ensures Balance(more[..k]) + lost + Missing(n, arrives) >= 0 {
      if k <= |trace| {
        assert more[..k] == trace[..k];
      }
    }
  }

  lemma HappensBalanced(l: Life, e: Event, saves: bool, arrives: bool)
    requires Sound(l)
    ensures var next := Next(l, Happens(e, saves, arrives));
            NeverOverdrawn(next.trace, next.lost) &&
            Balance(next.trace) + next.lost >= (if next.state.sent then 1 else 0) &&
            (next.state.sent ==> next.state.status == FIRING)
  {
    hide NeverOverdrawn, Balance, Live, Held, TrimFrom, Alerts.Window, Emitted;
    NotifyBalance(l.trace, l.lost, Apply(l.rule, l.state, e).1, arrives);
  }

  /** What the running state counts after the event. */
  lemma HappensHeld(l: Life, e: Event, saves: bool, arrives: bool)
    ensures var next := Next(l, Happens(e, saves, arrives));
            Held(next) == TrimFrom(next.state.matches, e.now - Alerts.Window(l.rule)) &&
            TrimFrom(l.state.matches, e.now - Alerts.Window(l.rule)) <= Held(next)
  {
    var cutoff := e.now - Alerts.Window(l.rule);
    MatchesStep(l.rule, l.state, e);
    TrimTwice(l.state.matches, cutoff, cutoff);
    TrimPrefix(TrimFrom(l.state.matches, cutoff), Apply(l.rule, l.state, e).0.matches, cutoff);
  }

  /** A firing that goes on counting enough is not resolved. */
  lemma HappensSent(l: Life, e: Event)
    requires l.state.sent ==> l.state.status == FIRING
    requires l.state.sent && |TrimFrom(l.state.matches, e.now - Alerts.Window(l.rule))| >= l.rule.threshold
    ensures Apply(l.rule, l.state, e).0.sent
  {
    hide Alerts.Window;
  }

  lemma HappensSound(l: Life, e: Event, saves: bool, arrives: bool)
    requires Sound(l) && l.last <= e.now
    ensures Sound(Next(l, Happens(e, saves, arrives)))
  {
    hide Apply, NeverOverdrawn, Balance, TrimFrom, Alerts.Window;
    LiveLater(l, e.now);
    HappensBalanced(l, e, saves, arrives);
    HappensHeld(l, e, saves, arrives);
    var kept := TrimFrom(l.state.matches, e.now - Alerts.Window(l.rule));
    if l.state.sent && |kept| >= l.rule.threshold {
      HappensSent(l, e);
    }
  }

  lemma StepSound(l: Life, step: Step)
    requires Sound(l) && l.last <= TimeOf(step)
    ensures Sound(Next(l, step))
  {
    LiveLater(l, TimeOf(step));
    match step
    case Happens(e, saves, arrives) => HappensSound(l, e, saves, arrives);
    case Other(now, saves) =>
    case Edit(rule, now, saves) =>
    case Reload(now) =>
      TrimTwice(l.saved.matches, now - Alerts.Window(l.rule), now - Alerts.Window(l.rule));
  }

  lemma PlausiblePrefix(rule: Rule, now: int, steps: seq<Step>)
    requires steps != [] && Plausible(rule, now, steps)
    ensures var n := |steps| - 1;
            Plausible(rule, now, steps[..n]) && Run(rule, now, steps[..n]).last <= TimeOf(steps[n])
  {
    var n := |steps| - 1;
    assert forall i :: 0 <= i < n ==> steps[..n][..i] == steps[..i];
  }

  lemma {:induction false} RunSound(rule: Rule, now: int, steps: seq<Step>)
    requires Plausible(rule, now, steps)
    ensures Sound(Run(rule, now, steps))
  {
    if steps == [] {
    } else {
      var n := |steps| - 1;
      PlausiblePrefix(rule, now, steps);
      RunSound(rule, now, steps[..n]);
      StepSound(Run(rule, now, steps[..n]), steps[n]);
    }
  }

  /** With edits, failed saves, restarts and notifications that do not arrive, in
      any order: no prefix of the notifications holds more resolved ones than
      firing ones and lost firing ones together. */
  lemma {:induction false} ResolvedAreCovered(rule: Rule, now: int, steps: seq<Step>, k: nat)
    requires Plausible(rule, now, steps) && k <= |Run(rule, now, steps).trace|
    ensures Balance(Run(rule, now, steps).trace[..k]) + Run(rule, now, steps).lost >= 0
  {
    RunSound(rule, now, steps);
  }

  // ---- the exact balance ----------------------------------------------------------------------

  /** A firing was sent and its incident goes on: one resolution is owed. */
  function Owed(l: Life): nat {
    if l.state.sent then 1 else 0
  }

  /** The step ends an announced incident and no resolution arrives: an edit, a
      restart that finds too few matches, or a resolution that is lost. */
  function Silenced(l: Life, step: Step): nat {
    var next := Next(l, step);
    if l.state.sent && !next.state.sent && next.trace == l.trace then 1 else 0
  }

  /** How many announced incidents of the run ended without a resolution. */
  function Dropped(rule: Rule, now: int, steps: seq<Step>): nat {
    if steps == [] then 0
    else
      var n := |steps| - 1;
      Dropped(rule, now, steps[..n]) + Silenced(Run(rule, now, steps[..n]), steps[n])
  }

  /** What firings, lost ones included, exceed resolutions by, beyond what is owed. */
  function Surplus(l: Life): int {
    Balance(l.trace) + l.lost - Owed(l)
  }

  lemma AppendBalance(trace: seq<Notification>, n: Option<Notification>, arrives: bool)
    ensures Balance(trace + Arriving(n, arrives)) + Missing(n, arrives)
         == Balance(trace) + if n.None? then 0 else if n.value.kind == Firing then 1 else if arrives then -1 else 0
  {
    var more := trace + Arriving(n, arrives);
    if n.Some? && arrives {
      assert more[..|trace|] == trace;
    } else {
      assert more == trace;
    }
  }

  lemma HappensExact(l: Life, e: Event, saves: bool, arrives: bool)
    requires l.state.sent ==> l.state.status == FIRING
    ensures var step := Happens(e, saves, arrives); Surplus(Next(l, step)) == Surplus(l) + Silenced(l, step)
  {
    var (t, n) := Apply(l.rule, l.state, e);
    AppendBalance(l.trace, n, arrives);
    assert n.Some? && arrives ==> |l.trace + Arriving(n, arrives)| == |l.trace| + 1;
    assert n.None? || !arrives ==> l.trace + Arriving(n, arrives) == l.trace;
  }

  lemma StepExact(l: Life, step: Step)
    requires Sound(l) && l.last <= TimeOf(step)
    ensures Surplus(Next(l, step)) == Surplus(l) + Silenced(l, step)
  {
    match step
    case Happens(e, saves, arrives) => HappensExact(l, e, saves, arrives);
    case Other(now, saves) =>
    case Edit(rule, now, saves) =>
    case Reload(now) => LiveLater(l, now);
  }

  /** Firings, lost ones included, are resolutions, the one owed and the dropped. */
  lemma {:induction false} BalanceIsExact(rule: Rule, now: int, steps: seq<Step>)
    requires Plausible(rule, now, steps)
    ensures var l := Run(rule, now, steps); Balance(l.trace) + l.lost == Owed(l) + Dropped(rule, now, steps)
  {
    if steps == [] {
      assert Run(rule, now, steps) == Born(rule, now);
    } else {
      var n := |steps| - 1;
      PlausiblePrefix(rule, now, steps);
      BalanceIsExact(rule, now, steps[..n]);
      RunSound(rule, now, steps[..n]);
      StepExact(Run(rule, now, steps[..n]), steps[n]);
    }
  }

  /** More resolutions than firings have arrived exactly when the lost firings
      outnumber the dropped incidents and the one still owed. */
  lemma {:induction false} OverdrawnExactly(rule: Rule, now: int, steps: seq<Step>)
    requires Plausible(rule, now, steps)
    ensures var l := Run(rule, now, steps); Balance(l.trace) < 0 <==> l.lost > Owed(l) + Dropped(rule, now, steps)
  {
    BalanceIsExact(rule, now, steps);
  }

  lemma TraceStep(l: Life, step: Step)
    ensures var next := Next(l, step);
            next.trace == l.trace || (|next.trace| == |l.trace| + 1 && next.trace[..|l.trace|] == l.trace)
  {}

  lemma PlausibleUpTo(rule: Rule, now: int, steps: seq<Step>, n: nat)
    requires n <= |steps| && Plausible(rule, now, steps)
    ensures Plausible(rule, now, steps[..n])
  {
    assert forall i :: 0 <= i < n ==> steps[..n][..i] == steps[..i];
  }

  /** Every beginning of the notifications is all of them at some point of the run. */
  lemma {:induction false} PrefixAt(rule: Rule, now: int, steps: seq<Step>, k: nat) returns (n: nat)
    requires k <= |Run(rule, now, steps).trace|
    ensures n <= |steps| && Run(rule, now, steps[..n]).trace == Run(rule, now, steps).trace[..k]
  {
    var m, trace := |steps|, Run(rule, now, steps).trace;
    hide Next;
    if k == |trace| {
      n := m;
      assert steps[..m] == steps && trace[..k] == trace;
    } else {
      TraceStep(Run(rule, now, steps[..m - 1]), steps[m - 1]);
      n := PrefixAt(rule, now, steps[..m - 1], k);
      assert steps[..m - 1][..n] == steps[..n];
    }
  }

  lemma {:induction false} TraceIsPrefix(rule: Rule, now: int, steps: seq<Step>, n: nat)
    requires n <= |steps|
    ensures Run(rule, now, steps[..n]).trace <= Run(rule, now, steps).trace
  {
    if n == |steps| {
      assert steps[..n] == steps;
    } else {
      var m := |steps| - 1;
      TraceStep(Run(rule, now, steps[..m]), steps[m]);
      TraceIsPrefix(rule, now, steps[..m], n);
      assert steps[..m][..n] == steps[..n];
    }
  }

  /** After so many steps the lost firings are covered. */
  ghost predicate Covered(rule: Rule, now: int, steps: seq<Step>, n: nat)
    requires n <= |steps|
  {
    var l := Run(rule, now, steps[..n]);
    l.lost <= Owed(l) + Dropped(rule, now, steps[..n])
  }

  /** No prefix of a rule's notifications holds more resolved than firing ones
      exactly when at every point of the run the lost firings are at most the
      dropped incidents and the one still owed. */
  lemma {:induction false} NeverMoreResolved(rule: Rule, now: int, steps: seq<Step>)
    requires Plausible(rule, now, steps)
    ensures NeverOverdrawn(Run(rule, now, steps).trace, 0) <==>
            forall n :: 0 <= n <= |steps| ==> Covered(rule, now, steps, n)
  {
    var trace := Run(rule, now, steps).trace;
    if NeverOverdrawn(trace, 0) {
      forall n | 0 <= n <= |steps| ensures Covered(rule, now, steps, n) {
        CoveredAt(rule, now, steps, n);
      }
    }
    if forall n :: 0 <= n <= |steps| ==> Covered(rule, now, steps, n) {
      forall k | 0 <= k <= |trace| ensures Balance(trace[..k]) + 0 >= 0 {
        var n := PrefixAt(rule, now, steps, k);
        assert Covered(rule, now, steps, n);
        PlausibleUpTo(rule, now, steps, n);
        OverdrawnExactly(rule, now, steps[..n]);
      }
    }
  }

  lemma {:induction false} CoveredAt(rule: Rule, now: int, steps: seq<Step>, n: nat)
    requires n <= |steps| && Plausible(rule, now, steps) && NeverOverdrawn(Run(rule, now, steps).trace, 0)
    ensures Covered(rule, now, steps, n)
  {
    var trace, part := Run(rule, now, steps).trace, Run(rule, now, steps[..n]).trace;
    TraceIsPrefix(rule, now, steps, n);
    assert trace[..|part|] == part;
    PlausibleUpTo(rule, now, steps, n);
    OverdrawnExactly(rule, now, steps[..n]);
  }

  // ---- a firing that is lost -------------------------------------------------------------------

  const MINUTE_RULE := Rule(1, 60, 0, true)
  const FIRED := RuleState(FIRING, [0], Some(0), Some(0), 1, "", true, 0)

  lemma MinuteWindow()
    ensures Alerts.Window(MINUTE_RULE) == 60 * SECOND && Cooldown(MINUTE_RULE) == 0
  {}

  lemma LostFires()
    ensures Next(Born(MINUTE_RULE, 0), Happens(Matched(0, ""), true, false))
         == Life(MINUTE_RULE, FIRED, FIRED, 0, [], 1)
  {
    MinuteWindow();
    assert OnMatch(MINUTE_RULE, FreshState(0), 0, "").0 == FIRED;
  }

  lemma LostLoads()
    ensures Next(Life(MINUTE_RULE, FIRED, FIRED, 0, [], 1), Reload(1)) == Life(MINUTE_RULE, FIRED, FIRED, 1, [], 1)
  {
    MinuteWindow();
    assert TrimFrom([0], 1 - 60 * SECOND) == [0];
  }

  lemma LostResolves()
    ensures var l := Next(Life(MINUTE_RULE, FIRED, FIRED, 1, [], 1), Happens(Tick(61 * SECOND), true, true));
            |l.trace| == 1 && l.trace[0].kind == Resolved && l.lost == 1
  {
    MinuteWindow();
    assert [0][1..] == [] && TrimFrom([0], 1 * SECOND) == [];
    assert OnTick(MINUTE_RULE, FIRED, 61 * SECOND).1.Some?;
  }

  lemma ThreeSteps(rule: Rule, now: int, a: Step, b: Step, c: Step)
    ensures var l := Next(Born(rule, now), a);
            Run(rule, now, [a, b, c]) == Next(Next(l, b), c) &&
            (now <= TimeOf(a) && l.last <= TimeOf(b) && Next(l, b).last <= TimeOf(c) ==>
               Plausible(rule, now, [a, b, c]))
  {
    var steps := [a, b, c];
    assert steps[..0] == [] && steps[..1] == [a] && steps[..2] == [a, b] && [a][..0] == [] && [a, b][..1] == [a];
    assert Run(rule, now, [a]) == Next(Born(rule, now), a);
    assert Run(rule, now, [a, b]) == Next(Next(Born(rule, now), a), b);
  }

  /** A firing that is saved and then lost, because the process ends before it is
      sent, overdraws: the next process reports only the resolution. */
  lemma {:induction false} LostFiringOverdraws()
    ensures var steps := [Happens(Matched(0, ""), true, false), Reload(1), Happens(Tick(61 * SECOND), true, true)];
            var l := Run(MINUTE_RULE, 0, steps);
            Plausible(MINUTE_RULE, 0, steps) && l.lost == 1 &&
            |l.trace| == 1 && l.trace[0].kind == Resolved && Balance(l.trace) == -1
  {
    ThreeSteps(MINUTE_RULE, 0, Happens(Matched(0, ""), true, false), Reload(1), Happens(Tick(61 * SECOND), true, true));
    LostFires();
    LostLoads();
    LostResolves();
  }
}
