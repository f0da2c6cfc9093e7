/** One alert rule: sliding window, firing state, cooldown and notifications. */
module Alerts {
  import opened Options

  const SECOND := 1_000_000_000
  const MAX_WINDOW := 7 * 24 * 3600 * SECOND
  const MAX_COOLDOWN := 30 * 24 * 3600 * SECOND
  const MAX_THRESHOLD := 1_000_000

  // ---- rules ---------------------------------------------------------------------------

  const TWO63 := 0x8000_0000_0000_0000

  /** int64 wrap-around of a time.Duration product. */
  function Wrap64(x: int): (w: int)
    ensures -TWO63 <= w < TWO63
    decreases if x >= TWO63 then x else if x < -TWO63 then -x else 0
  {
    if x >= TWO63 then Wrap64(x - 2 * TWO63) else if x < -TWO63 then Wrap64(x + 2 * TWO63) else x
  }

  datatype Rule = Rule(threshold: int, windowSeconds: int, cooldownSeconds: int, enabled: bool)

  function Window(r: Rule): int {
    Wrap64(r.windowSeconds * SECOND)
  }

  function Cooldown(r: Rule): int {
    Wrap64(r.cooldownSeconds * SECOND)
  }

  /** The numeric bounds of normalizeSpec. */
  predicate WithinBounds(r: Rule) {
    && 1 <= r.threshold <= MAX_THRESHOLD
    && r.windowSeconds >= 1 && Window(r) <= MAX_WINDOW
    && r.cooldownSeconds >= 0 && Cooldown(r) <= MAX_COOLDOWN
  }

  /** The bounds mean what they say exactly when the products do not wrap. */
  lemma BoundsAreReal(r: Rule)
    requires WithinBounds(r)
    ensures Window(r) == r.windowSeconds * SECOND <==> r.windowSeconds <= 9_223_372_036
    ensures r.windowSeconds <= 7 * 24 * 3600 <==> r.windowSeconds <= 9_223_372_036
    ensures Cooldown(r) == r.cooldownSeconds * SECOND <==> r.cooldownSeconds <= 9_223_372_036
    ensures r.cooldownSeconds <= 30 * 24 * 3600 <==> r.cooldownSeconds <= 9_223_372_036
  {}

  /** For rules whose products do not wrap, the numbers of the documentation. */
  lemma BoundsMean(r: Rule)
    requires r.windowSeconds <= 9_223_372_036 && r.cooldownSeconds <= 9_223_372_036
    ensures WithinBounds(r)
       <==> 1 <= r.threshold <= 1_000_000 && 1 <= r.windowSeconds <= 604_800 && 0 <= r.cooldownSeconds <= 2_592_000
  {}

  // ---- state ------------------------------------------------------------------------------

  datatype Status = OK | FIRING

  datatype RuleState = RuleState(status: Status, matches: seq<int>, lastFiredAt: Option<int>, firingSince: Option<int>,
                                 peak: nat, container: string, sent: bool, updatedAt: int)

  datatype Kind = Firing | Resolved

  datatype Notification = Notification(kind: Kind, value: nat, peak: nat, at: int, startedAt: Option<int>,
                                       container: string)

  function FreshState(now: int): RuleState {
    RuleState(OK, [], None, None, 0, "", false, now)
  }

  function TrimFrom(matches: seq<int>, cutoff: int): seq<int> {
    if matches != [] && matches[0] < cutoff then TrimFrom(matches[1..], cutoff) else matches
  }

  method TrimMatches(matches: seq<int>, cutoff: int) returns (kept: seq<int>)
    ensures kept == TrimFrom(matches, cutoff)
  {
    var first := 0;
    while first < |matches| && matches[first] < cutoff
      invariant first <= |matches|
      invariant TrimFrom(matches[first..], cutoff) == TrimFrom(matches, cutoff)
    {
      assert matches[first..][1..] == matches[first + 1..];
      first := first + 1;
    }
    if first == 0 {
      return matches;
    }
    kept := matches[first..];
  }

  /** processEntry for a rule that matches the entry. */
  function OnMatch(r: Rule, s: RuleState, now: int, container: string): (RuleState, Option<Notification>) {
    var matches := TrimFrom(s.matches, now - Window(r)) + [now];
    var t := s.(matches := matches, updatedAt := now);
    if |matches| < r.threshold then (t, None)
    else if s.status == FIRING then (t.(peak := if |matches| > s.peak then |matches| else s.peak), None)
    else
      var fired := t.(status := FIRING, sent := false, firingSince := Some(now), peak := |matches|,
                   container := container);
      if s.lastFiredAt.None? || now - s.lastFiredAt.value >= Cooldown(r)
      then (fired.(lastFiredAt := Some(now), sent := true),
            Some(Notification(Firing, |matches|, |matches|, now, Some(now), container)))
      else (fired, None)
  }

  /** The resolve tick. */
  function OnTick(r: Rule, s: RuleState, now: int): (RuleState, Option<Notification>) {
    var t := s.(matches := TrimFrom(s.matches, now - Window(r)));
    if s.status == FIRING && |t.matches| < r.threshold
    then (t.(status := OK, updatedAt := now, firingSince := None, peak := 0, container := "", sent := false),
          if s.sent then Some(Notification(Resolved, |t.matches|, s.peak, now, s.firingSince, s.container)) else None)
    else (t, None)
  }

  function OnList(r: Rule, s: RuleState, now: int): RuleState {
    s.(matches := TrimFrom(s.matches, now - Window(r)))
  }

  /** What loading a saved state makes of it. */
  function OnLoad(r: Rule, saved: RuleState, now: int): RuleState {
    var t := saved.(matches := TrimFrom(saved.matches, now - Window(r)));
    if saved.status == FIRING && |t.matches| < r.threshold
    then t.(status := OK, firingSince := None, peak := 0, container := "", sent := false) else t
  }

  // ---- runs of one rule ------------------------------------------------------------------------

  datatype Event = Matched(now: int, container: string) | Tick(now: int) | Listed(now: int)

  function Apply(r: Rule, s: RuleState, e: Event): (RuleState, Option<Notification>) {
    match e
    case Matched(now, container) => OnMatch(r, s, now, container)
    case Tick(now) => OnTick(r, s, now)
    case Listed(now) => (OnList(r, s, now), None)
  }

  function Emitted(n: Option<Notification>): seq<Notification> {
    if n.Some? then [n.value] else []
  }

  /** State and notifications after the events, for a rule created at `start`. */
  function Run(r: Rule, start: int, events: seq<Event>): (RuleState, seq<Notification>) {
    if events == [] then (FreshState(start), [])
    else
      var (s, trace) := Run(r, start, events[..|events| - 1]);
      var (t, n) := Apply(r, s, events[|events| - 1]);
      (t, trace + Emitted(n))
  }

  /** The clock does not go back. */
  ghost predicate Monotone(start: int, events: seq<Event>) {
    (forall i :: 0 <= i < |events| ==> start <= events[i].now)
    && forall i, j :: 0 <= i < j < |events| ==> events[i].now <= events[j].now
  }

  /** Arrival times of all matching entries. */
  function Arrivals(events: seq<Event>): seq<int> {
    if events == [] then []
    else
      var last := events[|events| - 1];
      Arrivals(events[..|events| - 1]) + if last.Matched? then [last.now] else []
  }

  /** The arrivals at or after the cutoff. */
  function Since(arrivals: seq<int>, cutoff: int): seq<int> {
    if arrivals == [] then []
    else
      var last := arrivals[|arrivals| - 1];
      Since(arrivals[..|arrivals| - 1], cutoff) + if last >= cutoff then [last] else []
  }

  /** How many matching entries arrived in [now - window, now]. */
  function InWindow(r: Rule, events: seq<Event>, now: int): nat {
    |Since(Arrivals(events), now - Window(r))|
  }

  function LastTime(start: int, events: seq<Event>): int {
    if events == [] then start else events[|events| - 1].now
  }

  // ---- the window ------------------------------------------------------------------------------------

  ghost predicate Rising(times: seq<int>, last: int) {
    (forall i, j :: 0 <= i < j < |times| ==> times[i] <= times[j]) && forall i :: 0 <= i < |times| ==> times[i] <= last
  }

  lemma {:induction false} ArrivalsRise(start: int, events: seq<Event>)
    requires Monotone(start, events)
    ensures Rising(Arrivals(events), LastTime(start, events))
  {
    if events == [] {
    } else {
      ArrivalsRise(start, events[..|events| - 1]);
    }
  }

  /** In rising times, dropping old ones from the front keeps exactly the recent ones. */
  lemma {:induction false} TrimIsSince(times: seq<int>, last: int, cutoff: int)
    requires Rising(times, last)
    ensures TrimFrom(times, cutoff) == Since(times, cutoff)
  {
    if times == [] {
    } else {
      if times[0] < cutoff {
        TrimIsSince(times[1..], last, cutoff);
        SinceTail(times, cutoff);
      } else {
        SinceAll(times, cutoff);
      }
    }
  }

  lemma {:induction false} SinceTail(times: seq<int>, cutoff: int)
    requires times != [] && times[0] < cutoff
    ensures Since(times, cutoff) == Since(times[1..], cutoff)
  {
    if |times| <= 1 {
    } else {
      SinceTail(times[..|times| - 1], cutoff);
      assert times[..|times| - 1][1..] == times[1..][..|times| - 2];
    }
  }

  lemma {:induction false} SinceAll(times: seq<int>, cutoff: int)
    requires forall i :: 0 <= i < |times| ==> times[i] >= cutoff
    ensures Since(times, cutoff) == times
  {
    if times == [] {
    } else {
      SinceAll(times[..|times| - 1], cutoff);
    }
  }

  lemma {:induction false} SinceRises(times: seq<int>, last: int, cutoff: int)
    requires Rising(times, last)
    ensures Rising(Since(times, cutoff), last)
  {
    if times == [] {
    } else {
      var init, end := times[..|times| - 1], times[|times| - 1];
      SinceRises(init, end, cutoff);
      assert Since(times, cutoff) == Since(init, cutoff) + if end >= cutoff then [end] else [];
    }
  }

  lemma SinceAppend(times: seq<int>, t: int, cutoff: int)
    ensures Since(times + [t], cutoff) == if t >= cutoff then Since(times, cutoff) + [t] else Since(times, cutoff)
  {
    assert (times + [t])[..|times|] == times;
  }

  /** A later cutoff can be applied on top of an earlier one. */
  lemma {:induction false} SinceTwice(times: seq<int>, first: int, second: int)
    requires first <= second
    ensures Since(Since(times, first), second) == Since(times, second)
  {
    if times == [] {
    } else {
      var init, last := times[..|times| - 1], times[|times| - 1];
      SinceTwice(init, first, second);
      assert times == init + [last];
      SinceAppend(init, last, first);
      SinceAppend(Since(init, first), last, second);
    }
  }

  lemma SinceRetrim(times: seq<int>, last: int, first: int, second: int)
    requires Rising(times, last) && first <= second
    ensures TrimFrom(Since(times, first), second) == Since(times, second)
  {
    SinceRises(times, last, first);
    TrimIsSince(Since(times, first), last, second);
    SinceTwice(times, first, second);
  }

  lemma MonotonePrefix(start: int, events: seq<Event>)
    requires events != [] && Monotone(start, events)
    ensures Monotone(start, events[..|events| - 1])
    ensures LastTime(start, events[..|events| - 1]) <= events[|events| - 1].now
  {}

  lemma RunStep(r: Rule, start: int, events: seq<Event>)
    requires events != []
    ensures Run(r, start, events).0 == Apply(r, Run(r, start, events[..|events| - 1]).0, events[|events| - 1]).0
  {}

  /** What one event does to the stored matches. */
  lemma MatchesStep(r: Rule, s: RuleState, e: Event)
    ensures Apply(r, s, e).0.matches
         == TrimFrom(s.matches, e.now - Window(r)) + if e.Matched? then [e.now] else []
  {}

  lemma ArrivalsStep(init: seq<Event>, e: Event)
    ensures Arrivals(init + [e]) == if e.Matched? then Arrivals(init) + [e.now] else Arrivals(init)
  {
    assert (init + [e])[..|init|] == init;
    assert Arrivals(init) + [] == Arrivals(init);
  }

  /** One event keeps the stored matches in step with the arrivals. */
  lemma WindowStep(r: Rule, s: RuleState, e: Event, arrivals: seq<int>, last: int)
    requires Rising(arrivals, last) && last <= e.now && Window(r) >= 0
    requires s.matches == Since(arrivals, last - Window(r))
    ensures Apply(r, s, e).0.matches
         == Since(if e.Matched? then arrivals + [e.now] else arrivals, e.now - Window(r))
  {
    SinceRetrim(arrivals, last, last - Window(r), e.now - Window(r));
    MatchesStep(r, s, e);
    SinceAppend(arrivals, e.now, e.now - Window(r));
  }

  lemma EventWindow(r: Rule, s: RuleState, init: seq<Event>, e: Event, last: int)
    requires Rising(Arrivals(init), last) && last <= e.now && Window(r) >= 0
    requires s.matches == Since(Arrivals(init), last - Window(r))
    ensures Apply(r, s, e).0.matches == Since(Arrivals(init + [e]), e.now - Window(r))
  {
    WindowStep(r, s, e, Arrivals(init), last);
    ArrivalsStep(init, e);
  }

  /** The stored matches are the arrivals of the current window. */
  ghost predicate Windowed(r: Rule, start: int, events: seq<Event>) {
    Run(r, start, events).0.matches == Since(Arrivals(events), LastTime(start, events) - Window(r))
  }

  lemma RunWindow(r: Rule, start: int, events: seq<Event>)
    requires events != [] && Monotone(start, events) && Window(r) >= 0
    requires Windowed(r, start, events[..|events| - 1])
    ensures Windowed(r, start, events)
  {
    hide Monotone, Rising, Since, Arrivals, Window, Run, Apply;
    var init, last := events[..|events| - 1], events[|events| - 1];
    RunStep(r, start, events);
    MonotonePrefix(start, events);
    ArrivalsRise(start, init);
    EventWindow(r, Run(r, start, init).0, init, last, LastTime(start, init));
    assert events == init + [last];
  }

  /** Over every run they are. */
  lemma {:induction false} MatchesAreWindow(r: Rule, start: int, events: seq<Event>)
    requires Monotone(start, events) && Window(r) >= 0
    ensures Windowed(r, start, events)
  {
    if events == [] {
    } else {
      MonotonePrefix(start, events);
      MatchesAreWindow(r, start, events[..|events| - 1]);
      RunWindow(r, start, events);
    }
  }

  // ---- firing -------------------------------------------------------------------------------------------

  /** The rule fires from the matching step at which the window count reaches
      the threshold until the tick at which it is below. */
  function ShouldFire(r: Rule, events: seq<Event>): bool {
    if events == [] then false
    else
      var init, last := events[..|events| - 1], events[|events| - 1];
      var count := InWindow(r, events, last.now);
      match last
      case Matched(_, _) => ShouldFire(r, init) || count >= r.threshold
      case Tick(_) => ShouldFire(r, init) && count >= r.threshold
      case Listed(_) => ShouldFire(r, init)
  }

  /** The largest window count of the current incident. */
  function IncidentPeak(r: Rule, events: seq<Event>): nat {
    if !ShouldFire(r, events) then 0
    else
      var init, last := events[..|events| - 1], events[|events| - 1];
      var before := IncidentPeak(r, init);
      if last.Matched? && InWindow(r, events, last.now) > before then InWindow(r, events, last.now) else before
  }

  /** The rule fires without a break from the k-th event on. */
  ghost predicate FiresFrom(r: Rule, events: seq<Event>, k: nat) {
    0 < k <= |events| && forall j :: k <= j <= |events| ==> ShouldFire(r, events[..j])
  }

  lemma FiresFromPrefix(r: Rule, events: seq<Event>, k: nat)
    requires FiresFrom(r, events, k) && k < |events|
    ensures FiresFrom(r, events[..|events| - 1], k)
  {
    var init := events[..|events| - 1];
    assert forall j :: k <= j <= |init| ==> init[..j] == events[..j];
  }

  lemma {:induction false} SinceShrinks(times: seq<int>, first: int, second: int)
    requires first <= second
    ensures |Since(times, second)| <= |Since(times, first)|
  {
    if times == [] {
    } else {
      SinceShrinks(times[..|times| - 1], first, second);
    }
  }

  /** Between matches the incident goes on with the same peak and no higher count. */
  lemma QuietStep(r: Rule, start: int, events: seq<Event>)
    requires Monotone(start, events) && ShouldFire(r, events) && !events[|events| - 1].Matched?
    ensures var init, last := events[..|events| - 1], events[|events| - 1];
            init != [] && ShouldFire(r, init) && IncidentPeak(r, events) == IncidentPeak(r, init) &&
            InWindow(r, events, last.now) <= InWindow(r, init, init[|init| - 1].now)
  {
    var init, last := events[..|events| - 1], events[|events| - 1];
    assert ShouldFire(r, init) && init != [];
    assert Arrivals(events) == Arrivals(init);
    assert init[|init| - 1] == events[|init| - 1];
    SinceShrinks(Arrivals(init), init[|init| - 1].now - Window(r), last.now - Window(r));
  }

  lemma PeakGrows(r: Rule, events: seq<Event>)
    requires ShouldFire(r, events)
    ensures IncidentPeak(r, events[..|events| - 1]) <= IncidentPeak(r, events)
    ensures var last := events[|events| - 1]; last.Matched? ==> InWindow(r, events, last.now) <= IncidentPeak(r, events)
  {}

  lemma {:induction false} PeakBoundsNow(r: Rule, start: int, events: seq<Event>)
    requires Monotone(start, events) && ShouldFire(r, events)
    ensures InWindow(r, events, events[|events| - 1].now) <= IncidentPeak(r, events)
  {
    if events[|events| - 1].Matched? {
      PeakGrows(r, events);
    } else {
      QuietStep(r, start, events);
      MonotonePrefix(start, events);
      PeakBoundsNow(r, start, events[..|events| - 1]);
    }
  }

  /** No window count of the incident is above its peak. */
  lemma {:induction false} PeakBounds(r: Rule, start: int, events: seq<Event>, k: nat)
    requires Monotone(start, events) && FiresFrom(r, events, k)
    ensures InWindow(r, events[..k], events[k - 1].now) <= IncidentPeak(r, events)
  {
    var init := events[..|events| - 1];
    assert ShouldFire(r, events) by { assert events[..|events|] == events; }
    if k < |events| {
      MonotonePrefix(start, events);
      FiresFromPrefix(r, events, k);
      PeakBounds(r, start, init, k);
      assert init[..k] == events[..k];
      PeakGrows(r, events);
    } else {
      assert events[..k] == events;
      PeakBoundsNow(r, start, events);
    }
  }

  lemma FiresFromMore(r: Rule, events: seq<Event>, k: nat)
    requires ShouldFire(r, events) && FiresFrom(r, events[..|events| - 1], k)
    ensures FiresFrom(r, events, k)
  {
    var init := events[..|events| - 1];
    assert events[..|events|] == events;
    assert forall j :: k <= j <= |init| ==> init[..j] == events[..j];
  }

  /** And a match of the incident has the peak for its count. */
  lemma {:induction false} PeakIsAttained(r: Rule, events: seq<Event>) returns (k: nat)
    requires ShouldFire(r, events)
    ensures FiresFrom(r, events, k) && events[k - 1].Matched?
    ensures InWindow(r, events[..k], events[k - 1].now) == IncidentPeak(r, events)
  {
    var n := |events| - 1;
    var init, last := events[..n], events[n];
    if last.Matched? && InWindow(r, events, last.now) >= IncidentPeak(r, init) {
      k := |events|;
      assert events[..k] == events;
    } else {
      assert ShouldFire(r, init) && IncidentPeak(r, events) == IncidentPeak(r, init);
      k := PeakIsAttained(r, init);
      hide ShouldFire, IncidentPeak, InWindow;
      assert init[..k] == events[..k];
      FiresFromMore(r, events, k);
    }
  }

  /** The match that began the current incident. */
  function Began(r: Rule, events: seq<Event>): (e: Event)
    requires ShouldFire(r, events)
    ensures e.Matched?
  {
    var init := events[..|events| - 1];
    if ShouldFire(r, init) then Began(r, init) else events[|events| - 1]
  }

  /** The firing state is a function of the counts alone: while an incident lasts
      it holds the peak, and the time and container of the match that began it. */
  ghost predicate Tracks(r: Rule, s: RuleState, events: seq<Event>) {
    && (s.status == FIRING <==> ShouldFire(r, events)) && s.peak == IncidentPeak(r, events)
    && (s.status == FIRING ==> s.peak >= r.threshold)
    && if ShouldFire(r, events)
       then s.firingSince == Some(Began(r, events).now) && s.container == Began(r, events).container
       else s.firingSince == None && s.container == ""
  }

  lemma StepTracks(r: Rule, s: RuleState, events: seq<Event>)
    requires events != [] && Tracks(r, s, events[..|events| - 1])
    requires var last := events[|events| - 1]; |Apply(r, s, last).0.matches| == InWindow(r, events, last.now)
    ensures Tracks(r, Apply(r, s, events[|events| - 1]).0, events)
  {}

  lemma TracksAtStart(r: Rule, start: int)
    ensures Tracks(r, Run(r, start, []).0, [])
  {}

  /** With a clock that does not go back: FIRING is entered exactly at a
      matching step where the window count reaches the threshold, left exactly at
      a tick where it is below, and the peak is the incident's largest count. */
  lemma {:induction false} FiringIsExact(r: Rule, start: int, events: seq<Event>)
    requires Monotone(start, events) && Window(r) >= 0
    ensures Tracks(r, Run(r, start, events).0, events)
  {
    hide Run, Apply, Since, Arrivals, Monotone, Tracks;
    if events == [] {
      TracksAtStart(r, start);
    } else {
      var init := events[..|events| - 1];
      MonotonePrefix(start, events);
      FiringIsExact(r, start, init);
      RunStep(r, start, events);
      MatchesAreWindow(r, start, events);
      StepTracks(r, Run(r, start, init).0, events);
    }
  }

  // ---- notifications ---------------------------------------------------------------------------------------

  /** The time of the last firing notification. */
  function LastFiring(trace: seq<Notification>): Option<int> {
    if trace == [] then None
    else if trace[|trace| - 1].kind == Firing then Some(trace[|trace| - 1].at)
    else LastFiring(trace[..|trace| - 1])
  }

  /** The last notification is a firing that no resolution has followed. */
  predicate Open(trace: seq<Notification>) {
    trace != [] && trace[|trace| - 1].kind == Firing
  }

  /** firing, resolved, firing, and so on, with firings at least the cooldown apart. */
  ghost predicate Alternates(r: Rule, trace: seq<Notification>) {
    trace != [] ==>
      var init, last := trace[..|trace| - 1], trace[|trace| - 1];
      && Alternates(r, init) && (last.kind == Firing <==> !Open(init))
      && (last.kind == Firing && LastFiring(init).Some? ==> last.at - LastFiring(init).value >= Cooldown(r))
  }

  lemma {:induction false} AlternatesAt(r: Rule, trace: seq<Notification>, i: nat)
    requires Alternates(r, trace) && i < |trace|
    ensures trace[i].kind == Firing <==> i % 2 == 0
    ensures i >= 2 && trace[i].kind == Firing ==> trace[i].at - trace[i - 2].at >= Cooldown(r)
  {
    var init := trace[..|trace| - 1];
    if i < |init| {
      AlternatesAt(r, init, i);
    } else if i > 0 {
      AlternatesAt(r, init, i - 1);
      if i > 1 {
        AlternatesAt(r, init, i - 2);
        LastFiringOfPair(init);
      }
    }
  }

  lemma LastFiringOfPair(trace: seq<Notification>)
    requires |trace| >= 2
    ensures trace[|trace| - 1].kind == Resolved && trace[|trace| - 2].kind == Firing
            ==> LastFiring(trace) == Some(trace[|trace| - 2].at)
  {}

  /** What the state remembers of the notifications. */
  ghost predicate Books(r: Rule, s: RuleState, trace: seq<Notification>) {
    && Alternates(r, trace) && s.lastFiredAt == LastFiring(trace)
    && (s.sent <==> Open(trace)) && (s.sent ==> s.status == FIRING)
  }

  lemma ApplyBooks(r: Rule, s: RuleState, trace: seq<Notification>, e: Event)
    requires Books(r, s, trace)
    ensures Books(r, Apply(r, s, e).0, trace + Emitted(Apply(r, s, e).1))
  {
    hide TrimFrom;
    var n := Apply(r, s, e).1;
    assert trace + [] == trace;
    if n.Some? {
      assert (trace + [n.value])[..|trace|] == trace;
    }
  }

  /** Absent edits and restarts the notifications alternate strictly, beginning
      with firing, and firings keep the cooldown. An incident that began within
      the cooldown sends neither. */
  lemma {:induction false} NotificationsAlternate(r: Rule, start: int, events: seq<Event>)
    ensures Books(r, Run(r, start, events).0, Run(r, start, events).1)
  {
    if events == [] {
    } else {
      var (s, trace) := Run(r, start, events[..|events| - 1]);
      NotificationsAlternate(r, start, events[..|events| - 1]);
      ApplyBooks(r, s, trace, events[|events| - 1]);
    }
  }

  lemma SilentApply(r: Rule, s: RuleState, e: Event)
    requires s.status == FIRING && !s.sent
    ensures Apply(r, s, e).1 == None && !Apply(r, s, e).0.sent
  {}

  lemma SilentStep(r: Rule, start: int, events: seq<Event>, m: nat)
    requires m < |events| && Run(r, start, events[..m]).0.status == FIRING && !Run(r, start, events[..m]).0.sent
    ensures Run(r, start, events[..m + 1]).1 == Run(r, start, events[..m]).1 && !Run(r, start, events[..m + 1]).0.sent
  {
    hide Apply;
    var (s, trace) := Run(r, start, events[..m]);
    SilentApply(r, s, events[m]);
    assert events[..m + 1][..m] == events[..m];
    assert trace + [] == trace;
  }

  /** While an incident lasts whose firing was not sent, nothing is sent; its end
      is silent too. */
  lemma {:induction false} SuppressedIncidentIsSilent(r: Rule, start: int, events: seq<Event>, i: nat, n: nat)
    requires i <= n <= |events|
    requires !Run(r, start, events[..i]).0.sent
    requires forall k :: i <= k < n ==> Run(r, start, events[..k]).0.status == FIRING
    ensures Run(r, start, events[..n]).1 == Run(r, start, events[..i]).1 && !Run(r, start, events[..n]).0.sent
  {
    hide Run;
    if i == n {
    } else {
      var m := n - 1;
      SuppressedIncidentIsSilent(r, start, events, i, m);
      SilentStep(r, start, events, m);
    }
  }

  /** When a notification is due, and what it reports. A firing is due when an
      incident begins and the last firing is the cooldown ago: it has the count that
      reached the threshold, and the time and container of this match. A resolution
      is due when an incident ends whose firing was sent: it has the peak of the
      incident, and the time and container of the match that began it. */
  ghost predicate ReportsIn(r: Rule, s: RuleState, trace: seq<Notification>, events: seq<Event>, e: Event) {
    var all := events + [e];
    var begins := !ShouldFire(r, events) && ShouldFire(r, all);
    var ends := ShouldFire(r, events) && !ShouldFire(r, all);
    var count := InWindow(r, all, e.now);
    var cooled := LastFiring(trace).None? || e.now - LastFiring(trace).value >= Cooldown(r);
    match Apply(r, s, e).1
    case None => !(begins && cooled) && !(ends && Open(trace))
    case Some(n) =>
      && n.at == e.now && n.value == count
      && if n.kind == Firing then
           && begins && cooled && e.Matched? && n.peak == count >= r.threshold
           && n.startedAt == Some(e.now) && n.container == e.container
         else
           && ends && Open(trace) && count < r.threshold && n.peak == IncidentPeak(r, events)
           && n.startedAt == Some(Began(r, events).now) && n.container == Began(r, events).container
  }

  /** The state that tracks the counts and the notifications so far reports them. */
  lemma TrackedReports(r: Rule, s: RuleState, trace: seq<Notification>, events: seq<Event>, e: Event)
    requires Tracks(r, s, events) && s.lastFiredAt == LastFiring(trace) && (s.sent <==> Open(trace))
    requires |Apply(r, s, e).0.matches| == InWindow(r, events + [e], e.now)
    ensures ReportsIn(r, s, trace, events, e)
  {
    hide Since, Arrivals, IncidentPeak, TrimFrom, Began, LastFiring, Open, Cooldown, InWindow;
    var all := events + [e];
    assert all[..|events|] == events;
    assert ShouldFire(r, all) <==> match e
                                   case Matched(_, _) => ShouldFire(r, events) || InWindow(r, all, e.now) >= r.threshold
                                   case Tick(_) => ShouldFire(r, events) && InWindow(r, all, e.now) >= r.threshold
                                   case Listed(_) => ShouldFire(r, events);
  }

  ghost predicate Reports(r: Rule, start: int, events: seq<Event>, e: Event) {
    var (s, trace) := Run(r, start, events);
    ReportsIn(r, s, trace, events, e)
  }

  lemma NotificationsReport(r: Rule, start: int, events: seq<Event>, e: Event)
    requires Monotone(start, events + [e]) && Window(r) >= 0
    ensures Reports(r, start, events, e)
  {
    hide Monotone, Run, Since, Arrivals, ShouldFire, ReportsIn, Tracks, Alternates, LastFiring, Open;
    var all := events + [e];
    assert all[..|events|] == events;
    MonotonePrefix(start, all);
    FiringIsExact(r, start, events);
    MatchesAreWindow(r, start, all);
    RunStep(r, start, all);
    NotificationsAlternate(r, start, events);
    TrackedReports(r, Run(r, start, events).0, Run(r, start, events).1, events, e);
  }
}
