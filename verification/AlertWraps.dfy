/** Rules whose bounds wrapped around: which are accepted, and what still holds
    of them. */
module AlertWraps {
  import opened Options
  import opened Alerts

  // ---- accepted rules -------------------------------------------------------------------------

  lemma WrapOnce(x: int)
    requires TWO63 <= x < 3 * TWO63
    ensures Wrap64(x) == x - 2 * TWO63
  {}

  /** A window of 9223372037 seconds wraps to a negative one and is accepted. */
  lemma WrappedWindowIsAccepted()
    ensures var r := Rule(1, 9_223_372_037, 0, true); WithinBounds(r) && Window(r) < 0
  {
    WrapOnce(9_223_372_037 * SECOND);
  }

  const EAGER := Rule(1, 1, 9_223_372_037, true)

  lemma EagerBounds()
    ensures WithinBounds(EAGER) && Window(EAGER) == SECOND && Cooldown(EAGER) < 0
  {
    WrapOnce(9_223_372_037 * SECOND);
  }

  /** It fires, resolves and would fire again a second later. */
  lemma EagerSteps()
    ensures var (s, m) := Apply(EAGER, FreshState(0), Matched(0, ""));
            var (t, n) := Apply(EAGER, s, Tick(2 * SECOND));
            m.Some? && m.value.kind == Firing && m.value.at == 0 && n.Some? && n.value.kind == Resolved &&
            t.status == OK && t.matches == [] && t.lastFiredAt == Some(0)
  {
    EagerBounds();
    assert Apply(EAGER, FreshState(0), Matched(0, "")).0.matches == [0];
    assert [0][1..] == [] && TrimFrom([0], SECOND) == [];
  }

  lemma EagerAgain(t: RuleState)
    requires t.status == OK && t.matches == [] && t.lastFiredAt == Some(0)
    ensures var o := Apply(EAGER, t, Matched(3 * SECOND, "")).1;
            o.Some? && o.value.kind == Firing && o.value.at == 3 * SECOND
  {
    EagerBounds();
  }

  function EagerEvents(): seq<Event> {
    [Matched(0, ""), Tick(2 * SECOND), Matched(3 * SECOND, "")]
  }

  lemma ThreeEvents(r: Rule, start: int, a: Event, b: Event, c: Event)
    ensures var (s, m) := Apply(r, FreshState(start), a);
            var (t, n) := Apply(r, s, b);
            var (u, o) := Apply(r, t, c);
            Run(r, start, [a, b, c]) == (u, Emitted(m) + Emitted(n) + Emitted(o))
  {
    var events := [a, b, c];
    assert events[..2] == [a, b] && [a, b][..1] == [a] && [a][..0] == [];
    assert Run(r, start, []) == (FreshState(start), []);
    var (s, m) := Apply(r, FreshState(start), a);
    assert Run(r, start, [a]) == (s, [] + Emitted(m));
    assert [] + Emitted(m) == Emitted(m);
  }

  /** A cooldown of 9223372037 seconds is accepted too, and two firings three
      seconds apart are sent. */
  lemma WrappedCooldownIsAccepted()
    ensures WithinBounds(EAGER) && Cooldown(EAGER) < 0 && Monotone(0, EagerEvents())
    ensures var trace := Run(EAGER, 0, EagerEvents()).1;
            |trace| == 3 && trace[0].kind == trace[2].kind == Firing && trace[2].at - trace[0].at == 3 * SECOND
  {
    EagerBounds();
    EagerSteps();
    hide Apply, Run, Window, Cooldown;
    var a, b, c := Matched(0, ""), Tick(2 * SECOND), Matched(3 * SECOND, "");
    ThreeEvents(EAGER, 0, a, b, c);
    EagerAgain(Apply(EAGER, Apply(EAGER, FreshState(0), a).0, b).0);
  }

  // ---- a negative window ----------------------------------------------------------------------

  /** Every stored match is before the cutoff of a negative window. */
  lemma {:induction false} SinceNone(times: seq<int>, cutoff: int)
    requires forall i :: 0 <= i < |times| ==> times[i] < cutoff
    ensures Since(times, cutoff) == []
  {
    if times == [] {
    } else {
      SinceNone(times[..|times| - 1], cutoff);
    }
  }

  lemma {:induction false} ArrivalsUpTo(events: seq<Event>, now: int)
    requires forall i :: 0 <= i < |events| ==> events[i].now <= now
    ensures forall i :: 0 <= i < |Arrivals(events)| ==> Arrivals(events)[i] <= now
  {
    if events == [] {
    } else {
      ArrivalsUpTo(events[..|events| - 1], now);
    }
  }

  /** The window is empty at every event. */
  lemma NothingInWindow(r: Rule, start: int, events: seq<Event>)
    requires Monotone(start, events) && events != [] && Window(r) < 0
    ensures InWindow(r, events, events[|events| - 1].now) == 0
  {
    var now := events[|events| - 1].now;
    assert forall i :: 0 <= i < |events| ==> events[i].now <= now;
    ArrivalsUpTo(events, now);
    SinceNone(Arrivals(events), now - Window(r));
  }

  /** One match of such a rule is stored. */
  lemma OneMatchRun(r: Rule, start: int)
    ensures var events := [Matched(start, "")];
            Run(r, start, events).0 == OnMatch(r, FreshState(start), start, "").0 &&
            Run(r, start, events).0.matches == [start] && LastTime(start, events) == start
  {
    assert [Matched(start, "")][..0] == [];
    assert [] + [start] == [start];
  }

  /** And is not in the window. */
  lemma OneMatchStored(r: Rule, start: int)
    requires Window(r) < 0
    ensures var events := [Matched(start, "")];
            Monotone(start, events) && Run(r, start, events).0 == OnMatch(r, FreshState(start), start, "").0 &&
            Run(r, start, events).0.matches == [start] && InWindow(r, events, start) == 0 &&
            Since(Arrivals(events), LastTime(start, events) - Window(r)) == []
  {
    hide Run, OnMatch, Since, Arrivals, Window;
    OneMatchRun(r, start);
    NothingInWindow(r, start, [Matched(start, "")]);
  }

  /** The stored matches are the arrivals of the window over every run exactly
      when the window is not negative. */
  lemma WindowIsExactly(r: Rule)
    ensures (forall start: int, events :: Monotone(start, events) ==> Windowed(r, start, events)) <==>
            Window(r) >= 0
  {
    if Window(r) >= 0 {
      forall start: int, events | Monotone(start, events) ensures Windowed(r, start, events) {
        MatchesAreWindow(r, start, events);
      }
    } else {
      OneMatchStored(r, 0);
      assert !Windowed(r, 0, [Matched(0, "")]);
    }
  }

  /** A rule with a negative window never holds more than the match just made. */
  ghost predicate Idle(s: RuleState, now: int) {
    && s.status == OK && s.peak == 0 && s.firingSince == None && s.container == ""
    && |s.matches| <= 1 && (|s.matches| == 1 ==> s.matches[0] <= now)
  }

  lemma IdleStep(r: Rule, s: RuleState, now: int, e: Event)
    requires Window(r) < 0 && r.threshold >= 2 && Idle(s, now) && now <= e.now
    ensures Idle(Apply(r, s, e).0, e.now) && Apply(r, s, e).1 == None
  {
    MatchesStep(r, s, e);
    assert TrimFrom(s.matches, e.now - Window(r)) == [] by {
      if |s.matches| == 1 {
        assert s.matches[1..] == [];
      }
    }
  }

  lemma {:induction false} StaysIdle(r: Rule, start: int, events: seq<Event>)
    requires Window(r) < 0 && r.threshold >= 2 && Monotone(start, events)
    ensures Idle(Run(r, start, events).0, LastTime(start, events)) && !ShouldFire(r, events)
  {
    if events == [] {
    } else {
      var init, last := events[..|events| - 1], events[|events| - 1];
      MonotonePrefix(start, events);
      StaysIdle(r, start, init);
      RunStep(r, start, events);
      IdleStep(r, Run(r, start, init).0, LastTime(start, init), last);
      NothingInWindow(r, start, events);
    }
  }

  /** With a negative window an accepted rule fires at its first match when its
      threshold is one, though nothing is in the window, and never otherwise. */
  predicate CountsOrIdles(r: Rule) {
    Window(r) >= 0 || r.threshold >= 2
  }

  /** The firing state follows the window counts over every run exactly for the
      rules that count their window or never fire. */
  lemma FiringIsExactly(r: Rule)
    requires WithinBounds(r)
    ensures (forall start: int, events :: Monotone(start, events) ==> Tracks(r, Run(r, start, events).0, events))
       <==> CountsOrIdles(r)
  {
    if CountsOrIdles(r) {
      forall start: int, events | Monotone(start, events) ensures Tracks(r, Run(r, start, events).0, events) {
        if Window(r) >= 0 {
          FiringIsExact(r, start, events);
        } else {
          StaysIdle(r, start, events);
        }
      }
    } else {
      FiresUncounted(r);
    }
  }

  lemma FiresUncounted(r: Rule)
    requires WithinBounds(r) && !CountsOrIdles(r)
    ensures var events := [Matched(0, "")];
            Monotone(0, events) && !Tracks(r, Run(r, 0, events).0, events) && !Reports(r, 0, [], events[0])
  {
    var events := [Matched(0, "")];
    OneMatchStored(r, 0);
    NothingInWindow(r, 0, events);
    assert events[..0] == [] && [] + [events[0]] == events;
    assert Run(r, 0, events).0.status == FIRING;
    assert !ShouldFire(r, events);
    assert Apply(r, Run(r, 0, []).0, events[0]).1.Some?;
  }

  /** The same rules are those whose notifications report the window counts. */
  lemma ReportsExactly(r: Rule)
    requires WithinBounds(r)
    ensures (forall start: int, events, e :: Monotone(start, events + [e]) ==> Reports(r, start, events, e))
       <==> CountsOrIdles(r)
  {
    hide Monotone, Run, Apply, Idle, WithinBounds;
    if CountsOrIdles(r) {
      forall start: int, events, e | Monotone(start, events + [e]) ensures Reports(r, start, events, e) {
        if Window(r) >= 0 {
          NotificationsReport(r, start, events, e);
        } else {
          var all := events + [e];
          assert all[..|events|] == events;
          MonotonePrefix(start, all);
          StaysIdle(r, start, events);
          StaysIdle(r, start, all);
          IdleStep(r, Run(r, start, events).0, LastTime(start, events), e);
        }
      }
    } else {
      FiresUncounted(r);
      assert [] + [Matched(0, "")] == [Matched(0, "")];
    }
  }
}
