/** When trimming a text leaves its parts as they are. */
module QueryTrims {
  import opened Text
  import opened QueryScan
  import opened QueryLaws

  // ---- the number of parts ------------------------------------------------------

  /** It depends on where the walk is, not on where the part began. */
  lemma {:induction false} PartsFrom(s: string, operator: string, a: nat, b: nat, index: nat)
    requires Keyword(operator) && a <= index && b <= index <= |s|
    ensures |SplitFrom(s, operator, a, index)| == |SplitFrom(s, operator, b, index)|
    decreases |s| - index
  {
    if index + |operator| > |s| || OperatorAt(s, operator, index) {
    } else {
      PartsFrom(s, operator, a, b, index + 1);
    }
  }

  /** The letters of an operator are no boundary, so no operator begins among them. */
  lemma InsideOperator(s: string, operator: string, i: nat, k: nat)
    requires Keyword(operator) && OperatorAt(s, operator, i) && i < k < i + |operator|
    ensures !OperatorAt(s, operator, k)
  {
    var word := s[i..i + |operator|];
    assert Lower(word[k - 1 - i]) == Lower(operator[k - 1 - i]) && s[k - 1] == word[k - 1 - i];
  }

  lemma {:induction false} PartsShifted(c: char, t: string, operator: string, a: nat, b: nat, i: nat)
    requires Keyword(operator) && IsSpace(c) && 1 <= i <= |t| && a <= 1 + i && b <= i
    ensures |SplitFrom([c] + t, operator, a, 1 + i)| == |SplitFrom(t, operator, b, i)|
    decreases |t| - i
  {
    hide Trim, OperatorAt;
    var w := |operator|;
    if i + w > |t| {
    } else {
      OperatorSpaceLeft(c, t, operator, i);
      if OperatorAt(t, operator, i) {
        PartsShifted(c, t, operator, 1 + i + w, i + w, i + w);
      } else {
        PartsShifted(c, t, operator, a, b, i + 1);
      }
    }
  }

  /** An operator that such a space hides is one part more without the space. */
  lemma HiddenLeft(c: char, t: string, operator: string)
    requires Keyword(operator) && IsSpace(c) && OperatorAt(t, operator, 0) && !Boundary(c)
    ensures |Split(t, operator)| == |Split([c] + t, operator)| + 1
  {
    hide Trim, Boundary, ScanOver, EqualFold;
    var s, w := [c] + t, |operator|;
    SpaceIsNoOperator(c, t, operator);
    OperatorSpaceLeft(c, t, operator, 0);
    SplitSkip(s, operator, 0, 0);
    SplitSkip(s, operator, 0, 1);
    PartsShifted(c, t, operator, 0, 0, 1);
    InsideOperator(t, operator, 0, 1);
    if w == 3 {
      InsideOperator(t, operator, 0, 2);
      if 1 + w <= |t| { SplitSkip(t, operator, 0, 1); }
      if 2 + w <= |t| { SplitSkip(t, operator, 0, 2); }
    } else {
      if 1 + w <= |t| { SplitSkip(t, operator, 0, 1); }
    }
    PartsFrom(t, operator, 0, w, w);
    SplitCut(t, operator, 0, 0, []);
  }

  predicate EndsWith(t: string, operator: string) {
    |t| >= |operator| && OperatorAt(t, operator, |t| - |operator|)
  }

  lemma {:induction false} PartsHiddenRight(t: string, c: char, operator: string, start: nat, i: nat)
    requires Keyword(operator) && IsSpace(c) && !Boundary(c) && EndsWith(t, operator)
    requires start <= i <= |t| - |operator|
    ensures |SplitFrom(t, operator, start, i)| == |SplitFrom(t + [c], operator, start, i)| + 1
    decreases |t| - i
  {
    var s, w, last := t + [c], |operator|, |t| - |operator|;
    OperatorSpaceRight(t, c, operator, i);
    if i < last {
      if OperatorAt(t, operator, i) {
        if last < i + w {
          InsideOperator(t, operator, i, last);
        }
        PartsHiddenRight(t, c, operator, i + w, i + w);
      } else {
        PartsHiddenRight(t, c, operator, start, i + 1);
      }
    } else {
      OperatorSpaceRight(t, c, operator, last + 1);
      SplitSkip(s, operator, start, last);
      SplitSkip(s, operator, start, last + 1);
    }
  }

  /** The same at the other end. */
  lemma HiddenRight(t: string, c: char, operator: string)
    requires Keyword(operator) && IsSpace(c) && !Boundary(c) && EndsWith(t, operator)
    ensures |Split(t, operator)| == |Split(t + [c], operator)| + 1
  {
    PartsHiddenRight(t, c, operator, 0, 0);
  }

  // ---- trimming -------------------------------------------------------------------

  /** An operator that comes to the front when the text is trimmed stood behind a
      boundary. */
  predicate LeftClean(r: string, operator: string) {
    var t := TrimLeft(r);
    TrimLeftParts(r);
    OperatorAt(t, operator, 0) && |t| < |r| ==> Boundary(r[|r| - |t| - 1])
  }

  /** An operator that comes to the end stood before a boundary. */
  predicate RightClean(r: string, operator: string) {
    var t := TrimRight(r);
    TrimRightParts(r);
    |t| < |r| && EndsWith(t, operator) ==> Boundary(r[|t|])
  }

  lemma LetterIsNoSpace(c: char, letter: char)
    requires Lower(c) == Lower(letter) && 'A' <= letter <= 'Z'
    ensures !IsSpace(c)
  {}

  lemma FirstLetter(t: string, operator: string)
    requires Keyword(operator) && OperatorAt(t, operator, 0)
    ensures t != "" && !IsSpace(t[0])
  {
    assert t[0..|operator|][0] == t[0];
    LetterIsNoSpace(t[0], operator[0]);
  }

  lemma LastLetter(t: string, operator: string)
    requires Keyword(operator) && EndsWith(t, operator)
    ensures t != "" && !IsSpace(t[|t| - 1])
  {
    var n := |operator| - 1;
    assert t[|t| - |operator|..|t|][n] == t[|t| - 1];
    LetterIsNoSpace(t[|t| - 1], operator[n]);
  }

  lemma TrimSpace(c: char, t: string)
    requires IsSpace(c)
    ensures TrimLeft([c] + t) == TrimLeft(t) && TrimRight(t + [c]) == TrimRight(t)
  {
    assert ([c] + t)[1..] == t && (t + [c])[..|t|] == t;
  }

  lemma SpaceInFront(c: char, t: string)
    ensures var r, u := [c] + t, TrimLeft(t);
            |u| <= |t| && (|u| == |t| ==> u == t) && r[|r| - |u| - 1] == if |u| == |t| then c else t[|t| - |u| - 1]
  {
    TrimLeftParts(t);
  }

  lemma SpaceBehind(t: string, c: char)
    ensures var r, u := t + [c], TrimRight(t);
            |u| <= |t| && (|u| == |t| ==> u == t) && r[|u|] == if |u| == |t| then c else t[|u|]
  {
    TrimRightParts(t);
  }

  lemma OperatorFirst(t: string, operator: string)
    requires Keyword(operator) && OperatorAt(t, operator, 0)
    ensures TrimLeft(t) == t
  {
    FirstLetter(t, operator);
  }

  lemma OperatorLast(t: string, operator: string)
    requires Keyword(operator) && EndsWith(t, operator)
    ensures TrimRight(t) == t
  {
    LastLetter(t, operator);
  }

  /** Only the space next to the trimmed text counts. */
  lemma LeftCleanStep(c: char, t: string, operator: string)
    requires Keyword(operator) && IsSpace(c)
    ensures LeftClean([c] + t, operator)
       <==> LeftClean(t, operator) && (OperatorAt(t, operator, 0) ==> Boundary(c))
    ensures OperatorAt(t, operator, 0) ==> TrimLeft(t) == t
    ensures TrimLeft([c] + t) == TrimLeft(t)
  {
    TrimSpace(c, t);
    SpaceInFront(c, t);
    if OperatorAt(t, operator, 0) {
      OperatorFirst(t, operator);
    }
  }

  lemma {:induction false} SplitTrimLeft(r: string, operator: string)
    requires Keyword(operator)
    ensures LeftClean(r, operator) ==> Split(TrimLeft(r), operator) == Split(r, operator)
    ensures !LeftClean(r, operator) ==> |Split(TrimLeft(r), operator)| > |Split(r, operator)|
  {
    hide SplitFrom, OperatorAt, Boundary;
    if r == "" || !IsSpace(r[0]) {
    } else {
      var c, t := r[0], r[1..];
      assert r == [c] + t;
      LeftCleanStep(c, t, operator);
      SplitTrimLeft(t, operator);
      if OperatorAt(t, operator, 0) && !Boundary(c) {
        HiddenLeft(c, t, operator);
      } else {
        SplitSpaceLeft(c, t, operator);
      }
    }
  }

  lemma RightCleanStep(t: string, c: char, operator: string)
    requires Keyword(operator) && IsSpace(c)
    ensures RightClean(t + [c], operator)
       <==> RightClean(t, operator) && (EndsWith(t, operator) ==> Boundary(c))
    ensures EndsWith(t, operator) ==> TrimRight(t) == t
    ensures TrimRight(t + [c]) == TrimRight(t)
  {
    TrimSpace(c, t);
    SpaceBehind(t, c);
    if EndsWith(t, operator) {
      OperatorLast(t, operator);
    }
  }

  lemma {:induction false} SplitTrimRight(r: string, operator: string)
    requires Keyword(operator)
    ensures RightClean(r, operator) ==> Split(TrimRight(r), operator) == Split(r, operator)
    ensures !RightClean(r, operator) ==> |Split(TrimRight(r), operator)| > |Split(r, operator)|
  {
    hide SplitFrom, OperatorAt, Boundary;
    if r == "" || !IsSpace(r[|r| - 1]) {
    } else {
      var c, t := r[|r| - 1], r[..|r| - 1];
      assert r == t + [c];
      RightCleanStep(t, c, operator);
      SplitTrimRight(t, operator);
      if EndsWith(t, operator) && !Boundary(c) {
        HiddenRight(t, c, operator);
      } else {
        SplitSpaceRight(t, c, operator);
      }
    }
  }

  /** Trimming leaves the parts as they are exactly when it frees no operator at
      either end. */
  lemma TrimKeepsParts(r: string, operator: string)
    requires Keyword(operator)
    ensures Split(Trim(r), operator) == Split(r, operator)
       <==> LeftClean(r, operator) && RightClean(TrimLeft(r), operator)
  {
    SplitTrimLeft(r, operator);
    SplitTrimRight(TrimLeft(r), operator);
  }

  // ---- trimming joined text ------------------------------------------------------------

  ghost predicate Clean(r: string, operator: string) {
    LeftClean(r, operator) && RightClean(TrimLeft(r), operator)
  }

  lemma {:induction false} TrimLeftConcat(a: string, b: string)
    ensures TrimLeft(a + b) == if TrimLeft(a) == "" then TrimLeft(b) else TrimLeft(a) + b
  {
    if a == "" {
      assert a + b == b;
    } else if IsSpace(a[0]) {
      TrimLeftConcat(a[1..], b);
      assert (a + b)[1..] == a[1..] + b;
    }
  }

  lemma {:induction false} TrimRightConcat(a: string, b: string)
    ensures TrimRight(a + b) == if TrimRight(b) == "" then TrimRight(a) else a + TrimRight(b)
  {
    if b == "" {
      assert a + b == a;
    } else if IsSpace(b[|b| - 1]) {
      TrimRightConcat(a, b[..|b| - 1]);
      assert (a + b)[..|a + b| - 1] == a + b[..|b| - 1];
    }
  }

  /** The order of the two trims does not matter. */
  lemma {:induction false} TrimEitherWay(s: string)
    ensures TrimLeft(TrimRight(s)) == Trim(s)
  {
    if s == "" {
    } else {
      var t, c := s[..|s| - 1], s[|s| - 1];
      assert s == t + [c];
      TrimLeftConcat(t, [c]);
      if IsSpace(c) {
        TrimEitherWay(t);
        TrimRightConcat(TrimLeft(t), [c]);
        TrimSpace(c, "");
        assert [c] == [c] + "" && "" + [c] == [c];
      } else {
        TrimRightConcat(TrimLeft(t), [c]);
      }
    }
  }

  /** A clean text is clean at its end, trimmed in front or not. */
  lemma CleanRight(r: string, operator: string)
    requires Keyword(operator) && Clean(r, operator)
    ensures RightClean(r, operator)
  {
    TrimKeepsParts(r, operator);
    TrimEitherWay(r);
    SplitTrimRight(r, operator);
    SplitTrimLeft(TrimRight(r), operator);
  }

  lemma GlueFront(operator: string, b: string)
    requires Keyword(operator)
    ensures TrimLeft(Glue(operator) + b) == (Glue(operator) + b)[1..]
  {
    var tail := Glue(operator) + b;
    assert tail[0] == ' ' && tail[1] == operator[0] && !IsSpace(tail[1]);
  }

  /** White space in front of the operator is cut off, the blank before it stays a boundary. */
  lemma LeftCleanBlank(a: string, other: string, b: string, operator: string)
    requires Keyword(operator) && Keyword(other) && TrimLeft(a) == ""
    ensures LeftClean(Joined(a, other, b), operator) && LeftClean(a, operator)
  {
    hide ScanOver, TrimLeft;
    var tail := Glue(other) + b;
    var r := a + tail;
    TrimLeftConcat(a, tail);
    GlueFront(other, b);
    assert r[|r| - |tail[1..]| - 1] == ' ';
    assert Joined(a, other, b) == r;
  }

  lemma CharBefore(a: string, t: string, tail: string)
    requires |t| < |a|
    ensures (a + tail)[|a + tail| - |t + tail| - 1] == a[|a| - |t| - 1]
  {
    assert |a + tail| - |t + tail| == |a| - |t|;
  }

  lemma FrontOf(a: string, tail: string)
    requires TrimLeft(a) != ""
    ensures var t, r := TrimLeft(a), a + tail;
            TrimLeft(r) == t + tail && |t| <= |a| && (|t| < |a| ==> r[|r| - |t + tail| - 1] == a[|a| - |t| - 1])
  {
    hide TrimLeft;
    assert |TrimLeft(a)| <= |a| by { TrimLeftParts(a); }
    TrimLeftConcat(a, tail);
    if |TrimLeft(a)| < |a| {
      CharBefore(a, TrimLeft(a), tail);
    }
  }

  lemma LeftCleanText(a: string, other: string, b: string, operator: string)
    requires Keyword(operator) && Keyword(other) && TrimLeft(a) != ""
    ensures LeftClean(Joined(a, other, b), operator) <==> LeftClean(a, operator)
  {
    hide TrimLeft, OperatorAt, Glue, Joined;
    var t, tail := TrimLeft(a), Glue(other) + b;
    var u := t + tail;
    assert OperatorAt(u, operator, 0) <==> OperatorAt(t, operator, 0) by {
      JoinedTail(t, other, b);
      OperatorInLeft(t, other, operator, b, 0);
    }
    JoinedTail(a, other, b);
    FrontOf(a, tail);
  }

  lemma JoinedTail(a: string, operator: string, b: string)
    ensures Joined(a, operator, b) == a + (Glue(operator) + b)
  {}

  lemma LeftCleanJoined(a: string, other: string, b: string, operator: string)
    requires Keyword(operator) && Keyword(other)
    ensures LeftClean(Joined(a, other, b), operator) <==> LeftClean(a, operator)
  {
    if TrimLeft(a) == "" {
      LeftCleanBlank(a, other, b, operator);
    } else {
      LeftCleanText(a, other, b, operator);
    }
  }

  lemma {:induction false} FreshTrimmed(p: string)
    requires Fresh(p) && |p| >= 2 && !IsSpace(p[|p| - 2])
    ensures var q := TrimLeft(p); Fresh(q) && |q| >= 2 && !IsSpace(q[|q| - 2])
  {
    if !IsSpace(p[0]) {
    } else {
      var c, t := p[0], p[1..];
      assert p == [c] + t;
      ScanSpace(c);
      ScanConcat(START, [c], t);
      FreshTrimmed(t);
    }
  }

  lemma OperatorHasNoSpace(s: string, operator: string, i: nat, k: nat)
    requires Keyword(operator) && OperatorAt(s, operator, i) && i <= k < i + |operator|
    ensures !IsSpace(s[k])
  {
    assert s[i..i + |operator|][k - i] == s[k];
    LetterIsNoSpace(s[k], operator[k - i]);
  }

  lemma NoOperatorOverSpace(q: string, u: string, operator: string)
    requires Keyword(operator) && q != "" && IsSpace(q[|q| - 1]) && u != "" && EndsWith(q + u, operator)
    ensures |u| >= |operator|
  {
    var s := q + u;
    assert s[|q| - 1] == q[|q| - 1];
    if |u| < |operator| {
      OperatorHasNoSpace(s, operator, |s| - |operator|, |q| - 1);
    }
  }

  lemma FreshEnd(q: string)
    requires Fresh(q) && |q| >= 2 && !IsSpace(q[|q| - 2])
    ensures TrimRight(q) == q[..|q| - 1]
  {}

  lemma RightCleanFresh(q: string, b: string, operator: string)
    requires Keyword(operator) && Fresh(q) && |q| >= 2 && !IsSpace(q[|q| - 2]) && RightClean(b, operator)
    ensures RightClean(q + b, operator)
  {
    hide TrimRight, ScanOver, OperatorAt;
    var r, u := q + b, TrimRight(b);
    TrimRightParts(b);
    TrimRightConcat(q, b);
    if u == "" {
      FreshEnd(q);
      assert r[|q| - 1] == q[|q| - 1];
    } else {
      if |u| >= |operator| {
        OperatorShift(q, u, operator, |u| - |operator|);
      } else if EndsWith(q + u, operator) {
        NoOperatorOverSpace(q, u, operator);
      }
      if |u| < |b| {
        assert r[|q + u|] == b[|u|];
      }
    }
  }

  /** Joined text is clean when its ends are. */
  lemma {:induction false} CleanJoined(a: string, other: string, b: string, operator: string)
    requires Keyword(operator) && Keyword(other) && Closed(a) && LeftClean(a, operator) && Clean(b, operator)
    ensures Clean(Joined(a, other, b), operator)
  {
    hide OperatorAt, LeftClean, RightClean, TrimLeft, ScanOver;
    var p := a + Glue(other);
    GlueIsFresh(a, other);
    LeftCleanJoined(a, other, b, operator);
    CleanRight(b, operator);
    var n := |other|;
    assert p[|p| - 2] == other[n - 1];
    FreshTrimmed(p);
    TrimLeftConcat(p, b);
    RightCleanFresh(TrimLeft(p), b, operator);
    assert Joined(a, other, b) == p + b;
  }

  lemma TrimmedIsClean(t: string, operator: string)
    requires Trimmed(t)
    ensures Clean(t, operator)
  {}

  // ---- plain blanks -----------------------------------------------------------------------

  /** Spaces, tabs and newlines only. */
  predicate Plainly(s: string) {
    forall i :: 0 <= i < |s| ==> Boundary(s[i])
  }

  lemma {:induction false} PlainLeft(blank: string, t: string, operator: string)
    requires Keyword(operator) && Plainly(blank) && LeftClean(t, operator)
    ensures LeftClean(blank + t, operator) && TrimLeft(blank + t) == TrimLeft(t)
  {
    if blank == "" {
      assert blank + t == t;
    } else {
      PlainLeft(blank[1..], t, operator);
      LeftCleanStep(blank[0], blank[1..] + t, operator);
      assert blank + t == [blank[0]] + (blank[1..] + t);
    }
  }

  lemma {:induction false} PlainRight(t: string, blank: string, operator: string)
    requires Keyword(operator) && Plainly(blank) && RightClean(t, operator)
    ensures RightClean(t + blank, operator)
  {
    if blank == "" {
      assert t + blank == t;
    } else {
      var n := |blank| - 1;
      PlainRight(t, blank[..n], operator);
      RightCleanStep(t + blank[..n], blank[n], operator);
      assert t + blank == (t + blank[..n]) + [blank[n]];
    }
  }

  lemma PlainEnd(t: string, right: string, operator: string)
    requires Keyword(operator) && Plainly(right) && Trimmed(t)
    ensures Clean(t + right, operator)
  {
    hide OperatorAt;
    TrimmedIsClean(t, operator);
    PlainRight(t, right, operator);
    TrimLeftConcat(t, right);
    BlankTrims(right);
    if t == "" {
      PlainLeft(right, "", operator);
      assert "" + right == right == right + "";
    }
  }

  /** Spaces, tabs and newlines around a trimmed text never matter. */
  lemma {:induction false} PlainBlanksKeepParts(left: string, t: string, right: string, operator: string)
    requires Keyword(operator) && Plainly(left) && Plainly(right) && Trimmed(t)
    ensures Clean(left + t + right, operator) &&
            Split(Trim(left + t + right), operator) == Split(left + t + right, operator)
  {
    hide LeftClean, RightClean, TrimLeft, Split, Plainly;
    PlainEnd(t, right, operator);
    PlainLeft(left, t + right, operator);
    assert left + t + right == left + (t + right);
    TrimKeepsParts(left + (t + right), operator);
  }

  lemma {:induction false} BlankTrims(blank: string)
    requires Plainly(blank)
    ensures TrimLeft(blank) == ""
  {
    if blank == "" {
    } else {
      BlankTrims(blank[1..]);
    }
  }
}
