/** What the splitter does to text joined by an operator. */
module QueryLaws {
  import opened Text
  import opened QueryScan

  /** The scan of s ends outside quotes with every parenthesis closed. */
  ghost predicate Closed(s: string) {
    var st := ScanOver(START, s);
    st.quote == Plain && st.depth == 0
  }

  ghost predicate NoOperator(s: string, operator: string) {
    forall i :: 0 <= i < |s| ==> !OperatorAt(s, operator, i)
  }

  function Glue(operator: string): string {
    " " + operator + " "
  }

  function Joined(a: string, operator: string, b: string): string {
    a + Glue(operator) + b
  }

  // ---- the split as a walk ----------------------------------------------

  lemma {:induction false} SplitNone(s: string, operator: string, start: nat, i: nat)
    requires Keyword(operator) && start <= i <= |s|
    requires forall k :: i <= k < |s| ==> !OperatorAt(s, operator, k)
    ensures SplitFrom(s, operator, start, i) == [Trim(s[start..])]
    decreases |s| - i
  {
    if i + |operator| > |s| {
    } else {
      SplitSkip(s, operator, start, i);
      SplitNone(s, operator, start, i + 1);
    }
  }

  /** Text without the operator is one part. */
  lemma SplitSingle(s: string, operator: string)
    requires Keyword(operator) && NoOperator(s, operator)
    ensures Split(s, operator) == [Trim(s)]
  {
    SplitNone(s, operator, 0, 0);
    assert s[0..] == s;
  }

  lemma {:induction false} SplitLeading(s: string, operator: string, k: nat, i: nat)
    requires Keyword(operator) && k < i <= |s| && IsSpace(s[k])
    ensures SplitFrom(s, operator, k, i) == SplitFrom(s, operator, k + 1, i)
    decreases |s| - i
  {
    if i + |operator| > |s| {
      TrimLeading(s[k], s[k + 1..]);
      assert s[k..] == [s[k]] + s[k + 1..];
    } else if OperatorAt(s, operator, i) {
      TrimLeading(s[k], s[k + 1..i]);
      assert s[k..i] == [s[k]] + s[k + 1..i];
    } else {
      SplitLeading(s, operator, k, i + 1);
    }
  }

  // ---- the same walk with the positions of the operator given ------------

  ghost function At(s: string, operator: string): int -> bool {
    i => OperatorAt(s, operator, i)
  }

  ghost function Walk(s: string, at: int -> bool, width: nat, start: nat, index: nat): seq<string>
    requires start <= index <= |s| && width > 0
    decreases |s| - index
  {
    if index + width > |s| then [Trim(s[start..])]
    else if at(index) then [Trim(s[start..index])] + Walk(s, at, width, index + width, index + width)
    else Walk(s, at, width, start, index + 1)
  }

  lemma {:induction false} SplitIsWalk(s: string, operator: string, at: int -> bool, start: nat, index: nat)
    requires Keyword(operator) && start <= index <= |s| && at == At(s, operator)
    ensures SplitFrom(s, operator, start, index) == Walk(s, at, |operator|, start, index)
    decreases |s| - index
  {
    hide Trim, OperatorAt;
    if index + |operator| > |s| {
    } else {
      if OperatorAt(s, operator, index) {
        SplitIsWalk(s, operator, at, index + |operator|, index + |operator|);
      } else {
        SplitIsWalk(s, operator, at, start, index + 1);
      }
    }
  }

  lemma {:induction false} WalkShift(p: string, b: string, inS: int -> bool, inB: int -> bool, width: nat, start: nat,
                                     i: nat)
    requires start <= i <= |b| && width > 0
    requires forall k :: 0 <= k <= |b| ==> inS(|p| + k) == inB(k)
    ensures Walk(p + b, inS, width, |p| + start, |p| + i) == Walk(b, inB, width, start, i)
    decreases |b| - i
  {
    hide Trim;
    assert inS(|p| + i) == inB(i);
    ShiftedSlices(p, b, start, i);
    if i + width > |b| {
    } else {
      if inB(i) {
        WalkShift(p, b, inS, inB, width, i + width, i + width);
      } else {
        WalkShift(p, b, inS, inB, width, start, i + 1);
      }
    }
  }

  lemma ShiftedSlices(p: string, b: string, start: nat, i: nat)
    requires start <= i <= |b|
    ensures (p + b)[|p| + start..] == b[start..] && (p + b)[|p| + start..|p| + i] == b[start..i]
  {}

  lemma SliceOfLeft(a: string, c: char, s: string, start: nat, i: nat)
    requires start <= i <= |a| < |s| && s[..|a| + 1] == a + [c]
    ensures s[start..i] == a[start..i]
  {
    forall k | start <= k < i ensures s[k] == a[k] {
      assert s[k] == s[..|a| + 1][k];
    }
  }

  lemma SliceToBlank(a: string, c: char, s: string, start: nat)
    requires start <= |a| < |s| && s[..|a| + 1] == a + [c]
    ensures s[start..|a| + 1] == a[start..] + [c]
  {
    assert s[start..|a| + 1] == s[..|a| + 1][start..];
    assert (a + [c])[start..] == a[start..] + [c];
  }

  lemma WalkCut(s: string, at: int -> bool, width: nat, start: nat, index: nat)
    requires start <= index && width > 0 && index + width <= |s| && at(index)
    ensures Walk(s, at, width, start, index)
         == [Trim(s[start..index])] + Walk(s, at, width, index + width, index + width)
  {}

  lemma OnePartFirst(part: string, left: seq<string>, right: seq<string>)
    ensures [part] + (left + right) == ([part] + left) + right
  {}

  /** A walk over `s`, which begins with `a` and a blank and has the operator next. */
  lemma {:induction false} WalkLeft(a: string, c: char, s: string, inA: int -> bool, inS: int -> bool, width: nat,
                                    start: nat, i: nat)
    requires start <= i <= |a| && width > 0 && |a| + 1 + width <= |s| && s[..|a| + 1] == a + [c] && IsSpace(c)
    requires forall k :: 0 <= k <= |a| ==> inS(k) == (k + width <= |a| && inA(k))
    requires inS(|a| + 1)
    ensures Walk(s, inS, width, start, i)
         == Walk(a, inA, width, start, i) + Walk(s, inS, width, |a| + 1 + width, |a| + 1 + width)
    decreases |a| - i
  {
    hide Trim;
    assert inS(i) == (i + width <= |a| && inA(i));
    if i + width <= |a| {
      if inA(i) {
        var next := i + width;
        WalkLeft(a, c, s, inA, inS, width, next, next);
        SliceOfLeft(a, c, s, start, i);
        WalkCut(a, inA, width, start, i);
        WalkCut(s, inS, width, start, i);
        OnePartFirst(Trim(a[start..i]), Walk(a, inA, width, next, next),
                     Walk(s, inS, width, |a| + 1 + width, |a| + 1 + width));
      } else {
        WalkLeft(a, c, s, inA, inS, width, start, i + 1);
      }
    } else {
      WalkToGlue(a, c, s, inS, width, start, i);
    }
  }

  /** No room for another operator in `a`: its last part ends at the blank. */
  lemma {:induction false} WalkToGlue(a: string, c: char, s: string, inS: int -> bool, width: nat, start: nat, i: nat)
    requires start <= |a| && start <= i <= |a| + 1 && width > 0 && |a| + 1 + width <= |s|
    requires s[..|a| + 1] == a + [c] && IsSpace(c)
    requires inS(|a| + 1) && forall k :: i <= k <= |a| ==> !inS(k)
    ensures Walk(s, inS, width, start, i)
         == [Trim(a[start..])] + Walk(s, inS, width, |a| + 1 + width, |a| + 1 + width)
    decreases |a| + 1 - i
  {
    hide Trim;
    if i <= |a| {
      assert !inS(i);
      WalkToGlue(a, c, s, inS, width, start, i + 1);
    } else {
      SliceToBlank(a, c, s, start);
      TrimTrailing(a[start..], c);
    }
  }

  // ---- text placed after a finished prefix ------------------------------

  /** A prefix after which the scanner is as good as new. */
  ghost predicate Fresh(p: string) {
    ScanOver(START, p) == START && p != "" && Boundary(p[|p| - 1])
  }

  lemma OperatorShift(p: string, b: string, operator: string, i: nat)
    requires Fresh(p)
    ensures OperatorAt(p + b, operator, |p| + i) <==> OperatorAt(b, operator, i)
  {
    hide ScanOver, EqualFold;
    if i + |operator| <= |b| && i < |b| {
      ScanFrom(p, i + 1, b);
      assert (p + b)[|p| + i..|p| + i + |operator|] == b[i..i + |operator|];
    }
  }

  lemma AtShift(p: string, b: string, operator: string)
    requires Fresh(p)
    ensures forall k :: 0 <= k <= |b| ==> At(p + b, operator)(|p| + k) == At(b, operator)(k)
  {
    forall k | 0 <= k <= |b| ensures At(p + b, operator)(|p| + k) == At(b, operator)(k) {
      OperatorShift(p, b, operator, k);
    }
  }

  lemma SplitShift(p: string, b: string, operator: string)
    requires Keyword(operator) && Fresh(p)
    ensures SplitFrom(p + b, operator, |p|, |p|) == Split(b, operator)
  {
    hide SplitFrom, Walk, OperatorAt, At, Fresh;
    var inS, inB := At(p + b, operator), At(b, operator);
    SplitIsWalk(p + b, operator, inS, |p|, |p|);
    SplitIsWalk(b, operator, inB, 0, 0);
    AtShift(p, b, operator);
    WalkShift(p, b, inS, inB, |operator|, 0, 0);
  }

  /** Splitting on from the last blank of the prefix is splitting b. */
  lemma {:induction false} SplitAfterFresh(p: string, b: string, operator: string)
    requires Keyword(operator) && Fresh(p)
    ensures SplitFrom(p + b, operator, |p| - 1, |p| - 1) == Split(b, operator)
  {
    var s, k := p + b, |p| - 1;
    if k + |operator| > |s| {
      TrimLeading(p[k], b);
      assert s[k..] == [p[k]] + b;
      assert b[0..] == b;
    } else {
      assert !OperatorAt(s, operator, k) by {
        assert s[k..k + |operator|][0] == p[k];
      }
      SplitSkip(s, operator, k, k);
      SplitLeading(s, operator, k, |p|);
      SplitShift(p, b, operator);
    }
  }

  // ---- white space before or after --------------------------------------------

  lemma ScanSpace(c: char)
    requires IsSpace(c)
    ensures ScanOver(START, [c]) == START
  {
    ScanStep(START, [c], 0);
    assert [c][..0] == "" && [c][..1] == [c];
  }

  /** White space in front of the text begins an operator only if it is a boundary. */
  lemma OperatorSpaceLeft(c: char, t: string, operator: string, i: nat)
    requires Keyword(operator) && IsSpace(c)
    ensures OperatorAt([c] + t, operator, 1 + i) <==> OperatorAt(t, operator, i) && (i == 0 ==> Boundary(c))
  {
    hide ScanOver, EqualFold, IsSpace;
    var s := [c] + t;
    if i + |operator| <= |t| && i < |t| {
      ScanSpace(c);
      ScanFrom([c], i + 1, t);
      ShiftedSlices([c], t, i, i + |operator|);
      assert s[1 + i - 1] == if i == 0 then c else t[i - 1];
    }
  }

  lemma SpaceIsNoOperator(c: char, t: string, operator: string)
    requires Keyword(operator) && IsSpace(c)
    ensures !OperatorAt([c] + t, operator, 0)
  {
    if |operator| <= |t| + 1 {
      assert ([c] + t)[0..|operator|][0] == c;
    }
  }

  lemma AtSpaceLeft(c: char, t: string, operator: string)
    requires Keyword(operator) && IsSpace(c)
    requires OperatorAt(t, operator, 0) ==> Boundary(c)
    ensures forall k :: 0 <= k <= |t| ==> At([c] + t, operator)(1 + k) == At(t, operator)(k)
  {
    forall k | 0 <= k <= |t| ensures At([c] + t, operator)(1 + k) == At(t, operator)(k) {
      OperatorSpaceLeft(c, t, operator, k);
    }
  }

  /** White space in front of the text, unless it hides an operator there. */
  lemma SplitSpaceLeft(c: char, t: string, operator: string)
    requires Keyword(operator) && IsSpace(c)
    requires OperatorAt(t, operator, 0) ==> Boundary(c)
    ensures Split([c] + t, operator) == Split(t, operator)
    ensures NoOperator([c] + t, operator) ==> NoOperator(t, operator)
  {
    hide SplitFrom, Walk, Trim, OperatorAt, At, NoOperator, Boundary;
    var s := [c] + t;
    var inS, inT := At(s, operator), At(t, operator);
    AtSpaceLeft(c, t, operator);
    if |operator| > |s| {
      TrimLeading(c, t);
      SplitEnd(s, operator, 0, 0);
      SplitEnd(t, operator, 0, 0);
      assert s[0..] == s && t[0..] == t;
    } else {
      SpaceIsNoOperator(c, t, operator);
      SplitSkip(s, operator, 0, 0);
      SplitLeading(s, operator, 0, 1);
      SplitIsWalk(s, operator, inS, 1, 1);
      SplitIsWalk(t, operator, inT, 0, 0);
      WalkShift([c], t, inS, inT, |operator|, 0, 0);
    }
    NoOperatorSpaceLeft(c, t, operator);
  }

  lemma NoOperatorSpaceLeft(c: char, t: string, operator: string)
    requires Keyword(operator) && IsSpace(c)
    requires OperatorAt(t, operator, 0) ==> Boundary(c)
    ensures NoOperator([c] + t, operator) ==> NoOperator(t, operator)
  {
    forall i | 0 <= i < |t| ensures OperatorAt([c] + t, operator, 1 + i) <==> OperatorAt(t, operator, i) {
      OperatorSpaceLeft(c, t, operator, i);
    }
  }

  /** White space behind the text ends an operator only if it is a boundary. */
  lemma OperatorSpaceRight(t: string, c: char, operator: string, i: nat)
    requires Keyword(operator) && IsSpace(c) && i <= |t|
    ensures OperatorAt(t + [c], operator, i) <==> OperatorAt(t, operator, i) && (i + |operator| == |t| ==> Boundary(c))
  {
    var s := t + [c];
    if i + |operator| <= |t| {
      assert s[..i + 1] == t[..i + 1] && s[i..i + |operator|] == t[i..i + |operator|];
    } else if i + |operator| <= |s| {
      assert s[i..i + |operator|][|operator| - 1] == c;
    }
  }

  lemma {:induction false} WalkSpaceRight(t: string, c: char, inS: int -> bool, inT: int -> bool, width: nat,
                                          start: nat, i: nat)
    requires start <= i <= |t| && width > 0 && IsSpace(c)
    requires forall k :: 0 <= k <= |t| ==> inS(k) == (k + width <= |t| && inT(k))
    ensures Walk(t + [c], inS, width, start, i) == Walk(t, inT, width, start, i)
    decreases |t| - i
  {
    hide Trim;
    var s := t + [c];
    assert inS(i) == (i + width <= |t| && inT(i));
    if i + width <= |t| {
      assert s[start..i] == t[start..i];
      if inT(i) {
        WalkSpaceRight(t, c, inS, inT, width, i + width, i + width);
      } else {
        WalkSpaceRight(t, c, inS, inT, width, start, i + 1);
      }
    } else {
      assert s[start..] == t[start..] + [c];
      TrimTrailing(t[start..], c);
      WalkPastEnd(s, inS, width, start, i);
    }
  }

  lemma {:induction false} WalkPastEnd(s: string, at: int -> bool, width: nat, start: nat, i: nat)
    requires start <= i <= |s| && width > 0 && i + width >= |s| && (i < |s| ==> !at(i))
    ensures Walk(s, at, width, start, i) == [Trim(s[start..])]
  {}

  lemma AtSpaceRight(t: string, c: char, operator: string)
    requires Keyword(operator) && IsSpace(c)
    requires |t| >= |operator| && OperatorAt(t, operator, |t| - |operator|) ==> Boundary(c)
    ensures forall k :: 0 <= k <= |t| ==>
                          At(t + [c], operator)(k) == (k + |operator| <= |t| && At(t, operator)(k))
    ensures NoOperator(t + [c], operator) ==> NoOperator(t, operator)
  {
    forall k | 0 <= k <= |t|
      ensures At(t + [c], operator)(k) == (k + |operator| <= |t| && At(t, operator)(k))
    {
      OperatorSpaceRight(t, c, operator, k);
    }
    forall i | 0 <= i < |t| ensures OperatorAt(t + [c], operator, i) <==> OperatorAt(t, operator, i) {
      OperatorSpaceRight(t, c, operator, i);
    }
  }

  /** White space behind the text, unless it hides an operator at its end. */
  lemma SplitSpaceRight(t: string, c: char, operator: string)
    requires Keyword(operator) && IsSpace(c)
    requires |t| >= |operator| && OperatorAt(t, operator, |t| - |operator|) ==> Boundary(c)
    ensures Split(t + [c], operator) == Split(t, operator)
    ensures NoOperator(t + [c], operator) ==> NoOperator(t, operator)
  {
    hide SplitFrom, Walk, Trim, OperatorAt, At, Boundary, NoOperator;
    var inS, inT := At(t + [c], operator), At(t, operator);
    AtSpaceRight(t, c, operator);
    SplitIsWalk(t + [c], operator, inS, 0, 0);
    SplitIsWalk(t, operator, inT, 0, 0);
    WalkSpaceRight(t, c, inS, inT, |operator|, 0, 0);
  }

  // ---- the operator between two texts -----------------------------------

  lemma GlueIsFresh(a: string, operator: string)
    requires Keyword(operator) && Closed(a)
    ensures Fresh(a + Glue(operator))
    ensures ScanOver(START, a + Glue(operator)[..2]).quote == Plain
    ensures ScanOver(START, a + Glue(operator)[..2]).depth == 0
  {
    hide ScanOver;
    var st := ScanOver(START, a);
    var glue := Glue(operator);
    ScanConcat(START, a, glue);
    ScanConcat(START, a, glue[..2]);
    ScanText(st, glue);
    ScanText(st, glue[..2]);
  }

  lemma LeftSlices(a: string, other: string, b: string, i: nat, j: nat)
    requires i <= j <= |a|
    ensures Joined(a, other, b)[..j] == a[..j] && Joined(a, other, b)[i..j] == a[i..j]
  {
    var s := Joined(a, other, b);
    assert s[..|a|] == a;
    assert s[..j] == s[..|a|][..j] && s[i..j] == s[..|a|][i..j];
  }

  lemma OperatorInLeft(a: string, other: string, operator: string, b: string, i: nat)
    requires Keyword(operator) && i <= |a|
    ensures OperatorAt(Joined(a, other, b), operator, i) <==> OperatorAt(a, operator, i)
  {
    var s := Joined(a, other, b);
    if i + |operator| <= |a| {
      LeftSlices(a, other, b, i, i + 1);
      LeftSlices(a, other, b, i, i + |operator|);
      assert i + |operator| < |a| ==> s[i + |operator|] == a[i + |operator|];
      assert i > 0 ==> s[i - 1] == a[i - 1];
      assert i + |operator| == |a| ==> s[|a|] == ' ';
    } else if i + |operator| <= |s| {
      var word := s[i..i + |operator|];
      assert word[|a| - i] == s[|a|] == ' ';
    }
  }

  lemma OperatorAtGlue(a: string, operator: string, b: string)
    requires Keyword(operator) && Closed(a)
    ensures OperatorAt(Joined(a, operator, b), operator, |a| + 1)
  {
    var s := Joined(a, operator, b);
    GlueIsFresh(a, operator);
    assert s[..|a| + 2] == a + Glue(operator)[..2];
    assert s[|a| + 1..|a| + 1 + |operator|] == operator;
  }

  /** Splitting `a OP b` splits a, then b: nothing merges and nothing is lost. */
  lemma SplitJoined(a: string, operator: string, b: string)
    requires Keyword(operator) && Closed(a)
    ensures Split(Joined(a, operator, b), operator) == Split(a, operator) + Split(b, operator)
  {
    hide SplitFrom, Walk, Trim, OperatorAt, At, Closed;
    var s := Joined(a, operator, b);
    var inA, inS, next := At(a, operator), At(s, operator), |a| + 1 + |operator|;
    AtLeft(a, operator, b);
    assert s[..|a| + 1] == a + [' '];
    WalkLeft(a, ' ', s, inA, inS, |operator|, 0, 0);
    SplitIsWalk(a, operator, inA, 0, 0);
    SplitIsWalk(s, operator, inS, 0, 0);
    SplitIsWalk(s, operator, inS, next, next);
    SplitAfterGlue(a, operator, b);
  }

  /** Behind the operator the rest is split by itself. */
  lemma SplitAfterGlue(a: string, operator: string, b: string)
    requires Keyword(operator) && Closed(a)
    ensures SplitFrom(Joined(a, operator, b), operator, |a| + 1 + |operator|, |a| + 1 + |operator|)
         == Split(b, operator)
  {
    var p := a + Glue(operator);
    GlueIsFresh(a, operator);
    assert Joined(a, operator, b) == p + b && |p| - 1 == |a| + 1 + |operator|;
    SplitAfterFresh(p, b, operator);
  }

  lemma AtLeft(a: string, operator: string, b: string)
    requires Keyword(operator) && Closed(a)
    ensures var inA, inS := At(a, operator), At(Joined(a, operator, b), operator);
            inS(|a| + 1) && forall k :: 0 <= k <= |a| ==> inS(k) == (k + |operator| <= |a| && inA(k))
  {
    var inA, inS := At(a, operator), At(Joined(a, operator, b), operator);
    OperatorAtGlue(a, operator, b);
    forall k | 0 <= k <= |a| ensures inS(k) == (k + |operator| <= |a| && inA(k)) {
      OperatorInLeft(a, operator, operator, b, k);
    }
  }

  /** The other operator between two texts creates no split point. */
  lemma NoOperatorJoined(a: string, other: string, b: string, operator: string)
    requires Keyword(operator) && Keyword(other) && other != operator && Closed(a)
    requires NoOperator(a, operator) && NoOperator(b, operator)
    ensures NoOperator(Joined(a, other, b), operator)
  {
    var s := Joined(a, other, b);
    var p := a + Glue(other);
    GlueIsFresh(a, other);
    assert s == p + b;
    forall i | 0 <= i < |s| ensures !OperatorAt(s, operator, i) {
      if i >= |p| {
        OperatorShift(p, b, operator, i - |p|);
      } else if i + |operator| <= |s| {
        OperatorBeforeGlueEnds(a, other, b, operator, i);
      }
    }
  }

  lemma OperatorBeforeGlueEnds(a: string, other: string, b: string, operator: string, i: nat)
    requires Keyword(operator) && Keyword(other) && other != operator
    requires NoOperator(a, operator) && i < |a| + |Glue(other)| && i + |operator| <= |Joined(a, other, b)|
    ensures !OperatorAt(Joined(a, other, b), operator, i)
  {
    var s := Joined(a, other, b);
    var word := s[i..i + |operator|];
    var glue := Glue(other);
    assert forall k :: 0 <= k < |glue| ==> s[|a| + k] == glue[k];
    if i <= |a| {
      OperatorInLeft(a, other, operator, b, i);
    } else if i == |a| + 1 {
      assert word[0] == other[0];
    } else {
      assert s[i - 1] == glue[i - 1 - |a|];
      assert word[0] == glue[i - |a|];
    }
  }

  lemma ClosedJoined(a: string, operator: string, b: string)
    requires Keyword(operator) && Closed(a) && Closed(b)
    ensures Closed(Joined(a, operator, b))
  {
    GlueIsFresh(a, operator);
    ScanConcat(START, a + Glue(operator), b);
  }
}
