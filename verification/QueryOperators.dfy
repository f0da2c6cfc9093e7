/** Operators as they are typed: in any case, between any blanks. */
module QueryOperators {
  import opened Text
  import opened QueryScan
  import opened QueryLaws

  /** A space, a tab or a line feed. */
  predicate PlainBlank(c: char) {
    c == ' ' || c == '\t' || c == '\n'
  }

  /** A word with a blank on each side. */
  function Around(x: char, word: string, y: char): string {
    [x] + word + [y]
  }

  lemma WordChars(word: string, operator: string)
    requires Keyword(operator) && EqualFold(word, operator)
    ensures forall i :: 0 <= i < |word| ==> word[i] !in "\"`\\()" && !IsSpace(word[i])
  {
    forall i | 0 <= i < |word| ensures word[i] !in "\"`\\()" && !IsSpace(word[i]) {
      assert Lower(word[i]) == Lower(operator[i]);
    }
  }

  lemma BlankChars(c: char)
    requires PlainBlank(c)
    ensures c !in "\"`\\()" && IsSpace(c) && Boundary(c)
  {}

  lemma AroundIsFresh(a: string, x: char, word: string, y: char, operator: string)
    requires Keyword(operator) && Closed(a) && EqualFold(word, operator) && PlainBlank(x) && PlainBlank(y)
    ensures Fresh(a + Around(x, word, y))
    ensures var st := ScanOver(START, a + [x, word[0]]); st.quote == Plain && st.depth == 0
  {
    hide ScanOver, IsSpace, PlainBlank, EqualFold;
    var st, glue := ScanOver(START, a), Around(x, word, y);
    WordChars(word, operator);
    BlankChars(x);
    BlankChars(y);
    WordLength(word, operator);
    ScanConcat(START, a, glue);
    ScanConcat(START, a, [x, word[0]]);
    ScanText(st, glue);
    ScanText(st, [x, word[0]]);
  }

  lemma WordLength(word: string, operator: string)
    requires Keyword(operator) && EqualFold(word, operator)
    ensures |word| == |operator| > 0
  {}

  /** In front of the added operator there is one exactly where `a` has one. */
  lemma OperatorInFront(a: string, x: char, rest: string, operator: string, i: nat)
    requires Keyword(operator) && i <= |a| && PlainBlank(x)
    ensures OperatorAt(a + [x] + rest, operator, i) <==> OperatorAt(a, operator, i)
  {
    hide ScanOver;
    BlankChars(x);
    var s := a + [x] + rest;
    if i + |operator| <= |a| {
      assert s[..i + 1] == a[..i + 1] && s[i..i + |operator|] == a[i..i + |operator|];
      assert s[|a|] == x && (i > 0 ==> s[i - 1] == a[i - 1]);
      assert i + |operator| < |a| ==> s[i + |operator|] == a[i + |operator|];
    } else if i + |operator| <= |s| {
      var word := s[i..i + |operator|];
      assert word[|a| - i] == s[|a|] == x;
      if EqualFold(word, operator) {
        WordChars(word, operator);
      }
    }
  }

  lemma OperatorIsThere(a: string, x: char, word: string, y: char, b: string, operator: string)
    requires Keyword(operator) && Closed(a) && EqualFold(word, operator) && PlainBlank(x) && PlainBlank(y)
    ensures OperatorAt(a + Around(x, word, y) + b, operator, |a| + 1)
  {
    hide ScanOver, EqualFold, PlainBlank;
    var s, n := a + Around(x, word, y) + b, |a| + 1;
    WordLength(word, operator);
    AroundIsFresh(a, x, word, y, operator);
    BlankChars(x);
    BlankChars(y);
    assert s[..n + 1] == a + [x, word[0]] && s[n..n + |operator|] == word;
    assert s[n - 1] == x && s[n + |operator|] == y;
  }

  /** Splitting at an operator written in any case, with any blank on either side,
      splits the two texts: nothing merges and nothing is lost. */
  lemma SplitBetween(a: string, x: char, word: string, y: char, b: string, operator: string)
    requires Keyword(operator) && Closed(a) && EqualFold(word, operator) && PlainBlank(x) && PlainBlank(y)
    ensures Split(a + Around(x, word, y) + b, operator) == Split(a, operator) + Split(b, operator)
  {
    hide SplitFrom, Walk, Trim, OperatorAt, At, Closed, EqualFold, PlainBlank, Fresh;
    var p := a + Around(x, word, y);
    var s, width := p + b, |operator|;
    var inA, inS, next := At(a, operator), At(s, operator), |a| + 1 + width;
    WordLength(word, operator);
    AtFront(a, x, word, y, b, operator);
    BlankChars(x);
    assert s[..|a| + 1] == a + [x];
    WalkLeft(a, x, s, inA, inS, width, 0, 0);
    SplitIsWalk(a, operator, inA, 0, 0);
    SplitIsWalk(s, operator, inS, 0, 0);
    SplitIsWalk(s, operator, inS, next, next);
    AroundIsFresh(a, x, word, y, operator);
    assert |p| - 1 == next;
    SplitAfterFresh(p, b, operator);
  }

  lemma FrontApart(a: string, x: char, word: string, y: char, b: string)
    ensures a + Around(x, word, y) + b == a + [x] + (word + [y] + b)
  {
    assert a + Around(x, word, y) == a + [x] + (word + [y]);
  }

  lemma OperatorEnds(a: string, operator: string)
    ensures forall k :: OperatorAt(a, operator, k) ==> k + |operator| <= |a|
  {
    hide EqualFold;
  }

  lemma AtFront(a: string, x: char, word: string, y: char, b: string, operator: string)
    requires Keyword(operator) && Closed(a) && EqualFold(word, operator) && PlainBlank(x) && PlainBlank(y)
    ensures var inA, inS := At(a, operator), At(a + Around(x, word, y) + b, operator);
            inS(|a| + 1) && forall k :: 0 <= k <= |a| ==> inS(k) == (k + |operator| <= |a| && inA(k))
  {
    hide OperatorAt, EqualFold, PlainBlank, Closed;
    var s := a + Around(x, word, y) + b;
    var inA, inS := At(a, operator), At(s, operator);
    OperatorIsThere(a, x, word, y, b, operator);
    FrontApart(a, x, word, y, b);
    OperatorEnds(a, operator);
    forall k | 0 <= k <= |a| ensures inS(k) == (k + |operator| <= |a| && inA(k)) {
      OperatorInFront(a, x, word + [y] + b, operator, k);
    }
  }
}
