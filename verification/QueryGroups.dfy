/** User text in parentheses beside a clause: exactly when the parentheses hold it. */
module QueryGroups {
  import opened Text
  import opened Literals
  import opened QueryScan
  import opened QueryNormal
  import opened QueryMatch
  import opened QueryLaws
  import opened QueryAtoms
  import opened QueryClauses
  import opened QueryPrinter

  /** The parentheses close behind the text, and no operator inside it stands at
      the depth of the operators outside. */
  ghost predicate Hidden(text: string) {
    Closed(text) && Atomic(Parens(Rewrite(text)))
  }

  /** Text that closes only what it opened is hidden. */
  lemma BalancedIsHidden(text: string)
    requires Balanced(text)
    ensures Hidden(text)
  {
    BalancedRewrite(text);
    ShapeParens(Rewrite(text));
  }

  predicate OnlyParens(s: string) {
    forall i :: 0 <= i < |s| ==> s[i] == '(' || s[i] == ')'
  }

  /** But not only such text is: parentheses alone free no operator. */
  lemma ParenthesesAreHidden(text: string)
    requires Closed(text) && OnlyParens(text)
    ensures Hidden(text)
  {
    hide Rewrite, NoOperator, Closed;
    RewritePlainText(text);
    var t := Parens(text);
    assert OnlyParens(t);
    NoLetters(t, "AND");
    NoLetters(t, "OR");
  }

  lemma UnbalancedButClosed()
    ensures Closed(")(") && !Balanced(")(")
  {
    var q := ")(";
    assert q[..0] == "" && q[..2] == q;
    ScanStep(START, q, 0);
    ScanStep(START, q, 1);
    assert ScanOver(START, q[..1]).depth == -1;
  }

  lemma NoLetters(s: string, operator: string)
    requires Keyword(operator) && OnlyParens(s)
    ensures NoOperator(s, operator)
  {
    forall i | 0 <= i < |s| ensures !OperatorAt(s, operator, i) {
      OperatorIsLetters(s, operator, i);
    }
  }

  // ---- meaning --------------------------------------------------------------------------

  /** A hidden text is one clause. */
  lemma HiddenClause(e: Subject, text: string)
    requires Hidden(text)
    ensures var t := Parens(Rewrite(text));
            Rewrite(Parens(text)) == t && t != "" && Trimmed(t) && Closed(t) && NoOperator(t, "OR") &&
            AndHolds(e, t) == MatchesQuery(e, text)
  {
    var t := Parens(Rewrite(text));
    RewriteParens(text);
    ScanRewrite(text);
    ParensClosed(Rewrite(text));
    AndHoldsSingle(e, t);
    ClauseParens(e, Rewrite(text));
    RewriteTwice(text);
    SameNormalForm(e, Rewrite(text), text);
  }

  /** A tree without OR on top, as the normaliser leaves it. */
  lemma TreeClauses(e: Subject, x: Expr)
    requires WellFormed(x) && !x.Or?
    ensures var t := Print(Rewritten(x));
            Rewrite(Print(x)) == t && t != "" && Trimmed(t) && Closed(t) && NoOperator(t, "OR") &&
            AndHolds(e, t) == Meaning(e, x)
  {
    RewritePrint(x);
    RewrittenIsSettled(e, x);
    PrintShape(Rewritten(x));
    AndMeaning(e, Rewritten(x));
  }

  lemma JoinedMeaning(e: Subject, a: string, b: string)
    requires Closed(a) && Closed(Rewrite(a))
    requires Rewrite(a) != "" && Trimmed(Rewrite(a)) && NoOperator(Rewrite(a), "OR")
    requires Rewrite(b) != "" && Trimmed(Rewrite(b)) && NoOperator(Rewrite(b), "OR")
    ensures MatchesQuery(e, Joined(a, "AND", b)) <==> AndHolds(e, Rewrite(a)) && AndHolds(e, Rewrite(b))
  {
    var s, t := Rewrite(a), Rewrite(b);
    var n := Joined(s, "AND", t);
    RewriteJoined(a, "AND", b);
    NoOperatorJoined(s, "AND", t, "OR");
    assert n[0] == s[0] && n[|n| - 1] == t[|t| - 1];
    TrimFixed(n);
    OrHoldsSingle(e, n);
    AndHoldsJoined(e, s, t);
    MatchesQueryMeans(e, Joined(a, "AND", b));
  }

  /** Hidden text in parentheses, then a tree: both must match. */
  lemma {:induction false} GroupThenTree(e: Subject, text: string, x: Expr)
    requires Hidden(text) && WellFormed(x) && !x.Or?
    ensures MatchesQuery(e, Joined(Parens(text), "AND", Print(x))) <==> MatchesQuery(e, text) && Meaning(e, x)
  {
    HiddenClause(e, text);
    TreeClauses(e, x);
    ParensClosed(text);
    JoinedMeaning(e, Parens(text), Print(x));
  }

  lemma {:induction false} TreeThenGroup(e: Subject, x: Expr, text: string)
    requires Hidden(text) && WellFormed(x) && !x.Or?
    ensures MatchesQuery(e, Joined(Print(x), "AND", Parens(text))) <==> Meaning(e, x) && MatchesQuery(e, text)
  {
    HiddenClause(e, text);
    TreeClauses(e, x);
    PrintShape(x);
    JoinedMeaning(e, Print(x), Parens(text));
  }

  // ---- the parse, for every text -----------------------------------------------------------

  /** A clause that is one part, with no line break. */
  ghost predicate OneClause(clause: string) {
    && clause != "" && Trimmed(clause) && Atomic(clause) && forall i :: 0 <= i < |clause| ==> !LineBreak(clause[i])
  }

  lemma PrintedOneLine(field: string, op: string, value: string)
    requires Name(field) && Operator(op)
    ensures var t := Prefix(field, op) + JsonQuote(value); forall i :: 0 <= i < |t| ==> !LineBreak(t[i])
  {
    JsonBodyPrintable(value);
  }

  lemma EmitPlain(q: string, i: nat)
    requires i < |q| && !LineBreak(q[i])
    ensures Emit(q, i) == [q[i]]
  {}

  lemma RewriteOneMore(p: string, c: char)
    requires !LineBreak(c)
    ensures Rewrite(p + [c]) == Rewrite(p) + [c]
  {
    var q := p + [c];
    assert q[..|q| - 1] == p;
    EmitPlain(q, |p|);
  }

  lemma {:induction false} RewriteTail(p: string, s: string)
    requires forall i :: 0 <= i < |s| ==> !LineBreak(s[i])
    ensures Rewrite(p + s) == Rewrite(p) + s
  {
    if s == "" {
      assert p + s == p;
    } else {
      var init, c := s[..|s| - 1], s[|s| - 1];
      assert s == init + [c];
      RewriteTail(p, init);
      RewriteOneMore(p + init, c);
      Associate(p, init, [c]);
      Associate(Rewrite(p), init, [c]);
    }
  }

  function Tail(clause: string): string {
    ")" + Glue("AND") + clause
  }

  lemma GroupParts(r: string, clause: string)
    ensures Joined(Parens(r), "AND", clause) == ("(" + r) + Tail(clause)
  {}

  lemma TailOneLine(clause: string)
    requires OneClause(clause)
    ensures forall i :: 0 <= i < |Tail(clause)| ==> !LineBreak(Tail(clause)[i])
  {
    assert Glue("AND") == " AND ";
    assert Tail(clause) == ") AND " + clause;
  }

  lemma GroupTrimmed(r: string, clause: string)
    requires OneClause(clause)
    ensures var n := Joined(Parens(r), "AND", clause); n != "" && Trimmed(n)
  {
    var n := Joined(Parens(r), "AND", clause);
    assert n[0] == '(' && n[|n| - 1] == clause[|clause| - 1];
  }

  /** Whatever the text is, its parentheses and the clause stay as they are. */
  lemma GroupText(text: string, clause: string)
    requires OneClause(clause)
    ensures Normalize(Joined(Parens(text), "AND", clause)) == Joined(Parens(Rewrite(text)), "AND", clause)
  {
    RewriteOpen(text);
    GroupParts(text, clause);
    GroupParts(Rewrite(text), clause);
    TailOneLine(clause);
    RewriteTail("(" + text, Tail(clause));
    GroupTrimmed(Rewrite(text), clause);
    TrimFixed(Joined(Parens(Rewrite(text)), "AND", clause));
  }

  lemma {:induction false} TwoParts(s: string, operator: string, start: nat, i: nat, k: nat)
    requires Keyword(operator) && start <= i <= k && OperatorAt(s, operator, k)
    requires forall j :: i <= j < k ==> !OperatorAt(s, operator, j)
    ensures SplitFrom(s, operator, start, i)
         == [Trim(s[start..k])] + SplitFrom(s, operator, k + |operator|, k + |operator|)
    decreases k - i
  {
    if i < k {
      SplitSkip(s, operator, start, i);
      TwoParts(s, operator, start, i + 1, k);
    } else {
      SplitCut(s, operator, start, i, []);
    }
  }

  /** The first position of an operator, if there is one. */
  lemma {:induction false} FirstOperatorAt(s: string, operator: string, i: nat) returns (k: nat)
    requires Keyword(operator) && OperatorAt(s, operator, i)
    ensures k <= i && OperatorAt(s, operator, k) && forall j :: 0 <= j < k ==> !OperatorAt(s, operator, j)
  {
    k := 0;
    while !OperatorAt(s, operator, k)
      invariant k <= i && forall j :: 0 <= j < k ==> !OperatorAt(s, operator, j)
      decreases i - k
    {
      k := k + 1;
    }
  }

  lemma {:induction false} OnePartNoOperator(s: string, operator: string)
    requires Keyword(operator) && |Split(s, operator)| == 1
    ensures NoOperator(s, operator)
  {
    forall i | 0 <= i < |s| ensures !OperatorAt(s, operator, i) {
      if OperatorAt(s, operator, i) {
        var k := FirstOperatorAt(s, operator, i);
        TwoParts(s, operator, 0, 0, k);
      }
    }
  }

  /** The combined text is one alternative of two clauses, the text and the added one. */
  ghost predicate ParsesAsBoth(text: string, clause: string) {
    var n := Normalize(Joined(Parens(text), "AND", clause));
    Split(n, "OR") == [n] && Split(n, "AND") == [Parens(Rewrite(text)), clause]
  }

  lemma HiddenParses(text: string, clause: string)
    requires OneClause(clause) && Hidden(text)
    ensures ParsesAsBoth(text, clause)
  {
    var t := Parens(Rewrite(text));
    var n := Joined(t, "AND", clause);
    GroupText(text, clause);
    ScanRewrite(text);
    ParensClosed(Rewrite(text));
    NoOperatorJoined(t, "AND", clause, "OR");
    SplitSingle(n, "OR");
    GroupTrimmed(Rewrite(text), clause);
    TrimFixed(n);
    SplitJoined(t, "AND", clause);
    SplitSingle(t, "AND");
    SplitSingle(clause, "AND");
    TrimFixed(t);
    TrimFixed(clause);
  }

  /** A text that begins and ends with no space, cut behind more text: the cut is
      at its end, or one of the spaces behind it. */
  lemma CutBehind(t: string, s: string, k: nat)
    requires t != "" && Trimmed(t) && |t| + 1 < |s| && s[..|t|] == t && !IsSpace(s[|t| + 1])
    requires k <= |s| && Trim(s[..k]) == t
    ensures k <= |t| + 1 && k >= |t|
  {
    TrimLeftParts(s[..k]);
    TrimRightParts(TrimLeft(s[..k]));
    if k > 0 {
      assert s[..k][0] == s[0] == t[0];
    }
    if k > |t| + 1 {
      TrimReaches(s[..k], |t| + 1);
    }
  }

  /** Trimming keeps whatever is no space. */
  lemma {:induction false} TrimReaches(s: string, i: nat)
    requires i < |s| && !IsSpace(s[i]) && s != "" && !IsSpace(s[0])
    ensures |Trim(s)| > i
  {
    assert TrimLeft(s) == s;
    TrimRightReaches(s, i);
  }

  lemma {:induction false} TrimRightReaches(s: string, i: nat)
    requires i < |s| && !IsSpace(s[i])
    ensures |TrimRight(s)| > i
  {
    if !IsSpace(s[|s| - 1]) {
    } else {
      TrimRightReaches(s[..|s| - 1], i);
    }
  }

  lemma InertPair(st: Scan)
    ensures ScanOver(st, " A").quote == st.quote && ScanOver(st, " A").depth == st.depth
  {
    ScanStep(st, " A", 0);
    ScanStep(st, " A", 1);
    assert " A"[..0] == "" && " A"[..2] == " A";
  }

  /** If the operator behind the group is found, the group is closed. */
  lemma GlueFoundClosed(t: string, clause: string)
    requires OperatorAt(Joined(t, "AND", clause), "AND", |t| + 1)
    ensures Closed(t)
  {
    var n := Joined(t, "AND", clause);
    assert Glue("AND")[0] == ' ' && Glue("AND")[1] == 'A';
    assert n[..|t| + 2] == t + " A";
    ScanConcat(START, t, " A");
    InertPair(ScanOver(START, t));
  }

  lemma ParensClosedInside(r: string)
    requires Closed(Parens(r))
    ensures Closed(r)
  {
    var s := Parens(r);
    ScanParens(r, |r|);
    assert r[..|r|] == r && s[..|s|] == s;
    ScanStep(START, s, |r| + 1);
  }

  /** The first cut of a combined text that parses as both is behind the group. */
  lemma SomeOperator(s: string, operator: string) returns (k: nat)
    requires Keyword(operator) && |Split(s, operator)| > 1
    ensures k < |s| && OperatorAt(s, operator, k) && Split(s, operator)[0] == Trim(s[..k])
    ensures forall j :: 0 <= j < k ==> !OperatorAt(s, operator, j)
  {
    if NoOperator(s, operator) {
      SplitSingle(s, operator);
      assert false;
    }
    var i :| 0 <= i < |s| && OperatorAt(s, operator, i);
    k := FirstOperatorAt(s, operator, i);
    TwoParts(s, operator, 0, 0, k);
    assert s[0..k] == s[..k];
  }

  lemma GlueBehind(t: string, clause: string)
    ensures var n := Joined(t, "AND", clause); |t| + 1 < |n| && n[..|t|] == t && n[|t|] == ' ' && n[|t| + 1] == 'A'
  {
    assert Glue("AND")[0] == ' ' && Glue("AND")[1] == 'A';
  }

  lemma {:induction false} CutIsGlue(t: string, clause: string)
    requires t != "" && Trimmed(t) && Split(Joined(t, "AND", clause), "AND") == [t, clause]
    ensures OperatorAt(Joined(t, "AND", clause), "AND", |t| + 1)
    ensures forall j :: 0 <= j < |t| ==> !OperatorAt(Joined(t, "AND", clause), "AND", j)
  {
    var n := Joined(t, "AND", clause);
    var k := SomeOperator(n, "AND");
    GlueBehind(t, clause);
    CutBehind(t, n, k);
    OperatorIsLetters(n, "AND", |t|);
  }

  lemma ParsedIsHidden(text: string, clause: string)
    requires OneClause(clause) && ParsesAsBoth(text, clause)
    ensures Hidden(text)
  {
    var t := Parens(Rewrite(text));
    var n := Joined(t, "AND", clause);
    GroupText(text, clause);
    CutIsGlue(t, clause);
    GlueFoundClosed(t, clause);
    ParensClosedInside(Rewrite(text));
    ScanRewrite(text);
    OnePartNoOperator(n, "OR");
    forall i | 0 <= i < |t| ensures !OperatorAt(t, "AND", i) && !OperatorAt(t, "OR", i) {
      OperatorInLeft(t, "AND", "AND", clause, i);
      OperatorInLeft(t, "AND", "OR", clause, i);
      assert i < |n|;
    }
  }

  /** For every text: the combined query is read as the text and the added clause
      exactly when the text is hidden. */
  lemma ParsesExactlyHidden(text: string, clause: string)
    requires OneClause(clause)
    ensures ParsesAsBoth(text, clause) <==> Hidden(text)
  {
    if Hidden(text) {
      HiddenParses(text, clause);
    }
    if ParsesAsBoth(text, clause) {
      ParsedIsHidden(text, clause);
    }
  }
}
