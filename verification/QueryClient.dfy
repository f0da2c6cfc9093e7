/** The queries the web client sends: basic controls joined with the advanced
    editor, the field filter action, and queries typed over several lines. */
module QueryClient {
  import opened Text
  import opened Options
  import opened Literals
  import opened QueryScan
  import opened QueryNormal
  import opened QueryMatch
  import opened QueryLaws
  import opened QueryAtoms
  import opened QueryWords
  import opened QueryPrinter
  import opened QueryGroups

  /** White space of String.prototype.trim. */
  predicate JsSpace(c: char) {
    (IsSpace(c) && c != '\U{85}') || c == '\U{FEFF}'
  }

  function JsTrim(s: string): string {
    if s != "" && JsSpace(s[0]) then JsTrim(s[1..])
    else if s != "" && JsSpace(s[|s| - 1]) then JsTrim(s[..|s| - 1])
    else s
  }

  /** The client state the query is built from. An empty text is a control that
      is not set; container is the name of the selected container, if it is
      listed. */
  datatype Controls = Controls(container: Option<string>, logName: string, resourceType: string,
                               stream: string, severity: string, searchText: string, query: string)

  function When(set_: bool, x: Expr): seq<Expr> {
    if set_ then [x] else []
  }

  function FieldClauses(c: Controls): seq<Expr> {
    (if c.container.Some? then [Compare("resource.labels.container_name", "=", c.container.value)] else []) +
    When(c.logName != "", Compare("logName", "=", c.logName)) +
    When(c.resourceType != "", Compare("resource.type", "=", c.resourceType)) +
    When(c.stream != "", Compare("stream", "=", c.stream))
  }

  /** The clauses of the basic controls, in the order they are written. */
  function BasicClauses(c: Controls): seq<Expr> {
    FieldClauses(c) + When(c.severity != "", Word("severity", "=", c.severity)) +
    When(c.searchText != "", Search(Quoted(JsTrim(c.searchText))))
  }

  function PrintAll(xs: seq<Expr>): seq<string> {
    seq(|xs|, i requires 0 <= i < |xs| => Print(xs[i]))
  }

  lemma PrintConcat(xs: seq<Expr>, ys: seq<Expr>)
    ensures PrintAll(xs + ys) == PrintAll(xs) + PrintAll(ys)
  {}

  method BuildBasicQuery(c: Controls) returns (parts: seq<string>)
    ensures parts == PrintAll(BasicClauses(c))
  {
    hide JsonQuote, JsTrim, FieldClauses;
    parts := BuildFieldClauses(c);
    ghost var severity := When(c.severity != "", Word("severity", "=", c.severity));
    PrintConcat(FieldClauses(c), severity);
    PrintConcat(FieldClauses(c) + severity, When(c.searchText != "", Search(Quoted(JsTrim(c.searchText)))));
    if c.severity != "" {
      assert Prefix("severity", "=") == "severity = ";
      parts := parts + ["severity = " + c.severity];
    }
    if c.searchText != "" {
      SearchClause(JsonQuote(JsTrim(c.searchText)));
      parts := parts + ["SEARCH(" + JsonQuote(JsTrim(c.searchText)) + ")"];
    }
  }

  lemma SearchClause(inner: string)
    ensures SearchText(inner) == "SEARCH(" + inner + ")"
  {}

  method BuildFieldClauses(c: Controls) returns (parts: seq<string>)
    ensures parts == PrintAll(FieldClauses(c))
  {
    parts := [];
    ghost var xs: seq<Expr> := [];
    if c.container.Some? {
      parts := PushClause(parts, "resource.labels.container_name", c.container.value);
      xs := [Compare("resource.labels.container_name", "=", c.container.value)];
    }
    parts := PushUnlessEmpty(parts, "logName", c.logName, xs);
    xs := xs + When(c.logName != "", Compare("logName", "=", c.logName));
    parts := PushUnlessEmpty(parts, "resource.type", c.resourceType, xs);
    xs := xs + When(c.resourceType != "", Compare("resource.type", "=", c.resourceType));
    parts := PushUnlessEmpty(parts, "stream", c.stream, xs);
  }

  method PushUnlessEmpty(parts: seq<string>, field: string, value: string, ghost xs: seq<Expr>)
    returns (more: seq<string>)
    requires parts == PrintAll(xs)
    ensures more == PrintAll(xs + When(value != "", Compare(field, "=", value)))
  {
    more := parts;
    PrintConcat(xs, When(value != "", Compare(field, "=", value)));
    if value != "" {
      more := PushClause(parts, field, value);
    }
  }

  /** parts.push of a comparison. */
  method PushClause(parts: seq<string>, field: string, value: string) returns (more: seq<string>)
    ensures more == parts + [Print(Compare(field, "=", value))]
  {
    assert Prefix(field, "=") == field + " = ";
    more := parts + [field + " = " + JsonQuote(value)];
  }

  /** Array.prototype.join. */
  function Join(parts: seq<string>, separator: string): string {
    if parts == [] then ""
    else if |parts| == 1 then parts[0]
    else Join(parts[..|parts| - 1], separator) + separator + parts[|parts| - 1]
  }

  function BuildExplorerQuery(basicParts: seq<string>, query: string): string {
    var basic := Join(basicParts, " AND ");
    var advanced := JsTrim(query);
    if basic != "" && advanced != "" then basic + " AND (" + advanced + ")"
    else if basic != "" then basic else advanced
  }

  // ---- meaning ----------------------------------------------------------------

  function Conjunction(xs: seq<Expr>): Expr
    requires xs != []
  {
    if |xs| == 1 then xs[0] else And(Conjunction(xs[..|xs| - 1]), xs[|xs| - 1])
  }

  lemma {:induction false} ConjunctionMeaning(e: Subject, xs: seq<Expr>)
    requires xs != [] && Good(xs)
    ensures WellFormed(Conjunction(xs)) && !Conjunction(xs).Or?
    ensures Meaning(e, Conjunction(xs)) <==> forall x :: x in xs ==> Meaning(e, x)
  {
    var n := |xs| - 1;
    if n > 0 {
      assert xs[n] in xs && forall x :: x in xs <==> x in xs[..n] || x == xs[n];
      ConjunctionMeaning(e, xs[..n]);
    } else {
      assert xs == [xs[0]];
    }
  }

  lemma {:induction false} ConjunctionPrint(xs: seq<Expr>)
    requires xs != [] && Good(xs)
    ensures !Conjunction(xs).Or? && Print(Conjunction(xs)) == Join(PrintAll(xs), " AND ")
  {
    hide WellFormed;
    var n := |xs| - 1;
    if n == 0 {
    } else {
      assert xs[n] in xs;
      ConjunctionPrint(xs[..n]);
      assert PrintAll(xs)[..n] == PrintAll(xs[..n]);
      assert Glue("AND") == " AND ";
    }
  }

  ghost predicate Good(xs: seq<Expr>) {
    forall x :: x in xs ==> WellFormed(x) && !x.Or?
  }

  lemma GoodAppend(xs: seq<Expr>, set_: bool, x: Expr)
    requires Good(xs) && (set_ ==> WellFormed(x) && !x.Or?)
    ensures Good(xs + When(set_, x))
  {}

  lemma FixedNames()
    ensures Name("logName") && Name("resource.type") && Name("stream") && Name("severity")
  {}

  lemma ContainerName()
    ensures Name("resource.labels.container_name")
  {}

  lemma {:induction false} BasicWellFormed(c: Controls)
    requires c.severity == "" || (Bare(c.severity) && c.severity[0] != '=')
    ensures Good(BasicClauses(c))
  {
    FixedNames();
    ContainerName();
    var xs := if c.container.Some? then [Compare("resource.labels.container_name", "=", c.container.value)] else [];
    GoodAppend(xs, c.logName != "", Compare("logName", "=", c.logName));
    xs := xs + When(c.logName != "", Compare("logName", "=", c.logName));
    GoodAppend(xs, c.resourceType != "", Compare("resource.type", "=", c.resourceType));
    xs := xs + When(c.resourceType != "", Compare("resource.type", "=", c.resourceType));
    GoodAppend(xs, c.stream != "", Compare("stream", "=", c.stream));
    xs := xs + When(c.stream != "", Compare("stream", "=", c.stream));
    GoodAppend(xs, c.severity != "", Word("severity", "=", c.severity));
    xs := xs + When(c.severity != "", Word("severity", "=", c.severity));
    GoodAppend(xs, c.searchText != "", Search(Quoted(JsTrim(c.searchText))));
  }

  predicate Equals(e: Subject, field: string, value: string) {
    exists v :: v in e.values(field) && e.compare(v, "=", value, field)
  }

  /** The entry meets every control that is set. */
  predicate Meets(e: Subject, c: Controls) {
    && (c.container.Some? ==> Equals(e, "resource.labels.container_name", c.container.value))
    && (c.logName != "" ==> Equals(e, "logName", c.logName))
    && (c.resourceType != "" ==> Equals(e, "resource.type", c.resourceType))
    && (c.stream != "" ==> Equals(e, "stream", c.stream))
    && (c.severity != "" ==> Equals(e, "severity", c.severity))
    && (c.searchText != "" ==> Occurs(e.searchText, JsTrim(c.searchText)))
  }

  /** All of the trees hold. */
  ghost predicate AllMean(e: Subject, xs: seq<Expr>) {
    forall x :: x in xs ==> Meaning(e, x)
  }

  lemma MeanAppend(e: Subject, xs: seq<Expr>, set_: bool, x: Expr)
    ensures AllMean(e, xs + When(set_, x)) <==> AllMean(e, xs) && (set_ ==> Meaning(e, x))
  {
    hide Meaning;
    var more := xs + When(set_, x);
    assert forall y :: y in more <==> y in xs || (set_ && y == x);
  }

  lemma FieldsMean(e: Subject, c: Controls)
    ensures AllMean(e, FieldClauses(c))
       <==> && (c.container.Some? ==> Equals(e, "resource.labels.container_name", c.container.value))
            && (c.logName != "" ==> Equals(e, "logName", c.logName))
            && (c.resourceType != "" ==> Equals(e, "resource.type", c.resourceType))
            && (c.stream != "" ==> Equals(e, "stream", c.stream))
  {
    hide AllMean, When;
    var name := if c.container.Some? then c.container.value else "";
    var xs := When(c.container.Some?, Compare("resource.labels.container_name", "=", name));
    NothingMeans(e, c.container.Some?, Compare("resource.labels.container_name", "=", name));
    MeanAppend(e, xs, c.logName != "", Compare("logName", "=", c.logName));
    xs := xs + When(c.logName != "", Compare("logName", "=", c.logName));
    MeanAppend(e, xs, c.resourceType != "", Compare("resource.type", "=", c.resourceType));
    xs := xs + When(c.resourceType != "", Compare("resource.type", "=", c.resourceType));
    MeanAppend(e, xs, c.stream != "", Compare("stream", "=", c.stream));
    ContainerClause(c);
  }

  lemma ContainerClause(c: Controls)
    ensures var name := if c.container.Some? then c.container.value else "";
            When(c.container.Some?, Compare("resource.labels.container_name", "=", name))
            == if c.container.Some? then [Compare("resource.labels.container_name", "=", c.container.value)] else []
  {}

  lemma NothingMeans(e: Subject, set_: bool, x: Expr)
    ensures AllMean(e, When(set_, x)) <==> (set_ ==> Meaning(e, x))
  {
    hide Meaning;
    assert x in [x];
  }

  lemma ControlsMean(e: Subject, c: Controls)
    ensures AllMean(e, BasicClauses(c)) <==> Meets(e, c)
  {
    hide AllMean, When, FieldClauses, JsTrim, Occurs;
    var severity, text := Word("severity", "=", c.severity), Search(Quoted(JsTrim(c.searchText)));
    FieldsMean(e, c);
    MeanAppend(e, FieldClauses(c), c.severity != "", severity);
    MeanAppend(e, FieldClauses(c) + When(c.severity != "", severity), c.searchText != "", text);
  }

  /** The combined query matches exactly the entries that meet every basic
      control and the advanced text. */
  lemma {:induction false} ExplorerQueryMeaning(e: Subject, c: Controls)
    requires c.severity == "" || (Bare(c.severity) && c.severity[0] != '=')
    requires Hidden(JsTrim(c.query))
    ensures MatchesQuery(e, BuildExplorerQuery(PrintAll(BasicClauses(c)), c.query))
       <==> Meets(e, c) && MatchesQuery(e, JsTrim(c.query))
  {
    hide MatchesQuery, Hidden, Conjunction, BasicClauses, Meets, Good, Bare, Meaning;
    var xs, advanced := BasicClauses(c), JsTrim(c.query);
    BasicWellFormed(c);
    ControlsMean(e, c);
    if xs == [] {
      MatchesQueryMeans(e, "");
    } else {
      var basic := Conjunction(xs);
      ConjunctionMeaning(e, xs);
      ConjunctionPrint(xs);
      PrintShape(basic);
      if advanced == "" {
        PrintedMeaning(e, basic);
        MatchesQueryMeans(e, "");
      } else {
        CombinedMeaning(e, basic, advanced);
      }
    }
  }

  /** `t` is `s` without the white space at its two ends. */
  ghost predicate CutOut(s: string, i: nat, j: nat, t: string) {
    && i <= j <= |s| && t == s[i..j] && (i < j ==> !JsSpace(s[i]) && !JsSpace(s[j - 1]))
    && (forall k :: 0 <= k < i ==> JsSpace(s[k])) && forall k :: j <= k < |s| ==> JsSpace(s[k])
  }

  lemma CutFront(s: string, i: nat, j: nat, t: string)
    requires s != "" && JsSpace(s[0]) && CutOut(s[1..], i, j, t)
    ensures CutOut(s, i + 1, j + 1, t)
  {
    hide JsSpace;
    assert s == [s[0]] + s[1..];
    assert s[1..][i..j] == s[i + 1..j + 1];
    assert forall k :: 0 < k < |s| ==> s[k] == s[1..][k - 1];
  }

  lemma CutBack(s: string, i: nat, j: nat, t: string)
    requires s != "" && JsSpace(s[|s| - 1]) && CutOut(s[..|s| - 1], i, j, t)
    ensures CutOut(s, i, j, t)
  {
    hide JsSpace;
    assert s[..|s| - 1][i..j] == s[i..j];
  }

  /** trim cuts white space off both ends and nothing else. */
  lemma {:induction false} JsTrimParts(s: string) returns (i: nat, j: nat)
    ensures CutOut(s, i, j, JsTrim(s))
    decreases |s|
  {
    hide JsSpace, CutOut;
    if s != "" && JsSpace(s[0]) {
      i, j := JsTrimParts(s[1..]);
      CutFront(s, i, j, JsTrim(s));
      i, j := i + 1, j + 1;
    } else if s != "" && JsSpace(s[|s| - 1]) {
      i, j := JsTrimParts(s[..|s| - 1]);
      CutBack(s, i, j, JsTrim(s));
    } else {
      i, j := 0, |s|;
      NothingCut(s);
    }
  }

  lemma NothingCut(s: string)
    requires s == "" || (!JsSpace(s[0]) && !JsSpace(s[|s| - 1]))
    ensures CutOut(s, 0, |s|, s)
  {
    assert s[0..|s|] == s;
  }

  /** `clauses AND (text)`. */
  lemma CombinedMeaning(e: Subject, basic: Expr, text: string)
    requires WellFormed(basic) && !basic.Or? && Hidden(text)
    ensures MatchesQuery(e, Print(basic) + " AND (" + text + ")") <==> Meaning(e, basic) && MatchesQuery(e, text)
  {
    TreeThenGroup(e, basic, text);
    CombinedText(Print(basic), text);
  }

  lemma CombinedText(basic: string, text: string)
    ensures Joined(basic, "AND", Parens(text)) == basic + " AND (" + text + ")"
  {
    assert Glue("AND") == " AND ";
  }

  /** What the field filter action writes: the old query in parentheses, then
      one more clause. */
  function FilterText(query: string, clause: string): string {
    "(" + query + ") AND " + clause
  }

  /** The filter action narrows the old query by exactly the added clause. */
  lemma FilterAction(e: Subject, query: string, field: string, op: string, value: string)
    requires Hidden(query) && Name(field) && Operator(op)
    ensures MatchesQuery(e, FilterText(query, field + " " + op + " " + JsonQuote(value)))
       <==> MatchesQuery(e, query) && AnyValue(e, field, op, value)
  {
    var r := Compare(field, op, value);
    GroupThenTree(e, query, r);
    FilterIsJoined(query, Print(r));
    assert Print(r) == field + " " + op + " " + JsonQuote(value);
  }

  lemma FilterIsJoined(query: string, clause: string)
    ensures FilterText(query, clause) == Joined(Parens(query), "AND", clause)
  {
    assert Glue("AND") == " AND ";
  }

  lemma PrintedOneClause(field: string, op: string, value: string)
    requires Name(field) && Operator(op)
    ensures OneClause(field + " " + op + " " + JsonQuote(value))
  {
    var r := Compare(field, op, value);
    PrintShape(r);
    PrintedOneLine(field, op, value);
    assert Print(r) == field + " " + op + " " + JsonQuote(value);
  }

  /** For every old query: the text that the action writes is read as the old
      query and the added clause exactly when the old query is hidden by its
      parentheses. */
  lemma FilterParses(query: string, field: string, op: string, value: string)
    requires Name(field) && Operator(op)
    ensures var clause := field + " " + op + " " + JsonQuote(value);
            var n := Normalize(FilterText(query, clause));
            Split(n, "OR") == [n] && Split(n, "AND") == [Parens(Rewrite(query)), clause] <==> Hidden(query)
  {
    var clause := field + " " + op + " " + JsonQuote(value);
    PrintedOneClause(field, op, value);
    FilterIsJoined(query, clause);
    ParsesExactlyHidden(query, clause);
  }

  /** The query that the field filter action leaves in the editor. */
  function FilterQuery(query: string, clause: string): string {
    if JsTrim(query) != "" then FilterText(JsTrim(query), clause) else clause
  }

  /** Whatever hidden query the editor held, the action narrows it by exactly
      the clause it adds; an empty one becomes the clause. */
  lemma FieldFilterNarrows(e: Subject, query: string, field: string, exclude: bool, value: string)
    requires Hidden(JsTrim(query)) && Name(field)
    ensures var op := if exclude then "!=" else "=";
            MatchesQuery(e, FilterQuery(query, field + " " + op + " " + JsonQuote(value)))
            <==> MatchesQuery(e, JsTrim(query)) && AnyValue(e, field, op, value)
  {
    var op := if exclude then "!=" else "=";
    FilterAction(e, JsTrim(query), field, op, value);
    if JsTrim(query) == "" {
      PrintedMeaning(e, Compare(field, op, value));
      assert Print(Compare(field, op, value)) == field + " " + op + " " + JsonQuote(value);
      MatchesQueryMeans(e, "");
    }
  }

  /** An entry whose searchable text is "x" and that has no fields. */
  const PROBE := Subject(field => [], (v, op, expected, field) => false, "x")

  /** The word "x" by itself. */
  const WORD_X := Free(Words(["x"]))

  lemma WordX()
    ensures Print(WORD_X) == "x" && WellFormed(WORD_X) && Meaning(PROBE, WORD_X)
  {
    assert FoundAt("x", "x", 0);
  }

  lemma ProbeMatchesX()
    ensures MatchesQuery(PROBE, "x")
  {
    hide MatchesQuery, Print, WellFormed, Meaning;
    WordX();
    PrintedMeaning(PROBE, WORD_X);
  }

  lemma BalancedX()
    ensures Balanced("x") && NoOperator("x", "OR") && NoOperator("x", "AND")
  {
    var x := "x";
    forall k | 0 <= k <= |x| ensures ScanOver(START, x[..k]) == START {
      ScanInert(START, x[..k]);
    }
    assert x[..1] == x;
  }

  lemma UnbalancedX()
    ensures !Balanced("x) OR (x")
  {
    var q := "x) OR (x";
    ScanInert(START, q[..1]);
    ScanStep(START, q, 1);
    assert ScanOver(START, q[..2]).depth == -1;
  }

  /** What the combined text really says. */
  function EscapedTree(): Expr {
    Or(UserText("x"), And(UserText("x"), Compare("f", "=", "v")))
  }

  lemma TreeHolds(e: Subject, text: string, clause: Expr)
    requires MatchesQuery(e, text) && Balanced(text) && WellFormed(clause)
    ensures var tree := Or(UserText(text), And(UserText(text), clause)); WellFormed(tree) && Meaning(e, tree)
  {
    var user := UserText(text);
    assert WellFormed(user) && Meaning(e, user) && WellFormed(And(user, clause));
  }

  lemma EscapedTreeHolds()
    ensures WellFormed(EscapedTree()) && Meaning(PROBE, EscapedTree())
  {
    hide Balanced, MatchesQuery, Meaning;
    BalancedX();
    ProbeMatchesX();
    TreeHolds(PROBE, "x", Compare("f", "=", "v"));
  }

  lemma PrintedClause()
    ensures Print(Compare("f", "=", "v")) == "f = " + JsonQuote("v")
  {
    hide JsonQuote;
    assert Prefix("f", "=") == "f = ";
  }

  lemma EscapedTreePrints(clause: Expr)
    requires !clause.Or?
    ensures Print(Or(UserText("x"), And(UserText("x"), clause)))
         == Joined(Parens("x"), "OR", Joined(Parens("x"), "AND", Print(clause)))
  {
    hide Joined, Parens;
    assert PrintOperand(UserText("x")) == Parens("x") && PrintOperand(clause) == Print(clause);
    assert Print(And(UserText("x"), clause)) == Joined(Parens("x"), "AND", Print(clause));
  }

  lemma EscapedText(p: string)
    ensures Joined(Parens("x"), "OR", Joined(Parens("x"), "AND", p)) == "(" + "x) OR (x" + ") AND " + p
  {
    var front := "(" + "x) OR (x" + ") AND ";
    assert Parens("x") + Glue("OR") + Parens("x") + Glue("AND") == front;
    assert Joined(Parens("x"), "OR", Joined(Parens("x"), "AND", p))
        == (Parens("x") + Glue("OR") + Parens("x") + Glue("AND")) + p;
  }

  lemma EscapedTreeText()
    ensures Print(EscapedTree()) == FilterText("x) OR (x", "f = " + JsonQuote("v"))
  {
    hide JsonQuote, Print, Joined, Parens;
    PrintedClause();
    EscapedTreePrints(Compare("f", "=", "v"));
    EscapedText("f = " + JsonQuote("v"));
  }

  lemma EscapedTextMatches()
    ensures MatchesQuery(PROBE, FilterText("x) OR (x", "f = " + JsonQuote("v")))
  {
    EscapedTreeHolds();
    EscapedTreeText();
    PrintedMeaning(PROBE, EscapedTree());
  }

  lemma EscapingIsNotHidden(e: Subject, query: string, field: string, op: string, value: string)
    requires Name(field) && Operator(op) && !AnyValue(e, field, op, value)
    requires MatchesQuery(e, FilterText(query, field + " " + op + " " + JsonQuote(value)))
    ensures !Hidden(query)
  {
    if Hidden(query) {
      FilterAction(e, query, field, op, value);
    }
  }

  /** Text that is not hidden escapes: a stray parenthesis closes the group early,
      and an entry that fails the added clause matches. */
  lemma UnbalancedQueryEscapes()
    ensures !Hidden("x) OR (x") && !Balanced("x) OR (x") && !AnyValue(PROBE, "f", "=", "v")
    ensures MatchesQuery(PROBE, FilterText("x) OR (x", "f = " + JsonQuote("v")))
  {
    hide MatchesQuery, Balanced, Hidden, JsonQuote;
    UnbalancedX();
    EscapedTextMatches();
    assert "f" + " " + "=" + " " + JsonQuote("v") == "f = " + JsonQuote("v");
    EscapingIsNotHidden(PROBE, "x) OR (x", "f", "=", "v");
  }
}
