/** Evaluation: clause matching and the recursion through parentheses. */
module QueryMatch {
  import opened Text
  import opened Options
  import opened Literals
  import opened QueryScan
  import opened QueryNormal

  datatype FieldValue = FieldValue(text: string, numeric: bool)

  /** What a query can see of a log entry: queryValue, compareExplorerValue
      (actual, operator, expected, field) and explorerSearchText. */
  datatype Subject = Subject(values: string -> seq<FieldValue>,
                             compare: (FieldValue, string, string, string) -> bool,
                             searchText: string)

  // ---- the clause expression ----------------------------------------------

  predicate Blank(c: char) {
    c == ' ' || c == '\t' || c == '\n' || c == '\r' || c == '\U{0C}'
  }

  predicate FieldChar(c: char) {
    'a' <= c <= 'z' || 'A' <= c <= 'Z' || '0' <= c <= '9' || c == '_' || c == '.' || c == '-'
  }

  function SkipBlank(s: string): string {
    if s != "" && Blank(s[0]) then SkipBlank(s[1..]) else s
  }

  predicate AllBlank(s: string) {
    SkipBlank(s) == ""
  }

  function FieldRun(s: string): (r: string)
    ensures r <= s
  {
    if s != "" && FieldChar(s[0]) then [s[0]] + FieldRun(s[1..]) else ""
  }

  function WordRun(s: string): (r: string)
    ensures r <= s
  {
    if s != "" && !Blank(s[0]) then [s[0]] + WordRun(s[1..]) else ""
  }

  /** After an opening double quote: the text behind the closing one. A
      backslash takes the next character with it, unless that is a line feed. */
  function QuotedTail(s: string): Option<string> {
    if s == "" then None
    else if s[0] == '"' then Some(s[1..])
    else if s[0] != '\\' then QuotedTail(s[1..])
    else if |s| >= 2 && s[1] != '\n' then QuotedTail(s[2..])
    else None
  }

  /** After an opening backtick: the content and the text behind the next one. */
  function TickTail(s: string): Option<(string, string)> {
    if s == "" then None
    else if s[0] == '`' then Some(("", s[1..]))
    else match TickTail(s[1..])
         case None => None
         case Some((content, rest)) => Some(([s[0]] + content, rest))
  }

  /** The value part, as (backtick capture, bare capture); a double-quoted
      value leaves both empty. */
  function MatchValue(s: string): Option<(string, string)> {
    var t := SkipBlank(s);
    if t == "" then None
    else if t[0] == '"' && QuotedTail(t[1..]).Some? && AllBlank(QuotedTail(t[1..]).value) then
      Some(("", ""))
    else if t[0] == '`' && TickTail(t[1..]).Some? && AllBlank(TickTail(t[1..]).value.1) then
      Some((TickTail(t[1..]).value.0, ""))
    else
      var word := WordRun(t);
      if AllBlank(t[|word|..]) then Some(("", word)) else None
  }

  datatype Clause = Clause(field: string, operator: string, ticked: string, bare: string)

  predicate Operator(op: string) {
    op == ">=" || op == "<=" || op == "!=" || op == "=" || op == ":" || op == ">" || op == "<"
  }

  function TryOperator(field: string, s: string, op: string): Option<Clause> {
    if op <= s && MatchValue(s[|op|..]).Some? then
      var (ticked, bare) := MatchValue(s[|op|..]).value;
      Some(Clause(field, op, ticked, bare))
    else None
  }

  function OrElse(first: Option<Clause>, second: Option<Clause>): Option<Clause> {
    if first.Some? then first else second
  }

  /** The operator alternatives, in the order the expression lists them. */
  function TryOperators(field: string, s: string): Option<Clause> {
    OrElse(TryOperator(field, s, ">="),
           OrElse(TryOperator(field, s, "<="),
                  OrElse(TryOperator(field, s, "!="),
                         OrElse(TryOperator(field, s, "="),
                                OrElse(TryOperator(field, s, ":"),
                                       OrElse(TryOperator(field, s, ">"), TryOperator(field, s, "<")))))))
  }

  function MatchClause(s: string): Option<Clause> {
    var t := SkipBlank(s);
    var field := FieldRun(t);
    if field == "" then None else TryOperators(field, SkipBlank(t[|field|..]))
  }

  /** strings.Index. */
  function IndexOf(s: string, part: string): Option<nat> {
    if part <= s then Some(0)
    else if s == "" then None
    else match IndexOf(s[1..], part)
         case None => None
         case Some(i) => Some(i + 1)
  }

  // ---- token search ---------------------------------------------------------

  function Fields(s: string): seq<string>
    decreases |s|
  {
    var t := TrimLeft(s);
    TrimLeftShrinks(s);
    if t == "" then [] else
    var word := FieldsWord(t);
    [word] + Fields(t[|word|..])
  }

  function FieldsWord(s: string): (r: string)
    ensures r <= s && (s != "" && !IsSpace(s[0]) ==> r != "")
  {
    if s != "" && !IsSpace(s[0]) then [s[0]] + FieldsWord(s[1..]) else ""
  }

  lemma TrimLeftShrinks(s: string)
    ensures |TrimLeft(s)| <= |s|
    ensures TrimLeft(s) != "" ==> !IsSpace(TrimLeft(s)[0])
  {
    TrimLeftParts(s);
  }

  predicate QuoteMark(c: char) {
    c == '"' || c == '`'
  }

  /** strings.Trim with the cutset of both quote characters. */
  function TrimQuotes(s: string): string {
    if s != "" && QuoteMark(s[0]) then TrimQuotes(s[1..])
    else if s != "" && QuoteMark(s[|s| - 1]) then TrimQuotes(s[..|s| - 1])
    else s
  }

  predicate ContainsFold(text: string, part: string) {
    Contains(LowerAll(text), LowerAll(part))
  }

  predicate ContainsQueryTokens(text: string, query: string) {
    var q := Trim(query);
    if |q| >= 2 && QuoteMark(q[0]) && q[|q| - 1] == q[0] then
      if q[0] == '"' then Unquote(q).Some? && ContainsFold(text, Unquote(q).value)
      else ContainsFold(text, q[1..|q| - 1])
    else forall token :: token in Fields(TrimQuotes(q)) ==> ContainsFold(text, token)
  }

  // ---- clauses and queries --------------------------------------------------

  /** The part after the first comma, or all of it: strings.SplitN(s, ",", 2). */
  function AfterComma(s: string): string {
    match IndexOf(s, ",")
    case None => s
    case Some(i) => if i < |s| then s[i + 1..] else s
  }

  predicate MatchesSearch(e: Subject, inner: string) {
    var query := Trim(inner);
    if |query| >= 2 && !QuoteMark(query[0])
    then ContainsQueryTokens(e.searchText, Trim(AfterComma(query)))
    else ContainsQueryTokens(e.searchText, query)
  }

  function Expected(c: Clause, quoted: string): Option<string> {
    if quoted != "" && quoted[0] == '"' then Unquote(quoted)
    else if quoted != "" && quoted[0] == '`' then Some(c.ticked)
    else Some(c.bare)
  }

  predicate AnyValue(e: Subject, field: string, operator: string, expected: string) {
    exists v :: v in e.values(field) && e.compare(v, operator, expected, field)
  }

  function AfterOperator(clause: string, operator: string): string {
    var at := IndexOf(clause, operator);
    if at.Some? && at.value + |operator| <= |clause| then Trim(clause[at.value + |operator|..]) else ""
  }

  /** A clause read as its parse says; one that does not parse is a text search. */
  predicate FieldMatches(e: Subject, clause: string, parsed: Option<Clause>) {
    match parsed
    case None => ContainsQueryTokens(e.searchText, clause)
    case Some(c) =>
      var expected := Expected(c, AfterOperator(clause, c.operator));
      expected.Some? && AnyValue(e, c.field, c.operator, expected.value)
  }

  predicate MatchesField(e: Subject, clause: string) {
    FieldMatches(e, clause, MatchClause(clause))
  }

  predicate Grouped(c: string) {
    |c| >= 2 && c[0] == '(' && c[|c| - 1] == ')'
  }

  predicate SearchCall(c: string) {
    |c| >= 8 && EqualFold(c[..7], "SEARCH(") && c[|c| - 1] == ')'
  }

  predicate MatchesExplorerClause(e: Subject, clause: string)
    decreases Opens(clause), 0
  {
    var c := Trim(clause);
    OpensTrim(clause);
    if Grouped(c) then
      OpensInner(c);
      MatchesQuery(e, c[1..|c| - 1])
    else if SearchCall(c) then MatchesSearch(e, c[7..|c| - 1])
    else MatchesField(e, c)
  }

  predicate MatchesQuery(e: Subject, query: string)
    decreases Opens(query), 1
  {
    var n := Normalize(query);
    OpensNormalize(query);
    n == "" ||
    exists orPart :: orPart in Split(n, "OR") &&
                     (OpensSplit(n, "OR");
                      forall andPart :: andPart in Split(orPart, "AND") ==>
                                          (OpensSplit(orPart, "AND"); MatchesExplorerClause(e, andPart)))
  }

  // ---- termination: the number of opening parentheses -----------------------

  function Opens(s: string): nat {
    if s == "" then 0 else Opens(s[..|s| - 1]) + if s[|s| - 1] == '(' then 1 else 0
  }

  lemma {:induction false} OpensConcat(a: string, b: string)
    ensures Opens(a + b) == Opens(a) + Opens(b)
  {
    if b == "" {
      assert a + b == a;
    } else {
      OpensConcat(a, b[..|b| - 1]);
      assert (a + b)[..|a + b| - 1] == a + b[..|b| - 1];
    }
  }

  lemma {:induction false} OpensNone(s: string)
    requires forall i :: 0 <= i < |s| ==> s[i] != '('
    ensures Opens(s) == 0
  {
    if s == "" {
    } else {
      OpensNone(s[..|s| - 1]);
    }
  }

  lemma OpensSlice(s: string, i: nat, j: nat)
    requires i <= j <= |s|
    ensures Opens(s[i..j]) <= Opens(s)
  {
    hide Opens;
    var a, b, c := s[..i], s[i..j], s[j..];
    OpensConcat(a, b);
    OpensConcat(a + b, c);
    assert s == a + b + c;
  }

  lemma OpensTrim(s: string)
    ensures Opens(Trim(s)) <= Opens(s)
  {
    var t := TrimLeft(s);
    TrimLeftParts(s);
    TrimRightParts(t);
    OpensSlice(s, |s| - |t|, |s|);
    OpensSlice(t, 0, |Trim(s)|);
    assert s[|s| - |t|..|s|] == t && t[0..|Trim(s)|] == Trim(s);
  }

  lemma OpensInner(c: string)
    requires Grouped(c)
    ensures Opens(c[1..|c| - 1]) < Opens(c)
  {
    OpensConcat("(", c[1..]);
    assert "(" + c[1..] == c;
    assert c[1..|c| - 1] == c[1..][..|c| - 2];
    OpensSlice(c[1..], 0, |c| - 2);
    assert Opens("(") == 1 by { assert "("[..0] == ""; }
  }

  lemma {:induction false} OpensRewrite(q: string)
    ensures Opens(Rewrite(q)) <= Opens(q)
  {
    if q == "" {
    } else {
      var n := |q| - 1;
      OpensRewrite(q[..n]);
      OpensConcat(Rewrite(q[..n]), Emit(q, n));
      OpensEmit(q, n);
    }
  }

  lemma OpensEmit(q: string, i: nat)
    requires i < |q|
    ensures Opens(Emit(q, i)) <= if q[i] == '(' then 1 else 0
  {
    var emitted := Emit(q, i);
    if emitted == [q[i]] {
      assert emitted[..0] == "";
    } else {
      OpensNone(emitted);
    }
  }

  lemma OpensNormalize(q: string)
    ensures Opens(Normalize(q)) <= Opens(q)
  {
    OpensRewrite(q);
    OpensTrim(Rewrite(q));
  }

  lemma {:induction false} OpensSplitFrom(s: string, operator: string, start: nat, index: nat)
    requires Keyword(operator) && start <= index <= |s|
    ensures forall p :: p in SplitFrom(s, operator, start, index) ==> Opens(p) <= Opens(s)
    decreases |s| - index
  {
    hide Opens, Trim, OperatorAt;
    if index + |operator| > |s| {
      OpensSlice(s, start, |s|);
      OpensTrim(s[start..]);
      assert s[start..] == s[start..|s|];
    } else if OperatorAt(s, operator, index) {
      OpensSlice(s, start, index);
      OpensTrim(s[start..index]);
      OpensSplitFrom(s, operator, index + |operator|, index + |operator|);
    } else {
      OpensSplitFrom(s, operator, start, index + 1);
    }
  }

  lemma OpensSplit(s: string, operator: string)
    requires Keyword(operator)
    ensures forall p :: p in Split(s, operator) ==> Opens(p) <= Opens(s)
  {
    OpensSplitFrom(s, operator, 0, 0);
  }
}
