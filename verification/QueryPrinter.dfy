/** The queries the web client builds, and the theorem that the Hub evaluates
    the printed text to what the query tree means. */
module QueryPrinter {
  import opened Text
  import opened Literals
  import opened QueryScan
  import opened QueryNormal
  import opened QueryMatch
  import opened QueryLaws
  import opened QueryAtoms
  import opened QueryWords
  import opened QueryClauses

  /** A query tree. UserText is text typed by a user, placed in parentheses. */
  datatype Expr =
    | Compare(field: string, operator: string, value: string)
    | Tick(field: string, operator: string, raw: string)
    | Word(field: string, operator: string, word: string)
    | Free(phrase: Phrase)
    | Search(phrase: Phrase)
    | SearchIn(scope: string, phrase: Phrase)
    | UserText(query: string)
    | Group(inner: Expr)
    | And(left: Expr, right: Expr)
    | Or(left: Expr, right: Expr)

  function Print(x: Expr): string
    decreases x, 0
  {
    match x
    case Compare(field, op, value) => Prefix(field, op) + JsonQuote(value)
    case Tick(field, op, raw) => Prefix(field, op) + TickQuote(raw)
    case Word(field, op, word) => Prefix(field, op) + word
    case Free(p) => PhraseText(p)
    case Search(p) => SearchText(PhraseText(p))
    case SearchIn(scope, p) => SearchText(Labelled(scope, p))
    case UserText(query) => Parens(query)
    case Group(inner) => Parens(Print(inner))
    case And(l, r) => Joined(PrintOperand(l), "AND", PrintOperand(r))
    case Or(l, r) => Joined(Print(l), "OR", Print(r))
  }

  /** AND binds tighter than OR, so an OR under an AND needs parentheses. */
  function PrintOperand(x: Expr): string
    decreases x, 1
  {
    if x.Or? then Parens(Print(x)) else Print(x)
  }

  /** The boolean meaning of a tree for one log entry. */
  predicate Meaning(e: Subject, x: Expr) {
    match x
    case Compare(field, op, value) => exists v :: v in e.values(field) && e.compare(v, op, value, field)
    case Tick(field, op, raw) => exists v :: v in e.values(field) && e.compare(v, op, raw, field)
    case Word(field, op, word) => exists v :: v in e.values(field) && e.compare(v, op, word, field)
    case Free(p) => PhraseIn(e.searchText, p)
    case Search(p) => PhraseIn(e.searchText, p)
    case SearchIn(_, p) => PhraseIn(e.searchText, p)
    case UserText(query) => MatchesQuery(e, query)
    case Group(inner) => Meaning(e, inner)
    case And(l, r) => Meaning(e, l) && Meaning(e, r)
    case Or(l, r) => Meaning(e, l) || Meaning(e, r)
  }

  ghost predicate WellFormed(x: Expr) {
    match x
    case Compare(field, op, _) => Name(field) && Operator(op)
    case Tick(field, op, raw) => Name(field) && Operator(op) && '`' !in raw
    case Word(field, op, word) => Name(field) && Operator(op) && Bare(word) && word[0] != '='
    case Free(p) => FreePhrase(p)
    case Search(p) => SearchPhrase(p)
    case SearchIn(scope, p) => SearchLabel(scope) && OnOneLine(scope) && GoodPhrase(p)
    case UserText(query) => Balanced(query)
    case Group(inner) => WellFormed(inner)
    case And(l, r) => WellFormed(l) && WellFormed(r)
    case Or(l, r) => WellFormed(l) && WellFormed(r)
  }

  predicate OnOneLine(s: string) {
    forall i :: 0 <= i < |s| ==> !LineBreak(s[i])
  }

  // ---- shape of printed text ------------------------------------------------

  ghost predicate Atomic(t: string) {
    NoOperator(t, "AND") && NoOperator(t, "OR")
  }

  ghost predicate Shape(t: string) {
    t != "" && Balanced(t) && Trimmed(t)
  }

  lemma {:induction false} BalancedJoined(a: string, operator: string, b: string)
    requires Keyword(operator) && Balanced(a) && Balanced(b)
    ensures Balanced(Joined(a, operator, b))
  {
    hide ScanOver, Glue;
    var glue := Glue(operator);
    var p := a + glue;
    var s := p + b;
    GlueIsFresh(a, operator);
    ClosedJoined(a, operator, b);
    forall k | 0 <= k <= |s| ensures ScanOver(START, s[..k]).depth >= 0 {
      if k <= |a| {
        assert s[..k] == a[..k];
      } else if k <= |p| {
        assert s[..k] == a + glue[..k - |a|];
        ScanConcat(START, a, glue[..k - |a|]);
        GlueDepth(ScanOver(START, a), operator, k - |a|);
      } else {
        ScanFrom(p, k - |p|, b);
      }
    }
  }

  lemma {:induction false} GlueDepth(st: Scan, operator: string, k: nat)
    requires Keyword(operator) && st.quote == Plain && 0 < k <= |Glue(operator)|
    ensures ScanOver(st, Glue(operator)[..k]) == st.(escaped := false)
  {
    var glue := Glue(operator);
    ScanStep(st, glue, k - 1);
    assert glue[..0] == "";
    if k <= 1 {
    } else {
      GlueDepth(st, operator, k - 1);
    }
  }

  lemma ShapeJoined(a: string, operator: string, b: string)
    requires Keyword(operator) && Shape(a) && Shape(b)
    ensures Shape(Joined(a, operator, b))
  {
    BalancedJoined(a, operator, b);
    var s := Joined(a, operator, b);
    assert s[0] == a[0] && s[|s| - 1] == b[|b| - 1];
  }

  lemma ShapeParens(t: string)
    requires Balanced(t)
    ensures Shape(Parens(t)) && Atomic(Parens(t))
  {
    ParensAtomic(t, "AND");
    ParensAtomic(t, "OR");
  }

  lemma LiteralShape(field: string, op: string, lit: string)
    requires Name(field) && Operator(op) && Literal(lit)
    ensures Shape(Prefix(field, op) + lit) && Atomic(Prefix(field, op) + lit)
  {
    hide Balanced, NoOperator, InsideQuotes, ScanOver;
    LiteralAtomic(field, op, lit, "AND");
    LiteralAtomic(field, op, lit, "OR");
    var s := Prefix(field, op) + lit;
    assert s[0] == field[0] && s[|s| - 1] == lit[|lit| - 1];
  }

  lemma WordShape(field: string, op: string, word: string)
    requires Name(field) && Operator(op) && Bare(word)
    ensures Shape(Prefix(field, op) + word) && Atomic(Prefix(field, op) + word)
  {
    hide Balanced, NoOperator;
    WordAtomic(field, op, word, "AND");
    WordAtomic(field, op, word, "OR");
    var s := Prefix(field, op) + word;
    assert s[0] == field[0] && s[|s| - 1] == word[|word| - 1];
  }

  lemma FreeShape(p: Phrase)
    requires FreePhrase(p)
    ensures Shape(PhraseText(p)) && Atomic(PhraseText(p))
  {
    hide Balanced, NoOperator, JsonQuote, TickQuote, Sentence, Literal, Unsigned;
    QueryWords.PhraseShape(p);
    match p
    case Words(words) =>
      assert forall i :: 0 <= i < |words| ==> Bare(words[i]);
      SentenceNoOperator(words, "AND");
      SentenceNoOperator(words, "OR");
    case Quoted(v) =>
      JsonLiteral(v);
      LiteralAlone(JsonQuote(v), "AND");
      LiteralAlone(JsonQuote(v), "OR");
    case Ticked(raw) =>
      TickLiteral(raw);
      LiteralAlone(TickQuote(raw), "AND");
      LiteralAlone(TickQuote(raw), "OR");
  }

  lemma SearchShape(inner: string)
    requires Balanced(inner)
    ensures Shape(SearchText(inner)) && Atomic(SearchText(inner))
  {
    hide Balanced, NoOperator;
    SearchAtomic(inner, "AND");
    SearchAtomic(inner, "OR");
  }

  lemma {:induction false} PrefixedBalanced(p: string, phrase: Phrase)
    requires Mild(p) && ScanOver(START, p) == START && GoodPhrase(phrase)
    ensures Balanced(p + PhraseText(phrase))
  {
    hide JsonQuote, TickQuote, Sentence, ScanOver, Literal;
    forall j | 0 <= j <= |p| ensures ScanOver(START, p[..j]).depth >= 0 {
      ScanMild(START, p[..j]);
    }
    match phrase
    case Words(words) =>
      SentenceMild(words);
      MildIsBalanced(p + Sentence(words));
    case Quoted(v) =>
      JsonLiteral(v);
      PrefixedLiteral(p, JsonQuote(v));
    case Ticked(raw) =>
      TickLiteral(raw);
      PrefixedLiteral(p, TickQuote(raw));
  }

  lemma PrefixedLiteral(p: string, lit: string)
    requires ScanOver(START, p) == START && Literal(lit)
    requires forall j :: 0 <= j <= |p| ==> ScanOver(START, p[..j]).depth >= 0
    ensures Balanced(p + lit)
  {
    hide ScanOver, Literal;
    LiteralCloses(p, lit);
    forall k | 0 <= k <= |p + lit| { LiteralDepth(p, lit, k); }
  }

  /** The scope of a search is read to its end, comma and blank included. */
  lemma ScopeScans(scope: string)
    requires SearchLabel(scope)
    ensures Mild(scope + ", ") && ScanOver(START, scope + ", ") == START
  {
    hide ScanOver;
    WordAndBlank(scope + ",");
    assert scope + ", " == scope + "," + " ";
  }

  lemma LabelledBalanced(scope: string, p: Phrase)
    requires SearchLabel(scope) && GoodPhrase(p)
    ensures Balanced(Labelled(scope, p))
  {
    hide ScanOver, Balanced, PhraseText, GoodPhrase;
    ScopeScans(scope);
    PrefixedBalanced(scope + ", ", p);
  }

  lemma AndShape(a: string, b: string)
    requires Shape(a) && Shape(b) && NoOperator(a, "OR") && NoOperator(b, "OR")
    ensures Shape(Joined(a, "AND", b)) && NoOperator(Joined(a, "AND", b), "OR")
  {
    hide NoOperator, Joined;
    ShapeJoined(a, "AND", b);
    NoOperatorJoined(a, "AND", b, "OR");
  }

  lemma {:induction false} PrintShape(x: Expr)
    requires WellFormed(x)
    ensures Shape(Print(x))
    ensures !x.Or? ==> NoOperator(Print(x), "OR")
    ensures !x.Or? && !x.And? ==> Atomic(Print(x))
    decreases x, 0
  {
    hide Shape, NoOperator, Balanced, Joined, Parens, Prefix, JsonQuote, TickQuote, SearchText, Name, Operator, Literal,
      PhraseText, Labelled, GoodPhrase, Bare;
    match x
    case Compare(field, op, value) =>
      JsonLiteral(value);
      LiteralShape(field, op, JsonQuote(value));
    case Tick(field, op, raw) =>
      TickLiteral(raw);
      LiteralShape(field, op, TickQuote(raw));
    case Word(field, op, word) => WordShape(field, op, word);
    case Free(p) => FreeShape(p);
    case Search(p) =>
      QueryWords.PhraseShape(p);
      SearchShape(PhraseText(p));
    case SearchIn(scope, p) =>
      LabelledBalanced(scope, p);
      SearchShape(Labelled(scope, p));
    case UserText(query) => ShapeParens(query);
    case Group(inner) =>
      PrintShape(inner);
      ShapeIsBalanced(Print(inner));
      ShapeParens(Print(inner));
    case And(l, r) =>
      OperandShape(l);
      OperandShape(r);
      AndShape(PrintOperand(l), PrintOperand(r));
    case Or(l, r) =>
      PrintShape(l);
      PrintShape(r);
      ShapeJoined(Print(l), "OR", Print(r));
  }

  lemma ShapeIsBalanced(t: string)
    requires Shape(t)
    ensures Balanced(t) && Closed(t)
  {}

  lemma {:induction false} OperandShape(x: Expr)
    requires WellFormed(x)
    ensures Shape(PrintOperand(x)) && NoOperator(PrintOperand(x), "OR")
    decreases x, 1
  {
    PrintShape(x);
    if x.Or? {
      ShapeParens(Print(x));
    }
  }

  // ---- the normaliser leaves the tree's own text alone ----------------------

  /** The tree after every user text went through the line-break rewrite. */
  function Rewritten(x: Expr): Expr {
    match x
    case UserText(query) => UserText(Rewrite(query))
    case Group(inner) => Group(Rewritten(inner))
    case And(l, r) => And(Rewritten(l), Rewritten(r))
    case Or(l, r) => Or(Rewritten(l), Rewritten(r))
    case _ => x
  }

  lemma {:induction false} RewritePlainText(s: string)
    requires forall i :: 0 <= i < |s| ==> !LineBreak(s[i])
    ensures Rewrite(s) == s
  {
    RewriteOneLine(s);
  }

  lemma RewriteOpen(t: string)
    ensures Rewrite("(" + t) == "(" + Rewrite(t)
  {
    ScanStep(START, "(", 0);
    assert "("[..0] == "" && "("[..1] == "(";
    RewritePlainText("(");
    RewriteConcat("(", t);
  }

  lemma RewriteClose(p: string)
    requires ScanOver(START, p).quote == Plain
    ensures Rewrite(p + ")") == Rewrite(p) + ")"
  {
    RewritePlainText(")");
    RewriteConcat(p, ")");
  }

  lemma RewriteParens(t: string)
    requires Closed(t)
    ensures Rewrite(Parens(t)) == Parens(Rewrite(t))
  {
    ScanParens(t, |t|);
    assert Parens(t)[..1 + |t|] == "(" + t && t[..|t|] == t;
    RewriteOpen(t);
    RewriteClose("(" + t);
  }

  lemma RewriteJoined(a: string, operator: string, b: string)
    requires Keyword(operator) && Closed(a)
    ensures Rewrite(Joined(a, operator, b)) == Joined(Rewrite(a), operator, Rewrite(b))
  {
    var glue := Glue(operator);
    GlueIsFresh(a, operator);
    RewriteGlue(a, operator);
    IndependentAfterFresh(a + glue, b);
    RewriteConcat(a + glue, b);
  }

  lemma IndependentAfterFresh(p: string, b: string)
    requires Fresh(p)
    ensures Independent(p, b)
  {}

  lemma RewriteGlue(a: string, operator: string)
    requires Keyword(operator) && Closed(a)
    ensures Rewrite(a + Glue(operator)) == Rewrite(a) + Glue(operator)
  {
    hide Rewrite, ScanOver;
    RewriteConcat(a, Glue(operator));
    RewritePlainText(Glue(operator));
  }

  /** Line breaks inside quotes stay, and a finished prefix has none. */
  lemma RewriteLiteral(p: string, lit: string)
    requires OnOneLine(p) && ScanOver(START, p) == START && Literal(lit)
    ensures Rewrite(p + lit) == p + lit
  {
    hide ScanOver, Rewrite, InsideQuotes;
    var s := p + lit;
    forall i | 0 <= i < |s| && LineBreak(s[i]) ensures ScanOver(START, s[..i + 1]).quote != Plain {
      assert i >= |p| && s[i] == lit[i - |p|];
      assert !LineBreak(lit[|lit| - 1]);
      ScanPrefixed(p, lit, i + 1 - |p|);
    }
    RewriteOneLine(s);
  }

  lemma RewriteCompare(field: string, op: string, lit: string)
    requires Name(field) && Operator(op) && Literal(lit)
    ensures Rewrite(Prefix(field, op) + lit) == Prefix(field, op) + lit
  {
    hide Rewrite, Literal, ScanOver;
    PrefixInert(field, op);
    RewriteLiteral(Prefix(field, op), lit);
  }

  lemma RewriteWord(field: string, op: string, word: string)
    requires Name(field) && Operator(op) && Bare(word)
    ensures Rewrite(Prefix(field, op) + word) == Prefix(field, op) + word
  {
    hide Rewrite;
    RewritePlainText(Prefix(field, op) + word);
  }

  lemma {:induction false} SentenceOnOneLine(words: seq<string>)
    requires forall i :: 0 <= i < |words| ==> Solid(words[i])
    ensures OnOneLine(Sentence(words))
  {
    if |words| <= 1 {
    } else {
      SentenceOnOneLine(words[1..]);
      OneLineJoined(words[0] + " ", Sentence(words[1..]));
    }
  }

  lemma OneLineJoined(a: string, b: string)
    requires OnOneLine(a) && OnOneLine(b)
    ensures OnOneLine(a + b)
  {}

  lemma RewritePhrase(p: string, phrase: Phrase)
    requires OnOneLine(p) && ScanOver(START, p) == START && GoodPhrase(phrase)
    ensures Rewrite(p + PhraseText(phrase)) == p + PhraseText(phrase)
  {
    hide Rewrite, ScanOver, JsonQuote, TickQuote, Sentence, Literal, OnOneLine;
    match phrase
    case Words(words) =>
      SentenceOnOneLine(words);
      OneLineJoined(p, Sentence(words));
      OneLineStays(p + Sentence(words));
    case Quoted(v) =>
      JsonLiteral(v);
      RewriteLiteral(p, JsonQuote(v));
    case Ticked(raw) =>
      TickLiteral(raw);
      RewriteLiteral(p, TickQuote(raw));
  }

  lemma OneLineStays(s: string)
    requires OnOneLine(s)
    ensures Rewrite(s) == s
  {
    RewritePlainText(s);
  }

  lemma RewriteFree(phrase: Phrase)
    requires GoodPhrase(phrase)
    ensures Rewrite(PhraseText(phrase)) == PhraseText(phrase)
  {
    hide Rewrite, PhraseText, GoodPhrase;
    RewritePhrase("", phrase);
    assert "" + PhraseText(phrase) == PhraseText(phrase);
  }

  lemma RewriteLabelled(scope: string, p: Phrase)
    requires SearchLabel(scope) && OnOneLine(scope) && GoodPhrase(p)
    ensures Rewrite(Labelled(scope, p)) == Labelled(scope, p)
  {
    hide Rewrite, ScanOver, PhraseText, GoodPhrase;
    ScopeScans(scope);
    RewritePhrase(scope + ", ", p);
  }

  lemma RewriteSearch(inner: string)
    requires Closed(inner)
    ensures Rewrite(SearchText(inner)) == SearchText(Rewrite(inner))
  {
    hide Rewrite, ScanOver, Closed;
    RewriteParens(inner);
    ScanInert(START, "SEARCH");
    RewriteConcat("SEARCH", Parens(inner));
    RewritePlainText("SEARCH");
  }

  lemma {:induction false} RewritePrint(x: Expr)
    requires WellFormed(x)
    ensures Rewrite(Print(x)) == Print(Rewritten(x))
    decreases x, 0
  {
    hide Rewrite, Shape, NoOperator, Balanced, Joined, Parens, Prefix, JsonQuote, TickQuote, SearchText, Name, Operator,
      Literal, PhraseText, Labelled, GoodPhrase, Bare;
    match x
    case Compare(field, op, value) =>
      JsonLiteral(value);
      RewriteCompare(field, op, JsonQuote(value));
    case Tick(field, op, raw) =>
      TickLiteral(raw);
      RewriteCompare(field, op, TickQuote(raw));
    case Word(field, op, word) => RewriteWord(field, op, word);
    case Free(p) => FreeIsGood(p); RewriteFree(p);
    case Search(p) =>
      QueryWords.PhraseShape(p);
      BalancedIsClosed(PhraseText(p));
      RewriteSearch(PhraseText(p));
      RewriteFree(p);
    case SearchIn(scope, p) =>
      LabelledBalanced(scope, p);
      BalancedIsClosed(Labelled(scope, p));
      RewriteSearch(Labelled(scope, p));
      RewriteLabelled(scope, p);
    case UserText(query) =>
      BalancedIsClosed(query);
      RewriteParens(query);
    case Group(inner) =>
      PrintShape(inner);
      ShapeIsBalanced(Print(inner));
      RewritePrint(inner);
      RewriteParens(Print(inner));
    case And(l, r) =>
      OperandShape(l);
      ShapeIsBalanced(PrintOperand(l));
      RewriteOperand(l);
      RewriteOperand(r);
      RewriteJoined(PrintOperand(l), "AND", PrintOperand(r));
    case Or(l, r) =>
      PrintShape(l);
      ShapeIsBalanced(Print(l));
      RewritePrint(l);
      RewritePrint(r);
      RewriteJoined(Print(l), "OR", Print(r));
  }

  lemma FreeIsGood(p: Phrase)
    requires FreePhrase(p)
    ensures GoodPhrase(p)
  {}

  lemma BalancedIsClosed(t: string)
    requires Balanced(t)
    ensures Closed(t)
  {}

  lemma {:induction false} RewriteOperand(x: Expr)
    requires WellFormed(x)
    ensures Rewrite(PrintOperand(x)) == PrintOperand(Rewritten(x))
    decreases x, 1
  {
    PrintShape(x);
    RewritePrint(x);
    if x.Or? {
      RewriteParens(Print(x));
    }
  }

  /** Every user text is already free of unquoted line breaks. */
  ghost predicate Settled(x: Expr) {
    match x
    case UserText(query) => Rewrite(query) == query
    case Group(inner) => Settled(inner)
    case And(l, r) => Settled(l) && Settled(r)
    case Or(l, r) => Settled(l) && Settled(r)
    case _ => true
  }

  lemma {:induction false} BalancedRewrite(q: string)
    requires Balanced(q)
    ensures Balanced(Rewrite(q))
  {
    ScanRewrite(q);
    RewriteDepths(q, |q|);
    assert q[..|q|] == q;
  }

  ghost predicate NeverNegative(s: string) {
    forall k :: 0 <= k <= |s| ==> ScanOver(START, s[..k]).depth >= 0
  }

  lemma NothingWritten(q: string)
    ensures NeverNegative(Rewrite(q[..0]))
  {}

  lemma {:induction false} RewriteDepths(q: string, n: nat)
    requires n <= |q| && NeverNegative(q)
    ensures NeverNegative(Rewrite(q[..n]))
  {
    hide Emit, ScanOver, Rewrite;
    if n == 0 {
      assert NeverNegative(Rewrite(q[..0])) by { NothingWritten(q); }
    } else {
      RewriteDepths(q, n - 1);
      RewriteStep(q, n - 1);
      var left, emitted := Rewrite(q[..n - 1]), Emit(q, n - 1);
      forall k | 0 < k <= |emitted| ensures DepthAfter(left, emitted, k) {
        EmitDepth(q, n - 1, k);
      }
      DepthsOfBoth(left, emitted);
    }
  }

  ghost predicate DepthAfter(a: string, b: string, k: nat)
    requires k <= |b|
  {
    ScanOver(START, a + b[..k]).depth >= 0
  }

  lemma DepthsOfBoth(a: string, b: string)
    requires NeverNegative(a) && forall k :: 0 < k <= |b| ==> DepthAfter(a, b, k)
    ensures NeverNegative(a + b)
  {
    forall k | 0 <= k <= |a + b| ensures ScanOver(START, (a + b)[..k]).depth >= 0 {
      if k <= |a| {
        assert (a + b)[..k] == a[..k];
      } else {
        assert (a + b)[..k] == a + b[..k - |a|];
        assert DepthAfter(a, b, k - |a|);
      }
    }
  }

  lemma EmitKind(q: string, i: nat)
    requires i < |q|
    ensures Emit(q, i) == "" || Emit(q, i) == [q[i]] ||
            (Emit(q, i) == Glue("AND") && ScanOver(START, q[..i]).quote == Plain)
  {
    ScanStep(START, q, i);
  }

  lemma EmittedDepth(st: Scan, emitted: string, k: nat)
    requires 0 < k <= |emitted| && st.depth >= 0
    requires (emitted == Glue("AND") && st.quote == Plain) || (|emitted| == 1 && Advance(st, emitted[0]).depth >= 0)
    ensures ScanOver(st, emitted[..k]).depth >= 0
  {
    if emitted == Glue("AND") {
      GlueDepth(st, "AND", k);
    } else {
      ScanStep(st, emitted, 0);
    }
  }

  lemma EmitDepth(q: string, i: nat, k: nat)
    requires i < |q| && 0 < k <= |Emit(q, i)|
    requires ScanOver(START, q[..i]).depth >= 0 && ScanOver(START, q[..i + 1]).depth >= 0
    ensures DepthAfter(Rewrite(q[..i]), Emit(q, i), k)
  {
    ScanRewrite(q[..i]);
    ScanStep(START, q, i);
    EmitKind(q, i);
    EmittedDepth(ScanOver(START, q[..i]), Emit(q, i), k);
    ScanConcat(START, Rewrite(q[..i]), Emit(q, i)[..k]);
  }

  lemma {:induction false} RewrittenIsSettled(e: Subject, x: Expr)
    requires WellFormed(x)
    ensures WellFormed(Rewritten(x)) && Settled(Rewritten(x))
    ensures Meaning(e, Rewritten(x)) == Meaning(e, x)
  {
    match x
    case UserText(query) =>
      BalancedRewrite(query);
      RewriteTwice(query);
      SameNormalForm(e, Rewrite(query), query);
    case Group(inner) => RewrittenIsSettled(e, inner);
    case And(l, r) => RewrittenIsSettled(e, l); RewrittenIsSettled(e, r);
    case Or(l, r) => RewrittenIsSettled(e, l); RewrittenIsSettled(e, r);
    case _ =>
  }

  lemma {:induction false} RewrittenSettled(x: Expr)
    requires Settled(x)
    ensures Rewritten(x) == x
  {
    match x
    case Group(inner) => RewrittenSettled(inner);
    case And(l, r) => RewrittenSettled(l); RewrittenSettled(r);
    case Or(l, r) => RewrittenSettled(l); RewrittenSettled(r);
    case _ =>
  }

  // ---- evaluation of printed text -------------------------------------------

  ghost predicate AndHolds(e: Subject, part: string) {
    forall clause :: clause in Split(part, "AND") ==> MatchesExplorerClause(e, clause)
  }

  ghost predicate OrHolds(e: Subject, query: string) {
    exists part :: part in Split(query, "OR") && AndHolds(e, part)
  }

  lemma MatchesQueryMeans(e: Subject, query: string)
    ensures MatchesQuery(e, query) <==> Normalize(query) == "" || OrHolds(e, Normalize(query))
  {}

  lemma SameNormalForm(e: Subject, p: string, q: string)
    requires Normalize(p) == Normalize(q)
    ensures MatchesQuery(e, p) == MatchesQuery(e, q)
  {
    MatchesQueryMeans(e, p);
    MatchesQueryMeans(e, q);
  }

  lemma AndHoldsJoined(e: Subject, a: string, b: string)
    requires Closed(a)
    ensures AndHolds(e, Joined(a, "AND", b)) == (AndHolds(e, a) && AndHolds(e, b))
  {
    SplitJoined(a, "AND", b);
  }

  lemma OrHoldsJoined(e: Subject, a: string, b: string)
    requires Closed(a)
    ensures OrHolds(e, Joined(a, "OR", b)) == (OrHolds(e, a) || OrHolds(e, b))
  {
    SplitJoined(a, "OR", b);
    var s := Joined(a, "OR", b);
    if OrHolds(e, a) {
      var part :| part in Split(a, "OR") && AndHolds(e, part);
      assert part in Split(s, "OR");
    }
    if OrHolds(e, b) {
      var part :| part in Split(b, "OR") && AndHolds(e, part);
      assert part in Split(s, "OR");
    }
  }

  lemma AndHoldsSingle(e: Subject, t: string)
    requires NoOperator(t, "AND") && Trimmed(t)
    ensures AndHolds(e, t) == MatchesExplorerClause(e, t)
  {
    SplitSingle(t, "AND");
    TrimFixed(t);
    assert t in [t];
  }

  lemma OrHoldsSingle(e: Subject, t: string)
    requires NoOperator(t, "OR") && Trimmed(t)
    ensures OrHolds(e, t) == AndHolds(e, t)
  {
    SplitSingle(t, "OR");
    TrimFixed(t);
    assert t in [t];
  }

  lemma {:induction false} AndMeaning(e: Subject, x: Expr)
    requires WellFormed(x) && Settled(x) && !x.Or?
    ensures AndHolds(e, Print(x)) == Meaning(e, x)
    decreases x, 1
  {
    PrintShape(x);
    match x
    case Compare(field, op, value) =>
      AndHoldsSingle(e, Print(x));
      ClauseCompare(e, field, op, value);
    case Tick(field, op, raw) =>
      AndHoldsSingle(e, Print(x));
      ClauseTick(e, field, op, raw);
    case Word(field, op, word) =>
      AndHoldsSingle(e, Print(x));
      ClauseWord(e, field, op, word);
    case Free(p) =>
      AndHoldsSingle(e, Print(x));
      ClauseFree(e, p);
    case Search(p) =>
      AndHoldsSingle(e, Print(x));
      ClauseSearch(e, p);
    case SearchIn(scope, p) =>
      AndHoldsSingle(e, Print(x));
      ClauseSearchIn(e, scope, p);
    case UserText(query) =>
      AndHoldsSingle(e, Print(x));
      ClauseParens(e, query);
    case Group(inner) =>
      AndHoldsSingle(e, Print(x));
      ClauseParens(e, Print(inner));
      SettledMeaning(e, inner);
    case And(l, r) =>
      OperandShape(l);
      AndHoldsJoined(e, PrintOperand(l), PrintOperand(r));
      OperandMeaning(e, l);
      OperandMeaning(e, r);
  }

  lemma {:induction false} OperandMeaning(e: Subject, x: Expr)
    requires WellFormed(x) && Settled(x)
    ensures AndHolds(e, PrintOperand(x)) == Meaning(e, x)
    decreases x, 4
  {
    PrintShape(x);
    if x.Or? {
      ShapeParens(Print(x));
      AndHoldsSingle(e, Parens(Print(x)));
      ClauseParens(e, Print(x));
      SettledMeaning(e, x);
    } else {
      AndMeaning(e, x);
    }
  }

  lemma {:induction false} OrMeaning(e: Subject, x: Expr)
    requires WellFormed(x) && Settled(x)
    ensures OrHolds(e, Print(x)) == Meaning(e, x)
    decreases x, 2
  {
    PrintShape(x);
    if x.Or? {
      PrintShape(x.left);
      OrHoldsJoined(e, Print(x.left), Print(x.right));
      OrMeaning(e, x.left);
      OrMeaning(e, x.right);
    } else {
      OrHoldsSingle(e, Print(x));
      AndMeaning(e, x);
    }
  }

  lemma {:induction false} SettledMeaning(e: Subject, x: Expr)
    requires WellFormed(x) && Settled(x)
    ensures MatchesQuery(e, Print(x)) == Meaning(e, x)
    decreases x, 3
  {
    PrintShape(x);
    RewritePrint(x);
    RewrittenSettled(x);
    TrimFixed(Print(x));
    MatchesQueryMeans(e, Print(x));
    OrMeaning(e, x);
  }

  /** The printed text means what the tree means, for every tree: no AND, OR,
      line break, quote, backslash or parenthesis inside a literal changes how
      the text is read. */
  lemma PrintedMeaning(e: Subject, x: Expr)
    requires WellFormed(x)
    ensures MatchesQuery(e, Print(x)) <==> Meaning(e, x)
  {
    RewritePrint(x);
    RewriteTwice(Print(x));
    SameNormalForm(e, Print(x), Rewrite(Print(x)));
    RewrittenIsSettled(e, x);
    SettledMeaning(e, Rewritten(x));
  }
}
