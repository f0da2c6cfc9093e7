/** How the Hub's clause expression reads the clauses the client prints. */
module QueryClauses {
  import opened Text
  import opened Options
  import opened Literals
  import opened QueryMatch
  import opened QueryTrims
  import opened QueryAtoms
  import opened QueryWords

  lemma {:induction false} FieldRunStops(field: string, rest: string)
    requires forall i :: 0 <= i < |field| ==> FieldChar(field[i])
    requires rest != "" ==> !FieldChar(rest[0])
    ensures FieldRun(field + rest) == field
  {
    if field == "" {
      assert field + rest == rest;
    } else {
      FieldRunStops(field[1..], rest);
      assert (field + rest)[1..] == field[1..] + rest;
    }
  }

  /** No operator sign. */
  predicate Unsigned(s: string) {
    forall i :: 0 <= i < |s| ==> s[i] !in "=!<>:"
  }

  /** The blanks of a regular expression: space, tab, line feed, form feed, return. */
  predicate Blanks(s: string) {
    forall i :: 0 <= i < |s| ==>
                  s[i] == ' ' || s[i] == '\t' || s[i] == '\n' || s[i] == '\U{0C}' || s[i] == '\r'
  }

  /** The text in front of an operator holds none, so it is found where it stands. */
  lemma {:induction false} IndexBehind(head: string, op: string, rest: string)
    requires Operator(op) && Unsigned(head)
    ensures IndexOf(head + (op + rest), op) == Some(|head|)
  {
    var s := head + (op + rest);
    if head == "" {
      assert s == op + rest && op <= op + rest;
    } else {
      IndexBehind(head[1..], op, rest);
      assert s[1..] == head[1..] + (op + rest);
      assert s[0] == head[0];
    }
  }

  lemma {:induction false} SkipBlanks(gap: string, t: string)
    requires Blanks(gap) && (t != "" ==> !Blank(t[0]))
    ensures SkipBlank(gap + t) == t
  {
    if gap == "" {
      assert gap + t == t;
    } else {
      SkipBlanks(gap[1..], t);
      assert (gap + t)[1..] == gap[1..] + t;
    }
  }

  lemma {:induction false} QuotedTailJson(v: string)
    ensures QuotedTail(JsonBody(v) + "\"") == Some("")
  {
    if v == "" {
      assert (JsonBody(v) + "\"")[1..] == "";
    } else {
      var head, tail := JsonChar(v[0]), JsonBody(v[1..]) + "\"";
      QuotedTailJson(v[1..]);
      assert JsonBody(v) + "\"" == head + tail;
      QuotedTailChar(v[0], tail);
    }
  }

  lemma QuotedTailChar(c: char, tail: string)
    ensures QuotedTail(JsonChar(c) + tail) == QuotedTail(tail)
  {
    var head := JsonChar(c);
    var s := head + tail;
    if |head| == 1 {
      assert s[1..] == tail;
    } else if |head| == 2 {
      assert s[2..] == tail;
    } else {
      assert s[2..] == head[2..] + tail;
      QuotedTailDigits(head[2..], tail);
    }
  }

  lemma {:induction false} QuotedTailDigits(digits: string, tail: string)
    requires forall i :: 0 <= i < |digits| ==> digits[i] != '"' && digits[i] != '\\'
    ensures QuotedTail(digits + tail) == QuotedTail(tail)
  {
    if digits == "" {
      assert digits + tail == tail;
    } else {
      QuotedTailDigits(digits[1..], tail);
      assert (digits + tail)[1..] == digits[1..] + tail;
    }
  }

  lemma {:induction false} WordRunAll(word: string)
    requires forall i :: 0 <= i < |word| ==> !IsSpace(word[i])
    ensures WordRun(word) == word
  {
    if word == "" {
    } else {
      WordRunAll(word[1..]);
    }
  }

  /** At an operator the alternatives listed before it fail. */
  lemma FirstOperator(field: string, op: string, rest: string)
    requires Operator(op) && rest != "" && rest[0] != '='
    requires TryOperator(field, op + rest, op).Some?
    ensures TryOperators(field, op + rest) == TryOperator(field, op + rest, op)
  {
    var tail := op + rest;
    assert tail[0] == op[0] && tail[1] == if |op| == 1 then rest[0] else op[1];
    forall other: string | other <= tail && other != ""
      ensures other[0] == op[0] && (|other| > 1 ==> other[1] == tail[1])
    {
      assert other[0] == tail[0];
    }
  }

  /** A value of a clause: it begins with no blank and no operator sign. */
  predicate ValueText(value: string) {
    value != "" && Trimmed(value) && value[0] != '='
  }

  lemma MatchValueSkips(gap: string, value: string)
    requires Blanks(gap) && value != "" && !Blank(value[0])
    ensures MatchValue(gap + value) == MatchValue(value)
  {
    SkipBlanks(gap, value);
    SkipBlanks("", value);
    assert "" + value == value;
  }

  lemma OperatorClause(field: string, op: string, gap: string, value: string, captures: (string, string))
    requires Operator(op) && Blanks(gap) && ValueText(value) && MatchValue(value) == Some(captures)
    ensures TryOperators(field, op + (gap + value)) == Some(Clause(field, op, captures.0, captures.1))
  {
    hide MatchValue;
    var tail := op + (gap + value);
    MatchValueSkips(gap, value);
    assert tail[|op|..] == gap + value && op <= tail;
    assert TryOperator(field, tail, op) == Some(Clause(field, op, captures.0, captures.1));
    assert (gap + value)[0] == if gap == "" then value[0] else gap[0];
    FirstOperator(field, op, gap + value);
  }

  /** The field and the blanks behind it are skipped. */
  lemma FieldClause(field: string, gap: string, tail: string)
    requires Name(field) && Blanks(gap) && tail != "" && !Blank(tail[0]) && !FieldChar(tail[0])
    ensures MatchClause(field + (gap + tail)) == TryOperators(field, tail)
  {
    var s := field + (gap + tail);
    assert SkipBlank(s) == s by {
      assert s[0] == field[0];
    }
    assert (gap + tail)[0] == if gap == "" then tail[0] else gap[0];
    FieldRunStops(field, gap + tail);
    assert s[|field|..] == gap + tail;
    SkipBlanks(gap, tail);
  }

  /** A clause with any blanks around its operator. */
  function Spread(field: string, before: string, op: string, after: string): string {
    field + before + op + after
  }

  lemma SpreadParts(field: string, before: string, op: string, after: string, value: string)
    ensures Spread(field, before, op, after) + value == field + (before + (op + (after + value)))
    ensures Spread(field, before, op, after) + value == (field + before) + (op + (after + value))
    ensures (Spread(field, before, op, after) + value)[|field + before| + |op|..] == after + value
  {
    assert field + before + op + after + value == (field + before + op) + (after + value);
    assert field + before + op + after + value == (field + before) + (op + (after + value));
    assert (field + before) + (op + (after + value)) == field + (before + (op + (after + value)));
  }

  lemma SpreadHead(field: string, before: string)
    requires Name(field) && Blanks(before)
    ensures Unsigned(field + before)
  {}

  lemma ReadParts(field: string, before: string, op: string, after: string, value: string, captures: (string, string))
    requires Name(field) && Operator(op) && Blanks(before) && Blanks(after) && ValueText(value)
    requires MatchValue(value) == Some(captures)
    ensures MatchClause(Spread(field, before, op, after) + value) == Some(Clause(field, op, captures.0, captures.1))
  {
    hide MatchValue, MatchClause, TryOperators, Spread;
    var tail := op + (after + value);
    SpreadParts(field, before, op, after, value);
    assert tail[0] == op[0];
    FieldClause(field, before, tail);
    OperatorClause(field, op, after, value, captures);
  }

  lemma BlanksAreSpace(gap: string)
    requires Blanks(gap)
    ensures AllSpace(gap)
  {}

  lemma ReadValue(field: string, before: string, op: string, after: string, value: string)
    requires Name(field) && Operator(op) && Blanks(before) && Blanks(after) && ValueText(value)
    ensures AfterOperator(Spread(field, before, op, after) + value, op) == value
  {
    hide IndexOf, Trim, Spread, FieldChar, Blank;
    SpreadParts(field, before, op, after, value);
    SpreadHead(field, before);
    IndexBehind(field + before, op, after + value);
    BlanksAreSpace(after);
    TrimAround(after, value, "");
    assert after + value + "" == after + value;
  }

  /** A clause whose value part reads as `captures` tests its field. */
  lemma ReadClause(e: Subject, field: string, before: string, op: string, after: string, value: string,
                   captures: (string, string), expected: string)
    requires Name(field) && Operator(op) && Blanks(before) && Blanks(after) && ValueText(value)
    requires MatchValue(value) == Some(captures)
    requires Expected(Clause(field, op, captures.0, captures.1), value) == Some(expected)
    ensures MatchesField(e, Spread(field, before, op, after) + value) == AnyValue(e, field, op, expected)
  {
    hide MatchValue, Spread, MatchClause, AfterOperator, ValueText;
    ReadParts(field, before, op, after, value, captures);
    ReadValue(field, before, op, after, value);
  }

  lemma PlainClause(e: Subject, field: string, before: string, op: string, after: string, value: string)
    requires Name(field) && ValueText(value) && value[|value| - 1] != ')'
    ensures var s := Spread(field, before, op, after) + value;
            MatchesExplorerClause(e, s) == MatchesField(e, s)
  {
    hide MatchesField, MatchesQuery, MatchesSearch, Trim;
    var s := Spread(field, before, op, after) + value;
    assert s[0] == field[0] && s[|s| - 1] == value[|value| - 1];
    TrimFixed(s);
  }

  /** How each kind of value is read. */
  lemma JsonValue(v: string)
    ensures var q := JsonQuote(v);
            ValueText(q) && q[|q| - 1] != ')' && MatchValue(q) == Some(("", "")) &&
            forall c: Clause :: Expected(c, q) == Some(v)
  {
    hide JsonBody, Unquote;
    var q := JsonQuote(v);
    assert q[1..] == JsonBody(v) + "\"";
    QuotedTailJson(v);
    UnquoteJson(v);
  }

  lemma {:induction false} TickTailRaw(raw: string)
    requires '`' !in raw
    ensures TickTail(raw + "`") == Some((raw, ""))
  {
    var s := raw + "`";
    if raw == "" {
      assert s[1..] == "";
    } else {
      TickTailRaw(raw[1..]);
      assert s[1..] == raw[1..] + "`" && raw == [raw[0]] + raw[1..];
    }
  }

  lemma TickValue(raw: string)
    requires '`' !in raw
    ensures var q := TickQuote(raw);
            ValueText(q) && q[|q| - 1] != ')' && MatchValue(q) == Some((raw, "")) &&
            forall c: Clause :: c.ticked == raw ==> Expected(c, q) == Some(raw)
  {
    hide TickTail;
    var q := TickQuote(raw);
    assert q[1..] == raw + "`";
    TickTailRaw(raw);
  }

  lemma WordValue(word: string)
    requires Bare(word)
    ensures word != "" && Trimmed(word) && word[|word| - 1] != ')' && MatchValue(word) == Some(("", word)) &&
            forall c: Clause :: c.bare == word ==> Expected(c, word) == Some(word)
  {
    hide Reserved;
    WordRunAll(word);
    assert word[|word|..] == "";
    assert !IsSpace(word[0]) && !IsSpace(word[|word| - 1]);
  }

  /** A comparison reads as its field, operator and value, whatever blanks stand
      around the operator. */
  lemma ClauseSpread(e: Subject, field: string, before: string, op: string, after: string, v: string)
    requires Name(field) && Operator(op) && Blanks(before) && Blanks(after)
    ensures MatchesExplorerClause(e, Spread(field, before, op, after) + JsonQuote(v)) == AnyValue(e, field, op, v)
  {
    hide JsonQuote, MatchValue, MatchesExplorerClause, MatchesField, AnyValue, Spread, ValueText, Expected;
    JsonValue(v);
    ReadClause(e, field, before, op, after, JsonQuote(v), ("", ""), v);
    PlainClause(e, field, before, op, after, JsonQuote(v));
  }

  /** A value in backticks is taken as it stands. */
  lemma ClauseTicked(e: Subject, field: string, before: string, op: string, after: string, raw: string)
    requires Name(field) && Operator(op) && Blanks(before) && Blanks(after) && '`' !in raw
    ensures MatchesExplorerClause(e, Spread(field, before, op, after) + TickQuote(raw)) == AnyValue(e, field, op, raw)
  {
    hide TickQuote, MatchValue, MatchesExplorerClause, MatchesField, AnyValue, Spread, ValueText, Expected;
    TickValue(raw);
    ReadClause(e, field, before, op, after, TickQuote(raw), (raw, ""), raw);
    PlainClause(e, field, before, op, after, TickQuote(raw));
  }

  /** And so is a bare word. */
  lemma ClauseBare(e: Subject, field: string, before: string, op: string, after: string, word: string)
    requires Name(field) && Operator(op) && Blanks(before) && Blanks(after) && Bare(word) && word[0] != '='
    ensures MatchesExplorerClause(e, Spread(field, before, op, after) + word) == AnyValue(e, field, op, word)
  {
    hide MatchValue, MatchesExplorerClause, MatchesField, AnyValue, Spread, Expected, Bare;
    WordValue(word);
    ReadClause(e, field, before, op, after, word, ("", word), word);
    PlainClause(e, field, before, op, after, word);
  }

  lemma PrefixIsSpread(field: string, op: string)
    ensures Prefix(field, op) == Spread(field, " ", op, " ")
  {}

  lemma ClauseCompare(e: Subject, field: string, op: string, v: string)
    requires Name(field) && Operator(op)
    ensures MatchesExplorerClause(e, Prefix(field, op) + JsonQuote(v)) == AnyValue(e, field, op, v)
  {
    PrefixIsSpread(field, op);
    hide MatchesExplorerClause, AnyValue, Prefix, Spread;
    ClauseSpread(e, field, " ", op, " ", v);
  }

  lemma ClauseTick(e: Subject, field: string, op: string, raw: string)
    requires Name(field) && Operator(op) && '`' !in raw
    ensures MatchesExplorerClause(e, Prefix(field, op) + TickQuote(raw)) == AnyValue(e, field, op, raw)
  {
    PrefixIsSpread(field, op);
    hide MatchesExplorerClause, AnyValue, Prefix, Spread;
    ClauseTicked(e, field, " ", op, " ", raw);
  }

  lemma ClauseWord(e: Subject, field: string, op: string, word: string)
    requires Name(field) && Operator(op) && Bare(word) && word[0] != '='
    ensures MatchesExplorerClause(e, Prefix(field, op) + word) == AnyValue(e, field, op, word)
  {
    PrefixIsSpread(field, op);
    hide MatchesExplorerClause, AnyValue, Prefix, Spread, Bare;
    ClauseBare(e, field, " ", op, " ", word);
  }

  // ---- text searches -----------------------------------------------------------

  lemma {:induction false} SkipBlankEnds(s: string)
    ensures exists k :: 0 <= k <= |s| && SkipBlank(s) == s[k..]
  {
    if s == "" || !Blank(s[0]) {
      assert SkipBlank(s) == s[0..];
    } else {
      SkipBlankEnds(s[1..]);
      var k :| 0 <= k <= |s[1..]| && SkipBlank(s[1..]) == s[1..][k..];
      assert s[1..][k..] == s[k + 1..];
    }
  }

  lemma UnsignedTail(s: string)
    requires Unsigned(s)
    ensures Unsigned(SkipBlank(s))
  {
    hide SkipBlank;
    SkipBlankEnds(s);
    var k :| 0 <= k <= |s| && SkipBlank(s) == s[k..];
  }

  lemma NoOperatorSign(field: string, s: string)
    requires Unsigned(s)
    ensures TryOperators(field, s) == None
  {
    forall op: string | op <= s && op != "" ensures op[0] !in "=!<>:" {
      assert op[0] == s[0];
    }
  }

  /** Text without an operator sign is no comparison. */
  lemma UnsignedClause(s: string)
    requires Unsigned(s)
    ensures MatchClause(s) == None
  {
    hide SkipBlank, FieldRun, TryOperators;
    var t := SkipBlank(s);
    UnsignedTail(s);
    var rest := t[|FieldRun(t)|..];
    assert Unsigned(rest);
    UnsignedTail(rest);
    NoOperatorSign(FieldRun(t), SkipBlank(rest));
  }

  /** Neither is text that begins with a quote mark. */
  lemma QuotedClause(s: string)
    requires s != "" && QuoteMark(s[0])
    ensures MatchClause(s) == None
  {}

  /** Free words hold no operator sign; what is quoted may. */
  predicate FreePhrase(p: Phrase) {
    GoodPhrase(p) && (p.Words? ==> forall i :: 0 <= i < |p.words| ==> Unsigned(p.words[i]) && !Reserved(p.words[i]))
  }

  lemma {:induction false} SentenceUnsigned(words: seq<string>)
    requires forall i :: 0 <= i < |words| ==> Unsigned(words[i])
    ensures Unsigned(Sentence(words))
  {
    if |words| <= 1 {
    } else {
      SentenceUnsigned(words[1..]);
      UnsignedJoined(words[0] + " ", Sentence(words[1..]));
    }
  }

  lemma UnsignedJoined(a: string, b: string)
    requires Unsigned(a) && Unsigned(b)
    ensures Unsigned(a + b)
  {}

  lemma PhraseEnds(p: Phrase)
    requires GoodPhrase(p)
    ensures var s := PhraseText(p); s != "" && s[0] != '(' && s[|s| - 1] != ')' && Trimmed(s)
  {
    hide Sentence, JsonBody, IsSpace;
    PhraseShape(p);
    if p.Words? {
      SentenceMild(p.words);
    }
  }

  /** A phrase by itself is searched for in the entry's text. */
  lemma ClauseFree(e: Subject, p: Phrase)
    requires FreePhrase(p)
    ensures MatchesExplorerClause(e, PhraseText(p)) == PhraseIn(e.searchText, p)
  {
    hide PhraseText, ContainsQueryTokens, PhraseIn, MatchClause, Trim, MatchesQuery, MatchesSearch;
    var s := PhraseText(p);
    PhraseEnds(p);
    TrimFixed(s);
    FreeIsText(p);
    PhraseMeans(e.searchText, p);
  }

  lemma FreeIsText(p: Phrase)
    requires FreePhrase(p)
    ensures MatchClause(PhraseText(p)) == None
  {
    hide Sentence, MatchClause, JsonBody;
    if p.Words? {
      SentenceUnsigned(p.words);
      UnsignedClause(Sentence(p.words));
    } else {
      QuotedClause(PhraseText(p));
    }
  }

  /** SEARCH takes everything in its parentheses, when no comma divides it. */
  predicate SearchPhrase(p: Phrase) {
    GoodPhrase(p) && (p.Words? ==> ',' !in Sentence(p.words))
  }

  lemma {:induction false} NoIndex(s: string, c: char)
    requires c !in s
    ensures IndexOf(s, [c]) == None
  {
    if s == "" {
    } else {
      NoIndex(s[1..], c);
      assert s[0] != c;
    }
  }

  lemma {:induction false} IndexOfChar(head: string, c: char, rest: string)
    requires c !in head
    ensures IndexOf(head + [c] + rest, [c]) == Some(|head|)
  {
    var s := head + [c] + rest;
    if head == "" {
      assert [c] <= s;
    } else {
      IndexOfChar(head[1..], c, rest);
      assert s[1..] == head[1..] + [c] + rest && s[0] == head[0];
    }
  }

  /** SEARCH is written in any case. */
  lemma SearchFolds(e: Subject, word: string, inner: string)
    requires EqualFold(word, "SEARCH")
    ensures MatchesExplorerClause(e, word + Parens(inner)) == MatchesSearch(e, inner)
  {
    hide MatchesSearch, MatchesQuery, MatchesField, Trim, IsSpace;
    var s := word + Parens(inner);
    LettersAreNoSpace(word);
    TrimFixed(s);
    assert s[..7] == word + "(" && s[7..|s| - 1] == inner;
    assert forall i :: 0 <= i < 6 ==> (word + "(")[i] == word[i] && "SEARCH("[i] == "SEARCH"[i];
  }

  lemma LettersAreNoSpace(word: string)
    requires EqualFold(word, "SEARCH")
    ensures !IsSpace(word[0]) && word[0] != '(' && !IsSpace(')')
  {
    assert Lower(word[0]) == Lower("SEARCH"[0]);
  }

  lemma SameWord(word: string)
    ensures EqualFold(word, word)
  {}

  lemma SearchInner(e: Subject, inner: string)
    ensures MatchesExplorerClause(e, SearchText(inner)) == MatchesSearch(e, inner)
  {
    hide MatchesSearch, MatchesExplorerClause;
    SameWord("SEARCH");
    SearchFolds(e, "SEARCH", inner);
  }

  lemma ClauseSearch(e: Subject, p: Phrase)
    requires SearchPhrase(p)
    ensures MatchesExplorerClause(e, SearchText(PhraseText(p))) == PhraseIn(e.searchText, p)
  {
    hide PhraseText, ContainsQueryTokens, PhraseIn, Trim, MatchesExplorerClause, IndexOf;
    var s := PhraseText(p);
    SearchInner(e, s);
    PhraseEnds(p);
    TrimFixed(s);
    PhraseMeans(e.searchText, p);
    UndividedSearch(p);
  }

  lemma ClauseSearchFolds(e: Subject, word: string, p: Phrase)
    requires EqualFold(word, "SEARCH") && SearchPhrase(p)
    ensures MatchesExplorerClause(e, word + Parens(PhraseText(p))) == PhraseIn(e.searchText, p)
  {
    hide PhraseText, PhraseIn, MatchesExplorerClause, MatchesSearch, EqualFold;
    SearchFolds(e, word, PhraseText(p));
    SearchInner(e, PhraseText(p));
    ClauseSearch(e, p);
  }

  lemma UndividedSearch(p: Phrase)
    requires SearchPhrase(p)
    ensures var s := PhraseText(p); (s != "" && QuoteMark(s[0])) || AfterComma(s) == s
  {
    hide Sentence, JsonBody, IndexOf;
    if p.Words? {
      NoIndex(Sentence(p.words), ',');
    }
  }

  /** With a comma, what stands before the first one is passed over. */
  predicate SearchLabel(scope: string) {
    ',' !in scope && Mild(scope)
  }

  function Labelled(scope: string, p: Phrase): string {
    scope + ", " + PhraseText(p)
  }

  lemma ClauseSearchIn(e: Subject, scope: string, p: Phrase)
    requires SearchLabel(scope) && GoodPhrase(p)
    ensures MatchesExplorerClause(e, SearchText(Labelled(scope, p))) == PhraseIn(e.searchText, p)
  {
    hide PhraseText, ContainsQueryTokens, PhraseIn, MatchesExplorerClause, Trim, AfterComma, TrimLeft;
    var s := Labelled(scope, p);
    SearchInner(e, s);
    var head := TrimLeft(scope);
    PhraseEnds(p);
    LabelTrims(scope, PhraseText(p));
    LabelSkipped(head, PhraseText(p));
    PhraseMeans(e.searchText, p);
  }

  lemma LabelTrims(scope: string, s: string)
    requires Trimmed(s) && s != "" && SearchLabel(scope)
    ensures Trim(scope + ", " + s) == TrimLeft(scope) + ", " + s && SearchLabel(TrimLeft(scope))
  {
    hide TrimLeft, TrimRight;
    var rest := ", " + s;
    TrimLeftConcat(scope, rest);
    TrimLeftParts(scope);
    CommaFirst(s);
    var t := TrimLeft(scope) + rest;
    assert scope + ", " + s == scope + rest;
    assert TrimLeft(scope + rest) == t;
    TrimRightFixed(t);
  }

  lemma CommaFirst(s: string)
    ensures TrimLeft(", " + s) == ", " + s
  {}

  lemma TrimRightFixed(t: string)
    requires t != "" && !IsSpace(t[|t| - 1])
    ensures TrimRight(t) == t
  {}

  lemma LabelSkipped(head: string, s: string)
    requires SearchLabel(head) && Trimmed(s) && s != ""
    ensures var q := head + ", " + s; |q| >= 2 && !QuoteMark(q[0]) && Trim(AfterComma(q)) == s
  {
    hide Trim, IndexOf;
    var q := head + ", " + s;
    assert q == head + [','] + (" " + s);
    IndexOfChar(head, ',', " " + s);
    assert q[|head| + 1..] == " " + s;
    TrimLeading(' ', s);
    TrimFixed(s);
    assert q[0] == if head == "" then ',' else head[0];
  }

  lemma ClauseParens(e: Subject, t: string)
    ensures MatchesExplorerClause(e, Parens(t)) == MatchesQuery(e, t)
  {
    var c := Parens(t);
    TrimFixed(c);
    assert c[1..|c| - 1] == t;
  }
}
