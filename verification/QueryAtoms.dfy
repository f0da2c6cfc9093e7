/** The atoms the web client prints, each read back by the Hub as one clause. */
module QueryAtoms {
  import opened Text
  import opened Literals
  import opened QueryScan
  import opened QueryMatch
  import opened QueryLaws

  // ---- scanning plain text, literals and parentheses -----------------------

  /** The scan never goes below depth 0 and ends closed. */
  ghost predicate Balanced(s: string) {
    Closed(s) && forall k :: 0 <= k <= |s| ==> ScanOver(START, s[..k]).depth >= 0
  }

  predicate Inert(c: char) {
    c != '"' && c != '`' && c != '\\' && c != '(' && c != ')'
  }

  lemma {:induction false} ScanInert(st: Scan, s: string)
    requires st.quote == Plain && !st.escaped
    requires forall i :: 0 <= i < |s| ==> Inert(s[i])
    ensures ScanOver(st, s) == st
  {
    if s == "" {
    } else {
      ScanInert(st, s[..|s| - 1]);
    }
  }

  /** The scanner at `k` is still inside the literal that began at `st`. */
  ghost predicate StillInside(st: Scan, s: string, k: nat)
    requires k <= |s|
  {
    ScanOver(st, s[..k]).quote == Double && ScanOver(st, s[..k]).depth == st.depth
  }

  lemma InsideBoth(st: Scan, head: string, tail: string, k: nat)
    requires k <= |head| + |tail| && ScanOver(st, head) == st
    requires if k <= |head| then StillInside(st, head, k) else StillInside(st, tail, k - |head|)
    ensures StillInside(st, head + tail, k) && ScanOver(st, head + tail) == ScanOver(st, tail)
  {
    ScanConcat(st, head, tail);
    if k <= |head| {
      assert (head + tail)[..k] == head[..k];
    } else {
      assert (head + tail)[..k] == head + tail[..k - |head|];
      ScanConcat(st, head, tail[..k - |head|]);
    }
  }

  /** Inside a literal, what is no quote mark and no backslash changes nothing. */
  lemma {:induction false} ScanQuiet(st: Scan, s: string)
    requires st.quote == Double && !st.escaped
    requires forall i :: 0 <= i < |s| ==> s[i] != '"' && s[i] != '\\'
    ensures ScanOver(st, s) == st
  {
    if s == "" {
    } else {
      ScanQuiet(st, s[..|s| - 1]);
    }
  }

  /** A backslash takes the next character with it. */
  lemma ScanPair(st: Scan, c: char, k: nat)
    requires st.quote == Double && !st.escaped && k <= 2
    ensures StillInside(st, ['\\', c], k) && ScanOver(st, ['\\', c]) == st
  {
    var s := ['\\', c];
    ScanStep(st, s, 0);
    ScanStep(st, s, 1);
    assert s[..0] == "" && s[..2] == s;
  }

  lemma ScanJsonChar(st: Scan, c: char, k: nat)
    requires st.quote == Double && !st.escaped && k <= |JsonChar(c)|
    ensures StillInside(st, JsonChar(c), k) && ScanOver(st, JsonChar(c)) == st
  {
    hide ScanOver;
    var s := JsonChar(c);
    if |s| == 1 {
      ScanQuiet(st, s[..k]);
      ScanQuiet(st, s);
    } else {
      assert s == ['\\', s[1]] + s[2..];
      ScanPair(st, s[1], if k < 2 then k else 2);
      if k >= 2 {
        ScanQuiet(st, s[2..][..k - 2]);
      }
      ScanQuiet(st, s[2..]);
      InsideBoth(st, ['\\', s[1]], s[2..], k);
    }
  }

  /** No character of a quoted text closes the literal or moves the depth. */
  lemma {:induction false} ScanJsonBody(st: Scan, v: string, k: nat)
    requires st.quote == Double && !st.escaped && k <= |JsonBody(v)|
    ensures StillInside(st, JsonBody(v), k) && ScanOver(st, JsonBody(v)) == st
  {
    if v == "" {
    } else {
      var head, tail := JsonChar(v[0]), JsonBody(v[1..]);
      ScanJsonChar(st, v[0], if k < |head| then k else |head|);
      ScanJsonBody(st, v[1..], if k < |head| then 0 else k - |head|);
      InsideBoth(st, head, tail, k);
    }
  }

  lemma ScanQuoteMark(st: Scan)
    requires st.quote != Tick && !st.escaped
    ensures ScanOver(st, "\"") == st.(quote := if st.quote == Double then Plain else Double)
  {
    ScanStep(st, "\"", 0);
    assert "\""[..0] == "" && "\""[..1] == "\"";
  }

  /** Inside the literal the scanner is in a double quote; after it, as before. */
  lemma ScanJsonQuote(st: Scan, v: string, k: nat)
    requires st.quote == Plain && !st.escaped && 0 < k < |JsonQuote(v)|
    ensures ScanOver(st, JsonQuote(v)[..k]).quote == Double
    ensures ScanOver(st, JsonQuote(v)[..k]).depth == st.depth
    ensures ScanOver(st, JsonQuote(v)) == st
  {
    hide JsonBody, ScanOver;
    var body := JsonBody(v);
    var inside := ScanOver(st, "\"");
    ScanQuoteMark(st);
    ScanJsonBody(inside, v, k - 1);
    QuotedPrefix(body, k);
    ScanConcat(st, "\"", body[..k - 1]);
    ScanConcat(st, "\"", body);
    ScanConcat(st, "\"" + body, "\"");
    ScanQuoteMark(inside);
  }

  lemma QuotedPrefix(body: string, k: nat)
    requires 0 < k <= |body| + 1
    ensures ("\"" + body + "\"")[..k] == "\"" + body[..k - 1]
  {}

  // ---- where an operator cannot stand ---------------------------------------

  lemma OperatorIsLetters(s: string, operator: string, i: nat)
    requires Keyword(operator) && i < |s|
    ensures OperatorAt(s, operator, i) ==> Lower(s[i]) == 'a' || Lower(s[i]) == 'o'
    ensures OperatorAt(s, operator, i) ==> forall k :: i <= k < i + |operator| ==> 'a' <= Lower(s[k]) <= 'z'
  {
    if OperatorAt(s, operator, i) {
      var word := s[i..i + |operator|];
      assert forall k :: i <= k < i + |operator| ==>
                           s[k] == word[k - i] && Lower(word[k - i]) == Lower(operator[k - i]);
      assert word[0] == s[i];
    }
  }

  predicate Reserved(name: string) {
    EqualFold(name, "AND") || EqualFold(name, "OR")
  }

  /** A field name or bare word of the printer. */
  predicate Name(s: string) {
    s != "" && (forall i :: 0 <= i < |s| ==> FieldChar(s[i])) && !Reserved(s)
  }

  /** A word of a query: no white space in it. */
  predicate Solid(word: string) {
    word != "" && forall i :: 0 <= i < |word| ==> !IsSpace(word[i])
  }

  /** Neither quote marks nor parentheses. */
  predicate Mild(s: string) {
    forall i :: 0 <= i < |s| ==> !QuoteMark(s[i]) && s[i] != '(' && s[i] != ')'
  }

  /** A word that is read as text wherever it stands. */
  predicate Bare(word: string) {
    Solid(word) && Mild(word) && !Reserved(word)
  }

  lemma NameIsBare(name: string)
    requires Name(name)
    ensures Bare(name)
  {
    hide Reserved;
  }

  /** A word surrounded by blanks or text ends is never an operator, and no
      operator starts inside it. */
  lemma WordIsNoOperator(s: string, operator: string, at: nat, word: string, i: nat)
    requires Keyword(operator) && Solid(word) && !Reserved(word)
    requires at + |word| <= |s| && s[at..at + |word|] == word && at <= i < at + |word|
    requires at + |word| == |s| || s[at + |word|] == ' '
    ensures !OperatorAt(s, operator, i)
  {
    var stop := i + |operator|;
    OperatorIsLetters(s, operator, i);
    assert forall k :: at <= k < at + |word| ==> s[k] == word[k - at] && !IsSpace(s[k]);
    if i == at && stop == at + |word| {
      assert s[i..stop] == word;
    } else if i == at && stop > at + |word| && stop <= |s| {
      assert s[at + |word|] == ' ' && i <= at + |word| < stop;
    }
  }

  /** Text without quote marks and parentheses moves neither quotes nor depth. */
  lemma {:induction false} ScanMild(st: Scan, s: string)
    requires st.quote == Plain && Mild(s)
    ensures ScanOver(st, s).quote == Plain && ScanOver(st, s).depth == st.depth
  {
    if s == "" {
    } else {
      ScanMild(st, s[..|s| - 1]);
    }
  }

  lemma MildIsBalanced(s: string)
    requires Mild(s)
    ensures Balanced(s)
  {
    forall k | 0 <= k <= |s| ensures ScanOver(START, s[..k]).depth >= 0 {
      ScanMild(START, s[..k]);
    }
    ScanMild(START, s);
  }

  // ---- "(" text ")" ----------------------------------------------------------

  function Parens(t: string): string {
    "(" + t + ")"
  }

  lemma ScanParens(t: string, k: nat)
    requires k <= |t|
    ensures ScanOver(START, Parens(t)[..1 + k])
         == ScanOver(START, t[..k]).(depth := ScanOver(START, t[..k]).depth + 1)
  {
    var inside := ScanOver(START, "(");
    assert inside == START.(depth := 1) by {
      assert "("[..0] == "";
    }
    assert Parens(t)[..1 + k] == "(" + t[..k];
    ScanConcat(START, "(", t[..k]);
    ScanDeeper(START, 1, t[..k]);
  }

  lemma ParensClosed(t: string)
    requires Closed(t)
    ensures Closed(Parens(t))
  {
    var s := Parens(t);
    ScanParens(t, |t|);
    assert t[..|t|] == t;
    ScanStep(START, s, |t| + 1);
    assert s[..|s|] == s;
  }

  /** A parenthesised balanced text is one clause for both operators. */
  lemma ParensAtomic(t: string, operator: string)
    requires Keyword(operator) && Balanced(t)
    ensures NoOperator(Parens(t), operator) && Balanced(Parens(t))
  {
    var s := Parens(t);
    ParensClosed(t);
    forall i | 0 <= i < |s| ensures !OperatorAt(s, operator, i) {
      OperatorIsLetters(s, operator, i);
      if 0 < i <= |t| {
        ScanParens(t, i);
      }
    }
    forall k | 0 <= k <= |s| ensures ScanOver(START, s[..k]).depth >= 0 {
      if 0 < k < |s| {
        ScanParens(t, k - 1);
      } else if k == |s| {
        assert s[..k] == s;
      }
    }
  }

  // ---- field operator "literal" ----------------------------------------------

  function Prefix(field: string, op: string): string {
    field + " " + op + " "
  }

  lemma PrefixInert(field: string, op: string)
    requires Name(field) && Operator(op)
    ensures ScanOver(START, Prefix(field, op)) == START
    ensures forall k :: 0 <= k <= |Prefix(field, op)| ==> ScanOver(START, Prefix(field, op)[..k]) == START
  {
    var s := Prefix(field, op);
    forall i | 0 <= i < |s| ensures Inert(s[i]) {
      if i < |field| {
        assert s[i] == field[i];
      }
    }
    forall k | 0 <= k <= |s| ensures ScanOver(START, s[..k]) == START {
      ScanInert(START, s[..k]);
    }
    assert s[..|s|] == s;
  }

  lemma NoOperatorInPrefix(field: string, op: string, value: string, operator: string, i: nat)
    requires Keyword(operator) && Name(field) && Operator(op) && i < |Prefix(field, op)|
    ensures !OperatorAt(Prefix(field, op) + value, operator, i)
  {
    hide OperatorAt, EqualFold, FieldChar;
    var p := Prefix(field, op);
    var s := p + value;
    OperatorIsLetters(s, operator, i);
    assert s[i] == p[i];
    if i < |field| {
      assert s[0..|field|] == field;
      NameIsBare(field);
      WordIsNoOperator(s, operator, 0, field, i);
    }
  }

  // ---- literals ---------------------------------------------------------------

  /** Text the scanner reads inside quotes from its first character to its last. */
  ghost predicate Literal(lit: string) {
    && |lit| >= 2 && QuoteMark(lit[0]) && QuoteMark(lit[|lit| - 1]) && ScanOver(START, lit) == START
    && forall k :: 0 < k < |lit| ==> InsideQuotes(lit, k)
  }

  ghost predicate InsideQuotes(lit: string, k: nat)
    requires k <= |lit|
  {
    ScanOver(START, lit[..k]).quote != Plain && ScanOver(START, lit[..k]).depth == 0
  }

  lemma JsonLiteral(v: string)
    ensures Literal(JsonQuote(v))
  {
    hide ScanOver, JsonBody;
    ScanJsonQuote(START, v, 1);
    forall k | 0 < k < |JsonQuote(v)| ensures InsideQuotes(JsonQuote(v), k) {
      ScanJsonQuote(START, v, k);
    }
  }

  function TickQuote(raw: string): string {
    "`" + raw + "`"
  }

  /** Inside backticks nothing but a backtick matters. */
  lemma {:induction false} ScanTicked(raw: string)
    requires '`' !in raw
    ensures ScanOver(START, "`" + raw).quote == Tick && ScanOver(START, "`" + raw).depth == 0
  {
    var s := "`" + raw;
    if raw == "" {
      assert s[..0] == "";
    } else {
      ScanTicked(raw[..|raw| - 1]);
      assert s[..|s| - 1] == "`" + raw[..|raw| - 1];
    }
  }

  lemma TickLiteral(raw: string)
    requires '`' !in raw
    ensures Literal(TickQuote(raw))
  {
    var lit := TickQuote(raw);
    forall k | 0 < k < |lit| ensures InsideQuotes(lit, k) {
      assert lit[..k] == "`" + raw[..k - 1];
      ScanTicked(raw[..k - 1]);
    }
    assert lit[..|lit| - 1] == "`" + raw;
    ScanTicked(raw);
  }

  /** The scan over a literal that follows a finished prefix. */
  lemma {:induction false} ScanPrefixed(p: string, lit: string, k: nat)
    requires ScanOver(START, p) == START && Literal(lit) && 0 < k < |lit|
    ensures ScanOver(START, (p + lit)[..|p| + k]).quote != Plain
    ensures ScanOver(START, (p + lit)[..|p| + k]).depth == 0
    ensures ScanOver(START, p + lit) == START
  {
    hide ScanOver;
    ScanFrom(p, k, lit);
    assert InsideQuotes(lit, k);
    ScanConcat(START, p, lit);
  }

  lemma LiteralNoOperatorAt(p: string, lit: string, operator: string, i: nat)
    requires Keyword(operator) && ScanOver(START, p) == START && Literal(lit) && |p| <= i < |p + lit|
    ensures !OperatorAt(p + lit, operator, i)
  {
    hide ScanOver, EqualFold, InsideQuotes;
    OperatorIsLetters(p + lit, operator, i);
    assert (p + lit)[i] == lit[i - |p|];
    if i < |p + lit| - 1 {
      ScanPrefixed(p, lit, i + 1 - |p|);
    }
  }

  lemma LiteralDepth(p: string, lit: string, k: nat)
    requires ScanOver(START, p) == START && Literal(lit) && k <= |p + lit|
    requires forall j :: 0 <= j <= |p| ==> ScanOver(START, p[..j]).depth >= 0
    ensures ScanOver(START, (p + lit)[..k]).depth >= 0
  {
    hide ScanOver, InsideQuotes;
    if k <= |p| {
      assert (p + lit)[..k] == p[..k];
    } else if k < |p + lit| {
      ScanPrefixed(p, lit, k - |p|);
    } else {
      ScanPrefixed(p, lit, 1);
      assert (p + lit)[..k] == p + lit;
    }
  }

  /** A comparison with a literal is one clause for both operators. */
  lemma LiteralAtomic(field: string, op: string, lit: string, operator: string)
    requires Keyword(operator) && Name(field) && Operator(op) && Literal(lit)
    ensures NoOperator(Prefix(field, op) + lit, operator)
    ensures Balanced(Prefix(field, op) + lit)
  {
    hide ScanOver, OperatorAt, Name, Operator, Literal;
    var p := Prefix(field, op);
    PrefixInert(field, op);
    LiteralCloses(p, lit);
    forall i | 0 <= i < |p + lit| ensures !OperatorAt(p + lit, operator, i) {
      if i < |p| {
        NoOperatorInPrefix(field, op, lit, operator, i);
      } else {
        LiteralNoOperatorAt(p, lit, operator, i);
      }
    }
    forall k | 0 <= k <= |p + lit| { LiteralDepth(p, lit, k); }
  }

  lemma LiteralCloses(p: string, lit: string)
    requires ScanOver(START, p) == START && Literal(lit)
    ensures ScanOver(START, p + lit) == START
  {
    hide ScanOver;
    ScanPrefixed(p, lit, 1);
  }

  /** And so is a literal alone. */
  lemma LiteralAlone(lit: string, operator: string)
    requires Keyword(operator) && Literal(lit)
    ensures NoOperator(lit, operator) && Balanced(lit)
  {
    hide OperatorAt, Literal;
    assert "" + lit == lit;
    LiteralCloses("", lit);
    forall i | 0 <= i < |lit| { LiteralNoOperatorAt("", lit, operator, i); }
    forall k | 0 <= k <= |lit| { LiteralDepth("", lit, k); }
  }

  lemma CompareAtomic(field: string, op: string, v: string, operator: string)
    requires Keyword(operator) && Name(field) && Operator(op)
    ensures NoOperator(Prefix(field, op) + JsonQuote(v), operator)
    ensures Balanced(Prefix(field, op) + JsonQuote(v))
  {
    hide Literal, NoOperator, Balanced;
    JsonLiteral(v);
    LiteralAtomic(field, op, JsonQuote(v), operator);
  }

  lemma WordAtomic(field: string, op: string, word: string, operator: string)
    requires Keyword(operator) && Name(field) && Operator(op) && Bare(word)
    ensures NoOperator(Prefix(field, op) + word, operator)
    ensures Balanced(Prefix(field, op) + word)
  {
    hide ScanOver, OperatorAt, Reserved, EqualFold, Balanced;
    var p := Prefix(field, op);
    var s := p + word;
    forall i | 0 <= i < |s| ensures !OperatorAt(s, operator, i) {
      if i < |p| {
        NoOperatorInPrefix(field, op, word, operator, i);
      } else {
        assert s[|p|..|p| + |word|] == word;
        WordIsNoOperator(s, operator, |p|, word, i);
      }
    }
    NameIsBare(field);
    assert Mild(s);
    MildIsBalanced(s);
  }

  // ---- SEARCH(...) -------------------------------------------------------------

  function SearchText(inner: string): string {
    "SEARCH" + Parens(inner)
  }

  lemma SearchScan(inner: string, k: nat)
    requires k <= |Parens(inner)|
    ensures ScanOver(START, SearchText(inner)[..6 + k]) == ScanOver(START, Parens(inner)[..k])
  {
    hide Parens;
    ScanInert(START, "SEARCH");
    ScanFrom("SEARCH", k, Parens(inner));
  }

  lemma SearchDepth(inner: string, k: nat)
    requires Balanced(inner) && k <= |SearchText(inner)|
    ensures ScanOver(START, SearchText(inner)[..k]).depth >= 0
    ensures 7 <= k < |SearchText(inner)| ==> ScanOver(START, SearchText(inner)[..k]).depth >= 1
  {
    hide ScanOver;
    if k < 6 {
      assert SearchText(inner)[..k] == "SEARCH"[..k];
      ScanInert(START, "SEARCH"[..k]);
    } else {
      SearchScan(inner, k - 6);
      ParensDepth(inner, k - 6);
    }
  }

  lemma ParensDepth(t: string, k: nat)
    requires Balanced(t) && k <= |t| + 2
    ensures ScanOver(START, Parens(t)[..k]).depth >= 0
    ensures 0 < k < |t| + 2 ==> ScanOver(START, Parens(t)[..k]).depth >= 1
  {
    if k == |t| + 2 {
      ParensClosed(t);
      assert Parens(t)[..k] == Parens(t);
    } else if k > 0 {
      ScanParens(t, k - 1);
    }
  }

  lemma SearchAtomic(inner: string, operator: string)
    requires Keyword(operator) && Balanced(inner)
    ensures NoOperator(SearchText(inner), operator) && Balanced(SearchText(inner))
  {
    hide ScanOver, EqualFold;
    var s := SearchText(inner);
    forall k | 0 <= k <= |s| { SearchDepth(inner, k); }
    assert Closed(s) by {
      SearchScan(inner, |Parens(inner)|);
      ParensClosed(inner);
      assert Parens(inner)[..|Parens(inner)|] == Parens(inner) && s[..|s|] == s;
    }
    forall i | 0 <= i < |s| ensures !OperatorAt(s, operator, i) {
      OperatorIsLetters(s, operator, i);
      SearchDepth(inner, i + 1);
      if i < 7 {
        assert s[..7] == "SEARCH(" && s[i] == s[..7][i];
        if i > 0 {
          assert s[i - 1] == s[..7][i - 1];
        }
      }
    }
  }
}
