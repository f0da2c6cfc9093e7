/** Which field names the added clause can carry. */
module QueryFields {
  import opened Text
  import opened Options
  import opened Literals
  import opened QueryScan
  import opened QueryNormal
  import opened QueryMatch
  import opened QueryLaws
  import opened QueryAtoms
  import opened QueryClauses
  import opened QueryPrinter
  import opened QueryGroups

  function ClauseText(field: string, op: string, value: string): string {
    Prefix(field, op) + JsonQuote(value)
  }

  /** The text is one clause, read as this field and this operator. */
  ghost predicate ReadsBack(field: string, op: string, value: string) {
    var c := ClauseText(field, op, value);
    Split(c, "OR") == [c] && Split(c, "AND") == [c] && MatchClause(c) == Some(Clause(field, op, "", ""))
  }

  lemma {:induction false} FieldRunChars(s: string)
    ensures forall i :: 0 <= i < |FieldRun(s)| ==> FieldChar(FieldRun(s)[i])
  {
    if s == "" || !FieldChar(s[0]) {
    } else {
      FieldRunChars(s[1..]);
    }
  }

  lemma NameReadsBack(field: string, op: string, value: string)
    requires Name(field) && Operator(op)
    ensures ReadsBack(field, op, value)
  {
    var x := Compare(field, op, value);
    PrintShape(x);
    assert Print(x) == ClauseText(field, op, value);
    SplitSingle(Print(x), "OR");
    SplitSingle(Print(x), "AND");
    TrimFixed(Print(x));
    JsonValue(value);
    PrefixIsSpread(field, op);
    ReadParts(field, " ", op, " ", JsonQuote(value), ("", ""));
  }

  lemma ClauseField(c: string, field: string, op: string)
    requires MatchClause(c) == Some(Clause(field, op, "", ""))
    ensures field != "" && forall i :: 0 <= i < |field| ==> FieldChar(field[i])
  {
    FieldRunChars(SkipBlank(c));
    OperatorsKeepField(FieldRun(SkipBlank(c)), SkipBlank(SkipBlank(c)[|FieldRun(SkipBlank(c))|..]));
  }

  lemma OperatorsKeepField(field: string, s: string)
    ensures TryOperators(field, s).Some? ==> TryOperators(field, s).value.field == field
  {}

  /** A reserved name in front of a blank is the operator itself. */
  lemma ReservedSplits(field: string, rest: string, operator: string)
    requires Keyword(operator) && EqualFold(field, operator)
    ensures OperatorAt(field + " " + rest, operator, 0)
  {
    var s := field + " " + rest;
    assert s[0..|operator|] == field;
    assert Lower(field[0]) == Lower(operator[0]);
    ScanStep(START, s, 0);
    assert s[..0] == "" && s[0] == field[0];
  }

  lemma SplitsIfReserved(field: string, op: string, value: string, operator: string)
    requires Keyword(operator) && NoOperator(ClauseText(field, op, value), operator)
    ensures !EqualFold(field, operator)
  {
    if EqualFold(field, operator) {
      assert ClauseText(field, op, value) == field + " " + (op + " " + JsonQuote(value));
      ReservedSplits(field, op + " " + JsonQuote(value), operator);
    }
  }

  lemma BackToName(field: string, op: string, value: string)
    requires ReadsBack(field, op, value)
    ensures Name(field)
  {
    var c := ClauseText(field, op, value);
    ClauseField(c, field, op);
    OnePartNoOperator(c, "AND");
    OnePartNoOperator(c, "OR");
    SplitsIfReserved(field, op, value, "AND");
    SplitsIfReserved(field, op, value, "OR");
  }

  /** For every field: the clause that is written for it reads back exactly when
      the field is a name: letters, digits, underscores, dots and dashes, and
      neither AND nor OR. */
  lemma {:induction false} ReadsBackExactly(field: string, op: string, value: string)
    requires Operator(op)
    ensures ReadsBack(field, op, value) <==> Name(field)
  {
    if Name(field) {
      NameReadsBack(field, op, value);
    }
    if ReadsBack(field, op, value) {
      BackToName(field, op, value);
    }
  }

  // ---- a key with a space ------------------------------------------------------------------

  lemma NameInert(a: string)
    requires Name(a)
    ensures Fresh(a + " ")
  {
    ScanInert(START, a + " ");
  }

  /** The text of a field of two words, seen as a word in front of a clause. */
  lemma TwoWords(a: string, b: string, op: string, value: string)
    ensures ClauseText(a + " " + b, op, value) == (a + " ") + ClauseText(b, op, value)
  {
    assert ClauseText(a + " " + b, op, value) == a + " " + b + " " + op + " " + JsonQuote(value);
  }

  lemma TwoWordsAtomic(a: string, b: string, op: string, value: string, operator: string)
    requires Name(a) && Name(b) && Operator(op) && Keyword(operator)
    ensures NoOperator((a + " ") + ClauseText(b, op, value), operator)
  {
    hide ScanOver, JsonQuote, Prefix, Fresh, Name, Operator, OperatorAt;
    var p, d := a + " ", ClauseText(b, op, value);
    var s := p + d;
    NameInert(a);
    CompareAtomic(b, op, value, operator);
    forall i | 0 <= i < |s| ensures !OperatorAt(s, operator, i) {
      if i < |a| {
        assert s[0..|a|] == a && s[|a|] == ' ';
        NameIsBare(a);
        WordIsNoOperator(s, operator, 0, a, i);
      } else if i == |a| {
        OperatorIsLetters(s, operator, i);
      } else {
        OperatorShift(p, d, operator, i - |p|);
      }
    }
  }

  lemma NoSignFirst(field: string, s: string)
    requires s != "" && FieldChar(s[0])
    ensures TryOperators(field, s) == None
  {
    forall op: string | op <= s && op != "" ensures op[0] == s[0] {
      assert s[..|op|] == op;
    }
  }

  lemma TwoWordsNoClause(a: string, b: string, op: string, value: string)
    requires Name(a) && Name(b)
    ensures MatchClause((a + " ") + ClauseText(b, op, value)) == None
  {
    var d := ClauseText(b, op, value);
    var s := (a + " ") + d;
    assert s == a + (" " + d) && d[0] == b[0] && s[0] == a[0];
    FieldRunStops(a, " " + d);
    assert SkipBlank(s) == s;
    assert s[|a|..] == " " + d;
    SkipBlanks(" ", d);
    NoSignFirst(a, d);
  }

  lemma {:induction false} TrimQuotesKeeps(s: string)
    requires s != "" && !QuoteMark(s[0])
    ensures TrimQuotes(s) != "" && TrimQuotes(s)[0] == s[0]
    decreases |s|
  {
    if !QuoteMark(s[|s| - 1]) {
    } else {
      TrimQuotesKeeps(s[..|s| - 1]);
    }
  }

  /** Text with a word in it is in no empty text. */
  lemma NoTokens(s: string)
    requires Trimmed(s) && s != "" && !QuoteMark(s[0])
    ensures !ContainsQueryTokens("", s)
  {
    TrimFixed(s);
    TrimQuotesKeeps(s);
    var t := TrimQuotes(s);
    assert TrimLeft(t) == t;
    var word := FieldsWord(t);
    assert word != "" && word in Fields(t);
    assert !ContainsFold("", word);
  }

  /** An entry with nothing but a value under this field. */
  function OnlyField(field: string): Subject {
    Subject(f => if f == field then [FieldValue("", false)] else [], (v, op, expected, f) => true, "")
  }

  /** A key of two words fails: the clause that is written for it is read as a
      text search, so an entry that has the value is not matched. */
  lemma {:induction false} SpacedFieldFails(a: string, b: string, op: string, value: string)
    requires Name(a) && Name(b) && Operator(op)
    ensures var field := a + " " + b;
            !Name(field) && AnyValue(OnlyField(field), field, op, value)
            && !MatchesQuery(OnlyField(field), ClauseText(field, op, value))
  {
    var field := a + " " + b;
    var e, c := OnlyField(field), ClauseText(field, op, value);
    assert field[|a|] == ' ';
    assert FieldValue("", false) in e.values(field);
    TwoWords(a, b, op, value);
    TwoWordsUnmatched(e, a, b, op, value);
  }

  lemma {:induction false} TwoWordsUnmatched(e: Subject, a: string, b: string, op: string, value: string)
    requires Name(a) && Name(b) && Operator(op) && e.searchText == ""
    ensures !MatchesQuery(e, (a + " ") + ClauseText(b, op, value))
  {
    hide Rewrite, Trim, JsonBody, NoOperator, MatchClause, MatchesQuery;
    var c := (a + " ") + ClauseText(b, op, value);
    assert c[0] == a[0] && c[|c| - 1] == '"';
    TwoWordsOneLine(a, b, op, value);
    TrimFixed(c);
    TwoWordsAtomic(a, b, op, value, "OR");
    TwoWordsAtomic(a, b, op, value, "AND");
    OrHoldsSingle(e, c);
    AndHoldsSingle(e, c);
    TwoWordsNoClause(a, b, op, value);
    NoTokens(c);
    MatchesQueryMeans(e, c);
  }

  lemma TwoWordsOneLine(a: string, b: string, op: string, value: string)
    requires Name(a) && Name(b) && Operator(op)
    ensures Rewrite((a + " ") + ClauseText(b, op, value)) == (a + " ") + ClauseText(b, op, value)
  {
    hide Rewrite, JsonQuote;
    PrintedOneLine(b, op, value);
    RewriteTail(a + " ", ClauseText(b, op, value));
    RewritePlainText(a + " ");
  }
}
