/** A query typed over several lines. */
module QueryLines {
  import opened Text
  import opened QueryScan
  import opened QueryNormal
  import opened QueryMatch
  import opened QueryLaws
  import opened QueryTrims
  import opened QueryAtoms
  import opened QueryWords
  import opened QueryClauses
  import opened QueryPrinter
  import opened QueryClient

  function Lines(lines: seq<string>): string
    requires lines != []
  {
    if |lines| == 1 then lines[0] else lines[0] + "\n" + Lines(lines[1..])
  }

  /** Trimming the line leaves its parts as they are. */
  ghost predicate KeepsParts(line: string, operator: string)
    requires Keyword(operator)
  {
    Split(Normalize(line), operator) == Split(Rewrite(line), operator)
  }

  /** A line that means alone what it means among others: closed, free of OR,
      and split alike trimmed or not. */
  ghost predicate PlainLine(line: string) {
    Closed(line) && NoOperator(Rewrite(line), "OR") && KeepsParts(line, "AND") && KeepsParts(line, "OR")
  }

  lemma LineIsClean(line: string)
    requires PlainLine(line)
    ensures Clean(Rewrite(line), "AND") && Clean(Rewrite(line), "OR")
  {
    TrimKeepsParts(Rewrite(line), "AND");
    TrimKeepsParts(Rewrite(line), "OR");
  }

  // ---- the break behind a line --------------------------------------------------------------

  lemma ReturnIsInert(st: Scan)
    ensures Advance(st, '\r').quote == st.quote && Advance(st, '\r').depth == st.depth
  {}

  lemma EmitReturn(line: string, n: nat)
    requires n < |line| && line[n] == '\r' && ScanOver(START, line[..n + 1]).quote == Plain
    ensures Emit(line, n) == Glue("AND")
  {}

  lemma ClosedInit(line: string)
    requires Closed(line) && line != "" && line[|line| - 1] == '\r'
    ensures Closed(line[..|line| - 1]) && Rewrite(line) == Rewrite(line[..|line| - 1]) + Glue("AND")
  {
    var n := |line| - 1;
    assert line[..n + 1] == line;
    ReturnIsInert(ScanOver(START, line[..n]));
    EmitReturn(line, n);
  }

  /** The line without the return that forms one break with the newline. */
  function Head(line: string): string {
    if line != "" && line[|line| - 1] == '\r' then line[..|line| - 1] else line
  }

  lemma NewlineIsInert(st: Scan)
    ensures Advance(st, '\n') == st.(escaped := false)
  {}

  lemma ScanNewline(line: string)
    requires Closed(line)
    ensures var st := ScanOver(START, line + "\n"); st.quote == Plain && !st.escaped
  {
    var head := line + "\n";
    assert head[..|head| - 1] == line;
    NewlineIsInert(ScanOver(START, line));
  }

  lemma EmitNewline(line: string)
    requires Closed(line)
    ensures Emit(line + "\n", |line|) == if Head(line) == line then Glue("AND") else ""
  {
    var head := line + "\n";
    ScanNewline(line);
    assert head[..|line| + 1] == head;
    assert line != "" ==> head[|line| - 1] == line[|line| - 1];
  }

  lemma RewriteOneBreak(line: string)
    requires Closed(line)
    ensures Rewrite(line + "\n") == Rewrite(Head(line)) + Glue("AND") && Independent(line + "\n", "")
  {
    var head := line + "\n";
    ScanNewline(line);
    EmitNewline(line);
    assert head[..|head| - 1] == line;
    if Head(line) != line {
      ClosedInit(line);
    }
  }

  lemma RewriteLineBreak(line: string, rest: string)
    requires Closed(line)
    ensures Rewrite(line + "\n" + rest) == Joined(Rewrite(Head(line)), "AND", Rewrite(rest))
    ensures Closed(Rewrite(Head(line)))
  {
    RewriteOneBreak(line);
    ScanNewline(line);
    if Head(line) != line {
      ClosedInit(line);
    }
    ScanRewrite(Head(line));
    RewriteConcat(line + "\n", rest);
  }

  lemma EmptyClause(e: Subject)
    ensures AndHolds(e, "")
  {
    AndHoldsSingle(e, "");
  }

  lemma NoOperatorLeft(a: string, b: string, operator: string)
    requires Keyword(operator) && NoOperator(Joined(a, "AND", b), operator)
    ensures NoOperator(a, operator)
  {
    forall i | 0 <= i < |a| ensures !OperatorAt(a, operator, i) {
      OperatorInLeft(a, "AND", operator, b, i);
      assert i < |Joined(a, "AND", b)|;
    }
  }

  /** The line in front of the break has the line's meaning and its left end. */
  lemma HeadOfLine(e: Subject, line: string)
    requires PlainLine(line)
    ensures var a := Rewrite(Head(line));
            NoOperator(a, "OR") && LeftClean(a, "AND") && LeftClean(a, "OR") &&
            AndHolds(e, a) == AndHolds(e, Rewrite(line))
  {
    LineIsClean(line);
    if Head(line) != line {
      var a := Rewrite(Head(line));
      ClosedInit(line);
      assert Rewrite(line) == Joined(a, "AND", "");
      ScanRewrite(Head(line));
      NoOperatorLeft(a, "", "OR");
      LeftCleanJoined(a, "AND", "", "AND");
      LeftCleanJoined(a, "AND", "", "OR");
      AndHoldsJoined(e, a, "");
      EmptyClause(e);
    }
  }

  // ---- meaning ---------------------------------------------------------------------------------

  /** Text without OR means the conjunction of its parts, when trimming keeps them. */
  lemma TrimmedMeaning(e: Subject, r: string)
    requires NoOperator(r, "OR") && Clean(r, "AND") && Clean(r, "OR")
    ensures Trim(r) == "" || OrHolds(e, Trim(r)) <==> AndHolds(e, r)
  {
    var n := Trim(r);
    TrimKeepsParts(r, "AND");
    TrimKeepsParts(r, "OR");
    SplitSingle(r, "OR");
    assert n in Split(n, "OR");
    EmptyClause(e);
  }

  lemma LineMeaning(e: Subject, line: string)
    requires PlainLine(line)
    ensures AndHolds(e, Rewrite(line)) <==> MatchesQuery(e, line)
  {
    LineIsClean(line);
    TrimmedMeaning(e, Rewrite(line));
    MatchesQueryMeans(e, line);
  }

  ghost predicate AllMatch(e: Subject, lines: seq<string>) {
    forall l :: l in lines ==> MatchesQuery(e, l)
  }

  lemma AllMatchMore(e: Subject, lines: seq<string>)
    requires lines != []
    ensures AllMatch(e, lines) <==> MatchesQuery(e, lines[0]) && AllMatch(e, lines[1..])
  {
    assert lines == [lines[0]] + lines[1..];
  }

  /** The rewritten lines, ready to be trimmed and split. */
  ghost predicate LinesMean(e: Subject, lines: seq<string>)
    requires lines != []
  {
    var r := Rewrite(Lines(lines));
    NoOperator(r, "OR") && Clean(r, "AND") && Clean(r, "OR") && (AndHolds(e, r) <==> AllMatch(e, lines))
  }

  lemma LastLine(e: Subject, line: string)
    requires PlainLine(line)
    ensures LinesMean(e, [line])
  {
    LineIsClean(line);
    LineMeaning(e, line);
    AllMatchMore(e, [line]);
  }

  lemma {:induction false} EarlierLine(e: Subject, line: string, rest: seq<string>)
    requires PlainLine(line) && rest != [] && LinesMean(e, rest)
    ensures LinesMean(e, [line] + rest)
  {
    var a, r, lines := Rewrite(Head(line)), Rewrite(Lines(rest)), [line] + rest;
    assert lines[1..] == rest;
    LineMeaning(e, line);
    AllMatchMore(e, lines);
    HeadOfLine(e, line);
    RewriteLineBreak(line, Lines(rest));
    NoOperatorJoined(a, "AND", r, "OR");
    CleanJoined(a, "AND", r, "AND");
    CleanJoined(a, "AND", r, "OR");
    AndHoldsJoined(e, a, r);
  }

  lemma {:induction false} LinesRewritten(e: Subject, lines: seq<string>)
    requires lines != [] && forall l :: l in lines ==> PlainLine(l)
    ensures LinesMean(e, lines)
  {
    hide PlainLine, LinesMean;
    assert lines[0] in lines;
    if |lines| == 1 {
      LastLine(e, lines[0]);
      assert lines == [lines[0]];
    } else {
      LinesRewritten(e, lines[1..]);
      EarlierLine(e, lines[0], lines[1..]);
      assert lines == [lines[0]] + lines[1..];
    }
  }

  /** A query typed over several lines, empty ones included, means the
      conjunction of its lines. */
  lemma LinesMeanConjunction(e: Subject, lines: seq<string>)
    requires lines != [] && forall l :: l in lines ==> PlainLine(l)
    ensures MatchesQuery(e, Lines(lines)) <==> forall l :: l in lines ==> MatchesQuery(e, l)
  {
    LinesRewritten(e, lines);
    TrimmedMeaning(e, Rewrite(Lines(lines)));
    MatchesQueryMeans(e, Lines(lines));
    assert AllMatch(e, lines) <==> forall l :: l in lines ==> MatchesQuery(e, l);
  }

  // ---- which lines keep their parts -----------------------------------------------------------

  /** A line keeps its parts exactly when trimming frees no operator at its ends. */
  lemma KeepsPartsExactly(line: string, operator: string)
    requires Keyword(operator)
    ensures KeepsParts(line, operator)
       <==> LeftClean(Rewrite(line), operator) && RightClean(TrimLeft(Rewrite(line)), operator)
  {
    TrimKeepsParts(Rewrite(line), operator);
  }

  lemma ContextText(first: string, line: string, last: string)
    requires Closed(first) && Trimmed(first) && Closed(line) && Head(line) == line
    ensures Rewrite(Lines([first, line, last]))
         == Joined(Rewrite(first), "AND", Joined(Rewrite(line), "AND", Rewrite(last)))
    ensures Closed(Rewrite(first)) && Closed(Rewrite(line))
  {
    TrimmedLine(first);
    ThreeLines(first, line, last);
    RewriteLineBreak(line, last);
    RewriteLineBreak(first, line + "\n" + last);
  }

  lemma ContextSplit(a: string, r: string, b: string)
    requires Closed(a) && Trimmed(a) && Closed(r) && Trimmed(b)
    ensures Split(Trim(Joined(a, "AND", Joined(r, "AND", b))), "AND")
         == Split(a, "AND") + Split(r, "AND") + Split(b, "AND")
  {
    hide ScanOver, OperatorAt, Split, Trim;
    var inner := Joined(r, "AND", b);
    SplitJoined(r, "AND", b);
    SplitJoined(a, "AND", inner);
    ContextKeepsParts(a, inner, r, b);
    assert Split(a, "AND") + (Split(r, "AND") + Split(b, "AND")) == Split(a, "AND") + Split(r, "AND") + Split(b, "AND");
  }

  /** And that is what it takes among other lines: between two trimmed ones it is
      split as it is alone exactly when it keeps its parts. */
  lemma {:induction false} LineInContext(first: string, line: string, last: string)
    requires Closed(first) && Trimmed(first) && Closed(line) && Head(line) == line && Trimmed(last)
    ensures Split(Normalize(Lines([first, line, last])), "AND")
         == Split(Normalize(first), "AND") + Split(Normalize(line), "AND") + Split(Normalize(last), "AND")
       <==> KeepsParts(line, "AND")
  {
    var a, r, b := Rewrite(first), Rewrite(line), Rewrite(last);
    TrimmedLine(first);
    TrimmedLine(last);
    ContextText(first, line, last);
    ContextSplit(a, r, b);
    Cancel(Split(a, "AND"), Split(Trim(r), "AND"), Split(r, "AND"), Split(b, "AND"));
  }

  lemma ThreeLines(first: string, line: string, last: string)
    ensures Lines([first, line, last]) == first + "\n" + (line + "\n" + last)
  {
    var two, three := [line, last], [first, line, last];
    assert three[1..] == two && two[1..] == [last];
    assert Lines(two) == line + "\n" + Lines([last]);
    assert Lines(three) == first + "\n" + Lines(two);
  }

  lemma Cancel(a: seq<string>, x: seq<string>, y: seq<string>, b: seq<string>)
    ensures a + x + b == a + y + b <==> x == y
  {
    if a + x + b == a + y + b {
      var s := a + x + b;
      assert |x| == |y|;
      assert s[|a|..|a| + |x|] == x && (a + y + b)[|a|..|a| + |y|] == y;
    }
  }

  /** The text of the three lines loses nothing when it is trimmed. */
  lemma ContextKeepsParts(a: string, inner: string, r: string, b: string)
    requires Closed(a) && Trimmed(a) && Closed(r) && Trimmed(b) && inner == Joined(r, "AND", b)
    ensures Split(Trim(Joined(a, "AND", inner)), "AND") == Split(Joined(a, "AND", inner), "AND")
  {
    hide LeftClean, RightClean, TrimLeft, ScanOver, OperatorAt, Split;
    var t := Joined(a, "AND", inner);
    var p := Joined(a, "AND", r);
    TrimmedIsClean(a, "AND");
    TrimmedIsClean(b, "AND");
    ClosedJoined(a, "AND", r);
    LeftCleanJoined(a, "AND", r, "AND");
    CleanJoined(p, "AND", b, "AND");
    assert t == Joined(p, "AND", b);
    TrimKeepsParts(t, "AND");
  }

  lemma RewriteFirst(line: string)
    requires line != "" && !LineBreak(line[0])
    ensures Rewrite(line) != "" && Rewrite(line)[0] == line[0]
  {
    RewriteStep(line, 0);
    RewritePrefix(line, 1);
    assert line[..0] == "" && Rewrite(line[..1]) == [line[0]];
  }

  lemma RewriteLast(line: string)
    requires line != "" && !LineBreak(line[|line| - 1])
    ensures Rewrite(line) != "" && Rewrite(line)[|Rewrite(line)| - 1] == line[|line| - 1]
  {
    assert Emit(line, |line| - 1) == [line[|line| - 1]];
  }

  lemma SpaceBreaks(c: char)
    ensures LineBreak(c) ==> IsSpace(c)
  {}

  lemma TrimmedLine(line: string)
    requires Trimmed(line)
    ensures Trimmed(Rewrite(line)) && Normalize(line) == Rewrite(line) && Head(line) == line
  {
    if line != "" {
      SpaceBreaks(line[0]);
      SpaceBreaks(line[|line| - 1]);
      RewriteFirst(line);
      RewriteLast(line);
    }
    TrimFixed(Rewrite(line));
  }

  /** Spaces and tabs. */
  predicate Indent(s: string) {
    forall i :: 0 <= i < |s| ==> s[i] == ' ' || s[i] == '\t'
  }

  lemma ScanIndent(st: Scan, s: string)
    requires Indent(s) && st.quote == Plain && !st.escaped
    ensures ScanOver(st, s) == st && Rewrite(s) == s
  {
    ScanInert(st, s);
    RewritePlainText(s);
  }

  lemma RewriteIndented(left: string, line: string, right: string)
    requires Indent(left) && Indent(right) && Closed(line) && Trimmed(line)
    ensures Rewrite(left + line + right) == left + Rewrite(line) + right && Closed(left + line + right)
  {
    hide ScanOver, Rewrite, Trimmed;
    var p := left + line;
    assert ScanOver(START, p) == ScanOver(START, line) && Rewrite(p) == left + Rewrite(line) by {
      ScanIndent(START, left);
      ScanConcat(START, left, line);
      RewriteConcat(left, line);
    }
    assert p != "" ==> p[|p| - 1] == if line != "" then line[|line| - 1] else left[|left| - 1];
    ScanIndent(START, right);
    ScanPlainly(ScanOver(START, p), right);
    ScanConcat(START, p, right);
    if right == "" {
      assert p + right == p;
    } else {
      RewriteConcat(p, right);
    }
  }

  /** White space after a closed text changes neither quotes nor depth. */
  lemma {:induction false} ScanPlainly(st: Scan, s: string)
    requires Indent(s) && st.quote == Plain
    ensures ScanOver(st, s).quote == Plain && ScanOver(st, s).depth == st.depth
  {
    if s == "" {
    } else {
      ScanPlainly(st, s[..|s| - 1]);
    }
  }

  lemma {:induction false} IndentedNoOperator(left: string, t: string, right: string, operator: string)
    requires Keyword(operator) && Indent(left) && Indent(right) && NoOperator(t, operator)
    ensures NoOperator(left + t + right, operator)
    decreases |left| + |right|
  {
    if right != "" {
      var n := |right| - 1;
      var u := left + t + right[..n];
      IndentedNoOperator(left, t, right[..n], operator);
      assert left + t + right == u + [right[n]];
      SpacedNoOperator(' ', u, right[n], operator);
    } else if left != "" {
      var u := left[1..] + t;
      IndentedNoOperator(left[1..], t, "", operator);
      assert left[1..] + t + "" == u && left + t + right == [left[0]] + u;
      SpacedNoOperator(left[0], u, ' ', operator);
    } else {
      assert left + t + right == t;
    }
  }

  lemma SpacedNoOperator(c: char, t: string, d: char, operator: string)
    requires Keyword(operator) && IsSpace(c) && IsSpace(d) && NoOperator(t, operator)
    ensures NoOperator([c] + t, operator) && NoOperator(t + [d], operator)
  {
    forall i | 0 <= i < |t| + 1 ensures !OperatorAt([c] + t, operator, i) && !OperatorAt(t + [d], operator, i) {
      if i == 0 {
        SpaceIsNoOperator(c, t, operator);
      } else {
        OperatorSpaceLeft(c, t, operator, i - 1);
      }
      OperatorSpaceRight(t, d, operator, i);
    }
  }

  /** Indentation and trailing blanks do no harm: with spaces and tabs around it,
      a trimmed line is as plain as before. */
  lemma {:induction false} IndentedLineIsPlain(left: string, line: string, right: string)
    requires Indent(left) && Indent(right) && Trimmed(line) && Closed(line) && NoOperator(Rewrite(line), "OR")
    ensures PlainLine(left + line + right)
  {
    RewriteIndented(left, line, right);
    TrimmedLine(line);
    IndentedNoOperator(left, Rewrite(line), right, "OR");
    PlainBlanksKeepParts(left, Rewrite(line), right, "AND");
    PlainBlanksKeepParts(left, Rewrite(line), right, "OR");
  }

  // ---- lines that are not trimmed ----------------------------------------------------

  /** A no-break space is trimmed, but is no boundary of an operator. */
  const OFFSET := ['\U{A0}'] + "AND x"

  lemma OffsetText()
    ensures Rewrite(OFFSET) == OFFSET && Trim(OFFSET) == "AND x" && !Trimmed(OFFSET)
  {
    RewritePlainText(OFFSET);
    TrimLeading('\U{A0}', "AND x");
    TrimFixed("AND x");
  }

  lemma OffsetOperators()
    ensures NoOperator("AND x", "OR") && NoOperator(OFFSET, "OR") && NoOperator(OFFSET, "AND")
  {
    var t := "AND x";
    forall i | 0 <= i < |t| ensures !OperatorAt(t, "OR", i) {
      LetterAt(t, "OR", i);
    }
    forall i | 0 <= i < |OFFSET| ensures !OperatorAt(OFFSET, "OR", i) && !OperatorAt(OFFSET, "AND", i) {
      LetterAt(OFFSET, "OR", i);
      LetterAt(OFFSET, "AND", i);
    }
  }

  lemma LetterAt(s: string, operator: string, i: nat)
    requires Keyword(operator) && i < |s|
    ensures OperatorAt(s, operator, i) ==> Lower(s[i]) == Lower(operator[0])
  {
    if i + |operator| <= |s| {
      assert s[i..i + |operator|][0] == s[i];
    }
  }

  lemma ProbeHoldsX()
    ensures AndHolds(PROBE, "x")
  {
    hide AndHolds, Print, WellFormed, Meaning;
    WordX();
    AndMeaning(PROBE, WORD_X);
  }

  /** In front, AND has nothing to its left. */
  lemma LeadingAnd(x: string)
    ensures Split("AND " + x, "AND") == Split("", "AND") + Split(x, "AND")
  {
    var t := "AND " + x;
    assert Glue("AND") == " AND ";
    assert [' '] + t == Joined("", "AND", x);
    SplitSpaceLeft(' ', t, "AND");
    SplitJoined("", "AND", x);
  }

  /** By itself the line is trimmed, and its AND is an operator. */
  lemma OffsetAlone()
    ensures MatchesQuery(PROBE, OFFSET) && !KeepsParts(OFFSET, "AND")
  {
    hide MatchesQuery, OrHolds, NoOperator, ScanOver, OperatorAt;
    OffsetText();
    OffsetOperators();
    assert "AND x" == "AND " + "x";
    LeadingAnd("x");
    SplitSingle(OFFSET, "AND");
    EmptyClause(PROBE);
    ProbeHoldsX();
    OrHoldsSingle(PROBE, "AND x");
    MatchesQueryMeans(PROBE, OFFSET);
  }

  lemma TokensMissing()
    ensures !ContainsQueryTokens("x", "AND x")
  {
    var words := ["AND", "x"];
    assert words[1..] == ["x"];
    assert Sentence(words) == "AND x";
    SentenceTokens("x", words);
    assert "AND" in words && !Occurs("x", "AND");
  }

  lemma OffsetClause()
    ensures !MatchesExplorerClause(PROBE, "AND x")
  {
    hide ContainsQueryTokens, MatchClause, MatchesQuery, MatchesSearch, Trim;
    var t := "AND x";
    UnsignedClause(t);
    TokensMissing();
    TrimFixed(t);
  }

  lemma OffsetFails()
    ensures !AndHolds(PROBE, OFFSET)
  {
    OffsetText();
    OffsetOperators();
    SplitSingle(OFFSET, "AND");
    OffsetClause();
    assert "AND x" in Split(OFFSET, "AND");
  }

  lemma SecondLine(first: string, line: string)
    requires Closed(first) && first != "" && Trimmed(first) && Rewrite(first) == first && NoOperator(first, "OR")
    requires line != "" && !IsSpace(line[|line| - 1]) && Rewrite(line) == line && NoOperator(line, "OR")
    ensures Normalize(Lines([first, line])) == Joined(first, "AND", line)
    ensures NoOperator(Joined(first, "AND", line), "OR") && Trimmed(Joined(first, "AND", line))
  {
    var r := Joined(first, "AND", line);
    assert Rewrite(Lines([first, line])) == r by {
      TrimmedLine(first);
      RewriteLineBreak(first, line);
      assert [first, line][1..] == [line] && Lines([first, line]) == first + "\n" + Lines([line]);
    }
    NoOperatorJoined(first, "AND", line, "OR");
    assert r[0] == first[0] && r[|r| - 1] == line[|line| - 1];
    TrimFixed(r);
  }

  lemma SecondLineMeaning(e: Subject, first: string, line: string)
    requires Closed(first) && first != "" && Trimmed(first) && Rewrite(first) == first && NoOperator(first, "OR")
    requires line != "" && !IsSpace(line[|line| - 1]) && Rewrite(line) == line && NoOperator(line, "OR")
    ensures MatchesQuery(e, Lines([first, line])) ==> AndHolds(e, line)
  {
    SecondLine(first, line);
    AndHoldsJoined(e, first, line);
    OrHoldsSingle(e, Joined(first, "AND", line));
    MatchesQueryMeans(e, Lines([first, line]));
  }

  lemma OffsetBehind(first: string, line: string)
    requires first == "x" && line == OFFSET
    ensures !MatchesQuery(PROBE, Lines([first, line]))
  {
    hide MatchesQuery, AndHolds, Rewrite, Closed, NoOperator, Lines;
    assert Closed(first) && NoOperator(first, "OR") by { BalancedX(); }
    assert Rewrite(first) == first by { RewritePlainText(first); }
    assert Rewrite(line) == line by { OffsetText(); }
    assert NoOperator(line, "OR") by { OffsetOperators(); }
    assert !AndHolds(PROBE, line) by { OffsetFails(); }
    SecondLineMeaning(PROBE, first, line);
  }

  /** Behind another line its AND is text: the lines match, their conjunction
      typed as one query does not. */
  lemma UntrimmedLineDiffers()
    ensures !KeepsParts(OFFSET, "AND") && NoOperator(Rewrite(OFFSET), "OR")
    ensures MatchesQuery(PROBE, "x") && MatchesQuery(PROBE, OFFSET) && !MatchesQuery(PROBE, Lines(["x", OFFSET]))
  {
    assert !MatchesQuery(PROBE, Lines(["x", OFFSET])) by { OffsetBehind("x", OFFSET); }
    assert MatchesQuery(PROBE, OFFSET) && !KeepsParts(OFFSET, "AND") by { OffsetAlone(); }
    assert MatchesQuery(PROBE, "x") by { ProbeMatchesX(); }
    OffsetText();
    OffsetOperators();
  }
}
