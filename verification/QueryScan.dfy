/** The scanner of internal/explorer/query.go: quotes, escapes and parentheses,
    the newline normaliser and the AND/OR splitter. */
module QueryScan {
  import opened Text

  datatype Quote = Plain | Double | Tick

  /** What the loops carry: the two quote flags, the parenthesis depth, and
      whether an odd run of backslashes ends here. */
  datatype Scan = Scan(quote: Quote, depth: int, escaped: bool)

  const START := Scan(Plain, 0, false)

  function Toggle(st: Scan, c: char): Quote {
    if c == '"' && st.quote != Tick && !st.escaped then
      if st.quote == Double then Plain else Double
    else if c == '`' && st.quote != Double then
      if st.quote == Tick then Plain else Tick
    else st.quote
  }

  function Advance(st: Scan, c: char): Scan {
    var quote := Toggle(st, c);
    var depth := if quote == Plain && c == '(' then st.depth + 1
                 else if quote == Plain && c == ')' then st.depth - 1 else st.depth;
    Scan(quote, depth, c == '\\' && !st.escaped)
  }

  function ScanOver(st: Scan, s: string): Scan {
    if s == "" then st else Advance(ScanOver(st, s[..|s| - 1]), s[|s| - 1])
  }

  lemma ScanStep(st: Scan, s: string, i: nat)
    requires i < |s|
    ensures ScanOver(st, s[..i + 1]) == Advance(ScanOver(st, s[..i]), s[i])
  {
    assert s[..i + 1][..i] == s[..i];
  }

  lemma {:induction false} ScanConcat(st: Scan, a: string, b: string)
    ensures ScanOver(st, a + b) == ScanOver(ScanOver(st, a), b)
  {
    if b == "" {
      assert a + b == a;
    } else {
      ScanConcat(st, a, b[..|b| - 1]);
      assert (a + b)[..|a + b| - 1] == a + b[..|b| - 1];
    }
  }

  /** A parenthesis opened before the text only shifts the depth. */
  lemma {:induction false} ScanDeeper(st: Scan, shift: int, s: string)
    ensures ScanOver(st.(depth := st.depth + shift), s)
         == ScanOver(st, s).(depth := ScanOver(st, s).depth + shift)
  {
    if s == "" {
    } else {
      ScanDeeper(st, shift, s[..|s| - 1]);
    }
  }

  lemma {:induction false} ScanFrom(a: string, i: nat, b: string)
    requires i <= |b|
    ensures (a + b)[..|a| + i] == a + b[..i]
    ensures ScanOver(START, (a + b)[..|a| + i]) == ScanOver(ScanOver(START, a), b[..i])
  {
    assert (a + b)[..|a| + i] == a + b[..i];
    ScanConcat(START, a, b[..i]);
  }

  /** Text without quote marks, backslashes and parentheses only ends an escape. */
  lemma {:induction false} ScanText(st: Scan, s: string)
    requires st.quote == Plain && s != ""
    requires forall i :: 0 <= i < |s| ==> s[i] !in "\"`\\()"
    ensures ScanOver(st, s) == st.(escaped := false)
  {
    if |s| == 1 {
      assert s[..0] == "";
    } else {
      ScanText(st, s[..|s| - 1]);
    }
  }

  // ---- queryQuoteEscaped ------------------------------------------------

  method QueryQuoteEscaped(input: string, index: nat) returns (escaped: bool)
    requires index <= |input|
    ensures escaped == ScanOver(START, input[..index]).escaped
  {
    var backslashes := 0;
    var at: int := index - 1;
    while at >= 0 && input[at] == '\\'
      invariant -1 <= at < index && backslashes >= 0
      invariant ScanOver(START, input[..index]).escaped
             == (ScanOver(START, input[..at + 1]).escaped != (backslashes % 2 != 0))
    {
      ScanStep(START, input, at);
      backslashes := backslashes + 1;
      at := at - 1;
    }
    if at >= 0 {
      ScanStep(START, input, at);
    }
    escaped := backslashes % 2 != 0;
  }

  /** The flag means what its name says: the run of backslashes that ends at
      `index` has odd length. */
  lemma {:induction false} EscapedIsOddRun(input: string, index: nat, run: nat)
    requires run <= index <= |input|
    requires forall i :: index - run <= i < index ==> input[i] == '\\'
    requires run < index ==> input[index - run - 1] != '\\'
    ensures ScanOver(START, input[..index]).escaped <==> run % 2 == 1
  {
    if run > 0 {
      ScanStep(START, input, index - 1);
      EscapedIsOddRun(input, index - 1, run - 1);
    } else if index > 0 {
      ScanStep(START, input, index - 1);
    }
  }

  // ---- splitQueryOperator -----------------------------------------------

  predicate Keyword(operator: string) {
    operator == "AND" || operator == "OR"
  }

  predicate Boundary(c: char) {
    c == ' ' || c == '\n' || c == '\t'
  }

  /** The operator stands at position i, outside quotes and parentheses. */
  predicate OperatorAt(s: string, operator: string, i: int) {
    && 0 <= i && i + |operator| <= |s| && i < |s|
    && (var st := ScanOver(START, s[..i + 1]); st.quote == Plain && st.depth == 0)
    && EqualFold(s[i..i + |operator|], operator)
    && (i == 0 || Boundary(s[i - 1]))
    && (i + |operator| == |s| || Boundary(s[i + |operator|]))
  }

  function SplitFrom(s: string, operator: string, start: nat, index: nat): (parts: seq<string>)
    requires Keyword(operator) && start <= index <= |s|
    ensures |parts| > 0
    decreases |s| - index
  {
    if index + |operator| > |s| then [Trim(s[start..])]
    else if OperatorAt(s, operator, index) then
      [Trim(s[start..index])] + SplitFrom(s, operator, index + |operator|, index + |operator|)
    else SplitFrom(s, operator, start, index + 1)
  }

  function Split(s: string, operator: string): (parts: seq<string>)
    requires Keyword(operator)
  {
    SplitFrom(s, operator, 0, 0)
  }

  /** The letters of a matched operator change nothing, so the loop may jump
      over them. */
  lemma OperatorIsInert(s: string, operator: string, i: nat, inDoubleQuote: bool, inBacktick: bool, depth: int)
    requires Keyword(operator) && OperatorAt(s, operator, i)
    requires Tracks(s, i + 1, inDoubleQuote, inBacktick, depth)
    ensures Tracks(s, i + |operator|, inDoubleQuote, inBacktick, depth)
  {
    hide ScanOver, Trim;
    var word := s[i..i + |operator|];
    assert forall k :: 0 <= k < |operator| ==> Lower(word[k]) == Lower(operator[k]) && s[i + k] == word[k];
    ScanStep(START, s, i + 1);
    if |operator| == 3 {
      ScanStep(START, s, i + 2);
    }
  }

  lemma SplitCut(s: string, operator: string, start: nat, i: nat, parts: seq<string>)
    requires Keyword(operator) && start <= i && OperatorAt(s, operator, i)
    ensures parts + SplitFrom(s, operator, start, i)
         == parts + [Trim(s[start..i])] + SplitFrom(s, operator, i + |operator|, i + |operator|)
  {}

  lemma SplitEnd(s: string, operator: string, start: nat, i: nat)
    requires Keyword(operator) && start <= i <= |s| && i + |operator| > |s|
    ensures SplitFrom(s, operator, start, i) == [Trim(s[start..])]
  {}

  lemma SplitSkip(s: string, operator: string, start: nat, i: nat)
    requires Keyword(operator) && start <= i && i + |operator| <= |s| && !OperatorAt(s, operator, i)
    ensures SplitFrom(s, operator, start, i) == SplitFrom(s, operator, start, i + 1)
  {}

  /** The loop's flags and counter are the scan state at `index`. */
  ghost predicate Tracks(s: string, index: nat, inDoubleQuote: bool, inBacktick: bool, depth: int)
    requires index <= |s|
  {
    var st := ScanOver(START, s[..index]);
    (inDoubleQuote <==> st.quote == Double) && (inBacktick <==> st.quote == Tick) && depth == st.depth
  }

  lemma NothingTracked(s: string)
    ensures Tracks(s, 0, false, false, 0)
  {}

  method SplitQueryOperator(input: string, operator: string) returns (parts: seq<string>)
    requires Keyword(operator)
    ensures parts == Split(input, operator)
  {
    hide SplitFrom, OperatorAt, Tracks, Trim;
    NothingTracked(input);
    parts := [];
    var start, index := 0, 0;
    var inDoubleQuote, inBacktick, depth := false, false, 0;
    while index <= |input| - |operator|
      invariant 0 <= start <= index <= |input|
      invariant Tracks(input, index, inDoubleQuote, inBacktick, depth)
      invariant Split(input, operator) == parts + SplitFrom(input, operator, start, index)
      decreases |input| - index
    {
      inDoubleQuote, inBacktick, depth := ScanByte(input, index, inDoubleQuote, inBacktick, depth);
      var standsAlone := StandsAlone(input, operator, index, inDoubleQuote, inBacktick, depth);
      var rightIndex := index + |operator|;
      if standsAlone {
        OperatorIsInert(input, operator, index, inDoubleQuote, inBacktick, depth);
        SplitCut(input, operator, start, index, parts);
        parts := parts + [Trim(input[start..index])];
        start := rightIndex;
        index := rightIndex - 1;
      } else {
        SplitSkip(input, operator, start, index);
      }
      index := index + 1;
    }
    SplitEnd(input, operator, start, index);
    parts := parts + [Trim(input[start..])];
  }

  /** The test of the loop body, made after the flags were updated. */
  method StandsAlone(input: string, operator: string, index: nat, inDoubleQuote: bool, inBacktick: bool, depth: int)
    returns (found: bool)
    requires Keyword(operator) && index + |operator| <= |input|
    requires Tracks(input, index + 1, inDoubleQuote, inBacktick, depth)
    ensures found <==> OperatorAt(input, operator, index)
  {
    var rightIndex := index + |operator|;
    if depth != 0 || inDoubleQuote || inBacktick || !EqualFold(input[index..rightIndex], operator) {
      return false;
    }
    var leftBoundary := index == 0 || Boundary(input[index - 1]);
    var rightBoundary := rightIndex == |input| || Boundary(input[rightIndex]);
    return leftBoundary && rightBoundary;
  }

  /** One byte of either loop: flip the quote flags, then count parentheses. */
  method ScanByte(input: string, index: nat, inDouble: bool, inTick: bool, depthBefore: int)
    returns (inDoubleQuote: bool, inBacktick: bool, depth: int)
    requires index < |input|
    requires Tracks(input, index, inDouble, inTick, depthBefore)
    ensures Tracks(input, index + 1, inDoubleQuote, inBacktick, depth)
  {
    inDoubleQuote, inBacktick, depth := inDouble, inTick, depthBefore;
    ScanStep(START, input, index);
    if input[index] == '"' {
      var escaped := QueryQuoteEscaped(input, index);
      if !inBacktick && !escaped {
        inDoubleQuote := !inDoubleQuote;
      }
    } else if input[index] == '`' {
      if !inDoubleQuote {
        inBacktick := !inBacktick;
      }
    }
    if !inDoubleQuote && !inBacktick {
      if input[index] == '(' {
        depth := depth + 1;
      } else if input[index] == ')' {
        depth := depth - 1;
      }
    }
  }
}
