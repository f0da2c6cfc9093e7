/** NormalizeQuery: every line break outside quotes becomes " AND ". */
module QueryNormal {
  import opened Text
  import opened QueryScan

  predicate LineBreak(c: char) {
    c == '\n' || c == '\r'
  }

  /** What the byte at i contributes. The '\n' of an unquoted "\r\n" pair adds
      nothing: its '\r' already wrote the operator. */
  function Emit(q: string, i: nat): string
    requires i < |q|
  {
    if ScanOver(START, q[..i + 1]).quote != Plain || !LineBreak(q[i]) then [q[i]]
    else if q[i] == '\n' && i > 0 && q[i - 1] == '\r' then ""
    else " AND "
  }

  function Rewrite(q: string): string {
    if q == "" then "" else Rewrite(q[..|q| - 1]) + Emit(q, |q| - 1)
  }

  function Normalize(q: string): string {
    Trim(Rewrite(q))
  }

  lemma RewriteStep(q: string, i: nat)
    requires i < |q|
    ensures Rewrite(q[..i + 1]) == Rewrite(q[..i]) + Emit(q, i)
  {
    assert q[..i + 1][..i] == q[..i];
    assert q[..i + 1][..i + 1] == q[..i + 1];
  }

  /** One character of the loop: a line break outside quotes becomes AND. */
  lemma BreakStep(q: string, i: nat, inDoubleQuote: bool, inBacktick: bool)
    requires i < |q| && Tracks(q, i + 1, inDoubleQuote, inBacktick, ScanOver(START, q[..i + 1]).depth)
    requires i > 0 && q[i - 1] == '\r' && q[i] == '\n' ==> ScanOver(START, q[..i]).quote != Plain
    ensures Rewrite(q[..i + 1])
         == Rewrite(q[..i]) + if !inDoubleQuote && !inBacktick && LineBreak(q[i]) then " AND " else [q[i]]
  {
    ScanStep(START, q, i);
    RewriteStep(q, i);
  }

  /** The second half of a line break that takes two characters. */
  lemma PairStep(q: string, i: nat, inDoubleQuote: bool, inBacktick: bool)
    requires 0 < i < |q| && q[i] == '\n' && q[i - 1] == '\r' && !inDoubleQuote && !inBacktick
    requires Tracks(q, i, inDoubleQuote, inBacktick, ScanOver(START, q[..i]).depth)
    ensures Rewrite(q[..i + 1]) == Rewrite(q[..i])
    ensures Tracks(q, i + 1, inDoubleQuote, inBacktick, ScanOver(START, q[..i]).depth)
  {
    RewriteStep(q, i);
    ScanStep(START, q, i);
  }

  lemma NothingRead(q: string)
    ensures Rewrite(q[..0]) == "" && ScanOver(START, q[..0]) == START
  {}

  method NormalizeQuery(query: string) returns (result: string)
    ensures result == Normalize(query)
  {
    hide Rewrite, ScanOver, Trim;
    NothingRead(query);
    var normalized := "";
    var inDoubleQuote, inBacktick := false, false;
    ghost var depth := 0;
    var index := 0;
    while index < |query|
      invariant index <= |query|
      invariant Tracks(query, index, inDoubleQuote, inBacktick, depth)
      invariant normalized == Rewrite(query[..index])
      invariant index > 0 && query[index - 1] == '\r' && index < |query| && query[index] == '\n' ==>
                  inDoubleQuote || inBacktick
    {
      var character := query[index];
      depth := ScanOver(START, query[..index + 1]).depth;
      inDoubleQuote, inBacktick := FlipQuotes(query, index, inDoubleQuote, inBacktick);
      BreakStep(query, index, inDoubleQuote, inBacktick);
      if !inDoubleQuote && !inBacktick && (character == '\n' || character == '\r') {
        normalized := normalized + " AND ";
        if character == '\r' && index + 1 < |query| && query[index + 1] == '\n' {
          PairStep(query, index + 1, inDoubleQuote, inBacktick);
          index := index + 1;
        }
        index := index + 1;
        continue;
      }
      normalized := normalized + [character];
      index := index + 1;
    }
    assert query[..|query|] == query;
    result := Trim(normalized);
  }

  method FlipQuotes(query: string, index: nat, inDouble: bool, inTick: bool)
    returns (inDoubleQuote: bool, inBacktick: bool)
    requires index < |query|
    requires inDouble <==> ScanOver(START, query[..index]).quote == Double
    requires inTick <==> ScanOver(START, query[..index]).quote == Tick
    ensures inDoubleQuote <==> ScanOver(START, query[..index + 1]).quote == Double
    ensures inBacktick <==> ScanOver(START, query[..index + 1]).quote == Tick
  {
    inDoubleQuote, inBacktick := inDouble, inTick;
    ScanStep(START, query, index);
    var escaped := QueryQuoteEscaped(query, index);
    if query[index] == '"' && !inBacktick && !escaped {
      inDoubleQuote := !inDoubleQuote;
    }
    if query[index] == '`' && !inDoubleQuote {
      inBacktick := !inBacktick;
    }
  }

  // ---- the rewrite keeps the scan ---------------------------------------

  lemma ScanAnd(st: Scan)
    requires st.quote == Plain
    ensures ScanOver(st, " AND ") == st.(escaped := false)
  {
    hide ScanOver;
    ScanText(st, " AND ");
  }

  /** After the rewrite the scanner is in the state it had in the original. */
  lemma {:induction false} ScanRewrite(q: string)
    ensures ScanOver(START, Rewrite(q)) == ScanOver(START, q)
  {
    if q == "" {
    } else {
      var n := |q| - 1;
      var init, c := q[..n], q[n];
      ScanRewrite(init);
      var st := ScanOver(START, init);
      assert q[..n + 1] == q;
      ScanConcat(START, Rewrite(init), Emit(q, n));
      if Emit(q, n) == " AND " {
        ScanAnd(st);
      } else if Emit(q, n) == "" {
        ScanStep(START, q, n - 1);
      } else {
        assert Emit(q, n) == [c];
        assert ScanOver(st, [c]) == Advance(ScanOver(st, [c][..0]), c);
      }
    }
  }

  /** Every byte keeps the quote state it was read in: the output so far is a
      prefix of the result, and scans to the state the input scans to. */
  lemma {:induction false} RewriteKeepsState(q: string, i: nat)
    requires i < |q|
    ensures Rewrite(q[..i]) <= Rewrite(q)
    ensures ScanOver(START, Rewrite(q[..i])) == ScanOver(START, q[..i])
    ensures Rewrite(q[..i + 1]) == Rewrite(q[..i]) + Emit(q, i)
  {
    ScanRewrite(q[..i]);
    RewriteStep(q, i);
    RewritePrefix(q, i);
  }

  lemma {:induction false} RewritePrefix(q: string, i: nat)
    requires i <= |q|
    ensures Rewrite(q[..i]) <= Rewrite(q)
  {
    if i == |q| {
      assert q[..i] == q;
    } else {
      RewritePrefix(q[..|q| - 1], i);
      assert q[..|q| - 1][..i] == q[..i];
    }
  }

  // ---- idempotence ------------------------------------------------------

  /** No line break outside quotes. */
  ghost predicate OneLine(t: string) {
    forall i :: 0 <= i < |t| && LineBreak(t[i]) ==> ScanOver(START, t[..i + 1]).quote != Plain
  }

  lemma {:induction false} RewriteOneLine(t: string)
    requires OneLine(t)
    ensures Rewrite(t) == t
  {
    hide ScanOver;
    if t == "" {
    } else {
      var n := |t| - 1;
      OneLinePrefix(t, n);
      RewriteOneLine(t[..n]);
      assert t[..n + 1] == t && t == t[..n] + [t[n]];
    }
  }

  lemma {:induction false} RewriteIsOneLine(q: string)
    ensures OneLine(Rewrite(q))
  {
    hide ScanOver;
    if q == "" {
    } else {
      var n := |q| - 1;
      var left, emitted := Rewrite(q[..n]), Emit(q, n);
      var t := left + emitted;
      RewriteIsOneLine(q[..n]);
      assert q[..n + 1] == q;
      forall i | 0 <= i < |t| && LineBreak(t[i]) ensures ScanOver(START, t[..i + 1]).quote != Plain {
        if i < |left| {
          assert t[..i + 1] == left[..i + 1];
        } else {
          assert t[i] == emitted[i - |left|];
          assert t[..i + 1] == Rewrite(q);
          ScanRewrite(q);
        }
      }
    }
  }

  lemma RewriteTwice(q: string)
    ensures Rewrite(Rewrite(q)) == Rewrite(q)
    ensures Normalize(Rewrite(q)) == Normalize(q)
  {
    RewriteIsOneLine(q);
    RewriteOneLine(Rewrite(q));
  }

  lemma {:induction false} ScanBlank(s: string)
    requires forall i :: 0 <= i < |s| ==> IsSpace(s[i])
    ensures ScanOver(START, s) == START
  {
    if s == "" {
    } else {
      ScanBlank(s[..|s| - 1]);
    }
  }

  lemma TrimOneLine(t: string)
    requires OneLine(t)
    ensures OneLine(Trim(t))
  {
    var left := TrimLeft(t);
    TrimLeftParts(t);
    TrimRightParts(left);
    var blank := t[..|t| - |left|];
    var r := Trim(t);
    ScanBlank(blank);
    assert t == blank + left;
    OneLineSuffix(blank, left);
    OneLinePrefix(left, |r|);
  }

  lemma {:induction false} OneLineSuffix(blank: string, left: string)
    requires OneLine(blank + left) && ScanOver(START, blank) == START
    ensures OneLine(left)
  {
    forall i | 0 <= i < |left| && LineBreak(left[i]) ensures ScanOver(START, left[..i + 1]).quote != Plain {
      SuffixLine(blank, left, i);
    }
  }

  lemma SuffixLine(blank: string, left: string, i: nat)
    requires i < |left| && LineBreak(left[i]) && ScanOver(START, blank) == START
    requires LineBreak((blank + left)[|blank| + i]) ==>
               ScanOver(START, (blank + left)[..|blank| + (i + 1)]).quote != Plain
    ensures ScanOver(START, left[..i + 1]).quote != Plain
  {
    ScanFrom(blank, i + 1, left);
  }

  lemma OneLinePrefix(t: string, n: nat)
    requires OneLine(t) && n <= |t|
    ensures OneLine(t[..n])
  {
    var r := t[..n];
    forall i | 0 <= i < |r| && LineBreak(r[i]) ensures ScanOver(START, r[..i + 1]).quote != Plain {
      assert r[..i + 1] == t[..i + 1];
    }
  }

  lemma NormalizeIdempotent(q: string)
    ensures Normalize(Normalize(q)) == Normalize(q)
  {
    hide Rewrite, OneLine, Trim;
    var t := Rewrite(q);
    RewriteIsOneLine(q);
    TrimOneLine(t);
    RewriteOneLine(Trim(t));
    TrimIsTrimmed(t);
  }

  // ---- concatenation ----------------------------------------------------

  /** The scanner reads b the same way after a as at the start. */
  ghost predicate Independent(a: string, b: string) {
    && ScanOver(START, a).quote == Plain
    && ((!ScanOver(START, a).escaped && (a != "" ==> a[|a| - 1] != '\r'))
        || (b != "" && b[0] != '"' && b[0] != '\\' && b[0] != '\n'))
  }

  lemma {:induction false} IndependentScan(a: string, b: string, k: nat)
    requires Independent(a, b) && k <= |b|
    ensures ScanOver(ScanOver(START, a), b[..k]).quote == ScanOver(START, b[..k]).quote
    ensures k > 0 || !ScanOver(START, a).escaped
            ==> ScanOver(ScanOver(START, a), b[..k]).escaped == ScanOver(START, b[..k]).escaped
  {
    if k == 0 {
    } else {
      IndependentScan(a, b, k - 1);
      ScanStep(START, b, k - 1);
      ScanStep(ScanOver(START, a), b, k - 1);
    }
  }

  lemma EmitAfter(a: string, b: string, i: nat)
    requires Independent(a, b) && i < |b|
    ensures Emit(a + b, |a| + i) == Emit(b, i)
  {
    ScanFrom(a, i + 1, b);
    IndependentScan(a, b, i + 1);
    assert (a + b)[|a| + i] == b[i];
    if i > 0 {
      assert (a + b)[|a| + i - 1] == b[i - 1];
    } else if a != "" {
      assert (a + b)[|a| - 1] == a[|a| - 1];
    }
  }

  lemma RewriteStepAfter(a: string, b: string, i: nat)
    requires Independent(a, b) && i < |b|
    ensures Rewrite(a + b[..i + 1]) == Rewrite(a + b[..i]) + Emit(b, i)
  {
    hide Rewrite, Emit, Independent;
    var s := a + b;
    RewriteStep(s, |a| + i);
    EmitAfter(a, b, i);
    assert s[..|a| + i] == a + b[..i] && s[..|a| + i + 1] == a + b[..i + 1];
  }

  lemma {:induction false} RewriteConcatTo(a: string, b: string, k: nat)
    requires Independent(a, b) && k <= |b|
    ensures Rewrite(a + b[..k]) == Rewrite(a) + Rewrite(b[..k])
  {
    hide Independent, Emit;
    if k == 0 {
      assert a + b[..0] == a;
    } else {
      var j := k - 1;
      RewriteConcatTo(a, b, j);
      RewriteStepAfter(a, b, j);
      RewriteStep(b, j);
      assert b[..j + 1] == b[..k];
      Associate(Rewrite(a), Rewrite(b[..j]), Emit(b, j));
    }
  }

  lemma Associate(a: string, b: string, c: string)
    ensures (a + b) + c == a + (b + c)
  {}

  lemma RewriteConcat(a: string, b: string)
    requires Independent(a, b)
    ensures Rewrite(a + b) == Rewrite(a) + Rewrite(b)
  {
    hide Rewrite, Independent;
    RewriteConcatTo(a, b, |b|);
    assert b[..|b|] == b;
  }

  lemma OneBreak(c: char)
    requires c == '\n' || c == '\r'
    ensures Rewrite([c]) == " AND "
  {
    assert [c][..0] == "" && [c][..1] == [c];
    ScanStep(START, [c], 0);
    assert "" + " AND " == " AND ";
  }

  lemma BreakPair()
    ensures Rewrite("\r\n") == " AND "
  {
    var s := "\r\n";
    OneBreak('\r');
    assert s[..1] == "\r" && s[..2] == s && "\r"[..0] == "";
    ScanStep(START, s, 0);
    ScanStep(START, s, 1);
    assert " AND " + "" == " AND ";
  }

  /** Outside quotes a line feed, a return and the pair of both are one AND each. */
  lemma BreaksAreAnd(a: string, br: string)
    requires br == "\n" || br == "\r" || br == "\r\n"
    requires Independent(a, br)
    ensures Rewrite(a + br) == Rewrite(a) + " AND "
  {
    hide Rewrite, Independent;
    RewriteConcat(a, br);
    OneBreak('\n');
    OneBreak('\r');
    BreakPair();
  }
}
