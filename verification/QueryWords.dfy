/** What a text search asks for: words, or a quoted phrase. */
module QueryWords {
  import opened Text
  import opened Literals
  import opened QueryScan
  import opened QueryMatch
  import opened QueryLaws
  import opened QueryTrims
  import opened QueryAtoms

  // ---- occurring, case-blind ----------------------------------------------------

  /** The same letter in either case, or the same character. */
  predicate SameLetter(a: char, b: char) {
    || a == b
    || ('A' <= a <= 'Z' && b as int == a as int + 32)
    || ('A' <= b <= 'Z' && a as int == b as int + 32)
  }

  predicate FoundAt(text: string, part: string, i: nat) {
    i + |part| <= |text| && forall k :: 0 <= k < |part| ==> SameLetter(text[i + k], part[k])
  }

  predicate Occurs(text: string, part: string) {
    exists i: nat :: i <= |text| && FoundAt(text, part, i)
  }

  lemma SameLetterFolds(a: char, b: char)
    ensures SameLetter(a, b) <==> Lower(a) == Lower(b)
  {}

  lemma FoundFolds(text: string, part: string, i: nat)
    ensures FoundAt(text, part, i) <==> OccursAt(LowerAll(text), LowerAll(part), i)
  {
    hide SameLetter, Lower;
    if i + |part| <= |text| {
      var a, b := LowerAll(text)[i..i + |part|], LowerAll(part);
      forall k | 0 <= k < |part| ensures SameLetter(text[i + k], part[k]) <==> a[k] == b[k] {
        SameLetterFolds(text[i + k], part[k]);
      }
      assert a == b <==> forall k :: 0 <= k < |part| ==> a[k] == b[k];
    }
  }

  /** The lower-cased substring test finds exactly the text that occurs. */
  lemma ContainsMeans(text: string, part: string)
    ensures ContainsFold(text, part) <==> Occurs(text, part)
  {
    hide FoundAt, OccursAt, LowerAll;
    forall i: nat { FoundFolds(text, part, i); }
    if Occurs(text, part) {
      var i: nat :| i <= |text| && FoundAt(text, part, i);
      assert OccursAt(LowerAll(text), LowerAll(part), i);
    }
    if ContainsFold(text, part) {
      var i: nat :| i <= |LowerAll(text)| && OccursAt(LowerAll(text), LowerAll(part), i);
      assert FoundAt(text, part, i);
    }
  }

  // ---- words with white space between them -----------------------------------------

  predicate AllSpace(s: string) {
    forall i :: 0 <= i < |s| ==> IsSpace(s[i])
  }

  /** White space in front of each word, none needed in front of the first. */
  predicate Gaps(gaps: seq<string>) {
    && (forall i :: 0 <= i < |gaps| ==> AllSpace(gaps[i]))
    && (forall i :: 0 < i < |gaps| ==> gaps[i] != "")
  }

  function Spaced(words: seq<string>, gaps: seq<string>): string
    requires |gaps| == |words|
  {
    if words == [] then "" else gaps[0] + (words[0] + Spaced(words[1..], gaps[1..]))
  }

  predicate Unquoted(word: string) {
    Solid(word) && forall i :: 0 <= i < |word| ==> !QuoteMark(word[i])
  }

  lemma {:induction false} SpaceTrims(gap: string)
    requires AllSpace(gap)
    ensures TrimLeft(gap) == "" && TrimRight(gap) == ""
  {
    if gap == "" {
    } else {
      SpaceTrims(gap[1..]);
      SpaceTrims(gap[..|gap| - 1]);
    }
  }

  lemma FieldsSkip(gap: string, s: string)
    requires AllSpace(gap)
    ensures Fields(gap + s) == Fields(s)
  {
    hide TrimLeft, IsSpace, FieldsWord;
    SpaceTrims(gap);
    TrimLeftConcat(gap, s);
  }

  lemma {:induction false} FieldsWordStops(word: string, rest: string)
    requires forall i :: 0 <= i < |word| ==> !IsSpace(word[i])
    requires rest != "" ==> IsSpace(rest[0])
    ensures FieldsWord(word + rest) == word
  {
    if word == "" {
      assert word + rest == rest;
    } else {
      FieldsWordStops(word[1..], rest);
      assert (word + rest)[1..] == word[1..] + rest;
    }
  }

  lemma FieldsOne(word: string, rest: string)
    requires Solid(word) && (rest != "" ==> IsSpace(rest[0]))
    ensures Fields(word + rest) == [word] + Fields(rest)
  {
    hide IsSpace, FieldsWord;
    FieldsWordStops(word, rest);
    assert TrimLeft(word + rest) == word + rest;
    assert (word + rest)[|word|..] == rest;
  }

  /** Splitting at white space gives back the words. */
  lemma {:induction false} FieldsOfSpaced(words: seq<string>, gaps: seq<string>, tail: string)
    requires |gaps| == |words| && Gaps(gaps) && AllSpace(tail) && forall i :: 0 <= i < |words| ==> Solid(words[i])
    ensures Fields(Spaced(words, gaps) + tail) == words
  {
    hide Solid, IsSpace, Fields;
    if words == [] {
      FieldsSkip(tail, "");
      NoFields();
      assert Spaced(words, gaps) + tail == tail == tail + "";
    } else {
      var rest := Spaced(words[1..], gaps[1..]) + tail;
      FieldsOfSpaced(words[1..], gaps[1..], tail);
      assert Spaced(words, gaps) + tail == gaps[0] + (words[0] + rest);
      FieldsSkip(gaps[0], words[0] + rest);
      FieldsOne(words[0], rest);
    }
  }

  lemma NoFields()
    ensures Fields("") == []
  {}

  lemma TrimAround(gap: string, core: string, tail: string)
    requires AllSpace(gap) && AllSpace(tail) && Trimmed(core)
    ensures Trim(gap + core + tail) == core
  {
    hide TrimLeft, TrimRight, IsSpace;
    SpaceTrims(gap);
    SpaceTrims(tail);
    TrimLeftConcat(gap, core + tail);
    TrimLeftConcat(core, tail);
    TrimRightConcat(core, tail);
    TrimFixed(core);
    TrimmedEnds(core);
    assert gap + core + tail == gap + (core + tail);
  }

  lemma TrimmedEnds(core: string)
    requires Trimmed(core)
    ensures TrimLeft(core) == core && TrimRight(core) == core && TrimRight("") == "" && core + "" == core
  {}

  /** The text begins with the first word and ends with the last. */
  lemma {:induction false} SpacedEnds(words: seq<string>, gaps: seq<string>)
    requires |gaps| == |words| > 0 && gaps[0] == "" && forall i :: 0 <= i < |words| ==> words[i] != ""
    ensures var s, last := Spaced(words, gaps), words[|words| - 1];
            s != "" && s[0] == words[0][0] && s[|s| - 1] == last[|last| - 1]
  {
    SpacedEnd(words, gaps);
  }

  lemma {:induction false} SpacedEnd(words: seq<string>, gaps: seq<string>)
    requires |gaps| == |words| > 0 && forall i :: 0 <= i < |words| ==> words[i] != ""
    ensures var s, last := Spaced(words, gaps), words[|words| - 1];
            s != "" && last != "" && s[|s| - 1] == last[|last| - 1]
  {
    if |words| == 1 {
    } else {
      SpacedEnd(words[1..], gaps[1..]);
      assert words[1..][|words| - 2] == words[|words| - 1];
    }
  }

  /** The first gap stands in front of the rest. */
  lemma SpacedFirst(words: seq<string>, gaps: seq<string>)
    requires |gaps| == |words| > 0
    ensures Spaced(words, gaps) == gaps[0] + Spaced(words, gaps[0 := ""])
  {
    assert gaps[0 := ""][1..] == gaps[1..];
  }

  lemma TrimQuotesFixed(s: string)
    requires s != "" && !QuoteMark(s[0]) && !QuoteMark(s[|s| - 1])
    ensures TrimQuotes(s) == s
  {}

  lemma UnquotedTokens(text: string, q: string, words: seq<string>)
    requires Trim(q) == q != "" && !QuoteMark(q[0]) && !QuoteMark(q[|q| - 1]) && Fields(q) == words
    ensures ContainsQueryTokens(text, q) <==> forall w :: w in words ==> Occurs(text, w)
  {
    hide Fields, TrimQuotes, ContainsFold, Occurs, Trim;
    TrimQuotesFixed(q);
    forall w { ContainsMeans(text, w); }
  }

  lemma TokensTrimmed(text: string, q: string)
    ensures ContainsQueryTokens(text, q) == ContainsQueryTokens(text, Trim(q))
  {
    TrimIsTrimmed(q);
  }

  /** A search for words: the text matches exactly when each word occurs in it,
      whatever white space stands around them. */
  lemma WordsMean(text: string, words: seq<string>, gaps: seq<string>, tail: string)
    requires |gaps| == |words| && Gaps(gaps) && AllSpace(tail) && forall i :: 0 <= i < |words| ==> Unquoted(words[i])
    ensures ContainsQueryTokens(text, Spaced(words, gaps) + tail) <==> forall w :: w in words ==> Occurs(text, w)
  {
    hide ContainsQueryTokens, Occurs, IsSpace, QuoteMark, Trim;
    var q := Spaced(words, gaps) + tail;
    TokensTrimmed(text, q);
    if words == [] {
      TrimAround("", "", tail);
      assert q == "" + "" + tail;
      NothingAsked(text);
    } else {
      var bare := gaps[0 := ""];
      var core := Spaced(words, bare);
      SpacedFirst(words, gaps);
      SpacedEnds(words, bare);
      TrimAround(gaps[0], core, tail);
      TrimFixed(core);
      FieldsOfSpaced(words, bare, "");
      assert core + "" == core;
      UnquotedTokens(text, core, words);
    }
  }

  lemma NothingAsked(text: string)
    ensures ContainsQueryTokens(text, "")
  {}

  predicate AllMarks(s: string) {
    forall i :: 0 <= i < |s| ==> QuoteMark(s[i])
  }

  lemma {:induction false} TrimQuotesBack(core: string, back: string)
    requires core != "" && !QuoteMark(core[0]) && !QuoteMark(core[|core| - 1]) && AllMarks(back)
    ensures TrimQuotes(core + back) == core
  {
    if back == "" {
      assert core + back == core;
    } else {
      var s := core + back;
      assert s[..|s| - 1] == core + back[..|back| - 1];
      TrimQuotesBack(core, back[..|back| - 1]);
    }
  }

  lemma {:induction false} TrimQuotesAround(front: string, core: string, back: string)
    requires core != "" && !QuoteMark(core[0]) && !QuoteMark(core[|core| - 1]) && AllMarks(front) && AllMarks(back)
    ensures TrimQuotes(front + core + back) == core
  {
    if front == "" {
      assert front + core + back == core + back;
      TrimQuotesBack(core, back);
    } else {
      var s := front + core + back;
      assert s[1..] == front[1..] + core + back;
      TrimQuotesAround(front[1..], core, back);
    }
  }

  lemma MarkedTokens(text: string, q: string)
    requires Trim(q) == q != "" && !(|q| >= 2 && QuoteMark(q[0]) && q[|q| - 1] == q[0])
    ensures ContainsQueryTokens(text, q) <==> forall w :: w in Fields(TrimQuotes(q)) ==> ContainsFold(text, w)
  {
    hide Fields, TrimQuotes, ContainsFold, Trim, QuoteMark, Unquote;
  }

  lemma AllOccur(text: string, words: seq<string>)
    ensures (forall w :: w in words ==> ContainsFold(text, w)) <==> forall w :: w in words ==> Occurs(text, w)
  {
    hide ContainsFold, Occurs;
    forall w | w in words ensures ContainsFold(text, w) <==> Occurs(text, w) {
      ContainsMeans(text, w);
    }
  }

  /** Quote marks at the ends that do not pair up count for nothing. */
  lemma StrayMarksMean(text: string, front: string, words: seq<string>, gaps: seq<string>, back: string)
    requires |gaps| == |words| > 0 && gaps[0] == "" && Gaps(gaps)
    requires forall i :: 0 <= i < |words| ==> Unquoted(words[i])
    requires AllMarks(front) && AllMarks(back) && (front == "" || back == "" || front[0] != back[|back| - 1])
    ensures ContainsQueryTokens(text, front + Spaced(words, gaps) + back)
       <==> forall w :: w in words ==> Occurs(text, w)
  {
    hide ContainsQueryTokens, Occurs, Trim, TrimQuotes, Fields;
    var core := Spaced(words, gaps);
    var q := front + core + back;
    SpacedEnds(words, gaps);
    assert q[0] == if front == "" then core[0] else front[0];
    assert q[|q| - 1] == if back == "" then core[|core| - 1] else back[|back| - 1];
    TrimFixed(q);
    TrimQuotesAround(front, core, back);
    FieldsOfSpaced(words, gaps, "");
    assert core + "" == core;
    MarkedTokens(text, q);
    AllOccur(text, words);
  }

  // ---- phrases ------------------------------------------------------------------------

  datatype Phrase = Words(words: seq<string>) | Quoted(text: string) | Ticked(raw: string)

  /** The words with one blank between them. */
  function Sentence(words: seq<string>): string {
    if words == [] then "" else if |words| == 1 then words[0] else words[0] + " " + Sentence(words[1..])
  }

  function PhraseText(p: Phrase): string {
    match p
    case Words(words) => Sentence(words)
    case Quoted(text) => JsonQuote(text)
    case Ticked(raw) => TickQuote(raw)
  }

  /** A phrase occurs as it stands, words occur each for itself. */
  predicate PhraseIn(text: string, p: Phrase) {
    match p
    case Words(words) => forall w :: w in words ==> Occurs(text, w)
    case Quoted(part) => Occurs(text, part)
    case Ticked(part) => Occurs(text, part)
  }

  predicate GoodPhrase(p: Phrase) {
    match p
    case Words(words) => words != [] && forall i :: 0 <= i < |words| ==> Solid(words[i]) && Mild(words[i])
    case Quoted(_) => true
    case Ticked(raw) => '`' !in raw
  }

  function Blanks(first: string, n: nat): (gaps: seq<string>)
    ensures |gaps| == n
    decreases n
  {
    if n == 0 then [] else [first] + Blanks(" ", n - 1)
  }

  lemma {:induction false} BlanksAreGaps(first: string, n: nat)
    requires AllSpace(first)
    ensures Gaps(Blanks(first, n)) && forall i :: 0 < i < n ==> Blanks(first, n)[i] == " "
    decreases n
  {
    if n == 0 {
    } else {
      BlanksAreGaps(" ", n - 1);
      assert forall i :: 0 < i < n ==> Blanks(first, n)[i] == Blanks(" ", n - 1)[i - 1];
    }
  }

  lemma {:induction false} SentenceIsSpaced(words: seq<string>, first: string)
    requires words != []
    ensures Spaced(words, Blanks(first, |words|)) == first + Sentence(words)
  {
    var gaps := Blanks(first, |words|);
    assert gaps[1..] == Blanks(" ", |words| - 1);
    if |words| == 1 {
      assert Spaced(words, gaps) == first + (words[0] + "") == first + words[0];
    } else {
      SentenceIsSpaced(words[1..], " ");
      assert words[0] + (" " + Sentence(words[1..])) == Sentence(words);
    }
  }

  lemma SentenceTokens(text: string, words: seq<string>)
    requires words != [] && forall i :: 0 <= i < |words| ==> Unquoted(words[i])
    ensures ContainsQueryTokens(text, Sentence(words)) <==> forall w :: w in words ==> Occurs(text, w)
  {
    hide ContainsQueryTokens, Occurs, Unquoted;
    BlanksAreGaps("", |words|);
    SentenceIsSpaced(words, "");
    WordsMean(text, words, Blanks("", |words|), "");
    assert "" + Sentence(words) == Sentence(words) == Sentence(words) + "";
  }

  lemma QuotedTokens(text: string, v: string)
    ensures ContainsQueryTokens(text, JsonQuote(v)) <==> Occurs(text, v)
  {
    hide JsonBody, ContainsFold, Occurs, Unquote;
    TrimFixed(JsonQuote(v));
    UnquoteJson(v);
    ContainsMeans(text, v);
  }

  lemma TickedTokens(text: string, raw: string)
    ensures ContainsQueryTokens(text, TickQuote(raw)) <==> Occurs(text, raw)
  {
    hide ContainsFold, Occurs, Unquote;
    var q := TickQuote(raw);
    TrimFixed(q);
    assert q[1..|q| - 1] == raw;
    ContainsMeans(text, raw);
  }

  /** What a search for a phrase asks for. */
  lemma PhraseMeans(text: string, p: Phrase)
    requires GoodPhrase(p)
    ensures ContainsQueryTokens(text, PhraseText(p)) <==> PhraseIn(text, p)
  {
    hide ContainsQueryTokens, Occurs, JsonQuote, TickQuote, Sentence;
    match p
    case Words(words) =>
      assert forall i :: 0 <= i < |words| ==> Mild(words[i]) && Unquoted(words[i]);
      SentenceTokens(text, words);
    case Quoted(v) => QuotedTokens(text, v);
    case Ticked(raw) => TickedTokens(text, raw);
  }

  // ---- their shape ----------------------------------------------------------------------

  lemma {:induction false} SentenceEnds(words: seq<string>)
    requires words != [] && forall i :: 0 <= i < |words| ==> words[i] != ""
    ensures var s, last := Sentence(words), words[|words| - 1];
            s != "" && s[0] == words[0][0] && s[|s| - 1] == last[|last| - 1]
  {
    if |words| == 1 {
      assert Sentence(words) == words[0];
    } else {
      var tail := words[1..];
      SentenceEnds(tail);
      SentenceMore(words);
      JoinedEnds(words[0], Sentence(tail));
      assert tail[|tail| - 1] == words[|words| - 1];
    }
  }

  lemma SentenceMore(words: seq<string>)
    requires |words| > 1
    ensures Sentence(words) == words[0] + " " + Sentence(words[1..])
  {}

  lemma JoinedEnds(a: string, b: string)
    requires a != "" && b != ""
    ensures var s := a + " " + b; s[0] == a[0] && s[|s| - 1] == b[|b| - 1]
  {}

  lemma {:induction false} SentenceMild(words: seq<string>)
    requires forall i :: 0 <= i < |words| ==> Mild(words[i])
    ensures Mild(Sentence(words))
  {
    if |words| <= 1 {
    } else {
      SentenceMild(words[1..]);
      MildJoined(words[0] + " ", Sentence(words[1..]));
    }
  }

  lemma MildJoined(a: string, b: string)
    requires Mild(a) && Mild(b)
    ensures Mild(a + b)
  {}

  lemma PhraseShape(p: Phrase)
    requires GoodPhrase(p)
    ensures PhraseText(p) != "" && Trimmed(PhraseText(p)) && Balanced(PhraseText(p))
  {
    hide Sentence, JsonBody, Balanced, Literal;
    match p
    case Words(words) =>
      SentenceMild(words);
      SentenceEnds(words);
      MildIsBalanced(Sentence(words));
    case Quoted(v) =>
      JsonLiteral(v);
      LiteralAlone(JsonQuote(v), "AND");
    case Ticked(raw) =>
      TickLiteral(raw);
      LiteralAlone(TickQuote(raw), "AND");
  }

  lemma WordAndBlank(word: string)
    requires Mild(word)
    ensures Fresh(word + " ")
  {
    ScanMild(START, word);
    assert (word + " ")[..|word|] == word;
  }

  /** Bare words hold no operator. */
  lemma {:induction false} SentenceNoOperator(words: seq<string>, operator: string)
    requires Keyword(operator) && words != [] && forall i :: 0 <= i < |words| ==> Bare(words[i])
    ensures NoOperator(Sentence(words), operator)
  {
    hide OperatorAt, Reserved, Mild, Solid, Fresh;
    if |words| == 1 {
      AloneNoOperator(words[0], operator);
    } else {
      SentenceNoOperator(words[1..], operator);
      InFrontNoOperator(words[0], Sentence(words[1..]), operator);
    }
  }

  lemma AloneNoOperator(word: string, operator: string)
    requires Keyword(operator) && Bare(word)
    ensures NoOperator(word, operator)
  {
    hide OperatorAt, Reserved, Mild, Solid;
    forall i | 0 <= i < |word| ensures !OperatorAt(word, operator, i) {
      assert word[0..|word|] == word;
      WordIsNoOperator(word, operator, 0, word, i);
    }
  }

  lemma InFrontNoOperator(word: string, rest: string, operator: string)
    requires Keyword(operator) && Bare(word) && NoOperator(rest, operator)
    ensures NoOperator(word + " " + rest, operator)
  {
    hide OperatorAt, Reserved, Mild, Solid, Fresh;
    var p := word + " ";
    var s := p + rest;
    WordAndBlank(word);
    forall i | 0 <= i < |s| ensures !OperatorAt(s, operator, i) {
      if i < |word| {
        assert s[0..|word|] == word && s[|word|] == ' ';
        WordIsNoOperator(s, operator, 0, word, i);
      } else if i == |word| {
        OperatorIsLetters(s, operator, i);
      } else {
        OperatorShift(p, rest, operator, i - |p|);
      }
    }
  }
}
