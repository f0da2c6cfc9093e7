/** The insert ids an agent gives to its entries: agent, boot and a counter
    padded to twenty digits. */
module EntryIds {
  import opened Options
  import opened Text
  import opened Literals

  /** The "%020d" of a format: at least `width` digits. */
  function Padded(n: nat, width: nat): string
    decreases n, width
  {
    if n == 0 && width == 0 then ""
    else Padded(n / 10, if width == 0 then 0 else width - 1) + [HexDigit(n % 10)]
  }

  function InsertId(agentId: string, bootId: string, n: nat): string {
    agentId + "/" + bootId + "/" + Padded(n, 20)
  }

  lemma OneDigit(digits: string, n: nat)
    requires Number(digits, 10) == Some(n / 10)
    ensures Number(digits + [HexDigit(n % 10)], 10) == Some(n)
  {
    assert (digits + [HexDigit(n % 10)])[..|digits|] == digits;
    assert DigitValue(HexDigit(n % 10)) == n % 10;
  }

  lemma {:induction false} PaddedReadsBack(n: nat, width: nat)
    ensures Number(Padded(n, width), 10) == Some(n)
    decreases n, width
  {
    hide HexDigit;
    if n == 0 && width == 0 {
    } else {
      var narrower := if width == 0 then 0 else width - 1;
      PaddedReadsBack(n / 10, narrower);
      OneDigit(Padded(n / 10, narrower), n);
    }
  }

  lemma FirstSlash(a: string, b: string, x: string, y: string)
    requires '/' !in a && '/' !in b && a + "/" + x == b + "/" + y
    ensures a == b && x == y
  {
    var s := a + "/" + x;
    assert s == b + "/" + y && s[|a|] == '/' && s[|b|] == '/';
    assert forall i :: 0 <= i < |a| ==> s[i] == a[i] && a[i] in a;
    assert forall i :: 0 <= i < |b| ==> s[i] == b[i] && b[i] in b;
    assert s[..|a|] == a && s[..|b|] == b && s[|a| + 1..] == x && s[|b| + 1..] == y;
  }

  /** An id is given once: it names its boot and its counter. */
  lemma InsertIdUnique(agentId: string, boot: string, m: nat, other: string, n: nat)
    requires '/' !in boot && '/' !in other && InsertId(agentId, boot, m) == InsertId(agentId, other, n)
    ensures boot == other && m == n
  {
    hide Padded;
    var p, x, y := agentId + "/", boot + "/" + Padded(m, 20), other + "/" + Padded(n, 20);
    assert InsertId(agentId, boot, m) == p + x && InsertId(agentId, other, n) == p + y;
    assert x == (p + x)[|p|..] && y == (p + y)[|p|..];
    FirstSlash(boot, other, Padded(m, 20), Padded(n, 20));
    PaddedReadsBack(m, 20);
    PaddedReadsBack(n, 20);
  }

  // ---- the padding keeps the order of collection -------------------------------------------------

  /** No more than `width` digits. */
  predicate InWidth(n: nat, width: nat)
    decreases width
  {
    if width == 0 then n == 0 else InWidth(n / 10, width - 1)
  }

  function Pow10(width: nat): (p: nat)
    ensures p > 0
  {
    if width == 0 then 1 else 10 * Pow10(width - 1)
  }

  lemma {:induction false} WidthIsBound(n: nat, width: nat)
    ensures InWidth(n, width) <==> n < Pow10(width)
    decreases width
  {
    if width == 0 {
    } else {
      WidthIsBound(n / 10, width - 1);
      assert n / 10 < Pow10(width - 1) <==> n < 10 * Pow10(width - 1);
    }
  }

  lemma TwentyDigits()
    ensures Pow10(20) == 100_000_000_000_000_000_000
  {
    assert Pow10(5) == 100_000;
    assert Pow10(10) == 10_000_000_000;
    assert Pow10(15) == 1_000_000_000_000_000;
  }

  lemma {:induction false} PaddedWidth(n: nat, width: nat)
    requires InWidth(n, width)
    ensures |Padded(n, width)| == width
    decreases width
  {
    if width == 0 {
    } else {
      PaddedWidth(n / 10, width - 1);
    }
  }

  lemma {:induction false} LessAppend(a: string, b: string, x: string, y: string)
    requires |a| == |b| && Less(a, b)
    ensures Less(a + x, b + y)
  {
    assert (a + x)[1..] == a[1..] + x && (b + y)[1..] == b[1..] + y;
    if a[0] == b[0] {
      LessAppend(a[1..], b[1..], x, y);
    }
  }

  lemma {:induction false} LessBehind(p: string, x: string, y: string)
    requires Less(x, y)
    ensures Less(p + x, p + y)
  {
    if p == "" {
      assert p + x == x && p + y == y;
    } else {
      assert (p + x)[1..] == p[1..] + x && (p + y)[1..] == p[1..] + y;
      LessBehind(p[1..], x, y);
    }
  }

  lemma DigitsInOrder(d: nat, e: nat)
    requires d < e < 10
    ensures Less([HexDigit(d)], [HexDigit(e)])
  {}

  lemma {:induction false} PaddedInOrder(m: nat, n: nat, width: nat)
    requires m < n && InWidth(m, width) && InWidth(n, width)
    ensures Less(Padded(m, width), Padded(n, width))
    decreases width
  {
    hide HexDigit, Less;
    if width == 0 {
    } else {
      PaddedWidth(m / 10, width - 1);
      PaddedWidth(n / 10, width - 1);
      var a, b := Padded(m / 10, width - 1), Padded(n / 10, width - 1);
      if m / 10 < n / 10 {
        PaddedInOrder(m / 10, n / 10, width - 1);
        LessAppend(a, b, [HexDigit(m % 10)], [HexDigit(n % 10)]);
      } else {
        DigitsInOrder(m % 10, n % 10);
        LessBehind(a, [HexDigit(m % 10)], [HexDigit(n % 10)]);
      }
    }
  }

  /** The ids of one boot sort in the order of collection, so entries with the same
      time keep it in the Hub's index. */
  lemma InsertIdInOrder(agentId: string, bootId: string, m: nat, n: nat)
    requires m < n < 100_000_000_000_000_000_000
    ensures Less(InsertId(agentId, bootId, m), InsertId(agentId, bootId, n))
  {
    hide Padded, Less, Pow10, InWidth;
    TwentyDigits();
    WidthIsBound(m, 20);
    WidthIsBound(n, 20);
    PaddedInOrder(m, n, 20);
    LessBehind(agentId + "/" + bootId + "/", Padded(m, 20), Padded(n, 20));
  }
}
