/** The numeric escapes of a quoted literal: each writes one character. */
module Escapes {
  import opened Options
  import opened Literals

  /** Exactly `width` digits, the last ones of the number. */
  function Digits(v: nat, width: nat, base: nat): (s: string)
    requires 2 <= base <= 16
    ensures |s| == width
    decreases width
  {
    if width == 0 then "" else Digits(v / base, width - 1, base) + [HexDigit(v % base)]
  }

  /** The number has no more digits than that. */
  predicate Fits(v: nat, width: nat, base: nat)
    requires 2 <= base <= 16
    decreases width
  {
    if width == 0 then v == 0 else Fits(v / base, width - 1, base)
  }

  lemma DigitReads(d: nat)
    requires d < 16
    ensures DigitValue(HexDigit(d)) == d
  {}

  lemma NumberAppend(digits: string, high: nat, d: nat, base: nat)
    requires d < base <= 16 && Number(digits, base) == Some(high)
    ensures Number(digits + [HexDigit(d)], base) == Some(base * high + d)
  {
    hide HexDigit, DigitValue;
    DigitReads(d);
    var s := digits + [HexDigit(d)];
    assert s[..|s| - 1] == digits && s[|s| - 1] == HexDigit(d);
  }

  lemma Divided(v: nat, base: nat)
    requires base == 8 || base == 16
    ensures base * (v / base) + v % base == v && v % base < base
  {
    if base == 8 {
      assert 8 * (v / 8) + v % 8 == v;
    } else {
      assert 16 * (v / 16) + v % 16 == v;
    }
  }

  lemma LastDigit(digits: string, v: nat, base: nat)
    requires (base == 8 || base == 16) && Number(digits, base) == Some(v / base)
    ensures Number(digits + [HexDigit(v % base)], base) == Some(v)
  {
    hide Number, HexDigit;
    Divided(v, base);
    NumberAppend(digits, v / base, v % base, base);
  }

  lemma {:induction false} DigitsReadBack(v: nat, width: nat, base: nat)
    requires (base == 8 || base == 16) && Fits(v, width, base)
    ensures Number(Digits(v, width, base), base) == Some(v)
    decreases width
  {
    hide HexDigit;
    if width == 0 {
    } else {
      DigitsReadBack(v / base, width - 1, base);
      LastDigit(Digits(v / base, width - 1, base), v, base);
    }
  }

  lemma NumericReads(v: nat, width: nat, base: nat, limit: nat, rest: string)
    requires (base == 8 || base == 16) && Fits(v, width, base)
    ensures Numeric(Digits(v, width, base) + rest, width, base, limit)
         == if v <= limit && ScalarValue(v) then Some((v as char, rest)) else None
  {
    hide Number, Digits, Fits;
    var digits := Digits(v, width, base);
    DigitsReadBack(v, width, base);
    assert (digits + rest)[..width] == digits && (digits + rest)[width..] == rest;
  }

  lemma HexByte(v: nat, rest: string)
    requires v <= 0xFF
    ensures UnquoteChar("\\x" + Digits(v, 2, 16) + rest) == Some((v as char, rest))
  {
    hide Numeric, Digits;
    NumericReads(v, 2, 16, 0xFF, rest);
    assert ("\\x" + Digits(v, 2, 16) + rest)[2..] == Digits(v, 2, 16) + rest;
  }

  lemma OctalByte(v: nat, rest: string)
    requires v <= 0xFF
    ensures UnquoteChar("\\" + Digits(v, 3, 8) + rest) == Some((v as char, rest))
  {
    hide Numeric;
    NumericReads(v, 3, 8, 0xFF, rest);
    FirstOctal(v);
    var s := "\\" + Digits(v, 3, 8) + rest;
    assert s[1..] == Digits(v, 3, 8) + rest;
  }

  lemma FirstOctal(v: nat)
    requires v <= 0xFF
    ensures '0' <= Digits(v, 3, 8)[0] <= '7'
  {
    assert Digits(v / 8 / 8, 1, 8) == Digits(v / 8 / 8 / 8, 0, 8) + [HexDigit(v / 8 / 8 % 8)];
  }

  /** Surrogates are no characters. */
  lemma ShortCode(v: nat, rest: string)
    requires v <= 0xFFFF
    ensures UnquoteChar("\\u" + Digits(v, 4, 16) + rest)
         == if 0xD800 <= v <= 0xDFFF then None else Some((v as char, rest))
  {
    hide Numeric, Digits;
    NumericReads(v, 4, 16, 0xFFFF, rest);
    assert ("\\u" + Digits(v, 4, 16) + rest)[2..] == Digits(v, 4, 16) + rest;
  }

  /** Neither is anything beyond the last code point. */
  lemma LongCode(v: nat, rest: string)
    requires v < 0x1_0000_0000
    ensures UnquoteChar("\\U" + Digits(v, 8, 16) + rest)
         == if v > 0x10_FFFF || 0xD800 <= v <= 0xDFFF then None else Some((v as char, rest))
  {
    hide Numeric, Digits;
    LongFits(v);
    NumericReads(v, 8, 16, 0x10_FFFF, rest);
    assert ("\\U" + Digits(v, 8, 16) + rest)[2..] == Digits(v, 8, 16) + rest;
  }

  lemma LongFits(v: nat)
    requires v < 0x1_0000_0000
    ensures Fits(v, 8, 16)
  {
    var w := v / 16 / 16 / 16 / 16;
    assert w < 0x1_0000;
    assert Fits(w, 4, 16);
  }

  /** The escapes with a letter or a sign, and what they write. */
  const NAMES := "abfnrtv\\\""
  const CODES := [7, 8, 12, 10, 13, 9, 11, 92, 34]

  lemma NamedEscape(k: nat, rest: string)
    requires k < |NAMES| == |CODES|
    ensures UnquoteChar(['\\', NAMES[k]] + rest) == Some((CODES[k] as char, rest))
  {
    hide Numeric;
    assert (['\\', NAMES[k]] + rest)[2..] == rest;
  }

  /** Every other escape is an error. */
  lemma UnknownEscape(c: char, rest: string)
    requires c !in NAMES && c !in "xuU" && !('0' <= c <= '7')
    ensures UnquoteChar(['\\', c] + rest) == None
  {
    hide Numeric;
    assert forall k :: 0 <= k < |NAMES| ==> NAMES[k] in NAMES;
  }
}
