/** The two ends of a quoted literal: JSON.stringify in the web client and
    strconv.Unquote in the Hub. */
module Literals {
  import opened Options

  // ---- JSON.stringify (JSON strings, section 7 of RFC 8259) --------------

  function HexDigit(d: nat): char
    requires d < 16
  {
    if d < 10 then (d + 48) as char else (d + 87) as char
  }

  function JsonChar(c: char): string {
    if c == '"' then "\\\""
    else if c == '\\' then "\\\\"
    else if c == '\U{08}' then "\\b"
    else if c == '\U{0C}' then "\\f"
    else if c == '\n' then "\\n"
    else if c == '\r' then "\\r"
    else if c == '\t' then "\\t"
    else if c < ' ' then "\\u00" + [HexDigit(c as int / 16), HexDigit(c as int % 16)]
    else [c]
  }

  function JsonBody(v: string): string {
    if v == "" then "" else JsonChar(v[0]) + JsonBody(v[1..])
  }

  function JsonQuote(v: string): string {
    "\"" + JsonBody(v) + "\""
  }

  // ---- strconv.Unquote ----------------------------------------------------

  function DigitValue(c: char): (d: nat)
    ensures d <= 16
  {
    if '0' <= c <= '9' then c as int - 48
    else if 'a' <= c <= 'f' then c as int - 87
    else if 'A' <= c <= 'F' then c as int - 55
    else 16
  }

  /** The number written by the digits, or None when one is not of the base. */
  function Number(digits: string, base: nat): Option<nat> {
    if digits == "" then Some(0)
    else
      var n := |digits| - 1;
      var d := DigitValue(digits[n]);
      match Number(digits[..n], base)
      case None => None
      case Some(high) => if d < base then Some(base * high + d) else None
  }

  predicate ScalarValue(v: nat) {
    v < 0xD800 || 0xE000 <= v < 0x11_0000
  }

  /** A numeric escape of n digits: its character and the text after it. */
  function Numeric(s: string, n: nat, base: nat, limit: nat): Option<(char, string)> {
    if |s| < n then None
    else match Number(s[..n], base)
         case None => None
         case Some(v) => if v <= limit && ScalarValue(v) then Some((v as char, s[n..])) else None
  }

  /** strconv.UnquoteChar with quote '"': the next character and the rest. */
  function UnquoteChar(s: string): Option<(char, string)>
    requires s != "" && s[0] != '"'
  {
    if s[0] != '\\' then Some((s[0], s[1..]))
    else if |s| == 1 then None
    else
      var c, rest := s[1], s[2..];
      if c == 'a' then Some(('\U{07}', rest))
      else if c == 'b' then Some(('\U{08}', rest))
      else if c == 'f' then Some(('\U{0C}', rest))
      else if c == 'n' then Some(('\n', rest))
      else if c == 'r' then Some(('\r', rest))
      else if c == 't' then Some(('\t', rest))
      else if c == 'v' then Some(('\U{0B}', rest))
      else if c == 'x' then Numeric(rest, 2, 16, 0xFF)
      else if c == 'u' then Numeric(rest, 4, 16, 0xFFFF)
      else if c == 'U' then Numeric(rest, 8, 16, 0x10_FFFF)
      else if '0' <= c <= '7' then Numeric(s[1..], 3, 8, 0xFF)
      else if c == '\\' || c == '"' then Some((c, rest))
      else None
  }

  lemma UnquoteCharShrinks(s: string)
    requires s != "" && s[0] != '"' && UnquoteChar(s).Some?
    ensures |UnquoteChar(s).value.1| < |s|
  {}

  /** The text after the opening quote. A raw line feed is refused, and nothing
      may follow the closing quote. */
  function UnquoteBody(s: string): Option<string>
    decreases |s|
  {
    if s == "" || s[0] == '\n' then None
    else if s[0] == '"' then if |s| == 1 then Some("") else None
    else match UnquoteChar(s)
         case None => None
         case Some((c, rest)) =>
           UnquoteCharShrinks(s);
           match UnquoteBody(rest)
           case None => None
           case Some(tail) => Some([c] + tail)
  }

  function Unquote(s: string): Option<string> {
    if |s| >= 2 && s[0] == '"' then UnquoteBody(s[1..]) else None
  }

  // ---- round trip ---------------------------------------------------------

  lemma NumericEscape(c: char, rest: string)
    requires c < ' '
    ensures Numeric(JsonDigits(c) + rest, 4, 16, 0xFFFF) == Some((c, rest))
  {
    var digits := JsonDigits(c);
    assert (digits + rest)[..4] == digits && (digits + rest)[4..] == rest;
    assert digits[..3] == ['0', '0', HexDigit(c as int / 16)];
    assert digits[..3][..2] == ['0', '0'];
    assert digits[..3][..2][..1] == ['0'];
    assert digits[..3][..2][..1][..0] == "";
    assert Number(['0'], 16) == Some(0);
    assert Number(['0', '0'], 16) == Some(0);
    assert Number(digits[..3], 16) == Some(c as int / 16);
    assert Number(digits, 16) == Some(c as int);
  }

  function JsonDigits(c: char): string
    requires c < ' '
  {
    ['0', '0', HexDigit(c as int / 16), HexDigit(c as int % 16)]
  }

  lemma UnquoteJsonChar(c: char, rest: string)
    ensures var s := JsonChar(c) + rest;
            s[0] != '"' && s[0] != '\n' && UnquoteChar(s) == Some((c, rest))
  {
    hide Number, Numeric, HexDigit;
    var s := JsonChar(c) + rest;
    if |JsonChar(c)| == 6 {
      assert s[2..] == JsonDigits(c) + rest;
      NumericEscape(c, rest);
    } else if |JsonChar(c)| == 2 {
      assert s[2..] == rest;
    } else {
      assert s[1..] == rest;
    }
  }

  lemma {:induction false} UnquoteJsonBody(v: string)
    ensures UnquoteBody(JsonBody(v) + "\"") == Some(v)
  {
    hide JsonChar, UnquoteChar;
    if v == "" {
    } else {
      UnquoteJsonBody(v[1..]);
      UnquoteJsonChar(v[0], JsonBody(v[1..]) + "\"");
      assert JsonBody(v) + "\"" == JsonChar(v[0]) + (JsonBody(v[1..]) + "\"");
      assert v == [v[0]] + v[1..];
    }
  }

  /** What the client quotes, the Hub reads back, for every text. */
  lemma UnquoteJson(v: string)
    ensures Unquote(JsonQuote(v)) == Some(v)
  {
    UnquoteJsonBody(v);
    assert JsonQuote(v)[1..] == JsonBody(v) + "\"";
  }

  /** A quoted literal never holds a raw line break. */
  lemma {:induction false} JsonBodyPrintable(v: string)
    ensures forall i :: 0 <= i < |JsonBody(v)| ==> JsonBody(v)[i] >= ' '
  {
    if v == "" {
    } else {
      JsonBodyPrintable(v[1..]);
    }
  }
}
