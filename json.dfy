/**
 * The parts of JSON.stringify that the service uses: quoting a string and
 * writing an integer, together with decoders that read them back, so that
 * every serialised record in the model has an inverse.
 */
module Json {
  import opened Wrappers

  predicate IsDigit(c: char) {
    '0' <= c <= '9'
  }

  /** The lower-case hexadecimal digit JSON.stringify uses in a \u escape. */
  function HexDigit(n: nat): (c: char)
    requires n < 16
  {
    if n < 10 then (('0' as int) + n) as char else (('a' as int) + n - 10) as char
  }

  function HexValue(c: char): Option<nat> {
    if '0' <= c <= '9' then Some(c as int - '0' as int)
    else if 'a' <= c <= 'f' then Some(c as int - 'a' as int + 10)
    else if 'A' <= c <= 'F' then Some(c as int - 'A' as int + 10)
    else None
  }

  lemma HexValueOfDigit(n: nat)
    requires n < 16
    ensures HexValue(HexDigit(n)) == Some(n)
  {
  }

  /** How JSON.stringify writes one character inside a string literal. */
  function EscapeChar(c: char): (e: string)
    ensures |e| > 0
  {
    if c == '"' then "\\\""
    else if c == '\\' then "\\\\"
    else if c as int == 8 then "\\b"
    else if c as int == 12 then "\\f"
    else if c == '\n' then "\\n"
    else if c == '\r' then "\\r"
    else if c == '\t' then "\\t"
    else if c < ' ' then "\\u00" + [HexDigit(c as int / 16), HexDigit(c as int % 16)]
    else [c]
  }

  function Escape(s: string): string {
    if s == [] then [] else Escape(s[..|s| - 1]) + EscapeChar(s[|s| - 1])
  }

  /** Escaping works character by character from the front as well. */
  lemma {:induction false} EscapeCons(c: char, s: string)
    ensures Escape([c] + s) == EscapeChar(c) + Escape(s)
    decreases |s|
  {
    var t := [c] + s;
    if s == [] {
      assert t[..|t| - 1] == [];
    } else {
      var init, last := s[..|s| - 1], s[|s| - 1];
      assert t[..|t| - 1] == [c] + init;
      assert t[|t| - 1] == last;
      calc {
        Escape(t);
        Escape([c] + init) + EscapeChar(last);
        { EscapeCons(c, init); }
        EscapeChar(c) + Escape(init) + EscapeChar(last);
        EscapeChar(c) + (Escape(init) + EscapeChar(last));
        EscapeChar(c) + Escape(s);
      }
    }
  }

  /** JSON.stringify of a string value. */
  function Quote(s: string): (q: string)
    ensures |q| >= 2 && q[0] == '"' && q[|q| - 1] == '"'
  {
    "\"" + Escape(s) + "\""
  }

  /** The value of four hexadecimal digits. */
  function Hex4(t: string): Option<nat>
    requires |t| == 4
  {
    match (HexValue(t[0]), HexValue(t[1]), HexValue(t[2]), HexValue(t[3]))
    case (Some(a), Some(b), Some(c), Some(d)) => Some(((a * 16 + b) * 16 + c) * 16 + d)
    case _ => None
  }

  predicate IsScalar(n: nat) {
    n < 0xD800 || 0xE000 <= n < 0x11_0000
  }

  /**
   * Reads one escape sequence, `t` being the text after the backslash; gives
   * the character and how many characters of `t` it used. Surrogate escapes
   * are refused, since a character here is a Unicode scalar value.
   */
  function Unescape(t: string): (r: Option<(char, nat)>)
    ensures r.Some? ==> 0 < r.value.1 <= |t|
  {
    if |t| == 0 then None
    else if t[0] == '"' || t[0] == '\\' || t[0] == '/' then Some((t[0], 1))
    else if t[0] == 'b' then Some((8 as char, 1))
    else if t[0] == 'f' then Some((12 as char, 1))
    else if t[0] == 'n' then Some(('\n', 1))
    else if t[0] == 'r' then Some(('\r', 1))
    else if t[0] == 't' then Some(('\t', 1))
    else if t[0] == 'u' && |t| >= 5 then
      match Hex4(t[1..5])
      case Some(v) => if IsScalar(v) then Some((v as char, 5)) else None
      case None => None
    else None
  }

  /**
   * Reads the body of a string literal whose opening quote has been consumed:
   * the decoded value and the text after the closing quote.
   */
  function ReadString(s: string): (r: Option<(string, string)>)
    ensures r.Some? ==> |r.value.1| < |s|
    decreases |s|
  {
    if |s| == 0 then None
    else if s[0] == '"' then Some(("", s[1..]))
    else if s[0] == '\\' then
      match Unescape(s[1..])
      case None => None
      case Some((c, n)) =>
        match ReadString(s[1 + n..])
        case None => None
        case Some((v, rest)) => Some(([c] + v, rest))
    else if s[0] < ' ' then None
    else
      match ReadString(s[1..])
      case None => None
      case Some((v, rest)) => Some(([s[0]] + v, rest))
  }

  lemma UnescapeOfEscape(c: char, rest: string)
    requires EscapeChar(c) != [c]
    ensures EscapeChar(c)[0] == '\\'
    ensures Unescape(EscapeChar(c)[1..] + rest) == Some((c, |EscapeChar(c)| - 1))
  {
    var e := EscapeChar(c);
    var t := e[1..] + rest;
    if c < ' ' && c != '\n' && c != '\r' && c != '\t' && c as int != 8 && c as int != 12 {
      var hi, lo := c as int / 16, c as int % 16;
      assert t[1..5] == ['0', '0', HexDigit(hi), HexDigit(lo)];
      HexValueOfDigit(hi);
      HexValueOfDigit(lo);
      assert Hex4(t[1..5]) == Some(c as int);
    }
  }

  /** One escaped character is read back as itself, whatever follows it. */
  lemma ReadStringStep(c: char, tail: string)
    ensures ReadString(EscapeChar(c) + tail) ==
              match ReadString(tail)
              case None => None
              case Some((v, rest)) => Some(([c] + v, rest))
  {
    var e := EscapeChar(c);
    if e == [c] {
      assert (e + tail)[0] == c;
      assert (e + tail)[1..] == tail;
    } else {
      UnescapeOfEscape(c, tail);
      assert (e + tail)[0] == '\\';
      assert (e + tail)[1..] == e[1..] + tail;
      assert (e + tail)[1 + (|e| - 1)..] == tail;
    }
  }

  /** Reading back an escaped string gives the string and exactly the text after its closing quote. */
  lemma {:induction false} ReadStringOfEscape(s: string, rest: string)
    ensures ReadString(Escape(s) + "\"" + rest) == Some((s, rest))
  {
    if s == [] {
      assert Escape(s) + "\"" + rest == "\"" + rest;
    } else {
      var tail := Escape(s[1..]) + "\"" + rest;
      assert [s[0]] + s[1..] == s;
      EscapeCons(s[0], s[1..]);
      assert Escape(s) + "\"" + rest == EscapeChar(s[0]) + tail;
      ReadStringOfEscape(s[1..], rest);
      ReadStringStep(s[0], tail);
      assert [s[0]] + s[1..] == s;
    }
  }

  function DigitChar(d: nat): (c: char)
    requires d < 10
    ensures IsDigit(c)
  {
    (('0' as int) + d) as char
  }

  /** The decimal digits of a natural number, most significant first, without leading zeros. */
  function Digits(n: nat): (s: string)
    ensures |s| > 0
    ensures forall i :: 0 <= i < |s| ==> IsDigit(s[i])
    ensures |s| > 1 ==> s[0] != '0'
  {
    if n < 10 then [DigitChar(n)] else Digits(n / 10) + [DigitChar(n % 10)]
  }

  /** JSON.stringify of an integer. */
  function Number(n: int): (s: string)
    ensures |s| > 0 && (s[0] == '-' <==> n < 0)
  {
    if n < 0 then "-" + Digits(-n) else Digits(n)
  }

  function DigitsValue(s: string): nat
    requires forall i :: 0 <= i < |s| ==> IsDigit(s[i])
  {
    if s == [] then 0
    else
      assert IsDigit(s[|s| - 1]);
      DigitsValue(s[..|s| - 1]) * 10 + (s[|s| - 1] as int - '0' as int)
  }

  lemma {:induction false} DigitsValueOfDigits(n: nat)
    ensures DigitsValue(Digits(n)) == n
  {
    if n >= 10 {
      var s := Digits(n);
      assert s[..|s| - 1] == Digits(n / 10);
      DigitsValueOfDigits(n / 10);
    }
  }

  /** The length of the run of digits at the front of `s`. */
  function DigitRun(s: string): (k: nat)
    ensures k <= |s|
    ensures forall i :: 0 <= i < k ==> IsDigit(s[i])
    ensures k < |s| ==> !IsDigit(s[k])
  {
    if s == [] || !IsDigit(s[0]) then 0 else 1 + DigitRun(s[1..])
  }

  /** Reads an optionally negative integer from the front of `s`; gives its value and the rest. */
  function ReadNumber(s: string): Option<(int, string)> {
    if |s| > 0 && s[0] == '-' then
      var t := s[1..];
      var k := DigitRun(t);
      var v: int := -(DigitsValue(t[..k]) as int);
      if k == 0 then None else Some((v, t[k..]))
    else
      var k := DigitRun(s);
      if k == 0 then None else Some((DigitsValue(s[..k]), s[k..]))
  }

  lemma ReadDigits(n: nat, rest: string)
    requires rest == [] || !IsDigit(rest[0])
    ensures var s := Digits(n) + rest;
            DigitRun(s) == |Digits(n)| && s[..DigitRun(s)] == Digits(n) && s[DigitRun(s)..] == rest
  {
    var d := Digits(n);
    var s := d + rest;
    assert forall i :: 0 <= i < |d| ==> IsDigit(s[i]);
    assert |d| < |s| ==> s[|d|] == rest[0];
  }

  /** Reading back a written integer gives it and exactly the text after it. */
  lemma ReadNumberOfNumber(n: int, rest: string)
    requires rest == [] || !IsDigit(rest[0])
    ensures ReadNumber(Number(n) + rest) == Some((n, rest))
  {
    var m: nat := if n < 0 then -n else n;
    var d := Digits(m);
    var t := d + rest;
    ReadDigits(m, rest);
    DigitsValueOfDigits(m);
    var k := DigitRun(t);
    assert k == |d| && t[..k] == d && t[k..] == rest;
    if n < 0 {
      var s := "-" + t;
      assert Number(n) + rest == s;
      assert s[1..] == t;
    } else {
      assert Number(n) + rest == t;
      assert IsDigit(t[0]);
    }
  }

  /** The rest of `s` after `p`, when `s` starts with `p`. */
  function StripPrefix(p: string, s: string): (r: Option<string>)
    ensures r.Some? ==> s == p + r.value
  {
    if |p| <= |s| && s[..|p|] == p then Some(s[|p|..]) else None
  }

  lemma StripPrefixOf(p: string, t: string)
    ensures StripPrefix(p, p + t) == Some(t)
  {
    assert (p + t)[..|p|] == p;
  }
}
