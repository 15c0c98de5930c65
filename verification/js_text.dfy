/** The parts of JavaScript's string and number conversions the app relies
    on: `String.prototype.split(':')` read for its first two fields,
    `Number(string)` (ECMAScript StringToNumber), `parseInt(string, 10)`,
    `ToIntegerOrInfinity` and the decimal rendering of an integer. */
module JsText {
  import opened Types

  /** ECMAScript `StrWhiteSpaceChar`: white space and line terminators,
      skipped by `Number` at both ends and by `parseInt` at the start. */
  predicate IsJsSpace(c: char)
  {
    || c == '\t' || c == '\n' || c == '\U{000B}' || c == '\U{000C}' || c == '\r'
    || c == ' ' || c == '\U{00A0}' || c == '\U{1680}' || ('\U{2000}' <= c <= '\U{200A}')
    || c == '\U{2028}' || c == '\U{2029}' || c == '\U{202F}' || c == '\U{205F}'
    || c == '\U{3000}' || c == '\U{FEFF}'
  }

  predicate IsDigit(c: char)
  {
    '0' <= c <= '9'
  }

  predicate AllDigits(s: string)
  {
    forall i :: 0 <= i < |s| ==> IsDigit(s[i])
  }

  function DigitValue(c: char): nat
    requires IsDigit(c)
  {
    c as int - '0' as int
  }

  function DigitChar(d: nat): (c: char)
    requires d < 10
    ensures IsDigit(c) && DigitValue(c) == d
  {
    ('0' as int + d) as char
  }

  /** The value of a run of decimal digits, most significant first. */
  function DigitsValue(s: string): nat
    requires AllDigits(s)
    decreases |s|
  {
    if s == [] then 0 else 10 * DigitsValue(s[..|s| - 1]) + DigitValue(s[|s| - 1])
  }

  /** The value of the digits after a decimal point. */
  function FracValue(s: string): (r: real)
    requires AllDigits(s)
    ensures 0.0 <= r < 1.0
    decreases |s|
  {
    if s == [] then 0.0 else (DigitValue(s[0]) as real + FracValue(s[1..])) / 10.0
  }

  /** Decimal rendering of a natural number, without leading zeros. */
  function NatToString(n: nat): (r: string)
    ensures r != [] && AllDigits(r) && DigitsValue(r) == n
    ensures r[0] == '0' ==> n == 0 && r == "0"
    decreases n
  {
    if n < 10 then [DigitChar(n)]
    else
      var prefix := NatToString(n / 10);
      var r := prefix + [DigitChar(n % 10)];
      assert r[..|r| - 1] == prefix;
      r
  }

  /** Decimal rendering of an integer, as a template literal shows it: a
      `-` exactly for a negative number, then the digits of its magnitude
      with no leading zero unless the magnitude is 0. */
  function IntToString(i: int): (r: string)
    ensures ParseInt(r) == Some(i)
    ensures forall c :: c in r ==> c == '-' || IsDigit(c)
    ensures r != [] && (r[0] == '-' <==> i < 0)
    ensures var digits := if i < 0 then r[1..] else r;
      && digits != [] && AllDigits(digits) && DigitsValue(digits) == (if i < 0 then -i else i)
      && (digits[0] == '0' ==> digits == "0")
  {
    if i < 0 then
      var d := NatToString(-i);
      SignedDigitsParse(d);
      "-" + d
    else
      var d := NatToString(i);
      DigitsParse(d);
      d
  }

  /** Two-digit zero-padded rendering, as a `HH:mm` field is written. */
  function Pad2(n: nat): (r: string)
    requires n < 100
    ensures |r| == 2 && AllDigits(r) && DigitsValue(r) == n
  {
    var r := [DigitChar(n / 10), DigitChar(n % 10)];
    assert r[..1] == [r[0]] && r[..1][..0] == [];
    assert DigitsValue(r[..1]) == n / 10;
    r
  }

  /** The documented `HH:mm` 24-hour form of a time of day. */
  function HhMm(h: nat, m: nat): string
    requires h < 100 && m < 100
  {
    Pad2(h) + ":" + Pad2(m)
  }

  /** The first position of `c` in `s`. */
  function IndexOf(s: string, c: char): (r: Option<nat>)
    ensures r.None? <==> c !in s
    ensures r.Some? ==> r.value < |s| && s[r.value] == c && c !in s[..r.value]
  {
    if s == [] then None
    else if s[0] == c then Some(0)
    else
      match IndexOf(s[1..], c)
      case None => None
      case Some(k) =>
        assert s[..k + 1] == [s[0]] + s[1..][..k];
        Some(k + 1)
  }

  /** The first two elements of `s.split(':')` for a string holding a `:`:
      the text before the first colon and the text between it and the next
      colon (or the end). */
  function FirstTwoFields(s: string): (r: (string, string))
    requires ':' in s
    ensures ':' !in r.0 && ':' !in r.1
    ensures |r.0| + 1 + |r.1| <= |s|
    ensures s[..|r.0|] == r.0 && s[|r.0|] == ':' && s[|r.0| + 1..|r.0| + 1 + |r.1|] == r.1
    ensures |r.0| + 1 + |r.1| == |s| || s[|r.0| + 1 + |r.1|] == ':'
  {
    var k := IndexOf(s, ':').value;
    var rest := s[k + 1..];
    match IndexOf(rest, ':')
    case None => (s[..k], rest)
    case Some(j) => (s[..k], rest[..j])
  }

  /** `s` with leading `StrWhiteSpaceChar`s removed. */
  function TrimStart(s: string): (r: string)
    ensures |r| <= |s| && r == s[|s| - |r|..]
    ensures r == [] || !IsJsSpace(r[0])
    ensures forall i :: 0 <= i < |s| - |r| ==> IsJsSpace(s[i])
  {
    if s != [] && IsJsSpace(s[0]) then TrimStart(s[1..]) else s
  }

  /** `s` with trailing `StrWhiteSpaceChar`s removed. */
  function TrimEnd(s: string): (r: string)
    ensures |r| <= |s| && r == s[..|r|]
    ensures r == [] || !IsJsSpace(r[|r| - 1])
    ensures forall i :: |r| <= i < |s| ==> IsJsSpace(s[i])
  {
    if s != [] && IsJsSpace(s[|s| - 1]) then TrimEnd(s[..|s| - 1]) else s
  }

  /** An optional leading sign: whether it was `-`, and the rest. */
  function SplitSign(s: string): (bool, string)
  {
    if s != [] && s[0] == '-' then (true, s[1..])
    else if s != [] && s[0] == '+' then (false, s[1..])
    else (false, s)
  }

  /** The longest prefix of `s` made of decimal digits. */
  function DigitPrefix(s: string): (r: string)
    ensures AllDigits(r) && |r| <= |s| && r == s[..|r|]
    ensures |r| == |s| || !IsDigit(s[|r|])
  {
    if s != [] && IsDigit(s[0]) then [s[0]] + DigitPrefix(s[1..]) else []
  }

  /** A JavaScript number as far as the app observes it. */
  datatype JsNumber = Finite(value: real) | Infinite(negative: bool) | NaN

  /** An unsigned decimal literal without exponent: digits with an optional
      decimal point, at least one digit in all. */
  function UnsignedDecimal(s: string): Option<real>
  {
    match IndexOf(s, '.')
    case None =>
      if s != [] && AllDigits(s) then Some(DigitsValue(s) as real) else None
    case Some(k) =>
      var whole := s[..k];
      var frac := s[k + 1..];
      if |whole| + |frac| > 0 && AllDigits(whole) && AllDigits(frac)
      then Some(DigitsValue(whole) as real + FracValue(frac))
      else None
  }

  /** `Number(s)` for a string: white space around the literal is ignored,
      an empty or all-blank string is 0, `Infinity` may carry a sign, and
      anything that is not a numeric literal is NaN. */
  function StringToNumber(s: string): JsNumber
  {
    var t := TrimEnd(TrimStart(s));
    if t == [] then Finite(0.0)
    else
      var (negative, body) := SplitSign(t);
      if body == "Infinity" then Infinite(negative)
      else
        match UnsignedDecimal(body)
        case Some(v) => Finite(if negative then -v else v)
        case None => NaN
  }

  /** `ToIntegerOrInfinity` on a finite number: truncation toward zero. */
  function Truncate(v: real): (r: int)
    ensures v >= 0.0 ==> r >= 0 && r as real <= v < r as real + 1.0
    ensures v < 0.0 ==> r <= 0 && r as real - 1.0 < v <= r as real
  {
    if v >= 0.0 then v.Floor else -((-v).Floor)
  }

  /** `Number('')` is 0. */
  lemma EmptyNumber()
    ensures StringToNumber([]) == Finite(0.0)
  {
  }

  /** Truncating a whole number gives it back. */
  lemma TruncateOfNat(n: nat)
    ensures Truncate(n as real) == n
  {
    assert (n as real).Floor == n;
  }

  /** `parseInt(s, 10)`: leading white space and one sign are skipped, then
      the longest run of decimal digits is read; no digit at all is NaN
      (`None`). */
  function ParseInt(s: string): Option<int>
  {
    var signed := SplitSign(TrimStart(s));
    var digits := DigitPrefix(signed.1);
    if digits == [] then None
    else
      var v: int := DigitsValue(digits);
      Some(if signed.0 then -v else v)
  }

  /** A string that does not start with JavaScript white space is its own
      start-trimmed form. */
  lemma TrimStartOfDigitLed(s: string)
    requires s != [] && !IsJsSpace(s[0])
    ensures TrimStart(s) == s
  {
  }

  /** `parseInt` reads a digit string back to its value. */
  lemma DigitsParse(d: string)
    requires d != [] && AllDigits(d)
    ensures ParseInt(d) == Some(DigitsValue(d))
  {
    assert !IsJsSpace(d[0]);
    TrimStartOfDigitLed(d);
    assert SplitSign(d) == (false, d);
    DigitPrefixOfDigits(d);
  }

  /** `parseInt` reads a signed digit string back to its value. */
  lemma SignedDigitsParse(d: string)
    requires d != [] && AllDigits(d)
    ensures ParseInt("-" + d) == Some(-(DigitsValue(d) as int))
  {
    assert [] + "-" + d + [] == "-" + d;
    ParseIntOf([], "-", d, []);
  }

  /** Leading white space is trimmed up to the first other character. */
  lemma {:induction false} TrimStartSpaces(ws: string, t: string)
    requires forall i :: 0 <= i < |ws| ==> IsJsSpace(ws[i])
    requires t != [] && !IsJsSpace(t[0])
    ensures TrimStart(ws + t) == t
    decreases |ws|
  {
    if ws == [] {
      assert ws + t == t;
    } else {
      assert (ws + t)[1..] == ws[1..] + t;
      TrimStartSpaces(ws[1..], t);
    }
  }

  /** An optional sign before a digit is split off, and the whole does not
      start with white space. */
  lemma SplitSignOf(sign: string, body: string)
    requires sign == "" || sign == "+" || sign == "-"
    requires body != [] && IsDigit(body[0])
    ensures sign + body != [] && !IsJsSpace((sign + body)[0])
    ensures SplitSign(sign + body) == (sign == "-", body)
  {
    if sign == "" {
      assert sign + body == body;
    } else {
      assert (sign + body)[1..] == body;
    }
  }

  /** `parseInt` of white space, an optional sign, a run of digits and a
      rest that does not continue the run is the run's value, negated under
      `-`. */
  lemma ParseIntOf(ws: string, sign: string, d: string, rest: string)
    requires forall i :: 0 <= i < |ws| ==> IsJsSpace(ws[i])
    requires sign == "" || sign == "+" || sign == "-"
    requires d != [] && AllDigits(d) && (rest == [] || !IsDigit(rest[0]))
    ensures ParseInt(ws + sign + d + rest) == Some(if sign == "-" then -(DigitsValue(d) as int) else DigitsValue(d))
  {
    var s, body := ws + sign + d + rest, d + rest;
    assert body[0] == d[0];
    var t := sign + body;
    assert s == ws + t;
    SplitSignOf(sign, body);
    TrimStartSpaces(ws, t);
    DigitPrefixThen(d, rest);
    ParseIntOfSplit(s, sign == "-", body, d);
  }

  /** `parseInt` once the white space and the sign are split off. */
  lemma ParseIntOfSplit(s: string, negative: bool, body: string, d: string)
    requires SplitSign(TrimStart(s)) == (negative, body)
    requires d != [] && DigitPrefix(body) == d
    ensures ParseInt(s) == Some(if negative then -(DigitsValue(d) as int) else DigitsValue(d))
  {
  }

  lemma {:induction false} DigitPrefixOfDigits(d: string)
    requires AllDigits(d)
    ensures DigitPrefix(d) == d
    decreases |d|
  {
    if d != [] {
      DigitPrefixOfDigits(d[1..]);
      assert [d[0]] + d[1..] == d;
    }
  }

  /** The digit prefix stops at the first non-digit. */
  lemma {:induction false} DigitPrefixThen(d: string, rest: string)
    requires AllDigits(d) && (rest == [] || !IsDigit(rest[0]))
    ensures DigitPrefix(d + rest) == d
    decreases |d|
  {
    if d == [] {
      assert d + rest == rest;
    } else {
      assert (d + rest)[1..] == d[1..] + rest;
      DigitPrefixThen(d[1..], rest);
      assert [d[0]] + d[1..] == d;
    }
  }

  /** `parseInt` reads the leading digits and ignores whatever follows
      them. */
  lemma DigitsThenParse(d: string, rest: string)
    requires d != [] && AllDigits(d) && (rest == [] || !IsDigit(rest[0]))
    ensures ParseInt(d + rest) == Some(DigitsValue(d))
  {
    var s := d + rest;
    assert s[0] == d[0] && !IsJsSpace(s[0]);
    TrimStartOfDigitLed(s);
    assert SplitSign(s) == (false, s);
    DigitPrefixThen(d, rest);
  }

  /** `Number` reads a plain digit string back to its value. */
  lemma DigitsNumber(d: string)
    requires d != [] && AllDigits(d)
    ensures StringToNumber(d) == Finite(DigitsValue(d) as real)
  {
    assert !IsJsSpace(d[0]) && !IsJsSpace(d[|d| - 1]);
    TrimStartOfDigitLed(d);
    assert TrimEnd(d) == d;
    assert SplitSign(d) == (false, d);
    assert d != "Infinity" by {
      assert IsDigit(d[0]) && !IsDigit("Infinity"[0]);
    }
    assert '.' !in d by {
      assert !IsDigit('.');
    }
    assert UnsignedDecimal(d) == Some(DigitsValue(d) as real);
  }

  /** `Number` reads a two-digit field back to its value. */
  lemma Pad2Number(n: nat)
    requires n < 100
    ensures StringToNumber(Pad2(n)) == Finite(n as real)
  {
    DigitsNumber(Pad2(n));
  }

  /** `parseInt` reads a two-digit field back to its value. */
  lemma Pad2ParseInt(n: nat)
    requires n < 100
    ensures ParseInt(Pad2(n)) == Some(n)
  {
    DigitsParse(Pad2(n));
  }

  /** `IndexOf` finds the first occurrence. */
  lemma {:induction false} IndexOfFirst(s: string, c: char, p: nat)
    requires p < |s| && s[p] == c && c !in s[..p]
    ensures IndexOf(s, c) == Some(p)
  {
    if p > 0 {
      assert s[0] == s[..p][0];
      assert s[1..][..p - 1] == s[1..p];
      IndexOfFirst(s[1..], c, p - 1);
    }
  }

  /** The two fields read from `a:b` followed by nothing or by another
      `:`-field are `a` and `b`. */
  lemma FieldsOf(a: string, b: string, rest: string)
    requires ':' !in a && ':' !in b
    requires rest == [] || rest[0] == ':'
    ensures ':' in a + ":" + b + rest
    ensures FirstTwoFields(a + ":" + b + rest) == (a, b)
  {
    var s := a + ":" + b + rest;
    assert s[..|a|] == a;
    IndexOfFirst(s, ':', |a|);
    var tail := s[|a| + 1..];
    assert tail == b + rest;
    if rest == [] {
      assert tail == b;
    } else {
      assert tail[..|b|] == b;
      IndexOfFirst(tail, ':', |b|);
    }
  }

  /** Splitting a well-formed `HH:mm` at `:` gives back its two fields. */
  lemma HhMmFields(h: nat, m: nat)
    requires h < 100 && m < 100
    ensures ':' in HhMm(h, m)
    ensures FirstTwoFields(HhMm(h, m)) == (Pad2(h), Pad2(m))
  {
    assert !IsDigit(':');
    assert Pad2(h) + ":" + Pad2(m) + [] == HhMm(h, m);
    FieldsOf(Pad2(h), Pad2(m), []);
  }
}
