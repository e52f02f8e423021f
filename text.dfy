/** The JavaScript string and number operations the scraper relies on, written
    out: `String.prototype.startsWith` and `includes`, the rendering of a number
    inside a template literal, `parseInt` without a radix, and
    `encodeURIComponent` on ASCII text. */
module Text {

  /** `s.startsWith(p)` */
  predicate StartsWith(s: string, p: string)
  {
    |p| <= |s| && s[..|p|] == p
  }

  /** `sub` occurs in `s` starting at index `i`. */
  predicate OccursAt(s: string, sub: string, i: int)
  {
    0 <= i && i + |sub| <= |s| && s[i..i + |sub|] == sub
  }

  /** `s.includes(sub)`: a left-to-right search. */
  predicate Includes(s: string, sub: string)
    decreases |s|
  {
    StartsWith(s, sub) || (|s| > 0 && Includes(s[1..], sub))
  }

  lemma {:induction false} IncludesWhenOccurs(s: string, sub: string, i: int)
    requires OccursAt(s, sub, i)
    ensures Includes(s, sub)
    decreases i
  {
    if i > 0 {
      assert s[1..][i - 1..i - 1 + |sub|] == s[i..i + |sub|];
      IncludesWhenOccurs(s[1..], sub, i - 1);
    }
  }

  lemma {:induction false} OccursWhenIncludes(s: string, sub: string)
    requires Includes(s, sub)
    ensures exists i :: OccursAt(s, sub, i)
    decreases |s|
  {
    if StartsWith(s, sub) {
      assert OccursAt(s, sub, 0);
    } else {
      OccursWhenIncludes(s[1..], sub);
      var i :| OccursAt(s[1..], sub, i);
      assert s[1..][i..i + |sub|] == s[i + 1..i + 1 + |sub|];
      assert OccursAt(s, sub, i + 1);
    }
  }

  /** `includes` holds exactly when the needle occurs at some position. */
  lemma IncludesIffOccurs(s: string, sub: string)
    ensures Includes(s, sub) <==> exists i :: OccursAt(s, sub, i)
  {
    if Includes(s, sub) {
      OccursWhenIncludes(s, sub);
    }
    if exists i :: OccursAt(s, sub, i) {
      var i :| OccursAt(s, sub, i);
      IncludesWhenOccurs(s, sub, i);
    }
  }

  /** A string ending in `p` includes `p`. */
  lemma IncludesSuffix(a: string, p: string)
    ensures Includes(a + p, p)
  {
    assert (a + p)[|a|..|a| + |p|] == p;
    IncludesWhenOccurs(a + p, p, |a|);
  }

  /** Appending text keeps every occurrence. */
  lemma IncludesExtend(s: string, p: string, t: string)
    requires Includes(s, p)
    ensures Includes(s + t, p)
  {
    OccursWhenIncludes(s, p);
    var i :| OccursAt(s, p, i);
    assert (s + t)[i..i + |p|] == s[i..i + |p|];
    IncludesWhenOccurs(s + t, p, i);
  }

  // ---------------------------------------------------------------------------
  // Decimal rendering of integers (`${n}` for an integer-valued number)

  predicate IsDigit(c: char)
  {
    '0' <= c <= '9'
  }

  predicate AllDigits(s: string)
  {
    forall i :: 0 <= i < |s| ==> IsDigit(s[i])
  }

  function DigitChar(d: int): (c: char)
    requires 0 <= d < 10
    ensures IsDigit(c)
  {
    ('0' as int + d) as char
  }

  function DigitValue(c: char): int
    requires IsDigit(c)
  {
    c as int - '0' as int
  }

  /** The decimal digits of `n`, most significant first, without leading zeros. */
  function NatToString(n: nat): (s: string)
    ensures |s| > 0 && AllDigits(s)
    ensures |s| > 1 ==> s[0] != '0'
    decreases n
  {
    if n < 10 then [DigitChar(n)] else NatToString(n / 10) + [DigitChar(n % 10)]
  }

  /** `${n}`: a leading minus sign for negative values, then the digits. */
  function IntToString(n: int): string
  {
    if n < 0 then "-" + NatToString(-n) else NatToString(n)
  }

  /** The value of a string of decimal digits. */
  function ParseNat(s: string): nat
    requires AllDigits(s)
    decreases |s|
  {
    if s == [] then 0 else ParseNat(s[..|s| - 1]) * 10 + DigitValue(s[|s| - 1])
  }

  /** Reading the digits back gives the number. */
  lemma {:induction false} ParseNatToString(n: nat)
    ensures ParseNat(NatToString(n)) == n
    decreases n
  {
    if n >= 10 {
      var s := NatToString(n);
      assert s[..|s| - 1] == NatToString(n / 10);
      ParseNatToString(n / 10);
    }
  }

  /** Read `s` back as an integer: an optional leading minus, then digits. */
  function ParseInt(s: string): int
    requires |s| > 0 && (s[0] == '-' ==> AllDigits(s[1..])) && (s[0] != '-' ==> AllDigits(s))
  {
    if s[0] == '-' then -(ParseNat(s[1..]) as int) else ParseNat(s)
  }

  /** Rendering is invertible, so distinct integers render differently. */
  lemma ParseIntToString(n: int)
    ensures var s := IntToString(n);
      |s| > 0 && (s[0] == '-' ==> AllDigits(s[1..])) && (s[0] != '-' ==> AllDigits(s)) &&
      ParseInt(s) == n
  {
    var s := IntToString(n);
    if n < 0 {
      assert s[1..] == NatToString(-n);
      ParseNatToString(-n);
    } else {
      assert IsDigit(s[0]);
      ParseNatToString(n);
    }
  }

  lemma IntToStringInjective(a: int, b: int)
    requires IntToString(a) == IntToString(b)
    ensures a == b
  {
    ParseIntToString(a);
    ParseIntToString(b);
  }

  lemma IntToStringUnreserved(n: int)
    ensures forall i :: 0 <= i < |IntToString(n)| ==> Unreserved(IntToString(n)[i])
  {
    var s := IntToString(n);
    if n < 0 {
      assert forall i :: 1 <= i < |s| ==> s[i] == NatToString(-n)[i - 1];
    }
  }

  // ---------------------------------------------------------------------------
  // Numbers as `parseInt` produces them: an integer or `NaN`

  datatype Num = Finite(value: int) | NaN

  /** `${n}` for a number `parseInt` can return. */
  function NumToString(n: Num): string
  {
    if n.NaN? then "NaN" else IntToString(n.value)
  }

  lemma NumToStringUnreserved(n: Num)
    ensures forall i :: 0 <= i < |NumToString(n)| ==> Unreserved(NumToString(n)[i])
  {
    if n.Finite? {
      IntToStringUnreserved(n.value);
    }
  }

  /** The white space `parseInt` skips before the number: the ASCII blanks, the
      line terminators, no-break space, the byte order mark and the space separators. */
  predicate IsJsSpace(c: char)
  {
    c == ' ' || c == '\t' || c == '\n' || c == '\r' || c == '\U{000B}' || c == '\U{000C}' ||
    c == '\U{00A0}' || c == '\U{FEFF}' || c == '\U{1680}' || ('\U{2000}' <= c <= '\U{200A}') ||
    c == '\U{2028}' || c == '\U{2029}' || c == '\U{202F}' || c == '\U{205F}' || c == '\U{3000}'
  }

  function TrimStart(s: string): string
    decreases |s|
  {
    if |s| > 0 && IsJsSpace(s[0]) then TrimStart(s[1..]) else s
  }

  predicate IsRadixDigit(c: char, radix: int)
  {
    if radix == 16 then IsDigit(c) || ('a' <= c <= 'f') || ('A' <= c <= 'F') else IsDigit(c)
  }

  function RadixDigitValue(c: char): int
  {
    if c <= '9' then c as int - '0' as int
    else if c <= 'F' then c as int - 'A' as int + 10
    else c as int - 'a' as int + 10
  }

  /** The longest prefix of `s` made of digits of the radix. */
  function DigitRun(s: string, radix: int): string
    decreases |s|
  {
    if |s| > 0 && IsRadixDigit(s[0], radix) then [s[0]] + DigitRun(s[1..], radix) else []
  }

  /** The value of a string of digits of the radix. */
  function RadixValue(s: string, radix: int): int
    decreases |s|
  {
    if s == [] then 0 else RadixValue(s[..|s| - 1], radix) * radix + RadixDigitValue(s[|s| - 1])
  }

  /** `parseInt(s)`: skip leading white space and read an optional sign; the
      magnitude follows. */
  function JsParseInt(s: string): Num
  {
    var t := TrimStart(s);
    if |t| > 0 && t[0] == '-' then Negate(ParseMagnitude(t[1..]))
    else if |t| > 0 && t[0] == '+' then ParseMagnitude(t[1..])
    else ParseMagnitude(t)
  }

  function Negate(n: Num): Num
  {
    if n.NaN? then NaN else Finite(-n.value)
  }

  /** A `0x` or `0X` prefix selects hexadecimal; the longest run of digits that
      follows is the value, and no digits at all is `NaN`. */
  function ParseMagnitude(u: string): Num
  {
    var hex := |u| >= 2 && u[0] == '0' && (u[1] == 'x' || u[1] == 'X');
    var radix := if hex then 16 else 10;
    var digits := DigitRun(if hex then u[2..] else u, radix);
    if digits == [] then NaN else Finite(RadixValue(digits, radix))
  }

  lemma {:induction false} DigitRunAll(s: string)
    requires AllDigits(s)
    ensures DigitRun(s, 10) == s
    decreases |s|
  {
    if s != [] {
      DigitRunAll(s[1..]);
    }
  }

  lemma {:induction false} DigitRunStops(s: string, t: string)
    requires AllDigits(s)
    requires t == [] || !IsDigit(t[0])
    ensures DigitRun(s + t, 10) == s
    decreases |s|
  {
    if s == [] {
      assert s + t == t;
    } else {
      assert (s + t)[1..] == s[1..] + t;
      DigitRunStops(s[1..], t);
    }
  }

  lemma {:induction false} RadixValueDecimal(s: string)
    requires AllDigits(s)
    ensures RadixValue(s, 10) == ParseNat(s)
    decreases |s|
  {
    if s != [] {
      RadixValueDecimal(s[..|s| - 1]);
    }
  }

  /** Decimal digits without a leading zero, followed by a character that cannot
      continue them, are read as their value. */
  lemma MagnitudeOfDigits(digits: string, t: string)
    requires |digits| > 0 && AllDigits(digits) && (|digits| > 1 ==> digits[0] != '0')
    requires t == [] || (!IsDigit(t[0]) && t[0] != 'x' && t[0] != 'X')
    ensures ParseMagnitude(digits + t) == Finite(ParseNat(digits))
  {
    var u := digits + t;
    assert u[0] == digits[0];
    assert |digits| == 1 && |u| >= 2 ==> u[1] == t[0];
    assert |digits| > 1 ==> u[0] != '0';
    DigitRunStops(digits, t);
    RadixValueDecimal(digits);
  }

  /** `parseInt` reads back what a template literal renders, and stops at the first
      character that cannot continue the number. */
  lemma JsParseIntRendered(n: int, t: string)
    requires t == [] || (!IsDigit(t[0]) && t[0] != 'x' && t[0] != 'X')
    ensures JsParseInt(IntToString(n) + t) == Finite(n)
  {
    if n < 0 {
      ParseRenderedNegative(n, t);
    } else {
      ParseRenderedNatural(n, t);
    }
  }

  lemma ParseRenderedNatural(n: int, t: string)
    requires n >= 0
    requires t == [] || (!IsDigit(t[0]) && t[0] != 'x' && t[0] != 'X')
    ensures JsParseInt(IntToString(n) + t) == Finite(n)
  {
    var digits := NatToString(n);
    var s := digits + t;
    assert IntToString(n) + t == s;
    MagnitudeOfDigits(digits, t);
    ParseNatToString(n);
    assert IsDigit(s[0]);
    NoSpaceFirst(s);
    assert JsParseInt(s) == ParseMagnitude(s);
  }

  lemma ParseRenderedNegative(n: int, t: string)
    requires n < 0
    requires t == [] || (!IsDigit(t[0]) && t[0] != 'x' && t[0] != 'X')
    ensures JsParseInt(IntToString(n) + t) == Finite(n)
  {
    var digits := NatToString(-n);
    var u := digits + t;
    assert IntToString(n) + t == "-" + u;
    ParseSigned(u);
    MagnitudeOfDigits(digits, t);
    ParseNatToString(-n);
  }

  lemma ParseSigned(u: string)
    ensures JsParseInt("-" + u) == Negate(ParseMagnitude(u))
  {
    var s := "-" + u;
    assert s[0] == '-' && s[1..] == u;
    assert !IsJsSpace(s[0]);
    assert TrimStart(s) == s;
  }

  lemma NoSpaceFirst(s: string)
    requires |s| > 0 && (s[0] == '-' || IsDigit(s[0]))
    ensures TrimStart(s) == s
  {
    var c := s[0];
    assert !IsJsSpace(c) by {
      assert c == '-' || ('0' <= c <= '9');
    }
  }

  /** A text with no digit after its white space and sign, such as the empty text, is `NaN`. */
  lemma JsParseIntEmpty()
    ensures JsParseInt("") == NaN
  {
  }

  // ---------------------------------------------------------------------------
  // encodeURIComponent, on ASCII input

  /** The characters `encodeURIComponent` leaves alone. */
  predicate Unreserved(c: char)
  {
    ('A' <= c <= 'Z') || ('a' <= c <= 'z') || ('0' <= c <= '9') ||
    c == '-' || c == '_' || c == '.' || c == '!' || c == '~' || c == '*' ||
    c == '\'' || c == '(' || c == ')'
  }

  predicate IsAscii(s: string)
  {
    forall i :: 0 <= i < |s| ==> s[i] < 128 as char
  }

  function HexDigit(d: int): (c: char)
    requires 0 <= d < 16
  {
    if d < 10 then ('0' as int + d) as char else ('A' as int + d - 10) as char
  }

  predicate IsHexDigit(c: char)
  {
    ('0' <= c <= '9') || ('A' <= c <= 'F')
  }

  function HexValue(c: char): int
    requires IsHexDigit(c)
  {
    if c <= '9' then c as int - '0' as int else c as int - 'A' as int + 10
  }

  /** One ASCII character: itself when unreserved, else `%` and two upper-case hex digits. */
  function EncodeChar(c: char): string
    requires c < 128 as char
  {
    if Unreserved(c) then [c] else ['%', HexDigit(c as int / 16), HexDigit(c as int % 16)]
  }

  function EncodeURIComponent(s: string): string
    requires IsAscii(s)
    decreases |s|
  {
    if s == [] then [] else EncodeChar(s[0]) + EncodeURIComponent(s[1..])
  }

  /** `decodeURIComponent` on the escapes `EncodeURIComponent` produces: the partner of encoding. */
  function DecodeURIComponent(s: string): string
    decreases |s|
  {
    if s == [] then []
    else if s[0] == '%' && |s| >= 3 && IsHexDigit(s[1]) && IsHexDigit(s[2]) then
      [(HexValue(s[1]) * 16 + HexValue(s[2])) as char] + DecodeURIComponent(s[3..])
    else [s[0]] + DecodeURIComponent(s[1..])
  }

  lemma {:induction false} DecodeEncode(s: string)
    requires IsAscii(s)
    ensures DecodeURIComponent(EncodeURIComponent(s)) == s
    decreases |s|
  {
    if s != [] {
      var c := s[0];
      var rest := EncodeURIComponent(s[1..]);
      DecodeEncode(s[1..]);
      var e := EncodeChar(c) + rest;
      if Unreserved(c) {
        assert e[0] == c && e[1..] == rest;
      } else {
        var v := c as int;
        assert HexValue(HexDigit(v / 16)) == v / 16;
        assert HexValue(HexDigit(v % 16)) == v % 16;
        assert e[3..] == rest;
        assert ((v / 16) * 16 + v % 16) as char == c;
      }
    }
  }

  /** Text made only of unreserved characters is left unchanged. */
  lemma {:induction false} EncodeUnreserved(s: string)
    requires forall i :: 0 <= i < |s| ==> Unreserved(s[i])
    ensures IsAscii(s) && EncodeURIComponent(s) == s
    decreases |s|
  {
    if s != [] {
      EncodeUnreserved(s[1..]);
      assert s == [s[0]] + s[1..];
    }
  }

  lemma {:induction false} EncodeAppend(a: string, b: string)
    requires IsAscii(a) && IsAscii(b)
    ensures IsAscii(a + b) && EncodeURIComponent(a + b) == EncodeURIComponent(a) + EncodeURIComponent(b)
    decreases |a|
  {
    if a != [] {
      assert (a + b)[0] == a[0] && (a + b)[1..] == a[1..] + b;
      EncodeAppend(a[1..], b);
      assert EncodeURIComponent(a + b) == EncodeChar(a[0]) + EncodeURIComponent(a[1..] + b);
    } else {
      assert a + b == b;
    }
  }
}
