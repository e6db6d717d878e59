/** JavaScript values and the built-in conversions the storefront relies on:
    truthiness, `||` on numbers, `+` with NaN, `String(v)`, `parseInt`,
    the truncating `%`, ASCII `toLowerCase` and `String.prototype.includes`. */
module Js {

  datatype Option<+T> = None | Some(value: T)

  /** A JavaScript value as far as the storefront inspects one.
      Numbers are integers; floating point is not modelled. */
  datatype Value = Undefined | Null | Bool(b: bool) | Num(n: int) | Str(s: string)

  /** `undefined`, `null`, `false`, `0` and `""` are falsy; everything else is truthy. */
  predicate Truthy(v: Value): (b: bool)
    ensures b <==> v !in {Undefined, Null, Bool(false), Num(0), Str("")}
  {
    match v
    case Undefined => false
    case Null => false
    case Bool(b) => b
    case Num(n) => n != 0
    case Str(s) => s != ""
  }

  /** `x || d` for a number field that may be absent: `None` stands for
      `undefined` or `NaN`, which `||` treats like `0`. */
  function OrElse(x: Option<int>, d: int): (r: int)
    ensures x.Some? && Truthy(Num(x.value)) ==> r == x.value
    ensures !(x.Some? && Truthy(Num(x.value))) ==> r == d
  {
    if x.Some? && x.value != 0 then x.value else d
  }

  /** `x + y` on numbers that may be `undefined` or `NaN`: the sum is `NaN` then. */
  function Plus(x: Option<int>, y: Option<int>): (r: Option<int>)
    ensures r.Some? <==> x.Some? && y.Some?
    ensures r.Some? ==> r.value == x.value + y.value
  {
    if x.Some? && y.Some? then Some(x.value + y.value) else None
  }

  // ---------------------------------------------------------------------------
  // Digits and decimal text

  /** The value of `c` as a digit in bases up to 36, or 36 when it is none. */
  function CharDigit(c: char): (d: nat)
    ensures d <= 36
  {
    if '0' <= c <= '9' then c as int - '0' as int
    else if 'a' <= c <= 'z' then c as int - 'a' as int + 10
    else if 'A' <= c <= 'Z' then c as int - 'A' as int + 10
    else 36
  }

  predicate IsDigit(c: char) { '0' <= c <= '9' }

  predicate AllDigits(s: string) { forall i :: 0 <= i < |s| ==> IsDigit(s[i]) }

  function DigitChar(d: nat): (c: char)
    requires d < 10
    ensures IsDigit(c) && CharDigit(c) == d
  {
    ('0' as int + d) as char
  }

  /** The value of a digit string in base `radix`, most significant digit first. */
  function RadixValue(s: string, radix: nat): nat
    requires forall i :: 0 <= i < |s| ==> CharDigit(s[i]) < radix
  {
    if s == [] then 0 else RadixValue(s[..|s| - 1], radix) * radix + CharDigit(s[|s| - 1])
  }

  /** The shortest decimal numeral of `n`, as `String(n)` writes it. */
  function NatToDecimal(n: nat): (s: string)
    ensures |s| > 0 && AllDigits(s)
    ensures (s[0] == '0') == (n == 0)
    ensures n == 0 ==> s == "0"
  {
    if n < 10 then [DigitChar(n)] else NatToDecimal(n / 10) + [DigitChar(n % 10)]
  }

  /** Reading back the numeral `String(n)` gives `n`. */
  lemma {:induction false} DecimalRoundTrip(n: nat)
    ensures forall i :: 0 <= i < |NatToDecimal(n)| ==> CharDigit(NatToDecimal(n)[i]) < 10
    ensures RadixValue(NatToDecimal(n), 10) == n
  {
    var s := NatToDecimal(n);
    assert forall i :: 0 <= i < |s| ==> CharDigit(s[i]) < 10;
    if n >= 10 {
      DecimalRoundTrip(n / 10);
      assert s[..|s| - 1] == NatToDecimal(n / 10);
    }
  }

  /** `String(n)` for an integer number. */
  function NumberToString(n: int): string
  {
    if n < 0 then "-" + NatToDecimal(-n) else NatToDecimal(n)
  }

  /** `String(v)`: the string conversion used to build keys and compare identifiers. */
  function ToStr(v: Value): (r: string)
    ensures v.Str? ==> r == v.s
    ensures v.Num? ==> r != "" && (r[0] == '-' <==> v.n < 0)
    ensures v.Num? && v.n >= 0 ==> AllDigits(r)
  {
    match v
    case Undefined => "undefined"
    case Null => "null"
    case Bool(b) => if b then "true" else "false"
    case Num(n) => NumberToString(n)
    case Str(s) => s
  }

  // ---------------------------------------------------------------------------
  // parseInt

  /** The ASCII white-space characters `parseInt` skips before the numeral. */
  predicate IsSpace(c: char)
  {
    c == ' ' || c == '\t' || c == '\n' || c == '\r' || c as int == 11 || c as int == 12
  }

  function TrimStart(s: string): (r: string)
    ensures |r| <= |s| && r == s[|s| - |r|..]
    ensures r != [] ==> !IsSpace(r[0])
  {
    if s != [] && IsSpace(s[0]) then TrimStart(s[1..]) else s
  }

  /** The longest prefix of `s` made of digits of base `radix`. */
  function RadixPrefix(s: string, radix: nat): (r: string)
    ensures |r| <= |s| && r == s[..|r|]
    ensures forall i :: 0 <= i < |r| ==> CharDigit(r[i]) < radix
    ensures |r| < |s| ==> CharDigit(s[|r|]) >= radix
  {
    if s != [] && CharDigit(s[0]) < radix then [s[0]] + RadixPrefix(s[1..], radix) else []
  }

  /** The longest run of base-`radix` digits at the front of `s`, read as a
      number; `None` (NaN) when there is none. */
  function ParseDigits(s: string, radix: nat): Option<nat>
  {
    var digits := RadixPrefix(s, radix);
    if digits == [] then None else Some(RadixValue(digits, radix))
  }

  /** An unsigned numeral: a `0x`/`0X` prefix chooses base 16, otherwise base 10. */
  function ParseUnsigned(s: string): Option<nat>
  {
    if |s| >= 2 && s[0] == '0' && (s[1] == 'x' || s[1] == 'X') then ParseDigits(s[2..], 16)
    else ParseDigits(s, 10)
  }

  /** `parseInt` on a string with no radix argument: leading white space, an
      optional sign, then an unsigned numeral. */
  function ParseIntString(s: string): Option<int>
  {
    var t := TrimStart(s);
    if t != [] && t[0] == '-' then
      match ParseUnsigned(t[1..])
      case None => None
      case Some(m) => Some(-(m as int))
    else if t != [] && t[0] == '+' then
      match ParseUnsigned(t[1..])
      case None => None
      case Some(m) => Some(m as int)
    else
      match ParseUnsigned(t)
      case None => None
      case Some(m) => Some(m as int)
  }

  /** `parseInt(v)`: the argument is first converted with `String(v)`. */
  function ParseInt(v: Value): (r: Option<int>)
    ensures v.Undefined? || v.Null? || v.Bool? ==> r == None
  {
    var s := ToStr(v);
    if v.Undefined? || v.Null? || v.Bool? then
      WordIsNaN(s);
      ParseIntString(s)
    else
      ParseIntString(s)
  }

  /** Text that starts with a letter other than a digit of base 10 (`null`,
      `true`, ...) has no numeral at its front. */
  lemma WordIsNaN(s: string)
    requires s != [] && 'a' <= s[0] <= 'z'
    ensures ParseIntString(s) == None
  {
    assert TrimStart(s) == s;
    assert RadixPrefix(s, 10) == [];
  }

  lemma {:induction false} AllDigitsPrefix(s: string)
    requires AllDigits(s)
    ensures RadixPrefix(s, 10) == s
  {
    if s != [] {
      AllDigitsPrefix(s[1..]);
    }
  }

  /** A numeral as `String(n)` writes it reads back as its value. */
  lemma ParseCanonicalNumeral(d: string)
    requires d != [] && AllDigits(d) && (d[0] == '0' ==> |d| == 1)
    ensures forall i :: 0 <= i < |d| ==> CharDigit(d[i]) < 10
    ensures ParseUnsigned(d) == Some(RadixValue(d, 10))
  {
    assert forall i :: 0 <= i < |d| ==> CharDigit(d[i]) < 10;
    assert !(|d| >= 2 && d[0] == '0');
    AllDigitsPrefix(d);
  }

  lemma ParsePlain(d: string, m: nat)
    requires d != [] && IsDigit(d[0]) && ParseUnsigned(d) == Some(m)
    ensures ParseIntString(d) == Some(m as int)
  {
    var t := TrimStart(d);
    assert t == d;
    assert !(t != [] && t[0] == '-') && !(t != [] && t[0] == '+');
    assert ParseUnsigned(t) == Some(m);
  }

  lemma ParseMinus(d: string, m: nat)
    requires d != [] && IsDigit(d[0]) && ParseUnsigned(d) == Some(m)
    ensures ParseIntString("-" + d) == Some(-(m as int))
  {
    var s := "-" + d;
    assert TrimStart(s) == s && s[0] == '-' && s[1..] == d;
  }

  /** `parseInt` of an integer number gives that number back. */
  lemma ParseIntOfNumber(n: int)
    ensures ParseInt(Num(n)) == Some(n)
  {
    var m: nat := if n < 0 then -n else n;
    var d := NatToDecimal(m);
    DecimalRoundTrip(m);
    ParseCanonicalNumeral(d);
    if n < 0 {
      ParseMinus(d, m);
    } else {
      ParsePlain(d, m);
    }
  }

  // ---------------------------------------------------------------------------
  // Remainder, case folding, substring search

  /** JavaScript's `%`: the remainder takes the sign of the dividend. */
  function Rem(a: int, b: int): (r: int)
    requires b > 0
    ensures a >= 0 ==> 0 <= r < b
    ensures a < 0 ==> -b < r <= 0
    ensures a == (if a >= 0 then a / b else -((-a) / b)) * b + r
  {
    if a >= 0 then a % b else -((-a) % b)
  }

  /** `toLowerCase` restricted to ASCII letters. */
  function LowerChar(c: char): char
  {
    if 'A' <= c <= 'Z' then (c as int + 32) as char else c
  }

  function UpperChar(c: char): char
  {
    if 'a' <= c <= 'z' then (c as int - 32) as char else c
  }

  function Lower(s: string): (r: string)
    ensures |r| == |s| && forall i :: 0 <= i < |s| ==> r[i] == LowerChar(s[i])
  {
    seq(|s|, i requires 0 <= i < |s| => LowerChar(s[i]))
  }

  function Upper(s: string): (r: string)
    ensures |r| == |s| && forall i :: 0 <= i < |s| ==> r[i] == UpperChar(s[i])
  {
    seq(|s|, i requires 0 <= i < |s| => UpperChar(s[i]))
  }

  /** Upper-casing a string loses nothing that lower-casing keeps. */
  lemma LowerOfUpper(s: string)
    ensures Lower(Upper(s)) == Lower(s)
  {
    forall i | 0 <= i < |s|
      ensures Lower(Upper(s))[i] == Lower(s)[i]
    {
      var c := s[i];
      if 'a' <= c <= 'z' {
        assert UpperChar(c) == (c as int - 32) as char;
      }
    }
  }

  /** `needle` occurs in `hay` starting at position `i`. */
  predicate OccursAt(hay: string, needle: string, i: int)
  {
    0 <= i <= |hay| - |needle| && hay[i..i + |needle|] == needle
  }

  /** `hay.includes(needle)`, searched from the front. */
  predicate Includes(hay: string, needle: string)
    decreases |hay|
  {
    needle <= hay || (hay != [] && Includes(hay[1..], needle))
  }

  /** `includes` holds exactly when `needle` occurs at some position of `hay`. */
  lemma {:induction false} IncludesAt(hay: string, needle: string)
    ensures Includes(hay, needle) <==> exists i :: OccursAt(hay, needle, i)
    decreases |hay|
  {
    if needle <= hay {
      assert OccursAt(hay, needle, 0);
    } else if hay == [] {
      assert forall i :: !OccursAt(hay, needle, i);
    } else {
      IncludesAt(hay[1..], needle);
      if exists i :: OccursAt(hay, needle, i) {
        var i :| OccursAt(hay, needle, i);
        assert i != 0;
        OccursAtTail(hay, needle, i);
      }
      if exists j :: OccursAt(hay[1..], needle, j) {
        var j :| OccursAt(hay[1..], needle, j);
        OccursAtTail(hay, needle, j + 1);
      }
    }
  }

  /** An occurrence after the first character is an occurrence in the tail. */
  lemma OccursAtTail(hay: string, needle: string, i: int)
    requires hay != [] && i >= 1
    ensures OccursAt(hay, needle, i) <==> OccursAt(hay[1..], needle, i - 1)
  {
    if 0 <= i - 1 <= |hay[1..]| - |needle| {
      var tail := hay[1..];
      assert forall k :: 1 <= k < |hay| ==> tail[k - 1] == hay[k];
      assert hay[i..i + |needle|] == tail[i - 1..i - 1 + |needle|];
    }
  }

  /** The empty string occurs in every string. */
  lemma IncludesEmpty(hay: string)
    ensures Includes(hay, "")
  {
  }
}
