/** Decimal numerals: how an integer is printed, and how JavaScript's
    `parseInt` and Python's `int()` read one back. */
module Decimal {
  import opened Common

  /** A JavaScript number as `parseInt` can produce it: an integer or NaN. */
  datatype JsNumber = Num(n: int) | NaN

  /** The value of `c` as a digit in base `radix` (10 or 16), if it is one. */
  function DigitIn(c: char, radix: nat): Option<nat> {
    if '0' <= c <= '9' && c as int - '0' as int < radix then Some(c as int - '0' as int)
    else if radix == 16 && 'a' <= c <= 'f' then Some(c as int - 'a' as int + 10)
    else if radix == 16 && 'A' <= c <= 'F' then Some(c as int - 'A' as int + 10)
    else None
  }

  predicate AllDigitsIn(s: string, radix: nat) {
    forall k :: 0 <= k < |s| ==> DigitIn(s[k], radix).Some?
  }

  /** The value of a run of digits, most significant first. */
  function ValueIn(s: string, radix: nat): nat
    requires AllDigitsIn(s, radix)
  {
    if s == [] then 0
    else radix * ValueIn(s[..|s| - 1], radix) + DigitIn(s[|s| - 1], radix).value
  }

  /** The longest prefix of `s` made of digits in base `radix`. */
  function DigitPrefix(s: string, radix: nat): (p: string)
    ensures |p| <= |s| && p == s[..|p|]
    ensures AllDigitsIn(p, radix)
    ensures |p| == |s| || DigitIn(s[|p|], radix).None?
  {
    if s == [] || DigitIn(s[0], radix).None? then []
    else
      var p := [s[0]] + DigitPrefix(s[1..], radix);
      assert forall k :: 1 <= k < |p| ==> p[k] == s[1..][k - 1];
      p
  }

  function DigitChar(d: nat): char
    requires d < 10
  {
    ('0' as int + d) as char
  }

  /** The shortest decimal numeral of `n`, as `String(n)` and `str(n)` print it. */
  function Show(n: nat): (s: string)
    ensures s != [] && AllDigitsIn(s, 10)
    ensures |s| > 1 ==> s[0] != '0'
  {
    if n < 10 then [DigitChar(n)]
    else
      var s := Show(n / 10) + [DigitChar(n % 10)];
      assert forall k :: 0 <= k < |s| - 1 ==> s[k] == Show(n / 10)[k];
      s
  }

  /** An integer printed with a leading '-' when it is negative. */
  function ShowInt(n: int): (s: string) {
    if n < 0 then "-" + Show(-n) else Show(n)
  }

  /** Reading back a printed numeral gives the number printed. */
  lemma {:induction false} ValueOfShow(n: nat)
    ensures ValueIn(Show(n), 10) == n
  {
    if n >= 10 {
      var s := Show(n);
      assert s[..|s| - 1] == Show(n / 10);
      ValueOfShow(n / 10);
    }
  }

  /** A numeral is its own longest digit prefix, however it is followed. */
  lemma DigitPrefixOfDigits(s: string, radix: nat)
    requires AllDigitsIn(s, radix)
    ensures DigitPrefix(s, radix) == s
  {
  }

  /** The longest digit prefix of a numeral followed by a non-digit is the numeral. */
  lemma {:induction false} DigitPrefixBeforeNonDigit(a: string, b: string, radix: nat)
    requires AllDigitsIn(a, radix)
    requires b == [] || DigitIn(b[0], radix).None?
    ensures DigitPrefix(a + b, radix) == a
  {
    if a != [] {
      assert (a + b)[1..] == a[1..] + b;
      DigitPrefixBeforeNonDigit(a[1..], b, radix);
    }
  }

  // ---------------------------------------------------------------------
  // JavaScript parseInt(string) with no radix argument

  /** `parseInt(s)`: skip leading white space, take an optional sign, read
      hexadecimal after a "0x"/"0X" prefix and decimal otherwise, stop at the
      first character that is not a digit, and give NaN when no digit was read. */
  function JsParseInt(s: string): (r: JsNumber)
  {
    var t := DropLeading(s, IsJsSpace);
    var negative := t != [] && t[0] == '-';
    var u := if t != [] && (t[0] == '-' || t[0] == '+') then t[1..] else t;
    var hex := |u| >= 2 && u[0] == '0' && (u[1] == 'x' || u[1] == 'X');
    var radix := if hex then 16 else 10;
    var digits := DigitPrefix(if hex then u[2..] else u, radix);
    if digits == [] then NaN
    else
      var v: int := ValueIn(digits, radix);
      Num(if negative then -v else v)
  }

  /** `parseInt` on text that starts with a decimal digit and no "0x" prefix
      reads the leading run of digits. */
  lemma JsParseIntOfDecimal(s: string)
    requires s != [] && IsAsciiDigit(s[0])
    requires |s| >= 2 && s[0] == '0' ==> s[1] != 'x' && s[1] != 'X'
    ensures JsParseInt(s) == Num(ValueIn(DigitPrefix(s, 10), 10))
  {
    assert !IsJsSpace(s[0]);
    var t := DropLeading(s, IsJsSpace);
    assert t == s;
    assert !(t != [] && (t[0] == '-' || t[0] == '+'));
    assert !(|t| >= 2 && t[0] == '0' && (t[1] == 'x' || t[1] == 'X'));
    assert DigitIn(s[0], 10).Some?;
    var digits := DigitPrefix(s, 10);
    assert digits != [];
  }

  /** `parseInt` reads back any integer that `String` printed. */
  lemma JsParseIntShow(n: int)
    ensures JsParseInt(ShowInt(n)) == Num(n)
  {
    var m := if n < 0 then -n else n;
    ValueOfShow(m);
    DigitPrefixOfDigits(Show(m), 10);
    if n < 0 {
      var s := ShowInt(n);
      assert s[0] == '-' && s[1..] == Show(m);
      assert !IsJsSpace(s[0]);
      assert DropLeading(s, IsJsSpace) == s;
      assert DigitIn(Show(m)[0], 10).Some?;
    } else {
      JsParseIntOfDecimal(Show(m));
    }
  }

  /** `parseInt` ignores what follows the digits it reads. */
  lemma JsParseIntStopsAtNonDigit(n: nat, rest: string)
    requires rest != [] && DigitIn(rest[0], 10).None?
    requires n != 0 || (rest[0] != 'x' && rest[0] != 'X')
    ensures JsParseInt(Show(n) + rest) == Num(n)
  {
    var s := Show(n) + rest;
    assert s[0] == Show(n)[0];
    assert |Show(n)| == 1 ==> s[1] == rest[0];
    assert |Show(n)| > 1 ==> s[1] == Show(n)[1];
    assert IsAsciiDigit(s[0]);
    JsParseIntOfDecimal(s);
    DigitPrefixBeforeNonDigit(Show(n), rest, 10);
    ValueOfShow(n);
  }

  // ---------------------------------------------------------------------
  // Python int(str) in base 10

  /** No two underscores in a row. */
  predicate SingleUnderscores(s: string) {
    |s| < 2 || (!(s[0] == '_' && s[1] == '_') && SingleUnderscores(s[1..]))
  }

  /** Digits with single underscores between them, as `int()` accepts. */
  predicate Grouped(s: string) {
    && s != []
    && IsAsciiDigit(s[0]) && IsAsciiDigit(s[|s| - 1])
    && (forall k :: 0 <= k < |s| ==> IsAsciiDigit(s[k]) || s[k] == '_')
    && SingleUnderscores(s)
  }

  function WithoutUnderscores(s: string): (r: string)
    requires forall k :: 0 <= k < |s| ==> IsAsciiDigit(s[k]) || s[k] == '_'
    ensures forall k :: 0 <= k < |r| ==> IsAsciiDigit(r[k])
    ensures AllDigitsIn(r, 10)
  {
    if s == [] then []
    else (if s[0] == '_' then [] else [s[0]]) + WithoutUnderscores(s[1..])
  }

  /** `int()` on what is left once white space and sign are gone: grouped
      digits give their value, anything else `None`. */
  function PyDigits(body: string): Option<int> {
    if !Grouped(body) then None else Some(ValueIn(WithoutUnderscores(body), 10))
  }

  /** `int()` on stripped text: an optional sign, then the digits. */
  function PySigned(t: string): Option<int> {
    if t != [] && t[0] == '-' then
      match PyDigits(t[1..])
      case None => None
      case Some(v) => Some(-v)
    else if t != [] && t[0] == '+' then PyDigits(t[1..])
    else PyDigits(t)
  }

  /** `int(s)` for a string: surrounding white space is stripped, a sign is
      optional, and the rest must be grouped ASCII digits; `None` stands for
      the `ValueError` it raises otherwise. */
  function PyInt(s: string): Option<int> {
    PySigned(Strip(s, IsPySpace))
  }

  lemma {:induction false} NoUnderscoreSingle(s: string)
    requires AllDigitsIn(s, 10)
    ensures SingleUnderscores(s)
  {
    if |s| >= 2 {
      assert DigitIn(s[0], 10).Some?;
      assert AllDigitsIn(s[1..], 10) by {
        assert forall k :: 0 <= k < |s[1..]| ==> s[1..][k] == s[k + 1];
      }
      NoUnderscoreSingle(s[1..]);
    }
  }

  /** Decimal digits alone are a grouped numeral. */
  lemma DigitsGrouped(s: string)
    requires s != [] && AllDigitsIn(s, 10)
    ensures Grouped(s)
  {
    NoUnderscoreSingle(s);
    assert forall k :: 0 <= k < |s| ==> IsAsciiDigit(s[k]) by {
      forall k | 0 <= k < |s|
        ensures IsAsciiDigit(s[k])
      {
        assert DigitIn(s[k], 10).Some?;
      }
    }
  }

  lemma WithoutUnderscoresOfDigits(s: string)
    requires AllDigitsIn(s, 10)
    ensures WithoutUnderscores(s) == s
  {
  }

  lemma PyDigitsOfDigits(d: string)
    requires d != [] && AllDigitsIn(d, 10)
    ensures PyDigits(d) == Some(ValueIn(d, 10) as int)
  {
    DigitsGrouped(d);
    WithoutUnderscoresOfDigits(d);
  }

  /** Text that starts and ends with a digit has no white space to strip. */
  lemma StripDigitEnds(s: string)
    requires s != [] && IsAsciiDigit(s[|s| - 1])
    requires IsAsciiDigit(s[0]) || s[0] == '-'
    ensures Strip(s, IsPySpace) == s
  {
    StripPadded("", s, "", IsPySpace);
    assert "" + s + "" == s;
  }

  /** `int()` on ASCII digits with no sign or white space reads their value. */
  lemma PyIntOfDigits(s: string)
    requires s != [] && AllDigitsIn(s, 10)
    ensures PyInt(s) == Some(ValueIn(s, 10) as int)
  {
    assert DigitIn(s[0], 10).Some? && DigitIn(s[|s| - 1], 10).Some?;
    StripDigitEnds(s);
    PyDigitsOfDigits(s);
  }

  /** `int()` on a minus sign and ASCII digits reads their value, negated. */
  lemma PyIntOfNegative(s: string)
    requires |s| >= 2 && s[0] == '-' && AllDigitsIn(s[1..], 10)
    ensures PyInt(s) == Some(-(ValueIn(s[1..], 10) as int))
  {
    var d := s[1..];
    assert DigitIn(d[|d| - 1], 10).Some? && s[|s| - 1] == d[|d| - 1];
    StripDigitEnds(s);
    PyDigitsOfDigits(d);
  }

  /** `int()` reads back any integer that `str` printed. */
  lemma PyIntShow(n: int)
    ensures PyInt(ShowInt(n)) == Some(n)
  {
    if n < 0 {
      var d := Show(-n);
      ValueOfShow(-n);
      assert ValueIn(d, 10) == -n;
      assert ShowInt(n)[1..] == d;
      PyIntOfNegative(ShowInt(n));
    } else {
      var d := Show(n);
      ValueOfShow(n);
      assert ValueIn(d, 10) == n;
      PyIntOfDigits(d);
      assert ShowInt(n) == d;
    }
  }
}
