/** `encodeURIComponent` of ECMA-262: every code point outside a small
    unreserved set is written as the `%XX` escapes of its UTF-8 bytes
    (percent-encoding as in section 2.1 of RFC 3986), and the matching
    decoder, `decodeURIComponent`. The client builds its catalog query strings
    with the encoder (frontend/services/musicService.ts). */
module Uri {
  import opened Common

  type byte = b: int | 0 <= b < 256

  /** The characters the encoder leaves as they are: ASCII letters, digits and
      `- _ . ! ~ * ' ( )`. */
  predicate Unescaped(c: char) {
    || IsAsciiLetter(c) || IsAsciiDigit(c)
    || c == '-' || c == '_' || c == '.' || c == '!' || c == '~' || c == '*' || c == '\'' || c == '(' || c == ')'
  }

  /** The UTF-8 bytes of one code point. */
  function Utf8(c: char): (bs: seq<byte>)
    ensures 1 <= |bs| <= 4
  {
    var cp := c as int;
    if cp < 0x80 then [cp]
    else if cp < 0x800 then [0xC0 + cp / 64, 0x80 + cp % 64]
    else if cp < 0x10000 then [0xE0 + cp / 4096, 0x80 + (cp / 64) % 64, 0x80 + cp % 64]
    else [0xF0 + cp / 262144, 0x80 + (cp / 4096) % 64, 0x80 + (cp / 64) % 64, 0x80 + cp % 64]
  }

  /** Upper-case hexadecimal digit, as the encoder writes them. */
  function HexDigit(d: nat): (c: char)
    requires d < 16
    ensures IsAsciiDigit(c) || 'A' <= c <= 'F'
  {
    if d < 10 then ('0' as int + d) as char else ('A' as int + d - 10) as char
  }

  /** The value of a hexadecimal digit of either case, as the decoder reads them. */
  function HexValue(c: char): (v: Option<nat>)
    ensures v.Some? ==> v.value < 16
  {
    if '0' <= c <= '9' then Some(c as int - '0' as int)
    else if 'A' <= c <= 'F' then Some(c as int - 'A' as int + 10)
    else if 'a' <= c <= 'f' then Some(c as int - 'a' as int + 10)
    else None
  }

  /** `%XY` for one byte. */
  function Escape(b: byte): (s: string)
    ensures |s| == 3 && s[0] == '%'
  {
    ['%', HexDigit(b / 16), HexDigit(b % 16)]
  }

  function EscapeAll(bs: seq<byte>): (s: string)
    ensures |s| == 3 * |bs|
  {
    if bs == [] then [] else Escape(bs[0]) + EscapeAll(bs[1..])
  }

  function EncodeChar(c: char): string {
    if Unescaped(c) then [c] else EscapeAll(Utf8(c))
  }

  /** Characters with a meaning of their own in a query string or URL:
      `&`, `=`, `?`, `#`, `+` and space. */
  predicate IsDelimiter(c: char) {
    c == '&' || c == '=' || c == '?' || c == '#' || c == '+' || c == ' '
  }

  /** Position `i` of `s` holds an unescaped character, or a `%` that starts
      a two-digit hexadecimal escape. */
  predicate EscapedAt(s: string, i: nat)
    requires i < |s|
  {
    Unescaped(s[i]) || (s[i] == '%' && i + 2 < |s| && HexValue(s[i + 1]).Some? && HexValue(s[i + 2]).Some?)
  }

  /** Every position of `s` satisfies `EscapedAt`. */
  predicate Escaped(s: string) {
    forall i :: 0 <= i < |s| ==> EscapedAt(s, i)
  }

  lemma EscapedConcat(a: string, b: string)
    requires Escaped(a) && Escaped(b)
    ensures Escaped(a + b)
  {
    var s := a + b;
    forall i | 0 <= i < |s|
      ensures EscapedAt(s, i)
    {
      if i < |a| {
        assert EscapedAt(a, i);
        assert i + 2 < |a| ==> s[i + 1] == a[i + 1] && s[i + 2] == a[i + 2];
      } else {
        assert EscapedAt(b, i - |a|);
      }
    }
  }

  lemma {:induction false} EscapeAllEscaped(bs: seq<byte>)
    ensures Escaped(EscapeAll(bs))
  {
    if bs != [] {
      var e := Escape(bs[0]);
      assert EscapedAt(e, 0) && EscapedAt(e, 1) && EscapedAt(e, 2);
      EscapeAllEscaped(bs[1..]);
      EscapedConcat(e, EscapeAll(bs[1..]));
    }
  }

  /** `encodeURIComponent(s)`. The result holds only unescaped characters and
      `%XX` escapes, so it can never contain a query-string delimiter. */
  function Encode(s: string): (r: string)
    ensures Escaped(r)
    ensures forall i :: 0 <= i < |r| ==> !IsDelimiter(r[i])
  {
    if s == [] then []
    else
      var head := EncodeChar(s[0]);
      assert Escaped(head) by {
        if !Unescaped(s[0]) { EscapeAllEscaped(Utf8(s[0])); }
      }
      EscapedConcat(head, Encode(s[1..]));
      var r := head + Encode(s[1..]);
      forall i | 0 <= i < |r|
        ensures !IsDelimiter(r[i])
      {
        assert EscapedAt(r, i);
      }
      r
  }

  // ---------------------------------------------------------------------
  // Decoding

  /** The byte written as `%XY` at position `i` of `t`, if there is one. */
  function EscapedByte(t: string, i: nat): Option<byte> {
    if i + 3 <= |t| && t[i] == '%' && HexValue(t[i + 1]).Some? && HexValue(t[i + 2]).Some?
    then Some(16 * HexValue(t[i + 1]).value + HexValue(t[i + 2]).value)
    else None
  }

  /** Folds the continuation bytes `k .. n-1` of an escaped UTF-8 sequence
      into the code point accumulated so far. */
  function Continue(acc: int, t: string, k: nat, n: nat): Option<int>
    decreases n - k
  {
    if k >= n then Some(acc)
    else match EscapedByte(t, 3 * k)
      case Some(b) =>
        if 0x80 <= b < 0xC0 then Continue(acc * 64 + (b - 0x80), t, k + 1, n) else None
      case None => None
  }

  /** Decodes the character at the front of `t` and says how many characters
      of `t` it took; `None` stands for `URIError`. */
  function DecodeFirst(t: string): (r: Option<(char, nat)>)
    requires t != []
    ensures r.Some? ==> 0 < r.value.1 <= |t|
  {
    if t[0] != '%' then Some((t[0], 1))
    else match EscapedByte(t, 0)
      case None => None
      case Some(b0) =>
        if b0 < 0x80 then Some((b0 as char, 3))
        else
          var n := if 0xC0 <= b0 < 0xE0 then 2 else if 0xE0 <= b0 < 0xF0 then 3 else if 0xF0 <= b0 < 0xF8 then 4 else 0;
          var lead := if n == 2 then b0 - 0xC0 else if n == 3 then b0 - 0xE0 else b0 - 0xF0;
          var least := if n == 2 then 0x80 else if n == 3 then 0x800 else 0x10000;
          if n == 0 || 3 * n > |t| then None
          else match Continue(lead, t, 1, n)
            case None => None
            case Some(cp) =>
              if least <= cp < 0x110000 && !(0xD800 <= cp < 0xE000) then Some((cp as char, 3 * n)) else None
  }

  /** `decodeURIComponent(t)`; `None` stands for `URIError`. */
  function Decode(t: string): Option<string>
    decreases |t|
  {
    if t == [] then Some([])
    else match DecodeFirst(t)
      case None => None
      case Some((c, k)) =>
        match Decode(t[k..])
        case None => None
        case Some(r) => Some([c] + r)
  }

  // ---------------------------------------------------------------------
  // Round trip

  lemma HexRoundTrip(d: nat)
    requires d < 16
    ensures HexValue(HexDigit(d)) == Some(d)
  {
  }

  /** An escape reads the same after anything is put in front of it. */
  lemma EscapedByteShift(p: string, u: string, i: nat)
    ensures EscapedByte(p + u, |p| + i) == EscapedByte(u, i)
  {
    var t := p + u;
    assert i + 3 <= |u| ==> t[|p| + i] == u[i] && t[|p| + i + 1] == u[i + 1] && t[|p| + i + 2] == u[i + 2];
  }

  /** The `k`-th escape of `EscapeAll(bs)` reads back as `bs[k]`, whatever follows. */
  lemma {:induction false} EscapedByteAt(bs: seq<byte>, rest: string, k: nat)
    requires k < |bs|
    ensures EscapedByte(EscapeAll(bs) + rest, 3 * k) == Some(bs[k])
  {
    var e := Escape(bs[0]);
    var u := EscapeAll(bs[1..]) + rest;
    assert EscapeAll(bs) + rest == e + u;
    if k == 0 {
      var t := e + u;
      assert t[0] == e[0] && t[1] == e[1] && t[2] == e[2];
      HexRoundTrip(bs[0] / 16);
      HexRoundTrip(bs[0] % 16);
    } else {
      EscapedByteAt(bs[1..], rest, k - 1);
      EscapedByteShift(e, u, 3 * (k - 1));
    }
  }

  lemma DecodeTwoBytes(c: char, rest: string)
    requires 0x80 <= c as int < 0x800
    ensures DecodeFirst(EscapeAll(Utf8(c)) + rest) == Some((c, 6))
  {
    var bs := Utf8(c);
    var t := EscapeAll(bs) + rest;
    var cp := c as int;
    EscapedByteAt(bs, rest, 0);
    EscapedByteAt(bs, rest, 1);
    assert t[0] == '%';
    assert Continue(cp, t, 2, 2) == Some(cp);
    assert Continue(cp / 64, t, 1, 2) == Some(cp);
  }

  lemma DecodeThreeBytes(c: char, rest: string)
    requires 0x800 <= c as int < 0x10000
    ensures DecodeFirst(EscapeAll(Utf8(c)) + rest) == Some((c, 9))
  {
    var bs := Utf8(c);
    var t := EscapeAll(bs) + rest;
    var cp := c as int;
    ThreeByteArithmetic(cp);
    EscapedByteAt(bs, rest, 0);
    EscapedByteAt(bs, rest, 1);
    EscapedByteAt(bs, rest, 2);
    assert t[0] == '%';
    ContinueStep(cp / 4096, t, 1, 3, bs[1]);
    ContinueStep(cp / 64, t, 2, 3, bs[2]);
    assert Continue(cp / 4096, t, 1, 3) == Some(cp);
  }

  lemma ThreeByteArithmetic(cp: int)
    requires 0x800 <= cp < 0x10000
    ensures 0xE0 <= 0xE0 + cp / 4096 < 0xF0
    ensures (cp / 4096) * 64 + (cp / 64) % 64 == cp / 64
    ensures (cp / 64) * 64 + cp % 64 == cp
  {
  }

  /** One continuation byte read by `Continue`. */
  lemma ContinueStep(acc: int, t: string, k: nat, n: nat, b: byte)
    requires k < n && EscapedByte(t, 3 * k) == Some(b) && 0x80 <= b < 0xC0
    ensures Continue(acc, t, k, n) == Continue(acc * 64 + (b - 0x80), t, k + 1, n)
  {
  }

  lemma FourByteArithmetic(cp: int)
    requires 0x10000 <= cp < 0x110000
    ensures 0xF0 <= 0xF0 + cp / 262144 < 0xF8
    ensures (cp / 262144) * 64 + (cp / 4096) % 64 == cp / 4096
    ensures (cp / 4096) * 64 + (cp / 64) % 64 == cp / 64
    ensures (cp / 64) * 64 + cp % 64 == cp
  {
  }

  lemma DecodeFourBytes(c: char, rest: string)
    requires 0x10000 <= c as int
    ensures DecodeFirst(EscapeAll(Utf8(c)) + rest) == Some((c, 12))
  {
    var bs := Utf8(c);
    var t := EscapeAll(bs) + rest;
    var cp := c as int;
    FourByteArithmetic(cp);
    EscapedByteAt(bs, rest, 0);
    EscapedByteAt(bs, rest, 1);
    EscapedByteAt(bs, rest, 2);
    EscapedByteAt(bs, rest, 3);
    assert t[0] == '%';
    ContinueStep(cp / 262144, t, 1, 4, bs[1]);
    ContinueStep(cp / 4096, t, 2, 4, bs[2]);
    ContinueStep(cp / 64, t, 3, 4, bs[3]);
    assert Continue(cp / 262144, t, 1, 4) == Some(cp);
  }

  /** Decoding the front of an encoded character gives that character back. */
  lemma DecodeFirstEncodeChar(c: char, rest: string)
    ensures DecodeFirst(EncodeChar(c) + rest) == Some((c, |EncodeChar(c)|))
  {
    if Unescaped(c) {
      assert (EncodeChar(c) + rest)[0] == c;
    } else if c as int < 0x80 {
      EscapedByteAt(Utf8(c), rest, 0);
      assert (EncodeChar(c) + rest)[0] == '%';
    } else if c as int < 0x800 {
      DecodeTwoBytes(c, rest);
    } else if c as int < 0x10000 {
      DecodeThreeBytes(c, rest);
    } else {
      DecodeFourBytes(c, rest);
    }
  }

  /** Percent-decoding an encoded string returns the original string. */
  lemma {:induction false} DecodeEncode(s: string)
    ensures Decode(Encode(s)) == Some(s)
  {
    if s != [] {
      var head := EncodeChar(s[0]);
      var t := Encode(s);
      assert t == head + Encode(s[1..]);
      DecodeFirstEncodeChar(s[0], Encode(s[1..]));
      assert t[|head|..] == Encode(s[1..]);
      DecodeEncode(s[1..]);
      assert [s[0]] + s[1..] == s;
    }
  }
}
