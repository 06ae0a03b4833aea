/** Value types and character classes shared by the client and the backend models. */
module Common {

  datatype Option<+T> = None | Some(value: T)

  /** What a client API call gave back: the `{success, data?}` envelope the
      services return, or an exception thrown before or during the request. */
  datatype Reply<+T> = Replied(success: bool, data: Option<T>) | Threw

  /** The client's usual acceptance test `res.success && res.data`. */
  predicate Delivered<T>(r: Reply<T>) {
    r.Replied? && r.success && r.data.Some?
  }

  predicate IsAsciiLetter(c: char) {
    'a' <= c <= 'z' || 'A' <= c <= 'Z'
  }

  predicate IsAsciiDigit(c: char) {
    '0' <= c <= '9'
  }

  /** WhiteSpace and LineTerminator code points of ECMA-262, the set that
      `String.prototype.trim` removes. */
  predicate IsJsSpace(c: char) {
    var n := c as int;
    0x09 <= n <= 0x0D || n == 0x20 || n == 0xA0 || n == 0x1680
    || 0x2000 <= n <= 0x200A || n == 0x2028 || n == 0x2029 || n == 0x202F
    || n == 0x205F || n == 0x3000 || n == 0xFEFF
  }

  /** The code points for which Python's `str.isspace` holds, the set that
      `str.strip()` removes. */
  predicate IsPySpace(c: char) {
    var n := c as int;
    0x09 <= n <= 0x0D || 0x1C <= n <= 0x20 || n == 0x85 || n == 0xA0 || n == 0x1680
    || 0x2000 <= n <= 0x200A || n == 0x2028 || n == 0x2029 || n == 0x202F
    || n == 0x205F || n == 0x3000
  }

  /** `s` with its leading `ws` characters removed. */
  function DropLeading(s: string, ws: char -> bool): (r: string)
    ensures |r| <= |s| && r == s[|s| - |r|..]
    ensures forall k :: 0 <= k < |s| - |r| ==> ws(s[k])
    ensures r == [] || !ws(r[0])
  {
    if s == [] || !ws(s[0]) then s else DropLeading(s[1..], ws)
  }

  /** `s` with its trailing `ws` characters removed. */
  function DropTrailing(s: string, ws: char -> bool): (r: string)
    ensures |r| <= |s| && r == s[..|r|]
    ensures forall k :: |r| <= k < |s| ==> ws(s[k])
    ensures r == [] || !ws(r[|r| - 1])
  {
    if s == [] || !ws(s[|s| - 1]) then s else DropTrailing(s[..|s| - 1], ws)
  }

  /** Removes `ws` characters at both ends: JavaScript `trim()` with
      `IsJsSpace`, Python `strip()` with `IsPySpace`. */
  function Strip(s: string, ws: char -> bool): (r: string)
  {
    DropTrailing(DropLeading(s, ws), ws)
  }

  /** A string strips to nothing exactly when every character is white space. */
  lemma StripEmptyIff(s: string, ws: char -> bool)
    ensures Strip(s, ws) == [] <==> forall k :: 0 <= k < |s| ==> ws(s[k])
  {
    var l := DropLeading(s, ws);
    assert l != [] ==> l[0] == s[|s| - |l|];
  }

  /** Stripping keeps a string that has no white space at either end, whatever
      white space is put around it. */
  lemma StripPadded(pre: string, s: string, post: string, ws: char -> bool)
    requires forall k :: 0 <= k < |pre| ==> ws(pre[k])
    requires forall k :: 0 <= k < |post| ==> ws(post[k])
    requires s != [] && !ws(s[0]) && !ws(s[|s| - 1])
    ensures Strip(pre + s + post, ws) == s
  {
    assert pre + s + post == pre + (s + post);
    DropLeadingPadded(pre, s + post, ws);
    DropTrailingPadded(s, post, ws);
  }

  /** Leading white space is dropped up to the first other character. */
  lemma DropLeadingPadded(pre: string, u: string, ws: char -> bool)
    requires forall k :: 0 <= k < |pre| ==> ws(pre[k])
    requires u != [] && !ws(u[0])
    ensures DropLeading(pre + u, ws) == u
  {
    var t := pre + u;
    var r := DropLeading(t, ws);
    assert forall k :: 0 <= k < |pre| ==> t[k] == pre[k];
    assert t[|pre|] == u[0];
    assert t[|pre|..] == u;
  }

  /** Trailing white space is dropped back to the last other character. */
  lemma DropTrailingPadded(u: string, post: string, ws: char -> bool)
    requires forall k :: 0 <= k < |post| ==> ws(post[k])
    requires u != [] && !ws(u[|u| - 1])
    ensures DropTrailing(u + post, ws) == u
  {
    var t := u + post;
    var r := DropTrailing(t, ws);
    assert forall k :: |u| <= k < |t| ==> t[k] == post[k - |u|];
    assert t[|u| - 1] == u[|u| - 1];
    assert t[..|u|] == u;
  }

  function LowerChar(c: char): char {
    if 'A' <= c <= 'Z' then (c as int + 32) as char else c
  }

  /** `toLowerCase()` restricted to ASCII: other characters are kept. */
  function AsciiLower(s: string): (r: string)
    ensures |r| == |s|
    ensures forall k :: 0 <= k < |s| ==> r[k] == LowerChar(s[k])
  {
    seq(|s|, k requires 0 <= k < |s| => LowerChar(s[k]))
  }

  /** Text with no upper-case ASCII letter is its own lower case. */
  lemma AsciiLowerKeeps(s: string)
    requires forall k :: 0 <= k < |s| ==> !('A' <= s[k] <= 'Z')
    ensures AsciiLower(s) == s
  {
  }

  lemma AsciiLowerCons(c: char, s: string)
    ensures AsciiLower([c] + s) == [LowerChar(c)] + AsciiLower(s)
  {
  }

  /** Index of the first `c` in `s`. */
  function IndexOf(s: string, c: char): (i: nat)
    requires c in s
    ensures i < |s| && s[i] == c && c !in s[..i]
  {
    if s[0] == c then 0 else 1 + IndexOf(s[1..], c)
  }

  /** `IndexOf` finds the first occurrence it is shown. */
  lemma IndexOfAt(s: string, c: char, j: nat)
    requires j < |s| && s[j] == c && c !in s[..j]
    ensures IndexOf(s, c) == j
  {
    var i := IndexOf(s, c);
    assert forall k :: 0 <= k < j ==> s[k] == s[..j][k];
    assert forall k :: 0 <= k < i ==> s[k] == s[..i][k];
  }

  /** `s.split(sep)` in JavaScript and Python: every occurrence of `sep` is a
      boundary, and empty fields are kept. */
  function Split(s: string, sep: char): (parts: seq<string>)
    ensures |parts| >= 1
    ensures forall i :: 0 <= i < |parts| ==> sep !in parts[i]
    ensures Join(parts, sep) == s
    decreases |s|
  {
    if sep !in s then [s]
    else
      var i := IndexOf(s, sep);
      assert s == s[..i] + [sep] + s[i + 1..];
      [s[..i]] + Split(s[i + 1..], sep)
  }

  /** The inverse of `Split`: the parts glued with `sep`. */
  function Join(parts: seq<string>, sep: char): string
    requires |parts| >= 1
  {
    if |parts| == 1 then parts[0] else parts[0] + [sep] + Join(parts[1..], sep)
  }

  /** The first field is everything before the first separator. */
  lemma SplitFirst(a: string, sep: char, rest: string)
    requires sep !in a
    ensures Split(a + [sep] + rest, sep) == [a] + Split(rest, sep)
  {
    var s := a + [sep] + rest;
    assert s[..|a|] == a;
    assert s[|a| + 1..] == rest;
    IndexOfAt(s, sep, |a|);
  }

  /** `Split` keeps text without the separator whole. */
  lemma SplitWithout(s: string, sep: char)
    requires sep !in s
    ensures Split(s, sep) == [s]
  {
  }

  /** The first field is the text up to the first separator. */
  lemma SplitHead(a: string, rest: string, sep: char)
    requires sep !in a
    requires rest == [] || rest[0] == sep
    ensures Split(a + rest, sep)[0] == a
  {
    if rest == [] {
      assert a + rest == a;
    } else {
      assert a + rest == a + [sep] + rest[1..];
      SplitFirst(a, sep, rest[1..]);
    }
  }

  /** Splitting at a separator that occurs exactly once yields the two sides. */
  lemma {:induction false} SplitOnce(a: string, sep: char, b: string)
    requires sep !in a && sep !in b
    ensures Split(a + [sep] + b, sep) == [a, b]
  {
    var s := a + [sep] + b;
    assert s[|a|] == sep;
    var i := IndexOf(s, sep);
    assert forall k :: 0 <= k < |a| ==> s[k] == a[k];
    assert forall k :: |a| < k <= |s| ==> s[..k][|a|] == sep;
    assert s[..i] == a;
    assert s[i + 1..] == b;
  }
}
