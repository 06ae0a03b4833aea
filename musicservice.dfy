/** The client's catalog service (frontend/services/musicService.ts): the
    request targets it builds for search, genre, all-music and top-50
    requests, and the headers `authFetch` sends. The request itself is not
    modelled; a reader of request targets stands for the server side, so that
    the lemmas can say what the server receives. */
module MusicService {
  import opened Common
  import opened Uri

  // ---------------------------------------------------------------------
  // Request targets

  /** `searchMusic(q, category)`: the query, and the category only when it is
      a non-empty string (an absent or empty category is falsy). */
  function SearchPath(q: string, category: Option<string>): string {
    var url := "/music/search?q=" + Encode(q);
    if category.Some? && category.value != "" then url + "&category=" + Encode(category.value)
    else url
  }

  /** `getMusicByGenre(genre)`. */
  function GenrePath(genre: string): string {
    "/music?category=genre&value=" + Encode(genre)
  }

  /** `getAllMusic()`. */
  function AllMusicPath(): string {
    "/music"
  }

  /** `getTop50Music()`. */
  function Top50Path(): string {
    "/music/top50"
  }

  // ---------------------------------------------------------------------
  // A reader of request targets

  datatype Param = Param(name: string, value: string)

  /** `s` with every `+` read as a space, as form-encoded query strings are read. */
  function PlusToSpace(s: string): (r: string)
    ensures |r| == |s|
    ensures forall k :: 0 <= k < |s| ==> r[k] == (if s[k] == '+' then ' ' else s[k])
  {
    seq(|s|, k requires 0 <= k < |s| => if s[k] == '+' then ' ' else s[k])
  }

  /** One `name=value` field, split at its first `=` and percent-decoded. */
  function ReadField(f: string): Option<Param> {
    var name := if '=' in f then f[..IndexOf(f, '=')] else f;
    var value := if '=' in f then f[IndexOf(f, '=') + 1..] else [];
    match (Decode(PlusToSpace(name)), Decode(PlusToSpace(value)))
    case (Some(n), Some(v)) => Some(Param(n, v))
    case _ => None
  }

  /** The fields of a query string in order, skipping empty ones. */
  function ReadFields(fs: seq<string>): Option<seq<Param>> {
    if fs == [] then Some([])
    else match ReadFields(fs[1..])
      case None => None
      case Some(rest) =>
        if fs[0] == [] then Some(rest)
        else match ReadField(fs[0])
          case None => None
          case Some(p) => Some([p] + rest)
  }

  /** A request target without its fragment: what precedes the first `#`. */
  function DropFragment(url: string): (u: string)
    ensures '#' !in u
    ensures '#' !in url ==> u == url
  {
    if '#' in url then url[..IndexOf(url, '#')] else url
  }

  /** What a server reads from a request target: the fragment after `#` is
      dropped, the path ends at the first `?`, and the query is split at
      every `&`. `None` when some field does not decode. */
  function ReadTarget(url: string): Option<(string, seq<Param>)> {
    var u := DropFragment(url);
    if '?' !in u then Some((u, []))
    else
      var i := IndexOf(u, '?');
      WithQuery(u[..i], u[i + 1..])
  }

  /** The path and the fields of the query, `None` when a field does not decode. */
  function WithQuery(path: string, query: string): Option<(string, seq<Param>)> {
    match ReadFields(Split(query, '&'))
    case None => None
    case Some(ps) => Some((path, ps))
  }

  /** The parameters `searchMusic` means to send. */
  function SearchParams(q: string, category: Option<string>): seq<Param> {
    [Param("q", q)] + (if category.Some? && category.value != "" then [Param("category", category.value)] else [])
  }

  // ---------------------------------------------------------------------
  // What the server reads

  /** Text made only of unescaped characters. */
  predicate Plain(s: string) {
    forall k :: 0 <= k < |s| ==> Unescaped(s[k])
  }

  lemma NoDelimiterIn(e: string, c: char)
    requires forall k :: 0 <= k < |e| ==> !IsDelimiter(e[k])
    requires IsDelimiter(c)
    ensures c !in e
  {
  }

  /** Plain text decodes to itself. */
  lemma {:induction false} DecodePlain(s: string)
    requires Plain(s)
    ensures Decode(s) == Some(s)
  {
    if s != [] {
      assert s[0] != '%';
      assert Plain(s[1..]) by {
        assert forall k :: 0 <= k < |s[1..]| ==> s[1..][k] == s[k + 1];
      }
      DecodePlain(s[1..]);
      assert [s[0]] + s[1..] == s;
    }
  }

  lemma PlusToSpaceNoPlus(s: string)
    requires '+' !in s
    ensures PlusToSpace(s) == s
  {
    assert forall k :: 0 <= k < |s| ==> s[k] != '+';
  }

  /** `name=value` with no `=` in the name and no `+` anywhere reads back as
      the decoded name and value. */
  lemma ReadFieldParts(name: string, value: string, n: string, v: string)
    requires '=' !in name && '+' !in name && '+' !in value
    requires Decode(name) == Some(n) && Decode(value) == Some(v)
    ensures ReadField(name + "=" + value) == Some(Param(n, v))
  {
    var f := name + "=" + value;
    assert f[|name|] == '=';
    assert f[..|name|] == name;
    IndexOfAt(f, '=', |name|);
    assert f[|name| + 1..] == value;
    PlusToSpaceNoPlus(name);
    PlusToSpaceNoPlus(value);
  }

  /** Plain text holds no delimiter. */
  lemma PlainNoDelimiter(s: string, c: char)
    requires Plain(s) && IsDelimiter(c)
    ensures c !in s
  {
    assert forall k :: 0 <= k < |s| ==> !IsDelimiter(s[k]);
  }

  /** A plain name, an `=` and an encoded value read back as that name and value. */
  lemma ReadEncodedField(name: string, v: string)
    requires name != [] && Plain(name)
    ensures ReadField(name + "=" + Encode(v)) == Some(Param(name, v))
  {
    var e := Encode(v);
    PlainNoDelimiter(name, '=');
    PlainNoDelimiter(name, '+');
    NoDelimiterIn(e, '+');
    DecodePlain(name);
    DecodeEncode(v);
    ReadFieldParts(name, e, name, v);
  }

  /** A plain name, an `=` and a plain value read back as that name and value. */
  lemma ReadPlainField(name: string, v: string)
    requires name != [] && Plain(name) && Plain(v)
    ensures ReadField(name + "=" + v) == Some(Param(name, v))
    ensures '&' !in name + "=" + v && '#' !in name + "=" + v
  {
    PlainNoDelimiter(name, '=');
    PlainNoDelimiter(name, '+');
    PlainNoDelimiter(v, '+');
    PlainNoDelimiter(name, '&');
    PlainNoDelimiter(v, '&');
    PlainNoDelimiter(name, '#');
    PlainNoDelimiter(v, '#');
    DecodePlain(name);
    DecodePlain(v);
    ReadFieldParts(name, v, name, v);
  }

  /** A field built by the client holds no `&` and no `#`. */
  lemma EncodedFieldClean(name: string, v: string)
    requires Plain(name)
    ensures '&' !in name + "=" + Encode(v)
    ensures '#' !in name + "=" + Encode(v)
    ensures '?' !in name + "=" + Encode(v)
  {
    assert forall k :: 0 <= k < |name| ==> !IsDelimiter(name[k]);
    NoDelimiterIn(Encode(v), '&');
    NoDelimiterIn(Encode(v), '#');
    NoDelimiterIn(Encode(v), '?');
  }

  /** Reading a target `path?query`: the path ends at its one `?`, and a `?`
      inside the query is part of the query. */
  lemma ReadPathAndQuery(path: string, query: string, ps: seq<Param>)
    requires '?' !in path && '#' !in path && '#' !in query
    requires ReadFields(Split(query, '&')) == Some(ps)
    ensures ReadTarget(path + "?" + query) == Some((path, ps))
  {
    var url := path + "?" + query;
    assert '#' !in url;
    assert IndexOf(url, '?') == |path| by {
      assert url[|path|] == '?' && url[..|path|] == path;
      IndexOfAt(url, '?', |path|);
    }
    assert url[|path| + 1..] == query && url[..|path|] == path;
    ReadTargetAt(url, |path|);
  }

  /** `ReadTarget` on a target with no fragment and its first `?` at `i`. */
  lemma ReadTargetAt(url: string, i: nat)
    requires '#' !in url && i < |url| && url[i] == '?' && IndexOf(url, '?') == i
    ensures ReadTarget(url) == WithQuery(url[..i], url[i + 1..])
  {
    assert DropFragment(url) == url;
    assert '?' in url;
  }

  lemma PlainLiterals()
    ensures Plain("q") && Plain("category") && Plain("genre") && Plain("value")
  {
    assert "q"[0] == 'q';
    assert forall k :: 0 <= k < |"category"| ==> IsAsciiLetter("category"[k]);
    assert forall k :: 0 <= k < |"genre"| ==> IsAsciiLetter("genre"[k]);
    assert forall k :: 0 <= k < |"value"| ==> IsAsciiLetter("value"[k]);
  }

  lemma ReadOneField(f: string, p: Param)
    requires f != [] && ReadField(f) == Some(p)
    ensures ReadFields([f]) == Some([p])
  {
    assert [f][1..] == [];
    assert ReadFields([f][1..]) == Some([]);
    assert [p] + [] == [p];
  }

  /** The literal prefixes of the targets, cut at their delimiters. */
  lemma SearchTarget(e: string, c: string)
    ensures "/music/search?q=" + e + "&category=" + c == "/music/search" + "?" + (("q" + "=" + e) + "&" + ("category" + "=" + c))
  {
    assert "/music/search?q=" == "/music/search" + "?" + ("q" + "=");
    assert "&category=" == "&" + ("category" + "=");
  }

  lemma SearchTargetNoCategory(e: string)
    ensures "/music/search?q=" + e == "/music/search" + "?" + ("q" + "=" + e)
  {
    assert "/music/search?q=" == "/music/search" + "?" + ("q" + "=");
  }

  lemma GenreTarget(e: string)
    ensures "/music?category=genre&value=" + e == "/music" + "?" + (("category" + "=" + "genre") + "&" + ("value" + "=" + e))
  {
    assert "/music?category=genre&value=" == "/music" + "?" + ("category" + "=" + "genre") + "&" + ("value" + "=");
  }

  /** Two client-built fields joined by `&` read back as their two parameters. */
  lemma ReadTwoFields(f: string, g: string, p: Param, r: Param)
    requires '&' !in f && '&' !in g && f != [] && g != []
    requires ReadField(f) == Some(p) && ReadField(g) == Some(r)
    ensures ReadFields(Split(f + "&" + g, '&')) == Some([p, r])
  {
    assert Split(f + "&" + g, '&') == [f, g] by {
      SplitOnce(f, '&', g);
      assert f + "&" + g == f + ['&'] + g;
    }
    ReadOneField(g, r);
    assert [f, g][1..] == [g];
    assert ReadFields([f, g][1..]) == Some([r]);
    assert [p] + [r] == [p, r];
  }

  /** A target with one client-built field reads back as its path and that
      parameter. */
  lemma ReadOneEncoded(path: string, name: string, v: string)
    requires '?' !in path && '#' !in path
    requires name != [] && Plain(name)
    ensures ReadTarget(path + "?" + (name + "=" + Encode(v))) == Some((path, [Param(name, v)]))
  {
    var f := name + "=" + Encode(v);
    assert ReadField(f) == Some(Param(name, v)) && '&' !in f && '#' !in f by {
      ReadEncodedField(name, v);
      EncodedFieldClean(name, v);
    }
    assert ReadFields(Split(f, '&')) == Some([Param(name, v)]) by {
      SplitWithout(f, '&');
      ReadOneField(f, Param(name, v));
    }
    ReadPathAndQuery(path, f, [Param(name, v)]);
  }

  /** A target with two fields, the first `first` (any field that reads back
      as `p` and holds no `&` or `#`) and the second client-built, reads back
      as its path and the two parameters. */
  lemma ReadTwoFieldsTarget(path: string, first: string, p: Param, name: string, v: string)
    requires '?' !in path && '#' !in path
    requires first != [] && '&' !in first && '#' !in first && ReadField(first) == Some(p)
    requires name != [] && Plain(name)
    ensures ReadTarget(path + "?" + (first + "&" + (name + "=" + Encode(v)))) == Some((path, [p, Param(name, v)]))
  {
    var g := name + "=" + Encode(v);
    var query := first + "&" + g;
    assert ReadField(g) == Some(Param(name, v)) && '&' !in g && '#' !in g by {
      ReadEncodedField(name, v);
      EncodedFieldClean(name, v);
    }
    assert ReadFields(Split(query, '&')) == Some([p, Param(name, v)]) by {
      ReadTwoFields(first, g, p, Param(name, v));
    }
    assert '#' !in query;
    ReadPathAndQuery(path, query, [p, Param(name, v)]);
  }

  /** The fixed paths hold no `?` and no `#`. */
  lemma PathsClean()
    ensures '?' !in "/music" && '#' !in "/music"
    ensures '?' !in "/music/search" && '#' !in "/music/search"
    ensures '?' !in "/music/top50" && '#' !in "/music/top50"
  {
  }

  lemma GenreField()
    ensures var f := "category" + "=" + "genre"; f != [] && '&' !in f && '#' !in f && ReadField(f) == Some(Param("category", "genre"))
  {
    PlainLiterals();
    ReadPlainField("category", "genre");
  }

  /** The server reads back exactly the query, and the category when one was
      given, whatever characters they hold: no user text can add, drop or
      alter a parameter. */
  lemma SearchPathReadsBack(q: string, category: Option<string>)
    ensures ReadTarget(SearchPath(q, category)) == Some(("/music/search", SearchParams(q, category)))
  {
    PathsClean();
    PlainLiterals();
    var qf := "q" + "=" + Encode(q);
    if category.Some? && category.value != "" {
      var c := category.value;
      assert qf != [] && '&' !in qf && '#' !in qf && ReadField(qf) == Some(Param("q", q)) by {
        ReadEncodedField("q", q);
        EncodedFieldClean("q", q);
      }
      SearchTarget(Encode(q), Encode(c));
      ReadTwoFieldsTarget("/music/search", qf, Param("q", q), "category", c);
      assert SearchParams(q, category) == [Param("q", q), Param("category", c)];
    } else {
      SearchTargetNoCategory(Encode(q));
      ReadOneEncoded("/music/search", "q", q);
      assert SearchParams(q, category) == [Param("q", q)];
    }
  }

  /** The server reads back the fixed `category=genre` and exactly the genre given. */
  lemma GenrePathReadsBack(genre: string)
    ensures ReadTarget(GenrePath(genre)) == Some(("/music", [Param("category", "genre"), Param("value", genre)]))
  {
    PathsClean();
    PlainLiterals();
    GenreField();
    GenreTarget(Encode(genre));
    ReadTwoFieldsTarget("/music", "category" + "=" + "genre", Param("category", "genre"), "value", genre);
  }

  /** The fixed targets carry no query. */
  lemma FixedPathsReadBack()
    ensures ReadTarget(AllMusicPath()) == Some(("/music", []))
    ensures ReadTarget(Top50Path()) == Some(("/music/top50", []))
  {
    PathsClean();
  }

  // ---------------------------------------------------------------------
  // Headers

  /** The headers of `authFetch`, given the stored token (`null` when none). */
  function AuthHeaders(token: Option<string>): (h: map<string, string>)
    ensures "Content-Type" in h && h["Content-Type"] == "application/json"
    ensures "Authorization" in h <==> token.Some? && token.value != ""
    ensures "Authorization" in h ==> h["Authorization"] == "Bearer " + token.value
    ensures forall k :: k in h ==> k == "Content-Type" || k == "Authorization"
  {
    var h := map["Content-Type" := "application/json"];
    if token.Some? && token.value != "" then h["Authorization" := "Bearer " + token.value] else h
  }
}
