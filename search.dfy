/** The search box of the client (frontend/App.tsx, `handleSearch`): a query
    of white space alone is ignored, a query starting with `#` asks the
    catalog for a genre, read through a fixed table of aliases, and any other
    query is a text search. */
module Search {
  import opened Common
  import opened MusicService

  /** `GENRE_ALIAS`: alias, in lower case, to the genre name the catalog stores. */
  const GenreAlias: map<string, string> := map[
    "kpop" := "K-Pop", "k-pop" := "K-Pop", "케이팝" := "K-Pop",
    "pop" := "Pop",
    "hiphop" := "Hip-Hop", "힙합" := "Hip-Hop",
    "rnb" := "R&B", "알앤비" := "R&B",
    "jazz" := "Jazz", "재즈" := "Jazz",
    "rock" := "Rock", "락" := "Rock", "록" := "Rock",
    "classical" := "Classical", "클래식" := "Classical",
    "electronic" := "Electronic", "일렉트로닉" := "Electronic",
    "indie" := "Indie", "인디" := "Indie",
    "metal" := "Metal", "메탈" := "Metal"
  ]

  /** The alias table is a plain object, so a lookup also finds what every
      object inherits. Of those inherited names only `constructor` and
      `__proto__` are all lower case, so only they survive `toLowerCase()`;
      the genre sent is then the text of the `Object` function, or of the
      prototype object. */
  function InheritedMember(key: string): Option<string> {
    if key == "constructor" then Some("function Object() { [native code] }")
    else if key == "__proto__" then Some("[object Object]")
    else None
  }

  /** `rawGenre`: what follows the `#`, trimmed and in lower case. */
  function RawGenre(rest: string): string {
    AsciiLower(Strip(rest, IsJsSpace))
  }

  /** `GENRE_ALIAS[rawGenre] ?? searchQuery.slice(1)`, given the text after
      the `#`. The three ensures are its definition, case by case; what it
      means for what the user types is stated by `ResolvePaddedAlias`,
      `ResolveUnknownKeepsText` and `ResolveInherited`. */
  function ResolveGenre(rest: string): (genre: string)
    ensures RawGenre(rest) in GenreAlias ==> genre == GenreAlias[RawGenre(rest)]
    ensures RawGenre(rest) !in GenreAlias && InheritedMember(RawGenre(rest)).Some? ==> genre == InheritedMember(RawGenre(rest)).value
    ensures RawGenre(rest) !in GenreAlias && InheritedMember(RawGenre(rest)).None? ==> genre == rest
  {
    var raw := RawGenre(rest);
    if raw in GenreAlias then GenreAlias[raw]
    else match InheritedMember(raw)
      case Some(member) => member
      case None => rest
  }

  datatype SearchRequest = GenreSearch(genre: string) | TextSearch(q: string)

  /** The request `handleSearch` makes for the query in the box; `None` when
      the query is ignored. */
  function RequestFor(query: string): (r: Option<SearchRequest>)
    ensures r.None? <==> forall k :: 0 <= k < |query| ==> IsJsSpace(query[k])
    ensures r.Some? ==> query != []
    ensures r.Some? && query[0] == '#' ==> r.value == GenreSearch(ResolveGenre(query[1..]))
    ensures r.Some? && query[0] != '#' ==> r.value == TextSearch(query)
  {
    StripEmptyIff(query, IsJsSpace);
    if Strip(query, IsJsSpace) == [] then None
    else if query[0] == '#' then Some(GenreSearch(ResolveGenre(query[1..])))
    else Some(TextSearch(query))
  }

  /** The request target each search asks the catalog for. */
  function TargetOf(req: SearchRequest): string {
    match req
    case GenreSearch(g) => GenrePath(g)
    case TextSearch(q) => SearchPath(q, None)
  }

  // ---------------------------------------------------------------------
  // Properties

  /** A key typed as it is written in the table: not empty, no surrounding
      white space, no upper-case letter. */
  predicate Canonical(key: string) {
    && key != [] && !IsJsSpace(key[0]) && !IsJsSpace(key[|key| - 1])
    && forall k :: 0 <= k < |key| ==> !('A' <= key[k] <= 'Z')
  }

  lemma AsciiLowerCanonical(key: string)
    requires Canonical(key)
    ensures AsciiLower(key) == key
  {
  }

  /** Every alias is written in canonical form. */
  lemma AliasKeysCanonical()
    ensures forall key :: key in GenreAlias ==> Canonical(key)
  {
  }

  /** An alias resolves to its genre whatever white space surrounds it and
      whatever the case of its ASCII letters. */
  lemma ResolvePaddedAlias(pre: string, typed: string, post: string)
    requires AsciiLower(typed) in GenreAlias
    requires forall k :: 0 <= k < |pre| ==> IsJsSpace(pre[k])
    requires forall k :: 0 <= k < |post| ==> IsJsSpace(post[k])
    ensures ResolveGenre(pre + typed + post) == GenreAlias[AsciiLower(typed)]
  {
    AliasKeysCanonical();
    var key := AsciiLower(typed);
    assert Canonical(key);
    assert key[0] == LowerChar(typed[0]) && key[|key| - 1] == LowerChar(typed[|typed| - 1]);
    StripPadded(pre, typed, post, IsJsSpace);
  }

  /** The lookup key of a typed genre: what the user typed between white
      space, in lower case. */
  lemma RawGenrePadded(pre: string, typed: string, post: string)
    requires forall k :: 0 <= k < |pre| ==> IsJsSpace(pre[k])
    requires forall k :: 0 <= k < |post| ==> IsJsSpace(post[k])
    requires typed != [] && !IsJsSpace(typed[0]) && !IsJsSpace(typed[|typed| - 1])
    ensures RawGenre(pre + typed + post) == AsciiLower(typed)
  {
    StripPadded(pre, typed, post, IsJsSpace);
  }

  lemma NotAliases()
    ensures "blues" !in GenreAlias && "constructor" !in GenreAlias && "__proto__" !in GenreAlias
  {
  }

  /** An unknown genre is sent as typed after the `#`: with the white space
      around it and with its case. */
  lemma ResolveUnknownKeepsText(pre: string, typed: string, post: string)
    requires forall k :: 0 <= k < |pre| ==> IsJsSpace(pre[k])
    requires forall k :: 0 <= k < |post| ==> IsJsSpace(post[k])
    requires typed != [] && !IsJsSpace(typed[0]) && !IsJsSpace(typed[|typed| - 1])
    requires AsciiLower(typed) !in GenreAlias && AsciiLower(typed) != "constructor" && AsciiLower(typed) != "__proto__"
    ensures ResolveGenre(pre + typed + post) == pre + typed + post
  {
    RawGenrePadded(pre, typed, post);
  }

  /** The two inherited names of the table, typed in any case and with white
      space around them, resolve to the text of the inherited value, not to
      the typed text. */
  lemma ResolveInherited(pre: string, typed: string, post: string)
    requires forall k :: 0 <= k < |pre| ==> IsJsSpace(pre[k])
    requires forall k :: 0 <= k < |post| ==> IsJsSpace(post[k])
    requires typed != [] && !IsJsSpace(typed[0]) && !IsJsSpace(typed[|typed| - 1])
    requires AsciiLower(typed) == "constructor" || AsciiLower(typed) == "__proto__"
    ensures AsciiLower(typed) == "constructor" ==> ResolveGenre(pre + typed + post) == "function Object() { [native code] }"
    ensures AsciiLower(typed) == "__proto__" ==> ResolveGenre(pre + typed + post) == "[object Object]"
  {
    RawGenrePadded(pre, typed, post);
    NotAliases();
  }

  /** A `#` query asks the catalog for the resolved genre, and nothing the
      user typed can add a parameter to that request. */
  lemma GenreQueryTarget(rest: string)
    ensures RequestFor("#" + rest) == Some(GenreSearch(ResolveGenre(rest)))
    ensures ReadTarget(TargetOf(GenreSearch(ResolveGenre(rest)))) == Some(("/music", [Param("category", "genre"), Param("value", ResolveGenre(rest))]))
  {
    var query := "#" + rest;
    assert query[0] == '#' && !IsJsSpace(query[0]);
    assert query[1..] == rest;
    GenrePathReadsBack(ResolveGenre(rest));
  }

  /** Any other query that is not blank goes to text search as typed,
      white space around it included. */
  lemma TextQueryTarget(query: string)
    requires query != [] && query[0] != '#'
    requires exists k :: 0 <= k < |query| && !IsJsSpace(query[k])
    ensures RequestFor(query) == Some(TextSearch(query))
    ensures ReadTarget(TargetOf(TextSearch(query))) == Some(("/music/search", [Param("q", query)]))
  {
    SearchPathReadsBack(query, None);
    assert SearchParams(query, None) == [Param("q", query)];
  }
}
