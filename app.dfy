/** The client's top-level component (frontend/App.tsx): the cart, the search
    box, and the playlist collection with its detail view. React state
    becomes the fields of `AppModel`; every server call is answered by a
    `Server` given as a parameter, and each handler returns the calls it made,
    in order. */
module App {
  import opened Common
  import opened Decimal
  import opened Cart
  import opened Search

  datatype Playlist = Playlist(playlist_no: int, title: string, content: string, music_items: seq<Music>)

  /** The `data` of `getPlaylistMusic`. */
  datatype MusicListData = MusicListData(music_list: Option<seq<Music>>)

  /** The `data` of `createPlaylist`. */
  datatype Created = Created(playlist_no: int)

  /** How the server answers each client call. A `Threw` reply is an
      exception from the call; `attachThrows(i)` says whether the `i`-th
      attach call of a save throws. */
  datatype Server = Server(
    userProfile: JsNumber -> Reply<()>,
    userPlaylists: JsNumber -> Reply<seq<Playlist>>,
    playlistMusic: int -> Reply<MusicListData>,
    createPlaylist: (string, string) -> Reply<Created>,
    attachThrows: nat -> bool,
    deletePlaylist: int -> Reply<()>,
    removeMusic: (int, int) -> Reply<()>,
    catalog: string -> Reply<seq<Music>>)

  /** A request the client sends. */
  datatype ApiCall =
    | GetProfile(userNo: JsNumber)
    | ListPlaylists(userNo: JsNumber)
    | ListTracks(playlistNo: int)
    | CreatePlaylist(title: string, content: string)
    | AddMusic(playlistNo: int, musicNo: Option<int>)
    | DeletePlaylist(playlistNo: int)
    | RemoveMusic(playlistNo: int, trackNo: int)
    | Catalog(target: string)

  /** All the component state the handlers read or write. */
  datatype AppState = AppState(
    user: Option<JsNumber>,
    cart: seq<Music>,
    isCartOpen: bool,
    playlists: seq<Playlist>,
    playlistCount: int,
    isLoading: bool,
    selectedPlaylist: Option<Playlist>,
    isDetailOpen: bool,
    searchQuery: string,
    searchResults: seq<Music>,
    isSearching: bool)

  // ---------------------------------------------------------------------
  // Refresh

  /** `music_items` of one playlist: the fetched `music_list` when the fetch
      succeeded with one, otherwise nothing. */
  function TracksOf(r: Reply<MusicListData>): seq<Music> {
    if r.Replied? && r.success && r.data.Some? && r.data.value.music_list.Some? then r.data.value.music_list.value else []
  }

  /** The listed playlists, each with its own fetched tracks: the result of
      the `Promise.all` over the list, which keeps the list's order. */
  function MergeTracks(listed: seq<Playlist>, server: Server): (r: seq<Playlist>)
    ensures |r| == |listed|
    ensures forall i :: 0 <= i < |r| ==>
      r[i] == listed[i].(music_items := TracksOf(server.playlistMusic(listed[i].playlist_no)))
  {
    if listed == [] then []
    else
      var p := listed[0];
      [p.(music_items := TracksOf(server.playlistMusic(p.playlist_no)))] + MergeTracks(listed[1..], server)
  }

  /** Some track fetch throws, which rejects the whole `Promise.all`. */
  predicate AnyThrew(listed: seq<Playlist>, server: Server) {
    exists i :: 0 <= i < |listed| && server.playlistMusic(listed[i].playlist_no).Threw?
  }

  /** The collection a refresh installs, or `None` when it leaves the
      collection as it was. */
  function Refreshed(userNo: JsNumber, server: Server): Option<seq<Playlist>> {
    var r := server.userPlaylists(userNo);
    if Delivered(r) && !AnyThrew(r.data.value, server) then Some(MergeTracks(r.data.value, server)) else None
  }

  function TrackCalls(listed: seq<Playlist>): (calls: seq<ApiCall>)
    ensures |calls| == |listed|
    ensures forall i :: 0 <= i < |listed| ==> calls[i] == ListTracks(listed[i].playlist_no)
  {
    seq(|listed|, i requires 0 <= i < |listed| => ListTracks(listed[i].playlist_no))
  }

  /** The calls a refresh makes: the list, then one track fetch per playlist. */
  function RefreshCalls(userNo: JsNumber, server: Server): seq<ApiCall> {
    var r := server.userPlaylists(userNo);
    [ListPlaylists(userNo)] + (if Delivered(r) then TrackCalls(r.data.value) else [])
  }

  /** The state after `fetchPlaylists(userNo)` has finished. */
  function AfterRefresh(s: AppState, userNo: JsNumber, server: Server): AppState {
    match Refreshed(userNo, server)
    case Some(ps) => s.(playlists := ps, playlistCount := |ps|, isLoading := false)
    case None => s.(isLoading := false)
  }

  /** A successful refresh lists the same playlists in the same order, each
      carrying the tracks fetched for it, and counts them. */
  lemma RefreshMirrorsList(s: AppState, userNo: JsNumber, server: Server)
    requires Delivered(server.userPlaylists(userNo))
    requires forall i :: 0 <= i < |server.userPlaylists(userNo).data.value| ==>
      !server.playlistMusic(server.userPlaylists(userNo).data.value[i].playlist_no).Threw?
    ensures var listed := server.userPlaylists(userNo).data.value;
      var t := AfterRefresh(s, userNo, server);
      && |t.playlists| == |listed| == t.playlistCount
      && (forall i :: 0 <= i < |listed| ==>
            t.playlists[i] == listed[i].(music_items := TracksOf(server.playlistMusic(listed[i].playlist_no))))
      && !t.isLoading
  {
  }

  /** A second refresh against the same server changes nothing more. */
  lemma RefreshTwice(s: AppState, userNo: JsNumber, server: Server)
    ensures AfterRefresh(AfterRefresh(s, userNo, server), userNo, server) == AfterRefresh(s, userNo, server)
  {
  }

  /** One failing track fetch keeps the whole collection, and its count, as it was. */
  lemma RefreshAllOrNothing(s: AppState, userNo: JsNumber, server: Server, i: nat)
    requires Delivered(server.userPlaylists(userNo))
    requires i < |server.userPlaylists(userNo).data.value|
    requires server.playlistMusic(server.userPlaylists(userNo).data.value[i].playlist_no).Threw?
    ensures AfterRefresh(s, userNo, server) == s.(isLoading := false)
  {
  }

  // ---------------------------------------------------------------------
  // Save, delete, remove

  /** The attach calls for `ms`, one per entry and in order. */
  function AttachCalls(playlistNo: int, ms: seq<Music>): (calls: seq<ApiCall>)
    ensures |calls| == |ms|
    ensures forall i :: 0 <= i < |ms| ==> calls[i] == AddMusic(playlistNo, ms[i].music_no)
  {
    seq(|ms|, i requires 0 <= i < |ms| => AddMusic(playlistNo, ms[i].music_no))
  }

  /** The first of the attach calls `0 .. n-1` that throws, if one does. */
  function FirstThrow(n: nat, throws: nat -> bool): (r: Option<nat>)
    ensures r.Some? ==> r.value < n && throws(r.value) && forall k :: 0 <= k < r.value ==> !throws(k)
    ensures r.None? ==> forall k :: 0 <= k < n ==> !throws(k)
  {
    if n == 0 then None
    else match FirstThrow(n - 1, throws)
      case Some(j) => Some(j)
      case None => if throws(n - 1) then Some(n - 1) else None
  }

  /** `playlists.find(p => p.playlist_no === no)`. */
  function FindPlaylist(ps: seq<Playlist>, no: int): (r: Option<Playlist>)
    ensures r.Some? ==> r.value.playlist_no == no
    ensures r.Some? ==> exists i :: 0 <= i < |ps| && ps[i] == r.value && (forall k :: 0 <= k < i ==> ps[k].playlist_no != no)
    ensures r.None? ==> forall k :: 0 <= k < |ps| ==> ps[k].playlist_no != no
  {
    if ps == [] then None
    else if ps[0].playlist_no == no then Some(ps[0])
    else
      FindPlaylist(ps[1..], no)
  }

  class AppModel {
    var user: Option<JsNumber>
    var cart: seq<Music>
    var isCartOpen: bool
    var playlists: seq<Playlist>
    var playlistCount: int
    var isLoading: bool
    var selectedPlaylist: Option<Playlist>
    var isDetailOpen: bool
    var searchQuery: string
    var searchResults: seq<Music>
    var isSearching: bool

    function State(): AppState
      reads this
    {
      AppState(user, cart, isCartOpen, playlists, playlistCount, isLoading,
               selectedPlaylist, isDetailOpen, searchQuery, searchResults, isSearching)
    }

    /** The initial state of every `useState`. */
    constructor()
      ensures State() == AppState(None, [], false, [], 0, false, None, false, "", [], false)
    {
      user := None;
      cart := [];
      isCartOpen := false;
      playlists := [];
      playlistCount := 0;
      isLoading := false;
      selectedPlaylist := None;
      isDetailOpen := false;
      searchQuery := "";
      searchResults := [];
      isSearching := false;
    }

    /** `fetchPlaylists(userNo)`: list the user's playlists, fetch every
        playlist's tracks, and install them all, or nothing when any call
        fails or throws. `isLoading` ends false either way. */
    method FetchPlaylists(userNo: JsNumber, server: Server) returns (calls: seq<ApiCall>)
      modifies this
      ensures calls == RefreshCalls(userNo, server)
      ensures State() == AfterRefresh(old(State()), userNo, server)
      ensures old(playlistCount == |playlists|) ==> playlistCount == |playlists|
    {
      isLoading := true;
      calls := [ListPlaylists(userNo)];
      var r := server.userPlaylists(userNo);
      if Delivered(r) {
        calls := calls + TrackCalls(r.data.value);
        if !AnyThrew(r.data.value, server) {
          playlists := MergeTracks(r.data.value, server);
          playlistCount := |playlists|;
        }
      }
      isLoading := false;
    }

    /** The sign-in callback of the login screen: set the user and refresh. */
    method SignIn(userNo: JsNumber, server: Server) returns (calls: seq<ApiCall>)
      modifies this
      ensures calls == RefreshCalls(userNo, server)
      ensures State() == AfterRefresh(old(State()).(user := Some(userNo)), userNo, server)
    {
      user := Some(userNo);
      calls := FetchPlaylists(userNo, server);
    }

    /** The effect on `user?.user_no`, run when the signed-in user's number
        changes: with a user, fetch the profile and then refresh. A profile
        fetch that throws is caught and skips the refresh. The profile's
        fields are not part of the modelled state. */
    method LoadUserData(server: Server) returns (calls: seq<ApiCall>)
      modifies this
      ensures old(user).None? ==> calls == [] && State() == old(State())
      ensures old(user).Some? && server.userProfile(old(user).value).Threw? ==>
                calls == [GetProfile(old(user).value)] && State() == old(State())
      ensures old(user).Some? && !server.userProfile(old(user).value).Threw? ==>
                calls == [GetProfile(old(user).value)] + RefreshCalls(old(user).value, server)
                && State() == AfterRefresh(old(State()), old(user).value, server)
    {
      calls := [];
      if user.Some? {
        var userNo := user.value;
        calls := [GetProfile(userNo)];
        if !server.userProfile(userNo).Threw? {
          var refresh := FetchPlaylists(userNo, server);
          calls := calls + refresh;
        }
      }
    }

    /** A sign-in as the component runs it: the callback, then the effect its
        new user number triggers. The profile is fetched and the playlists
        are refreshed twice, and the second refresh leaves the state the
        first one made. */
    method SignInThenLoad(userNo: JsNumber, server: Server) returns (calls: seq<ApiCall>)
      modifies this
      ensures server.userProfile(userNo).Threw? ==>
                calls == RefreshCalls(userNo, server) + [GetProfile(userNo)]
      ensures !server.userProfile(userNo).Threw? ==>
                calls == RefreshCalls(userNo, server) + [GetProfile(userNo)] + RefreshCalls(userNo, server)
      ensures State() == AfterRefresh(old(State()).(user := Some(userNo)), userNo, server)
    {
      ghost var s0 := old(State()).(user := Some(userNo));
      var first := SignIn(userNo, server);
      ghost var s1 := State();
      assert s1 == AfterRefresh(s0, userNo, server) && user == Some(userNo);
      var effect := LoadUserData(server);
      RefreshTwice(s0, userNo, server);
      if server.userProfile(userNo).Threw? {
        assert State() == s1;
      } else {
        assert State() == AfterRefresh(s1, userNo, server);
        assert effect == [GetProfile(userNo)] + RefreshCalls(userNo, server);
        assert first + effect == first + [GetProfile(userNo)] + RefreshCalls(userNo, server);
      }
      calls := first + effect;
    }

    /** `toggleCart(song)`. */
    method ToggleCart(song: Music)
      modifies this
      ensures State() == old(State()).(cart := Toggle(old(cart), song))
      ensures old(UniqueUrls(cart)) ==> UniqueUrls(cart)
    {
      if UniqueUrls(cart) {
        ToggleKeepsUnique(cart, song);
      }
      cart := Toggle(cart, song);
    }

    /** The cart side bar's `onRemove(url)`. */
    method RemoveFromCart(url: Option<string>)
      modifies this
      ensures State() == old(State()).(cart := Without(old(cart), url))
      ensures old(UniqueUrls(cart)) ==> UniqueUrls(cart)
    {
      if UniqueUrls(cart) {
        WithoutKeepsUnique(cart, url);
      }
      cart := Without(cart, url);
    }

    /** The cart side bar's `onClear`. */
    method ClearCart()
      modifies this
      ensures State() == old(State()).(cart := [])
    {
      cart := [];
    }

    /** Typing in the search box. */
    method SetSearchQuery(q: string)
      modifies this
      ensures State() == old(State()).(searchQuery := q)
    {
      searchQuery := q;
    }

    /** `handleSearch`: a blank query does nothing; otherwise one catalog
        request, whose data become the results, and any failure or exception
        empties them. */
    method HandleSearch(server: Server) returns (calls: seq<ApiCall>)
      modifies this
      ensures RequestFor(old(searchQuery)).None? ==> calls == [] && State() == old(State())
      ensures RequestFor(old(searchQuery)).Some? ==>
        var target := TargetOf(RequestFor(old(searchQuery)).value);
        var reply := server.catalog(target);
        && calls == [Catalog(target)]
        && State() == old(State()).(searchResults := if Delivered(reply) then reply.data.value else [], isSearching := false)
    {
      var req := RequestFor(searchQuery);
      if req.None? {
        return [];
      }
      var target := TargetOf(req.value);
      calls := [Catalog(target)];
      var reply := server.catalog(target);
      var results := if Delivered(reply) then reply.data.value else [];
      ShowSearchResults(results);
    }

    /** The state updates of `handleSearch` around the request: the spinner
        is shown, the results are stored, and the spinner is hidden. */
    method ShowSearchResults(results: seq<Music>)
      modifies this
      ensures State() == old(State()).(searchResults := results, isSearching := false)
    {
      isSearching := true;
      searchResults := results;
      isSearching := false;
    }

    /** `handlePlaylistClick(p)`: open the detail view of `p`. */
    method SelectPlaylist(p: Playlist)
      modifies this
      ensures State() == old(State()).(selectedPlaylist := Some(p), isDetailOpen := true)
    {
      selectedPlaylist := Some(p);
      isDetailOpen := true;
    }

    /** `handleSavePlaylist(title, content)`: create the playlist, attach the
        cart's tracks one call at a time, then empty and close the cart and
        refresh. A failed create, or an attach that throws, stops the save
        with the cart as it was. */
    method SavePlaylist(title: string, content: string, server: Server) returns (calls: seq<ApiCall>)
      modifies this
      ensures old(user).None? ==> calls == [] && State() == old(State())
      ensures old(user).Some? && !Delivered(server.createPlaylist(title, content)) ==>
        calls == [CreatePlaylist(title, content)] && State() == old(State())
      ensures old(user).Some? && Delivered(server.createPlaylist(title, content)) ==>
        var no := server.createPlaylist(title, content).data.value.playlist_no;
        match FirstThrow(|old(cart)|, server.attachThrows)
        case Some(j) =>
          calls == [CreatePlaylist(title, content)] + AttachCalls(no, old(cart)[..j + 1])
          && State() == old(State())
        case None =>
          calls == [CreatePlaylist(title, content)] + AttachCalls(no, old(cart)) + RefreshCalls(old(user).value, server)
          && State() == AfterRefresh(old(State()).(cart := [], isCartOpen := false), old(user).value, server)
    {
      if user.None? {
        return [];
      }
      calls := [CreatePlaylist(title, content)];
      var created := server.createPlaylist(title, content);
      if !Delivered(created) {
        return;
      }
      var no := created.data.value.playlist_no;
      var i := 0;
      while i < |cart|
        invariant 0 <= i <= |cart|
        invariant calls == [CreatePlaylist(title, content)] + AttachCalls(no, cart[..i])
        invariant forall k :: 0 <= k < i ==> !server.attachThrows(k)
        invariant State() == old(State())
      {
        assert AttachCalls(no, cart[..i + 1]) == AttachCalls(no, cart[..i]) + [AddMusic(no, cart[i].music_no)];
        calls := calls + [AddMusic(no, cart[i].music_no)];
        if server.attachThrows(i) {
          return;
        }
        i := i + 1;
      }
      assert cart[..i] == cart;
      CloseSavedCart();
      var more := FetchPlaylists(user.value, server);
      calls := calls + more;
    }

    /** After a save: the cart is emptied and its side bar closed. */
    method CloseSavedCart()
      modifies this
      ensures State() == old(State()).(cart := [], isCartOpen := false)
    {
      cart := [];
      isCartOpen := false;
    }

    /** `handleDeletePlaylist`, given the answer to the confirmation dialog:
        nothing without a selection or a confirmation; after a successful
        delete, a refresh and the detail view closed; otherwise no change. */
    method DeleteSelected(confirmed: bool, server: Server) returns (calls: seq<ApiCall>)
      modifies this
      ensures old(selectedPlaylist).None? || !confirmed ==> calls == [] && State() == old(State())
      ensures old(selectedPlaylist).Some? && confirmed ==>
        var no := old(selectedPlaylist).value.playlist_no;
        var reply := server.deletePlaylist(no);
        if reply.Replied? && reply.success && old(user).Some? then
          && calls == [DeletePlaylist(no)] + RefreshCalls(old(user).value, server)
          && State() == AfterRefresh(old(State()), old(user).value, server).(isDetailOpen := false, selectedPlaylist := None)
        else
          calls == [DeletePlaylist(no)] && State() == old(State())
    {
      if selectedPlaylist.None? || !confirmed {
        return [];
      }
      var no := selectedPlaylist.value.playlist_no;
      calls := [DeletePlaylist(no)];
      var reply := server.deletePlaylist(no);
      if reply.Replied? && reply.success && user.Some? {
        var more := FetchPlaylists(user.value, server);
        calls := calls + more;
        isDetailOpen := false;
        selectedPlaylist := None;
      }
    }

    /** `handleRemoveMusic(musicNo)`: after a successful removal, a refresh,
        then the selection is looked up again, by number, in the collection
        as it was before the refresh (the handler closes over that value). */
    method RemoveSelectedTrack(musicNo: int, server: Server) returns (calls: seq<ApiCall>)
      modifies this
      ensures old(selectedPlaylist).None? ==> calls == [] && State() == old(State())
      ensures old(selectedPlaylist).Some? ==>
        var no := old(selectedPlaylist).value.playlist_no;
        var reply := server.removeMusic(no, musicNo);
        if reply.Replied? && reply.success && old(user).Some? then
          var refreshed := AfterRefresh(old(State()), old(user).value, server);
          && calls == [RemoveMusic(no, musicNo)] + RefreshCalls(old(user).value, server)
          && State() == match FindPlaylist(old(playlists), no)
            case Some(p) => refreshed.(selectedPlaylist := Some(p))
            case None => refreshed
        else
          calls == [RemoveMusic(no, musicNo)] && State() == old(State())
    {
      if selectedPlaylist.None? {
        return [];
      }
      var no := selectedPlaylist.value.playlist_no;
      calls := [RemoveMusic(no, musicNo)];
      var reply := server.removeMusic(no, musicNo);
      if reply.Replied? && reply.success && user.Some? {
        var before := playlists;
        var more := FetchPlaylists(user.value, server);
        calls := calls + more;
        var updated := FindPlaylist(before, no);
        if updated.Some? {
          selectedPlaylist := updated;
        }
      }
    }
  }
}
