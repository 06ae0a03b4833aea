/** The handlers for the tracks of a playlist
    (backend/controllers/music_list.py): the same cascade as the playlist
    handlers, with an owner check that queries the database itself. */
module MusicListController {
  import opened Common
  import opened Backend

  const PlaylistNotFound := "존재하지 않는 플레이리스트"
  const NotOwner := "권한이 없습니다 (본인의 플레이리스트만 수정 가능)"
  const MusicNoRequired := "music_no 필드가 필요합니다."

  /** `_check_playlist_owner` of this controller: the message of a failed
      check, `None` when `userNo` owns the playlist. */
  function OwnerError(lookup: RowLookup, userNo: int): (err: Option<string>)
    ensures err.None? <==> lookup.Fetched? && RowFound(lookup.row) && Get(lookup.row.value, "user_no") == JInt(userNo)
    ensures lookup.NoConnection? ==> err == Some(DbDown)
    ensures lookup.QueryFailed? ==> err == Some(lookup.message)
    ensures lookup.Fetched? && !RowFound(lookup.row) ==> err == Some(PlaylistNotFound)
    ensures lookup.Fetched? && RowFound(lookup.row) && err.Some? ==> err == Some(NotOwner)
  {
    match lookup
    case NoConnection => Some(DbDown)
    case QueryFailed(message) => Some(message)
    case Fetched(row) =>
      if !RowFound(row) then Some(PlaylistNotFound)
      else if Get(row.value, "user_no") != JInt(userNo) then Some(NotOwner)
      else None
  }

  /** A failed owner check: 404 for the exact not-found message, 403 for
      every other message, including a database failure. */
  function OwnerRefusal(err: string): (r: Response)
    ensures r.Reply? && !r.success && r.message == Some(err)
    ensures r.status == 404 <==> err == PlaylistNotFound
    ensures r.status in {403, 404}
  {
    Refusal(if err == PlaylistNotFound then 404 else 403, err)
  }

  /** A database that cannot be reached, or a query that raises, is answered
      as a permission problem, 403, never as a server error. */
  lemma DbFailureIsForbidden(lookup: RowLookup, userNo: int)
    requires lookup.NoConnection? || (lookup.QueryFailed? && lookup.message != PlaylistNotFound)
    ensures OwnerRefusal(OwnerError(lookup, userNo).value).status == 403
  {
  }

  /** The header and the owner check that open every mutating handler here:
      the response to return at once, or `None` to go on. */
  function Guard(header: Option<string>, owner: int -> RowLookup, playlistNo: int): (stop: Option<Response>)
    ensures UserNoFromHeader(header).Rejected? ==> stop == Some(UserNoFromHeader(header).response)
    ensures UserNoFromHeader(header).Parsed? ==>
              var err := OwnerError(owner(playlistNo), UserNoFromHeader(header).value);
              (err.Some? ==> stop == Some(OwnerRefusal(err.value))) && (err.None? ==> stop.None?)
    ensures stop.Some? ==> stop.value.Reply? && stop.value.status in {400, 401, 403, 404}
  {
    match UserNoFromHeader(header)
    case Rejected(response) => Some(response)
    case Parsed(userNo) =>
      match OwnerError(owner(playlistNo), userNo)
      case Some(err) => Some(OwnerRefusal(err))
      case None => None
  }

  /** `add_music`. `owner` looks up the owner of a playlist number; `add` is
      `add_music_to_playlist(playlist_no, music_no)`. */
  function AddMusic(playlistNo: int, header: Option<string>, owner: int -> RowLookup, body: Option<Json>,
                    add: (int, Json) -> Outcome<(bool, string)>): (r: Response)
    ensures Guard(header, owner, playlistNo).Some? ==> r == Guard(header, owner, playlistNo).value
    ensures Guard(header, owner, playlistNo).None? && ReadBody(body).Fields? && !Truthy(Get(ReadBody(body).fields, "music_no"))
            ==> r == Refusal(400, MusicNoRequired)
    ensures r.Reply? ==> r.status in {201, 400, 401, 403, 404, 500} && (r.success <==> r.status == 201)
  {
    match Guard(header, owner, playlistNo)
    case Some(stop) => stop
    case None =>
      match ReadBody(body)
      case NotAnObject => InternalError
      case Fields(data) =>
        var musicNo := Get(data, "music_no");
        if !Truthy(musicNo) then Refusal(400, MusicNoRequired)
        else match add(playlistNo, musicNo)
          case Raised(e) => Refusal(500, e)
          case Returned((ok, message)) =>
            if ok then Reply(201, true, Some(message), Some(JObject(map["playlist_no" := JInt(playlistNo), "music_no" := musicNo])))
            else Refusal(400, message)
  }

  /** A track is added, and the playlist and track numbers echoed, exactly
      when the caller owns the playlist, the body names a truthy `music_no`
      and the service reports success. */
  lemma AddMusicSucceeds(playlistNo: int, header: Option<string>, owner: int -> RowLookup, body: Option<Json>,
                         add: (int, Json) -> Outcome<(bool, string)>)
    ensures var r := AddMusic(playlistNo, header, owner, body, add);
            r.Reply? && r.success <==>
              && Guard(header, owner, playlistNo).None?
              && ReadBody(body).Fields?
              && Truthy(Get(ReadBody(body).fields, "music_no"))
              && add(playlistNo, Get(ReadBody(body).fields, "music_no")).Returned?
              && add(playlistNo, Get(ReadBody(body).fields, "music_no")).value.0
    ensures var r := AddMusic(playlistNo, header, owner, body, add);
            r.Reply? && r.success ==>
              r.data == Some(JObject(map["playlist_no" := JInt(playlistNo), "music_no" := Get(ReadBody(body).fields, "music_no")]))
  {
  }

  /** `music_no` is looked at only after the caller is known and owns the
      playlist: a missing or zero track number from a stranger is refused for
      ownership, not for the field. */
  lemma AddMusicFieldAfterOwner(playlistNo: int, header: Option<string>, owner: int -> RowLookup,
                                add: (int, Json) -> Outcome<(bool, string)>)
    requires Guard(header, owner, playlistNo).Some?
    ensures AddMusic(playlistNo, header, owner, Some(JObject(map[])), add) == Guard(header, owner, playlistNo).value
    ensures AddMusic(playlistNo, header, owner, Some(JObject(map["music_no" := JInt(0)])), add) == Guard(header, owner, playlistNo).value
  {
  }

  /** A falsy `music_no` from the owner is 400: absent, `0` or `""`. */
  lemma FalsyMusicNoRefused(playlistNo: int, header: Option<string>, owner: int -> RowLookup,
                            musicNo: Json, add: (int, Json) -> Outcome<(bool, string)>)
    requires Guard(header, owner, playlistNo).None?
    requires !Truthy(musicNo)
    ensures AddMusic(playlistNo, header, owner, None, add) == Refusal(400, MusicNoRequired)
    ensures AddMusic(playlistNo, header, owner, Some(JObject(map["music_no" := musicNo])), add) == Refusal(400, MusicNoRequired)
  {
    var fields := map["music_no" := musicNo];
    assert fields != map[] by {
      assert "music_no" in fields;
    }
    assert ReadBody(Some(JObject(fields))) == Fields(fields);
    assert Get(fields, "music_no") == musicNo;
  }

  /** `remove_music`. */
  function RemoveMusic(playlistNo: int, musicNo: int, header: Option<string>, owner: int -> RowLookup,
                       remove: (int, int) -> Outcome<(bool, string)>): (r: Response)
    ensures Guard(header, owner, playlistNo).Some? ==> r == Guard(header, owner, playlistNo).value
    ensures Guard(header, owner, playlistNo).None? ==> r == ServiceReply(remove(playlistNo, musicNo))
    ensures r.Reply? && r.status in {200, 400, 401, 403, 404, 500}
  {
    match Guard(header, owner, playlistNo)
    case Some(stop) => stop
    case None => ServiceReply(remove(playlistNo, musicNo))
  }

  /** `clear_playlist`. */
  function ClearPlaylist(playlistNo: int, header: Option<string>, owner: int -> RowLookup,
                         clear: int -> Outcome<(bool, string)>): (r: Response)
    ensures Guard(header, owner, playlistNo).Some? ==> r == Guard(header, owner, playlistNo).value
    ensures Guard(header, owner, playlistNo).None? ==> r == ServiceReply(clear(playlistNo))
    ensures r.Reply? && r.status in {200, 400, 401, 403, 404, 500}
  {
    match Guard(header, owner, playlistNo)
    case Some(stop) => stop
    case None => ServiceReply(clear(playlistNo))
  }

  /** A playlist's tracks are changed only on behalf of its owner. */
  lemma MutationsNeedOwner(playlistNo: int, musicNo: int, header: Option<string>, owner: int -> RowLookup,
                           remove: (int, int) -> Outcome<(bool, string)>, clear: int -> Outcome<(bool, string)>)
    requires RemoveMusic(playlistNo, musicNo, header, owner, remove).success
          || ClearPlaylist(playlistNo, header, owner, clear).success
    ensures UserNoFromHeader(header).Parsed? && owner(playlistNo).Fetched? && RowFound(owner(playlistNo).row)
    ensures Get(owner(playlistNo).row.value, "user_no") == JInt(UserNoFromHeader(header).value)
  {
  }

  /** `len(value) if value else 0`; `None` for a value without a length, for
      which `len` raises. */
  function CountOf(value: Json): (n: Option<nat>)
    ensures value.JNull? ==> n == Some(0)
    ensures value.JList? ==> n == Some(|value.items|)
    ensures n.None? <==> Truthy(value) && (value.JInt? || value.JBool?)
  {
    match value
    case JNull => Some(0)
    case JList(items) => Some(|items|)
    case JObject(fields) => Some(|fields|)
    case JStr(s) => Some(|s|)
    case JInt(i) => if i == 0 then Some(0) else None
    case JBool(b) => if b then None else Some(0)
  }

  /** The text of the `TypeError` that `len` raises on a number or a boolean. */
  function NoLenMessage(value: Json): string {
    "object of type '" + (if value.JBool? then "bool" else "int") + "' has no len()"
  }

  /** The list handlers: on success the key and the list are echoed with
      their count; a service error is 500. */
  function CountedList(outcome: Outcome<(Json, Option<string>)>, key: string, no: int, listKey: string): (r: Response)
    ensures r.Reply? && r.status in {200, 500} && (r.success <==> r.status == 200)
    ensures outcome.Raised? ==> r == Refusal(500, outcome.error)
    ensures outcome.Returned? && IsError(outcome.value.1) ==> r == Refusal(500, outcome.value.1.value)
    ensures r.success <==> outcome.Returned? && !IsError(outcome.value.1) && CountOf(outcome.value.0).Some?
    ensures r.success ==> r.data == Some(JObject(map[key := JInt(no), listKey := outcome.value.0,
                                                     "count" := JInt(CountOf(outcome.value.0).value)]))
  {
    match outcome
    case Raised(e) => Refusal(500, e)
    case Returned((value, error)) =>
      if IsError(error) then Refusal(500, error.value)
      else match CountOf(value)
        case None => Refusal(500, NoLenMessage(value))
        case Some(n) => Reply(200, true, None, Some(JObject(map[key := JInt(no), listKey := value, "count" := JInt(n)])))
  }

  /** `get_music_list`. */
  function MusicList(playlistNo: int, outcome: Outcome<(Json, Option<string>)>): (r: Response)
    ensures r.Reply? && r.status in {200, 500}
    ensures r.success ==> outcome.Returned? && CountOf(outcome.value.0).Some?
    ensures r.success ==> r.data == Some(JObject(map["playlist_no" := JInt(playlistNo), "music_list" := outcome.value.0,
                                                     "count" := JInt(CountOf(outcome.value.0).value)]))
  {
    CountedList(outcome, "playlist_no", playlistNo, "music_list")
  }

  /** `get_playlists_by_music`. */
  function PlaylistsByMusic(musicNo: int, outcome: Outcome<(Json, Option<string>)>): (r: Response)
    ensures r.Reply? && r.status in {200, 500}
    ensures r.success ==> outcome.Returned? && CountOf(outcome.value.0).Some?
    ensures r.success ==> r.data == Some(JObject(map["music_no" := JInt(musicNo), "playlists" := outcome.value.0,
                                                     "count" := JInt(CountOf(outcome.value.0).value)]))
  {
    CountedList(outcome, "music_no", musicNo, "playlists")
  }

  /** The count sent with a list of rows is its length, and an empty or
      missing list counts 0. */
  lemma CountIsLength(playlistNo: int, rows: seq<Json>)
    ensures MusicList(playlistNo, Returned((JList(rows), None))).data
         == Some(JObject(map["playlist_no" := JInt(playlistNo), "music_list" := JList(rows), "count" := JInt(|rows|)]))
    ensures MusicList(playlistNo, Returned((JNull, None))).data
         == Some(JObject(map["playlist_no" := JInt(playlistNo), "music_list" := JNull, "count" := JInt(0)]))
  {
  }
}
