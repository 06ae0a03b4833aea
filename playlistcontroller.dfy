/** The playlist handlers of the backend (backend/controllers/playlist.py).
    Each is an early-return cascade: the `X-User-No` header, then the user or
    owner lookup, then the body, then the service. The service and the user
    lookup are parameters, called with the values the handler passes them. */
module PlaylistController {
  import opened Common
  import opened Backend

  const NoSuchUser := "존재하지 않는 사용자"
  const PlaylistNotFound := "존재하지 않는 플레이리스트"
  const NotOwner := "권한이 없습니다 (본인의 플레이리스트만 수정/삭제 가능)"
  const TitleRequired := "title 필드가 필요합니다."

  /** `_check_user_exists`: the message of a failed check, `None` when the
      user exists. */
  function UserError(lookup: RowLookup): (err: Option<string>)
    ensures err.None? <==> lookup.Fetched? && RowFound(lookup.row)
    ensures lookup.NoConnection? ==> err == Some(DbDown)
    ensures lookup.Fetched? && !RowFound(lookup.row) ==> err == Some(NoSuchUser)
    ensures lookup.QueryFailed? ==> err == Some(lookup.message)
  {
    match lookup
    case NoConnection => Some(DbDown)
    case QueryFailed(message) => Some(message)
    case Fetched(row) => if RowFound(row) then None else Some(NoSuchUser)
  }

  /** A failed user check: 404 for the not-found message only, 500 otherwise. */
  function UserRefusal(err: string): (r: Response)
    ensures r.Reply? && !r.success && r.message == Some(err)
    ensures r.status == 404 <==> err == NoSuchUser
    ensures r.status in {404, 500}
  {
    Refusal(if err == NoSuchUser then 404 else 500, err)
  }

  /** `_check_playlist_owner`, given what `find_playlist_by_no` returned: the
      message of a failed check, `None` when `userNo` owns the playlist. */
  function OwnerError(found: (Option<map<string, Json>>, Option<string>), userNo: int): (err: Option<string>)
    ensures err.None? <==> !IsError(found.1) && RowFound(found.0) && Get(found.0.value, "user_no") == JInt(userNo)
    ensures err.Some? ==> err.value in {PlaylistNotFound, NotOwner}
    ensures err == Some(PlaylistNotFound) <==> IsError(found.1) || !RowFound(found.0)
  {
    var (playlist, error) := found;
    if IsError(error) || !RowFound(playlist) then Some(PlaylistNotFound)
    else if Get(playlist.value, "user_no") != JInt(userNo) then Some(NotOwner)
    else None
  }

  /** A failed owner check: 404 for the not-found message, 403 otherwise. */
  function OwnerRefusal(err: string): (r: Response)
    ensures r.Reply? && !r.success && r.message == Some(err)
    ensures r.status == 404 <==> err == PlaylistNotFound
    ensures r.status in {403, 404}
  {
    Refusal(if err == PlaylistNotFound then 404 else 403, err)
  }

  /** The owner check of this controller can only end in 404 or 403, the
      lookup error and the missing playlist alike in 404. */
  lemma OwnerCheckStatuses(found: (Option<map<string, Json>>, Option<string>), userNo: int)
    requires OwnerError(found, userNo).Some?
    ensures var r := OwnerRefusal(OwnerError(found, userNo).value);
            (r.status == 404 <==> IsError(found.1) || !RowFound(found.0))
            && (r.status == 403 <==> !IsError(found.1) && RowFound(found.0) && Get(found.0.value, "user_no") != JInt(userNo))
  {
  }

  /** `create_playlist`. `userLookup` is the user check for a number,
      `create` is `playlist_svc.create_playlist(user_no, title, content)`,
      returning the new number and an error. */
  function CreatePlaylist(header: Option<string>, userLookup: int -> RowLookup, body: Option<Json>,
                          create: (int, Json, Json) -> Outcome<(Json, Option<string>)>): (r: Response)
    ensures UserNoFromHeader(header).Rejected? ==> r == UserNoFromHeader(header).response
    ensures UserNoFromHeader(header).Parsed? && UserError(userLookup(UserNoFromHeader(header).value)).Some?
            ==> r == UserRefusal(UserError(userLookup(UserNoFromHeader(header).value)).value)
    ensures r.Reply? && r.status == 201 ==> r.success
    ensures r.Reply? && r.success ==> r.status == 201
    ensures r.Reply? ==> r.status in {201, 400, 401, 404, 500}
  {
    match UserNoFromHeader(header)
    case Rejected(response) => response
    case Parsed(userNo) =>
      match UserError(userLookup(userNo))
      case Some(err) => UserRefusal(err)
      case None =>
        match ReadBody(body)
        case NotAnObject => InternalError
        case Fields(data) =>
          var title := Get(data, "title");
          var content := Get(data, "content");
          if !Truthy(title) then Refusal(400, TitleRequired)
          else match create(userNo, title, content)
            case Raised(e) => Refusal(500, e)
            case Returned((playlistNo, error)) =>
              if IsError(error) then Refusal(400, error.value)
              else Reply(201, true, None, Some(JObject(map["playlist_no" := playlistNo, "user_no" := JInt(userNo),
                                                            "title" := title, "content" := content])))
  }

  /** A playlist is created, with the number, user, title and content echoed,
      exactly when the header names an existing user, the body has a truthy
      title and the service answers without an error. */
  lemma CreateSucceeds(header: Option<string>, userLookup: int -> RowLookup, body: Option<Json>,
                       create: (int, Json, Json) -> Outcome<(Json, Option<string>)>)
    ensures var r := CreatePlaylist(header, userLookup, body, create);
            r.Reply? && r.success <==>
              && UserNoFromHeader(header).Parsed?
              && UserError(userLookup(UserNoFromHeader(header).value)).None?
              && ReadBody(body).Fields?
              && Truthy(Get(ReadBody(body).fields, "title"))
              && create(UserNoFromHeader(header).value, Get(ReadBody(body).fields, "title"), Get(ReadBody(body).fields, "content")).Returned?
              && !IsError(create(UserNoFromHeader(header).value, Get(ReadBody(body).fields, "title"), Get(ReadBody(body).fields, "content")).value.1)
    ensures var r := CreatePlaylist(header, userLookup, body, create);
            r.Reply? && r.success ==>
              var userNo := UserNoFromHeader(header).value;
              var title := Get(ReadBody(body).fields, "title");
              var content := Get(ReadBody(body).fields, "content");
              r.data == Some(JObject(map["playlist_no" := create(userNo, title, content).value.0, "user_no" := JInt(userNo),
                                         "title" := title, "content" := content]))
  {
  }

  /** The header is checked before anything else: a refused header gives the
      same answer whatever the user table, body and service would do. */
  lemma CreateHeaderFirst(header: Option<string>, body1: Option<Json>, body2: Option<Json>,
                          lookup1: int -> RowLookup, lookup2: int -> RowLookup,
                          create1: (int, Json, Json) -> Outcome<(Json, Option<string>)>,
                          create2: (int, Json, Json) -> Outcome<(Json, Option<string>)>)
    requires UserNoFromHeader(header).Rejected?
    ensures CreatePlaylist(header, lookup1, body1, create1) == CreatePlaylist(header, lookup2, body2, create2)
    ensures StatusOf(CreatePlaylist(header, lookup1, body1, create1)) in {400, 401}
  {
  }

  /** The user check comes before the body: for a missing user the body and
      the service do not matter. */
  lemma CreateUserBeforeTitle(header: Option<string>, userLookup: int -> RowLookup, body1: Option<Json>, body2: Option<Json>,
                              create1: (int, Json, Json) -> Outcome<(Json, Option<string>)>,
                              create2: (int, Json, Json) -> Outcome<(Json, Option<string>)>)
    requires UserNoFromHeader(header).Parsed?
    requires UserError(userLookup(UserNoFromHeader(header).value)).Some?
    ensures CreatePlaylist(header, userLookup, body1, create1) == CreatePlaylist(header, userLookup, body2, create2)
  {
  }

  /** A falsy title is refused with 400 before the service is called. */
  lemma CreateTitleBeforeService(header: Option<string>, userLookup: int -> RowLookup, fields: map<string, Json>,
                                 create1: (int, Json, Json) -> Outcome<(Json, Option<string>)>,
                                 create2: (int, Json, Json) -> Outcome<(Json, Option<string>)>)
    requires UserNoFromHeader(header).Parsed?
    requires UserError(userLookup(UserNoFromHeader(header).value)).None?
    requires !Truthy(Get(fields, "title"))
    ensures CreatePlaylist(header, userLookup, Some(JObject(fields)), create1) == Refusal(400, TitleRequired)
    ensures CreatePlaylist(header, userLookup, Some(JObject(fields)), create2) == Refusal(400, TitleRequired)
  {
  }

  /** `update_playlist`. `find` is `find_playlist_by_no`, `update` is
      `playlist_svc.update_playlist(playlist_no, title, content)`. */
  function UpdatePlaylist(playlistNo: int, header: Option<string>, find: int -> (Option<map<string, Json>>, Option<string>),
                          body: Option<Json>, update: (int, Json, Json) -> Outcome<(bool, string)>): (r: Response)
    ensures UserNoFromHeader(header).Rejected? ==> r == UserNoFromHeader(header).response
    ensures UserNoFromHeader(header).Parsed? && OwnerError(find(playlistNo), UserNoFromHeader(header).value).Some?
            ==> r == OwnerRefusal(OwnerError(find(playlistNo), UserNoFromHeader(header).value).value)
    ensures r.Reply? ==> r.status in {200, 400, 401, 403, 404, 500} && (r.success <==> r.status == 200)
  {
    match UserNoFromHeader(header)
    case Rejected(response) => response
    case Parsed(userNo) =>
      match OwnerError(find(playlistNo), userNo)
      case Some(err) => OwnerRefusal(err)
      case None =>
        match ReadBody(body)
        case NotAnObject => InternalError
        case Fields(data) =>
          var title := Get(data, "title");
          if !Truthy(title) then Refusal(400, TitleRequired)
          else ServiceReply(update(playlistNo, title, Get(data, "content")))
  }

  /** Ownership is checked before the title: someone else's playlist is
      refused whatever the body holds, and the service is never asked. */
  lemma UpdateOwnerBeforeTitle(playlistNo: int, header: Option<string>, find: int -> (Option<map<string, Json>>, Option<string>),
                               body1: Option<Json>, body2: Option<Json>,
                               update1: (int, Json, Json) -> Outcome<(bool, string)>,
                               update2: (int, Json, Json) -> Outcome<(bool, string)>)
    requires UserNoFromHeader(header).Parsed?
    requires OwnerError(find(playlistNo), UserNoFromHeader(header).value).Some?
    ensures UpdatePlaylist(playlistNo, header, find, body1, update1) == UpdatePlaylist(playlistNo, header, find, body2, update2)
    ensures StatusOf(UpdatePlaylist(playlistNo, header, find, body1, update1)) in {403, 404}
  {
  }

  /** The owner with a truthy title gets the service's answer. */
  lemma UpdateByOwner(playlistNo: int, header: Option<string>, find: int -> (Option<map<string, Json>>, Option<string>),
                      fields: map<string, Json>, update: (int, Json, Json) -> Outcome<(bool, string)>)
    requires UserNoFromHeader(header).Parsed?
    requires OwnerError(find(playlistNo), UserNoFromHeader(header).value).None?
    ensures !Truthy(Get(fields, "title")) ==> UpdatePlaylist(playlistNo, header, find, Some(JObject(fields)), update) == Refusal(400, TitleRequired)
    ensures Truthy(Get(fields, "title")) ==>
              UpdatePlaylist(playlistNo, header, find, Some(JObject(fields)), update)
              == ServiceReply(update(playlistNo, Get(fields, "title"), Get(fields, "content")))
  {
  }

  /** `delete_playlist`. */
  function DeletePlaylist(playlistNo: int, header: Option<string>, find: int -> (Option<map<string, Json>>, Option<string>),
                          delete: int -> Outcome<(bool, string)>): (r: Response)
    ensures UserNoFromHeader(header).Rejected? ==> r == UserNoFromHeader(header).response
    ensures UserNoFromHeader(header).Parsed? && OwnerError(find(playlistNo), UserNoFromHeader(header).value).Some?
            ==> r == OwnerRefusal(OwnerError(find(playlistNo), UserNoFromHeader(header).value).value)
    ensures UserNoFromHeader(header).Parsed? && OwnerError(find(playlistNo), UserNoFromHeader(header).value).None?
            ==> r == ServiceReply(delete(playlistNo))
    ensures r.Reply? && r.status in {200, 400, 401, 403, 404, 500}
  {
    match UserNoFromHeader(header)
    case Rejected(response) => response
    case Parsed(userNo) =>
      match OwnerError(find(playlistNo), userNo)
      case Some(err) => OwnerRefusal(err)
      case None => ServiceReply(delete(playlistNo))
  }

  /** Only the owner can delete: a playlist is deleted only when the header
      names the user it belongs to and the service reports success. */
  lemma DeleteOnlyByOwner(playlistNo: int, header: Option<string>, find: int -> (Option<map<string, Json>>, Option<string>),
                          delete: int -> Outcome<(bool, string)>)
    requires DeletePlaylist(playlistNo, header, find, delete).Reply? && DeletePlaylist(playlistNo, header, find, delete).success
    ensures UserNoFromHeader(header).Parsed?
    ensures RowFound(find(playlistNo).0) && Get(find(playlistNo).0.value, "user_no") == JInt(UserNoFromHeader(header).value)
    ensures delete(playlistNo) == Returned((true, DeletePlaylist(playlistNo, header, find, delete).message.value))
  {
    assert UserNoFromHeader(header).Parsed?;
    assert OwnerError(find(playlistNo), UserNoFromHeader(header).value).None?;
  }

  /** `get_playlist_list` and `get_user_playlist_list`: a service error is 500. */
  function ListPlaylists(outcome: Outcome<(Json, Option<string>)>): (r: Response)
    ensures r.Reply? && r.status in {200, 500}
    ensures r.status == 200 <==> outcome.Returned? && !IsError(outcome.value.1)
    ensures r.status == 200 ==> r.data == Some(outcome.value.0)
  {
    ReadReply(outcome, 500)
  }

  /** `get_playlist_detail`: a service error is 404, an exception 500. */
  function PlaylistDetail(outcome: Outcome<(Json, Option<string>)>): (r: Response)
    ensures r.Reply? && r.status in {200, 404, 500}
    ensures r.status == 404 <==> outcome.Returned? && IsError(outcome.value.1)
    ensures r.status == 500 <==> outcome.Raised?
    ensures r.status == 200 ==> r.data == Some(outcome.value.0)
  {
    ReadReply(outcome, 404)
  }
}
