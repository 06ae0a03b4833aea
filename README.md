# Listify, modelled in Dafny

Listify is a music and playlist application: a React client and a Flask
backend. This project models the decision logic of both halves. On the
client it covers these parts:

- the cart, keyed by Spotify URL;
- the search box, which sends `#`-queries to genre search through a fixed
  alias table and everything else to text search;
- saving the cart as a new playlist;
- refreshing the user's playlists, each with its own tracks;
- deleting a playlist and removing a track;
- the catalog request paths built with `encodeURIComponent`, and the
  request headers;
- the session hook: who is signed in, and which sign-in screen shows.

On the backend it covers these parts:

- the input validators of the account service;
- the sign-up and sign-in cascades;
- the controllers of accounts, playlists and playlist tracks, each an
  early-return chain from the request to a `(body, status)` response.

Calls to the server, the database, bcrypt, the JWT library, local storage,
the confirmation dialog and the clock are not modelled. Each becomes a
parameter: a function from the request to its answer. The model then says
what each handler does for every possible answer.

Modules, one per file:

- `Common`: options, replies, white space of JavaScript and Python, `trim`
  and `strip`, `split`.
- `Decimal`: `parseInt`, `String(n)` and Python's `int()` on decimal text.
- `Cart`: the cart operations.
- `Uri`: `encodeURIComponent` and a percent-decoder.
- `MusicService`: request paths and headers, and a reader of request
  targets.
- `Search`: genre aliases and query dispatch.
- `App`: class `AppModel`, the state of the top-level component and its
  handlers.
- `Session`: class `AuthState`, the session hook.
- `AuthService`: validators, sign-up, sign-in and token checking.
- `Backend`: JSON values, responses, the `X-User-No` header and service
  replies.
- `AuthController`, `PlaylistController`, `MusicListController`: the three
  controllers.

Where the client mutates state step by step, the model is imperative. The
`AppModel` and `AuthState` methods state their whole new state through a
`State()` snapshot, or through their fields. `SavePlaylist` keeps the
source's attach loop as a `while` loop with invariants. Everything else is
functions and lemmas.

## Model

| member | source | states |
|---|---|---|
| Cart.Toggle | frontend/App.tsx:264-271 | A song whose URL is not in the cart is appended at the end. Otherwise every entry with that URL is removed and the rest keep their order. |
| Cart.Without | frontend/App.tsx:693 | `onRemove(url)` keeps exactly the entries whose URL differs from `url`, in order. |
| Cart.WithoutKeepsUnique | frontend/App.tsx:693 | Removing entries keeps the URLs of the cart pairwise distinct. |
| Cart.ToggleRemovesInOrder | frontend/App.tsx:264-271 | Toggling a song already in the cart leaves the other entries in their order. |
| Cart.ToggleTwice | frontend/App.tsx:264-271 | Toggling the same song twice, from a cart without its URL, restores the cart. |
| Cart.ToggleKeepsUnique | frontend/App.tsx:264-271 | Toggle never creates two entries with equal URL. |
| Uri.Encode | frontend/services/musicService.ts:28 | The encoding holds only unreserved characters and `%XX` escapes, so never `&`, `=`, `?`, `#`, `+` or a space. |
| Uri.DecodeEncode | frontend/services/musicService.ts:28 | Percent-decoding the encoding of any string gives the string back. |
| MusicService.SearchPathReadsBack | frontend/services/musicService.ts:27-33 | The search path reads back as `/music/search` with `q` as given, plus `category` only when a non-empty category was passed. |
| MusicService.GenrePathReadsBack | frontend/services/musicService.ts:40-41 | The genre path reads back as `/music` with `category=genre` and `value` as given, whatever the genre holds. |
| MusicService.FixedPathsReadBack | frontend/services/musicService.ts:36-45 | The all-music and top-50 paths are `/music` and `/music/top50`, with no parameters. |
| MusicService.AuthHeaders | frontend/services/musicService.ts:13-20 | `Content-Type` is always JSON. `Authorization` is `Bearer <token>` exactly when a non-empty token exists. No other header is sent. |
| Common.StripEmptyIff | frontend/App.tsx:163 | A query trims to nothing exactly when every character is white space. |
| Search.RequestFor | frontend/App.tsx:163-224 | A blank query makes no request. A `#` query asks for the resolved genre. Any other query goes verbatim to text search. |
| Search.ResolveGenre | frontend/App.tsx:170-211 | The alias's genre when the trimmed, lower-cased text is an alias. The text of an inherited object member for `constructor` and `__proto__`. Otherwise the untrimmed text after `#`. |
| Search.AliasKeysCanonical | frontend/App.tsx:173-209 | Every alias key is non-empty, has no surrounding white space and has no upper-case letter. |
| Search.ResolvePaddedAlias | frontend/App.tsx:170-211 | An alias resolves to its genre whatever white space surrounds it and whatever the case of its letters. |
| Search.ResolveUnknownKeepsText | frontend/App.tsx:211 | A genre that is neither an alias nor an inherited name is sent as typed after the `#`, with its surrounding white space and its case. |
| Search.ResolveInherited | frontend/App.tsx:211 | `constructor` or `__proto__`, in any case and with any white space around it, sends the text of the inherited value (`Object`'s source text, `[object Object]`) as the genre. |
| Search.GenreQueryTarget | frontend/App.tsx:169-214 | Every `#` query, `#` alone or followed only by white space included, requests `/music` with `category=genre` and the resolved genre as its only parameters. |
| Search.TextQueryTarget | frontend/App.tsx:222-225 | Any other non-blank query requests `/music/search` with the query, exactly as typed and with any white space around it, as the only parameter. |
| App.MergeTracks | frontend/App.tsx:94-106 | The merged collection has the listed playlists in order. Each has the tracks of its own fetch, or `[]` when that fetch did not deliver a list. |
| App.RefreshMirrorsList | frontend/App.tsx:89-116 | A successful refresh installs the listed playlists in order, each equal to the listed one with its own fetched tracks as `music_items`. `playlistCount` is their number and loading ends. |
| App.RefreshTwice | frontend/App.tsx:89-116 | A second refresh against the same server leaves the state the first one made. |
| App.RefreshAllOrNothing | frontend/App.tsx:89-116 | One track fetch that throws leaves the collection and its count as they were, and loading ends. |
| App.TrackCalls | frontend/App.tsx:94-96 | A refresh fetches tracks once per listed playlist, in list order. |
| App.AttachCalls | frontend/App.tsx:295-297 | Saving attaches one call per cart entry, in cart order, with that entry's `music_no`. |
| App.FirstThrow | frontend/App.tsx:295-297 | The first attach that throws, if any, and no earlier attach throws. |
| App.FindPlaylist | frontend/App.tsx:321 | `find` returns the first playlist with the number, or nothing when none has it. |
| App.AppModel.constructor | frontend/App.tsx:34-59 | The initial component state: no user, empty cart, closed views, no playlists, empty query. |
| App.AppModel.FetchPlaylists | frontend/App.tsx:89-116 | The calls are the list, then one track fetch per playlist. The new state is the refreshed one. A count equal to the collection's length stays equal. |
| App.AppModel.SignIn | frontend/App.tsx:402-412 | The login callback sets the user and refreshes that user's playlists. |
| App.AppModel.LoadUserData | frontend/App.tsx:119-144 | The effect on the user's number: no user, no call. Otherwise the profile is fetched; a throwing fetch ends there with the state unchanged, any other answer is followed by a refresh. |
| App.AppModel.SignInThenLoad | frontend/App.tsx:119-144 | A sign-in followed by the effect it triggers makes the callback's refresh, a profile fetch and, unless that throws, a second refresh. The final state is the one the first refresh made. |
| App.AppModel.ToggleCart | frontend/App.tsx:264-271 | Only the cart changes, to `Toggle`. A cart with distinct URLs keeps them distinct. |
| App.AppModel.RemoveFromCart | frontend/App.tsx:693 | Only the cart changes, to `Without`. A cart with distinct URLs keeps them distinct. |
| App.AppModel.ClearCart | frontend/App.tsx:694 | Only the cart changes, to empty. |
| App.AppModel.SetSearchQuery | frontend/App.tsx:46 | Only the query changes. |
| App.AppModel.HandleSearch | frontend/App.tsx:161-238 | A blank query changes nothing and calls nothing. Otherwise one catalog call is made. The results are its data when delivered, else `[]`, and searching ends. |
| App.AppModel.ShowSearchResults | frontend/App.tsx:165-236 | The spinner ends hidden, the results shown are the ones given, and nothing else in the state changes. |
| App.AppModel.SelectPlaylist | frontend/App.tsx:274-277 | Selects the playlist and opens the detail view, nothing else. |
| App.AppModel.SavePlaylist | frontend/App.tsx:281-311 | No user: nothing. A failed create: no attach, state unchanged. A throwing attach: the attaches up to it, state unchanged. Otherwise: create, one attach per entry in order, the cart emptied and closed, then a refresh. |
| App.AppModel.CloseSavedCart | frontend/App.tsx:300-301 | The cart is empty and closed, and nothing else in the state changes. |
| App.AppModel.DeleteSelected | frontend/App.tsx:330-347 | No selection or a declined confirm: no call, no change. Success with a user: refresh, then selection cleared and detail closed. Failure: the selection and detail view stay. |
| App.AppModel.RemoveSelectedTrack | frontend/App.tsx:314-327 | On success with a user it refreshes. It then re-selects the playlist with the same number from the collection as read before the refresh, and leaves the selection when none is found. |
| Decimal.JsParseIntShow | frontend/hooks/useAuth.ts:17 | `parseInt(String(n))` is `n`. |
| Session.OrElse | frontend/hooks/useAuth.ts:16-17 | A missing or empty stored entry gives the fallback; any other gives the entry. |
| Session.RestoredUserNo | frontend/hooks/useAuth.ts:17 | A stored `String(n)` restores user number `n`. No stored number restores 0. |
| Session.RestoredUserNoPrefix | frontend/hooks/useAuth.ts:17 | A stored number followed by other text restores the leading digits, as `parseInt` reads them. |
| Session.AuthState.constructor | frontend/hooks/useAuth.ts:6-7 | Initially no user and the login screen, so exactly one of the two is set. |
| Session.AuthState.CheckAuth | frontend/hooks/useAuth.ts:11-29 | A non-empty stored token that verifies restores the user from storage, with the response's role, and leaves the sign-in screens. Otherwise nothing changes. |
| Session.AuthState.LoginSuccess | frontend/hooks/useAuth.ts:33-43 | The user gets the given number and nickname, role 1, empty email, no picture. The screen is cleared. |
| Session.AuthState.Logout | frontend/hooks/useAuth.ts:45-49 | The stored token is removed, there is no user and the login screen shows. |
| Session.AuthState.SetAuthView | frontend/hooks/useAuth.ts:54 | Switches the sign-in screen and nothing else. |
| AuthService.WholeMatchIff | backend/services/auth.py:20-23 | The matcher's reading of the e-mail pattern accepts exactly the strings that can be cut into local part, `@`, host, `.` and two letters or more. |
| AuthService.ValidateEmailIff | backend/services/auth.py:20-23 | `validate_email` accepts exactly the pattern's addresses, each possibly followed by one newline. |
| AuthService.ValidEmailOneAt | backend/services/auth.py:20-23 | An accepted address holds exactly one `@`. |
| AuthService.SampleEmailValid | backend/test_auth.py:16 | `test@example.com` is accepted. |
| AuthService.ValidatePassword | backend/services/auth.py:25-41 | Valid iff the length is 6 to 30 and two of the three kinds are present. The short and long messages come before the kinds check. |
| AuthService.SamplePasswordValid | backend/test_auth.py:17 | `test123!` is accepted. |
| AuthService.DigitsOnlyRefused | backend/services/auth.py:33-39 | A password of digits alone is refused with the kinds message. |
| AuthService.ValidateNickname | backend/services/auth.py:43-51 | Valid iff present, not all white space, and at most 30 characters before stripping. |
| AuthService.StoredNicknameFits | backend/services/auth.py:76 | The stripped nickname that sign-up stores is non-empty and at most 30 characters. |
| AuthService.RegisterUser | backend/services/auth.py:53-81 | Insertion is attempted iff all validators pass and the e-mail is free. The inserted row has role 1, the hash and the stripped nickname. The first failing check's message is returned. |
| AuthService.RejectedInputSkipsStore | backend/services/auth.py:53-67 | Invalid input is refused whatever the user table, hash and insert would do. |
| AuthService.SampleAccountRegisters | backend/test_auth.py:15-26 | The sample account signs up when its address is free and the insert succeeds. |
| AuthService.LoginUser | backend/services/auth.py:83-101 | A token is returned iff sign-in succeeds. That needs non-empty credentials, a stored user and a matching password, and the token is signed for that user's number and role. |
| AuthService.MissingCredentialsSkipLookup | backend/services/auth.py:86-87 | Empty credentials are refused without a lookup. |
| AuthService.VerifyJwtToken | backend/services/auth.py:113-121 | Decoded claims are returned as they are. Expiry and invalidity give their two messages. |
| AuthController.Register | backend/controllers/auth.py:4-20 | A missing body or field is 400 with the fields message. Otherwise 200 or 400 with the service's message. |
| AuthController.RegisterNeedsValidInput | backend/controllers/auth.py:8-18 | A successful sign-up comes from a complete, valid body with a free address and a successful insert. |
| AuthController.Login | backend/controllers/auth.py:22-41 | Missing fields are 400. A service refusal is 401. Success is 200 with the token and type `Bearer`. |
| AuthController.LoginIssuesTokenForUser | backend/controllers/auth.py:29-39 | The token handed out is the one signed for the stored user whose password matched. |
| AuthController.VerifyToken | backend/controllers/auth.py:43-67 | A missing or empty header is 401. A header without a space is 401 with the format message. Only 200 and 401 occur. |
| AuthController.TokenReply | backend/controllers/auth.py:55-67 | Valid claims give 200 with the user and role numbers. A refusal gives 401 with the service's message. |
| AuthController.SplitSecondWord | backend/controllers/auth.py:51 | A header `scheme token rest` with no space inside `scheme` or `token`, and `rest` empty or starting with a space, splits into at least two fields: `scheme`, then `token`. |
| AuthController.VerifyTokenIgnoresScheme | backend/controllers/auth.py:50-55 | The decoded token is the second space-separated word. The first word is never checked. |
| AuthController.BearerHeader | backend/controllers/auth.py:43-67 | `Bearer <token>` gives the claims with 200, or 401 with the expiry or invalidity message. |
| Backend.UserNoFromHeader | backend/controllers/playlist.py:7-16 | A missing or empty header is 401. Text `int()` refuses is 400. Otherwise the integer is returned. |
| Backend.HeaderReadsBack | backend/controllers/music_list.py:8-17 | The header `String(n)` is read back as `n`. |
| Backend.ReadBody | backend/controllers/playlist.py:65 | A missing, unparsable or falsy body reads as `{}`. An object reads as its fields. Any other truthy value has no `.get`. |
| Backend.ServiceReply | backend/controllers/playlist.py:108-114 | A mutating service's answer is 200 on success, 400 on failure and 500 with the exception's text. |
| Backend.ReadReply | backend/controllers/playlist.py:139-168 | A read service's value is 200. Its error gets the handler's error status, and an exception 500. |
| PlaylistController.UserError | backend/controllers/playlist.py:19-41 | The user check passes iff a row is found. Otherwise it reports no connection, not found, or the exception's text. |
| PlaylistController.UserRefusal | backend/controllers/playlist.py:60-63 | A failed user check is 404 only for the exact not-found text, else 500. |
| PlaylistController.OwnerError | backend/controllers/playlist.py:44-51 | The owner check passes iff there is no error, the playlist is found and its owner is the caller. A lookup error reads as not found. |
| PlaylistController.OwnerRefusal | backend/controllers/playlist.py:96-99 | A failed owner check is 404 for not found, else 403. |
| PlaylistController.OwnerCheckStatuses | backend/controllers/playlist.py:44-51 | The owner check ends in 404 exactly for an error or a missing playlist, and in 403 exactly for another owner. |
| PlaylistController.CreatePlaylist | backend/controllers/playlist.py:55-86 | The header is checked first, then the user check. Only 201, 400, 401, 404 and 500 occur, and success means 201. |
| PlaylistController.CreateSucceeds | backend/controllers/playlist.py:72-84 | Creation succeeds iff the header and user check pass, the title is truthy and the service reports no error. The number, user, title and content are echoed. |
| PlaylistController.CreateHeaderFirst | backend/controllers/playlist.py:56-58 | A refused header answers 400 or 401, whatever the user table, body and service would do. |
| PlaylistController.CreateUserBeforeTitle | backend/controllers/playlist.py:60-70 | A failed user check answers the same whatever the body and service. |
| PlaylistController.CreateTitleBeforeService | backend/controllers/playlist.py:69-73 | A falsy title is 400 before the service is called. |
| PlaylistController.UpdatePlaylist | backend/controllers/playlist.py:90-114 | Header, then owner check. Only 200, 400, 401, 403, 404 and 500 occur, and success means 200. |
| PlaylistController.UpdateOwnerBeforeTitle | backend/controllers/playlist.py:96-106 | Someone else's playlist is refused with 403 or 404 whatever the body and service. |
| PlaylistController.UpdateByOwner | backend/controllers/playlist.py:101-114 | For the owner, a falsy title is 400 and a truthy one gets the service's answer. |
| PlaylistController.DeletePlaylist | backend/controllers/playlist.py:118-135 | Header, then owner check, then the service's answer as 200, 400 or 500. |
| PlaylistController.DeleteOnlyByOwner | backend/controllers/playlist.py:118-135 | A successful delete means the header named the playlist's owner and the service reported success. |
| PlaylistController.ListPlaylists | backend/controllers/playlist.py:139-157 | The list is 200. A service error or an exception is 500. |
| PlaylistController.PlaylistDetail | backend/controllers/playlist.py:161-168 | The detail is 200. A service error is 404 and an exception 500. |
| MusicListController.OwnerError | backend/controllers/music_list.py:20-44 | The owner check passes iff a row is fetched and owned by the caller. Otherwise it reports no connection, the exception's text, not found, or not owner. |
| MusicListController.OwnerRefusal | backend/controllers/music_list.py:56-57 | A failed owner check is 404 only for the exact not-found text, else 403. |
| MusicListController.DbFailureIsForbidden | backend/controllers/music_list.py:29-44 | A database that cannot be reached, or a failing query, is answered 403, not 500. |
| MusicListController.Guard | backend/controllers/music_list.py:49-57 | The header, then the owner check, stop a mutating handler with 400, 401, 403 or 404. |
| MusicListController.AddMusic | backend/controllers/music_list.py:48-78 | A guard refusal is returned first. For the owner a falsy `music_no` is 400. Only 201, 400, 401, 403, 404 and 500 occur, and success means 201. |
| MusicListController.AddMusicSucceeds | backend/controllers/music_list.py:65-78 | Adding succeeds iff the guard passes, `music_no` is truthy and the service reports success. The playlist and track numbers are echoed. |
| MusicListController.AddMusicFieldAfterOwner | backend/controllers/music_list.py:53-63 | A missing or zero `music_no` from a caller the guard refuses gets the guard's answer, not the field's. |
| MusicListController.FalsyMusicNoRefused | backend/controllers/music_list.py:59-63 | From the owner, a missing body, or any falsy `music_no` (`null`, `0`, `""`, `[]`, `{}`, `false`), is 400 with the `music_no` message. |
| MusicListController.RemoveMusic | backend/controllers/music_list.py:82-99 | The guard's answer, or the service's answer as 200, 400 or 500. |
| MusicListController.ClearPlaylist | backend/controllers/music_list.py:103-120 | The guard's answer, or the service's answer as 200, 400 or 500. |
| MusicListController.MutationsNeedOwner | backend/controllers/music_list.py:82-120 | A successful removal or clear means the header named the playlist's owner. |
| MusicListController.CountOf | backend/controllers/music_list.py:134 | `count` is the length of a truthy list and 0 for `None` or an empty list. `len` fails on a number or a boolean. |
| MusicListController.CountedList | backend/controllers/music_list.py:124-156 | Success echoes the number, the list and its count with 200. A service error or an exception is 500. |
| MusicListController.MusicList | backend/controllers/music_list.py:124-138 | `get_music_list` answers 200 or 500, echoing the playlist number, list and count. |
| MusicListController.PlaylistsByMusic | backend/controllers/music_list.py:142-156 | `get_playlists_by_music` answers 200 or 500, echoing the track number, list and count. |
| MusicListController.CountIsLength | backend/controllers/music_list.py:134 | The count sent with a list of rows is its length, and a missing list counts 0. |

## Left out

- Rendering: every page and component's JSX, the player, the modals and the mock statistics of the profile page.
- Network and storage: `fetch`, local storage, `alert`, `console`, `window.confirm` and `Date` are parameters or dropped. frontend/services/authService.ts is not part of this model. `Logout` assumes its `logout` removes the stored token and nothing else.
- Concurrency: the per-playlist track fetches of a refresh, run together by `Promise.all`, are modelled as an order-preserving map. A rejection is modelled as "some fetch throws".
- App.AppModel.SignInThenLoad: in the source the callback's refresh and the effect's profile fetch and refresh run at the same time and their calls interleave. The model runs them one after the other against one fixed server, so it does not capture that interleaving, nor a server that answers the two refreshes differently.
- App.AppModel.LoadUserData: the profile's email, nickname and picture, merged into `user`, are not part of the modelled state. A successful profile reply without data makes React's state updater throw while rendering; that is not modelled.
- The component's mount effects: its own token check (frontend/App.tsx:63-86, the same steps as `Session.AuthState.CheckAuth` followed by a refresh) and the catalog load into `songs` (frontend/App.tsx:146-158) are not modelled.
- React batching: each handler's state updates are applied at once, in program order, at the point the source calls the setter.
- `handleSearchByGenre`, profile editing, account deletion and the edit-save path of the create modal: not among the modelled operations.
- bcrypt and JWT: hashing, password checking, signing and decoding are parameters. A payload without `user_no` or `role_no`, which would raise in `verify_token`, is not modelled.
- Database: the SQL of the models and of the controllers' own lookups. Only their results are inputs: a row, no connection, or, in the playlist and music-list controllers, which catch them, an exception's text.
- AuthController.Register, AuthController.Login, AuthService.RegisterUser, AuthService.LoginUser: the user lookup, the insert and `bcrypt.checkpw` are total parameters here. On the account path nothing catches an exception they raise, so Flask answers 500. The statuses these members promise (200 or 400 for sign-up, 200, 400 or 401 for sign-in) hold only when none of them raises.
- Routing and the integration test script: the route table and the live-server test are not modelled. The test's sample account appears only as lemmas.
- Unicode: Python's `int()` and `\d` also accept non-ASCII digits, and JavaScript's `toLowerCase` also maps non-ASCII letters. The model uses ASCII digits and ASCII lower-casing.
- Numbers: JSON numbers other than integers, and the float precision of `parseInt` on very long digit strings.
- Request bodies of `register` and `login`: modelled as objects with string values. Bodies that Flask refuses to parse, and non-string field values that would raise inside the service, are not modelled.
- Uncaught exceptions in the playlist controllers: only the truthy non-object body, whose `.get` raises, is modelled, as the framework's 500 page.
- The percent-decoder that reads targets back is strict: it refuses malformed escapes rather than modelling a server's lenient decoding. Strings with lone surrogates, which `encodeURIComponent` refuses, are not modelled.
