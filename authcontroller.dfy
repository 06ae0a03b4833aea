/** The account handlers of the backend (backend/controllers/auth.py):
    sign-up, sign-in and the check of a bearer token. */
module AuthController {
  import opened Common
  import opened AuthService
  import opened Backend

  const FieldsMissing := "이메일, 비밀번호, 닉네임을 모두 입력해주세요."
  const NoAuthHeader := "Authorization 헤더가 없습니다."
  const BadTokenFormat := "토큰 형식이 올바르지 않습니다."
  const TokenAccepted := "유효한 토큰입니다."

  /** `register`. The body is the decoded JSON object with string values;
      `None` stands for a JSON `null`. The user table, bcrypt and the insert
      are the parameters of `RegisterUser`. */
  function Register(body: Option<map<string, string>>, emailTaken: string -> bool,
                    hash: string -> string, insert: NewUser -> bool): (r: Response)
    ensures r.Reply? && r.data.None?
    ensures r.status in {200, 400} && (r.success <==> r.status == 200)
    ensures (body.None? || !("email" in body.value && "password" in body.value && "nickname" in body.value))
            ==> r == Refusal(400, FieldsMissing)
    ensures body.Some? && "email" in body.value && "password" in body.value && "nickname" in body.value ==>
              var reg := RegisterUser(body.value["email"], body.value["password"], body.value["nickname"], emailTaken, hash, insert);
              r.success == reg.ok && r.message == Some(reg.message)
  {
    match body
    case None => Refusal(400, FieldsMissing)
    case Some(data) =>
      if data == map[] || "email" !in data || "password" !in data || "nickname" !in data then Refusal(400, FieldsMissing)
      else
        var reg := RegisterUser(data["email"], data["password"], data["nickname"], emailTaken, hash, insert);
        if reg.ok then Reply(200, true, Some(reg.message), None) else Refusal(400, reg.message)
  }

  /** A user is inserted only from a body that has all three fields and
      passes every validator. */
  lemma RegisterNeedsValidInput(body: Option<map<string, string>>, emailTaken: string -> bool,
                                hash: string -> string, insert: NewUser -> bool)
    requires Register(body, emailTaken, hash, insert).success
    ensures body.Some? && "email" in body.value && "password" in body.value && "nickname" in body.value
    ensures InputAccepted(body.value["email"], body.value["password"], body.value["nickname"])
    ensures !emailTaken(body.value["email"])
    ensures insert(NewUser(1, body.value["email"], hash(body.value["password"]), Strip(body.value["nickname"], IsPySpace)))
  {
  }

  /** `login`: 400 for missing fields, 401 when the service refuses, 200 with
      the token and its type otherwise. */
  function Login(body: Option<map<string, string>>, find: string -> Option<UserRow>,
                 matches: (string, string) -> bool, sign: (int, int) -> string): (r: Response)
    ensures r.Reply? && r.status in {200, 400, 401} && (r.success <==> r.status == 200)
    ensures (body.None? || !("email" in body.value && "password" in body.value)) ==> r == Refusal(400, CredentialsMissing)
    ensures body.Some? && "email" in body.value && "password" in body.value ==>
              var login := LoginUser(body.value["email"], body.value["password"], find, matches, sign);
              (r.success <==> login.ok)
              && (!login.ok ==> r == Refusal(401, login.message))
              && (login.ok ==> r.data == Some(JObject(map["access_token" := JStr(login.token.value),
                                                           "token_type" := JStr("Bearer")])))
  {
    match body
    case None => Refusal(400, CredentialsMissing)
    case Some(data) =>
      if data == map[] || "email" !in data || "password" !in data then Refusal(400, CredentialsMissing)
      else
        var login := LoginUser(data["email"], data["password"], find, matches, sign);
        if login.ok then
          Reply(200, true, Some(login.message),
                Some(JObject(map["access_token" := JStr(login.token.value), "token_type" := JStr("Bearer")])))
        else Refusal(401, login.message)
  }

  /** A token is handed out only for a stored user whose password matches,
      and it is the one signed for that user's number and role. */
  lemma LoginIssuesTokenForUser(body: Option<map<string, string>>, find: string -> Option<UserRow>,
                                matches: (string, string) -> bool, sign: (int, int) -> string)
    requires Login(body, find, matches, sign).success
    ensures body.Some? && "email" in body.value && "password" in body.value
    ensures var row := find(body.value["email"]);
            && row.Some? && matches(body.value["password"], row.value.password)
            && Login(body, find, matches, sign).data
               == Some(JObject(map["access_token" := JStr(sign(row.value.user_no, row.value.role_no)),
                                   "token_type" := JStr("Bearer")]))
  {
  }

  /** The answer to a token once it has been cut out of the header. */
  function TokenReply(check: TokenCheck): (r: Response)
    ensures r.Reply? && (r.success <==> check.Valid?) && r.status == (if check.Valid? then 200 else 401)
    ensures check.Valid? ==> r.data == Some(JObject(map["user_no" := JInt(check.user_no), "role_no" := JInt(check.role_no)]))
    ensures check.Refused? ==> r == Refusal(401, check.message)
  {
    match check
    case Valid(userNo, roleNo) =>
      Reply(200, true, Some(TokenAccepted), Some(JObject(map["user_no" := JInt(userNo), "role_no" := JInt(roleNo)])))
    case Refused(message) => Refusal(401, message)
  }

  /** `verify_token`: the token is the second field of the header split at
      single spaces; `decode` is `jwt.decode` with the server's key. */
  function VerifyToken(header: Option<string>, decode: string -> Decoding): (r: Response)
    ensures r.Reply? && r.status in {200, 401}
    ensures header.None? || header.value == [] ==> r == Refusal(401, NoAuthHeader)
    ensures header.Some? && header.value != [] && ' ' !in header.value ==> r == Refusal(401, BadTokenFormat)
  {
    match header
    case None => Refusal(401, NoAuthHeader)
    case Some(h) =>
      if h == [] then Refusal(401, NoAuthHeader)
      else
        var parts := Split(h, ' ');
        if |parts| < 2 then Refusal(401, BadTokenFormat)
        else TokenReply(VerifyJwtToken(decode(parts[1])))
  }

  /** The second field of such a header, split at single spaces, is the
      word after the first space. */
  lemma SplitSecondWord(scheme: string, token: string, rest: string)
    requires ' ' !in scheme && ' ' !in token
    requires rest == [] || rest[0] == ' '
    ensures var parts := Split(scheme + " " + token + rest, ' ');
            |parts| >= 2 && parts[0] == scheme && parts[1] == token
  {
    assert scheme + " " + token + rest == scheme + [' '] + (token + rest);
    SplitFirst(scheme, ' ', token + rest);
    SplitHead(token, rest, ' ');
  }

  /** The token decoded is the word after the first space, up to the next
      space if there is one. The word before it is never looked at, so any
      scheme, not only `Bearer`, is accepted. */
  lemma VerifyTokenIgnoresScheme(scheme: string, token: string, rest: string, decode: string -> Decoding)
    requires ' ' !in scheme && ' ' !in token
    requires rest == [] || rest[0] == ' '
    ensures VerifyToken(Some(scheme + " " + token + rest), decode) == TokenReply(VerifyJwtToken(decode(token)))
  {
    SplitSecondWord(scheme, token, rest);
  }

  /** A header of the usual form gives the token's claims with 200, or the
      service's message with 401. */
  lemma BearerHeader(token: string, decode: string -> Decoding)
    requires ' ' !in token
    ensures decode(token).Claims? ==>
              VerifyToken(Some("Bearer " + token), decode)
              == Reply(200, true, Some(TokenAccepted),
                       Some(JObject(map["user_no" := JInt(decode(token).user_no), "role_no" := JInt(decode(token).role_no)])))
    ensures decode(token).ExpiredSignature? ==> VerifyToken(Some("Bearer " + token), decode) == Refusal(401, TokenExpired)
    ensures decode(token).InvalidToken? ==> VerifyToken(Some("Bearer " + token), decode) == Refusal(401, TokenInvalid)
  {
    assert "Bearer " + token == "Bearer" + " " + token + "";
    VerifyTokenIgnoresScheme("Bearer", token, "", decode);
  }
}
