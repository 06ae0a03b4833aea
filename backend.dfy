/** What the Flask controllers share: JSON values and their Python
    truthiness, the response a handler returns, the `X-User-No` header parse,
    and the way a service's answer becomes a response. */
module Backend {
  import opened Common
  import opened Decimal

  /** A JSON value as Python holds it after `json.loads`; non-integer numbers
      are not modelled. */
  datatype Json =
    | JNull
    | JBool(b: bool)
    | JInt(i: int)
    | JStr(s: string)
    | JList(items: seq<Json>)
    | JObject(fields: map<string, Json>)

  /** Python's truth value of the decoded value. */
  predicate Truthy(j: Json) {
    match j
    case JNull => false
    case JBool(b) => b
    case JInt(i) => i != 0
    case JStr(s) => s != []
    case JList(items) => items != []
    case JObject(fields) => fields != map[]
  }

  /** A handler's answer: the JSON body `jsonify` builds with its status, or
      the framework's own 500 page when the handler raises outside its `try`. */
  datatype Response =
    | Reply(status: int, success: bool, message: Option<string>, data: Option<Json>)
    | InternalError

  function StatusOf(r: Response): int {
    if r.Reply? then r.status else 500
  }

  function Refusal(status: int, message: string): Response {
    Reply(status, false, Some(message), None)
  }

  /** A Python `error` value used as a condition: `None` and `""` are false. */
  predicate IsError(error: Option<string>) {
    error.Some? && error.value != ""
  }

  /** A service call inside the handler's `try`: what it returned, or the
      text of the exception it raised. */
  datatype Outcome<T> = Returned(value: T) | Raised(error: string)

  // ---------------------------------------------------------------------
  // Request body

  /** The request body a handler reads: an object's fields, or a truthy
      value that has no `.get`. */
  datatype Body = Fields(fields: map<string, Json>) | NotAnObject

  /** `request.get_json(silent=True) or {}`: `None` stands for a missing or
      unparsable body. */
  function ReadBody(raw: Option<Json>): (b: Body)
    ensures raw.None? || !Truthy(raw.value) ==> b == Fields(map[])
    ensures raw.Some? && raw.value.JObject? ==> b == Fields(raw.value.fields)
    ensures b.NotAnObject? <==> raw.Some? && Truthy(raw.value) && !raw.value.JObject?
  {
    match raw
    case None => Fields(map[])
    case Some(j) =>
      if !Truthy(j) then Fields(map[])
      else if j.JObject? then Fields(j.fields)
      else NotAnObject
  }

  /** `dict.get(key)`: an absent key reads as `None`, which is JSON `null`. */
  function Get(fields: map<string, Json>, key: string): (v: Json)
    ensures key in fields ==> v == fields[key]
    ensures key !in fields ==> v == JNull
  {
    if key in fields then fields[key] else JNull
  }

  // ---------------------------------------------------------------------
  // The X-User-No header

  const NoUserHeader := "인증 정보가 없습니다 (X-User-No)"
  const BadUserNo := "잘못된 사용자 번호"

  /** A parsed value, or the response the handler returns at once. */
  datatype Parsed<T> = Parsed(value: T) | Rejected(response: Response)

  /** `_get_user_no_from_header`: a missing or empty header is 401, one that
      `int()` refuses is 400. */
  function UserNoFromHeader(header: Option<string>): (r: Parsed<int>)
    ensures header.None? || header.value == [] ==> r == Rejected(Refusal(401, NoUserHeader))
    ensures header.Some? && header.value != [] && PyInt(header.value).None? ==> r == Rejected(Refusal(400, BadUserNo))
    ensures r.Parsed? <==> header.Some? && PyInt(header.value).Some?
    ensures r.Parsed? ==> r.value == PyInt(header.value).value
    ensures r.Rejected? ==> r.response.Reply? && !r.response.success
  {
    match header
    case None => Rejected(Refusal(401, NoUserHeader))
    case Some(h) =>
      if h == [] then Rejected(Refusal(401, NoUserHeader))
      else match PyInt(h)
        case None => Rejected(Refusal(400, BadUserNo))
        case Some(n) => Parsed(n)
  }

  /** The header the client sends, `String(user_no)`, is read back as that number. */
  lemma HeaderReadsBack(n: int)
    ensures UserNoFromHeader(Some(ShowInt(n))) == Parsed(n)
  {
    PyIntShow(n);
  }

  // ---------------------------------------------------------------------
  // Database lookups done inside the controllers

  /** A `SELECT … fetchone()` made by a controller itself: no connection, the
      row (`None` when there is none), or the text of the exception raised. */
  datatype RowLookup = NoConnection | Fetched(row: Option<map<string, Json>>) | QueryFailed(message: string)

  const DbDown := "DB 연결 실패"

  /** A fetched row used as a condition: `None` and `{}` are false. */
  predicate RowFound(row: Option<map<string, Json>>) {
    row.Some? && row.value != map[]
  }

  // ---------------------------------------------------------------------
  // Service answers

  /** An `(success, message)` service answer: 200 on success, 400 on
      failure, 500 with the exception's text when it raised. */
  function ServiceReply(outcome: Outcome<(bool, string)>): (r: Response)
    ensures r.Reply? && r.success == (r.status == 200)
    ensures r.status in {200, 400, 500}
    ensures r.status == 500 <==> outcome.Raised?
    ensures outcome.Raised? ==> r.message == Some(outcome.error)
    ensures outcome.Returned? ==> r.success == outcome.value.0 && r.message == Some(outcome.value.1)
    ensures r.data.None?
  {
    match outcome
    case Raised(e) => Refusal(500, e)
    case Returned((ok, message)) => if ok then Reply(200, true, Some(message), None) else Refusal(400, message)
  }

  /** A `(value, error)` read answer: the value with 200, or the error with
      `errorStatus`; 500 with the exception's text when it raised. */
  function ReadReply(outcome: Outcome<(Json, Option<string>)>, errorStatus: int): (r: Response)
    requires errorStatus != 200
    ensures r.Reply? && r.success == (r.status == 200)
    ensures outcome.Raised? ==> r == Refusal(500, outcome.error)
    ensures outcome.Returned? && IsError(outcome.value.1) ==> r == Refusal(errorStatus, outcome.value.1.value)
    ensures r.success <==> outcome.Returned? && !IsError(outcome.value.1)
    ensures r.success ==> r.data == Some(outcome.value.0) && r.message.None?
  {
    match outcome
    case Raised(e) => Refusal(500, e)
    case Returned((value, error)) =>
      if IsError(error) then Refusal(errorStatus, error.value)
      else Reply(200, true, None, Some(value))
  }
}
