/** The account service of the backend (backend/services/auth.py): input
    validation, sign-up, sign-in and token verification. The user table,
    bcrypt and the JWT library are outside the model: their answers are
    parameters. */
module AuthService {
  import opened Common

  /** A `(ok, message)` pair, as each validator and the sign-up return it. */
  datatype Check = Check(ok: bool, message: string)

  const EmailInvalid := "올바른 이메일 형식이 아닙니다."
  const PasswordTooShort := "비밀번호는 6자 이상이어야 합니다."
  const PasswordTooLong := "비밀번호는 30자 이하여야 합니다."
  const PasswordWeak := "비밀번호는 영문, 숫자, 특수문자 중 2가지 이상을 포함해야 합니다."
  const PasswordValid := "비밀번호가 유효합니다."
  const NicknameMissing := "닉네임을 입력해주세요."
  const NicknameTooLong := "닉네임은 30자 이하여야 합니다."
  const NicknameValid := "닉네임이 유효합니다."
  const EmailTaken := "이미 가입된 이메일입니다."
  const Registered := "회원가입이 완료되었습니다."
  const RegisterFailed := "회원가입에 실패했습니다."
  const CredentialsMissing := "이메일과 비밀번호를 입력해주세요."
  const NoSuchUser := "존재하지 않는 사용자입니다."
  const WrongPassword := "비밀번호가 일치하지 않습니다."
  const LoggedIn := "로그인 성공"
  const TokenExpired := "토큰이 만료되었습니다."
  const TokenInvalid := "유효하지 않은 토큰입니다."

  // ---------------------------------------------------------------------
  // E-mail address: ^[a-zA-Z0-9._%+-]+@[a-zA-Z0-9.-]+\.[a-zA-Z]{2,}$

  predicate IsLocalChar(c: char) {
    IsAsciiLetter(c) || IsAsciiDigit(c) || c == '.' || c == '_' || c == '%' || c == '+' || c == '-'
  }

  predicate IsDomainChar(c: char) {
    IsAsciiLetter(c) || IsAsciiDigit(c) || c == '.' || c == '-'
  }

  predicate AllLocal(s: string) {
    forall k :: 0 <= k < |s| ==> IsLocalChar(s[k])
  }

  predicate AllDomain(s: string) {
    forall k :: 0 <= k < |s| ==> IsDomainChar(s[k])
  }

  predicate AllLetters(s: string) {
    forall k :: 0 <= k < |s| ==> IsAsciiLetter(s[k])
  }

  /** The length of the longest run of ASCII letters that ends `s`. */
  function LetterSuffix(s: string): (n: nat)
    ensures n <= |s|
    ensures forall k :: |s| - n <= k < |s| ==> IsAsciiLetter(s[k])
    ensures n < |s| ==> !IsAsciiLetter(s[|s| - n - 1])
  {
    if s == [] || !IsAsciiLetter(s[|s| - 1]) then 0 else 1 + LetterSuffix(s[..|s| - 1])
  }

  /** What follows the `@`: domain characters, ending in a dot and at least
      two letters. Since the dot is not a letter, the greedy matcher's last
      choice of dot is the one before the final run of letters. */
  predicate DomainMatches(d: string) {
    && AllDomain(d)
    && var n := LetterSuffix(d);
    && n >= 2 && |d| >= n + 2 && d[|d| - n - 1] == '.'
  }

  /** The pattern matches the whole of `s`. Local characters exclude `@`, so
      the `@` of the pattern is the first one in `s`. */
  predicate WholeMatch(s: string) {
    '@' in s &&
    var at := IndexOf(s, '@');
    at > 0 && AllLocal(s[..at]) && DomainMatches(s[at + 1..])
  }

  /** `validate_email`: `re.match` with a final `$`, which also matches just
      before one trailing newline. */
  function ValidateEmail(email: string): bool {
    WholeMatch(email) || (|email| > 0 && email[|email| - 1] == '\n' && WholeMatch(email[..|email| - 1]))
  }

  /** The address split as the pattern reads it: a non-empty local part, the
      `@` at `at`, a non-empty host, the dot at `dot`, two letters or more. */
  ghost predicate ShapeAt(s: string, at: int, dot: int) {
    && 0 < at && at + 1 < dot && dot + 3 <= |s|
    && s[at] == '@' && s[dot] == '.'
    && AllLocal(s[..at]) && AllDomain(s[at + 1..dot]) && AllLetters(s[dot + 1..])
  }

  /** The pattern as a reference definition: some way to cut `s` fits it. */
  ghost predicate EmailPattern(s: string) {
    exists at, dot :: ShapeAt(s, at, dot)
  }

  /** The letter run that ends `d` is exactly what follows a non-letter at `k`
      when only letters follow it. */
  lemma LetterSuffixAfter(d: string, k: nat)
    requires k < |d| && !IsAsciiLetter(d[k]) && AllLetters(d[k + 1..])
    ensures LetterSuffix(d) == |d| - k - 1
  {
    forall m | k + 1 <= m < |d|
      ensures IsAsciiLetter(d[m])
    {
      assert d[k + 1..][m - k - 1] == d[m];
    }
  }

  lemma LetterRunAllLetters(d: string, n: nat)
    requires n <= |d| && forall k :: |d| - n <= k < |d| ==> IsAsciiLetter(d[k])
    ensures AllLetters(d[|d| - n..])
  {
    assert forall k :: |d| - n <= k < |d| ==> d[|d| - n..][k - (|d| - n)] == d[k];
  }

  /** The matcher's split is one the pattern allows. */
  lemma WholeMatchShape(s: string)
    requires WholeMatch(s)
    ensures EmailPattern(s)
  {
    var at := IndexOf(s, '@');
    var d := s[at + 1..];
    var n := LetterSuffix(d);
    var dot := |s| - n - 1;
    assert s[dot] == d[|d| - n - 1];
    assert AllDomain(s[at + 1..dot]) by {
      assert forall k :: 0 <= k < dot - at - 1 ==> s[at + 1..dot][k] == d[k];
    }
    assert AllLetters(s[dot + 1..]) by {
      assert s[dot + 1..] == d[|d| - n..];
      LetterRunAllLetters(d, n);
    }
    assert ShapeAt(s, at, dot);
  }

  /** Any split the pattern allows is found by the matcher. */
  lemma ShapeWholeMatch(s: string, at: int, dot: int)
    requires ShapeAt(s, at, dot)
    ensures WholeMatch(s)
  {
    assert IndexOf(s, '@') == at by {
      assert forall k :: 0 <= k < at ==> s[k] == s[..at][k];
      IndexOfAt(s, '@', at);
    }
    var d := s[at + 1..];
    assert AllDomain(d) by {
      forall k | 0 <= k < |d|
        ensures IsDomainChar(d[k])
      {
        if k < dot - at - 1 {
          assert d[k] == s[at + 1..dot][k];
        } else if k > dot - at - 1 {
          assert d[k] == s[dot + 1..][k - (dot - at)];
        }
      }
    }
    assert AllLetters(d[dot - at..]) by {
      assert d[dot - at..] == s[dot + 1..];
    }
    LetterSuffixAfter(d, dot - at - 1);
  }

  lemma WholeMatchIff(s: string)
    ensures WholeMatch(s) <==> EmailPattern(s)
  {
    if WholeMatch(s) {
      WholeMatchShape(s);
    }
    if EmailPattern(s) {
      var at, dot :| ShapeAt(s, at, dot);
      ShapeWholeMatch(s, at, dot);
    }
  }

  /** The validator accepts exactly the addresses the pattern describes,
      each possibly followed by one newline. */
  lemma ValidateEmailIff(email: string)
    ensures ValidateEmail(email) <==>
              (EmailPattern(email) || (email != [] && email[|email| - 1] == '\n' && EmailPattern(email[..|email| - 1])))
  {
    WholeMatchIff(email);
    if email != [] {
      WholeMatchIff(email[..|email| - 1]);
    }
  }

  /** In an address the pattern describes, the `@` at `at` is the only one. */
  lemma ShapeOneAt(s: string, at: int, dot: int, x: int)
    requires ShapeAt(s, at, dot) && 0 <= x < |s| && x != at
    ensures s[x] != '@'
  {
    if x < at {
      assert s[..at][x] == s[x];
    } else if x < dot {
      assert s[at + 1..dot][x - at - 1] == s[x];
    } else if x > dot {
      assert s[dot + 1..][x - dot - 1] == s[x];
    }
  }

  /** An accepted address holds exactly one `@`. */
  lemma ValidEmailOneAt(email: string)
    requires ValidateEmail(email)
    ensures exists at :: 0 <= at < |email| && email[at] == '@'
                         && forall x :: 0 <= x < |email| && email[x] == '@' ==> x == at
  {
    if WholeMatch(email) {
      WholeMatchShape(email);
      var at, dot :| ShapeAt(email, at, dot);
      assert email[..|email|] == email;
      OnlyAt(email, email, at, dot);
    } else {
      var s := email[..|email| - 1];
      assert WholeMatch(s) && email[|s|] == '\n';
      WholeMatchShape(s);
      var at, dot :| ShapeAt(s, at, dot);
      OnlyAt(email, s, at, dot);
    }
  }

  /** The `@` of a pattern split of `s` is the only one in `email`, which is
      `s` or `s` with one newline after it. */
  lemma OnlyAt(email: string, s: string, at: int, dot: int)
    requires ShapeAt(s, at, dot)
    requires |s| <= |email| <= |s| + 1 && email[..|s|] == s
    requires |email| == |s| || email[|s|] == '\n'
    ensures 0 <= at < |email| && email[at] == '@'
    ensures forall x :: 0 <= x < |email| && email[x] == '@' ==> x == at
  {
    forall x | 0 <= x < |email| && x != at
      ensures email[x] != '@'
    {
      if x < |s| {
        assert email[x] == email[..|s|][x];
        ShapeOneAt(s, at, dot, x);
      }
    }
  }

  // ---------------------------------------------------------------------
  // Password and nickname

  /** The class `[!@#$%^&*(),.?":{}|<>]`. */
  predicate IsSpecial(c: char) {
    c in "!@#$%^&*(),.?\":{}|<>"
  }

  predicate HasLetter(s: string) {
    exists k :: 0 <= k < |s| && IsAsciiLetter(s[k])
  }

  predicate HasDigit(s: string) {
    exists k :: 0 <= k < |s| && IsAsciiDigit(s[k])
  }

  predicate HasSpecial(s: string) {
    exists k :: 0 <= k < |s| && IsSpecial(s[k])
  }

  /** How many of the three kinds of character the password contains. */
  function Kinds(s: string): nat {
    (if HasLetter(s) then 1 else 0) + (if HasDigit(s) then 1 else 0) + (if HasSpecial(s) then 1 else 0)
  }

  /** `validate_password`: the length bounds first, then two kinds at least. */
  function ValidatePassword(password: string): (r: Check)
    ensures r.ok <==> 6 <= |password| <= 30 && Kinds(password) >= 2
    ensures r.ok ==> r.message == PasswordValid
    ensures |password| < 6 ==> r.message == PasswordTooShort
    ensures |password| > 30 ==> r.message == PasswordTooLong
    ensures 6 <= |password| <= 30 && !r.ok ==> r.message == PasswordWeak
  {
    if |password| < 6 then Check(false, PasswordTooShort)
    else if |password| > 30 then Check(false, PasswordTooLong)
    else if Kinds(password) < 2 then Check(false, PasswordWeak)
    else Check(true, PasswordValid)
  }

  /** The password of the sample account is accepted. */
  lemma SamplePasswordValid()
    ensures ValidatePassword("test123!").ok
  {
    var p := "test123!";
    assert IsAsciiLetter(p[0]) && IsAsciiDigit(p[4]);
  }

  /** Six digits are one kind only, and are refused however long. */
  lemma DigitsOnlyRefused(password: string)
    requires 6 <= |password| <= 30
    requires forall k :: 0 <= k < |password| ==> IsAsciiDigit(password[k])
    ensures ValidatePassword(password) == Check(false, PasswordWeak)
  {
    assert !HasLetter(password);
    assert !HasSpecial(password) by {
      assert forall k :: 0 <= k < |password| ==> !IsSpecial(password[k]);
    }
  }

  /** `validate_nickname`; `None` stands for a missing value. Blankness is
      judged after stripping, the length limit on the string as given. */
  function ValidateNickname(nickname: Option<string>): (r: Check)
    ensures r.ok <==> nickname.Some? && |nickname.value| <= 30
                      && exists k :: 0 <= k < |nickname.value| && !IsPySpace(nickname.value[k])
    ensures r.ok ==> r.message == NicknameValid
    ensures !r.ok && nickname.Some? && |nickname.value| > 30 && Strip(nickname.value, IsPySpace) != [] ==> r.message == NicknameTooLong
    ensures !r.ok && (nickname.None? || Strip(nickname.value, IsPySpace) == []) ==> r.message == NicknameMissing
  {
    match nickname
    case None => Check(false, NicknameMissing)
    case Some(n) =>
      StripEmptyIff(n, IsPySpace);
      if n == [] || |Strip(n, IsPySpace)| == 0 then Check(false, NicknameMissing)
      else if |n| > 30 then Check(false, NicknameTooLong)
      else Check(true, NicknameValid)
  }

  /** What sign-up stores for an accepted nickname: the stripped text, never
      empty and at most 30 characters. */
  lemma StoredNicknameFits(nickname: string)
    requires ValidateNickname(Some(nickname)).ok
    ensures Strip(nickname, IsPySpace) != [] && |Strip(nickname, IsPySpace)| <= 30
  {
    StripEmptyIff(nickname, IsPySpace);
  }

  // ---------------------------------------------------------------------
  // Sign-up and sign-in

  /** The row `create_user` is asked to insert. */
  datatype NewUser = NewUser(role_no: int, email: string, password_hash: string, nickname: string)

  datatype Registration = Registration(ok: bool, message: string, inserted: Option<NewUser>)

  /** All three validators accept. */
  predicate InputAccepted(email: string, password: string, nickname: string) {
    ValidateEmail(email) && ValidatePassword(password).ok && ValidateNickname(Some(nickname)).ok
  }

  /** `register_user`. `emailTaken` answers `find_user_by_email`, `hash` is
      bcrypt, `insert` is `create_user`; `inserted` is the row it was given. */
  function RegisterUser(email: string, password: string, nickname: string, emailTaken: string -> bool,
                        hash: string -> string, insert: NewUser -> bool): (r: Registration)
    ensures r.inserted.Some? <==> InputAccepted(email, password, nickname) && !emailTaken(email)
    ensures r.inserted.Some? ==> r.inserted.value == NewUser(1, email, hash(password), Strip(nickname, IsPySpace))
    ensures r.ok <==> r.inserted.Some? && insert(r.inserted.value)
    ensures r.ok ==> r.message == Registered
    ensures r.inserted.Some? && !r.ok ==> r.message == RegisterFailed
    ensures !ValidateEmail(email) ==> r.message == EmailInvalid
    ensures ValidateEmail(email) && !ValidatePassword(password).ok ==> r.message == ValidatePassword(password).message
    ensures ValidateEmail(email) && ValidatePassword(password).ok && !ValidateNickname(Some(nickname)).ok
            ==> r.message == ValidateNickname(Some(nickname)).message
    ensures InputAccepted(email, password, nickname) && emailTaken(email) ==> r.message == EmailTaken
  {
    if !ValidateEmail(email) then Registration(false, EmailInvalid, None)
    else if !ValidatePassword(password).ok then Registration(false, ValidatePassword(password).message, None)
    else if !ValidateNickname(Some(nickname)).ok then Registration(false, ValidateNickname(Some(nickname)).message, None)
    else if emailTaken(email) then Registration(false, EmailTaken, None)
    else
      var row := NewUser(1, email, hash(password), Strip(nickname, IsPySpace));
      if insert(row) then Registration(true, Registered, Some(row))
      else Registration(false, RegisterFailed, Some(row))
  }

  /** Rejected input is refused before the user table is consulted: the answer
      does not depend on it, nor on the hash. */
  lemma RejectedInputSkipsStore(email: string, password: string, nickname: string,
                                taken1: string -> bool, hash1: string -> string, insert1: NewUser -> bool,
                                taken2: string -> bool, hash2: string -> string, insert2: NewUser -> bool)
    requires !InputAccepted(email, password, nickname)
    ensures RegisterUser(email, password, nickname, taken1, hash1, insert1)
         == RegisterUser(email, password, nickname, taken2, hash2, insert2)
  {
  }

  /** An address built from a local part, a host and a top-level domain of
      the right characters fits the pattern. */
  lemma ComposedShape(local: string, host: string, tld: string)
    requires local != [] && AllLocal(local)
    requires host != [] && AllDomain(host)
    requires |tld| >= 2 && AllLetters(tld)
    ensures EmailPattern(local + "@" + host + "." + tld)
  {
    var s := local + "@" + host + "." + tld;
    var at, dot := |local|, |local| + 1 + |host|;
    assert s[..at] == local;
    assert s[at + 1..dot] == host;
    assert s[dot + 1..] == tld;
    assert ShapeAt(s, at, dot);
  }

  lemma SampleEmailValid()
    ensures ValidateEmail("test@example.com")
  {
    assert AllLocal("test") && AllDomain("example") && AllLetters("com");
    ComposedShape("test", "example", "com");
    assert "test" + "@" + "example" + "." + "com" == "test@example.com";
    ValidateEmailIff("test@example.com");
  }

  /** The sample account signs up when its address is free and the insert
      succeeds; the nickname is stored as given, having no surrounding space. */
  lemma SampleAccountRegisters(taken: string -> bool, hash: string -> string, insert: NewUser -> bool)
    requires !taken("test@example.com")
    requires insert(NewUser(1, "test@example.com", hash("test123!"), "테스트유저"))
    ensures RegisterUser("test@example.com", "test123!", "테스트유저", taken, hash, insert)
         == Registration(true, Registered, Some(NewUser(1, "test@example.com", hash("test123!"), "테스트유저")))
  {
    SampleEmailValid();
    SamplePasswordValid();
    SampleNickname();
    AcceptedSignUp("test@example.com", "test123!", "테스트유저", taken, hash, insert);
  }

  lemma SampleNickname()
    ensures ValidateNickname(Some("테스트유저")).ok && Strip("테스트유저", IsPySpace) == "테스트유저"
  {
    var n := "테스트유저";
    assert !IsPySpace(n[0]) && !IsPySpace(n[|n| - 1]);
    StripPadded("", n, "", IsPySpace);
    assert "" + n + "" == n;
  }

  lemma AcceptedSignUp(email: string, password: string, nickname: string, taken: string -> bool,
                       hash: string -> string, insert: NewUser -> bool)
    requires InputAccepted(email, password, nickname) && !taken(email)
    requires Strip(nickname, IsPySpace) == nickname
    requires insert(NewUser(1, email, hash(password), nickname))
    ensures RegisterUser(email, password, nickname, taken, hash, insert)
         == Registration(true, Registered, Some(NewUser(1, email, hash(password), nickname)))
  {
  }

  /** The user row `find_user_by_email` returns. */
  datatype UserRow = UserRow(user_no: int, role_no: int, password: string)

  datatype Login = Login(ok: bool, message: string, token: Option<string>)

  /** `login_user`. `find` is `find_user_by_email`, `matches` is
      `bcrypt.checkpw(password, hash)`, `sign` issues the JWT for a user and role. */
  function LoginUser(email: string, password: string, find: string -> Option<UserRow>,
                     matches: (string, string) -> bool, sign: (int, int) -> string): (r: Login)
    ensures r.ok <==> r.token.Some?
    ensures r.ok <==> email != "" && password != "" && find(email).Some? && matches(password, find(email).value.password)
    ensures r.ok ==> r.message == LoggedIn && r.token.value == sign(find(email).value.user_no, find(email).value.role_no)
    ensures (email == "" || password == "") ==> r.message == CredentialsMissing
    ensures email != "" && password != "" && find(email).None? ==> r.message == NoSuchUser
    ensures email != "" && password != "" && find(email).Some? && !r.ok ==> r.message == WrongPassword
  {
    if email == "" || password == "" then Login(false, CredentialsMissing, None)
    else match find(email)
      case None => Login(false, NoSuchUser, None)
      case Some(row) =>
        if !matches(password, row.password) then Login(false, WrongPassword, None)
        else Login(true, LoggedIn, Some(sign(row.user_no, row.role_no)))
  }

  /** Missing credentials are refused without a lookup. */
  lemma MissingCredentialsSkipLookup(email: string, password: string,
                                     find1: string -> Option<UserRow>, matches1: (string, string) -> bool, sign1: (int, int) -> string,
                                     find2: string -> Option<UserRow>, matches2: (string, string) -> bool, sign2: (int, int) -> string)
    requires email == "" || password == ""
    ensures LoginUser(email, password, find1, matches1, sign1) == LoginUser(email, password, find2, matches2, sign2)
  {
  }

  /** What `jwt.decode` makes of a token: its claims, or one of the two errors
      the service catches. */
  datatype Decoding = Claims(user_no: int, role_no: int) | ExpiredSignature | InvalidToken

  datatype TokenCheck = Valid(user_no: int, role_no: int) | Refused(message: string)

  /** `verify_jwt_token`. */
  function VerifyJwtToken(decoded: Decoding): (r: TokenCheck)
    ensures r.Valid? <==> decoded.Claims?
    ensures r.Valid? ==> r.user_no == decoded.user_no && r.role_no == decoded.role_no
    ensures decoded.ExpiredSignature? ==> r == Refused(TokenExpired)
    ensures decoded.InvalidToken? ==> r == Refused(TokenInvalid)
  {
    match decoded
    case Claims(u, role) => Valid(u, role)
    case ExpiredSignature => Refused(TokenExpired)
    case InvalidToken => Refused(TokenInvalid)
  }
}
