/** The client's session hook (frontend/hooks/useAuth.ts): who is signed in,
    and which sign-in screen shows. The browser's local storage and the
    token-verification request are inputs; the clock is a parameter. */
module Session {
  import opened Common
  import opened Decimal

  datatype AuthView = LoginView | RegisterView

  datatype User = User(user_no: JsNumber, role_no: int, email: string, nickname: string,
                       profile_url: Option<string>, created_at: string)

  /** The entries of local storage the hook reads: `token`, `nickname`, `user_no`. */
  datatype Storage = Storage(token: Option<string>, nickname: Option<string>, userNo: Option<string>)

  /** The `data` of a successful `verifyToken`. */
  datatype VerifyData = VerifyData(role_no: int)

  /** `stored || fallback`: a missing or empty entry gives the fallback. */
  function OrElse(stored: Option<string>, fallback: string): (s: string)
    ensures stored.Some? && stored.value != "" ==> s == stored.value
    ensures stored.None? || stored.value == "" ==> s == fallback
  {
    if stored.Some? && stored.value != "" then stored.value else fallback
  }

  /** The user that a successful token check restores from local storage. */
  function RestoredUser(storage: Storage, role: int, now: string): User {
    User(JsParseInt(OrElse(storage.userNo, "0")), role, "", OrElse(storage.nickname, "User"), None, now)
  }

  /** A user number stored as `String(n)` is restored as `n`; with no stored
      number the user number is 0. */
  lemma RestoredUserNo(storage: Storage, role: int, now: string, n: int)
    ensures storage.userNo == Some(ShowInt(n)) ==> RestoredUser(storage, role, now).user_no == Num(n)
    ensures storage.userNo.None? || storage.userNo == Some("") ==> RestoredUser(storage, role, now).user_no == Num(0)
  {
    JsParseIntShow(n);
    JsParseIntShow(0);
    assert ShowInt(0) == "0";
    assert ShowInt(n) != "" by {
      assert n < 0 ==> ShowInt(n)[0] == '-';
    }
  }

  /** A user number stored with trailing text is restored from its leading
      digits, as `parseInt` reads them. */
  lemma RestoredUserNoPrefix(storage: Storage, role: int, now: string, n: nat, rest: string)
    requires rest != [] && DigitIn(rest[0], 10).None?
    requires n != 0 || (rest[0] != 'x' && rest[0] != 'X')
    requires storage.userNo == Some(Show(n) + rest)
    ensures RestoredUser(storage, role, now).user_no == Num(n)
  {
    JsParseIntStopsAtNonDigit(n, rest);
  }

  class AuthState {
    var user: Option<User>
    var authView: Option<AuthView>
    var storage: Storage

    /** Exactly one of the two is set: a user, or a sign-in screen. */
    predicate Coherent()
      reads this
    {
      user.None? <==> authView.Some?
    }

    /** The hook's initial state, over whatever local storage holds. */
    constructor(storage: Storage)
      ensures user.None? && authView == Some(LoginView) && this.storage == storage
      ensures Coherent()
    {
      user := None;
      authView := Some(LoginView);
      this.storage := storage;
    }

    /** `checkAuth`: with a non-empty stored token that the server accepts,
        restore the user from local storage and leave the sign-in screens.
        Without a token, or on any failure, nothing changes. */
    method CheckAuth(verify: string -> Reply<VerifyData>, now: string)
      modifies this
      ensures storage == old(storage)
      ensures var t := storage.token;
        if t.Some? && t.value != "" && Delivered(verify(t.value)) then
          user == Some(RestoredUser(storage, verify(t.value).data.value.role_no, now)) && authView.None?
        else
          user == old(user) && authView == old(authView)
      ensures old(Coherent()) ==> Coherent()
    {
      var token := storage.token;
      if token.Some? && token.value != "" {
        var response := verify(token.value);
        if Delivered(response) {
          user := Some(RestoredUser(storage, response.data.value.role_no, now));
          authView := None;
        }
      }
    }

    /** `handleLoginSuccess(userNo, nickname)`. */
    method LoginSuccess(userNo: int, nickname: string, now: string)
      modifies this
      ensures user == Some(User(Num(userNo), 1, "", nickname, None, now))
      ensures authView.None? && storage == old(storage)
      ensures Coherent()
    {
      user := Some(User(Num(userNo), 1, "", nickname, None, now));
      authView := None;
    }

    /** `handleLogout`: the stored token is removed, and the login screen shows. */
    method Logout()
      modifies this
      ensures user.None? && authView == Some(LoginView)
      ensures storage == old(storage).(token := None)
      ensures Coherent()
    {
      storage := storage.(token := None);
      user := None;
      authView := Some(LoginView);
    }

    /** `setAuthView`, as the sign-in screens use it to switch between them. */
    method SetAuthView(view: AuthView)
      modifies this
      ensures authView == Some(view) && user == old(user) && storage == old(storage)
      ensures old(user).None? ==> Coherent()
    {
      authView := Some(view);
    }
  }
}
