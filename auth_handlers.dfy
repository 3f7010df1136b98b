/** The handlers that create, end and read sessions: Login, Logout,
    GetCurrentUserOptional, GetCurrentUser and ChangePassword. The database
    rows they read and the password hash functions are inputs. */
module AuthHandlers {
  import opened Wrappers
  import opened Numbers
  import opened Sessions
  import opened Http
  import opened Middleware
  import opened Db

  /** A users row joined with its role; the left join leaves the role name null
      when the role is missing. */
  datatype UserRow = UserRow(
    id: string,
    email: string,
    username: string,
    firstName: string,
    lastName: string,
    roleId: string,
    active: bool,
    roleName: Option<string>)

  /** The login query's row: the user and the stored password hash. */
  datatype Account = Account(user: UserRow, passwordHash: string)

  datatype LoginRequest = LoginRequest(username: string, password: string)

  datatype ChangePasswordRequest = ChangePasswordRequest(currentPassword: string, newPassword: string)

  /** The user a handler returns from a row; a null role name becomes "". */
  function UserOf(r: UserRow): (u: User)
    ensures u.id == r.id && u.username == r.username && u.email == r.email && u.roleId == r.roleId
    ensures u.firstName == r.firstName && u.lastName == r.lastName && u.active == r.active
    ensures r.roleName.Some? ==> u.roleName == r.roleName.value
    ensures r.roleName.None? ==> u.roleName == ""
  {
    User(r.id, r.email, r.username, r.firstName, r.lastName, r.roleId,
         if r.roleName.Some? then r.roleName.value else "", r.active)
  }

  /** Both login fields are required: a body that does not parse, or leaves
      either field empty, is refused before the database is consulted. */
  predicate LoginBound(body: Option<LoginRequest>) {
    body.Some? && body.value.username != "" && body.value.password != ""
  }

  /** The Max-Age attribute of the session cookie, as written. */
  const LoginCookieMaxAge: string := "600"

  /** The session cookie Login sets: ten minutes, HTTP only, cross-site. */
  function LoginCookie(sessionId: string): string {
    "session_id=" + sessionId + "; Path=/; Max-Age=" + LoginCookieMaxAge + "; HttpOnly; Secure; SameSite=None"
  }

  /** The cookie's Max-Age is the registry's idle timeout, in seconds: the
      attribute is the decimal rendering of the timeout and reads back as it. */
  lemma LoginCookieMatchesTimeout()
    ensures LoginCookieMaxAge == Decimal(IdleTimeout)
    ensures Atoi(LoginCookieMaxAge) == Some(IdleTimeout)
  {
    assert Decimal(6) == "6";
    assert Decimal(60) == Decimal(6) + "0";
    assert Decimal(IdleTimeout) == Decimal(60) + "0";
    AtoiDecimal(IdleTimeout);
  }

  /** The two cookie-clearing headers Logout sets, one after the other. */
  const ClearedCookie: string := "session_id=; Path=/; "
  const CrossSite: string := "; HttpOnly; Secure; SameSite=None"
  const ClearCookieMaxAge: string := ClearedCookie + "Max-Age=0" + CrossSite
  const ClearCookieExpires: string := ClearedCookie + "Expires=Thu, 01 Jan 1970 00:00:00 GMT" + CrossSite

  /** The cookie Logout then adds through `SetCookie` (age -1, path "/", no
      domain, secure, HTTP only). */
  function ClearCookieAdded(): (line: string)
    ensures line == "session_id=; Path=/; Max-Age=0; HttpOnly; Secure"
  {
    CookieLine(SessionCookieName, "", -1, "/", "", true, true)
  }

  /** Login's checks in order; the error reply it gives, or None when every
      check passes and a session is created. `passwordMatches(hash, password)`
      is the password-hash comparison. */
  function LoginRefusal(body: Option<LoginRequest>, found: Query<Account>,
                        passwordMatches: (string, string) -> bool): (r: Option<Reply>)
    ensures r.None? <==> LoginBound(body) && found.Row? && found.row.user.active
                         && passwordMatches(found.row.passwordHash, body.value.password)
    ensures !LoginBound(body) ==> r == Some(Error(400, "Username and password are required"))
    ensures LoginBound(body) && found.NoRows? ==> r == Some(Error(401, "Invalid username or password"))
    ensures LoginBound(body) && found.Failed? ==> r == Some(Error(500, "Failed to authenticate user"))
    ensures LoginBound(body) && found.Row? && !found.row.user.active ==> r == Some(Error(403, "Account is inactive"))
    ensures LoginBound(body) && found.Row? && found.row.user.active
            && !passwordMatches(found.row.passwordHash, body.value.password) ==>
              r == Some(Error(401, "Invalid username or password"))
  {
    if !LoginBound(body) then Some(Error(400, "Username and password are required"))
    else if found.NoRows? then Some(Error(401, "Invalid username or password"))
    else if found.Failed? then Some(Error(500, "Failed to authenticate user"))
    else if !found.row.user.active then Some(Error(403, "Account is inactive"))
    else if !passwordMatches(found.row.passwordHash, body.value.password) then
      Some(Error(401, "Invalid username or password"))
    else None
  }

  /** An inactive account is refused with 403 before its password is looked
      at: the refusal is the same whatever the password comparison says. */
  lemma InactiveBeforePassword(body: Option<LoginRequest>, account: Account,
                               matches1: (string, string) -> bool, matches2: (string, string) -> bool)
    requires LoginBound(body) && !account.user.active
    ensures LoginRefusal(body, Row(account), matches1) == LoginRefusal(body, Row(account), matches2)
              == Some(Error(403, "Account is inactive"))
  {
  }

  /** An unknown user and a wrong password get the same reply. */
  lemma UnknownUserLooksLikeWrongPassword(body: Option<LoginRequest>, account: Account,
                                          matches: (string, string) -> bool)
    requires LoginBound(body) && account.user.active && !matches(account.passwordHash, body.value.password)
    ensures LoginRefusal(body, NoRows, matches) == LoginRefusal(body, Row(account), matches)
  {
  }

  /** `found` is the row the login query returns for the submitted name;
      `handle` is the new session's random handle. */
  method Login(c: Context, store: SessionStore, body: Option<LoginRequest>, found: Query<Account>,
               passwordMatches: (string, string) -> bool, handle: string, now: int)
    requires store.Valid()
    modifies c, store
    ensures store.Valid()
    ensures c.keys == old(c.keys) && c.aborted == old(c.aborted) && c.proceeded == old(c.proceeded)
    ensures var refusal := LoginRefusal(body, found, passwordMatches);
      refusal.Some? ==>
        c.reply == refusal && store.sessions == old(store.sessions) && c.headers == old(c.headers)
    ensures var refusal := LoginRefusal(body, found, passwordMatches);
      refusal.None? ==>
        var u := found.row.user;
        && store.sessions == Inserted(old(store.sessions), handle, u.id, u.username, u.email, u.roleId,
                                      UserOf(u).roleName, now, IdleTimeout)
        && c.headers == old(c.headers)["Set-Cookie" := [LoginCookie(handle)]]
        && c.reply == Some(LoginOk(handle, UserOf(u)))
  {
    if body.None? || body.value.username == "" || body.value.password == "" {
      c.JSON(Error(400, "Username and password are required"));
      return;
    }
    var req := body.value;

    if found.NoRows? {
      c.JSON(Error(401, "Invalid username or password"));
      return;
    }
    if found.Failed? {
      c.JSON(Error(500, "Failed to authenticate user"));
      return;
    }
    var account := found.row;

    if !account.user.active {
      c.JSON(Error(403, "Account is inactive"));
      return;
    }

    if !passwordMatches(account.passwordHash, req.password) {
      c.JSON(Error(401, "Invalid username or password"));
      return;
    }

    var user := UserOf(account.user);
    var sessionId := store.CreateSession(handle, user.id, user.username, user.email, user.roleId,
                                         user.roleName, now);
    c.Header("Set-Cookie", LoginCookie(sessionId));
    c.JSON(LoginOk(sessionId, user));
  }

  /** A successful login is followed by requests that RequireAuth admits, with
      the logged-in identity attached, for as long as the timeout allows. The
      handle is a 44-character random string, so never empty. */
  method LoginThenAuthenticate(store: SessionStore, body: Option<LoginRequest>, account: Account,
                               passwordMatches: (string, string) -> bool, handle: string,
                               now: int, later: int)
    returns (admitted: bool, userId: string, roleName: string)
    requires store.Valid() && handle != ""
    requires LoginRefusal(body, Row(account), passwordMatches).None?
    requires now <= later <= now + IdleTimeout
    modifies store
    ensures store.Valid()
    ensures admitted && userId == account.user.id && roleName == UserOf(account.user).roleName
  {
    var login := new Context(Request(map[], map[]));
    Login(login, store, body, Row(account), passwordMatches, handle, now);
    var next := new Context(Request(map[SessionCookieName := handle], map[]));
    RequireAuth(next, store, later);
    admitted := next.proceeded;
    userId := next.keys["user_id"].text;
    roleName := next.keys["role_name"].text;
  }

  /** Logout: resolve the credential like RequireAuth, delete its session when
      there is one, clear the cookie, and always answer success. The second
      cookie-clearing header replaces the first, and `SetCookie` adds a third:
      the response carries the Expires header and the added one, and not the
      Max-Age header. */
  method Logout(c: Context, store: SessionStore)
    requires store.Valid()
    modifies c, store
    ensures store.Valid()
    ensures SessionIdOf(c.request) == "" ==> store.sessions == old(store.sessions)
    ensures SessionIdOf(c.request) != "" ==>
      store.sessions == Removed(old(store.sessions), SessionIdOf(c.request))
    ensures c.reply == Some(LoggedOut) && c.reply.value.Status() == 200
    ensures c.headers == old(c.headers)["Set-Cookie" := [ClearCookieExpires, ClearCookieAdded()]]
    ensures ClearCookieMaxAge !in c.headers["Set-Cookie"]
    ensures c.keys == old(c.keys) && c.aborted == old(c.aborted) && c.proceeded == old(c.proceeded)
  {
    var sessionId := SessionIdOf(c.request);

    if sessionId != "" {
      store.DeleteSession(sessionId);
    }

    assert ClearCookieMaxAge != "" && ClearCookieExpires != "";
    c.Header("Set-Cookie", ClearCookieMaxAge);
    c.Header("Set-Cookie", ClearCookieExpires);
    assert HeaderValues(c.headers, "Set-Cookie") == [ClearCookieExpires];
    ghost var cleared := c.headers;
    c.SetCookie(SessionCookieName, "", -1, "/", "", true, true);
    assert c.headers == cleared["Set-Cookie" := [ClearCookieExpires] + [ClearCookieAdded()]];
    assert [ClearCookieExpires] + [ClearCookieAdded()] == [ClearCookieExpires, ClearCookieAdded()];
    c.JSON(LoggedOut);
    assert ClearCookieMaxAge != ClearCookieExpires by {
      assert ClearCookieMaxAge[|ClearedCookie|] == 'M';
      assert ClearCookieExpires[|ClearedCookie|] == 'E';
    }
    assert ClearCookieMaxAge != ClearCookieAdded() by {
      assert |ClearCookieMaxAge| != |ClearCookieAdded()|;
    }
  }

  /** After Logout, the same request is no longer admitted by RequireAuth. */
  method LogoutThenAuthenticate(request: Request, store: SessionStore, now: int) returns (admitted: bool)
    requires store.Valid()
    modifies store
    ensures store.Valid()
    ensures !admitted
  {
    var out := new Context(request);
    Logout(out, store);
    var next := new Context(request);
    RequireAuth(next, store, now);
    admitted := next.proceeded;
  }

  /** The authentication status for the login page: never an error status.
      `fetch` reads the user's current row by id. */
  method GetCurrentUserOptional(c: Context, store: SessionStore, now: int, fetch: string -> Query<UserRow>)
    requires store.Valid()
    modifies c, store
    ensures store.Valid()
    ensures c.reply.Some? && c.reply.value.AuthStatus? && c.reply.value.Status() == 200
    ensures SessionIdOf(c.request) == "" ==>
      store.sessions == old(store.sessions) && c.reply == Some(AuthStatus(None))
    ensures var l := LookupAt(old(store.sessions), SessionIdOf(c.request), now, IdleTimeout);
      SessionIdOf(c.request) != "" ==>
        && store.sessions == l.store
        && (l.found.None? ==> c.reply == Some(AuthStatus(None)))
        && (l.found.Some? && !fetch(l.found.value.userId).Row? ==> c.reply == Some(AuthStatus(None)))
        && (l.found.Some? && fetch(l.found.value.userId).Row? ==>
              c.reply == Some(AuthStatus(Some(UserOf(fetch(l.found.value.userId).row)))))
    ensures c.keys == old(c.keys) && c.headers == old(c.headers)
    ensures c.aborted == old(c.aborted) && c.proceeded == old(c.proceeded)
  {
    var sessionId := SessionIdOf(c.request);

    if sessionId == "" {
      c.JSON(AuthStatus(None));
      return;
    }

    var session := store.GetSession(sessionId, now);
    if session.None? {
      c.JSON(AuthStatus(None));
      return;
    }

    var row := fetch(session.value.userId);
    if !row.Row? {
      c.JSON(AuthStatus(None));
      return;
    }

    c.JSON(AuthStatus(Some(UserOf(row.row))));
  }

  /** The session stored in a context is always a session record (only
      RequireAuth sets it). */
  predicate SessionTyped(keys: map<string, Value>) {
    "session" in keys ==> keys["session"].SessionValue?
  }

  /** The current user, for requests that passed RequireAuth. */
  method GetCurrentUser(c: Context, fetch: string -> Query<UserRow>)
    requires SessionTyped(c.keys)
    modifies c
    ensures c.keys == old(c.keys) && c.headers == old(c.headers)
    ensures c.aborted == old(c.aborted) && c.proceeded == old(c.proceeded)
    ensures "session" !in c.keys ==> c.reply == Some(Error(401, "Not authenticated"))
    ensures "session" in c.keys ==>
      var row := fetch(c.keys["session"].session.userId);
      c.reply == Some(if row.Row? then UserInfo(UserOf(row.row)) else Error(500, "Failed to fetch user"))
  {
    if "session" !in c.keys {
      c.JSON(Error(401, "Not authenticated"));
      return;
    }
    var sess := c.keys["session"].session;

    var row := fetch(sess.userId);
    if !row.Row? {
      c.JSON(Error(500, "Failed to fetch user"));
      return;
    }

    c.JSON(UserInfo(UserOf(row.row)));
  }

  /** Both fields are required and the new password has at least six characters. */
  predicate ChangePasswordBound(body: Option<ChangePasswordRequest>) {
    body.Some? && body.value.currentPassword != "" && |body.value.newPassword| >= 6
  }

  /** `hashOf` reads a user's stored password hash, `passwordMatches(hash, p)`
      compares, `newHash` is the hash computed for the new password (None when
      hashing fails) and `updateSucceeds` whether the UPDATE succeeds. The
      second result is the (hash, user id) pair written, when the UPDATE is
      issued. */
  method ChangePassword(c: Context, body: Option<ChangePasswordRequest>, hashOf: string -> Query<string>,
                        passwordMatches: (string, string) -> bool, newHash: Option<string>,
                        updateSucceeds: bool)
    returns (written: Option<(string, string)>)
    requires SessionTyped(c.keys)
    modifies c
    ensures c.keys == old(c.keys) && c.headers == old(c.headers)
    ensures c.aborted == old(c.aborted) && c.proceeded == old(c.proceeded)
    ensures "session" !in c.keys ==> c.reply == Some(Error(401, "Not authenticated")) && written.None?
    ensures "session" in c.keys && !ChangePasswordBound(body) ==>
      c.reply == Some(Error(400, "Current password and new password (min 6 characters) are required"))
      && written.None?
    ensures "session" in c.keys && ChangePasswordBound(body) ==>
      var userId := c.keys["session"].session.userId;
      var stored := hashOf(userId);
      && (stored.NoRows? ==> c.reply == Some(Error(404, "User not found")) && written.None?)
      && (stored.Failed? ==> c.reply == Some(Error(500, "Failed to fetch user")) && written.None?)
      && (stored.Row? && !passwordMatches(stored.row, body.value.currentPassword) ==>
            c.reply == Some(Error(401, "Current password is incorrect")) && written.None?)
      && (stored.Row? && passwordMatches(stored.row, body.value.currentPassword) && newHash.None? ==>
            c.reply == Some(Error(500, "Failed to hash new password")) && written.None?)
      && (stored.Row? && passwordMatches(stored.row, body.value.currentPassword) && newHash.Some? ==>
            && written == Some((newHash.value, userId))
            && c.reply == Some(if updateSucceeds then Done("Password changed successfully")
                               else Error(500, "Failed to update password")))
    ensures written.Some? ==> "session" in c.keys && written.value.1 == c.keys["session"].session.userId
  {
    written := None;
    if "session" !in c.keys {
      c.JSON(Error(401, "Not authenticated"));
      return;
    }
    var sess := c.keys["session"].session;

    if body.None? || body.value.currentPassword == "" || |body.value.newPassword| < 6 {
      c.JSON(Error(400, "Current password and new password (min 6 characters) are required"));
      return;
    }
    var req := body.value;

    var stored := hashOf(sess.userId);
    if stored.NoRows? {
      c.JSON(Error(404, "User not found"));
      return;
    }
    if stored.Failed? {
      c.JSON(Error(500, "Failed to fetch user"));
      return;
    }

    if !passwordMatches(stored.row, req.currentPassword) {
      c.JSON(Error(401, "Current password is incorrect"));
      return;
    }

    if newHash.None? {
      c.JSON(Error(500, "Failed to hash new password"));
      return;
    }

    written := Some((newHash.value, sess.userId));
    if !updateSucceeds {
      c.JSON(Error(500, "Failed to update password"));
      return;
    }

    c.JSON(Done("Password changed successfully"));
  }
}
