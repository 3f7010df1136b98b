/** The request gates: RequireAuth resolves the session credential of a
    request against the session registry, RequireRole checks the resolved role
    name against an allow-list, and RequirePermission lets everything through. */
module Middleware {
  import opened Wrappers
  import opened Sessions
  import opened Http

  const SessionCookieName: string := "session_id"
  const SessionHeaderName: string := "X-Session-ID"

  /** The request carries a non-empty `session_id` cookie. */
  predicate HasSessionCookie(r: Request) {
    Cookie(r, SessionCookieName).Some? && Cookie(r, SessionCookieName).value != ""
  }

  /** The session credential: the cookie takes precedence; when it is absent or
      empty the `X-Session-ID` header is used; "" means there is none. */
  function SessionIdOf(r: Request): (id: string)
    ensures HasSessionCookie(r) ==> id == r.cookies[SessionCookieName]
    ensures !HasSessionCookie(r) ==> id == GetHeader(r, SessionHeaderName)
    ensures id == "" <==> !HasSessionCookie(r) && GetHeader(r, SessionHeaderName) == ""
  {
    var cookie := Cookie(r, SessionCookieName);
    if cookie.None? || cookie.value == "" then GetHeader(r, SessionHeaderName) else cookie.value
  }

  /** The context keys RequireAuth fills from a resolved session. */
  function WithSession(keys: map<string, Value>, s: Session): (r: map<string, Value>)
    ensures r.Keys == keys.Keys + {"session", "user_id", "role_id", "role_name"}
    ensures r["session"] == SessionValue(s) && r["user_id"] == Text(s.userId)
    ensures r["role_id"] == Text(s.roleId) && r["role_name"] == Text(s.roleName)
    ensures forall k :: k in keys && k !in {"session", "user_id", "role_id", "role_name"} ==> r[k] == keys[k]
  {
    keys["session" := SessionValue(s)]["user_id" := Text(s.userId)]
        ["role_id" := Text(s.roleId)]["role_name" := Text(s.roleName)]
  }

  method RequireAuth(c: Context, store: SessionStore, now: int)
    requires store.Valid()
    modifies c, store
    ensures store.Valid() && c.headers == old(c.headers)
    // no credential: 401, chain stopped, registry untouched
    ensures SessionIdOf(c.request) == "" ==>
      && store.sessions == old(store.sessions)
      && c.reply == Some(Error(401, "Authentication required")) && c.aborted
      && c.keys == old(c.keys) && c.proceeded == old(c.proceeded)
    // a credential: one registry lookup, then 401 or identity attached and chain continued
    ensures var id := SessionIdOf(c.request);
            var l := LookupAt(old(store.sessions), id, now, IdleTimeout);
      id != "" ==>
        && store.sessions == l.store
        && (l.found.None? ==>
              c.reply == Some(Error(401, "Invalid or expired session")) && c.aborted
              && c.keys == old(c.keys) && c.proceeded == old(c.proceeded))
        && (l.found.Some? ==>
              c.keys == WithSession(old(c.keys), l.found.value) && c.proceeded
              && c.reply == old(c.reply) && c.aborted == old(c.aborted))
  {
    var cookie := Cookie(c.request, SessionCookieName);
    var sessionId: string;
    if cookie.None? || cookie.value == "" {
      sessionId := GetHeader(c.request, SessionHeaderName);
      if sessionId == "" {
        c.JSON(Error(401, "Authentication required"));
        c.Abort();
        return;
      }
    } else {
      sessionId := cookie.value;
    }

    var session := store.GetSession(sessionId, now);
    if session.None? {
      c.JSON(Error(401, "Invalid or expired session"));
      c.Abort();
      return;
    }

    c.Set("session", SessionValue(session.value));
    c.Set("user_id", Text(session.value.userId));
    c.Set("role_id", Text(session.value.roleId));
    c.Set("role_name", Text(session.value.roleName));
    c.Next();
  }

  /** The allow-list test: exact (case-sensitive) equality with some listed name. */
  method HasRole(userRole: string, roleNames: seq<string>) returns (hasRole: bool)
    ensures hasRole <==> userRole in roleNames
    ensures roleNames == [] ==> !hasRole
  {
    hasRole := false;
    var i := 0;
    while i < |roleNames|
      invariant 0 <= i <= |roleNames|
      invariant !hasRole
      invariant forall j :: 0 <= j < i ==> roleNames[j] != userRole
    {
      if userRole == roleNames[i] {
        hasRole := true;
        break;
      }
      i := i + 1;
    }
  }

  /** Case matters: the lower-case `admin` role is not the `Admin` role. */
  method CaseSensitiveRoles() returns (admitted: bool)
    ensures !admitted
  {
    admitted := HasRole("admin", ["Admin", "Super Admin"]);
  }

  /** The role stored under `role_name` is always text (only RequireAuth sets it). */
  method RequireRole(c: Context, roleNames: seq<string>)
    requires "role_name" in c.keys ==> c.keys["role_name"].Text?
    modifies c
    ensures c.keys == old(c.keys) && c.headers == old(c.headers)
    ensures "role_name" !in c.keys ==>
      c.reply == Some(Error(403, "Access denied")) && c.aborted && c.proceeded == old(c.proceeded)
    ensures "role_name" in c.keys && c.keys["role_name"].text !in roleNames ==>
      c.reply == Some(Error(403, "Insufficient permissions")) && c.aborted && c.proceeded == old(c.proceeded)
    ensures "role_name" in c.keys && c.keys["role_name"].text in roleNames ==>
      c.proceeded && c.reply == old(c.reply) && c.aborted == old(c.aborted)
  {
    if "role_name" !in c.keys {
      c.JSON(Error(403, "Access denied"));
      c.Abort();
      return;
    }

    var userRole := c.keys["role_name"].text;
    var hasRole := HasRole(userRole, roleNames);
    if !hasRole {
      c.JSON(Error(403, "Insufficient permissions"));
      c.Abort();
      return;
    }

    c.Next();
  }

  /** Permissions are not checked: every request continues. */
  method RequirePermission(c: Context, permission: string)
    modifies c
    ensures c.proceeded
    ensures c.keys == old(c.keys) && c.reply == old(c.reply) && c.aborted == old(c.aborted)
    ensures c.headers == old(c.headers)
  {
    c.Next();
  }

  /** A request that passed RequireAuth passes RequireRole exactly when its
      session's role name is on the list; without a credential neither gate
      admits it. */
  method AuthThenRole(request: Request, store: SessionStore, now: int, roleNames: seq<string>)
    returns (admitted: bool)
    requires store.Valid()
    modifies store
    ensures store.Valid()
    ensures var l := LookupAt(old(store.sessions), SessionIdOf(request), now, IdleTimeout);
      admitted <==> SessionIdOf(request) != "" && l.found.Some? && l.found.value.roleName in roleNames
  {
    var auth := new Context(request);
    RequireAuth(auth, store, now);
    if !auth.proceeded {
      return false;
    }
    var role := new Context(request);
    role.keys := auth.keys;
    RequireRole(role, roleNames);
    admitted := role.proceeded;
  }
}
