/** The in-memory session registry: a map from session handle to a record
    carrying the user's identity, the time of its last use and its expiry.
    Every operation of the registry runs under one exclusive lock, so each is
    one atomic step here. Time is an integer count of seconds supplied by the
    caller as `now`; handle generation is a caller-supplied `handle`. */
module Sessions {
  import opened Wrappers

  /** The inactivity timeout, ten minutes, in seconds. */
  const IdleTimeout: int := 10 * 60

  datatype Session = Session(
    id: string,
    userId: string,
    username: string,
    email: string,
    roleId: string,
    roleName: string,
    lastActivity: int,
    expiresAt: int)

  type Store = map<string, Session>

  /** The identity part of a record, which no operation ever changes. */
  predicate SameIdentity(a: Session, b: Session) {
    a.id == b.id && a.userId == b.userId && a.username == b.username &&
    a.email == b.email && a.roleId == b.roleId && a.roleName == b.roleName
  }

  /** The lookup's test: the current time lies strictly after the expiry. */
  predicate Expired(s: Session, now: int) {
    now > s.expiresAt
  }

  /** The sweep's test: expired, or idle for longer than the timeout. */
  predicate Stale(s: Session, now: int, timeout: int) {
    now > s.expiresAt || now - s.lastActivity > timeout
  }

  /** What every record the registry builds satisfies: it is stored under its
      own handle, and it expires exactly one timeout after its last use. */
  predicate Consistent(m: Store, timeout: int) {
    forall h :: h in m ==> m[h].id == h && m[h].expiresAt == m[h].lastActivity + timeout
  }

  // ---------------------------------------------------------------------
  // The four operations as functions on the map (the specification of the
  // class below, and what multi-step properties are stated about).
  // ---------------------------------------------------------------------

  /** The store after CreateSession stored a new record under `handle`. */
  function Inserted(m: Store, handle: string, userId: string, username: string, email: string,
                    roleId: string, roleName: string, now: int, timeout: int): (r: Store)
    ensures r.Keys == m.Keys + {handle}
    ensures r[handle].id == handle && r[handle].userId == userId && r[handle].username == username
    ensures r[handle].email == email && r[handle].roleId == roleId && r[handle].roleName == roleName
    ensures r[handle].lastActivity == now && r[handle].expiresAt == now + timeout
    ensures forall h :: h in m && h != handle ==> r[h] == m[h]
  {
    m[handle := Session(handle, userId, username, email, roleId, roleName, now, now + timeout)]
  }

  datatype Looked = Looked(store: Store, found: Option<Session>)

  /** GetSession: absent gives not-found; expired is deleted and gives not-found;
      otherwise the record's window slides forward to `now`. */
  function LookupAt(m: Store, handle: string, now: int, timeout: int): (l: Looked)
    ensures l.found.Some? <==> handle in m && !Expired(m[handle], now)
    ensures l.found.Some? ==> SameIdentity(l.found.value, m[handle]) && l.found.value.expiresAt == now + timeout
    ensures l.store.Keys == if l.found.Some? || handle !in m then m.Keys else m.Keys - {handle}
    ensures forall h :: h in l.store && h != handle ==> l.store[h] == m[h]
  {
    if handle !in m then Looked(m, None)
    else if Expired(m[handle], now) then Looked(m - {handle}, None)
    else
      var s := m[handle].(lastActivity := now, expiresAt := now + timeout);
      Looked(m[handle := s], Some(s))
  }

  /** DeleteSession. */
  function Removed(m: Store, handle: string): (r: Store)
    ensures r.Keys == m.Keys - {handle}
    ensures forall h :: h in r ==> r[h] == m[h]
  {
    m - {handle}
  }

  /** The sweep: the records that are not stale at `now`, unchanged. */
  function Swept(m: Store, now: int, timeout: int): (r: Store)
    ensures forall h :: h in r <==> h in m && !Stale(m[h], now, timeout)
    ensures forall h :: h in r ==> r[h] == m[h] && !Expired(r[h], now)
  {
    map h | h in m && !Stale(m[h], now, timeout) :: m[h]
  }

  /** A run of lookups of one handle at the given times, in order. */
  function LookupAll(m: Store, handle: string, times: seq<int>, timeout: int): Looked
    decreases |times|
  {
    if times == [] then Looked(m, if handle in m then Some(m[handle]) else None)
    else
      var first := LookupAt(m, handle, times[0], timeout);
      if first.found.None? then first else LookupAll(first.store, handle, times[1..], timeout)
  }

  // ---------------------------------------------------------------------
  // Properties of the operations.
  // ---------------------------------------------------------------------

  /** A fresh handle adds exactly one record, with the caller's identity, last
      activity now and expiry one timeout later; every other entry stays. */
  lemma CreateAddsOneRecord(m: Store, handle: string, userId: string, username: string, email: string,
                            roleId: string, roleName: string, now: int, timeout: int)
    requires handle !in m
    ensures var r := Inserted(m, handle, userId, username, email, roleId, roleName, now, timeout);
      && r.Keys == m.Keys + {handle}
      && |r| == |m| + 1
      && r[handle].id == handle && r[handle].userId == userId && r[handle].username == username
      && r[handle].email == email && r[handle].roleId == roleId && r[handle].roleName == roleName
      && r[handle].lastActivity == now && r[handle].expiresAt == now + timeout
      && forall h :: h in m ==> r[h] == m[h]
  {
    var r := Inserted(m, handle, userId, username, email, roleId, roleName, now, timeout);
    assert r.Keys == m.Keys + {handle};
  }

  /** An absent handle is not found, and the store is left as it was. */
  lemma LookupAbsent(m: Store, handle: string, now: int, timeout: int)
    requires handle !in m
    ensures LookupAt(m, handle, now, timeout) == Looked(m, None)
  {
  }

  /** A record whose expiry lies strictly before `now` is deleted on lookup and
      not returned; nothing else is touched. */
  lemma LookupExpired(m: Store, handle: string, now: int, timeout: int)
    requires handle in m && now > m[handle].expiresAt
    ensures var l := LookupAt(m, handle, now, timeout);
      && l.found == None
      && l.store.Keys == m.Keys - {handle}
      && forall h :: h in l.store ==> l.store[h] == m[h]
  {
  }

  /** A live record (including one exactly at its expiry instant) is returned
      with its identity intact and its window slid forward to `now`; no other
      record changes and no record is added or removed. */
  lemma LookupLive(m: Store, handle: string, now: int, timeout: int)
    requires handle in m && now <= m[handle].expiresAt
    ensures var l := LookupAt(m, handle, now, timeout);
      && l.found.Some?
      && SameIdentity(l.found.value, m[handle])
      && l.found.value.lastActivity == now
      && l.found.value.expiresAt == now + timeout
      && l.store.Keys == m.Keys
      && l.store[handle] == l.found.value
      && forall h :: h in m && h != handle ==> l.store[h] == m[h]
  {
  }

  /** Creating and then immediately looking up returns the identity given at
      creation; the same holds for any lookup within the timeout. */
  lemma CreateThenLookup(m: Store, handle: string, userId: string, username: string, email: string,
                         roleId: string, roleName: string, now: int, later: int, timeout: int)
    requires now <= later <= now + timeout
    ensures var l := LookupAt(Inserted(m, handle, userId, username, email, roleId, roleName, now, timeout),
                              handle, later, timeout);
      && l.found.Some?
      && l.found.value.id == handle && l.found.value.userId == userId
      && l.found.value.username == username && l.found.value.email == email
      && l.found.value.roleId == roleId && l.found.value.roleName == roleName
  {
  }

  /** After a deletion the handle is never found, whatever it was before. */
  lemma DeleteThenLookup(m: Store, handle: string, now: int, timeout: int)
    ensures LookupAt(Removed(m, handle), handle, now, timeout).found == None
    ensures LookupAt(Removed(m, handle), handle, now, timeout).store == Removed(m, handle)
  {
  }

  /** Deleting removes at most the one handle, is a no-op on an absent handle,
      and deleting twice is deleting once. */
  lemma DeleteProperties(m: Store, handle: string)
    ensures Removed(m, handle).Keys == m.Keys - {handle}
    ensures forall h :: h in Removed(m, handle) ==> Removed(m, handle)[h] == m[h]
    ensures handle !in m ==> Removed(m, handle) == m
    ensures Removed(Removed(m, handle), handle) == Removed(m, handle)
  {
  }

  /** On records the registry built, the sweep's second clause (idle for more
      than the timeout) adds nothing to the first (past the expiry). */
  lemma StaleIsExpired(m: Store, now: int, timeout: int)
    requires Consistent(m, timeout)
    ensures forall h :: h in m ==> (Stale(m[h], now, timeout) <==> Expired(m[h], now))
  {
  }

  /** Every operation keeps the records consistent. */
  lemma OperationsKeepConsistency(m: Store, handle: string, userId: string, username: string,
                                  email: string, roleId: string, roleName: string, now: int, timeout: int)
    requires Consistent(m, timeout)
    ensures Consistent(Inserted(m, handle, userId, username, email, roleId, roleName, now, timeout), timeout)
    ensures Consistent(LookupAt(m, handle, now, timeout).store, timeout)
    ensures Consistent(Removed(m, handle), timeout)
    ensures Consistent(Swept(m, now, timeout), timeout)
  {
  }

  /** A record nobody has looked up for longer than the timeout is gone: a
      lookup reports not-found and deletes it, and so does the sweep. */
  lemma IdleSessionDies(m: Store, handle: string, now: int, timeout: int)
    requires Consistent(m, timeout) && handle in m
    requires now - m[handle].lastActivity > timeout
    ensures LookupAt(m, handle, now, timeout).found == None
    ensures handle !in LookupAt(m, handle, now, timeout).store
    ensures handle !in Swept(m, now, timeout)
  {
  }

  /** Sliding window: lookups at non-decreasing times, each at most one timeout
      after the previous use, keep the session alive indefinitely. */
  lemma {:induction false} KeepAlive(m: Store, handle: string, times: seq<int>, timeout: int)
    requires handle in m && Consistent(m, timeout)
    requires times != [] ==> m[handle].lastActivity <= times[0] <= m[handle].lastActivity + timeout
    requires forall i :: 0 < i < |times| ==> times[i - 1] <= times[i] <= times[i - 1] + timeout
    ensures var l := LookupAll(m, handle, times, timeout);
      && l.found.Some? && handle in l.store && Consistent(l.store, timeout)
      && SameIdentity(l.found.value, m[handle])
      && l.store[handle] == l.found.value
      && l.found.value.lastActivity == (if times == [] then m[handle].lastActivity else times[|times| - 1])
    decreases |times|
  {
    if times != [] {
      var first := LookupAt(m, handle, times[0], timeout);
      assert first.found.Some? && handle in first.store;
      assert first.store[handle].lastActivity == times[0];
      var rest := times[1..];
      assert forall i :: 0 < i < |rest| ==> rest[i - 1] <= rest[i] <= rest[i - 1] + timeout by {
        forall i | 0 < i < |rest| ensures rest[i - 1] <= rest[i] <= rest[i - 1] + timeout {
          assert rest[i - 1] == times[i] && rest[i] == times[i + 1];
        }
      }
      KeepAlive(first.store, handle, rest, timeout);
      if rest != [] {
        assert rest[|rest| - 1] == times[|times| - 1];
      }
    }
  }

  // ---------------------------------------------------------------------
  // The registry object.
  // ---------------------------------------------------------------------

  class SessionStore {
    var sessions: map<string, Session>
    const timeout: int

    ghost predicate Valid()
      reads this
    {
      timeout == IdleTimeout && Consistent(sessions, timeout)
    }

    /** The store as first created: empty, with the ten-minute timeout. */
    constructor ()
      ensures Valid() && sessions == map[]
    {
      sessions := map[];
      timeout := IdleTimeout;
    }

    method CreateSession(handle: string, userId: string, username: string, email: string,
                         roleId: string, roleName: string, now: int) returns (sessionId: string)
      requires Valid()
      modifies this
      ensures Valid()
      ensures sessionId == handle
      ensures sessions == Inserted(old(sessions), handle, userId, username, email, roleId, roleName, now, timeout)
      ensures handle !in old(sessions) ==> |sessions| == |old(sessions)| + 1
    {
      var session := Session(handle, userId, username, email, roleId, roleName, now, now + timeout);
      sessions := sessions[handle := session];
      sessionId := handle;
      if handle !in old(sessions) {
        CreateAddsOneRecord(old(sessions), handle, userId, username, email, roleId, roleName, now, timeout);
      }
    }

    method GetSession(sessionId: string, now: int) returns (found: Option<Session>)
      requires Valid()
      modifies this
      ensures Valid()
      ensures Looked(sessions, found) == LookupAt(old(sessions), sessionId, now, timeout)
      ensures found.Some? <==> sessionId in old(sessions) && !Expired(old(sessions)[sessionId], now)
      ensures found.Some? ==> SameIdentity(found.value, old(sessions)[sessionId])
                              && found.value.lastActivity == now && found.value.expiresAt == now + timeout
    {
      if sessionId !in sessions {
        return None;
      }
      var session := sessions[sessionId];
      if now > session.expiresAt {
        sessions := sessions - {sessionId};
        return None;
      }
      session := session.(lastActivity := now);
      session := session.(expiresAt := session.lastActivity + timeout);
      sessions := sessions[sessionId := session];
      found := Some(session);
    }

    method DeleteSession(sessionId: string)
      requires Valid()
      modifies this
      ensures Valid()
      ensures sessions == Removed(old(sessions), sessionId)
    {
      sessions := sessions - {sessionId};
    }

    /** One pass of the periodic cleanup: delete every stale record. */
    method Sweep(now: int)
      requires Valid()
      modifies this
      ensures Valid()
      ensures sessions == Swept(old(sessions), now, timeout)
      ensures forall h :: h in sessions ==> !Expired(sessions[h], now)
    {
      var pending := sessions.Keys;
      while pending != {}
        invariant pending <= old(sessions).Keys
        invariant forall h :: h in sessions <==>
                    h in old(sessions) && (h in pending || !Stale(old(sessions)[h], now, timeout))
        invariant forall h :: h in sessions ==> sessions[h] == old(sessions)[h]
        decreases pending
      {
        var id :| id in pending;
        if now > sessions[id].expiresAt || now - sessions[id].lastActivity > timeout {
          sessions := sessions - {id};
        }
        pending := pending - {id};
      }
    }
  }

  /** Two sessions created back to back and then looked up: each lookup
      returns its own identity, and deleting one leaves the other. */
  method CreateLookupDeleteScenario(store: SessionStore, now: int)
    requires store.Valid()
    requires "h1" !in store.sessions && "h2" !in store.sessions
    modifies store
    ensures store.Valid()
    ensures "h1" !in store.sessions && "h2" in store.sessions
  {
    var a := store.CreateSession("h1", "u1", "alice", "a@x", "r1", "admin", now);
    var b := store.CreateSession("h2", "u2", "bob", "b@x", "r2", "Editor", now);
    var s := store.GetSession(a, now);
    assert s.Some? && s.value.userId == "u1" && s.value.roleName == "admin";
    store.DeleteSession(a);
    s := store.GetSession(a, now + 1);
    assert s.None?;
    s := store.GetSession(b, now + IdleTimeout);
    assert s.Some? && s.value.userId == "u2";
  }
}
