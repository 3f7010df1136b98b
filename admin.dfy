/** The admin dashboard: every role that reaches it gets the user and the
    statistics, and the role name read from the database decides which lists
    of recent records are added. */
module Admin {
  import opened Wrappers
  import opened Db
  import opened Http
  import opened AuthHandlers

  /** The optional lists of recent records. */
  datatype Section = RecentNews | RecentEvents | RecentOrders

  /** Each recent list asks for the five newest records. */
  const RecentLimit: nat := 5

  /** The dashboard counters, read with one COUNT query each. */
  datatype Stats = Stats(
    totalUsers: int,
    totalNews: int,
    totalEvents: int,
    totalMerchandise: int,
    totalOrders: int,
    pendingOrders: int)

  /** The dashboard reply; `recent` maps each list that is filled to the limit
      it was requested with. */
  datatype Dashboard = Dashboard(user: User, stats: Stats, recent: map<Section, nat>)

  /** The role switch: exact, case-sensitive matches on the role name. */
  function RecentLists(roleName: string): (r: map<Section, nat>)
    ensures forall s :: s in r ==> r[s] == RecentLimit
    ensures RecentOrders in r <==> roleName in ["Admin", "Super Admin", "Manager"]
    ensures RecentNews in r <==> roleName in ["Admin", "Super Admin", "Editor", "Content Manager"]
    ensures RecentEvents in r <==> RecentNews in r
  {
    if roleName == "Admin" || roleName == "Super Admin" then
      map[RecentNews := RecentLimit, RecentEvents := RecentLimit, RecentOrders := RecentLimit]
    else if roleName == "Editor" || roleName == "Content Manager" then
      map[RecentNews := RecentLimit, RecentEvents := RecentLimit]
    else if roleName == "Manager" then
      map[RecentOrders := RecentLimit]
    else
      map[]
  }

  /** GetAdminDashboard: the user is re-read by the session's user id; any
      failure of that query (no row included) is a 500. Otherwise the reply
      holds the user, the counters, and the recent lists of the role the row
      names now, not the role recorded in the session. */
  function GetAdminDashboard(fetched: Query<UserRow>, stats: Stats): (r: Result<Dashboard, Reply>)
    ensures !fetched.Row? ==> r == Err(Error(500, "Failed to fetch user data"))
    ensures fetched.Row? ==> r.Ok? && r.value.user == UserOf(fetched.row) && r.value.stats == stats
    ensures fetched.Row? && fetched.row.roleName.None? ==> r.Ok? && r.value.recent == map[]
    ensures fetched.Row? && fetched.row.roleName.Some? ==>
      r.Ok? && r.value.recent == RecentLists(fetched.row.roleName.value)
  {
    match fetched
    case Row(row) =>
      var user := UserOf(row);
      Ok(Dashboard(user, stats, RecentLists(user.roleName)))
    case _ => Err(Error(500, "Failed to fetch user data"))
  }

  /** No role sees a list that the Admin role does not see. */
  lemma AdminSeesMost(roleName: string)
    ensures RecentLists(roleName).Keys <= RecentLists("Admin").Keys
    ensures RecentLists("Super Admin") == RecentLists("Admin")
  {
  }

  /** The seeded administrator role is spelled `admin`, which no case of the
      switch matches: such a user gets the counters and no recent list. */
  lemma LowercaseAdminSeesNoList(row: UserRow, stats: Stats)
    requires row.roleName == Some("admin")
    ensures GetAdminDashboard(Row(row), stats).Ok?
    ensures GetAdminDashboard(Row(row), stats).value.recent == map[]
    ensures GetAdminDashboard(Row(row), stats).value.stats == stats
  {
    assert "admin" != "Admin" by { assert "admin"[0] != "Admin"[0]; }
  }
}
