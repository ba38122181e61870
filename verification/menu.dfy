/** The sidebar shown to a logged-in user: the menu entries their role may
    see, the role caption in the header, and which link is highlighted. */
module Menu {
  import opened Common
  import opened Seqs
  import opened Routing

  /** Who an entry is for: both roles, or administrators only. */
  datatype Audience = Everyone | AdminOnly

  /** One menu entry: its path, its caption and its audience. */
  datatype MenuItem = MenuItem(path: string, text: string, audience: Audience)

  /** The role list an audience stands for. */
  function Roles(a: Audience): seq<string> {
    if a == AdminOnly then ["admin"] else ["admin", "security"]
  }

  const DashboardItem := MenuItem("/dashboard", "Dashboard", Everyone)
  const VisitorLogItem := MenuItem("/visitor-log", "Visitor Log", Everyone)
  const AnalyticsItem := MenuItem("/analytics", "Analytics", AdminOnly)
  const UserManagementItem := MenuItem("/user-management", "User Management", AdminOnly)
  const SettingsItem := MenuItem("/settings", "Settings", Everyone)

  /** The entries in the order they are declared and listed. */
  const MenuItems := [DashboardItem, VisitorLogItem, AnalyticsItem, UserManagementItem, SettingsItem]

  /** `item.roles.includes(userRole)`, decided on the audience. */
  function ShownTo(role: Option<string>): MenuItem -> bool {
    (item: MenuItem) => role == Some("admin") || (role == Some("security") && item.audience == Everyone)
  }

  /** The decision is list membership: a null role is in no list. */
  lemma ShownToIsIncludes(role: Option<string>, item: MenuItem)
    ensures ShownTo(role)(item) <==> role.Some? && role.value in Roles(item.audience)
  {
  }

  /** `filteredMenuItems`: the entries shown to the user's role, in declaration order. */
  function VisibleItems(role: Option<string>): (r: seq<MenuItem>)
    ensures forall item :: item in r <==> item in MenuItems && ShownTo(role)(item)
    ensures |r| <= |MenuItems|
  {
    Filter(MenuItems, ShownTo(role))
  }

  /** A filter that keeps nothing gives the empty list. */
  lemma FilterNone(s: seq<MenuItem>, p: MenuItem -> bool)
    requires forall x :: x in s ==> !p(x)
    ensures Filter(s, p) == []
  {
  }

  /** An administrator sees all five entries. */
  lemma AdminSeesAll()
    ensures VisibleItems(Some("admin")) == MenuItems
  {
    assert forall x :: x in MenuItems ==> ShownTo(Some("admin"))(x);
    FilterAll(MenuItems, ShownTo(Some("admin")));
  }

  /** A guard sees the dashboard, the visitor log and the settings. */
  lemma GuardSeesThree()
    ensures VisibleItems(Some("security")) == [DashboardItem, VisitorLogItem, SettingsItem]
  {
    var p := ShownTo(Some("security"));
    assert p(DashboardItem) && p(VisitorLogItem) && p(SettingsItem);
    assert !p(AnalyticsItem) && !p(UserManagementItem);
    FilterKeepsFirstTwoAndLast(MenuItems, p);
  }

  /** Filtering five entries of which the middle two fail. */
  lemma FilterKeepsFirstTwoAndLast(s: seq<MenuItem>, p: MenuItem -> bool)
    requires |s| == 5 && p(s[0]) && p(s[1]) && !p(s[2]) && !p(s[3]) && p(s[4])
    ensures Filter(s, p) == [s[0], s[1], s[4]]
  {
    assert s[4..][1..] == [] && s[3..][1..] == s[4..] && s[2..][1..] == s[3..] && s[1..][1..] == s[2..];
    assert Filter(s[4..], p) == [s[4]];
    assert Filter(s[2..], p) == [s[4]];
    assert Filter(s[1..], p) == [s[1], s[4]];
  }

  /** Any other role, or none, sees nothing. */
  lemma OthersSeeNothing(role: Option<string>)
    requires role != Some("admin") && role != Some("security")
    ensures VisibleItems(role) == []
  {
    FilterNone(MenuItems, ShownTo(role));
  }

  /** No two entries share a path. */
  lemma PathsDistinct(a: MenuItem, b: MenuItem)
    requires a in MenuItems && b in MenuItems && a.path == b.path
    ensures a == b
  {
  }

  /** Every entry a role is shown leads, for a logged-in user of that role,
      to a page rather than a redirect. */
  lemma VisibleItemsRender(role: Option<string>, item: MenuItem)
    requires item in VisibleItems(role)
    ensures !Route(Auth(true, role), item.path).Redirect? && Route(Auth(true, role), item.path) != NoMatch
  {
    assert item in MenuItems && ShownTo(role)(item);
    var a := Auth(true, role);
    if item.audience == AdminOnly {
      assert role == Some("admin");
    }
    if item == DashboardItem {
      assert Route(a, "/dashboard") == Home(a);
    } else if item == VisitorLogItem {
      assert Route(a, "/visitor-log") == VisitorLogScreen;
    } else if item == AnalyticsItem {
      assert Route(a, "/analytics") == AnalyticsScreen;
    } else if item == UserManagementItem {
      assert Route(a, "/user-management") == UserManagementScreen;
    } else {
      assert Route(a, "/settings") == SettingsScreen;
    }
  }

  /** The caption under the title: "Admin" exactly for the 'admin' role. */
  function RoleCaption(role: Option<string>): (t: string)
    ensures t == "Admin" <==> role == Some("admin")
    ensures t == "Security" <==> role != Some("admin")
  {
    if role == Some("admin") then "Admin" else "Security"
  }

  /** The link of an entry is highlighted exactly when it is the current path. */
  function IsActive(pathname: string, item: MenuItem): (b: bool)
    ensures b <==> pathname == item.path
  {
    pathname == item.path
  }

  /** At most one visible entry is highlighted, because the entries' paths differ. */
  lemma OneActiveLink(role: Option<string>, pathname: string, i: int, j: int)
    requires 0 <= i < |VisibleItems(role)| && 0 <= j < |VisibleItems(role)|
    requires IsActive(pathname, VisibleItems(role)[i]) && IsActive(pathname, VisibleItems(role)[j])
    ensures VisibleItems(role)[i] == VisibleItems(role)[j]
  {
    var r := VisibleItems(role);
    assert r[i] in r && r[j] in r;
    PathsDistinct(r[i], r[j]);
  }
}
