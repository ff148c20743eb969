/** The role-based navigation configuration: the three roles, their display
    names, their dashboard paths, the sidebar items of each role, and the
    lookups with their defaults. A role is looked up as the property named by
    its string conversion, so `undefined` looks up "undefined". */
module Navigation {
  import opened Js
  import opened Strings

  const SuperAdmin: string := "SUPER_ADMIN"
  const MunicipalAdmin: string := "MUNICIPAL_ADMIN"
  const FineChecker: string := "FINE_CHECKER"

  const Roles: set<string> := {SuperAdmin, MunicipalAdmin, FineChecker}

  const RoleDisplayNames: map<string, string> :=
    map[SuperAdmin := "Super Admin", MunicipalAdmin := "Municipal Council Admin", FineChecker := "Fine Checker"]

  const SuperAdminPath: string := "/dashboard/super-admin"
  const MunicipalAdminPath: string := "/dashboard/municipal"
  const FineCheckerPath: string := "/dashboard/checker"

  const DashboardPaths: map<string, string> :=
    map[SuperAdmin := SuperAdminPath, MunicipalAdmin := MunicipalAdminPath, FineChecker := FineCheckerPath]

  /** A sidebar entry; its icon is a React component and is not modelled. */
  datatype NavItem = NavItem(name: string, path: string)

  // Each path below is its role's dashboard path followed by a tail, as the
  // literal paths of the configuration read.

  const SuperAdminNav: seq<NavItem> := [
    NavItem("Dashboard", SuperAdminPath),
    NavItem("Vehicle Owners", SuperAdminPath + "/vehicle-owners"),
    NavItem("Inspectors", SuperAdminPath + "/inspectors"),
    NavItem("Council Officers", SuperAdminPath + "/council-officers"),
    NavItem("Settings", SuperAdminPath + "/settings")]

  const MunicipalAdminNav: seq<NavItem> := [
    NavItem("Dashboard", MunicipalAdminPath),
    NavItem("Parking Zones", MunicipalAdminPath + "/parking-zones"),
    NavItem("Inspectors", MunicipalAdminPath + "/inspectors"),
    NavItem("Fine Checkers", MunicipalAdminPath + "/fine-checkers"),
    NavItem("Settings", MunicipalAdminPath + "/settings")]

  const FineCheckerNav: seq<NavItem> := [
    NavItem("Dashboard", FineCheckerPath),
    NavItem("Fine Payments", FineCheckerPath + "/fine-payments"),
    NavItem("Payment History", FineCheckerPath + "/payment-history"),
    NavItem("Parking Revenues", FineCheckerPath + "/parking-revenues"),
    NavItem("Settings", FineCheckerPath + "/settings")]

  const NavigationConfig: map<string, seq<NavItem>> :=
    map[SuperAdmin := SuperAdminNav, MunicipalAdmin := MunicipalAdminNav, FineChecker := FineCheckerNav]

  /** The property name a role value is looked up under. */
  function RoleKey(role: Option<Value>): string
  {
    TemplateText(role)
  }

  /** The three tables are keyed by exactly the three roles. */
  lemma TablesCoverRoles()
    ensures RoleDisplayNames.Keys == Roles
    ensures DashboardPaths.Keys == Roles
    ensures NavigationConfig.Keys == Roles
  {
  }

  /** `NAVIGATION_CONFIG[role] || []`: an array is truthy even when empty. */
  function GetNavigationItems(role: Option<Value>): (items: seq<NavItem>)
    ensures RoleKey(role) !in Roles ==> items == []
    ensures RoleKey(role) == SuperAdmin ==> items == SuperAdminNav
    ensures RoleKey(role) == MunicipalAdmin ==> items == MunicipalAdminNav
    ensures RoleKey(role) == FineChecker ==> items == FineCheckerNav
  {
    var k := RoleKey(role);
    if k in NavigationConfig then NavigationConfig[k] else []
  }

  /** `ROLE_DISPLAY_NAMES[role] || 'Unknown Role'` */
  function GetRoleDisplayName(role: Option<Value>): (name: string)
    ensures RoleKey(role) in Roles ==> name == RoleDisplayNames[RoleKey(role)]
    ensures RoleKey(role) !in Roles ==> name == "Unknown Role"
    ensures name != ""
  {
    var k := RoleKey(role);
    if k in RoleDisplayNames && RoleDisplayNames[k] != "" then RoleDisplayNames[k] else "Unknown Role"
  }

  /** `DASHBOARD_PATHS[role] || '/dashboard'` */
  function GetDashboardPath(role: Option<Value>): (path: string)
    ensures RoleKey(role) in Roles ==> path == DashboardPaths[RoleKey(role)]
    ensures RoleKey(role) !in Roles ==> path == "/dashboard"
    ensures "/dashboard" <= path
  {
    var k := RoleKey(role);
    if k in DashboardPaths && DashboardPaths[k] != "" then DashboardPaths[k] else "/dashboard"
  }

  /** What a role's sidebar promises: it opens on the role's dashboard, every
      entry lies under that dashboard, no two entries share a path (the paths
      are the sidebar's React keys), and it ends with the role's settings. */
  predicate WellFormedNav(items: seq<NavItem>, base: string)
  {
    && items != []
    && items[0].path == base
    && (forall i :: 0 <= i < |items| ==> base <= items[i].path)
    && (forall i, j :: 0 <= i < j < |items| ==> items[i].path != items[j].path)
    && items[|items| - 1] == NavItem("Settings", base + "/settings")
  }

  lemma SuperAdminNavWellFormed()
    ensures WellFormedNav(SuperAdminNav, DashboardPaths[SuperAdmin])
  {
    var tails := ["", "/vehicle-owners", "/inspectors", "/council-officers", "/settings"];
    assert SuperAdminPath + "" == SuperAdminPath;
    DistinctPaths(SuperAdminNav, SuperAdminPath, tails);
  }

  lemma MunicipalAdminNavWellFormed()
    ensures WellFormedNav(MunicipalAdminNav, DashboardPaths[MunicipalAdmin])
  {
    var tails := ["", "/parking-zones", "/inspectors", "/fine-checkers", "/settings"];
    assert MunicipalAdminPath + "" == MunicipalAdminPath;
    assert tails[1][1] != tails[3][1];
    DistinctPaths(MunicipalAdminNav, MunicipalAdminPath, tails);
  }

  lemma FineCheckerNavWellFormed()
    ensures WellFormedNav(FineCheckerNav, DashboardPaths[FineChecker])
  {
    var tails := ["", "/fine-payments", "/payment-history", "/parking-revenues", "/settings"];
    assert FineCheckerPath + "" == FineCheckerPath;
    DistinctPaths(FineCheckerNav, FineCheckerPath, tails);
  }

  /** Paths made of one base and five pairwise different tails all lie
      under the base and are pairwise different. */
  lemma DistinctPaths(items: seq<NavItem>, base: string, tails: seq<string>)
    requires |items| == |tails| == 5
    requires forall i :: 0 <= i < 5 ==> items[i].path == base + tails[i]
    requires forall i, j :: 0 <= i < j < 5 ==> tails[i] != tails[j]
    ensures forall i :: 0 <= i < |items| ==> base <= items[i].path
    ensures forall i, j :: 0 <= i < j < |items| ==> items[i].path != items[j].path
  {
    forall i, j | 0 <= i < j < |items|
      ensures items[i].path != items[j].path
    {
      SameBaseTails(base, tails[i], tails[j]);
    }
  }

  lemma SameBaseTails(base: string, a: string, b: string)
    ensures base + a == base + b ==> a == b
  {
    assert (base + a)[|base|..] == a;
    assert (base + b)[|base|..] == b;
  }

  /** Every role that has a sidebar has a well-formed one, rooted at its
      dashboard path. */
  lemma NavigationWellFormed(role: Option<Value>)
    requires RoleKey(role) in Roles
    ensures WellFormedNav(GetNavigationItems(role), GetDashboardPath(role))
  {
    SuperAdminNavWellFormed();
    MunicipalAdminNavWellFormed();
    FineCheckerNavWellFormed();
  }

  /** An unknown role has no sidebar, no name and the bare dashboard path. */
  lemma UnknownRole(role: Option<Value>)
    requires RoleKey(role) !in Roles
    ensures GetNavigationItems(role) == []
    ensures GetRoleDisplayName(role) == "Unknown Role"
    ensures GetDashboardPath(role) == "/dashboard"
  {
  }

  /** `undefined` is an unknown role. */
  lemma UndefinedRoleUnknown()
    ensures RoleKey(None) !in Roles
  {
  }
}
