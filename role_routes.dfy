/** The role utilities used after login: the route of each role, where
    `navigateByRole` sends the browser, the role checks, and a second table of
    role display names. */
module RoleRoutes {
  import opened Js
  import Navigation

  const LoginPath: string := "/login"

  const Routes: map<string, string> :=
    map[Navigation.SuperAdmin := "/dashboard/super-admin", Navigation.MunicipalAdmin := "/dashboard/municipal",
        Navigation.FineChecker := "/dashboard/checker"]

  /** The route table and the navigation's dashboard paths are the same. */
  lemma RoutesAreDashboardPaths()
    ensures Routes == Navigation.DashboardPaths
  {
  }

  /** `navigateByRole(role)`, as the path it assigns to
      `window.location.href`: the role's route, or the login page when the
      role has none. */
  function NavigateByRole(role: Option<Value>): (target: string)
    ensures Navigation.RoleKey(role) in Routes ==> target == Routes[Navigation.RoleKey(role)]
    ensures Navigation.RoleKey(role) !in Routes ==> target == LoginPath
  {
    var k := Navigation.RoleKey(role);
    var route := if k in Routes then Routes[k] else "";
    if route == "" then LoginPath else route
  }

  /** A known role lands on the dashboard the navigation shows for it; an
      unknown one lands on the login page, not on the navigation's
      '/dashboard' default. */
  lemma NavigateMatchesDashboard(role: Option<Value>)
    ensures Navigation.RoleKey(role) in Navigation.Roles ==> NavigateByRole(role) == Navigation.GetDashboardPath(role)
    ensures Navigation.RoleKey(role) !in Navigation.Roles ==>
      NavigateByRole(role) == LoginPath && NavigateByRole(role) != Navigation.GetDashboardPath(role)
  {
    RoutesAreDashboardPaths();
    Navigation.TablesCoverRoles();
  }

  /** The second argument of `hasRequiredRole`: one role, or an array of
      roles. */
  datatype Required = One(role: Option<Value>) | AnyOf(roles: seq<Option<Value>>)

  /** `hasRequiredRole(userRole, requiredRole)`: membership for an array,
      strict equality otherwise. */
  function HasRequiredRole(userRole: Option<Value>, required: Required): (r: bool)
    ensures required.AnyOf? ==> (r <==> exists i :: 0 <= i < |required.roles| && required.roles[i] == userRole)
    ensures required.One? ==> (r <==> userRole == required.role)
  {
    match required
    case One(x) => userRole == x
    case AnyOf(xs) => userRole in xs
  }

  /** A one-element array requires what its element does. */
  lemma SingletonArray(userRole: Option<Value>, x: Option<Value>)
    ensures HasRequiredRole(userRole, AnyOf([x])) == HasRequiredRole(userRole, One(x))
  {
  }

  /** Adding roles to the array never locks a user out. */
  lemma MoreRolesAdmitMore(userRole: Option<Value>, xs: seq<Option<Value>>, ys: seq<Option<Value>>)
    ensures HasRequiredRole(userRole, AnyOf(xs)) ==> HasRequiredRole(userRole, AnyOf(xs + ys))
  {
    if userRole in xs {
      var i :| 0 <= i < |xs| && xs[i] == userRole;
      assert (xs + ys)[i] == userRole;
    }
  }

  const RoleDisplayNames: map<string, string> :=
    map[Navigation.SuperAdmin := "Super Administrator", Navigation.MunicipalAdmin := "Municipal Council Admin",
        Navigation.FineChecker := "Fine Checker"]

  /** `displayNames[role] || 'Unknown Role'` */
  function GetRoleDisplayName(role: Option<Value>): (name: string)
    ensures Navigation.RoleKey(role) in RoleDisplayNames ==> name == RoleDisplayNames[Navigation.RoleKey(role)]
    ensures Navigation.RoleKey(role) !in RoleDisplayNames ==> name == "Unknown Role"
  {
    var k := Navigation.RoleKey(role);
    if k in RoleDisplayNames && RoleDisplayNames[k] != "" then RoleDisplayNames[k] else "Unknown Role"
  }

  /** The two display-name tables agree except on the super admin, whom this
      one calls 'Super Administrator' and the navigation 'Super Admin'. */
  lemma DisplayNamesAgreeButSuperAdmin(role: Option<Value>)
    ensures Navigation.RoleKey(role) != Navigation.SuperAdmin ==>
      GetRoleDisplayName(role) == Navigation.GetRoleDisplayName(role)
    ensures Navigation.RoleKey(role) == Navigation.SuperAdmin ==>
      GetRoleDisplayName(role) == "Super Administrator" && Navigation.GetRoleDisplayName(role) == "Super Admin"
  {
  }

  /** `role === ROLES.SUPER_ADMIN || role === ROLES.MUNICIPAL_ADMIN` */
  predicate CanAccessAdminFeatures(role: Option<Value>)
  {
    role == Some(Str(Navigation.SuperAdmin)) || role == Some(Str(Navigation.MunicipalAdmin))
  }

  /** `role === ROLES.SUPER_ADMIN` */
  predicate IsSuperAdmin(role: Option<Value>)
  {
    role == Some(Str(Navigation.SuperAdmin))
  }

  /** Exactly the two admin roles reach the admin features; a fine checker
      does not, and every super admin does. */
  lemma AdminRoles(role: Option<Value>)
    ensures CanAccessAdminFeatures(role) <==> HasRequiredRole(role, AnyOf([Some(Str(Navigation.SuperAdmin)), Some(Str(Navigation.MunicipalAdmin))]))
    ensures IsSuperAdmin(role) ==> CanAccessAdminFeatures(role)
    ensures !CanAccessAdminFeatures(Some(Str(Navigation.FineChecker)))
  {
  }

  /** An admin always has a route of their own. */
  lemma AdminsHaveRoutes(role: Option<Value>)
    requires CanAccessAdminFeatures(role)
    ensures NavigateByRole(role) != LoginPath
  {
  }
}
