/** The authorization middleware factories `hasPermission` and `hasRole`, and the guards built
    from them. Each guard receives the result of `Admin.findById(req.admin.id)`; a lookup that
    throws is `Failed`. */
module Permissions {
  import opened Wrappers
  import opened Strings
  import opened Http
  import opened AdminModel

  const AdminNotFound := Response(404, "Admin not found")

  function PermissionDenied(permission: string): Response {
    Response(403, "Access denied. Required permission: " + permission)
  }

  /** The guard `hasPermission(permission)`. A missing `permissions` field makes
      `admin.permissions.includes` throw, which the handler answers with a 500. */
  function HasPermission(permission: string, found: Fetch<Account>): (o: Outcome<()>)
    ensures o.Pass? <==>
      (found.Found? && (found.record.role == RoleSuperAdmin
                        || (found.record.permissions.Some? && permission in found.record.permissions.value)))
    ensures found.Missing? ==> o == Stop(AdminNotFound)
    ensures found.Found? && found.record.role != RoleSuperAdmin ==>
      (o.Pass? || o == Stop(PermissionDenied(permission)) || o == Stop(ServerError("Server error in permission check")))
    ensures o == Stop(PermissionDenied(permission)) <==>
      (found.Found? && found.record.role != RoleSuperAdmin && found.record.permissions.Some?
       && permission !in found.record.permissions.value)
    ensures o == Stop(ServerError("Server error in permission check")) <==>
      (found.Failed? || (found.Found? && found.record.role != RoleSuperAdmin && found.record.permissions.None?))
  {
    match found
    case Failed => Stop(ServerError("Server error in permission check"))
    case Missing => Stop(AdminNotFound)
    case Found(admin) =>
      if admin.role == RoleSuperAdmin then Pass(())
      else if admin.permissions.None? then Stop(ServerError("Server error in permission check"))
      else if permission !in admin.permissions.value then Stop(PermissionDenied(permission))
      else Pass(())
  }

  /** A super admin passes every permission check, whatever its permission list holds. */
  lemma SuperAdminBypassesPermissions(permission: string, admin: Account)
    requires admin.role == RoleSuperAdmin
    ensures forall ps :: HasPermission(permission, Found(admin.(permissions := ps))) == Pass(())
  {
  }

  /** The schema declares no `permissions`, so an account read from a collection never has the
      list, and every permission check of an account that is not a super admin ends in the
      500. */
  lemma StoredAdminsFailPermissionCheck(permission: string, accounts: seq<Account>, id: AdminId)
    requires AllDeclared(accounts)
    requires FindIn(accounts, id).Found? && FindIn(accounts, id).record.role != RoleSuperAdmin
    ensures HasPermission(permission, FindIn(accounts, id)) == Stop(ServerError("Server error in permission check"))
  {
    var i :| 0 <= i < |accounts| && accounts[i] == FindIn(accounts, id).record;
    assert Declared(accounts[i]);
  }

  /** The argument of `hasRole`: one role name, or an array of them. */
  datatype RoleSpec = One(role: string) | Many(roles: seq<string>)

  /** `Array.isArray(roles) ? roles : [roles]`. */
  function AllowedRoles(spec: RoleSpec): (r: seq<string>)
    ensures spec.One? ==> r == [spec.role]
    ensures spec.Many? ==> r == spec.roles
  {
    match spec
    case One(role) => [role]
    case Many(roles) => roles
  }

  function RoleDenied(spec: RoleSpec): Response {
    Response(403, "Access denied. Required role: " + Join(AllowedRoles(spec), " or "))
  }

  /** The guard `hasRole(roles)`; it has no super-admin bypass. */
  function HasRole(spec: RoleSpec, found: Fetch<Account>): (o: Outcome<()>)
    ensures o.Pass? <==> found.Found? && found.record.role in AllowedRoles(spec)
    ensures found.Missing? ==> o == Stop(AdminNotFound)
    ensures found.Found? && found.record.role !in AllowedRoles(spec) ==> o == Stop(RoleDenied(spec))
    ensures found.Failed? ==> o == Stop(ServerError("Server error in role check"))
  {
    match found
    case Failed => Stop(ServerError("Server error in role check"))
    case Missing => Stop(AdminNotFound)
    case Found(admin) =>
      if admin.role !in AllowedRoles(spec) then Stop(RoleDenied(spec)) else Pass(())
  }

  /** The guard `isSuperAdmin`, which is `hasRole('super_admin')`. */
  function IsSuperAdmin(found: Fetch<Account>): (o: Outcome<()>)
    ensures o.Pass? <==> found.Found? && found.record.role == RoleSuperAdmin
  {
    HasRole(One(RoleSuperAdmin), found)
  }

  /** Since `hasRole` has no bypass, a super admin is refused by a role check that does not
      name its role, with the 403 that lists the required roles. */
  lemma RoleCheckHasNoBypass(admin: Account)
    requires admin.role == RoleSuperAdmin
    ensures HasRole(One(RoleAdmin), Found(admin))
      == Stop(Response(403, "Access denied. Required role: admin"))
  {
  }

  const ManageUsers := "manage_users"
  const ManageContent := "manage_content"
  const ViewAnalytics := "view_analytics"
  const ManageSettings := "manage_settings"

  function CanManageUsers(found: Fetch<Account>): Outcome<()> { HasPermission(ManageUsers, found) }
  function CanManageContent(found: Fetch<Account>): Outcome<()> { HasPermission(ManageContent, found) }
  function CanViewAnalytics(found: Fetch<Account>): Outcome<()> { HasPermission(ViewAnalytics, found) }
  function CanManageSettings(found: Fetch<Account>): Outcome<()> { HasPermission(ManageSettings, found) }

  /** The four named guards admit a plain admin exactly when its list holds their fixed string. */
  lemma NamedGuardsAdmit(admin: Account, ps: seq<string>)
    requires admin.role != RoleSuperAdmin && admin.permissions == Some(ps)
    ensures CanManageUsers(Found(admin)).Pass? <==> "manage_users" in ps
    ensures CanManageContent(Found(admin)).Pass? <==> "manage_content" in ps
    ensures CanViewAnalytics(Found(admin)).Pass? <==> "view_analytics" in ps
    ensures CanManageSettings(Found(admin)).Pass? <==> "manage_settings" in ps
  {
  }
}
