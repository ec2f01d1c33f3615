/**
 * The permission hook the pages use: the store's four queries passed through
 * unchanged, fourteen fixed capability checks, each a `HasPermission` on one
 * literal permission string, and three role-name tests.
 */
module UsePermissions {
  import opened Wrappers
  import opened Types
  import opened AuthStore

  /** The fourteen capability helpers of the hook. */
  datatype Capability =
    | ViewUsers | CreateUsers | UpdateUsers | DeleteUsers
    | ViewAttendance | ManageAttendance
    | ViewLeaves | ApproveLeaves
    | ViewPayroll | ManagePayroll
    | ViewDocuments | ManageDocuments
    | ManageRoles | ManageSettings

  /** The literal permission each helper asks for. */
  function RequiredPermission(c: Capability): string {
    match c
    case ViewUsers => "users:read"
    case CreateUsers => "users:create"
    case UpdateUsers => "users:update"
    case DeleteUsers => "users:delete"
    case ViewAttendance => "attendance:read"
    case ManageAttendance => "attendance:create"
    case ViewLeaves => "leaves:read"
    case ApproveLeaves => "leaves:approve"
    case ViewPayroll => "payroll:read"
    case ManagePayroll => "payroll:create"
    case ViewDocuments => "documents:read"
    case ManageDocuments => "documents:create"
    case ManageRoles => "roles:manage"
    case ManageSettings => "settings:manage"
  }

  /** Whether the session has the capability: a permission carries its literal as name or full name. */
  function Can(s: AuthState, c: Capability): (r: bool)
    ensures r <==> exists i :: 0 <= i < |s.permissions|
                    && (s.permissions[i].name == RequiredPermission(c)
                        || s.permissions[i].fullName == Some(RequiredPermission(c)))
  {
    HasPermission(s, RequiredPermission(c))
  }

  /** No two helpers ask for the same permission. */
  lemma RequiredPermissionInjective(c: Capability, d: Capability)
    requires c != d
    ensures RequiredPermission(c) != RequiredPermission(d)
  {
  }

  /** After logout every helper answers no. */
  lemma LogoutRevokesEveryCapability(s: AuthState, c: Capability)
    ensures !Can(Logout(s), c)
  {
  }

  /**
   * The navigation table asks for `leave:read` while the hook asks for
   * `leaves:read`: a session holding only the former cannot view leaves.
   */
  lemma LeaveReadSpellingsDiffer(p: Permission)
    requires p.name == "leave:read" && p.fullName == Some("leave:read")
    ensures !Can(SetPermissions(Initial, [p]), ViewLeaves)
    ensures HasPermission(SetPermissions(Initial, [p]), "leave:read")
  {
  }

  /** `role?.name === expected`: false without a role, true only on an exact name. */
  function RoleNamed(role: Option<Role>, expected: string): (r: bool)
    ensures r <==> role.Some? && role.value.name == expected
    ensures role.None? ==> !r
  {
    match role
    case None => false
    case Some(rl) => rl.name == expected
  }

  function IsAdmin(s: AuthState): bool { RoleNamed(s.role, "Admin") }
  function IsManager(s: AuthState): bool { RoleNamed(s.role, "Manager") }
  function IsEmployee(s: AuthState): bool { RoleNamed(s.role, "Employee") }

  /** The three role tests never agree on a role: at most one holds. */
  lemma AtMostOneRoleKind(s: AuthState)
    ensures !(IsAdmin(s) && IsManager(s))
    ensures !(IsAdmin(s) && IsEmployee(s))
    ensures !(IsManager(s) && IsEmployee(s))
    ensures s.role.None? ==> !IsAdmin(s) && !IsManager(s) && !IsEmployee(s)
  {
  }
}
