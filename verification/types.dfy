/**
 * The shapes of the records the dashboard receives from its backend: users,
 * permissions, roles with their data-access scope, and paginated lists.
 * Only the fields the modelled logic reads are kept; dates, descriptions and
 * audit fields are dropped.
 */
module Types {
  import opened Wrappers
  import Strings

  /** Which records a role may see: 1 = ALL, 2 = TEAM, 3 = OWN. Lower is broader. */
  type DataAccessLevel = x: int | 1 <= x <= 3 witness 1

  datatype DataScope = AllData | TeamData | OwnData

  function LevelOf(scope: DataScope): DataAccessLevel {
    match scope
    case AllData => 1
    case TeamData => 2
    case OwnData => 3
  }

  /** Every data access level names exactly one scope, and back. */
  function ScopeOf(level: DataAccessLevel): (scope: DataScope)
    ensures LevelOf(scope) == level
  {
    if level == 1 then AllData else if level == 2 then TeamData else OwnData
  }

  lemma ScopeLevelRoundTrip(scope: DataScope)
    ensures ScopeOf(LevelOf(scope)) == scope
  {
  }

  /** The ten modules a permission may belong to. */
  datatype PermissionModule =
    | Users | Employees | Attendance | Leave | Payroll
    | Documents | Settings | Reports | Dashboard | System

  /** The eight verbs a permission may grant. */
  datatype PermissionAction =
    | Create | Read | Update | Delete | Approve | Export | Import | Configure

  /** The string the backend uses for a module. */
  function ModuleName(m: PermissionModule): (r: string)
    ensures ':' !in r
  {
    match m
    case Users => "users"
    case Employees => "employees"
    case Attendance => "attendance"
    case Leave => "leave"
    case Payroll => "payroll"
    case Documents => "documents"
    case Settings => "settings"
    case Reports => "reports"
    case Dashboard => "dashboard"
    case System => "system"
  }

  /** Reads a module name; anything outside the ten names is rejected. */
  function ParseModule(s: string): (r: Option<PermissionModule>)
    ensures r.Some? ==> ModuleName(r.value) == s
  {
    if s == "users" then Some(Users)
    else if s == "employees" then Some(Employees)
    else if s == "attendance" then Some(Attendance)
    else if s == "leave" then Some(Leave)
    else if s == "payroll" then Some(Payroll)
    else if s == "documents" then Some(Documents)
    else if s == "settings" then Some(Settings)
    else if s == "reports" then Some(Reports)
    else if s == "dashboard" then Some(Dashboard)
    else if s == "system" then Some(System)
    else None
  }

  lemma ModuleNameRoundTrip(m: PermissionModule)
    ensures ParseModule(ModuleName(m)) == Some(m)
  {
  }

  function ActionName(a: PermissionAction): (r: string)
    ensures ':' !in r
  {
    match a
    case Create => "create"
    case Read => "read"
    case Update => "update"
    case Delete => "delete"
    case Approve => "approve"
    case Export => "export"
    case Import => "import"
    case Configure => "configure"
  }

  function ParseAction(s: string): (r: Option<PermissionAction>)
    ensures r.Some? ==> ActionName(r.value) == s
  {
    if s == "create" then Some(Create)
    else if s == "read" then Some(Read)
    else if s == "update" then Some(Update)
    else if s == "delete" then Some(Delete)
    else if s == "approve" then Some(Approve)
    else if s == "export" then Some(Export)
    else if s == "import" then Some(Import)
    else if s == "configure" then Some(Configure)
    else None
  }

  lemma ActionNameRoundTrip(a: PermissionAction)
    ensures ParseAction(ActionName(a)) == Some(a)
  {
  }

  /**
   * A permission record. `fullName` is a virtual field the backend may omit;
   * by convention it is `module:action`.
   */
  datatype Permission = Permission(
    id: string,
    name: string,
    displayName: string,
    moduleKind: PermissionModule,
    action: PermissionAction,
    isActive: bool,
    fullName: Option<string>)

  /** The conventional `module:action` full name. */
  function ConventionalFullName(m: PermissionModule, a: PermissionAction): string {
    ModuleName(m) + ":" + ActionName(a)
  }

  /** Reads a `module:action` string back into its two parts. */
  function ParseFullName(s: string): (r: Option<(PermissionModule, PermissionAction)>)
    ensures r.Some? ==> ConventionalFullName(r.value.0, r.value.1) == s
  {
    var parts := Strings.Split(s, ':');
    if |parts| != 2 then None
    else
      match (ParseModule(parts[0]), ParseAction(parts[1]))
      case (Some(m), Some(a)) =>
        Strings.JoinSplit(s, ':');
        assert Strings.Join(parts, ":") == parts[0] + ":" + parts[1];
        Some((m, a))
      case _ => None
  }

  /** The conventional full name determines the module and the action. */
  lemma {:induction false} FullNameRoundTrip(m: PermissionModule, a: PermissionAction)
    ensures ParseFullName(ConventionalFullName(m, a)) == Some((m, a))
  {
    var parts := [ModuleName(m), ActionName(a)];
    assert Strings.Join(parts, ":") == ConventionalFullName(m, a);
    Strings.SplitJoin(parts, ':');
    ModuleNameRoundTrip(m);
    ActionNameRoundTrip(a);
  }

  /** Role priority, 1..100. */
  type RoleLevel = x: int | 1 <= x <= 100 witness 1

  /** A role's permissions arrive either as ids or populated. */
  datatype RolePermissions =
    | PermissionIds(ids: seq<string>)
    | Populated(permissions: seq<Permission>)

  /** The ids of a role's permissions, whichever form they arrived in. */
  function PermissionIdsOf(rp: RolePermissions): (ids: seq<string>)
    ensures rp.PermissionIds? ==> ids == rp.ids
    ensures rp.Populated? ==>
      && |ids| == |rp.permissions|
      && forall i :: 0 <= i < |ids| ==> ids[i] == rp.permissions[i].id
  {
    match rp
    case PermissionIds(ids) => ids
    case Populated(ps) => seq(|ps|, i requires 0 <= i < |ps| => ps[i].id)
  }

  datatype Role = Role(
    id: string,
    name: string,
    displayName: string,
    permissions: RolePermissions,
    isActive: bool,
    level: RoleLevel,
    dataAccessLevel: DataAccessLevel,
    organizationCode: string)

  datatype User = User(
    id: string,
    fullName: string,
    email: string,
    phone: string,
    organization: string,
    organizationCode: string,
    role: int,
    employeeCode: Option<string>)

  datatype Pagination = Pagination(currentPage: int, totalPages: int, totalItems: int, itemsPerPage: int)

  /** A page of a list endpoint: the items plus where the page sits in the whole list. */
  datatype PaginatedResponse<T> = PaginatedResponse(success: bool, data: seq<T>, pagination: Pagination)
}
