/**
 * The client-side session store: who is logged in, their role and their
 * permission list, plus the four permission queries the UI asks of it.
 * Every action of the store is a function from state to state; the queries
 * are pure functions of a state.
 */
module AuthStore {
  import opened Wrappers
  import opened Types

  datatype AuthState = AuthState(
    user: Option<User>,
    role: Option<Role>,
    permissions: seq<Permission>,
    isAuthenticated: bool,
    isLoading: bool)

  /** The state before anything is loaded. */
  const Initial := AuthState(None, None, [], false, false)

  /** The store's invariant: the flag says exactly whether a user is present. */
  predicate Consistent(s: AuthState) {
    s.isAuthenticated <==> s.user.Some?
  }

  lemma InitialConsistent()
    ensures Consistent(Initial)
  {
  }

  // ---- Actions ----

  /** Stores a user (or none) and sets the flag from the user's presence. */
  function SetUser(s: AuthState, user: Option<User>): (r: AuthState)
    ensures Consistent(r)
    ensures r.user == user
    ensures r.role == s.role && r.permissions == s.permissions && r.isLoading == s.isLoading
  {
    s.(user := user, isAuthenticated := user.Some?)
  }

  function SetRole(s: AuthState, role: Option<Role>): (r: AuthState)
    ensures Consistent(s) ==> Consistent(r)
    ensures r.role == role
    ensures r.user == s.user && r.isAuthenticated == s.isAuthenticated
    ensures r.permissions == s.permissions && r.isLoading == s.isLoading
  {
    s.(role := role)
  }

  function SetPermissions(s: AuthState, permissions: seq<Permission>): (r: AuthState)
    ensures Consistent(s) ==> Consistent(r)
    ensures r.permissions == permissions
    ensures r.user == s.user && r.isAuthenticated == s.isAuthenticated
    ensures r.role == s.role && r.isLoading == s.isLoading
  {
    s.(permissions := permissions)
  }

  function SetLoading(s: AuthState, loading: bool): (r: AuthState)
    ensures Consistent(s) ==> Consistent(r)
    ensures r.isLoading == loading
    ensures r.user == s.user && r.isAuthenticated == s.isAuthenticated
    ensures r.role == s.role && r.permissions == s.permissions
  {
    s.(isLoading := loading)
  }

  /**
   * Replaces the identity wholesale. The two tokens are accepted and dropped:
   * the session provider owns them, this store keeps none.
   */
  function Login(s: AuthState, user: User, role: Role, permissions: seq<Permission>,
                 accessToken: string, refreshToken: string): (r: AuthState)
    ensures Consistent(r)
    ensures r.user == Some(user) && r.role == Some(role) && r.permissions == permissions
    ensures r.isAuthenticated
    ensures r.isLoading == s.isLoading
  {
    AuthState(Some(user), Some(role), permissions, true, s.isLoading)
  }

  /** Clears the identity; the loading flag is left as it was. */
  function Logout(s: AuthState): (r: AuthState)
    ensures Consistent(r)
    ensures r.user == None && r.role == None && r.permissions == [] && !r.isAuthenticated
    ensures r.isLoading == s.isLoading
  {
    AuthState(None, None, [], false, s.isLoading)
  }

  // ---- Queries ----

  /** `Array.prototype.some` over a permission list. */
  function AnyPermission(ps: seq<Permission>, p: Permission -> bool): (r: bool)
    ensures r <==> exists i :: 0 <= i < |ps| && p(ps[i])
  {
    if |ps| == 0 then false
    else p(ps[0]) || AnyPermission(ps[1..], p)
  }

  /**
   * True when some permission is called `permission`, by its name or by its
   * full name. An absent full name never matches. No wildcard is recognised.
   */
  function HasPermission(s: AuthState, permission: string): (r: bool)
    ensures r <==> exists i :: 0 <= i < |s.permissions|
                    && (s.permissions[i].name == permission || s.permissions[i].fullName == Some(permission))
    ensures |s.permissions| == 0 ==> !r
  {
    AnyPermission(s.permissions, (p: Permission) => p.name == permission || p.fullName == Some(permission))
  }

  /** True when some permission belongs to the module named `moduleName`. */
  function HasModule(s: AuthState, moduleName: string): (r: bool)
    ensures r <==> exists i :: 0 <= i < |s.permissions| && ModuleName(s.permissions[i].moduleKind) == moduleName
    ensures ParseModule(moduleName).None? ==> !r
  {
    AnyPermission(s.permissions, (p: Permission) => ModuleName(p.moduleKind) == moduleName)
  }

  /** True when ONE permission has both the module and the action. */
  function HasAction(s: AuthState, moduleName: string, action: string): (r: bool)
    ensures r <==> exists i :: 0 <= i < |s.permissions|
                    && ModuleName(s.permissions[i].moduleKind) == moduleName
                    && ActionName(s.permissions[i].action) == action
    ensures r ==> HasModule(s, moduleName)
  {
    AnyPermission(s.permissions, (p: Permission) => ModuleName(p.moduleKind) == moduleName && ActionName(p.action) == action)
  }

  /**
   * Whether the role may see data at the requested scope. A lower stored
   * level is broader; with no role the answer is no.
   */
  function CanAccessData(s: AuthState, requested: DataAccessLevel): (r: bool)
    ensures s.role.None? ==> !r
    ensures s.role.Some? && s.role.value.dataAccessLevel == LevelOf(AllData) ==> r
    ensures requested == LevelOf(OwnData) ==> (r <==> s.role.Some?)
  {
    match s.role
    case None => false
    case Some(role) => role.dataAccessLevel <= requested
  }

  // ---- Persistence ----

  /** The part of the state written to storage: everything but the loading flag. */
  datatype Snapshot = Snapshot(
    user: Option<User>,
    role: Option<Role>,
    permissions: seq<Permission>,
    isAuthenticated: bool)

  function Partialize(s: AuthState): (snap: Snapshot)
    ensures snap.user == s.user && snap.role == s.role
    ensures snap.permissions == s.permissions && snap.isAuthenticated == s.isAuthenticated
  {
    Snapshot(s.user, s.role, s.permissions, s.isAuthenticated)
  }

  /** Reloading a snapshot over a live state: stored fields win, the loading flag stays. */
  function Rehydrate(s: AuthState, snap: Snapshot): (r: AuthState)
    ensures r.isLoading == s.isLoading
  {
    AuthState(snap.user, snap.role, snap.permissions, snap.isAuthenticated, s.isLoading)
  }

  // ---- Runs of actions ----

  datatype Action =
    | SetUserAction(user: Option<User>)
    | SetRoleAction(role: Option<Role>)
    | SetPermissionsAction(permissions: seq<Permission>)
    | LoginAction(u: User, r: Role, ps: seq<Permission>, accessToken: string, refreshToken: string)
    | LogoutAction
    | SetLoadingAction(loading: bool)

  function Step(s: AuthState, a: Action): AuthState {
    match a
    case SetUserAction(u) => SetUser(s, u)
    case SetRoleAction(r) => SetRole(s, r)
    case SetPermissionsAction(ps) => SetPermissions(s, ps)
    case LoginAction(u, r, ps, at, rt) => Login(s, u, r, ps, at, rt)
    case LogoutAction => Logout(s)
    case SetLoadingAction(b) => SetLoading(s, b)
  }

  /** The state after performing the actions in order; every action keeps the invariant. */
  function Run(s: AuthState, actions: seq<Action>): (r: AuthState)
    ensures Consistent(s) ==> Consistent(r)
    decreases |actions|
  {
    if |actions| == 0 then s
    else Run(Step(s, actions[0]), actions[1..])
  }

  /** Every state reachable from the initial one satisfies the invariant. */
  lemma ReachableConsistent(actions: seq<Action>)
    ensures Consistent(Run(Initial, actions))
  {
  }

  // ---- Properties of the actions and queries ----

  lemma LogoutIdempotent(s: AuthState)
    ensures Logout(Logout(s)) == Logout(s)
  {
  }

  /** After logout every query fails closed. */
  lemma LogoutDeniesEverything(s: AuthState, permission: string, moduleName: string, action: string, level: DataAccessLevel)
    ensures !HasPermission(Logout(s), permission)
    ensures !HasModule(Logout(s), moduleName)
    ensures !HasAction(Logout(s), moduleName, action)
    ensures !CanAccessData(Logout(s), level)
  {
  }

  /** What a login makes visible depends only on its arguments: nothing stale survives. */
  lemma LoginForgetsPreviousSession(s1: AuthState, s2: AuthState, user: User, role: Role,
                                    permissions: seq<Permission>, accessToken: string, refreshToken: string,
                                    permission: string, moduleName: string, action: string, level: DataAccessLevel)
    ensures var a := Login(s1, user, role, permissions, accessToken, refreshToken);
            var b := Login(s2, user, role, permissions, accessToken, refreshToken);
            && HasPermission(a, permission) == HasPermission(b, permission)
            && HasModule(a, moduleName) == HasModule(b, moduleName)
            && HasAction(a, moduleName, action) == HasAction(b, moduleName, action)
            && CanAccessData(a, level) == CanAccessData(b, level)
  {
  }

  /** The tokens handed to login leave no trace in the store. */
  lemma LoginIgnoresTokens(s: AuthState, user: User, role: Role, permissions: seq<Permission>,
                           at1: string, rt1: string, at2: string, rt2: string)
    ensures Login(s, user, role, permissions, at1, rt1) == Login(s, user, role, permissions, at2, rt2)
  {
  }

  /** Granting a scope grants every narrower scope. */
  lemma CanAccessDataMonotone(s: AuthState, narrower: DataAccessLevel, wider: DataAccessLevel)
    requires narrower <= wider
    ensures CanAccessData(s, narrower) ==> CanAccessData(s, wider)
  {
  }

  /** ALL sees every scope, TEAM sees team and own, OWN sees only own. */
  lemma ScopeGrants(s: AuthState, requested: DataScope)
    requires s.role.Some?
    ensures s.role.value.dataAccessLevel == LevelOf(AllData) ==> CanAccessData(s, LevelOf(requested))
    ensures s.role.value.dataAccessLevel == LevelOf(TeamData) ==>
              (CanAccessData(s, LevelOf(requested)) <==> requested != AllData)
    ensures s.role.value.dataAccessLevel == LevelOf(OwnData) ==>
              (CanAccessData(s, LevelOf(requested)) <==> requested == OwnData)
  {
  }

  /**
   * A module match on one permission and an action match on another do not
   * add up to the action.
   */
  lemma HasActionNeedsOnePermission(p: Permission, q: Permission)
    requires p.moduleKind == Users && p.action == Read
    requires q.moduleKind == Payroll && q.action == Delete
    ensures var s := SetPermissions(Initial, [p, q]);
            HasModule(s, "users") && HasModule(s, "payroll") && !HasAction(s, "users", "delete")
  {
    var s := SetPermissions(Initial, [p, q]);
    assert ModuleName(s.permissions[0].moduleKind) == "users";
    assert ModuleName(s.permissions[1].moduleKind) == "payroll";
  }

  /** A permission without a full name is found by its name alone. */
  lemma AbsentFullNameMatchesByName(p: Permission, permission: string)
    requires p.fullName.None?
    ensures HasPermission(SetPermissions(Initial, [p]), permission) <==> p.name == permission
  {
  }

  /** Storing and reloading loses nothing but the loading flag. */
  lemma SnapshotRoundTrip(s: AuthState, live: AuthState, snap: Snapshot, loading: bool)
    ensures Rehydrate(s, Partialize(s)) == s
    ensures Partialize(Rehydrate(live, snap)) == snap
    ensures Partialize(SetLoading(s, loading)) == Partialize(s)
    ensures Consistent(s) ==> Consistent(Rehydrate(live, Partialize(s)))
  {
  }
}
