# HR dashboard client core, modelled in Dafny

This project models the decision and string logic of a Next.js HR dashboard
client. The dashboard covers employees, attendance, leave, payroll, documents
and roles. Everything in it is pure and sequential:

- the session store. It is a record of user, role, permissions,
  authentication flag and loading flag. It has six transitions and four
  permission queries. Its invariant is that the flag is set exactly when a
  user is present.
- the permission hook built on the store: fourteen capability helpers and
  three role-name tests.
- the route guard. It sorts a pathname by raw string prefix into protected
  pages, sign-in pages and the rest, and then allows, denies or redirects to
  `/dashboard`. Also modelled: the credential pre-check of the sign-in
  provider and the two callbacks that copy fields between user, token and
  session.
- breadcrumb generation from a pathname, and the sidebar's navigation table
  with its active-link test.
- the string and array helpers: `truncate`, `getInitials`, `isValidPhone`,
  `isValidEmail`, `getStatusColor`, `groupBy`, `sortBy` and `percentage`.
- the URL construction of the attendance, leave, user, role and permission
  services. It is modelled once as a shared query builder (`Query`), plus
  the path builders of each service.

Each source file is one module: `Types`, `AuthStore`, `UsePermissions`,
`AuthConfig`, `Breadcrumbs`, `Sidebar`, `TextUtils`, `CollectionUtils`,
`Query`, `AttendanceService`, `LeaveService`, `UserService` and
`RoleService`. Beside them, `Strings` holds the JavaScript string semantics
they share: `startsWith`, single-character `split` and `join`,
`filter(Boolean)`, ASCII case mapping, the `\s` and `\d` classes, and
`String(n)`. `Wrappers` holds `Option`.

Transitions are functions from state to state. A JavaScript `null` or
`undefined` is `None`. A thrown exception is `None` where the code can
throw. Percent-encoding is a function parameter: it is library behaviour.
Each property that depends on it states what it needs of the encoder.

Where the code's comments or names suggest more than the code does, the model follows the code:

- The hook asks for `leaves:read` and `leaves:approve`. The sidebar asks for
  `leave:read`. Both strings are kept literally, and
  `UsePermissions.LeaveReadSpellingsDiffer` shows that a `leave:read`
  permission does not satisfy the hook.
- The guard's answer for a protected page without a user is the value
  `false` (`Deny` here). It is not an explicit redirect: the framework turns
  `false` into its sign-in redirect, and that redirect is outside the code.
- The sidebar lists every entry whatever the permissions, because the filter
  is commented out in the source.

## Model

| member | source | states |
|---|---|---|
| Types.ScopeOf | src/types/index.ts:67 | every data access level 1..3 names exactly one of ALL, TEAM and OWN |
| Types.ScopeLevelRoundTrip | src/types/index.ts:67 | scope to level to scope is the identity, so the three levels and three scopes correspond one to one |
| Types.ParseModule | src/types/index.ts:74 | a module name is accepted only if it is the name of one of the ten modules |
| Types.ModuleNameRoundTrip | src/types/index.ts:74 | every one of the ten modules reads back from its name |
| Types.ParseAction | src/types/index.ts:75 | an action name is accepted only if it is the name of one of the eight verbs |
| Types.ActionNameRoundTrip | src/types/index.ts:75 | every one of the eight verbs reads back from its name |
| Types.ParseFullName | src/types/index.ts:84 | an accepted full name is exactly `module:action` for the parts it returns |
| Types.FullNameRoundTrip | src/types/index.ts:74-84 | the `module:action` full name determines the module and the action |
| Types.PermissionIdsOf | src/types/index.ts:92 | a role's permission ids are the same whether they arrived as ids or as populated permissions |
| AuthStore.InitialConsistent | src/store/auth.store.ts:32-36 | the initial state (no user, not authenticated) satisfies the invariant |
| AuthStore.SetUser | src/store/auth.store.ts:38 | stores the user, sets the flag exactly when a user is given, and changes nothing else |
| AuthStore.SetRole | src/store/auth.store.ts:40 | replaces the role only, so the invariant is kept |
| AuthStore.SetPermissions | src/store/auth.store.ts:42 | replaces the permissions only, so the invariant is kept |
| AuthStore.SetLoading | src/store/auth.store.ts:64 | replaces the loading flag only, so the invariant is kept |
| AuthStore.Login | src/store/auth.store.ts:44-52 | user, role and permissions become exactly the arguments and the flag is set; loading is untouched |
| AuthStore.Logout | src/store/auth.store.ts:54-62 | user and role cleared, permissions empty, flag false; loading is untouched |
| AuthStore.AnyPermission | src/store/auth.store.ts:68 | `some` is true exactly when some permission satisfies the test |
| AuthStore.HasPermission | src/store/auth.store.ts:66-69 | true exactly when some permission's name, or its present full name, equals the string; false with no permissions |
| AuthStore.HasModule | src/store/auth.store.ts:71-74 | true exactly when some permission belongs to the named module; false for a name that is no module |
| AuthStore.HasAction | src/store/auth.store.ts:76-79 | true exactly when a single permission has both the module and the action; implies the module test |
| AuthStore.CanAccessData | src/store/auth.store.ts:81-89 | false without a role; a level-1 role sees everything; the OWN level is granted to every role |
| AuthStore.Partialize | src/store/auth.store.ts:93-98 | the snapshot holds user, role, permissions and flag, exactly as in the state |
| AuthStore.Rehydrate | src/store/auth.store.ts:91-98 | reloading a snapshot keeps the live loading flag |
| AuthStore.Run | src/store/auth.store.ts:38-64 | any sequence of transitions from a consistent state ends in a consistent state |
| AuthStore.ReachableConsistent | src/store/auth.store.ts:32-64 | every state reachable from the initial one satisfies the invariant |
| AuthStore.LogoutIdempotent | src/store/auth.store.ts:54-62 | logging out twice is logging out once |
| AuthStore.LogoutDeniesEverything | src/store/auth.store.ts:54-89 | after logout every permission query and every data-scope query is false |
| AuthStore.LoginForgetsPreviousSession | src/store/auth.store.ts:44-52 | what a login makes visible does not depend on the state it replaced |
| AuthStore.LoginIgnoresTokens | src/store/auth.store.ts:44-52 | the tokens passed to login have no effect on the state |
| AuthStore.CanAccessDataMonotone | src/store/auth.store.ts:88 | a role granted a level is granted every higher-numbered (narrower) level |
| AuthStore.ScopeGrants | src/store/auth.store.ts:84-88 | ALL grants all three scopes, TEAM grants TEAM and OWN, OWN grants only OWN |
| AuthStore.HasActionNeedsOnePermission | src/store/auth.store.ts:76-79 | a module matched by one permission and an action matched by another do not satisfy the action test |
| AuthStore.AbsentFullNameMatchesByName | src/store/auth.store.ts:68 | a permission without a full name is matched by its name alone |
| AuthStore.SnapshotRoundTrip | src/store/auth.store.ts:93-98 | storing and reloading loses only the loading flag and keeps the invariant |
| UsePermissions.Can | src/hooks/useAuth.ts:17-35 | each helper is true exactly when some permission carries the helper's fixed literal as name or full name |
| UsePermissions.RequiredPermissionInjective | src/hooks/useAuth.ts:17-35 | no two helpers ask for the same literal |
| UsePermissions.LogoutRevokesEveryCapability | src/hooks/useAuth.ts:17-35 | after logout every helper answers no |
| UsePermissions.LeaveReadSpellingsDiffer | src/hooks/useAuth.ts:25 | a `leave:read` permission, the sidebar's spelling, satisfies `hasPermission('leave:read')` but not the hook's leave helper |
| UsePermissions.RoleNamed | src/hooks/useAuth.ts:37-39 | true exactly when a role is present and its name equals the expected name |
| UsePermissions.AtMostOneRoleKind | src/hooks/useAuth.ts:37-39 | at most one of admin, manager and employee holds; none holds without a role |
| AuthConfig.ProtectedIffSomePrefix | src/auth.ts:80-87 | a path is protected exactly when it starts with one of the eight prefixes |
| AuthConfig.AuthPageIffSomePrefix | src/auth.ts:88-89 | a path is a sign-in page exactly when it starts with `/login` or `/register` |
| AuthConfig.PrefixChars | src/auth.ts:80-89 | a path with a prefix shares the prefix's leading characters |
| AuthConfig.Authorized | src/auth.ts:78-99 | deny exactly for a protected path without a user; redirect exactly for a sign-in page with a user, always to `/dashboard`; allow otherwise |
| AuthConfig.PrefixesDifferEarly | src/auth.ts:80-89 | each of `/login` and `/register` differs from each of the eight dashboard prefixes in its second or third character |
| AuthConfig.AuthPagesAreNotProtected | src/auth.ts:80-89 | the two classes are disjoint, so the guard's branch order does not matter; proved over the two prefix lists |
| AuthConfig.RedirectTargetIsAllowed | src/auth.ts:95 | the redirect target is itself allowed for the same visitor, so there is no redirect loop |
| AuthConfig.DeniedVisitorMayOpenSignIn | src/auth.ts:91-98 | a visitor denied a page is allowed on `/login` |
| AuthConfig.LoggedOutNeverRedirected | src/auth.ts:91-98 | without a user the guard only allows or denies |
| AuthConfig.PrefixIsRaw | src/auth.ts:80-87 | the test is a raw prefix: `/settingsX` is protected, `/` is not |
| AuthConfig.Authorize | src/auth.ts:13-45 | a user comes back exactly when both credentials are non-empty and the login call succeeds with data; its fields are copied from that data, with a missing employee code as `''` |
| AuthConfig.UserClaims | src/auth.ts:50-58 | the sign-in user contributes exactly the seven copied claims |
| AuthConfig.Jwt | src/auth.ts:49-65 | on an update with a session, the session's fields overlay the token's; otherwise a user's claims overwrite the token's; other keys are kept |
| AuthConfig.SessionCallback | src/auth.ts:66-77 | a session without a user is returned unchanged; otherwise its user gets the token's five fields and the session gets both tokens |
| AuthConfig.SignInReachesSession | src/auth.ts:49-77 | after sign-in the session carries the signed-in user's id, role, organisation and tokens |
| AuthConfig.JwtPassThrough | src/auth.ts:49-65 | without a user and without an update, the token passes through unchanged |
| Breadcrumbs.Segments | src/components/layout/Breadcrumbs.tsx:53 | segments are non-empty and hold no `/` |
| Breadcrumbs.SegmentsAppend | src/components/layout/Breadcrumbs.tsx:53 | the segments of `a + '/' + b` are the segments of `a` followed by those of `b`, so a slash only separates |
| Breadcrumbs.NoSegments | src/components/layout/Breadcrumbs.tsx:53 | the empty path has no segments |
| Breadcrumbs.TrailingSlashAddsNothing | src/components/layout/Breadcrumbs.tsx:53 | a trailing `/` adds no segment |
| Breadcrumbs.DoubleSlashAddsNothing | src/components/layout/Breadcrumbs.tsx:53 | `//` gives the same segments as `/` |
| Breadcrumbs.DropDashboard | src/components/layout/Breadcrumbs.tsx:56-58 | only a first segment equal to `dashboard` is removed, and only once |
| Breadcrumbs.Capitalize | src/components/layout/Breadcrumbs.tsx:73 | only the first character is upper-cased; the length is kept |
| Breadcrumbs.CapitalizeAll | src/components/layout/Breadcrumbs.tsx:73 | each word is capitalised in place |
| Breadcrumbs.LabelWords | src/components/layout/Breadcrumbs.tsx:71-74 | the label's space-separated words are the capitalised dash-separated pieces of the segment, one for one |
| Breadcrumbs.CrumbsFrom | src/components/layout/Breadcrumbs.tsx:64-83 | the crumbs built from position i on are the crumbs at positions i, i+1, ... |
| Breadcrumbs.CrumbsFor | src/components/layout/Breadcrumbs.tsx:64-85 | one crumb per segment; each label from its segment; the last has no href; crumb j links to `/` plus segments 0..j joined by `/` |
| Breadcrumbs.GenerateBreadcrumbs | src/components/layout/Breadcrumbs.tsx:52-86 | with no segments left, exactly one `Dashboard` crumb without href; otherwise the per-segment crumbs |
| Breadcrumbs.PathOfIsJoin | src/components/layout/Breadcrumbs.tsx:68 | the accumulated `currentPath` is `/` plus the segments joined by `/` |
| Breadcrumbs.BreadcrumbItems | src/components/layout/Breadcrumbs.tsx:21 | given items are used verbatim; otherwise the generated list, which is never empty |
| Breadcrumbs.SegmentsOfBuiltPath | src/components/layout/Breadcrumbs.tsx:53-68 | splitting a built path gives back the segments it was built from |
| Breadcrumbs.CrumbLinkRoundTrip | src/components/layout/Breadcrumbs.tsx:65-81 | following crumb j's link leads to the path whose segments are the first j+1 segments |
| Breadcrumbs.DashboardRootCrumb | src/components/layout/Breadcrumbs.tsx:56-62 | `/dashboard` and `/` both give the single `Dashboard` crumb |
| Breadcrumbs.OnlyDashboardSegment | src/components/layout/Breadcrumbs.tsx:56-62 | a path with no segment but `dashboard` gets the single `Dashboard` crumb |
| Breadcrumbs.DashboardSegments | src/components/layout/Breadcrumbs.tsx:53 | `/dashboard` has the one segment `dashboard` |
| Breadcrumbs.RootSegments | src/components/layout/Breadcrumbs.tsx:53 | `/` has no segments |
| Sidebar.ActiveIffSegmentBoundary | src/components/layout/Sidebar.tsx:136 | active exactly when the path equals the href or continues it with `/` |
| Sidebar.SiblingPrefixNotActive | src/components/layout/Sidebar.tsx:136 | `/employees-archive` does not activate `/employees`; `/employees/new` does |
| Sidebar.VisibleItems | src/components/layout/Sidebar.tsx:85-92 | every table entry is shown, and nothing else |
| Sidebar.VisibilityIgnoresPermissions | src/components/layout/Sidebar.tsx:85-92 | the list is the same after logout as before |
| Sidebar.RequiredPermissionTable | src/components/layout/Sidebar.tsx:30-77 | only the Dashboard entry has no required permission |
| Sidebar.ActiveIndex | src/components/layout/Sidebar.tsx:135-136 | which entry the per-item `isActive` test highlights: the entry found is active, and when none is found no entry is active |
| Sidebar.FirstActive | src/components/layout/Sidebar.tsx:135-136 | the per-item `isActive` test applied from position `from` on finds an active entry or shows there is none |
| Sidebar.AtMostOneActive | src/components/layout/Sidebar.tsx:30-136 | no path activates two entries of the table |
| Sidebar.ActivePrefix | src/components/layout/Sidebar.tsx:136 | an active path starts with the entry's leading characters |
| Sidebar.ActivePagesAreProtected | src/components/layout/Sidebar.tsx:136 | every path that activates a sidebar entry is a protected path of the route guard |
| Strings.Split | src/lib/utils.ts:84 | `split` gives at least one piece and no piece holds the separator |
| Strings.JoinSplit | src/lib/utils.ts:84 | joining the pieces of a split with the separator gives the input back |
| Strings.SplitJoin | src/components/layout/Breadcrumbs.tsx:53 | splitting a join of separator-free pieces gives the pieces back |
| Strings.SplitAppend | src/components/layout/Breadcrumbs.tsx:53 | splitting at one separator splits the two sides apart and concatenates their pieces |
| Strings.JoinAppend | src/components/layout/Breadcrumbs.tsx:68 | joining two non-empty lists puts one separator between their joins |
| Strings.DropEmpty | src/components/layout/Breadcrumbs.tsx:53 | `filter(Boolean)` keeps exactly the non-empty pieces: nothing from an empty list, a lone piece unless it is empty |
| Strings.DropEmptyAppend | src/components/layout/Breadcrumbs.tsx:53 | filtering a concatenation filters each side and keeps their order |
| Strings.DropEmptyKeepsNonEmpty | src/components/layout/Breadcrumbs.tsx:53 | with no empty piece, `filter(Boolean)` returns the pieces unchanged |
| Strings.Lower | src/lib/utils.ts:149 | lower-casing maps each character in place: `A`..`Z` to the letter 32 code points later, everything else unchanged, so no upper-case letter is left |
| Strings.Upper | src/lib/utils.ts:86 | upper-casing maps each character in place: `a`..`z` to the letter 32 code points earlier, everything else unchanged, so no lower-case letter is left |
| Strings.LowerIdempotent | src/lib/utils.ts:149 | lower-casing twice is lower-casing once |
| Strings.IntToString | src/services/role.service.ts:33 | `String(n)` of an integer is non-empty and holds no `/`, `?` or `&` |
| Strings.IntToStringRoundTrip | src/services/role.service.ts:33 | the decimal text of an integer reads back as that integer |
| TextUtils.Truncate | src/lib/utils.ts:75-78 | text within the limit is returned unchanged; longer text becomes its first `limit` characters and `...` |
| TextUtils.TruncateIdempotent | src/lib/utils.ts:75-78 | truncating a truncated text again changes nothing |
| TextUtils.GetInitialsAsWritten | src/lib/utils.ts:83-87 | the code as written throws exactly when there are several parts and both the first and the last are empty; a name without a space gives its first two characters upper-cased; otherwise, with both end parts non-empty, the upper-cased first characters of the first and the last part |
| TextUtils.InitialsOfPieces | src/lib/utils.ts:84-86 | on the split parts: one part gives its first two characters upper-cased; several parts give the upper-cased `+` of the two end characters, with `undefined` for an empty end part, and throw when both are empty |
| TextUtils.FirstsSum | src/lib/utils.ts:86 | `parts[0][0] + parts[n-1][0]` is the two characters when both parts are non-empty, the text `undefined` in place of an empty part's character, and `NaN` when both are empty |
| TextUtils.FirstTwo | src/lib/utils.ts:85 | `substring(0, 2)` is the first two characters, or the whole word when it is shorter |
| TextUtils.TrailingSpaceInitials | src/lib/utils.ts:86 | `"Ada "` gives `"AUNDEFINED"` |
| TextUtils.SingleSpaceInitialsThrow | src/lib/utils.ts:86 | `" "` throws |
| TextUtils.InitialsOfWords | src/lib/utils.ts:85-86 | one word gives its first two characters upper-cased; two or more give the upper-cased first characters of the first and the last word |
| TextUtils.Words | src/lib/utils.ts:84 | the corrected words are the non-empty space-free pieces of the name |
| TextUtils.GetInitials | src/lib/utils.ts:83-87 | the corrected version: no words give `""`, one word its first two characters upper-cased, more the upper-cased first characters of the first and the last word; never a space or a lower-case letter |
| TextUtils.InitialsAgreeOnCleanNames | src/lib/utils.ts:83-87 | on a name whose words are separated by single spaces, the corrected and the written versions agree |
| TextUtils.IsValidPhone | src/lib/utils.ts:177-180 | true exactly when the whitespace-free text is 10 to 15 characters, all digits |
| TextUtils.StripWhiteSpace | src/lib/utils.ts:179 | removes every `\s` character: the empty text stays empty, a single character is dropped exactly when it is whitespace (with StripAppend this fixes the result and its order) |
| TextUtils.StripAppend | src/lib/utils.ts:179 | removing whitespace distributes over concatenation |
| TextUtils.IsValidEmail | src/lib/utils.ts:169-172 | true exactly when the text matches the email pattern: one `@`, no whitespace, a non-empty local part, a `.` inside the domain |
| TextUtils.EmailCheckIsPattern | src/lib/utils.ts:170 | the check at the first `@` decides the pattern |
| TextUtils.ValidEmailShape | src/lib/utils.ts:170 | a valid address has no whitespace and only one `@` |
| TextUtils.GetStatusColorAsWritten | src/lib/utils.ts:131-150 | as written, the lookup returns an inherited object member exactly when the lower-cased status is `constructor` or `__proto__` |
| TextUtils.ConstructorStatusIsNotAClass | src/lib/utils.ts:149 | the status `Constructor` yields the inherited `constructor`, not a class string |
| TextUtils.GetStatusColor | src/lib/utils.ts:131-150 | the corrected lookup always gives a palette class: the table's class for a known lower-cased status, the gray default otherwise |
| TextUtils.StatusColorIgnoresCase | src/lib/utils.ts:149 | the colour depends only on the lower-cased status |
| TextUtils.StatusColorAgrees | src/lib/utils.ts:131-150 | except for the two inherited names, the written and the corrected lookups agree |
| CollectionUtils.WithKey | src/lib/utils.ts:216-225 | keeps only elements with the key, in order |
| CollectionUtils.GroupBy | src/lib/utils.ts:216-225 | throws exactly when some key names an inherited object member; otherwise the groups are exactly the items' keys, each holding the items of its key in input order |
| CollectionUtils.GroupByPartitions | src/lib/utils.ts:216-225 | every item is in the group of its key, and a group holds only items of its key |
| CollectionUtils.Insert | src/lib/utils.ts:238-247 | inserting keeps the order sorted and adds exactly the one element |
| CollectionUtils.InsertStable | src/lib/utils.ts:238-247 | an inserted element goes after the elements of equal key, which keep their order |
| CollectionUtils.SortBy | src/lib/utils.ts:238-247 | the result is a permutation of the input, ordered ascending or descending by the key |
| CollectionUtils.SortByStable | src/lib/utils.ts:238-247 | elements with equal keys keep their input order |
| CollectionUtils.SortBySorted | src/lib/utils.ts:238-247 | an input already in order comes back unchanged |
| CollectionUtils.SortByIdempotent | src/lib/utils.ts:238-247 | sorting twice is sorting once |
| CollectionUtils.Percentage | src/lib/utils.ts:230-233 | 0 when the total is 0; a part of its total lies in 0..100 |
| CollectionUtils.PercentageEnds | src/lib/utils.ts:230-233 | the whole is 100 and nothing is 0, for any nonzero total |
| Query.Stringify | src/services/attendance.service.ts:50 | every value that passes the guard renders as non-empty text |
| Query.ParamsOf | src/services/attendance.service.ts:46-53 | no more parameters than entries |
| Query.ParamsFromKept | src/services/attendance.service.ts:48-52 | every parameter comes from a kept entry, with its key and stringified value |
| Query.ParamsAppend | src/services/attendance.service.ts:48-52 | the filter distributes over concatenation, so kept entries keep their order |
| Query.ParamsEmptyIff | src/services/attendance.service.ts:49 | no parameters remain exactly when every value is `undefined`, `null` or `''` |
| Query.ParamsKeepAll | src/services/attendance.service.ts:49-50 | when every value passes the guard, each entry becomes the parameter at its own position |
| Query.Serialize | src/services/attendance.service.ts:54 | the query string is empty exactly when there are no parameters |
| Query.ParseSerialize | src/services/attendance.service.ts:46-54 | with an escaper that emits no `&` or `=` and a decoder that undoes it, the query parses back to the parameters |
| Query.PairSplits | src/services/attendance.service.ts:54 | one serialised entry splits on `=` into its escaped key and value |
| Query.TwoMoreSegments | src/services/leave.service.ts:88 | two segments without `/` appended to a path come back as the last two pieces of its split, after the path's own |
| Query.ThreeMoreSegments | src/services/role.service.ts:84 | likewise for three appended segments |
| Query.WithQuery | src/services/attendance.service.ts:55 | the bare path exactly when the query is empty; the URL always starts with the path |
| Query.SplitWithQuery | src/services/attendance.service.ts:55 | for a path without `?`, cutting the URL at its first `?` gives back the path and the query |
| Query.ListUrl | src/services/attendance.service.ts:45-56 | the bare path exactly when there is no filter object or every entry is dropped |
| Query.ListUrlRoundTrip | src/services/attendance.service.ts:45-56 | the URL reads back as its path and the kept entries, in order |
| AttendanceService.AttendanceUrl | src/services/attendance.service.ts:45-57 | `/attendance`, bare exactly when nothing is kept |
| AttendanceService.EmployeePath | src/services/attendance.service.ts:79 | an id without `/` is the last segment, after those of `/attendance/employee`; an id without `?` leaves the path without `?` |
| AttendanceService.EmployeeAttendanceUrl | src/services/attendance.service.ts:69-81 | the employee path, bare exactly when nothing is kept |
| AttendanceService.EmployeeAttendanceReadsBack | src/services/attendance.service.ts:69-81 | the id and the kept filters read back from the URL |
| AttendanceService.StatsParams | src/services/attendance.service.ts:107-111 | no parameters exactly when none of the three arguments is a non-empty string; at most three |
| AttendanceService.StatsParamsAreFilterParams | src/services/attendance.service.ts:107-111 | the three guarded appends give the same parameters as the list filter applied to `{employeeId, startDate, endDate}` |
| AttendanceService.StatsUrl | src/services/attendance.service.ts:107-115 | `/attendance/stats` with no `?` exactly when no argument is given |
| LeaveService.LeavesUrl | src/services/leave.service.ts:25-37 | `/leave`, bare exactly when nothing is kept |
| LeaveService.EmployeePath | src/services/leave.service.ts:59 | an id without `/` is the last segment, after those of `/leave/employee`; an id without `?` leaves the path without `?` |
| LeaveService.EmployeeLeavesUrl | src/services/leave.service.ts:49-61 | the employee path, bare exactly when nothing is kept |
| LeaveService.EmployeeLeavesReadsBack | src/services/leave.service.ts:49-61 | the id and the kept filters read back from the URL |
| LeaveService.StatsUrl | src/services/leave.service.ts:101-104 | `/leave/stats` exactly when no id is given; otherwise the query is `employeeId=` and the raw id |
| LeaveService.StatsUrlAgreesWhenNothingToEscape | src/services/leave.service.ts:102 | the raw interpolation equals the encoded query only when encoding leaves the id alone, and an id without `&` or `=` reads back as the only parameter |
| LeaveService.RejectLeave | src/services/leave.service.ts:87-89 | the body has the single key `rejectionReason`, holding the reason |
| LeaveService.RejectLeaveSegments | src/services/leave.service.ts:88 | the rejection URL splits into the segments of `/leave`, then the id, then `reject` |
| UserService.UsersUrl | src/services/user.service.ts:16-28 | `/users`, bare exactly when nothing is kept |
| UserService.EmployeesUrl | src/services/user.service.ts:82-94 | `/users/employees`, bare exactly when nothing is kept |
| UserService.UsersAndEmployeesShareQuery | src/services/user.service.ts:16-94 | the two list URLs differ in their path and carry the same query |
| UserService.OpName | src/services/user.service.ts:148 | every bulk operation is named `delete`, `activate` or `deactivate` |
| UserService.ParseOp | src/services/user.service.ts:148 | exactly the three names are accepted, each as its own operation |
| UserService.OpNameRoundTrip | src/services/user.service.ts:148 | each operation reads back from its name |
| UserService.BulkOperation | src/services/user.service.ts:148-153 | posted to `/users/bulk` with the operation's name and the ids, unchanged |
| RoleService.RolesUrl | src/services/role.service.ts:15-27 | `/roles`, bare exactly when nothing is kept |
| RoleService.PermissionsUrl | src/services/role.service.ts:95-107 | `/permissions`, bare exactly when nothing is kept |
| RoleService.RolesByLevelUrl | src/services/role.service.ts:32-34 | the level is the last segment after `/roles/by-level/` and reads back as the level |
| RoleService.RolesByLevelInjective | src/services/role.service.ts:32-34 | different levels give different URLs |
| RoleService.CheckPermissionUrl | src/services/role.service.ts:83-86 | for an id and a permission without `/`, the segments after those of `/roles` are the id, `check-permission` and the permission |
| RoleService.SearchPermissionsUrl | src/services/role.service.ts:119-121 | the encoded query text follows `/permissions/search?q=` |
| RoleService.SearchReadsBack | src/services/role.service.ts:120 | with a decoder that undoes the encoder, the search text reads back |

## Left out

- `src/lib/api/client.ts`: the HTTP client, its interceptors, token storage and the browser redirect are I/O. `TokenManager.clearTokens` in logout is therefore not modelled; logout is modelled only as its effect on the state.
- The HTTP calls of every service: only the URL and body each builds is modelled. So are the fixed-path endpoints (clock-in, approve, the leave types and so on), which have no logic. `src/services/auth.service.ts` and `src/services/dashboard.service.ts` are not part of this model.
- NextAuth internals: JWT signing, the seven-day `maxAge`, provider wiring, and the framework's redirect to `/login` when the guard answers `false`.
- The persistence medium of the store. Only the snapshot shape and reloading it are modelled.
- `formatDate`, `formatTime`, `formatCurrency`, `formatFileSize`, `daysBetween`, `isToday`: they depend on dates, the locale, the clock or floating-point logarithms.
- `debounce`, `sleep`, `downloadBlob`, `copyToClipboard` and `cn`: timers, the DOM and third-party libraries.
- `generateColor`: its hash mixes 32-bit shifts with unbounded floating-point arithmetic and is cosmetic.
- UI rendering: the JSX of the sidebar and breadcrumbs, the collapsed state, and the `Select` and `Alert` components.
- Percent-encoding (`URLSearchParams`, `encodeURIComponent`): it is a parameter. Properties that depend on it state their assumptions about the encoder.
- Wildcard permissions: the code has no `*` handling, so none is modelled.
- Case mapping covers ASCII letters only. JavaScript's full Unicode `toUpperCase` and `toLowerCase` are not modelled.
- The order of keys in `Object.entries` and in `groupBy`'s result: filters are modelled as an ordered list of entries, and groups as a map.
- CollectionUtils.Percentage: real arithmetic stands in for IEEE doubles, so rounding error is not modelled, and `Math.round` is floor of x + 1/2.
- CollectionUtils.SortBy: the key is an integer. JavaScript's mixed-type `<` comparisons (strings, dates, undefined) are not modelled.
- Query.Stringify: numbers are integers written in plain decimal. `String` of a fractional number, `NaN` or `Infinity` is not modelled, nor the exponent form JavaScript uses for magnitudes of 10^21 and more (`1e+21`), nor the rounding of integers beyond 2^53, which are not exact JavaScript numbers.
- RoleService.RolesByLevelUrl: the level is an integer in plain decimal, for the same reasons: its read-back promise describes the URL JavaScript builds only for levels of magnitude below 2^53, where the exponent form does not arise either.
- Strings.IntToString: plain decimal for every integer; it matches JavaScript's `String(n)` only for magnitudes below 2^53 (exponent form starts at 10^21, and larger integers are not exact numbers).
- TextUtils.Truncate: lengths and positions count Unicode code points, while JavaScript's `length` and `substring` count UTF-16 code units, so a text with characters outside the Basic Multilingual Plane (`truncate("😀😀😀", 2)`) and a cut through a surrogate pair are not modelled; the limit is an integer, so fractional, negative-infinite or `NaN` limits are not modelled either.
- TextUtils.GetInitialsAsWritten: `parts[i][0]` and `substring(0, 2)` are modelled on code points, not UTF-16 code units, so a name starting with a character outside the Basic Multilingual Plane (`"😀a"`) or a lone surrogate is not modelled; the same holds for TextUtils.GetInitials and Breadcrumbs.Capitalize.
- Types.ParseFullName: the source only declares `fullName` as an optional virtual string; its `module:action` form is the model's reading of the ten module and eight action names, not something the types state.
- The `console.error` logging in the sign-in provider's error path is I/O.

## Findings

| source | as written | input that shows it | evidently intended | confidence | as-written member | corrected member |
|---|---|---|---|---|---|---|
| src/lib/utils.ts:83-87 | a name split on single spaces can have empty words, and `parts[i][0]` of an empty word is `undefined` | `"Ada "` gives `"AUNDEFINED"`; `" "` throws, because `undefined + undefined` is `NaN`, which has no `toUpperCase` | initials of the non-empty words | not executed | TextUtils.GetInitialsAsWritten, TextUtils.TrailingSpaceInitials | TextUtils.GetInitials, TextUtils.InitialsAgreeOnCleanNames |
| src/lib/utils.ts:131-150 | the colour table is a plain object literal, so a lookup also finds members inherited from `Object.prototype`, and `\|\|` only replaces falsy values | `"Constructor"` lower-cases to `constructor`, which yields the `Object` function instead of a class string | the gray default for every status outside the table | not executed | TextUtils.GetStatusColorAsWritten, TextUtils.ConstructorStatusIsNotAClass | TextUtils.GetStatusColor, TextUtils.StatusColorAgrees |
