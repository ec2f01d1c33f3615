/**
 * The navigation sidebar: a fixed table of entries, each naming the
 * permission it is meant to require, and the test that highlights the entry
 * for the current page. Permission filtering is switched off, so every
 * entry is shown.
 */
module Sidebar {
  import opened Wrappers
  import opened Strings
  import AuthStore
  import AuthConfig

  datatype NavItem = NavItem(caption: string, href: string, requiredPermission: Option<string>)

  const NavItems: seq<NavItem> := [
    NavItem("Dashboard", "/dashboard", None),
    NavItem("Employees", "/employees", Some("employees:read")),
    NavItem("Attendance", "/attendance", Some("attendance:read")),
    NavItem("Leave Management", "/leaves", Some("leave:read")),
    NavItem("Payroll", "/payroll", Some("payroll:read")),
    NavItem("Documents", "/documents", Some("documents:read")),
    NavItem("Roles & Permissions", "/roles", Some("system:configure")),
    NavItem("Settings", "/settings", Some("settings:configure"))
  ]

  /** The current page is the entry's page or lies below it. */
  predicate IsActive(pathname: string, href: string) {
    pathname == href || StartsWith(pathname, href + "/")
  }

  /** Active means: equal, or a proper extension whose next character is `/`. */
  lemma ActiveIffSegmentBoundary(pathname: string, href: string)
    ensures IsActive(pathname, href) <==>
      pathname == href || (|pathname| > |href| && StartsWith(pathname, href) && pathname[|href|] == '/')
  {
    if |pathname| > |href| && StartsWith(pathname, href) && pathname[|href|] == '/' {
      assert pathname[..|href| + 1] == pathname[..|href|] + [pathname[|href|]];
    }
    if StartsWith(pathname, href + "/") {
      assert pathname[..|href|] == pathname[..|href| + 1][..|href|];
      assert pathname[|href|] == pathname[..|href| + 1][|href|];
    }
  }

  /** A sibling page sharing a name prefix is not highlighted. */
  lemma SiblingPrefixNotActive()
    ensures !IsActive("/employees-archive", "/employees")
    ensures IsActive("/employees/new", "/employees")
  {
    ActiveIffSegmentBoundary("/employees-archive", "/employees");
    assert "/employees-archive"[10] == '-';
    assert "/employees/new"[..11] == "/employees/";
  }

  /** The list shown: every entry, whatever the session's permissions. */
  function VisibleItems(s: AuthStore.AuthState): (r: seq<NavItem>)
    ensures forall i :: 0 <= i < |NavItems| ==> NavItems[i] in r
    ensures forall x :: x in r ==> x in NavItems
  {
    NavItems
  }

  /** Revoking every permission hides nothing. */
  lemma VisibilityIgnoresPermissions(s: AuthStore.AuthState)
    ensures VisibleItems(AuthStore.Logout(s)) == VisibleItems(s)
  {
  }

  /** Only the Dashboard entry lacks a required permission. */
  lemma RequiredPermissionTable(i: nat)
    requires i < |NavItems|
    ensures NavItems[i].requiredPermission.None? <==> i == 0
  {
  }

  /** The entry a pathname highlights, if any: the first active one. */
  function ActiveIndex(pathname: string): (r: Option<nat>)
    ensures r.Some? ==> r.value < |NavItems| && IsActive(pathname, NavItems[r.value].href)
    ensures r.None? ==> forall i :: 0 <= i < |NavItems| ==> !IsActive(pathname, NavItems[i].href)
  {
    FirstActive(pathname, 0)
  }

  function FirstActive(pathname: string, from: nat): (r: Option<nat>)
    requires from <= |NavItems|
    ensures r.Some? ==> from <= r.value < |NavItems| && IsActive(pathname, NavItems[r.value].href)
    ensures r.None? ==> forall i :: from <= i < |NavItems| ==> !IsActive(pathname, NavItems[i].href)
    decreases |NavItems| - from
  {
    if from == |NavItems| then None
    else if IsActive(pathname, NavItems[from].href) then Some(from)
    else FirstActive(pathname, from + 1)
  }

  /** No pathname highlights two entries. */
  lemma AtMostOneActive(pathname: string, i: nat, j: nat)
    requires i < |NavItems| && j < |NavItems|
    requires IsActive(pathname, NavItems[i].href) && IsActive(pathname, NavItems[j].href)
    ensures i == j
  {
    var hi := NavItems[i].href;
    var hj := NavItems[j].href;
    assert |hi| >= 3 && |hj| >= 3;
    assert pathname[1] == hi[1] && pathname[2] == hi[2] by { ActivePrefix(pathname, hi); }
    assert pathname[1] == hj[1] && pathname[2] == hj[2] by { ActivePrefix(pathname, hj); }
  }

  lemma ActivePrefix(pathname: string, href: string)
    requires IsActive(pathname, href) && |href| >= 3
    ensures |pathname| >= 3 && pathname[1] == href[1] && pathname[2] == href[2]
  {
    ActiveIffSegmentBoundary(pathname, href);
    if pathname != href {
      assert pathname[..|href|][1] == href[1];
      assert pathname[..|href|][2] == href[2];
    }
  }

  /** Every page an entry highlights is one the route guard protects. */
  lemma ActivePagesAreProtected(pathname: string, i: nat)
    requires i < |NavItems| && IsActive(pathname, NavItems[i].href)
    ensures AuthConfig.IsProtected(pathname)
  {
    var href := NavItems[i].href;
    assert StartsWith(pathname, href) by {
      ActiveIffSegmentBoundary(pathname, href);
    }
  }
}
