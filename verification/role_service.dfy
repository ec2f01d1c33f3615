/**
 * The URLs of the role and permission services: the two filtered lists,
 * the roles up to a level, the permission check of one role, and the
 * permission search, whose query text goes through the URI-component
 * encoder (a parameter here).
 */
module RoleService {
  import opened Wrappers
  import opened Strings
  import opened Query

  const RolesBase: string := "/roles"
  const PermissionsBase: string := "/permissions"

  /** `getRoles`: the list of roles, filtered. */
  function RolesUrl(filters: Option<Filters>, escape: string -> string): (r: string)
    ensures r == "/roles" <==> filters.None? || forall j :: 0 <= j < |filters.value| ==> !Kept(filters.value[j].1)
    ensures StartsWith(r, "/roles")
  {
    ListUrl(RolesBase, filters, escape)
  }

  /** `getPermissions`: the list of permissions, filtered. */
  function PermissionsUrl(filters: Option<Filters>, escape: string -> string): (r: string)
    ensures r == "/permissions" <==> filters.None? || forall j :: 0 <= j < |filters.value| ==> !Kept(filters.value[j].1)
    ensures StartsWith(r, "/permissions")
  {
    ListUrl(PermissionsBase, filters, escape)
  }

  const ByLevelPrefix: string := "/roles/by-level/"

  /** `getRolesByLevel`: the level is the last path segment, in decimal. */
  function RolesByLevelUrl(maxLevel: int): (r: string)
    ensures StartsWith(r, ByLevelPrefix)
    ensures ParseInt(r[|ByLevelPrefix|..]) == maxLevel
    ensures '/' !in r[|ByLevelPrefix|..] && '?' !in r[|ByLevelPrefix|..]
  {
    var digits := IntToString(maxLevel);
    IntToStringRoundTrip(maxLevel);
    assert (ByLevelPrefix + digits)[|ByLevelPrefix|..] == digits;
    ByLevelPrefix + digits
  }

  /** Distinct levels ask for distinct URLs. */
  lemma RolesByLevelInjective(a: int, b: int)
    requires RolesByLevelUrl(a) == RolesByLevelUrl(b)
    ensures a == b
  {
  }

  /**
   * `checkPermission`: `/roles/{id}/check-permission/{permission}`, both
   * interpolated as is. With neither holding a `/`, the id and the
   * permission come back as the segments around `check-permission`.
   */
  function CheckPermissionUrl(id: string, permission: string): (r: string)
    ensures '/' !in id && '/' !in permission ==>
      Split(r, '/') == Split(RolesBase, '/') + [id, "check-permission", permission]
  {
    var url := RolesBase + "/" + id + "/" + "check-permission" + "/" + permission;
    assert '/' !in id && '/' !in permission ==>
      Split(url, '/') == Split(RolesBase, '/') + [id, "check-permission", permission] by {
      if '/' !in id && '/' !in permission {
        assert '/' !in "check-permission";
        ThreeMoreSegments(RolesBase, id, "check-permission", permission);
      }
    }
    url
  }

  const SearchPrefix: string := "/permissions/search?q="

  /** `searchPermissions`: the encoded query text follows `?q=`. */
  function SearchPermissionsUrl(query: string, encode: string -> string): (r: string)
    ensures StartsWith(r, SearchPrefix)
    ensures r[|SearchPrefix|..] == encode(query)
  {
    var r := SearchPrefix + encode(query);
    assert r[|SearchPrefix|..] == encode(query);
    r
  }

  /** With a decoder that undoes the encoder, the search text reads back. */
  lemma SearchReadsBack(query: string, encode: string -> string, decode: string -> string)
    requires decode(encode(query)) == query
    ensures decode(SearchPermissionsUrl(query, encode)[|SearchPrefix|..]) == query
  {
  }
}
