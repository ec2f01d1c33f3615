/**
 * The URLs of the user service's two list requests and the body of its
 * bulk operation, whose operation name is one of three.
 */
module UserService {
  import opened Wrappers
  import opened Strings
  import opened Query

  const Base: string := "/users"
  const EmployeesPath: string := "/users/employees"

  /** `getUsers`: the list of users, filtered. */
  function UsersUrl(filters: Option<Filters>, escape: string -> string): (r: string)
    ensures r == "/users" <==> filters.None? || forall j :: 0 <= j < |filters.value| ==> !Kept(filters.value[j].1)
    ensures StartsWith(r, "/users")
  {
    ListUrl(Base, filters, escape)
  }

  /** `getEmployees`: the list of employees, filtered, under its own path. */
  function EmployeesUrl(filters: Option<Filters>, escape: string -> string): (r: string)
    ensures r == EmployeesPath <==> filters.None? || forall j :: 0 <= j < |filters.value| ==> !Kept(filters.value[j].1)
    ensures StartsWith(r, EmployeesPath)
  {
    ListUrl(EmployeesPath, filters, escape)
  }

  /** The two list requests differ in their path and agree in their query. */
  lemma UsersAndEmployeesShareQuery(filters: Filters, escape: string -> string)
    ensures SplitUrl(UsersUrl(Some(filters), escape)).0 == "/users"
    ensures SplitUrl(EmployeesUrl(Some(filters), escape)).0 == "/users/employees"
    ensures SplitUrl(UsersUrl(Some(filters), escape)).1 == SplitUrl(EmployeesUrl(Some(filters), escape)).1
  {
    assert '?' !in Base;
    assert '?' !in EmployeesPath;
    SplitWithQuery(Base, QueryOf(Some(filters), escape));
    SplitWithQuery(EmployeesPath, QueryOf(Some(filters), escape));
  }

  /** The operations `bulkOperation` accepts. */
  datatype BulkOp = BulkDelete | BulkActivate | BulkDeactivate

  function OpName(op: BulkOp): (r: string)
    ensures r in {"delete", "activate", "deactivate"}
  {
    match op
    case BulkDelete => "delete"
    case BulkActivate => "activate"
    case BulkDeactivate => "deactivate"
  }

  /** Reads an operation name; anything but the three names is refused. */
  function ParseOp(s: string): (r: Option<BulkOp>)
    ensures r.Some? <==> s in {"delete", "activate", "deactivate"}
    ensures r.Some? ==> OpName(r.value) == s
  {
    if s == "delete" then Some(BulkDelete)
    else if s == "activate" then Some(BulkActivate)
    else if s == "deactivate" then Some(BulkDeactivate)
    else None
  }

  lemma OpNameRoundTrip(op: BulkOp)
    ensures ParseOp(OpName(op)) == Some(op)
  {
  }

  /** The body of `bulkOperation`: the operation name and the ids, nothing else. */
  datatype BulkBody = BulkBody(operation: string, userIds: seq<string>)

  /** `bulkOperation`: posted to `/users/bulk`. */
  function BulkOperation(op: BulkOp, userIds: seq<string>): (r: (string, BulkBody))
    ensures r.0 == "/users/bulk"
    ensures ParseOp(r.1.operation) == Some(op)
    ensures r.1.userIds == userIds
  {
    OpNameRoundTrip(op);
    (Base + "/bulk", BulkBody(OpName(op), userIds))
  }
}
