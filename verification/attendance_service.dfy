/**
 * The URLs the attendance service requests: the record list, one
 * employee's records, and the statistics, whose three optional arguments
 * become query parameters only when they are non-empty strings.
 */
module AttendanceService {
  import opened Wrappers
  import opened Strings
  import opened Query

  const Base: string := "/attendance"

  /** `getAttendance`: the list of attendance records, filtered. */
  function AttendanceUrl(filters: Option<Filters>, escape: string -> string): (r: string)
    ensures r == "/attendance" <==> filters.None? || forall j :: 0 <= j < |filters.value| ==> !Kept(filters.value[j].1)
    ensures StartsWith(r, "/attendance")
  {
    ListUrl(Base, filters, escape)
  }

  /** The directory the per-employee requests live under. */
  const EmployeeDir: string := Base + "/employee"

  /**
   * `${baseUrl}/employee/${employeeId}`: an id without `/` is the last
   * segment, after the segments of the employee directory.
   */
  function EmployeePath(employeeId: string): (r: string)
    ensures '/' !in employeeId ==> Split(r, '/') == Split(EmployeeDir, '/') + [employeeId]
    ensures '?' !in employeeId ==> '?' !in r
  {
    assert '?' !in Base && '?' !in "/employee";
    assert '/' !in employeeId ==> Split(EmployeeDir + "/" + employeeId, '/') == Split(EmployeeDir, '/') + [employeeId] by {
      if '/' !in employeeId { SplitSnoc(EmployeeDir, employeeId, '/'); }
    }
    EmployeeDir + "/" + employeeId
  }

  /** `getEmployeeAttendance`: one employee's records, filtered. */
  function EmployeeAttendanceUrl(employeeId: string, filters: Option<Filters>, escape: string -> string): (r: string)
    ensures r == EmployeePath(employeeId) <==>
      filters.None? || forall j :: 0 <= j < |filters.value| ==> !Kept(filters.value[j].1)
    ensures StartsWith(r, EmployeePath(employeeId))
  {
    ListUrl(EmployeePath(employeeId), filters, escape)
  }

  /**
   * The path of an employee's records has the id as its third segment, and
   * the query after it reads back as the kept filter entries.
   */
  lemma EmployeeAttendanceReadsBack(employeeId: string, filters: Filters, escape: string -> string, decode: string -> string)
    requires '/' !in employeeId && '?' !in employeeId
    requires Reversible(ParamsOf(filters), escape, decode)
    ensures var (path, query) := SplitUrl(EmployeeAttendanceUrl(employeeId, Some(filters), escape));
      && Split(path, '/') == Split(EmployeeDir, '/') + [employeeId]
      && Parse(query, decode) == ParamsOf(filters)
  {
    ListUrlRoundTrip(EmployeePath(employeeId), filters, escape, decode);
  }

  /** `params.append(key, value)` guarded by `if (value)`. */
  function AppendIfTruthy(params: Params, key: string, value: Option<string>): Params {
    if Truthy(value) then params + [(key, value.value)] else params
  }

  /** The parameters of `getStats`, in the order the arguments are checked. */
  function StatsParams(employeeId: Option<string>, startDate: Option<string>, endDate: Option<string>): (r: Params)
    ensures r == [] <==> !Truthy(employeeId) && !Truthy(startDate) && !Truthy(endDate)
    ensures |r| <= 3
  {
    var p := AppendIfTruthy([], "employeeId", employeeId);
    var p := AppendIfTruthy(p, "startDate", startDate);
    AppendIfTruthy(p, "endDate", endDate)
  }

  /** An optional argument as a filter value: an absent argument is `undefined`. */
  function AsFilter(v: Option<string>): FilterValue {
    match v
    case None => Undefined
    case Some(s) => Str(s)
  }

  /**
   * The statistics parameters are exactly what the generic filter rule
   * keeps of the object `{employeeId, startDate, endDate}`: the truthiness
   * test and the list guard agree on strings.
   */
  lemma StatsParamsAreFilterParams(employeeId: Option<string>, startDate: Option<string>, endDate: Option<string>)
    ensures StatsParams(employeeId, startDate, endDate)
      == ParamsOf([("employeeId", AsFilter(employeeId)), ("startDate", AsFilter(startDate)), ("endDate", AsFilter(endDate))])
  {
    var fs := [("employeeId", AsFilter(employeeId)), ("startDate", AsFilter(startDate)), ("endDate", AsFilter(endDate))];
    assert fs == [fs[0]] + [fs[1]] + [fs[2]];
    ParamsAppend([fs[0]] + [fs[1]], [fs[2]]);
    ParamsAppend([fs[0]], [fs[1]]);
    assert ParamsOf([fs[0]]) == AppendIfTruthy([], "employeeId", employeeId);
    assert ParamsOf([fs[1]]) == AppendIfTruthy([], "startDate", startDate);
    assert ParamsOf([fs[2]]) == AppendIfTruthy([], "endDate", endDate);
  }

  /** `getStats`: `/attendance/stats`, with a query only when some argument is given. */
  function StatsUrl(employeeId: Option<string>, startDate: Option<string>, endDate: Option<string>, escape: string -> string): (r: string)
    ensures r == "/attendance/stats" <==> !Truthy(employeeId) && !Truthy(startDate) && !Truthy(endDate)
    ensures StartsWith(r, "/attendance/stats")
  {
    WithQuery(Base + "/stats", Serialize(StatsParams(employeeId, startDate, endDate), escape))
  }
}
