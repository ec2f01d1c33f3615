/**
 * The URLs and the one request body of the leave service that carry logic:
 * the leave list, one employee's leaves, the statistics (whose employee id
 * is interpolated into the query as is) and the rejection.
 */
module LeaveService {
  import opened Wrappers
  import opened Strings
  import opened Query

  const Base: string := "/leave"
  const StatsPath: string := "/leave/stats"

  /** `getLeaves`: the list of leave requests, filtered. */
  function LeavesUrl(filters: Option<Filters>, escape: string -> string): (r: string)
    ensures r == "/leave" <==> filters.None? || forall j :: 0 <= j < |filters.value| ==> !Kept(filters.value[j].1)
    ensures StartsWith(r, "/leave")
  {
    ListUrl(Base, filters, escape)
  }

  /** The directory the per-employee requests live under. */
  const EmployeeDir: string := Base + "/employee"

  /**
   * `${baseUrl}/employee/${employeeId}`: an id without `/` is the last
   * segment, after the segments of the employee directory.
   */
  function EmployeePath(employeeId: string): (r: string)
    ensures '/' !in employeeId ==> Split(r, '/') == Split(EmployeeDir, '/') + [employeeId]
    ensures '?' !in employeeId ==> '?' !in r
  {
    assert '?' !in Base && '?' !in "/employee";
    assert '/' !in employeeId ==> Split(EmployeeDir + "/" + employeeId, '/') == Split(EmployeeDir, '/') + [employeeId] by {
      if '/' !in employeeId { SplitSnoc(EmployeeDir, employeeId, '/'); }
    }
    EmployeeDir + "/" + employeeId
  }

  /** `getEmployeeLeaves`: one employee's leave requests, filtered. */
  function EmployeeLeavesUrl(employeeId: string, filters: Option<Filters>, escape: string -> string): (r: string)
    ensures r == EmployeePath(employeeId) <==>
      filters.None? || forall j :: 0 <= j < |filters.value| ==> !Kept(filters.value[j].1)
    ensures StartsWith(r, EmployeePath(employeeId))
  {
    ListUrl(EmployeePath(employeeId), filters, escape)
  }

  /** The employee id is the third path segment, and the query reads back as the kept filters. */
  lemma EmployeeLeavesReadsBack(employeeId: string, filters: Filters, escape: string -> string, decode: string -> string)
    requires '/' !in employeeId && '?' !in employeeId
    requires Reversible(ParamsOf(filters), escape, decode)
    ensures var (path, query) := SplitUrl(EmployeeLeavesUrl(employeeId, Some(filters), escape));
      && Split(path, '/') == Split(EmployeeDir, '/') + [employeeId]
      && Parse(query, decode) == ParamsOf(filters)
  {
    ListUrlRoundTrip(EmployeePath(employeeId), filters, escape, decode);
  }

  /**
   * `getStats`: `/leave/stats`, with `?employeeId=` and the raw id appended
   * when an id is given. Unlike the list requests, the id is not encoded.
   */
  function StatsUrl(employeeId: Option<string>): (r: string)
    ensures r == StatsPath <==> !Truthy(employeeId)
    ensures Truthy(employeeId) ==> SplitUrl(r) == (StatsPath, "employeeId=" + employeeId.value)
  {
    if Truthy(employeeId) then
      var query := "employeeId=" + employeeId.value;
      assert '?' !in StatsPath;
      SplitWithQuery(StatsPath, query);
      WithQuery(StatsPath, query)
    else StatsPath
  }

  /**
   * The raw interpolation is what the shared builder would produce when the
   * escaper leaves the key and the id alone, and the id reads back as the
   * only parameter when it holds no `&` or `=`.
   */
  lemma StatsUrlAgreesWhenNothingToEscape(employeeId: string, escape: string -> string)
    requires employeeId != ""
    requires escape("employeeId") == "employeeId" && escape(employeeId) == employeeId
    requires '&' !in employeeId && '=' !in employeeId
    ensures StatsUrl(Some(employeeId)) == WithQuery(StatsPath, Serialize([("employeeId", employeeId)], escape))
    ensures Parse(SplitUrl(StatsUrl(Some(employeeId))).1, Verbatim) == [("employeeId", employeeId)]
  {
    var params := [("employeeId", employeeId)];
    assert Serialize(params, escape) == "employeeId=" + employeeId by {
      var pieces := Pairs(params, escape);
      assert |pieces| == 1;
      assert pieces[0] == "employeeId" + "=" + employeeId;
    }
    assert Reversible(params, escape, Verbatim);
    ParseSerialize(params, escape, Verbatim);
  }

  /** A request with a URL and a JSON body of string fields. */
  datatype Request = Request(url: string, body: map<string, string>)

  /** `rejectLeave`: the reason travels under `rejectionReason` and nothing else is sent. */
  function RejectLeave(id: string, reason: string): (r: Request)
    ensures r.body.Keys == {"rejectionReason"} && r.body["rejectionReason"] == reason
    ensures StartsWith(r.url, "/leave/")
  {
    Request(Base + "/" + id + "/" + "reject", map["rejectionReason" := reason])
  }

  /** The rejection URL names the leave as the segment after the base path. */
  lemma RejectLeaveSegments(id: string, reason: string)
    requires '/' !in id
    ensures Split(RejectLeave(id, reason).url, '/') == Split(Base, '/') + [id, "reject"]
  {
    assert '/' !in "reject";
    TwoMoreSegments(Base, id, "reject");
  }
}
