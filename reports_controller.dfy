/**
 * The `/reports` routes. The class-level JWT guard runs first on every route, so a
 * request without an authenticated caller is answered 401 before anything else;
 * the body of POST is then validated, and each handler makes one call to the store.
 */
module ReportsController {
  import opened Wrappers
  import opened CreateReportDto
  import opened ReportsService
  import JsString

  datatype ApiError =
    | Unauthorized                          // the guard refused: HTTP 401
    | BadRequest(violations: seq<string>)   // the body failed validation: HTTP 400

  /** `ids.split(',')` on the `compare/:ids` path segment. */
  function ParseIds(segment: string): (ids: seq<ReportId>)
    ensures |ids| >= 1
    ensures forall i :: 0 <= i < |ids| ==> ',' !in ids[i]
    ensures JsString.Join(ids, ',') == segment
  {
    JsString.JoinSplit(segment, ',');
    JsString.Split(segment, ',')
  }

  /**
   * The front end builds the segment with `ids.join(',')`; for a non-empty list of
   * comma-free ids the route hands the store exactly that list.
   */
  lemma ParseJoinedIds(ids: seq<ReportId>)
    requires |ids| >= 1 && forall i :: 0 <= i < |ids| ==> ',' !in ids[i]
    ensures ParseIds(JsString.Join(ids, ',')) == ids
  {
    JsString.SplitJoin(ids, ',');
  }

  /** POST /reports: the new report belongs to the authenticated caller. */
  method Create(store: ReportStore, caller: Option<VerifyUser>, body: Body, id: ReportId)
    returns (res: Result<Report, ApiError>)
    requires store.Valid() && id !in store.reports
    modifies store
    ensures store.Valid()
    ensures caller.None? ==> res == Failure(Unauthorized)
    ensures caller.Some? && Validate(body).Failure? ==> res == Failure(BadRequest(Validate(body).error))
    ensures caller.Some? && Validate(body).Success? ==>
      res == Success(Report(id, Validate(body).value, Some(caller.value.sub)))
    ensures res.Success? ==> store.reports == old(store.reports)[id := res.value]
    ensures res.Failure? ==> store.reports == old(store.reports)
  {
    if caller.None? {
      return Failure(Unauthorized);
    }
    var dto := Validate(body);
    if dto.Failure? {
      return Failure(BadRequest(dto.error));
    }
    var created := store.Create(dto.value, caller, id);
    res := Success(created);
  }

  /** GET /reports?location=…: always scoped to the authenticated caller. */
  method FindAll(store: ReportStore, caller: Option<VerifyUser>, location: Option<string>)
    returns (res: Result<seq<Report>, ApiError>)
    requires store.Valid()
    ensures caller.None? <==> res == Failure(Unauthorized)
    ensures caller.Some? ==> res.Success?
    ensures res.Success? ==> forall r :: r in res.value ==> r.user == Some(caller.value.sub)
    ensures res.Success? ==> forall r :: r in res.value <==>
      r.id in store.reports && store.reports[r.id] == r && Listed(r, caller, location)
    ensures res.Success? ==> NewestFirst(res.value) && DistinctIds(res.value)
  {
    if caller.None? {
      return Failure(Unauthorized);
    }
    var rs := store.FindAll(location, caller);
    res := Success(rs);
  }

  /** GET /reports/:id: any authenticated caller sees any report; there is no owner check. */
  method FindOne(store: ReportStore, caller: Option<VerifyUser>, id: ReportId)
    returns (res: Result<Option<Report>, ApiError>)
    requires store.Valid()
    ensures caller.None? <==> res == Failure(Unauthorized)
    ensures caller.Some? ==> res.Success?
    ensures res.Success? ==> (res.value.Some? <==> id in store.reports)
    ensures res.Success? && res.value.Some? ==> res.value.value == store.reports[id]
  {
    if caller.None? {
      return Failure(Unauthorized);
    }
    var found := store.FindOne(id);
    res := Success(found);
  }

  /** GET /reports/compare/:ids: the stored reports whose ids the comma-separated segment lists. */
  method FindByIds(store: ReportStore, caller: Option<VerifyUser>, segment: string)
    returns (res: Result<seq<Report>, ApiError>)
    requires store.Valid()
    ensures caller.None? <==> res == Failure(Unauthorized)
    ensures caller.Some? ==> res.Success?
    ensures res.Success? ==> forall r :: r in res.value <==>
      r.id in ParseIds(segment) && r.id in store.reports && store.reports[r.id] == r
    ensures res.Success? ==> DistinctIds(res.value) && |res.value| <= |ParseIds(segment)|
  {
    if caller.None? {
      return Failure(Unauthorized);
    }
    var rs := store.FindByIds(ParseIds(segment));
    res := Success(rs);
  }

  /**
   * DELETE /reports/:id calls the unchecked `remove`: any authenticated caller deletes
   * any existing report, and there is no Forbidden answer.
   */
  method Remove(store: ReportStore, caller: Option<VerifyUser>, id: ReportId)
    returns (res: Result<Option<Report>, ApiError>)
    requires store.Valid()
    modifies store
    ensures store.Valid()
    ensures caller.None? <==> res == Failure(Unauthorized)
    ensures caller.None? ==> store.reports == old(store.reports)
    ensures caller.Some? ==> store.reports == old(store.reports) - {id}
    ensures caller.Some? ==>
      res == Success(if id in old(store.reports) then Some(old(store.reports)[id]) else None)
  {
    if caller.None? {
      return Failure(Unauthorized);
    }
    var deleted := store.Remove(id);
    res := Success(deleted);
  }

  /**
   * The DELETE route skips the owner check: an authenticated caller deletes a report
   * that someone else owns, which `removeByUser` would have refused with Forbidden.
   */
  method RemoveOthersReport(store: ReportStore, caller: Option<VerifyUser>, id: ReportId)
    returns (res: Result<Option<Report>, ApiError>)
    requires store.Valid() && caller.Some? && id in store.reports
    requires store.reports[id].user.Some? && store.reports[id].user.value != caller.value.sub
    modifies store
    ensures OwnerCheck(old(store.reports), id, caller.value.sub) == Failure(Forbidden)
    ensures id in old(store.reports) && id !in store.reports
    ensures res == Success(Some(old(store.reports)[id]))
  {
    res := Remove(store, caller, id);
  }
}
