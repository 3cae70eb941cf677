/**
 * The report store: the document collection modelled as a map from report id to
 * report, with create, owner-scoped listing, lookups and the two delete paths.
 */
module ReportsService {
  import opened Wrappers
  import opened CreateReportDto
  import JsString

  type ReportId = string
  type UserId = string

  /** The identity the authentication guard attaches to a request (`sub` is the user id). */
  datatype VerifyUser = VerifyUser(sub: UserId, email: string)

  /** A stored report: its id, the eight DTO fields and its owner (`user`), if any. */
  datatype Report = Report(id: ReportId, fields: ReportFields, user: Option<UserId>)

  /** Why `removeByUser` refuses. */
  datatype RemoveError =
    | NotFound      // NotFoundException('Report not found'), HTTP 404
    | Forbidden     // ForbiddenException('You can only delete your own reports'), HTTP 403
    | OwnerMissing  // `report.user.toString()` on a report without owner: a TypeError, HTTP 500

  type Table = map<ReportId, Report>

  /** Every stored report carries the id it is stored under. */
  ghost predicate WellKeyed(t: Table)
  {
    forall id :: id in t ==> t[id].id == id
  }

  /** `user?.sub`: the owner a create or a list is scoped to. */
  function OwnerOf(user: Option<VerifyUser>): Option<UserId>
  {
    if user.Some? then Some(user.value.sub) else None
  }

  /**
   * The filter `findAll` sends to the database: the caller's own reports and, when a
   * non-empty `location` is given, only those whose location contains it, ignoring case.
   */
  predicate Listed(r: Report, user: Option<VerifyUser>, location: Option<string>)
    ensures Listed(r, user, location) && r.user.Some? ==> user.Some? && user.value.sub == r.user.value
    ensures Listed(r, user, location) && location.Some? ==> |location.value| <= |r.fields.location|
  {
    && r.user == OwnerOf(user)
    && (location.Some? && location.value != "" ==>
          JsString.Contains(JsString.ToLower(r.fields.location), JsString.ToLower(location.value)))
  }

  ghost predicate DistinctIds(rs: seq<Report>)
  {
    forall i, j :: 0 <= i < j < |rs| ==> rs[i].id != rs[j].id
  }

  ghost predicate NewestFirst(rs: seq<Report>)
  {
    forall i, j :: 0 <= i < j < |rs| ==> rs[i].fields.timestamp >= rs[j].fields.timestamp
  }

  /** Places `r` in a newest-first list, in front of the first report that is not newer than it. */
  function InsertNewestFirst(rs: seq<Report>, r: Report): (out: seq<Report>)
    requires NewestFirst(rs)
    ensures NewestFirst(out)
    ensures |out| == |rs| + 1
    ensures forall x :: x in out <==> x in rs || x == r
    ensures DistinctIds(rs) && (forall x :: x in rs ==> x.id != r.id) ==> DistinctIds(out)
  {
    if rs == [] || rs[0].fields.timestamp <= r.fields.timestamp then
      NotOlderThanHead(rs, r);
      ConsNewestFirst(r, rs);
      ConsDistinct(r, rs);
      [r] + rs
    else
      TailNewestFirst(rs);
      TailDistinct(rs, r);
      var tail := InsertNewestFirst(rs[1..], r);
      HeadOfInsert(rs, r, tail);
      ConsNewestFirst(rs[0], tail);
      ConsDistinct(rs[0], tail);
      ConsMembers(rs, r, tail);
      [rs[0]] + tail
  }

  lemma NotOlderThanHead(rs: seq<Report>, r: Report)
    requires NewestFirst(rs) && (rs == [] || rs[0].fields.timestamp <= r.fields.timestamp)
    ensures forall x :: x in rs ==> x.fields.timestamp <= r.fields.timestamp
  {
    forall x | x in rs ensures x.fields.timestamp <= r.fields.timestamp {
      var j :| 0 <= j < |rs| && rs[j] == x;
      if j > 0 { assert rs[0].fields.timestamp >= rs[j].fields.timestamp; }
    }
  }

  lemma TailNewestFirst(rs: seq<Report>)
    requires NewestFirst(rs) && |rs| > 0
    ensures NewestFirst(rs[1..])
  {
    forall i, j | 0 <= i < j < |rs[1..]|
      ensures rs[1..][i].fields.timestamp >= rs[1..][j].fields.timestamp
    {
      assert rs[1..][i] == rs[i + 1] && rs[1..][j] == rs[j + 1];
    }
  }

  lemma TailDistinct(rs: seq<Report>, r: Report)
    requires |rs| > 0
    ensures DistinctIds(rs) && (forall x :: x in rs ==> x.id != r.id) ==>
      DistinctIds(rs[1..]) && forall x :: x in rs[1..] ==> x.id != r.id
  {
    if DistinctIds(rs) && (forall x :: x in rs ==> x.id != r.id) {
      forall i, j | 0 <= i < j < |rs[1..]| ensures rs[1..][i].id != rs[1..][j].id {
        assert rs[1..][i] == rs[i + 1] && rs[1..][j] == rs[j + 1];
      }
      forall x | x in rs[1..] ensures x.id != r.id {
        var j :| 0 <= j < |rs[1..]| && rs[1..][j] == x;
        assert rs[j + 1] == x;
      }
    }
  }

  lemma ConsMembers(rs: seq<Report>, r: Report, tail: seq<Report>)
    requires |rs| > 0 && forall x :: x in tail <==> x in rs[1..] || x == r
    ensures forall x :: x in [rs[0]] + tail <==> x in rs || x == r
    ensures DistinctIds(rs) ==> forall x :: x in rs[1..] ==> x in rs
  {
    assert rs == [rs[0]] + rs[1..];
  }

  /** The head of a newest-first list is newer than `r` and every later entry, so it heads the insertion. */
  lemma HeadOfInsert(rs: seq<Report>, r: Report, tail: seq<Report>)
    requires NewestFirst(rs) && |rs| > 0 && rs[0].fields.timestamp > r.fields.timestamp
    requires forall x :: x in tail <==> x in rs[1..] || x == r
    ensures forall x :: x in tail ==> x.fields.timestamp <= rs[0].fields.timestamp
    ensures DistinctIds(rs) && (forall x :: x in rs ==> x.id != r.id) ==>
      forall x :: x in tail ==> x.id != rs[0].id
  {
    forall x | x in tail ensures x.fields.timestamp <= rs[0].fields.timestamp {
      if x != r {
        var j :| 0 <= j < |rs[1..]| && rs[1..][j] == x;
        assert rs[j + 1] == x;
      }
    }
    if DistinctIds(rs) && (forall x :: x in rs ==> x.id != r.id) {
      forall x | x in tail ensures x.id != rs[0].id {
        if x != r {
          var j :| 0 <= j < |rs[1..]| && rs[1..][j] == x;
          assert rs[j + 1] == x;
        } else {
          assert rs[0] in rs;
        }
      }
    }
  }

  lemma ConsNewestFirst(a: Report, t: seq<Report>)
    requires NewestFirst(t) && forall x :: x in t ==> x.fields.timestamp <= a.fields.timestamp
    ensures NewestFirst([a] + t)
  {
    forall i, j | 0 <= i < j < |[a] + t|
      ensures ([a] + t)[i].fields.timestamp >= ([a] + t)[j].fields.timestamp
    {
      if i == 0 { assert t[j - 1] in t; }
    }
  }

  lemma ConsDistinct(a: Report, t: seq<Report>)
    ensures DistinctIds(t) && (forall x :: x in t ==> x.id != a.id) ==> DistinctIds([a] + t)
  {
    if DistinctIds(t) && (forall x :: x in t ==> x.id != a.id) {
      ConsDistinctStep(a, t);
    }
  }

  lemma ConsDistinctStep(a: Report, t: seq<Report>)
    requires DistinctIds(t) && forall x :: x in t ==> x.id != a.id
    ensures DistinctIds([a] + t)
  {
    forall i, j | 0 <= i < j < |[a] + t| ensures ([a] + t)[i].id != ([a] + t)[j].id {
      if i == 0 { assert t[j - 1] in t; }
    }
  }

  /**
   * The outcome of the owner check in `removeByUser`, decided on the table as it is
   * before the delete: the report, or the reason it may not be deleted.
   */
  function OwnerCheck(t: Table, id: ReportId, userId: UserId): (r: Result<Report, RemoveError>)
    ensures r == Failure(NotFound) <==> id !in t
    ensures r == Failure(OwnerMissing) <==> id in t && t[id].user.None?
    ensures r == Failure(Forbidden) <==> id in t && t[id].user.Some? && t[id].user.value != userId
    ensures r.Success? <==> id in t && t[id].user == Some(userId)
    ensures r.Success? ==> r.value == t[id]
  {
    if id !in t then Failure(NotFound)
    else if t[id].user.None? then Failure(OwnerMissing)
    else if t[id].user.value != userId then Failure(Forbidden)
    else Success(t[id])
  }

  class ReportStore {
    /** The `reports` collection. */
    var reports: Table

    ghost predicate Valid()
      reads this
    {
      WellKeyed(reports)
    }

    constructor ()
      ensures Valid() && reports == map[]
    {
      reports := map[];
    }

    /**
     * `create`: stores a new report with exactly the DTO's fields and the caller's
     * `sub` as owner. The database chooses the new id; here it is `id`, unused so far.
     */
    method Create(dto: ReportFields, user: Option<VerifyUser>, id: ReportId) returns (created: Report)
      requires Valid() && id !in reports
      modifies this
      ensures Valid()
      ensures created == Report(id, dto, OwnerOf(user))
      ensures reports == old(reports)[id := created]
      ensures |reports| == |old(reports)| + 1
    {
      created := Report(id, dto, OwnerOf(user));
      reports := reports[id := created];
    }

    /**
     * `create` as the code stands: the report schema declares no `user` path, and the
     * database layer drops undeclared paths when it stores a document, so the report
     * is stored without an owner whoever creates it.
     */
    method CreateAsWritten(dto: ReportFields, user: Option<VerifyUser>, id: ReportId) returns (created: Report)
      requires Valid() && id !in reports
      modifies this
      ensures Valid()
      ensures created == Report(id, dto, None)
      ensures reports == old(reports)[id := created]
    {
      created := Report(id, dto, None);
      reports := reports[id := created];
    }

    /**
     * `findAll`: exactly the caller's reports that match the location filter, each
     * once, newest first. Ties keep no particular order.
     */
    method FindAll(location: Option<string>, user: Option<VerifyUser>) returns (rs: seq<Report>)
      requires Valid()
      ensures forall r :: r in rs <==> r.id in reports && reports[r.id] == r && Listed(r, user, location)
      ensures forall r :: r in rs ==> r.user == OwnerOf(user)
      ensures DistinctIds(rs)
      ensures NewestFirst(rs)
    {
      rs := [];
      var pending := reports.Keys;
      while pending != {}
        invariant pending <= reports.Keys
        invariant forall r :: r in rs <==>
          r.id in reports.Keys - pending && reports[r.id] == r && Listed(r, user, location)
        invariant DistinctIds(rs)
        invariant NewestFirst(rs)
        decreases |pending|
      {
        var id :| id in pending;
        var r := reports[id];
        if Listed(r, user, location) {
          rs := InsertNewestFirst(rs, r);
        }
        pending := pending - {id};
      }
    }

    /** `findOne`: the report stored under `id`, or nothing (`null`). */
    method FindOne(id: ReportId) returns (found: Option<Report>)
      requires Valid()
      ensures found.Some? <==> id in reports
      ensures found.Some? ==> found.value == reports[id] && found.value.id == id
    {
      found := if id in reports then Some(reports[id]) else None;
    }

    /**
     * `findByIds`: every stored report whose id is in `ids`, each once however often its
     * id is listed; ids that match nothing are skipped. The order is the database's.
     */
    method FindByIds(ids: seq<ReportId>) returns (rs: seq<Report>)
      requires Valid()
      ensures forall r :: r in rs <==> r.id in ids && r.id in reports && reports[r.id] == r
      ensures DistinctIds(rs)
      ensures |rs| <= |ids|
    {
      rs := [];
      var pending := reports.Keys;
      ghost var seen: set<ReportId> := {};
      while pending != {}
        invariant pending <= reports.Keys
        invariant forall r :: r in rs <==>
          r.id in ids && r.id in reports.Keys - pending && reports[r.id] == r
        invariant DistinctIds(rs)
        invariant seen == set r | r in rs :: r.id
        invariant |rs| == |seen|
        invariant seen <= set i | i in ids
        decreases |pending|
      {
        var id :| id in pending;
        if id in ids {
          assert id !in seen;
          seen := seen + {id};
          rs := rs + [reports[id]];
        }
        pending := pending - {id};
      }
      SetOfSeqSize(ids);
      SubsetSize(seen, set i | i in ids);
    }

    /** `remove`: deletes the report stored under `id`, whoever owns it, and returns it. */
    method Remove(id: ReportId) returns (deleted: Option<Report>)
      requires Valid()
      modifies this
      ensures Valid()
      ensures deleted == (if id in old(reports) then Some(old(reports)[id]) else None)
      ensures reports == old(reports) - {id}
    {
      deleted := if id in reports then Some(reports[id]) else None;
      reports := reports - {id};
    }

    /**
     * `removeByUser`: deletes the report only when it exists and `userId` owns it;
     * on every refusal the collection is left as it was.
     */
    method RemoveByUser(id: ReportId, userId: UserId) returns (result: Result<Report, RemoveError>)
      requires Valid()
      modifies this
      ensures Valid()
      ensures result == OwnerCheck(old(reports), id, userId)
      ensures result.Success? ==> reports == old(reports) - {id}
      ensures result.Failure? ==> reports == old(reports)
    {
      var report := FindOne(id);
      if report.None? {
        return Failure(NotFound);
      }
      if report.value.user.None? {
        return Failure(OwnerMissing);
      }
      if report.value.user.value != userId {
        return Failure(Forbidden);
      }
      var deleted := Remove(id);
      result := Success(deleted.value);
    }
  }

  lemma SetOfSeqSize<T>(s: seq<T>)
    ensures |set x | x in s| <= |s|
  {
    if |s| > 0 {
      SetOfSeqSize(s[1..]);
      assert (set x | x in s) == (set x | x in s[1..]) + {s[0]};
    } else {
      assert (set x | x in s) == {};
    }
  }

  lemma SubsetSize<T>(a: set<T>, b: set<T>)
    requires a <= b
    ensures |a| <= |b|
  {
    assert b == a + (b - a);
  }

  /** Every stored report lacks an owner, as every report `CreateAsWritten` stores does. */
  ghost predicate Ownerless(t: Table)
  {
    forall id :: id in t ==> t[id].user.None?
  }

  /**
   * On a table of owner-less reports, an authenticated caller's listing matches nothing
   * and an owner-checked delete never succeeds: an existing report gives `OwnerMissing`.
   */
  lemma OwnerlessTable(t: Table, u: VerifyUser, location: Option<string>, id: ReportId)
    requires Ownerless(t)
    ensures forall k :: k in t ==> !Listed(t[k], Some(u), location)
    ensures OwnerCheck(t, id, u.sub) == if id in t then Failure(OwnerMissing) else Failure(NotFound)
  {
  }

  /**
   * As written: a report the caller has just created is not in the caller's listing,
   * and the caller's owner-checked delete of it fails with `OwnerMissing`.
   */
  method OwnerLostAsWritten(dto: ReportFields, u: VerifyUser, id: ReportId)
    returns (listed: seq<Report>, removal: Result<Report, RemoveError>)
    ensures listed == []
    ensures removal == Failure(OwnerMissing)
  {
    var store := new ReportStore();
    var created := store.CreateAsWritten(dto, Some(u), id);
    listed := store.FindAll(None, Some(u));
    assert forall r :: r !in listed;
    EmptyWithoutMembers(listed);
    removal := store.RemoveByUser(id, u.sub);
  }

  /**
   * With the owner stored: the caller's listing is exactly the new report, and the
   * caller's owner-checked delete of it succeeds.
   */
  method OwnerKeptAsIntended(dto: ReportFields, u: VerifyUser, id: ReportId)
    returns (listed: seq<Report>, removal: Result<Report, RemoveError>)
    ensures listed == [Report(id, dto, Some(u.sub))]
    ensures removal == Success(Report(id, dto, Some(u.sub)))
  {
    var store := new ReportStore();
    var created := store.Create(dto, Some(u), id);
    listed := store.FindAll(None, Some(u));
    OnlyElement(listed, created);
    removal := store.RemoveByUser(id, u.sub);
  }

  lemma EmptyWithoutMembers(rs: seq<Report>)
    ensures (forall r :: r !in rs) ==> rs == []
  {
    if rs != [] {
      assert rs[0] in rs;
    }
  }

  /** A list of distinct ids whose only member is `x` is `[x]`. */
  lemma OnlyElement(rs: seq<Report>, x: Report)
    requires forall r :: r in rs <==> r == x
    requires DistinctIds(rs)
    ensures rs == [x]
  {
    assert x in rs;
    assert forall i :: 0 <= i < |rs| ==> rs[i] in rs;
    assert forall i :: 0 <= i < |rs| ==> rs[i] == x;
    assert |rs| >= 2 ==> rs[0].id == rs[1].id;
    assert |rs| == 1;
  }
}
