/** The report handlers of backend/src/controllers/reportController.js over
    one in-memory report table. Every handler resolves the report first
    (404), then applies the owner-or-"manager" rule (403), and writes only
    when both pass; the status handler validates its input (400) before it
    looks anything up. */
module ReportController {
  import opened Common
  import opened ReportModel
  import opened Paging

  /** The one role string the handlers treat as elevated. */
  const ManagerRole: string := "manager"

  /** The view, edit and delete rule: the caller owns the report, or the
      caller's role is exactly the string "manager". */
  predicate OwnerOrManager(caller: Claims, r: Report)
  {
    caller.role == ManagerRole || caller.id == r.userId
  }

  /** The file the upload middleware stored, named by its stored filename. */
  datatype UploadedFile = UploadedFile(filename: string)

  /** The form fields of an upload. Only `notes` is read; an owner or a
      status sent along is ignored. */
  datatype UploadBody = UploadBody(notes: Option<string>, userId: Option<string>, status: Option<string>)

  /** The two statuses a status update may set. */
  function NewStatus(t: Option<string>): (s: Option<Status>)
    ensures s.Some? <==> t == Some("Submitted") || t == Some("Reviewed")
    ensures s.Some? ==> s.value != Rejected && t == Some(StatusName(s.value))
  {
    if !Truthy(t) || t.value !in ["Submitted", "Reviewed"] then None
    else ParseStatus(t.value)
  }

  // ---------------------------------------------------------------------
  // Listing queries

  /** The query string of the two listing routes. */
  datatype ListQuery = ListQuery(
    page: Option<nat>,
    size: Option<nat>,
    sortBy: Option<string>,
    sortOrder: Option<string>,
    date: Option<string>,
    status: Option<string>,
    userId: Option<string>)

  /** One entry of the ORDER BY list: a column of the report, or a column
      of the owning user reached through the join. */
  datatype OrderTerm = OnColumn(column: string, direction: string) | OnOwner(ownerColumn: string, direction: string)

  /** The owner condition of a WHERE clause: none, the text of a `userId`
      query value, or a user id. */
  datatype OwnerFilter = AnyOwner | OwnerText(text: string) | OwnerIs(ownerId: nat)

  /** The WHERE clause the listing handlers build. */
  datatype Where = Where(createdFrom: Option<int>, status: Option<string>, owner: OwnerFilter)

  /** A decimal numeral, as the store reads a text value compared with its
      integer `userId` column. */
  function ParseNat(s: string): (r: Option<nat>)
    ensures r.Some? <==> s != "" && forall i :: 0 <= i < |s| ==> '0' <= s[i] <= '9'
    ensures r.Some? ==> r.value == DigitsValue(s)
  {
    if s == [] then None
    else if forall i :: 0 <= i < |s| ==> '0' <= s[i] <= '9' then Some(DigitsValue(s))
    else None
  }

  /** The value of a string of decimal digits, most significant first. */
  function DigitsValue(s: string): nat
    requires forall i :: 0 <= i < |s| ==> '0' <= s[i] <= '9'
  {
    if s == [] then 0
    else DigitsValue(s[..|s| - 1]) * 10 + (s[|s| - 1] as int - '0' as int)
  }

  /** The decimal numeral of `n` without leading zeros, as a client
      writes an id into the query string. */
  function Decimal(n: nat): (s: string)
    ensures s != "" && forall i :: 0 <= i < |s| ==> '0' <= s[i] <= '9'
    decreases n
  {
    var last := ('0' as int + n % 10) as char;
    if n < 10 then [last] else Decimal(n / 10) + [last]
  }

  /** Reading back a rendered id gives that id. */
  lemma {:induction false} DecimalRoundTrip(n: nat)
    ensures ParseNat(Decimal(n)) == Some(n)
    decreases n
  {
    var s := Decimal(n);
    var last := ('0' as int + n % 10) as char;
    assert s[|s| - 1] == last;
    if n < 10 {
      assert s[..|s| - 1] == [];
    } else {
      DecimalRoundTrip(n / 10);
      assert s[..|s| - 1] == Decimal(n / 10);
      assert DigitsValue(Decimal(n / 10)) == n / 10;
    }
    assert DigitsValue(s) == DigitsValue(s[..|s| - 1]) * 10 + n % 10;
  }

  /** A `userId` query holding the numeral of `n` keeps exactly the rows
      of owner `n` that the other filters keep. */
  lemma OwnerQueryKeepsOwnerRows(q: ListQuery, parseDate: string -> int, n: nat, r: Report)
    requires q.userId == Some(Decimal(n))
    ensures WantedByAll(q, parseDate, r) <==> FiltersMatch(q, parseDate, r) && r.userId == n
  {
    DecimalRoundTrip(n);
    assert !IsTrimmed(Decimal(n)[0]);
  }

  /** Whether the store keeps row `r` under WHERE clause `w`. */
  predicate Satisfies(w: Where, r: Report)
  {
    && (w.createdFrom.Some? ==> r.createdAt >= w.createdFrom.value)
    && (w.status.Some? ==> StatusName(r.status) == w.status.value)
    && match w.owner
       case AnyOwner => true
       case OwnerText(t) => ParseNat(t) == Some(r.userId)
       case OwnerIs(n) => r.userId == n
  }

  /** The date and status filters of both listings: each applies only when
      its query value is non-blank; the date is a lower bound on creation. */
  predicate FiltersMatch(q: ListQuery, parseDate: string -> int, r: Report)
  {
    && (NonBlank(q.date) ==> r.createdAt >= parseDate(q.date.value))
    && (NonBlank(q.status) ==> StatusName(r.status) == q.status.value)
  }

  /** The rows `getAllReports` selects: the two filters plus an owner
      filter that applies only when the `userId` value is non-blank. */
  predicate WantedByAll(q: ListQuery, parseDate: string -> int, r: Report)
  {
    FiltersMatch(q, parseDate, r) && (NonBlank(q.userId) ==> ParseNat(q.userId.value) == Some(r.userId))
  }

  /** The rows `getMyReports` selects: the two filters and the caller's
      ownership, whatever the query's `userId` says. */
  predicate WantedByMine(q: ListQuery, parseDate: string -> int, caller: Claims, r: Report)
  {
    FiltersMatch(q, parseDate, r) && r.userId == caller.id
  }

  /** The sort field: `sortBy` when given, else "createdAt". */
  function SortField(sortBy: Option<string>): string
  {
    if Truthy(sortBy) then sortBy.value else "createdAt"
  }

  /** The sort direction: `sortOrder` when given, else "desc". */
  function SortDirection(sortOrder: Option<string>): string
  {
    if Truthy(sortOrder) then sortOrder.value else "desc"
  }

  /** `ids` lists each key of `reports` exactly once: the order in which
      the store hands the table back for some ORDER BY list. */
  predicate Arrangement(ids: seq<nat>, reports: map<nat, Report>)
  {
    && AllIn(ids, reports)
    && (forall id :: id in reports ==> id in ids)
    && (forall i, j :: 0 <= i < j < |ids| ==> ids[i] != ids[j])
  }

  predicate AllIn(ids: seq<nat>, reports: map<nat, Report>)
  {
    forall i :: 0 <= i < |ids| ==> ids[i] in reports
  }

  /** The rows of `reports` that `w` keeps, in the order `ids` gives. */
  function Select(ids: seq<nat>, reports: map<nat, Report>, w: Where): (rows: seq<Report>)
    requires AllIn(ids, reports)
    ensures |rows| <= |ids|
    ensures forall x :: x in rows ==> x in reports.Values && Satisfies(w, x)
    ensures forall i :: 0 <= i < |ids| && Satisfies(w, reports[ids[i]]) ==> reports[ids[i]] in rows
  {
    if ids == [] then []
    else
      var rest := Select(ids[1..], reports, w);
      assert forall i :: 1 <= i < |ids| ==> ids[i] == ids[1..][i - 1];
      if Satisfies(w, reports[ids[0]]) then [reports[ids[0]]] + rest else rest
  }

  /** Selecting over two stretches of the arrangement is selecting over
      each in turn: the selection never reorders rows. */
  lemma {:induction false} SelectAppend(a: seq<nat>, b: seq<nat>, reports: map<nat, Report>, w: Where)
    requires AllIn(a, reports) && AllIn(b, reports)
    ensures AllIn(a + b, reports)
    ensures Select(a + b, reports, w) == Select(a, reports, w) + Select(b, reports, w)
  {
    assert forall i :: 0 <= i < |a + b| ==> (a + b)[i] == (if i < |a| then a[i] else b[i - |a|]);
    if a != [] {
      var t := a[1..];
      assert AllIn(t, reports) by {
        assert forall i :: 0 <= i < |t| ==> t[i] == a[i + 1];
      }
      SelectAppend(t, b, reports, w);
      assert (a + b)[1..] == t + b;
      assert (a + b)[0] == a[0];
    } else {
      assert a + b == b;
    }
  }

  /** One id selects its row exactly when `w` keeps it. */
  lemma SelectOne(id: nat, reports: map<nat, Report>, w: Where)
    requires id in reports
    ensures AllIn([id], reports)
    ensures Select([id], reports, w) == if Satisfies(w, reports[id]) then [reports[id]] else []
  {
  }

  /** Hence rows come out in the order of the arrangement: a kept id
      earlier in `ids` gives a row earlier in the selection. */
  lemma SelectKeepsOrder(ids: seq<nat>, reports: map<nat, Report>, w: Where, i: nat, j: nat)
    requires AllIn(ids, reports)
    requires i < j < |ids|
    requires Satisfies(w, reports[ids[i]]) && Satisfies(w, reports[ids[j]])
    ensures exists k, m :: 0 <= k < m < |Select(ids, reports, w)|
              && Select(ids, reports, w)[k] == reports[ids[i]]
              && Select(ids, reports, w)[m] == reports[ids[j]]
  {
    var front, back := ids[..j], ids[j..];
    assert ids == front + back;
    assert AllIn(front, reports) by {
      assert forall k :: 0 <= k < |front| ==> front[k] == ids[k];
    }
    assert AllIn(back, reports) by {
      assert forall k :: 0 <= k < |back| ==> back[k] == ids[j + k];
    }
    SelectAppend(front, back, reports, w);
    var sf := Select(front, reports, w);
    assert front[i] == ids[i];
    assert reports[ids[i]] in sf;
    var k :| 0 <= k < |sf| && sf[k] == reports[ids[i]];
    assert back[0] == ids[j];
    assert Select(back, reports, w)[0] == reports[ids[j]];
    assert Select(ids, reports, w)[k] == reports[ids[i]];
    assert Select(ids, reports, w)[|sf|] == reports[ids[j]];
  }

  /** The ids among `ids` whose rows `w` keeps. */
  function KeptIds(ids: seq<nat>, reports: map<nat, Report>, w: Where): set<nat>
  {
    set id | id in ids && id in reports && Satisfies(w, reports[id])
  }

  /** Over ids without repeats, the selection has one row per kept id. */
  lemma {:induction false} SelectCounts(ids: seq<nat>, reports: map<nat, Report>, w: Where)
    requires AllIn(ids, reports)
    requires forall i, j :: 0 <= i < j < |ids| ==> ids[i] != ids[j]
    ensures |Select(ids, reports, w)| == |KeptIds(ids, reports, w)|
  {
    if ids != [] {
      var t := ids[1..];
      SelectCounts(t, reports, w);
      assert ids[0] !in t;
      var kept := KeptIds(t, reports, w);
      if Satisfies(w, reports[ids[0]]) {
        assert KeptIds(ids, reports, w) == {ids[0]} + kept;
      } else {
        assert KeptIds(ids, reports, w) == kept;
      }
    }
  }

  /** When `ids` arranges the whole table, the count of the selection is
      the number of rows in the table that `w` keeps. */
  lemma SelectCountsTable(ids: seq<nat>, reports: map<nat, Report>, w: Where)
    requires Arrangement(ids, reports)
    ensures |Select(ids, reports, w)| == |set id | id in reports && Satisfies(w, reports[id])|
  {
    SelectCounts(ids, reports, w);
    assert KeptIds(ids, reports, w) == set id | id in reports && Satisfies(w, reports[id]);
  }

  // ---------------------------------------------------------------------
  // The report table

  class ReportStore {
    /** The Reports table by primary key. */
    var reports: map<nat, Report>
    /** The next autoincrement key. */
    var nextId: nat
    /** The filenames in the upload directory. */
    var uploads: set<string>

    /** Keys match the rows' ids and lie below the autoincrement counter,
        and every row's file is in the upload directory. */
    ghost predicate Valid()
      reads this
    {
      && 1 <= nextId
      && forall id :: id in reports ==>
           reports[id].id == id && 1 <= id < nextId && reports[id].filePath in uploads
    }

    /** No row holds the status `Rejected`. No handler writes it, so a
        table without it stays without it. */
    ghost predicate NoneRejected()
      reads this
    {
      forall id :: id in reports ==> reports[id].status != Rejected
    }

    constructor ()
      ensures Valid() && NoneRejected()
      ensures reports == map[] && nextId == 1 && uploads == {}
    {
      reports := map[];
      nextId := 1;
      uploads := {};
    }

    /** `uploadReport`: without a file, 400 and nothing is created;
        otherwise exactly one new row, owned by the caller whatever the body
        says, holding the uploaded filename, the body's notes and the
        default status. */
    method UploadReport(file: Option<UploadedFile>, body: UploadBody, caller: Claims, now: int)
      returns (resp: Response<Report>)
      requires Valid()
      modifies this
      ensures Valid()
      ensures old(NoneRejected()) ==> NoneRejected()
      ensures file.None? ==>
        && resp == Failure(400, "File is required")
        && reports == old(reports) && nextId == old(nextId) && uploads == old(uploads)
      ensures file.Some? ==>
        var r := Report(old(nextId), file.value.filename, body.notes, Submitted, now, now, caller.id);
        && old(nextId) !in old(reports)
        && reports == old(reports)[old(nextId) := r]
        && resp == Success(201, r)
        && nextId == old(nextId) + 1
        && uploads == old(uploads) + {file.value.filename}
    {
      if file.None? {
        return Failure(400, "File is required");
      }
      // The upload middleware has already written the file.
      uploads := uploads + {file.value.filename};
      var attrs := ReportAttrs(Some(file.value.filename), body.notes, None, Some(now), caller.id);
      var created := Create(nextId, attrs, now);
      assert created.Stored?;
      var report := created.report;
      assert report.filePath in uploads && report.id == nextId;
      reports := reports[nextId := report];
      nextId := nextId + 1;
      resp := Success(201, report);
    }

    /** `getAllReports`: builds the WHERE clause from the non-blank filters
        and the ORDER BY list from the sort key, then returns the requested
        page of the selection and its totals. `arrange` is the store's
        ordering of the table for an ORDER BY list. */
    method GetAllReports(q: ListQuery, parseDate: string -> int, arrange: seq<OrderTerm> -> seq<nat>)
      returns (where: Where, order: seq<OrderTerm>, page: PagingData<Report>)
      requires q.page.Some? ==> q.page.value >= 1
      requires q.size.Some? ==> q.size.value >= 1
      requires forall o :: Arrangement(arrange(o), reports)
      ensures Arrangement(arrange(order), reports)
      ensures forall r :: Satisfies(where, r) <==> WantedByAll(q, parseDate, r)
      ensures SortField(q.sortBy) == "employee" ==>
        order == [OnOwner("firstName", SortDirection(q.sortOrder)), OnOwner("lastName", SortDirection(q.sortOrder))]
      ensures SortField(q.sortBy) != "employee" ==>
        order == [OnColumn(SortField(q.sortBy), SortDirection(q.sortOrder))]
      ensures var p := GetPagination(q.page, q.size);
              var all := Select(arrange(order), reports, where);
              page == GetPagingData(|all|, Window(all, p), q.page, p.limit)
      ensures page.totalItems == |set id | id in reports && Satisfies(where, reports[id])|
      ensures forall x :: x in page.rows ==> x in reports.Values && WantedByAll(q, parseDate, x)
    {
      where := Where(None, None, AnyOwner);
      if NonBlank(q.date) {
        where := where.(createdFrom := Some(parseDate(q.date.value)));
      }
      if NonBlank(q.status) {
        where := where.(status := Some(q.status.value));
      }
      if NonBlank(q.userId) {
        where := where.(owner := OwnerText(q.userId.value));
      }
      assert where.createdFrom.Some? <==> NonBlank(q.date);
      assert where.status.Some? <==> NonBlank(q.status);
      assert where.owner.OwnerText? <==> NonBlank(q.userId);
      assert where.owner.AnyOwner? || where.owner.OwnerText?;
      var paging := GetPagination(q.page, q.size);

      order := [];
      var sortField := if Truthy(q.sortBy) then q.sortBy.value else "createdAt";
      var sortDirection := if Truthy(q.sortOrder) then q.sortOrder.value else "desc";
      if sortField == "employee" {
        order := order + [OnOwner("firstName", sortDirection)];
        order := order + [OnOwner("lastName", sortDirection)];
      } else {
        order := order + [OnColumn(sortField, sortDirection)];
      }

      var ids := arrange(order);
      var all := Select(ids, reports, where);
      page := GetPagingData(|all|, Window(all, paging), q.page, paging.limit);

      SelectCountsTable(ids, reports, where);
    }

    /** `getMyReports`: the same filters and paging, with the owner forced
        to the caller; the query's `userId` is never read, and the sort key
        is used as a column whatever it is. */
    method GetMyReports(q: ListQuery, parseDate: string -> int, arrange: seq<OrderTerm> -> seq<nat>, caller: Claims)
      returns (where: Where, order: seq<OrderTerm>, page: PagingData<Report>)
      requires q.page.Some? ==> q.page.value >= 1
      requires q.size.Some? ==> q.size.value >= 1
      requires forall o :: Arrangement(arrange(o), reports)
      ensures Arrangement(arrange(order), reports)
      ensures where.owner == OwnerIs(caller.id)
      ensures forall r :: Satisfies(where, r) <==> WantedByMine(q, parseDate, caller, r)
      ensures order == [OnColumn(SortField(q.sortBy), SortDirection(q.sortOrder))]
      ensures var p := GetPagination(q.page, q.size);
              var all := Select(arrange(order), reports, where);
              page == GetPagingData(|all|, Window(all, p), q.page, p.limit)
      ensures page.totalItems == |set id | id in reports && Satisfies(where, reports[id])|
      ensures forall x :: x in page.rows ==> x in reports.Values && x.userId == caller.id
    {
      where := Where(None, None, OwnerIs(caller.id));
      if NonBlank(q.date) {
        where := where.(createdFrom := Some(parseDate(q.date.value)));
      }
      if NonBlank(q.status) {
        where := where.(status := Some(q.status.value));
      }
      var paging := GetPagination(q.page, q.size);

      order := [];
      var sortField := if Truthy(q.sortBy) then q.sortBy.value else "createdAt";
      var sortDirection := if Truthy(q.sortOrder) then q.sortOrder.value else "desc";
      order := order + [OnColumn(sortField, sortDirection)];

      var ids := arrange(order);
      var all := Select(ids, reports, where);
      page := GetPagingData(|all|, Window(all, paging), q.page, paging.limit);

      SelectCountsTable(ids, reports, where);
    }

    /** `updateReportStatus`: a status other than "Submitted" or "Reviewed"
        is 400 before any lookup; a missing id is 404; otherwise that one
        row takes the new status, whatever its current one. No role is
        checked here. */
    method UpdateReportStatus(id: nat, status: Option<string>) returns (resp: Response<Report>)
      requires Valid()
      modifies this
      ensures Valid() && nextId == old(nextId) && uploads == old(uploads)
      ensures old(NoneRejected()) ==> NoneRejected()
      ensures NewStatus(status).None? ==>
        resp == Failure(400, "Invalid status provided.") && reports == old(reports)
      ensures NewStatus(status).Some? && id !in old(reports) ==>
        resp == Failure(404, "Report not found.") && reports == old(reports)
      ensures NewStatus(status).Some? && id in old(reports) ==>
        var r := old(reports)[id].(status := NewStatus(status).value);
        reports == old(reports)[id := r] && resp == Success(200, r)
    {
      if !Truthy(status) || status.value !in ["Submitted", "Reviewed"] {
        return Failure(400, "Invalid status provided.");
      }
      if id !in reports {
        return Failure(404, "Report not found.");
      }
      var report := reports[id].(status := ParseStatus(status.value).value);
      reports := reports[id := report];
      resp := Success(200, report);
    }

    /** `getReportById`: 404 when absent; otherwise the row exactly when
        the caller owns it or has the role "manager", else 403. */
    method GetReportById(id: nat, caller: Claims) returns (resp: Response<Report>)
      ensures id !in reports ==> resp == Failure(404, "Report not found")
      ensures id in reports ==> (resp.Success? <==> OwnerOrManager(caller, reports[id]))
      ensures id in reports && OwnerOrManager(caller, reports[id]) ==> resp == Success(200, reports[id])
      ensures id in reports && !OwnerOrManager(caller, reports[id]) ==> resp == Failure(403, "Forbidden")
    {
      if id !in reports {
        return Failure(404, "Report not found");
      }
      var report := reports[id];
      if caller.role != "manager" && caller.id != report.userId {
        return Failure(403, "Forbidden");
      }
      resp := Success(200, report);
    }

    /** `updateReport`: 404 first, then 403 unless owner or "manager";
        otherwise `notes` is replaced verbatim (an absent value stores
        null) and nothing else of the row changes. */
    method UpdateReport(id: nat, notes: Option<string>, caller: Claims) returns (resp: Response<Report>)
      requires Valid()
      modifies this
      ensures Valid() && nextId == old(nextId) && uploads == old(uploads)
      ensures old(NoneRejected()) ==> NoneRejected()
      ensures id !in old(reports) ==>
        resp == Failure(404, "Report not found") && reports == old(reports)
      ensures id in old(reports) && !OwnerOrManager(caller, old(reports)[id]) ==>
        resp == Failure(403, "Forbidden: You can only edit your own reports") && reports == old(reports)
      ensures id in old(reports) && OwnerOrManager(caller, old(reports)[id]) ==>
        var r := old(reports)[id].(notes := notes);
        reports == old(reports)[id := r] && resp == Success(200, r)
    {
      if id !in reports {
        return Failure(404, "Report not found");
      }
      var report := reports[id];
      if report.userId != caller.id && caller.role != "manager" {
        return Failure(403, "Forbidden: You can only edit your own reports");
      }
      report := report.(notes := notes);
      reports := reports[id := report];
      resp := Success(200, report);
    }

    /** `deleteReport`: 404 first, then 403 unless owner or "manager";
        otherwise only that row goes. The uploaded file stays. */
    method DeleteReport(id: nat, caller: Claims) returns (resp: Response<()>)
      requires Valid()
      modifies this
      ensures Valid() && nextId == old(nextId) && uploads == old(uploads)
      ensures old(NoneRejected()) ==> NoneRejected()
      ensures id !in old(reports) ==>
        resp == Failure(404, "Report not found") && reports == old(reports)
      ensures id in old(reports) && !OwnerOrManager(caller, old(reports)[id]) ==>
        resp == Failure(403, "Forbidden: You can only delete your own reports") && reports == old(reports)
      ensures id in old(reports) && OwnerOrManager(caller, old(reports)[id]) ==>
        reports == old(reports) - {id} && resp == Success(204, ()) && old(reports)[id].filePath in uploads
    {
      if id !in reports {
        return Failure(404, "Report not found");
      }
      var report := reports[id];
      if report.userId != caller.id && caller.role != "manager" {
        return Failure(403, "Forbidden: You can only delete your own reports");
      }
      reports := reports - {id};
      resp := Success(204, ());
    }
  }
}
