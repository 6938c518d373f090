/**
 * The interview-application service of the GORM-based backend
 * (internal/services/interview_application_service.go). The
 * `interview_applications` table is a sequence of rows in primary-key
 * order; soft-deleted rows stay in it with `deletedAt` set.
 */
module InterviewService {
  import opened Wrappers
  import opened Strs
  import opened Models
  import opened Gorm
  import Response

  const DuplicateEmail := "该邮箱已提交过申请，请勿重复申请"
  const NotFound := "面试申请不存在"

  // ---------------------------------------------------------------- queries

  predicate IsLive(ia: InterviewApplication) { ia.deletedAt.None? }

  /** `Where("email = ?", email).First(...)` finds a row. */
  predicate EmailTaken(rows: seq<InterviewApplication>, email: string) {
    exists i :: 0 <= i < |rows| && IsLive(rows[i]) && rows[i].email == email
  }

  /** Index of the live row with primary key `id`, or -1. */
  function FindLive(rows: seq<InterviewApplication>, id: nat): (k: int)
    ensures -1 <= k < |rows|
    ensures k >= 0 ==> rows[k].id == id && IsLive(rows[k])
    ensures k == -1 <==> forall i :: 0 <= i < |rows| ==> !(rows[i].id == id && IsLive(rows[i]))
  {
    if rows == [] then -1
    else if rows[|rows| - 1].id == id && IsLive(rows[|rows| - 1]) then |rows| - 1
    else FindLive(rows[..|rows| - 1], id)
  }

  /** The `status` and `name LIKE` conditions, each applied only when its argument is non-empty. */
  predicate Matches(ia: InterviewApplication, status: string, name: string) {
    IsLive(ia) && (status == "" || ia.status == status) && (name == "" || Contains(ia.name, name))
  }

  /** The rows the filtered query selects, in table order. */
  function Filtered(rows: seq<InterviewApplication>, status: string, name: string): (r: seq<InterviewApplication>)
    ensures |r| <= |rows|
    ensures forall x :: x in r ==> x in rows && Matches(x, status, name)
    ensures forall i :: 0 <= i < |rows| && Matches(rows[i], status, name) ==> rows[i] in r
  {
    if rows == [] then []
    else
      var init := Filtered(rows[..|rows| - 1], status, name);
      var last := rows[|rows| - 1];
      assert forall i :: 0 <= i < |rows| - 1 ==> rows[..|rows| - 1][i] == rows[i];
      if Matches(last, status, name) then init + [last] else init
  }

  /** Empty filter arguments select every live row. */
  lemma EmptyFiltersSelectLiveRows(rows: seq<InterviewApplication>)
    ensures forall x :: x in Filtered(rows, "", "") <==> x in rows && IsLive(x)
  {
  }

  /** Rows with the given status; with an empty name filter the result is the status count. */
  function CountStatus(rows: seq<InterviewApplication>, status: string): (n: nat)
    ensures n <= |rows|
  {
    if rows == [] then 0
    else CountStatus(rows[..|rows| - 1], status) + (if rows[|rows| - 1].status == status then 1 else 0)
  }

  function Live(rows: seq<InterviewApplication>): seq<InterviewApplication> {
    Filtered(rows, "", "")
  }

  // ---------------------------------------------------------------- ordering

  /** Newest first by `created_at`. */
  predicate NewestFirst(s: seq<InterviewApplication>) {
    forall i, j :: 0 <= i < j < |s| ==> s[i].createdAt >= s[j].createdAt
  }

  /** Put `x` in front of the first element not newer than it. */
  function InsertNewestFirst(x: InterviewApplication, s: seq<InterviewApplication>): (r: seq<InterviewApplication>)
    ensures multiset(r) == multiset(s) + multiset{x}
    ensures |r| == |s| + 1
    ensures r[0] == x || (s != [] && r[0] == s[0])
  {
    if s == [] then [x]
    else if s[0].createdAt > x.createdAt then
      assert s == [s[0]] + s[1..];
      [s[0]] + InsertNewestFirst(x, s[1..])
    else [x] + s
  }

  /** The head of a newest-first sequence is at least as new as every later element. */
  lemma HeadIsNewest(s: seq<InterviewApplication>, y: InterviewApplication)
    requires NewestFirst(s) && s != [] && y in s[1..]
    ensures s[0].createdAt >= y.createdAt
  {
    var m :| 0 <= m < |s[1..]| && s[1..][m] == y;
    assert s[m + 1] == y;
  }

  lemma InsertedFrom(x: InterviewApplication, s: seq<InterviewApplication>, y: InterviewApplication)
    requires y in InsertNewestFirst(x, s)
    ensures y == x || y in s
  {
    assert y in multiset(InsertNewestFirst(x, s));
  }

  lemma {:induction false} InsertKeepsNewestFirst(x: InterviewApplication, s: seq<InterviewApplication>)
    requires NewestFirst(s)
    ensures NewestFirst(InsertNewestFirst(x, s))
    decreases |s|
  {
    if s != [] && s[0].createdAt > x.createdAt {
      InsertKeepsNewestFirst(x, s[1..]);
      var rest := InsertNewestFirst(x, s[1..]);
      var r := [s[0]] + rest;
      forall j | 0 < j < |r|
        ensures r[0].createdAt >= r[j].createdAt
      {
        assert r[j] == rest[j - 1];
        InsertedFrom(x, s[1..], r[j]);
        if r[j] != x {
          HeadIsNewest(s, r[j]);
        }
      }
    }
  }

  /**
   * `Order("created_at DESC")`. The database may order rows with equal
   * timestamps in any way, and differently from one query to the next; the
   * model's choice is to keep table (primary-key) order among them.
   */
  function SortNewestFirst(s: seq<InterviewApplication>): (r: seq<InterviewApplication>)
    ensures multiset(r) == multiset(s)
    ensures |r| == |s|
  {
    if s == [] then []
    else
      assert s == [s[0]] + s[1..];
      InsertNewestFirst(s[0], SortNewestFirst(s[1..]))
  }

  lemma {:induction false} SortIsNewestFirst(s: seq<InterviewApplication>)
    ensures NewestFirst(SortNewestFirst(s))
    decreases |s|
  {
    if s != [] {
      SortIsNewestFirst(s[1..]);
      InsertKeepsNewestFirst(s[0], SortNewestFirst(s[1..]));
    }
  }

  // ---------------------------------------------------------------- list result

  /** `InterviewApplicationListResponse`. */
  datatype ListResult = ListResult(total: nat, page: int, size: int, list: seq<InterviewApplicationResponse>)

  /** The rows one page shows: filtered, newest first, then the offset/limit window. */
  function PageRows(rows: seq<InterviewApplication>, page: int, size: int, status: string, name: string): seq<InterviewApplication>
    requires Strs.MinInt64 <= page <= Strs.MaxInt64 && Strs.MinInt64 <= size <= Strs.MaxInt64
  {
    Window(SortNewestFirst(Filtered(rows, status, name)), Response.GetOffset(page, size), size)
  }

  function Responses(s: seq<InterviewApplication>): (r: seq<InterviewApplicationResponse>)
    ensures |r| == |s|
    ensures forall k :: 0 <= k < |s| ==> r[k] == InterviewToResponse(s[k])
  {
    if s == [] then [] else Responses(s[..|s| - 1]) + [InterviewToResponse(s[|s| - 1])]
  }

  lemma SliceNewestFirst(s: seq<InterviewApplication>, lo: int, hi: int)
    requires NewestFirst(s) && 0 <= lo <= hi <= |s|
    ensures NewestFirst(s[lo..hi])
  {
    assert forall i :: 0 <= i < hi - lo ==> s[lo..hi][i] == s[lo + i];
  }

  lemma SortedKeepsRows(f: seq<InterviewApplication>, x: InterviewApplication)
    requires x in SortNewestFirst(f)
    ensures x in f
  {
    assert x in multiset(SortNewestFirst(f));
  }

  /** Every row on a page satisfies both filters, and the page is newest first and at most `size` long. */
  lemma PageRowsProperties(rows: seq<InterviewApplication>, page: int, size: int, status: string, name: string)
    requires Strs.MinInt64 <= page <= Strs.MaxInt64 && 0 <= size <= Strs.MaxInt64
    ensures var p := PageRows(rows, page, size, status, name);
      |p| <= size && NewestFirst(p)
      && (forall x :: x in p ==> x in rows && Matches(x, status, name))
  {
    var f := Filtered(rows, status, name);
    var sorted := SortNewestFirst(f);
    var p := Window(sorted, Response.GetOffset(page, size), size);
    var start := WindowStart(|sorted|, Response.GetOffset(page, size));
    assert p == sorted[start..start + |p|];
    SortIsNewestFirst(f);
    SliceNewestFirst(sorted, start, start + |p|);
    forall x | x in p
      ensures x in rows && Matches(x, status, name)
    {
      SortedKeepsRows(f, x);
    }
  }

  /** The first page of an unfiltered listing starts with the newest live row. */
  lemma FirstPageStartsWithNewest(rows: seq<InterviewApplication>, size: int, k: int)
    requires 1 <= size <= Strs.MaxInt64 && 0 <= k < |rows| && IsLive(rows[k])
    ensures var p := PageRows(rows, 1, size, "", "");
      |p| > 0 && p[0].createdAt >= rows[k].createdAt
  {
    var f := Filtered(rows, "", "");
    var sorted := SortNewestFirst(f);
    assert rows[k] in f;
    assert rows[k] in multiset(sorted);
    var j :| 0 <= j < |sorted| && sorted[j] == rows[k];
    SortIsNewestFirst(f);
    assert Response.GetOffset(1, size) == 0;
  }

  // ---------------------------------------------------------------- the service

  class InterviewApplicationService {
    /** The table, in primary-key order, soft-deleted rows included. */
    var rows: seq<InterviewApplication>
    /** The next auto-increment primary key. */
    var nextId: nat

    ghost predicate Valid()
      reads this
    {
      nextId >= 1
      && (forall i :: 0 <= i < |rows| ==> 1 <= rows[i].id < nextId)
      && (forall i, j :: 0 <= i < j < |rows| ==> rows[i].id < rows[j].id)
      && (forall i, j :: 0 <= i < j < |rows| && IsLive(rows[i]) && IsLive(rows[j]) ==> rows[i].email != rows[j].email)
    }

    constructor ()
      ensures Valid() && rows == [] && nextId == 1
    {
      rows := [];
      nextId := 1;
    }

    /**
     * `CreateApplication`: refuses an email that a live row already has;
     * otherwise inserts a pending row with the next key, stamped by
     * `BeforeCreate` with the two clock readings.
     */
    method CreateApplication(name: string, email: string, phone: string, studentId: string, major: string,
                             grade: string, interviewTime: string, now1: Time, now2: Time)
      returns (r: Result<InterviewApplication, string>)
      requires Valid()
      modifies this
      ensures Valid()
      ensures EmailTaken(old(rows), email) ==>
        r == Err(DuplicateEmail) && rows == old(rows) && nextId == old(nextId)
      ensures !EmailTaken(old(rows), email) ==>
        r == Ok(InterviewApplication(old(nextId), name, email, phone, studentId, major, grade,
                                     interviewTime, "pending", "", now1, now2, None))
        && rows == old(rows) + [r.value] && nextId == old(nextId) + 1
    {
      if EmailTaken(rows, email) {
        return Err(DuplicateEmail);
      }
      var application := InterviewApplication(nextId, name, email, phone, studentId, major, grade,
                                               interviewTime, "pending", "", 0, 0, None);
      application := InterviewBeforeCreate(application, now1, now2);
      assert application.id == nextId && application.email == email && IsLive(application);
      rows := rows + [application];
      nextId := nextId + 1;
      return Ok(application);
    }

    /** `GetApplicationByID`: the live row with that key, or "面试申请不存在". */
    method GetApplicationByID(id: nat) returns (r: Result<InterviewApplication, string>)
      requires Valid()
      ensures r.Ok? <==> exists i :: 0 <= i < |rows| && rows[i].id == id && IsLive(rows[i])
      ensures r.Ok? ==> r.value in rows && r.value.id == id && IsLive(r.value)
      ensures r.Err? ==> r.error == NotFound
    {
      var k := FindLive(rows, id);
      if k < 0 {
        return Err(NotFound);
      }
      return Ok(rows[k]);
    }

    /**
     * `ListApplications`: `total` counts the whole filtered set; the list
     * holds the responses of the page's rows, built one by one.
     */
    method ListApplications(page: int, size: int, status: string, name: string) returns (r: ListResult)
      requires Strs.MinInt64 <= page <= Strs.MaxInt64 && Strs.MinInt64 <= size <= Strs.MaxInt64
      ensures r.total == |Filtered(rows, status, name)|
      ensures r.page == page && r.size == size
      ensures r.list == Responses(PageRows(rows, page, size, status, name))
    {
      var total := |Filtered(rows, status, name)|;
      var applications := PageRows(rows, page, size, status, name);
      var list: seq<InterviewApplicationResponse> := [];
      var i := 0;
      while i < |applications|
        invariant 0 <= i <= |applications|
        invariant list == Responses(applications[..i])
      {
        assert applications[..i + 1][..i] == applications[..i];
        list := list + [InterviewToResponse(applications[i])];
        i := i + 1;
      }
      assert applications[..i] == applications;
      return ListResult(total, page, size, list);
    }

    /**
     * `UpdateApplication`: on a live row, sets status and remarks, and
     * `Save` runs `BeforeUpdate`; any other field is kept.
     */
    method UpdateApplication(id: nat, status: string, adminRemarks: string, now: Time)
      returns (r: Result<InterviewApplication, string>)
      requires Valid()
      modifies this
      ensures Valid() && nextId == old(nextId) && |rows| == |old(rows)|
      ensures FindLive(old(rows), id) == -1 ==> r == Err(NotFound) && rows == old(rows)
      ensures FindLive(old(rows), id) >= 0 ==>
        var k := FindLive(old(rows), id);
        r == Ok(old(rows)[k].(status := status, adminRemarks := adminRemarks, updatedAt := now))
        && rows == old(rows)[k := r.value]
    {
      var k := FindLive(rows, id);
      if k < 0 {
        return Err(NotFound);
      }
      var application := rows[k];
      application := application.(status := status);
      application := application.(adminRemarks := adminRemarks);
      application := InterviewBeforeUpdate(application, now);
      assert application.id == rows[k].id && application.email == rows[k].email;
      assert application.deletedAt == rows[k].deletedAt;
      rows := rows[k := application];
      return Ok(application);
    }

    /** `DeleteApplication`: soft-deletes the live row with that key; a missing key is not an error. */
    method DeleteApplication(id: nat, now: Time)
      requires Valid()
      modifies this
      ensures Valid() && nextId == old(nextId) && |rows| == |old(rows)|
      ensures FindLive(old(rows), id) == -1 ==> rows == old(rows)
      ensures FindLive(old(rows), id) >= 0 ==>
        var k := FindLive(old(rows), id);
        rows == old(rows)[k := old(rows)[k].(deletedAt := Some(now))]
      ensures FindLive(rows, id) == -1
    {
      var k := FindLive(rows, id);
      if k >= 0 {
        rows := rows[k := rows[k].(deletedAt := Some(now))];
      }
    }

    /** `GetApplicationStats`: the live-row count and the count of each status. */
    method GetApplicationStats() returns (stats: InterviewStats)
      ensures stats.total == |Live(rows)|
      ensures stats.pending == CountStatus(Live(rows), "pending")
      ensures stats.interviewed == CountStatus(Live(rows), "interviewed")
      ensures stats.passed == CountStatus(Live(rows), "passed")
      ensures stats.rejected == CountStatus(Live(rows), "rejected")
    {
      var live := Live(rows);
      stats := InterviewStats(|live|, CountStatus(live, "pending"), CountStatus(live, "interviewed"),
                              CountStatus(live, "passed"), CountStatus(live, "rejected"));
    }
  }

  // ---------------------------------------------------------------- statistics

  /** The status counts never add up to more than the total. */
  lemma {:induction false} StatusCountsBounded(rows: seq<InterviewApplication>)
    ensures CountStatus(rows, "pending") + CountStatus(rows, "interviewed")
          + CountStatus(rows, "passed") + CountStatus(rows, "rejected") <= |rows|
  {
    if rows != [] {
      StatusCountsBounded(rows[..|rows| - 1]);
    }
  }

  /** When every row holds a status of the enum, the counts add up exactly to the total. */
  lemma {:induction false} StatusCountsPartition(rows: seq<InterviewApplication>)
    requires forall i :: 0 <= i < |rows| ==> rows[i].status in InterviewStatuses
    ensures CountStatus(rows, "pending") + CountStatus(rows, "interviewed")
          + CountStatus(rows, "passed") + CountStatus(rows, "rejected") == |rows|
  {
    if rows != [] {
      StatusCountsPartition(rows[..|rows| - 1]);
    }
  }

  /** A status count is the size of the status-filtered listing. */
  lemma {:induction false} CountIsFilteredSize(rows: seq<InterviewApplication>, status: string)
    requires status != ""
    ensures CountStatus(Live(rows), status) == |Filtered(rows, status, "")|
  {
    if rows != [] {
      var init := rows[..|rows| - 1];
      CountIsFilteredSize(init, status);
      var last := rows[|rows| - 1];
      if IsLive(last) {
        assert Live(rows) == Live(init) + [last];
        assert (Live(init) + [last])[..|Live(init) + [last]| - 1] == Live(init);
      }
    }
  }
}
