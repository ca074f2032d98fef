/**
 The job list: compound filter, sort order and paging of one database snapshot,
 all pages taken at one reading of "now".
 */
module JobListing {
  import opened Options
  import opened ControlPlane
  import opened LikeEscape

  datatype Filter = Filter(status: Option<Status>, crateName: Option<string>, taskName: Option<string>)

  datatype Column =
    | Id | CrateName | Version | TaskName | StatusText | StartedAt | RunnerId | CreatedAt | Runtime

  datatype Key = Null | Num(n: int) | Text(s: string)

  datatype Query = Query(filter: Filter, column: Column, ascending: bool, now: Time)

  function NameOf(s: Status): string {
    match s
    case Pending => "pending"
    case Running => "running"
    case Completed => "completed"
    case Failed => "failed"
    case Cancelled => "cancelled"
    case Timeout => "timeout"
    case Oom => "oom"
    case RunnerFailed => "runner_failed"
  }

  /** An omitted or empty search text sets no condition. */
  predicate TextMatches(search: Option<string>, value: string) {
    search.None? || search.value == "" || Like(ContainsPattern(search.value), value)
  }

  predicate Matches(f: Filter, j: Job) {
    && (f.status.Some? ==> j.status == f.status.value)
    && TextMatches(f.crateName, j.crateName)
    && TextMatches(f.taskName, j.snapshot.name)
  }

  function TimeKey(t: Option<Time>): Key {
    if t.Some? then Num(t.value) else Null
  }

  function KeyOf(q: Query, id: JobId, j: Job): Key {
    match q.column
    case Id => Num(id)
    case CrateName => Text(j.crateName)
    case Version => Text(j.version)
    case TaskName => Text(j.snapshot.name)
    case StatusText => Text(NameOf(j.status))
    case StartedAt => TimeKey(j.startedAt)
    case RunnerId => if j.runnerId.Some? then Text(j.runnerId.value) else Null
    case CreatedAt => Num(j.createdAt)
    case Runtime =>
      if j.startedAt.Some? then Num(j.finishedAt.GetOr(q.now) - j.startedAt.value) else Null
  }

  /** Binary collation. */
  predicate TextLess(a: string, b: string) {
    b != "" && (a == "" || a[0] < b[0] || (a[0] == b[0] && TextLess(a[1..], b[1..])))
  }

  predicate KeyLess(a: Key, b: Key) {
    match (a, b)
    case (Num(x), Num(y)) => x < y
    case (Text(x), Text(y)) => TextLess(x, y)
    case _ => a.Num? && b.Text?
  }

  /** ORDER BY (column) IS NULL, column ASC or DESC, id DESC. */
  predicate KeyBefore(ascending: bool, a: Key, i: JobId, b: Key, k: JobId) {
    if a.Null? != b.Null? then b.Null?
    else if a == b then i > k
    else if ascending then KeyLess(a, b)
    else KeyLess(b, a)
  }

  predicate Before(q: Query, jobs: map<JobId, Job>, i: JobId, k: JobId)
    requires i in jobs && k in jobs
  {
    KeyBefore(q.ascending, KeyOf(q, i, jobs[i]), i, KeyOf(q, k, jobs[k]), k)
  }

  function Selected(q: Query, jobs: map<JobId, Job>): set<JobId> {
    set id | id in jobs && Matches(q.filter, jobs[id])
  }

  // ---------------------------------------------------------------- a strict total order

  lemma {:induction false} TextOrder(a: string, b: string, c: string)
    ensures !TextLess(a, a)
    ensures TextLess(a, b) || TextLess(b, a) || a == b
    ensures TextLess(a, b) && TextLess(b, c) ==> TextLess(a, c)
  {
    if a != "" {
      var bt, ct := if b == "" then "" else b[1..], if c == "" then "" else c[1..];
      TextOrder(a[1..], bt, ct);
      if b != "" && a[0] == b[0] && a[1..] == b[1..] {
        assert a == [a[0]] + a[1..] == [b[0]] + b[1..] == b;
      }
    }
  }

  lemma KeyOrder(ascending: bool, a: Key, i: JobId, b: Key, j: JobId, c: Key, k: JobId)
    ensures !KeyBefore(ascending, a, i, a, i)
    ensures KeyBefore(ascending, a, i, b, j) || KeyBefore(ascending, b, j, a, i) || (a == b && i == j)
    ensures KeyBefore(ascending, a, i, b, j) && KeyBefore(ascending, b, j, c, k) ==> KeyBefore(ascending, a, i, c, k)
  {
    var x, y, z := if a.Text? then a.s else "", if b.Text? then b.s else "", if c.Text? then c.s else "";
    TextOrder(x, y, z);
    TextOrder(z, y, x);
    TextOrder(y, x, z);
    TextOrder(z, x, y);
  }

  lemma BeforeIsTotal(q: Query, jobs: map<JobId, Job>, a: JobId, b: JobId, c: JobId)
    requires a in jobs && b in jobs && c in jobs
    ensures !Before(q, jobs, a, a)
    ensures a != b ==> (Before(q, jobs, a, b) <==> !Before(q, jobs, b, a))
    ensures Before(q, jobs, a, b) && Before(q, jobs, b, c) ==> Before(q, jobs, a, c)
  {
    hide KeyBefore, KeyOf;
    KeyOrder(q.ascending, KeyOf(q, a, jobs[a]), a, KeyOf(q, b, jobs[b]), b, KeyOf(q, c, jobs[c]), c);
    KeyOrder(q.ascending, KeyOf(q, a, jobs[a]), a, KeyOf(q, b, jobs[b]), b, KeyOf(q, a, jobs[a]), a);
  }

  // ---------------------------------------------------------------- the listing

  ghost predicate IsFirst(q: Query, jobs: map<JobId, Job>, ids: set<JobId>, id: JobId)
    requires ids <= jobs.Keys
  {
    id in ids && forall k | k in ids && k != id :: Before(q, jobs, id, k)
  }

  lemma {:induction false} FirstExists(q: Query, jobs: map<JobId, Job>, ids: set<JobId>)
    requires ids <= jobs.Keys && ids != {}
    ensures exists id :: IsFirst(q, jobs, ids, id)
    decreases ids
  {
    hide Before;
    var x :| x in ids;
    var rest := ids - {x};
    if rest == {} {
      assert ids == {x};
      assert IsFirst(q, jobs, ids, x);
    } else {
      FirstExists(q, jobs, rest);
      var y :| IsFirst(q, jobs, rest, y);
      BeforeIsTotal(q, jobs, x, y, y);
      if Before(q, jobs, y, x) {
        assert IsFirst(q, jobs, ids, y);
      } else {
        forall k | k in ids && k != x ensures Before(q, jobs, x, k) { BeforeIsTotal(q, jobs, x, y, k); }
        assert IsFirst(q, jobs, ids, x);
      }
    }
  }

  ghost function Sorted(q: Query, jobs: map<JobId, Job>, ids: set<JobId>): (r: seq<JobId>)
    requires ids <= jobs.Keys
    ensures |r| == |ids|
    decreases ids
  {
    if ids == {} then []
    else
      FirstExists(q, jobs, ids);
      var id :| IsFirst(q, jobs, ids, id);
      [id] + Sorted(q, jobs, ids - {id})
  }

  /** The rows of the SELECT before LIMIT and OFFSET. */
  ghost function Listing(q: Query, jobs: map<JobId, Job>): seq<JobId> {
    Sorted(q, jobs, Selected(q, jobs))
  }

  ghost predicate InOrder(q: Query, jobs: map<JobId, Job>, ids: seq<JobId>) {
    && Elems(ids) <= jobs.Keys
    && forall i, k | 0 <= i < k < |ids| && ids[i] in jobs && ids[k] in jobs :: Before(q, jobs, ids[i], ids[k])
  }

  lemma ElemsCons(id: JobId, ids: seq<JobId>)
    ensures Elems([id] + ids) == {id} + Elems(ids)
  {
    var more := [id] + ids;
    forall x | x in {id} + Elems(ids) ensures x in Elems(more) {
      if x == id { assert more[0] == id; }
      else { var i :| 0 <= i < |ids| && ids[i] == x; assert more[i + 1] == x; }
    }
  }

  lemma {:induction false} SortedIsInOrder(q: Query, jobs: map<JobId, Job>, ids: set<JobId>)
    requires ids <= jobs.Keys
    ensures Elems(Sorted(q, jobs, ids)) == ids && InOrder(q, jobs, Sorted(q, jobs, ids))
    decreases ids
  {
    hide Before;
    if ids != {} {
      var r := Sorted(q, jobs, ids);
      var id := r[0];
      assert IsFirst(q, jobs, ids, id) && r == [id] + Sorted(q, jobs, ids - {id});
      SortedIsInOrder(q, jobs, ids - {id});
      ElemsCons(id, r[1..]);
      forall i, k | 0 <= i < k < |r| && r[i] in jobs && r[k] in jobs ensures Before(q, jobs, r[i], r[k]) {
        if i == 0 {
          assert r[k] == r[1..][k - 1] && r[k] in Elems(r[1..]);
        } else {
          assert r[i] == r[1..][i - 1] && r[k] == r[1..][k - 1];
        }
      }
    }
  }

  /** The order leaves the engine no choice: any listing in order is this one. */
  lemma {:induction false} OrderIsUnique(q: Query, jobs: map<JobId, Job>, a: seq<JobId>, b: seq<JobId>)
    requires InOrder(q, jobs, a) && InOrder(q, jobs, b) && Elems(a) == Elems(b)
    ensures a == b
    decreases |a|
  {
    hide Before, Elems;
    HeadsAgree(q, jobs, a, b);
    if a != [] && b != [] {
      TailInOrder(q, jobs, a);
      TailInOrder(q, jobs, b);
      OrderIsUnique(q, jobs, a[1..], b[1..]);
      assert a == [a[0]] + a[1..] && b == [b[0]] + b[1..];
    }
  }

  lemma TailInOrder(q: Query, jobs: map<JobId, Job>, a: seq<JobId>)
    requires InOrder(q, jobs, a) && a != []
    ensures InOrder(q, jobs, a[1..]) && Elems(a[1..]) == Elems(a) - {a[0]}
  {
    hide Before;
    assert a == [a[0]] + a[1..];
    ElemsCons(a[0], a[1..]);
    if a[0] in Elems(a[1..]) {
      var i :| 0 <= i < |a| - 1 && a[1..][i] == a[0];
      assert a[i + 1] == a[0] && a[0] in Elems(a);
      BeforeIsTotal(q, jobs, a[0], a[0], a[0]);
    }
  }

  lemma HeadsAgree(q: Query, jobs: map<JobId, Job>, a: seq<JobId>, b: seq<JobId>)
    requires InOrder(q, jobs, a) && InOrder(q, jobs, b) && Elems(a) == Elems(b)
    ensures (a == [] <==> b == []) && (a != [] && b != [] ==> a[0] == b[0])
  {
    hide Before;
    if a != [] { assert a[0] in Elems(a); }
    if b != [] { assert b[0] in Elems(b); }
    if a != [] && b != [] && a[0] != b[0] {
      var i :| 0 <= i < |b| && b[i] == a[0];
      var k :| 0 <= k < |a| && a[k] == b[0];
      assert Before(q, jobs, b[0], b[i]) && Before(q, jobs, a[0], a[k]);
      BeforeIsTotal(q, jobs, a[0], b[0], a[0]);
    }
  }

  // ---------------------------------------------------------------- paging

  /** LIMIT and OFFSET on a listing. */
  function Window(rows: seq<JobId>, limit: nat, offset: nat): seq<JobId> {
    if |rows| <= offset then []
    else if |rows| <= offset + limit then rows[offset..]
    else rows[offset..offset + limit]
  }

  datatype Page = Page(total: nat, items: seq<JobId>)

  /** One call of the list endpoint; pages are counted from 1. */
  ghost function GetPage(q: Query, jobs: map<JobId, Job>, page: nat, size: nat): Page
    requires page >= 1
  {
    Page(|Selected(q, jobs)|, Window(Listing(q, jobs), size, Offset(page, size)))
  }

  function Offset(page: nat, size: nat): nat
    requires page >= 1
  {
    (page - 1) * size
  }

  function PageCount(total: nat, size: nat): nat
    requires size >= 1
  {
    (total + size - 1) / size
  }

  /** Pages 1 to n, one after the other. */
  ghost function FirstPages(q: Query, jobs: map<JobId, Job>, n: nat, size: nat): seq<JobId> {
    if n == 0 then [] else FirstPages(q, jobs, n - 1, size) + GetPage(q, jobs, n, size).items
  }

  lemma {:induction false} FirstPagesArePrefix(q: Query, jobs: map<JobId, Job>, n: nat, size: nat)
    ensures var all := Listing(q, jobs);
            FirstPages(q, jobs, n, size) == UpTo(all, Offset(n + 1, size))
  {
    hide Listing, Offset, UpTo, Window;
    if n > 0 {
      FirstPagesArePrefix(q, jobs, n - 1, size);
      OneMorePage(n, size);
      PrefixThenWindow(Listing(q, jobs), Offset(n, size), size);
    } else {
      OneMorePage(0, size);
      UpToNothing(Listing(q, jobs));
    }
  }

  function UpTo(rows: seq<JobId>, end: nat): seq<JobId> {
    if end <= |rows| then rows[..end] else rows
  }

  lemma UpToNothing(rows: seq<JobId>)
    ensures UpTo(rows, 0) == []
  {
  }

  lemma OneMorePage(n: nat, size: nat)
    ensures if n == 0 then Offset(1, size) == 0 else Offset(n + 1, size) == Offset(n, size) + size
  {
  }

  lemma PrefixThenWindow(rows: seq<JobId>, offset: nat, limit: nat)
    ensures UpTo(rows, offset) + Window(rows, limit, offset) == UpTo(rows, offset + limit)
  {
  }

  lemma PagesCoverTotal(total: nat, size: nat)
    requires size >= 1
    ensures PageCount(total, size) * size >= total
    ensures total > 0 ==> (PageCount(total, size) - 1) * size < total
  {
    var n := total + size - 1;
    assert n == (n / size) * size + n % size;
  }

  /**
   Main result: pages 1..ceil(total/size) together hold every matching job exactly
   once, in the requested order, and no other listing has that order.
   */
  lemma PagesPartitionTheResult(q: Query, jobs: map<JobId, Job>, size: nat)
    requires size >= 1
    ensures var total := GetPage(q, jobs, 1, size).total;
            var all := FirstPages(q, jobs, PageCount(total, size), size);
            && |all| == total
            && (forall id :: id in Elems(all) <==> id in jobs && Matches(q.filter, jobs[id]))
            && InOrder(q, jobs, all)
            && (forall other | Elems(other) == Selected(q, jobs) && InOrder(q, jobs, other) :: other == all)
  {
    hide Before, Matches;
    var total := |Selected(q, jobs)|;
    var all := FirstPages(q, jobs, PageCount(total, size), size);
    PagesCoverTotal(total, size);
    FirstPagesArePrefix(q, jobs, PageCount(total, size), size);
    assert all == Listing(q, jobs);
    SortedIsInOrder(q, jobs, Selected(q, jobs));
    forall other | Elems(other) == Selected(q, jobs) && InOrder(q, jobs, other) ensures other == all {
      OrderIsUnique(q, jobs, other, all);
    }
  }

  /** A page is full exactly when it is not the last: the last holds what is left. */
  lemma PageSizes(q: Query, jobs: map<JobId, Job>, page: nat, size: nat)
    requires page >= 1 && size >= 1
    ensures var r := GetPage(q, jobs, page, size);
            |r.items| == if page < PageCount(r.total, size) then size
                         else if page == PageCount(r.total, size) then r.total - (page - 1) * size
                         else 0
  {
    hide Listing, Selected;
    var total := |Selected(q, jobs)|;
    PagesCoverTotal(total, size);
    ListingLength(q, jobs);
    var n := PageCount(total, size);
    if page < n {
      PageEnds(page, n - 1, size);
    } else if page > n {
      PageEnds(n, page - 1, size);
    }
    assert page * size == (page - 1) * size + size;
  }

  lemma ListingLength(q: Query, jobs: map<JobId, Job>)
    ensures |Listing(q, jobs)| == |Selected(q, jobs)|
  {
  }

  lemma PageEnds(a: nat, b: nat, size: nat)
    requires a <= b
    ensures a * size <= b * size
  {
  }

  /** What a text filter means. */
  lemma TextFilterIsSubstring(search: string, value: string)
    ensures TextMatches(Some(search), value) <==> Occurs(search, value)
  {
    EscapingIsExact(search, value);
    if search == "" { assert OccursAt(search, value, 0); }
  }

  // ---------------------------------------------------------------- what the order says of the columns

  /** Numbers in the asked direction, an absent one last in both. */
  predicate RankedTimes(ascending: bool, a: Option<Time>, b: Option<Time>) {
    b.Some? ==> a.Some? && if ascending then a.value <= b.value else a.value >= b.value
  }

  /** `a` is a proper beginning of `b`, or smaller at the first place where they differ. */
  predicate Alphabetical(a: string, b: string) {
    exists n: nat | n <= |a| && n <= |b| ::
      a[..n] == b[..n] && n < |b| && (n == |a| || a[n] < b[n])
  }

  predicate RankedTexts(ascending: bool, a: string, b: string) {
    a == b || if ascending then Alphabetical(a, b) else Alphabetical(b, a)
  }

  predicate RankedHolders(ascending: bool, a: Option<string>, b: Option<string>) {
    b.Some? ==> a.Some? && RankedTexts(ascending, a.value, b.value)
  }

  /** How long a job ran, or has run by now; nothing for one that never started. */
  function RanFor(j: Job, now: Time): Option<Time> {
    if j.startedAt.None? then None
    else Some((if j.finishedAt.Some? then j.finishedAt.value else now) - j.startedAt.value)
  }

  /** Two rows of a page, the first above the second, on the column the page is sorted by. */
  predicate Ranked(q: Query, i: JobId, a: Job, k: JobId, b: Job) {
    match q.column
    case Id => if q.ascending then i <= k else i >= k
    case CrateName => RankedTexts(q.ascending, a.crateName, b.crateName)
    case Version => RankedTexts(q.ascending, a.version, b.version)
    case TaskName => RankedTexts(q.ascending, a.snapshot.name, b.snapshot.name)
    case StatusText => RankedTexts(q.ascending, NameOf(a.status), NameOf(b.status))
    case StartedAt => RankedTimes(q.ascending, a.startedAt, b.startedAt)
    case RunnerId => RankedHolders(q.ascending, a.runnerId, b.runnerId)
    case CreatedAt => if q.ascending then a.createdAt <= b.createdAt else a.createdAt >= b.createdAt
    case Runtime => RankedTimes(q.ascending, RanFor(a, q.now), RanFor(b, q.now))
  }

  /** Equal in the column the page is sorted by. */
  predicate Tied(q: Query, i: JobId, a: Job, k: JobId, b: Job) {
    match q.column
    case Id => i == k
    case CrateName => a.crateName == b.crateName
    case Version => a.version == b.version
    case TaskName => a.snapshot.name == b.snapshot.name
    case StatusText => NameOf(a.status) == NameOf(b.status)
    case StartedAt => a.startedAt == b.startedAt
    case RunnerId => a.runnerId == b.runnerId
    case CreatedAt => a.createdAt == b.createdAt
    case Runtime => RanFor(a, q.now) == RanFor(b, q.now)
  }

  lemma {:induction false} TextLessIsAlphabetical(a: string, b: string)
    ensures TextLess(a, b) <==> Alphabetical(a, b)
  {
    if b == "" {
      assert !Alphabetical(a, b);
    } else if a == "" {
      assert a[..0] == b[..0];
    } else {
      TextLessIsAlphabetical(a[1..], b[1..]);
      if a[0] < b[0] { assert a[..0] == b[..0]; }
      if a[0] == b[0] && Alphabetical(a[1..], b[1..]) {
        var n: nat :| n <= |a| - 1 && n <= |b| - 1 && a[1..][..n] == b[1..][..n] && n < |b| - 1 &&
                      (n == |a| - 1 || a[1..][n] < b[1..][n]);
        assert a[..n + 1] == [a[0]] + a[1..][..n] && b[..n + 1] == [b[0]] + b[1..][..n];
      }
      if Alphabetical(a, b) {
        var n: nat :| n <= |a| && n <= |b| && a[..n] == b[..n] && n < |b| && (n == |a| || a[n] < b[n]);
        if n > 0 {
          assert a[..n][0] == b[..n][0];
          assert a[1..][..n - 1] == a[..n][1..] && b[1..][..n - 1] == b[..n][1..];
          assert n == |a| || a[1..][n - 1] < b[1..][n - 1];
        }
      }
    }
  }

  /** The sort order is the asked one on its column, and newer ids first among equals. */
  lemma BeforeMeans(q: Query, jobs: map<JobId, Job>, i: JobId, k: JobId)
    requires i in jobs && k in jobs && Before(q, jobs, i, k)
    ensures Ranked(q, i, jobs[i], k, jobs[k])
    ensures Tied(q, i, jobs[i], k, jobs[k]) ==> i > k
  {
    hide TextLess, Alphabetical, NameOf;
    var x, y := KeyOf(q, i, jobs[i]), KeyOf(q, k, jobs[k]);
    if x.Text? && y.Text? {
      TextLessIsAlphabetical(x.s, y.s);
      TextLessIsAlphabetical(y.s, x.s);
    }
  }

  /** Main result for a reader of the pages: rows are ranked as asked, ties by falling id. */
  lemma PagesAreRanked(q: Query, jobs: map<JobId, Job>, size: nat, m: nat, n: nat)
    requires size >= 1
    requires var all := FirstPages(q, jobs, PageCount(|Selected(q, jobs)|, size), size); m < n < |all|
    ensures var all := FirstPages(q, jobs, PageCount(|Selected(q, jobs)|, size), size);
            && all[m] in jobs && all[n] in jobs
            && Ranked(q, all[m], jobs[all[m]], all[n], jobs[all[n]])
            && (Tied(q, all[m], jobs[all[m]], all[n], jobs[all[n]]) ==> all[m] > all[n])
  {
    hide Before, Ranked, Tied, Selected, FirstPages;
    var all := FirstPages(q, jobs, PageCount(|Selected(q, jobs)|, size), size);
    PagesPartitionTheResult(q, jobs, size);
    TotalIsSelected(q, jobs, size);
    assert all[m] in Elems(all) && all[n] in Elems(all);
    BeforeMeans(q, jobs, all[m], all[n]);
  }

  lemma TotalIsSelected(q: Query, jobs: map<JobId, Job>, size: nat)
    ensures GetPage(q, jobs, 1, size).total == |Selected(q, jobs)|
  {
  }

  /** What is listed: the status asked for, and names that contain the texts asked for. */
  lemma FilterMeans(f: Filter, j: Job)
    ensures Matches(f, j) <==>
              && (f.status.None? || f.status == Some(j.status))
              && (f.crateName.None? || Occurs(f.crateName.value, j.crateName))
              && (f.taskName.None? || Occurs(f.taskName.value, j.snapshot.name))
  {
    if f.crateName.Some? { TextFilterIsSubstring(f.crateName.value, j.crateName); }
    if f.taskName.Some? { TextFilterIsSubstring(f.taskName.value, j.snapshot.name); }
  }

  /** The texts the status column is sorted by. */
  lemma StatusTexts()
    ensures NameOf(Pending) == "pending" && NameOf(Running) == "running" && NameOf(Completed) == "completed"
    ensures NameOf(Failed) == "failed" && NameOf(Cancelled) == "cancelled" && NameOf(Timeout) == "timeout"
    ensures NameOf(Oom) == "oom" && NameOf(RunnerFailed) == "runner_failed"
  {
  }
}
