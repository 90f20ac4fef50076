/** The history page (webui/src/pages/HistoryPage.tsx): the window each load asks the server for,
    the page count it derives from the answer, the status filter and its tabs, and the pager. A
    load is a step function over the task store and the page's error text; the server's answer is
    a parameter. */
module HistoryPage {
  import opened Wrappers
  import opened Seqs
  import opened Types
  import opened TaskStore
  import opened ApiRetry
  import ApiClient
  import TaskModel
  import MigrationService
  import MigrationHandler
  import Routes
  import opened Text

  // ----- loadTasks -----

  /** `Math.ceil(total / limit)` for a positive limit. */
  function TotalPages(total: nat, limit: nat): (r: nat)
    requires limit > 0
    ensures r * limit >= total
    ensures r > 0 ==> (r - 1) * limit < total
  {
    var q := total + limit - 1;
    var r := q / limit;
    assert q == r * limit + q % limit && 0 <= q % limit < limit;
    assert (r - 1) * limit == r * limit - limit;
    r
  }

  /** A page index lies before the page count exactly when the page it names starts before the
      end of the list: the page count is the ceiling, neither more nor less. */
  lemma PageBeforeCount(x: nat, total: nat, limit: nat)
    requires limit > 0
    ensures x < TotalPages(total, limit) <==> x * limit < total
  {
    var r := TotalPages(total, limit);
    if x < r {
      MulMonotone(x, r - 1, limit);
    } else {
      MulMonotone(r, x, limit);
    }
  }

  lemma MulMonotone(a: nat, b: nat, c: nat)
    requires a <= b
    ensures a * c <= b * c
  {
    assert b * c == a * c + (b - a) * c;
  }

  /** The list endpoint a load requests: `pageSize` tasks from offset `page·pageSize`. Within the
      server's integer range the handler reads back exactly that window. */
  function RequestPath(p: Pagination): (path: string)
    ensures 0 < p.pageSize <= MaxInt64 && 0 <= p.page * p.pageSize <= MaxInt64 ==>
      var query := Routes.SplitUrl(ApiClient.RequestUrl(path)).1;
      MigrationHandler.NormalizeLimit(Routes.QueryParam(query, "limit")) == p.pageSize &&
      MigrationHandler.NormalizeOffset(Routes.QueryParam(query, "offset")) == p.page * p.pageSize
  {
    var path := ApiClient.ListMigrationsPath(Some(p.pageSize), Some(p.page * p.pageSize));
    if 0 < p.pageSize <= MaxInt64 && 0 <= p.page * p.pageSize <= MaxInt64 then
      Routes.ListQueryRoundTrip(p.pageSize, p.page * p.pageSize, true); path
    else path
  }

  /** The first load of a fresh store asks for exactly the endpoint's default window. */
  lemma FirstLoadIsDefaultWindow()
    ensures RequestPath(InitialTaskStore.pagination) == ApiClient.ListMigrationsPath(None, None)
  {
  }

  /** The answer to a list request. */
  datatype ListResult = ListResult(tasks: seq<MigrationTask>, total: nat, limit: nat, offset: nat)

  /** The page's state: the task store and its own error text. */
  datatype View = View(store: TaskStoreState, error: string)

  /** The state while a load is in flight: loading, with the error cleared. */
  function StartLoad(v: View): (r: View)
    ensures r.store.isLoadingTasks && r.error == ""
    ensures r.store.tasks == v.store.tasks && r.store.pagination == v.store.pagination
  {
    View(SetIsLoadingTasks(v.store, true), "")
  }

  /** `loadTasks` once the request settles: on success the tasks and the total are replaced and
      the page count is recomputed from the answer; on failure the list stays and the error is
      shown. Loading ends either way, and the page and page size are never touched. */
  function LoadTasks(v: View, outcome: Outcome<ListResult>): (r: View)
    requires outcome.Resolved? ==> outcome.value.limit > 0
    ensures !r.store.isLoadingTasks
    ensures r.store.pagination.page == v.store.pagination.page
    ensures r.store.pagination.pageSize == v.store.pagination.pageSize
    ensures r.store.activeTasks == v.store.activeTasks && r.store.statusFilter == v.store.statusFilter
    ensures outcome.Resolved? ==> r.error == "" && r.store.tasks == outcome.value.tasks &&
                                  r.store.pagination.total == outcome.value.total &&
                                  r.store.pagination.totalPages == TotalPages(outcome.value.total, outcome.value.limit)
    ensures outcome.Rejected? ==> r.store.tasks == v.store.tasks && r.store.pagination == v.store.pagination &&
                                  r.error == CaughtMessage(outcome.reason, "Failed to load tasks")
  {
    var started := StartLoad(v);
    var settled := match outcome
      case Resolved(res) =>
        var patch := PaginationPatch(None, None, Some(res.total), Some(TotalPages(res.total, res.limit)));
        View(SetPagination(SetTasks(started.store, res.tasks), patch), started.error)
      case Rejected(t) => View(started.store, CaughtMessage(t, "Failed to load tasks"));
    View(SetIsLoadingTasks(settled.store, false), settled.error)
  }

  // ----- filteredTasks and the tabs -----

  function StatusIs(f: string): MigrationTask -> bool {
    (t: MigrationTask) => t.status == f
  }

  /** `filteredTasks`: a filter keeps exactly the tasks with that status; no filter, or an empty
      one (which is falsy), keeps every task. */
  function FilteredTasks(tasks: seq<MigrationTask>, filter: Option<string>): (r: seq<MigrationTask>)
    ensures filter.None? || filter.value == "" ==> r == tasks
    ensures filter.Some? && filter.value != "" ==> forall t :: t in r <==> t in tasks && t.status == filter.value
    ensures |r| <= |tasks|
  {
    if filter.None? || filter.value == "" then tasks else Filter(tasks, StatusIs(filter.value))
  }

  /** Filtering keeps the original order: filtering a concatenation filters each part. */
  lemma FilteredTasksConcat(a: seq<MigrationTask>, b: seq<MigrationTask>, filter: Option<string>)
    ensures FilteredTasks(a + b, filter) == FilteredTasks(a, filter) + FilteredTasks(b, filter)
  {
    if filter.Some? && filter.value != "" {
      FilterConcat(a, b, StatusIs(filter.value));
    }
  }

  /** Filtering twice by the same status changes nothing more. */
  lemma {:induction false} FilterIdempotent<T>(s: seq<T>, p: T -> bool)
    ensures Filter(Filter(s, p), p) == Filter(s, p)
  {
    if |s| > 0 {
      var head := if p(s[0]) then [s[0]] else [];
      FilterIdempotent(s[1..], p);
      FilterConcat(head, Filter(s[1..], p), p);
      assert Filter(head, p) == head by {
        if p(s[0]) {
          assert [s[0]][1..] == [];
        }
      }
    }
  }

  lemma FilteredTasksIdempotent(tasks: seq<MigrationTask>, filter: Option<string>)
    ensures FilteredTasks(FilteredTasks(tasks, filter), filter) == FilteredTasks(tasks, filter)
  {
    if filter.Some? && filter.value != "" {
      FilterIdempotent(tasks, StatusIs(filter.value));
    }
  }

  /** The filter a tab sets: none for `all`, its own status otherwise. */
  function TabFilter(value: string): (f: Option<string>)
    ensures f.None? <==> value == "all"
  {
    if value == "all" then None else Some(value)
  }

  /** The tab shown for a filter: `statusFilter || 'all'`. */
  function TabValue(filter: Option<string>): (v: string)
    ensures filter.None? ==> v == "all"
  {
    if filter.None? || filter.value == "" then "all" else filter.value
  }

  /** Choosing a tab selects that tab, and the `all` tab shows every task while each status tab
      shows exactly the tasks in that status. */
  lemma TabsAgreeWithFilter(value: string, tasks: seq<MigrationTask>, t: MigrationTask)
    requires value in {"all", TaskModel.StatusRunning, TaskModel.StatusCompleted, TaskModel.StatusFailed,
                       TaskModel.StatusCancelled}
    ensures TabValue(TabFilter(value)) == value
    ensures value == "all" ==> FilteredTasks(tasks, TabFilter(value)) == tasks
    ensures value != "all" ==> (t in FilteredTasks(tasks, TabFilter(value)) <==> t in tasks && t.status == value)
  {
  }

  // ----- The pager -----

  predicate PrevDisabled(p: Pagination) {
    p.page == 0
  }

  predicate NextDisabled(p: Pagination) {
    p.page >= p.totalPages - 1
  }

  /** The pager appears only once loading is over, something is listed and there is more than
      one page. */
  predicate PagerShown(loading: bool, filtered: seq<MigrationTask>, p: Pagination) {
    !loading && |filtered| > 0 && p.totalPages > 1
  }

  /** What the Previous and Next buttons do. */
  function Step(p: Pagination, forward: bool): (q: Pagination)
    ensures q.pageSize == p.pageSize && q.total == p.total && q.totalPages == p.totalPages
    ensures q.page == if forward then p.page + 1 else p.page - 1
  {
    p.(page := if forward then p.page + 1 else p.page - 1)
  }

  /** An enabled button keeps the page among the existing pages. */
  lemma PagerStaysInRange(p: Pagination, forward: bool)
    requires 0 <= p.page < p.totalPages
    requires if forward then !NextDisabled(p) else !PrevDisabled(p)
    ensures 0 <= Step(p, forward).page < p.totalPages
  {
  }

  /** After a load, Next is enabled exactly when the following page starts before the end of the
      list. */
  lemma NextEnabledIffMoreTasks(v: View, res: ListResult)
    requires res.limit > 0 && v.store.pagination.page >= 0 && v.store.pagination.pageSize == res.limit
    ensures var p := LoadTasks(v, Resolved(res)).store.pagination;
      !NextDisabled(p) <==> (p.page + 1) * res.limit < res.total
  {
    var p := LoadTasks(v, Resolved(res)).store.pagination;
    PageBeforeCount(p.page + 1, res.total, res.limit);
  }

  /** Viewing pages 0 to n−1 in turn shows the server's sorted list window by window. */
  function Pages(s: seq<TaskModel.TaskRecord>, limit: nat, n: nat): seq<TaskModel.TaskRecord> {
    if n == 0 then [] else Pages(s, limit, n - 1) + MigrationService.Page(s, limit, (n - 1) * limit)
  }

  lemma PageSplit(s: seq<TaskModel.TaskRecord>, a: nat, b: nat, o: nat)
    ensures MigrationService.Page(s, a, o) + MigrationService.Page(s, b, o + a) == MigrationService.Page(s, a + b, o)
  {
    var n := |s|;
    if o < n && o + a >= n {
      assert MigrationService.Page(s, a, o) == s[o..n];
      assert MigrationService.Page(s, a + b, o) == s[o..n];
    } else if o + a < n {
      var e := if o + a + b <= n then o + a + b else n;
      assert MigrationService.Page(s, a, o) == s[o..o + a];
      assert MigrationService.Page(s, b, o + a) == s[o + a..e];
      assert MigrationService.Page(s, a + b, o) == s[o..e];
      assert s[o..o + a] + s[o + a..e] == s[o..e];
    }
  }

  /** The pages tile the list: together the first n pages are exactly its first n·limit tasks,
      none skipped and none repeated. */
  lemma {:induction false} PagesCover(s: seq<TaskModel.TaskRecord>, limit: nat, n: nat)
    ensures Pages(s, limit, n) == MigrationService.Page(s, n * limit, 0)
  {
    if n > 0 {
      PagesCover(s, limit, n - 1);
      PageSplit(s, (n - 1) * limit, limit, 0);
      assert (n - 1) * limit + limit == n * limit;
    }
  }
}
