/** The two endpoints of the user controller. `index` renders a page of
    users; `export` streams the same page as CSV rows. Both derive a cache
    key from the page and the gender filter, ask the cache for that batch
    (running the upstream request on a miss), compute the page's offset in
    the batch and slice out ten users. The request, the environment and the
    HTTP client are parameters; the cache is the one shared, mutable object. */
module UserController {
  import opened Php
  import opened Upstream
  import opened Cache
  import opened Pagination
  import opened Csv

  /** The message both endpoints report on any failure. */
  const FetchError: string := "Unable to fetch users at this time. Please try again later."

  /** The two settings read from the environment: the API's URL and the
      number of users fetched per batch. */
  datatype Config = Config(apiUrl: string, resultsCount: int)

  /** What the length-aware paginator is built from: the page's items, the
      total, the page size and the current page. */
  datatype Paginator = Paginator(items: seq<User>, total: int, perPage: int, currentPage: int)

  /** The data handed to the `user` view. */
  datatype View = View(
    users: seq<User>,
    page: int,
    gender: Option<string>,
    details: seq<User>,
    error: Option<string>,
    paginator: Option<Paginator>)

  /** What `export` answers: the CSV rows, or a redirect back with an error. */
  datatype Response = Download(rows: seq<Row>) | RedirectBack(error: string)

  /** The view `index` renders and the cache it leaves. The `export`
      parameter is read and never used. */
  function IndexView(store: Store, page: int, gender: Option<string>, exportFlag: Option<string>, cfg: Config, api: Api)
    : (r: (View, Store))
    ensures r.0.page == page && r.0.gender == gender
    // pagination controls exactly when there is no error
    ensures r.0.error.Some? <==> r.0.paginator.None?
    // on failure: the fixed message, and no users on the page
    ensures r.0.error.Some? ==> r.0.error == Some(FetchError) && r.0.users == []
    // on success: at most ten users, paginated against the configured count
    ensures r.0.paginator.Some? ==>
              |r.0.users| <= PerPage && r.0.paginator == Some(Paginator(r.0.users, cfg.resultsCount, PerPage, page))
    // the cache is left as `remember` leaves it
    ensures r.1 == Remembered(store, CacheKey(gender, page), api(cfg.apiUrl, IndexQuery(gender, cfg.resultsCount))).1
  {
    var remembered := Remembered(store, CacheKey(gender, page), api(cfg.apiUrl, IndexQuery(gender, cfg.resultsCount)));
    var view :=
      match Resolve(remembered.0, page, cfg.resultsCount)
      case Shown(batch, window) =>
        View(window, page, gender, batch, None, Some(Paginator(window, cfg.resultsCount, PerPage, page)))
      case OffsetFailed(batch) => View([], page, gender, batch, Some(FetchError), None)
      case FetchFailed => View([], page, gender, [], Some(FetchError), None);
    (view, remembered.1)
  }

  /** What `export` answers and the cache it leaves. */
  function ExportResponse(store: Store, page: int, gender: Option<string>, cfg: Config, api: Api)
    : (r: (Response, Store))
    ensures r.0.RedirectBack? ==> r.0.error == FetchError
    // a header and at most one page of users, never a partial file
    ensures r.0.Download? ==> 1 <= |r.0.rows| <= 1 + PerPage && r.0.rows[0] == Header
    ensures r.1 == Remembered(store, CacheKey(gender, page), api(cfg.apiUrl, ExportQuery(gender, cfg.resultsCount))).1
  {
    var remembered := Remembered(store, CacheKey(gender, page), api(cfg.apiUrl, ExportQuery(gender, cfg.resultsCount)));
    var response :=
      match Resolve(remembered.0, page, cfg.resultsCount)
      case Shown(_, window) => Download(Table(window))
      case _ => RedirectBack(FetchError);
    (response, remembered.1)
  }

  /** For the same request and cache, `export` computes the key, query,
      offset and slice `index` does: it fails exactly when `index` shows the
      error, leaves the same cache, and otherwise writes exactly the users
      `index` displays, one row each after the header. */
  lemma ExportAgreesWithIndex(store: Store, page: int, gender: Option<string>, exportFlag: Option<string>, cfg: Config, api: Api)
    ensures var (view, indexStore) := IndexView(store, page, gender, exportFlag, cfg, api);
            var (response, exportStore) := ExportResponse(store, page, gender, cfg, api);
              && indexStore == exportStore
              && (view.error.Some? <==> response.RedirectBack?)
              && (view.error.None? ==> response == Download(Table(view.users)))
  {
    QueriesAgree(gender, cfg.resultsCount);
  }

  /** A cached batch is served without asking upstream: on a hit, what the
      API would answer makes no difference to either endpoint. */
  lemma HitIgnoresUpstream(store: Store, page: int, gender: Option<string>, exportFlag: Option<string>, cfg: Config, api1: Api, api2: Api)
    requires CacheKey(gender, page) in store
    ensures IndexView(store, page, gender, exportFlag, cfg, api1) == IndexView(store, page, gender, exportFlag, cfg, api2)
    ensures ExportResponse(store, page, gender, cfg, api1) == ExportResponse(store, page, gender, cfg, api2)
  {
  }

  /** For a positive page and count, `index` fails only when the batch
      cannot be had, and otherwise shows the window of the batch at the
      page's offset; `details` holds the whole batch. */
  lemma IndexShowsWindow(store: Store, page: int, gender: Option<string>, exportFlag: Option<string>, cfg: Config, api: Api)
    requires page >= 1 && cfg.resultsCount >= 1
    ensures var fetched := Remembered(store, CacheKey(gender, page), api(cfg.apiUrl, IndexQuery(gender, cfg.resultsCount))).0;
            var view := IndexView(store, page, gender, exportFlag, cfg, api).0;
            var o := PerPage * ((page - 1) % PagesPerBatch(cfg.resultsCount));
              && (view.error.None? <==> fetched.Ok?)
              && (fetched.Ok? ==>
                    view.details == fetched.records
                    && view.users == fetched.records[Min(o, |fetched.records|)..Min(o + PerPage, |fetched.records|)])
  {
    var fetched := Remembered(store, CacheKey(gender, page), api(cfg.apiUrl, IndexQuery(gender, cfg.resultsCount))).0;
    if fetched.Ok? {
      PageWindow(fetched.records, page, cfg.resultsCount);
    }
  }

  /** When the upstream request fails on a miss, `index` shows the message
      with no users, no details and no paginator, and the cache is unchanged;
      `export` redirects back with the same message. */
  lemma UpstreamFailureOutcome(store: Store, page: int, gender: Option<string>, exportFlag: Option<string>, cfg: Config, api: Api)
    requires CacheKey(gender, page) !in store
    requires api(cfg.apiUrl, IndexQuery(gender, cfg.resultsCount)).Err?
    ensures IndexView(store, page, gender, exportFlag, cfg, api) == (View([], page, gender, [], Some(FetchError), None), store)
    ensures ExportResponse(store, page, gender, cfg, api) == (RedirectBack(FetchError), store)
  {
    QueriesAgree(gender, cfg.resultsCount);
  }

  /** A configured count in (-10, 0] makes the offset divide by zero after
      `remember` has already stored the fetched batch: `index` shows the
      error message although `details` holds the batch, and the batch stays
      cached. */
  lemma ZeroCountFailsAfterCaching(store: Store, page: int, gender: Option<string>, exportFlag: Option<string>, cfg: Config, api: Api, batch: seq<User>)
    requires -PerPage < cfg.resultsCount <= 0
    requires CacheKey(gender, page) !in store
    requires api(cfg.apiUrl, IndexQuery(gender, cfg.resultsCount)) == Ok(batch)
    ensures var (view, after) := IndexView(store, page, gender, exportFlag, cfg, api);
              && view == View([], page, gender, batch, Some(FetchError), None)
              && after == store[CacheKey(gender, page) := batch]
  {
  }

  /** `index`, step by step as the controller runs it; the try block ends at
      the first statement that throws. */
  method Index(cache: BatchCache, page: int, gender: Option<string>, exportFlag: Option<string>, cfg: Config, api: Api)
    returns (view: View)
    requires cache.Valid()
    modifies cache
    ensures cache.Valid()
    ensures (view, cache.entries) == IndexView(old(cache.entries), page, gender, exportFlag, cfg, api)
    // upstream is asked only on a miss, once
    ensures cache.Calls == old(cache.Calls) + (if CacheKey(gender, page) in old(cache.entries) then [] else [CacheKey(gender, page)])
    // the users shown come from a batch some supplier run fetched for this key
    ensures view.error.None? ==> CacheKey(gender, page) in cache.Calls
  {
    var error: Option<string> := None;
    var paginatedUsers: seq<User> := [];
    var users: seq<User> := [];
    var paginator: Option<Paginator>;
    var resultsCount := cfg.resultsCount;
    var cacheKey := CacheKey(gender, page);
    var fetched := cache.Remember(cacheKey, api(cfg.apiUrl, IndexQuery(gender, resultsCount)));
    if fetched.Err? {
      error, paginator := Some(FetchError), None;
    } else {
      users := fetched.records;
      var offset := Offset(page, resultsCount);
      if offset.DivisionByZeroError? {
        error, paginator := Some(FetchError), None;
      } else {
        paginatedUsers := ArraySlice(users, offset.value, PerPage);
        paginator := Some(Paginator(paginatedUsers, resultsCount, PerPage, page));
      }
    }
    view := View(paginatedUsers, page, gender, users, error, paginator);
  }

  /** `export`, step by step: any failure in the try block redirects back
      before a single row is written. */
  method Export(cache: BatchCache, page: int, gender: Option<string>, cfg: Config, api: Api)
    returns (response: Response)
    requires cache.Valid()
    modifies cache
    ensures cache.Valid()
    ensures (response, cache.entries) == ExportResponse(old(cache.entries), page, gender, cfg, api)
    ensures cache.Calls == old(cache.Calls) + (if CacheKey(gender, page) in old(cache.entries) then [] else [CacheKey(gender, page)])
    // the rows written come from a batch some supplier run fetched for this key
    ensures response.Download? ==> CacheKey(gender, page) in cache.Calls
  {
    var resultsCount := cfg.resultsCount;
    var cacheKey := CacheKey(gender, page);
    var fetched := cache.Remember(cacheKey, api(cfg.apiUrl, ExportQuery(gender, resultsCount)));
    if fetched.Err? {
      return RedirectBack(FetchError);
    }
    var offset := Offset(page, resultsCount);
    if offset.DivisionByZeroError? {
      return RedirectBack(FetchError);
    }
    var paginatedUsers := ArraySlice(fetched.records, offset.value, PerPage);
    var rows := WriteTable(paginatedUsers);
    response := Download(rows);
  }

  /** As written, `index` renders the page whatever `export` says, so the
      view's "Export to CSV" form, which submits `export=1` to it, only
      reloads the page. */
  lemma IndexIgnoresExport(store: Store, page: int, gender: Option<string>, exportFlag: Option<string>, cfg: Config, api: Api)
    ensures IndexView(store, page, gender, exportFlag, cfg, api) == IndexView(store, page, gender, None, cfg, api)
  {
  }

  /** What `index` answers when it honours its `export` parameter. */
  datatype IndexResponse = Page(view: View) | Stream(rows: seq<Row>)

  /** `index` as documented: when `export` is truthy and there is no error,
      it streams the page as CSV rows instead of rendering it. */
  function IndexWithExport(store: Store, page: int, gender: Option<string>, exportFlag: Option<string>, cfg: Config, api: Api)
    : (r: (IndexResponse, Store))
    ensures r.1 == IndexView(store, page, gender, exportFlag, cfg, api).1
    ensures r.0.Stream? <==> Truthy(exportFlag) && IndexView(store, page, gender, exportFlag, cfg, api).0.error.None?
    ensures r.0.Page? ==> r.0.view == IndexView(store, page, gender, exportFlag, cfg, api).0
  {
    var (view, after) := IndexView(store, page, gender, exportFlag, cfg, api);
    if Truthy(exportFlag) && view.error.None? then (Stream(Table(view.users)), after) else (Page(view), after)
  }

  /** The corrected `index` streams exactly what the `export` endpoint writes
      for the same request, and fails exactly when it redirects. */
  lemma IndexWithExportMatchesExport(store: Store, page: int, gender: Option<string>, exportFlag: Option<string>, cfg: Config, api: Api)
    requires Truthy(exportFlag)
    ensures var (answer, indexStore) := IndexWithExport(store, page, gender, exportFlag, cfg, api);
            var (response, exportStore) := ExportResponse(store, page, gender, cfg, api);
              && indexStore == exportStore
              && (answer.Stream? <==> response.Download?)
              && (answer.Stream? ==> answer.rows == response.rows)
  {
    ExportAgreesWithIndex(store, page, gender, exportFlag, cfg, api);
  }
}
