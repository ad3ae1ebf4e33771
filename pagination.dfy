/** The arithmetic both endpoints share: the cache key of a page, the page's
    offset inside its batch and the window of the batch it shows. Pages are
    any integers, as the `(int)` cast of the request leaves them; the
    number of records per batch comes from configuration. */
module Pagination {
  import opened Php
  import opened Upstream

  /** Users shown per page. */
  const PerPage: int := 10

  /** Pages per batch as the cache key assumes it. */
  const KeyPagesPerBatch: int := 5

  /** `$gender ?: 'all'`: the raw parameter, unless it is falsy. */
  function FilterLabel(gender: Option<string>): (l: string)
    // never empty and never "0": a falsy parameter is replaced by "all"
    ensures Truthy(Some(l))
    ensures Truthy(gender) ==> l == gender.value
    ensures !Truthy(gender) ==> l == "all"
  {
    OrElse(gender, "all")
  }

  /** `ceil($page / 5)`: the batch the cache key names. */
  function BatchId(page: int): (b: int)
    ensures KeyPagesPerBatch * (b - 1) < page <= KeyPagesPerBatch * b
    ensures page >= 1 ==> b >= 1
  {
    CeilDiv(page, KeyPagesPerBatch)
  }

  /** Batch b holds exactly the pages 5b-4 .. 5b. */
  lemma BatchIdGroupsFivePages(page: int, b: int)
    ensures BatchId(page) == b <==> 5 * (b - 1) < page <= 5 * b
  {
    if 5 * (b - 1) < page <= 5 * b {
      CeilDivUnique(page, 5, b);
    }
  }

  /** `'users_' . ($gender ?: 'all') . '_batch_' . ceil($page / 5)`. */
  function CacheKey(gender: Option<string>, page: int): (key: string)
    // every key starts with the `users_` prefix ...
    ensures |key| > 6 && key[..6] == "users_"
    // ... and ends with the printed batch number, which can be read back as
    // the part after the last underscore
    ensures var tail := TailWithoutUnderscore(key);
              tail <= |key| && key[|key| - tail..] == CeilString(page, KeyPagesPerBatch)
  {
    var key := "users_" + FilterLabel(gender) + "_batch_" + CeilString(page, KeyPagesPerBatch);
    TailAfterBatch("users_" + FilterLabel(gender), CeilString(page, KeyPagesPerBatch));
    key
  }

  /** The length of the longest suffix of `s` without an underscore. */
  function TailWithoutUnderscore(s: string): nat
  {
    if |s| == 0 || s[|s| - 1] == '_' then 0 else 1 + TailWithoutUnderscore(s[..|s| - 1])
  }

  /** After `_batch_` the suffix without underscores is exactly the printed
      batch number. */
  lemma {:induction false} TailAfterBatch(a: string, d: string)
    requires forall i :: 0 <= i < |d| ==> d[i] != '_'
    ensures TailWithoutUnderscore(a + "_batch_" + d) == |d|
  {
    var k := a + "_batch_" + d;
    if |d| > 0 {
      var d' := d[..|d| - 1];
      assert k[..|k| - 1] == a + "_batch_" + d';
      assert k[|k| - 1] == d[|d| - 1];
      TailAfterBatch(a, d');
    } else {
      assert k[|k| - 1] == '_';
    }
  }

  /** A string ending in `_batch_` followed by a suffix without underscores
      splits in one way only. */
  lemma SplitAtBatch(a1: string, d1: string, a2: string, d2: string)
    requires a1 + "_batch_" + d1 == a2 + "_batch_" + d2
    requires forall i :: 0 <= i < |d1| ==> d1[i] != '_'
    requires forall i :: 0 <= i < |d2| ==> d2[i] != '_'
    ensures a1 == a2 && d1 == d2
  {
    var k := a1 + "_batch_" + d1;
    var n := |k|;
    TailAfterBatch(a1, d1);
    TailAfterBatch(a2, d2);
    assert d1 == k[n - |d1|..] == d2;
    assert a1 + "_batch_" == k[..n - |d1|] == a2 + "_batch_";
    assert a1 == (a1 + "_batch_")[..|a1|];
    assert a2 == (a2 + "_batch_")[..|a2|];
  }

  /** Two requests share a cache entry exactly when their filter labels agree
      and their batch numbers print alike. */
  lemma KeyInjective(g1: Option<string>, p1: int, g2: Option<string>, p2: int)
    ensures CacheKey(g1, p1) == CacheKey(g2, p2) <==>
              FilterLabel(g1) == FilterLabel(g2) && CeilString(p1, 5) == CeilString(p2, 5)
  {
    if CacheKey(g1, p1) == CacheKey(g2, p2) {
      var a1, a2 := "users_" + FilterLabel(g1), "users_" + FilterLabel(g2);
      SplitAtBatch(a1, CeilString(p1, 5), a2, CeilString(p2, 5));
      assert FilterLabel(g1) == a1[6..] == a2[6..] == FilterLabel(g2);
    }
  }

  /** For the same filter and positive pages, two pages share a cache entry
      exactly when they lie in the same batch of five: pages 1-5 share batch
      1, pages 6-10 batch 2. */
  lemma SameKeyIffSameBatch(gender: Option<string>, p1: int, p2: int)
    requires p1 >= 1 && p2 >= 1
    ensures CacheKey(gender, p1) == CacheKey(gender, p2) <==> BatchId(p1) == BatchId(p2)
  {
    KeyInjective(gender, p1, gender, p2);
    CeilStringInjective(p1, p2, 5);
  }

  /** The raw parameter, not the filter that reaches the query, names the
      cache entry: an unsupported truthy gender other than "all" fetches what
      an unfiltered request fetches but stores it under a key of its own,
      while "", "0" and "all" share the unfiltered key. */
  lemma UnsupportedGenderSeparateKey(gender: Option<string>, page: int, resultsCount: int)
    requires !InSupportedList(gender)
    ensures IndexQuery(gender, resultsCount) == IndexQuery(None, resultsCount)
    ensures CacheKey(gender, page) == CacheKey(None, page) <==> !Truthy(gender) || gender.value == "all"
  {
    KeyInjective(gender, page, None, page);
  }

  /** `ceil($resultsCount / $perPage)`, converted to an integer by `%`. */
  function PagesPerBatch(resultsCount: int): (ppb: int)
    // the fewest pages of ten that hold the batch
    ensures PerPage * (ppb - 1) < resultsCount <= PerPage * ppb
    ensures resultsCount >= 1 ==> ppb >= 1
    // zero, the divisor `%` rejects, exactly for a count in (-10, 0]
    ensures ppb == 0 <==> -PerPage < resultsCount <= 0
  {
    CeilDiv(resultsCount, PerPage)
  }

  /** `(($page - 1) % ceil($resultsCount / $perPage)) * $perPage`: throws
      exactly when the divisor rounds to zero, that is for a configured
      count in (-10, 0]; otherwise a multiple of the page size. */
  function Offset(page: int, resultsCount: int): (r: Computed)
    ensures r.DivisionByZeroError? <==> -PerPage < resultsCount <= 0
    ensures r.Num? ==> r.value % PerPage == 0
  {
    match Mod(page - 1, PagesPerBatch(resultsCount))
    case Num(m) => Num(m * PerPage)
    case DivisionByZeroError => DivisionByZeroError
  }

  /** For a positive page and a positive count the offset exists, is a
      multiple of ten and lies inside the configured batch. */
  lemma OffsetInBatch(page: int, resultsCount: int)
    requires page >= 1 && resultsCount >= 1
    ensures Offset(page, resultsCount).Num?
    ensures var o := Offset(page, resultsCount).value;
              o == PerPage * ((page - 1) % PagesPerBatch(resultsCount)) && 0 <= o < resultsCount
  {
    ModNonNegative(page - 1, PagesPerBatch(resultsCount));
  }

  /** Page 0 is not clamped: its offset is -10 (PHP's `%` keeps the sign of
      the dividend), so it shows the last ten records of batch 0. */
  lemma PageZeroShowsTail(resultsCount: int, batch: seq<User>)
    requires resultsCount > PerPage && |batch| >= PerPage
    ensures Offset(0, resultsCount) == Num(-PerPage)
    ensures ArraySlice(batch, -PerPage, PerPage) == batch[|batch| - PerPage..]
  {
    var ppb := PagesPerBatch(resultsCount);
    assert ppb >= 2;
    ModUnique(1, ppb, 0, 1);
    assert Mod(-1, ppb) == Num(-1);
  }

  /** With the default of 50 records per batch the offset divisor is 5, the
      same as the key's, and page p is page p - 5(b-1) of its batch b. */
  lemma DefaultCountAgreesWithKey(page: int)
    requires page >= 1
    ensures PagesPerBatch(50) == KeyPagesPerBatch
    ensures Offset(page, 50) == Num(PerPage * (page - 1 - 5 * (BatchId(page) - 1)))
  {
    var b := BatchId(page);
    assert PagesPerBatch(50) == 5 by {
      CeilDivUnique(50, PerPage, 5);
    }
    ModNonNegative(page - 1, 5);
    ModUnique(page - 1, 5, b - 1, page - 1 - 5 * (b - 1));
  }

  /** What a page request resolves to once the cache has answered. */
  datatype Attempt =
    | Shown(batch: seq<User>, window: seq<User>)
    | FetchFailed
    | OffsetFailed(batch: seq<User>)

  /** The statements after `remember` in both endpoints: compute the offset,
      then `array_slice($users, $offset, $perPage)`. */
  function Resolve(fetched: Fetched, page: int, resultsCount: int): (a: Attempt)
    ensures a.FetchFailed? <==> fetched.Err?
    ensures a.OffsetFailed? <==> fetched.Ok? && -PerPage < resultsCount <= 0
    ensures !a.FetchFailed? ==> a.batch == fetched.records
    ensures a.Shown? ==> |a.window| <= PerPage
    // the window is `array_slice` of the batch at the computed offset
    ensures a.Shown? ==> Offset(page, resultsCount).Num?
                         && a.window == ArraySlice(a.batch, Offset(page, resultsCount).value, PerPage)
  {
    match fetched
    case Err => FetchFailed
    case Ok(batch) =>
      match Offset(page, resultsCount)
      case DivisionByZeroError => OffsetFailed(batch)
      case Num(o) => Shown(batch, ArraySlice(batch, o, PerPage))
  }

  function Min(a: int, b: int): int {
    if a <= b then a else b
  }

  /** For a positive page and count, a fetched batch always yields a page: the
      contiguous, order-preserving window of at most ten records starting at
      the offset, empty when the batch is shorter than the offset. */
  lemma PageWindow(batch: seq<User>, page: int, resultsCount: int)
    requires page >= 1 && resultsCount >= 1
    ensures var o := PerPage * ((page - 1) % PagesPerBatch(resultsCount));
              Resolve(Ok(batch), page, resultsCount)
              == Shown(batch, batch[Min(o, |batch|)..Min(o + PerPage, |batch|)])
  {
    OffsetInBatch(page, resultsCount);
    var o := Offset(page, resultsCount).value;
    var w := ArraySlice(batch, o, PerPage);
    assert w == batch[Min(o, |batch|)..Min(o + PerPage, |batch|)];
  }

  /** The window a page shows of a batch, or nothing when the offset throws. */
  function PageOf(batch: seq<User>, page: int, resultsCount: int): seq<User> {
    match Resolve(Ok(batch), page, resultsCount)
    case Shown(_, w) => w
    case _ => []
  }

  /** The windows of `count` consecutive pages starting at `first`, in page
      order. */
  function PageList(batch: seq<User>, resultsCount: int, first: int, count: nat): seq<seq<User>> {
    seq(count, j => PageOf(batch, first + j, resultsCount))
  }

  /** The windows joined one after another. */
  function Flatten(windows: seq<seq<User>>): seq<User> {
    if windows == [] then [] else windows[0] + Flatten(windows[1..])
  }

  /** What `count` consecutive pages starting at `first` show, read in page
      order. */
  function PagesShown(batch: seq<User>, resultsCount: int, first: int, count: nat): seq<User> {
    Flatten(PageList(batch, resultsCount, first, count))
  }

  /** With the default configuration, a full batch of fifty is shown by the
      five pages of its key: page 1 + 5(b-1) onwards, every record once, in
      order. */
  lemma DefaultBatchShownOnce(batch: seq<User>, b: int)
    requires |batch| == 50 && b >= 1
    ensures forall p :: 5 * (b - 1) < p <= 5 * b ==> BatchId(p) == b
    ensures PagesShown(batch, 50, 5 * (b - 1) + 1, 5) == batch
  {
    assert PagesPerBatch(50) == 5 by {
      CeilDivUnique(50, PerPage, 5);
    }
    CorrectedBatchShownOnce(batch, 50, b);
  }

  /** Page k + 1 of batch b, numbering pages by the offset divisor, shows
      records 10k .. 10k + 9 of a full batch. */
  lemma PageOfBatch(batch: seq<User>, resultsCount: int, b: int, k: int, page: int)
    requires resultsCount >= 1 && |batch| == resultsCount && b >= 1
    requires 0 <= k < PagesPerBatch(resultsCount)
    requires page == PagesPerBatch(resultsCount) * (b - 1) + 1 + k
    ensures PageOf(batch, page, resultsCount) == batch[PerPage * k..Min(PerPage * k + PerPage, |batch|)]
  {
    ModUnique(page - 1, PagesPerBatch(resultsCount), b - 1, k);
    PageWindow(batch, page, resultsCount);
  }

  /** A suffix of a sequence is its next ten elements followed by the rest. */
  lemma SplitAfterWindow(batch: seq<User>, start: int)
    requires 0 <= start <= |batch|
    ensures batch[start..] == batch[start..Min(start + PerPage, |batch|)] + batch[Min(start + PerPage, |batch|)..]
  {
  }

  /** Windows that are consecutive runs of ten records, the last one
      reaching the end of the batch, join from window k on to the batch from
      record 10k on. */
  lemma {:induction false} RunsJoin(batch: seq<User>, windows: seq<seq<User>>, k: int)
    requires 0 <= k <= |windows| && PerPage * (|windows| - 1) < |batch| <= PerPage * |windows|
    requires forall j :: 0 <= j < |windows| ==> windows[j] == batch[PerPage * j..Min(PerPage * j + PerPage, |batch|)]
    ensures Flatten(windows[k..]) == batch[Min(PerPage * k, |batch|)..]
    decreases |windows| - k
  {
    if k < |windows| {
      RunsJoin(batch, windows, k + 1);
      assert windows[k..][1..] == windows[k + 1..];
      SplitAfterWindow(batch, PerPage * k);
    }
  }

  /** As written, the key groups pages in fives whatever the configured count:
      with 30 records per batch the offset divisor is 3, and page 4 reads the
      same cached batch at the same offset as page 1, so it repeats page 1. */
  lemma ThirtyRecordsRepeatPageOne(gender: Option<string>)
    ensures CacheKey(gender, 4) == CacheKey(gender, 1)
    ensures Offset(4, 30) == Offset(1, 30) == Num(0)
  {
    assert CeilDiv(4, 5) == CeilDiv(1, 5) == 1 by {
      CeilDivUnique(4, 5, 1);
      CeilDivUnique(1, 5, 1);
    }
    assert PagesPerBatch(30) == 3 by {
      CeilDivUnique(30, PerPage, 3);
    }
  }

  /** The batch number the offset arithmetic assumes: pages grouped by
      `ceil($resultsCount / $perPage)` rather than by a fixed five. */
  function CorrectedBatchId(page: int, resultsCount: int): (b: int)
    requires resultsCount >= 1
    ensures page >= 1 ==> b >= 1
  {
    CeilDiv(page, PagesPerBatch(resultsCount))
  }

  /** The corrected key, naming the batch by the corrected number. */
  function CorrectedCacheKey(gender: Option<string>, page: int, resultsCount: int): (key: string)
    requires resultsCount >= 1
    ensures |key| > 6 && key[..6] == "users_"
    ensures var tail := TailWithoutUnderscore(key);
              tail <= |key| && key[|key| - tail..] == CeilString(page, PagesPerBatch(resultsCount))
  {
    var key := "users_" + FilterLabel(gender) + "_batch_" + CeilString(page, PagesPerBatch(resultsCount));
    TailAfterBatch("users_" + FilterLabel(gender), CeilString(page, PagesPerBatch(resultsCount)));
    key
  }

  /** Under corrected batching, for one filter and positive pages, two pages
      share a cache entry exactly when they share a corrected batch number. */
  lemma CorrectedKeyIffSameBatch(gender: Option<string>, p1: int, p2: int, resultsCount: int)
    requires p1 >= 1 && p2 >= 1 && resultsCount >= 1
    ensures CorrectedCacheKey(gender, p1, resultsCount) == CorrectedCacheKey(gender, p2, resultsCount)
            <==> CorrectedBatchId(p1, resultsCount) == CorrectedBatchId(p2, resultsCount)
  {
    var ppb := PagesPerBatch(resultsCount);
    var prefix := "users_" + FilterLabel(gender);
    CeilStringInjective(p1, p2, ppb);
    if CorrectedCacheKey(gender, p1, resultsCount) == CorrectedCacheKey(gender, p2, resultsCount) {
      SplitAtBatch(prefix, CeilString(p1, ppb), prefix, CeilString(p2, ppb));
    }
  }

  /** With corrected batching, for any positive count the pages of batch b
      all name batch b, and together they show a full batch once, in order. */
  lemma CorrectedBatchShownOnce(batch: seq<User>, resultsCount: int, b: int)
    requires resultsCount >= 1 && |batch| == resultsCount && b >= 1
    ensures var ppb := PagesPerBatch(resultsCount);
              && (forall p :: ppb * (b - 1) < p <= ppb * b ==> CorrectedBatchId(p, resultsCount) == b)
              && PagesShown(batch, resultsCount, ppb * (b - 1) + 1, ppb) == batch
  {
    var ppb := PagesPerBatch(resultsCount);
    var first := ppb * (b - 1) + 1;
    forall p | ppb * (b - 1) < p <= ppb * b ensures CorrectedBatchId(p, resultsCount) == b {
      CeilDivUnique(p, ppb, b);
    }
    var windows := PageList(batch, resultsCount, first, ppb);
    forall j | 0 <= j < ppb ensures windows[j] == batch[PerPage * j..Min(PerPage * j + PerPage, |batch|)] {
      PageOfBatch(batch, resultsCount, b, j, first + j);
    }
    RunsJoin(batch, windows, 0);
    assert windows[0..] == windows;
  }

  /** The ceiling of p / d is one more than the quotient of p - 1. */
  lemma CeilDivByQuotient(p: int, d: int)
    requires d >= 1
    ensures CeilDiv(p, d) == (p - 1) / d + 1
  {
    var q := (p - 1) / d;
    assert p - 1 == d * q + (p - 1) % d;
    CeilDivUnique(p, d, q + 1);
  }

  /** A quotient and a remainder determine the dividend. */
  lemma SameQuotientAndRemainder(x1: int, x2: int, d: int)
    requires d >= 1 && x1 / d == x2 / d && x1 % d == x2 % d
    ensures x1 == x2
  {
    assert x1 == d * (x1 / d) + x1 % d;
    assert x2 == d * (x2 / d) + x2 % d;
  }

  /** Under corrected batching no two positive pages show the same window of
      the same batch. */
  lemma CorrectedPagesDistinct(p1: int, p2: int, resultsCount: int)
    requires p1 >= 1 && p2 >= 1 && resultsCount >= 1
    requires CorrectedBatchId(p1, resultsCount) == CorrectedBatchId(p2, resultsCount)
    requires Offset(p1, resultsCount) == Offset(p2, resultsCount)
    ensures p1 == p2
  {
    var ppb := PagesPerBatch(resultsCount);
    OffsetInBatch(p1, resultsCount);
    OffsetInBatch(p2, resultsCount);
    assert (p1 - 1) % ppb == (p2 - 1) % ppb;
    CeilDivByQuotient(p1, ppb);
    CeilDivByQuotient(p2, ppb);
    SameQuotientAndRemainder(p1 - 1, p2 - 1, ppb);
  }

  /** Where the offset divisor is five (41 to 50 records per batch, the
      default among them), the corrected key is the one the code computes. */
  lemma CorrectedAgreesWhenFivePages(gender: Option<string>, page: int, resultsCount: int)
    requires resultsCount >= 1 && PagesPerBatch(resultsCount) == KeyPagesPerBatch
    ensures CorrectedBatchId(page, resultsCount) == BatchId(page)
    ensures CorrectedCacheKey(gender, page, resultsCount) == CacheKey(gender, page)
  {
  }
}
