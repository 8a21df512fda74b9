/**
 * The limits and counters of Places history expiration
 * (toolkit/components/places/PlacesExpiration.sys.mjs), with the SQL, the
 * timers and the promises taken away: the limits bound into the queries, the
 * timer interval, the choice made on each timer tick, the debug request, the
 * pages-limit arithmetic and the expected-results countdown that decides
 * between DIRTY and CLEAN.
 */
module ExpirationPolicy {
  import opened Wrappers
  import opened ExpirationQueries
  import opened JsParseInt

  // ---------------------------------------------------------------------------
  // Limits bound into the queries

  /** The limit before status scaling; a DEBUG limit takes the debug value. */
  function BaseLimit(limit: Limit, debugLimit: Option<int>): (r: int)
    requires limit == Limit.Debug ==> debugLimit.Some?
    ensures limit == Unlimited ==> r == -1
    ensures limit == Small ==> r == 6
    ensures limit == Large ==> r == 60
    ensures limit == Limit.Debug ==> r == debugLimit.value
  {
    match limit
    case Unlimited => -1
    case Small => ExpireLimitPerStep
    case Large => ExpireLimitPerStep * ExpireLimitPerLargeStepMultiplier
    case Debug => debugLimit.value
  }

  /** The base limit, multiplied by the aggressivity multiplier on dirty history. */
  function StepLimit(limit: Limit, action: Action, status: Status, debugLimit: Option<int>): (r: int)
    requires limit == Limit.Debug ==> debugLimit.Some?
    ensures limit == Unlimited ==> r == -1
    ensures limit == Small ==> r == (if status == Dirty && action != Action.Debug then 18 else 6)
    ensures limit == Large ==> r == (if status == Dirty && action != Action.Debug then 180 else 60)
    ensures limit == Limit.Debug ==> r == debugLimit.value * (if status == Dirty && action != Action.Debug && debugLimit.value > 0 then 3 else 1)
    ensures r > 0 <==> BaseLimit(limit, debugLimit) > 0
  {
    var base := BaseLimit(limit, debugLimit);
    assert ExpireLimitPerStep * ExpireLimitPerLargeStepMultiplier == 60;
    if status == Dirty && action != Action.Debug && base > 0 then
      base * ExpireAggressivityMultiplier
    else
      base
  }

  /** Parameters bound into the queries that take any. */
  datatype QueryParams =
    | ExoticVisitsParams(limitVisits: int)
    | VisitsParams(maxUris: int, limitVisits: int)
    | UrisParams(limitUris: int)
    | AnnosParams(limitAnnos: int)
    | InputHistoryParams(limitInputHistory: int)
    | InteractionsParams(daysInteractions: int, limitInteractions: int)

  /** The queries for which parameters are generated; every other one gets undefined. */
  predicate HasParams(q: Query)
  {
    q in {FindExoticVisitsToExpire, FindVisitsToExpire, FindUrisToExpire,
          ExpireAnnos, ExpireInputHistory, ExpireInteractions}
  }

  /**
   * The parameters of query `q`. `pagesLimit` is the value of the pages limit
   * (asked for only by the visits query) and `expireDays` the interactions
   * age preference.
   */
  function QueryParamsFor(q: Query, limit: Limit, action: Action, status: Status,
                          debugLimit: Option<int>, pagesLimit: int, expireDays: int): (r: Option<QueryParams>)
    requires limit == Limit.Debug ==> debugLimit.Some?
    ensures r.Some? <==> HasParams(q)
    ensures q == FindVisitsToExpire ==> r.Some? && r.value.VisitsParams? && r.value.maxUris == pagesLimit
    ensures r.Some? && (r.value.ExoticVisitsParams? || r.value.VisitsParams?) ==>
      r.value.limitVisits == (if limit == Limit.Debug && StepLimit(limit, action, status, debugLimit) == -1 then 0
                              else StepLimit(limit, action, status, debugLimit))
    ensures q == ExpireInteractions ==> r == Some(InteractionsParams(expireDays,
      if limit == Limit.Debug && StepLimit(limit, action, status, debugLimit) == -1 then 0
      else StepLimit(limit, action, status, debugLimit)))
    ensures q == ExpireAnnos ==> r == Some(AnnosParams(3 * StepLimit(limit, action, status, debugLimit)))
    ensures q == FindUrisToExpire ==> r == Some(UrisParams(StepLimit(limit, action, status, debugLimit)))
    ensures q == ExpireInputHistory ==> r == Some(InputHistoryParams(StepLimit(limit, action, status, debugLimit)))
    ensures q == FindExoticVisitsToExpire ==> r.Some? && r.value.ExoticVisitsParams?
  {
    var base := StepLimit(limit, action, status, debugLimit);
    var visits := if limit == Limit.Debug && base == -1 then 0 else base;
    match q
    case FindExoticVisitsToExpire => Some(ExoticVisitsParams(visits))
    case FindVisitsToExpire => Some(VisitsParams(pagesLimit, visits))
    case FindUrisToExpire => Some(UrisParams(base))
    case ExpireAnnos => Some(AnnosParams(base * ExpireAggressivityMultiplier))
    case ExpireInputHistory => Some(InputHistoryParams(base))
    case ExpireInteractions => Some(InteractionsParams(expireDays, visits))
    case _ => None
  }

  /** Only the visits query reads the pages limit: every other query binds the same parameters whatever it is. */
  lemma OnlyVisitsQueryReadsPagesLimit(q: Query, limit: Limit, action: Action, status: Status,
                                       debugLimit: Option<int>, p1: int, p2: int, expireDays: int)
    requires limit == Limit.Debug ==> debugLimit.Some?
    requires q != FindVisitsToExpire
    ensures QueryParamsFor(q, limit, action, status, debugLimit, p1, expireDays)
         == QueryParamsFor(q, limit, action, status, debugLimit, p2, expireDays)
  {
  }

  /**
   * Dirty history runs a step every `seconds` with three times the entries, clean
   * history every `3 * seconds` with the base entries: dirty history expires nine
   * times as many entries per unit of time.
   */
  lemma {:induction false} DirtyExpiresNineTimesFaster(limit: Limit, action: Action, debugLimit: Option<int>, seconds: int)
    requires limit == Limit.Debug ==> debugLimit.Some?
    requires seconds > 0 && action != Action.Debug
    ensures StepLimit(limit, action, Dirty, debugLimit) * TimerInterval(seconds, Clean)
         == (if BaseLimit(limit, debugLimit) > 0 then 9 else 3)
            * StepLimit(limit, action, Clean, debugLimit) * TimerInterval(seconds, Dirty)
  {
    var b := BaseLimit(limit, debugLimit);
    if b > 0 {
      calc {
        StepLimit(limit, action, Dirty, debugLimit) * TimerInterval(seconds, Clean);
        (3 * b) * (3 * seconds);
        { assert (3 * b) * (3 * seconds) == 9 * (b * seconds); }
        9 * b * seconds;
      }
    } else {
      assert b * (3 * seconds) == 3 * b * seconds;
    }
  }

  // ---------------------------------------------------------------------------
  // Timer

  /** The interval preference accepts only positive values. */
  function IntervalPref(v: int): (r: int)
    ensures r > 0
    ensures v > 0 ==> r == v
    ensures v <= 0 ==> r == DefaultIntervalSeconds
  {
    if v > 0 then v else DefaultIntervalSeconds
  }

  /** Seconds between two timed steps: stretched unless history is dirty. */
  function TimerInterval(seconds: int, status: Status): (r: int)
    requires seconds > 0
    ensures r >= seconds > 0
    ensures r == seconds <==> status == Dirty
    ensures status != Dirty ==> r == seconds * ExpireAggressivityMultiplier
  {
    if status != Dirty then seconds * ExpireAggressivityMultiplier else seconds
  }

  /** The action and limit chosen on each timer tick from the page count and the pages limit. */
  function TimedRequest(pagesCount: int, pagesLimit: int): (r: Request)
    ensures r.action == TimedOverlimit <==> pagesCount > pagesLimit
    ensures r.action == Timed <==> pagesCount <= pagesLimit
    ensures r.limit == Large <==> pagesCount - pagesLimit > OverlimitPagesThreshold
    ensures r.limit == Small <==> pagesCount - pagesLimit <= OverlimitPagesThreshold
  {
    var overLimitPages := pagesCount - pagesLimit;
    var action := if overLimitPages > 0 then TimedOverlimit else Timed;
    var limit := if overLimitPages > OverlimitPagesThreshold then Large else Small;
    Request(action, limit)
  }

  /** A large timed step only happens over the limit, and a step under the limit never looks for visits. */
  lemma TimedRequestConsistent(pagesCount: int, pagesLimit: int, interactionsEnabled: bool)
    ensures TimedRequest(pagesCount, pagesLimit).limit == Large ==>
            TimedRequest(pagesCount, pagesLimit).action == TimedOverlimit
    ensures FindVisitsToExpire in Selected(Queries, TimedRequest(pagesCount, pagesLimit).action, interactionsEnabled)
        <==> pagesCount > pagesLimit
  {
    VisitsSearchedExactly(TimedRequest(pagesCount, pagesLimit).action, interactionsEnabled);
  }

  // ---------------------------------------------------------------------------
  // The debug request: parseInt of the topic data, then the choice of limit

  /** What the debug topic starts: the new `_debugLimit` (if any) and the limit to expire with. */
  datatype DebugStart = DebugStart(newDebugLimit: Option<int>, limit: Limit)

  /** -1 expires without limit; a positive value becomes the debug limit; anything else (NaN included) a debug limit of -1. */
  function DebugRequest(parsed: Option<int>): (r: DebugStart)
    ensures r.limit == Unlimited <==> parsed == Some(-1)
    ensures r.limit == Unlimited ==> r.newDebugLimit.None?
    ensures r.limit != Unlimited ==> r.limit == Limit.Debug && r.newDebugLimit.Some?
    ensures r.newDebugLimit.Some? ==> r.newDebugLimit.value > 0 || r.newDebugLimit.value == -1
    ensures parsed.Some? && parsed.value > 0 ==> r.newDebugLimit == parsed
    ensures parsed != Some(-1) && !(parsed.Some? && parsed.value > 0) ==> r == DebugStart(Some(-1), Limit.Debug)
  {
    if parsed == Some(-1) then DebugStart(None, Unlimited)
    else if parsed.Some? && parsed.value > 0 then DebugStart(parsed, Limit.Debug)
    else DebugStart(Some(-1), Limit.Debug)
  }

  /** The limit on visits the debug topic ends up binding, from the topic's text. */
  lemma DebugTopicVisitLimit(n: nat, status: Status, pagesLimit: int, expireDays: int)
    ensures var r := DebugRequest(ParseInt(Decimal(n)));
            QueryParamsFor(FindVisitsToExpire, r.limit, Action.Debug, status, r.newDebugLimit, pagesLimit, expireDays)
              == Some(VisitsParams(pagesLimit, n))
  {
    ParseIntDecimal(n);
  }

  /** The debug topic with data "-1" expires without any limit on visits. */
  lemma DebugTopicUnlimited(status: Status, pagesLimit: int, expireDays: int)
    ensures var r := DebugRequest(ParseInt("-1"));
            r.limit == Unlimited &&
            QueryParamsFor(FindVisitsToExpire, r.limit, Action.Debug, status, r.newDebugLimit, pagesLimit, expireDays)
              == Some(VisitsParams(pagesLimit, -1))
  {
    ParseIntMinusOne();
  }

  // ---------------------------------------------------------------------------
  // The pages limit

  /** The row measured by getPagesLimit, or the failure to get a connection or a row. */
  datatype DbProbe =
    | Unavailable
    | Stats(pageSize: nat, pageCount: nat, freelistCount: nat, uriCount: nat)

  /** A measured database has at least one page in use (page 1 holds the header). */
  predicate ProbeWellFormed(db: DbProbe)
  {
    db.Stats? ==> db.pageSize > 0 && db.pageCount > db.freelistCount
  }

  /** Math.ceil(a / b) for a positive divisor. */
  function CeilDiv(a: int, b: int): (r: int)
    requires b > 0
    ensures r * b >= a
    ensures (r - 1) * b < a
  {
    var q := (a + b - 1) / b;
    assert a + b - 1 == q * b + (a + b - 1) % b;
    q
  }

  /** The average URI size: Infinity (no URIs) or anything over three times the default falls back to the default. */
  function AvgUriSize(dbSize: int, uriCount: nat): (r: int)
    requires dbSize > 0
    ensures 1 <= r <= 3 * UriEntryAvgSize
    ensures uriCount > 0 && CeilDiv(dbSize, uriCount) <= 3 * UriEntryAvgSize ==> r == CeilDiv(dbSize, uriCount)
    ensures uriCount == 0 || CeilDiv(dbSize, uriCount) > 3 * UriEntryAvgSize ==> r == UriEntryAvgSize
  {
    if uriCount == 0 then UriEntryAvgSize
    else
      var avg := CeilDiv(dbSize, uriCount);
      if avg > 3 * UriEntryAvgSize then UriEntryAvgSize else avg
  }

  /** Pages of the average size that fill the optimal database size, rounded up. */
  function MeasuredPagesLimit(db: DbProbe): (r: int)
    requires db.Stats? && ProbeWellFormed(db)
    ensures var avg := AvgUriSize((db.pageCount - db.freelistCount) * db.pageSize, db.uriCount);
            r * avg >= DatabaseMaxSize && (r - 1) * avg < DatabaseMaxSize
    ensures 37450 <= r <= DatabaseMaxSize
  {
    var dbSize := (db.pageCount - db.freelistCount) * db.pageSize;
    assert dbSize >= 1 by {
      assert db.pageCount - db.freelistCount >= 1 && db.pageSize >= 1;
    }
    var avg := AvgUriSize(dbSize, db.uriCount);
    var r := CeilDiv(DatabaseMaxSize, avg);
    CeilDivBounds(DatabaseMaxSize, avg, r);
    r
  }

  lemma CeilDivBounds(a: int, avg: int, r: int)
    requires a == DatabaseMaxSize && 1 <= avg <= 2100
    requires r * avg >= a && (r - 1) * avg < a
    ensures 37450 <= r <= a
  {
    if r < 37450 {
      MulLe(r, 37449, avg);
      assert false;
    }
    if r > a {
      MulLe(1, avg, a);
      MulLe(a, r - 1, avg);
      assert false;
    }
  }

  lemma MulLe(x: int, y: int, k: int)
    requires x <= y && k >= 0
    ensures x * k <= y * k
  {
  }

  /**
   * The value getPagesLimit resolves to: the cached value if any, else the
   * max_pages preference if non-negative, else the measured limit, else the
   * fallback when the database cannot be measured.
   */
  function PagesLimit(cached: Option<int>, maxPages: int, db: DbProbe): (r: int)
    requires ProbeWellFormed(db)
    ensures cached.Some? ==> r == cached.value
    ensures cached.None? && maxPages >= 0 ==> r == maxPages
    ensures cached.None? && maxPages < 0 && db.Unavailable? ==> r == FallbackPagesLimit
    ensures cached.None? && maxPages < 0 && db.Stats? ==> r == MeasuredPagesLimit(db)
  {
    if cached.Some? then cached.value
    else if maxPages >= 0 then maxPages
    else if db.Stats? then MeasuredPagesLimit(db)
    else FallbackPagesLimit
  }
  /** A measured or fallback limit is never below the one a database of the largest average entry size gives. */
  lemma PagesLimitLowerBound(maxPages: int, db: DbProbe)
    requires ProbeWellFormed(db) && maxPages < 0
    ensures PagesLimit(None, maxPages, db) >= 37450
  {
  }


  // ---------------------------------------------------------------------------
  // The expected-results countdown

  /** One row's effect on `_expectedResultsCount` (None while the property is absent). */
  function CountRow(count: Option<int>, expected: int): (r: Option<int>)
    ensures expected <= 0 ==> r == count
    ensures expected > 0 && count.None? ==> r == Some(expected - 1)
    ensures expected > 0 && count.Some? ==> r == Some(if count.value > 0 then count.value - 1 else count.value)
  {
    if expected > 0 then
      var c := if count.None? then expected else count.value;
      Some(if c > 0 then c - 1 else c)
    else count
  }

  /** The countdown over the expected_results column of the rows of one run, in order. */
  function CountRows(count: Option<int>, expected: seq<int>): (r: Option<int>)
    ensures count.Some? ==> r.Some?
    ensures count.Some? && count.value >= 0 ==> 0 <= r.value <= count.value
    decreases |expected|
  {
    if expected == [] then count
    else CountRows(CountRow(count, expected[0]), expected[1..])
  }

  /** Counting one more row continues the countdown where the earlier rows left it. */
  lemma {:induction false} CountRowsSnoc(count: Option<int>, xs: seq<int>, x: int)
    ensures CountRows(count, xs + [x]) == CountRow(CountRows(count, xs), x)
    decreases |xs|
  {
    if xs != [] {
      assert (xs + [x])[1..] == xs[1..] + [x];
      CountRowsSnoc(CountRow(count, xs[0]), xs[1..], x);
    }
  }

  /** Counting over two runs of rows in a row is counting over their concatenation. */
  lemma {:induction false} CountRowsConcat(count: Option<int>, xs: seq<int>, ys: seq<int>)
    ensures CountRows(count, xs + ys) == CountRows(CountRows(count, xs), ys)
    decreases |xs|
  {
    if xs != [] {
      assert (xs + ys)[0] == xs[0];
      assert (xs + ys)[1..] == xs[1..] + ys;
      CountRowsConcat(CountRow(count, xs[0]), xs[1..], ys);
    } else {
      assert xs + ys == ys;
    }
  }

  /** Number of rows with a positive expected_results. */
  function Positives(xs: seq<int>): nat
  {
    if xs == [] then 0 else (if xs[0] > 0 then 1 else 0) + Positives(xs[1..])
  }

  /** The first positive expected_results, which initialises the countdown. */
  function FirstPositive(xs: seq<int>): int
    requires Positives(xs) > 0
  {
    if xs[0] > 0 then xs[0] else FirstPositive(xs[1..])
  }

  function Max0(x: int): nat
  {
    if x > 0 then x else 0
  }

  /** A running countdown drops by one per positive row and stops at zero. */
  lemma {:induction false} CountdownFrom(c: nat, xs: seq<int>)
    ensures CountRows(Some(c), xs) == Some(Max0(c - Positives(xs)))
  {
    if xs != [] {
      var next := CountRow(Some(c), xs[0]);
      var c' := if xs[0] > 0 then Max0(c - 1) else c;
      assert next == Some(c');
      CountdownFrom(c', xs[1..]);
    }
  }

  /** From an absent counter: absent iff no row expects anything, else the first expectation minus the positive rows. */
  lemma {:induction false} CountdownFresh(xs: seq<int>)
    ensures CountRows(None, xs).None? <==> Positives(xs) == 0
    ensures Positives(xs) > 0 ==> CountRows(None, xs) == Some(Max0(FirstPositive(xs) - Positives(xs)))
  {
    if xs != [] {
      if xs[0] > 0 {
        CountdownFrom(xs[0] - 1, xs[1..]);
      } else {
        CountdownFresh(xs[1..]);
      }
    }
  }

  /** Status after a run that saw expectations: DIRTY when the countdown reached zero. */
  function StatusAfterRun(count: int): (s: Status)
    ensures s != Unknown
    ensures s == Dirty <==> count == 0
  {
    if count == 0 then Dirty else Clean
  }

  /** A run that started without a counter ends DIRTY iff it found every visit the first row expected. */
  lemma DirtyIffAllExpectedFound(xs: seq<int>)
    requires Positives(xs) > 0
    ensures CountRows(None, xs).Some?
    ensures StatusAfterRun(CountRows(None, xs).value) == Dirty <==> Positives(xs) >= FirstPositive(xs)
  {
    CountdownFresh(xs);
  }

  /** Steps needed to reach a CLEAN status: counted up while dirty, reset to one otherwise. */
  function NextTelemetrySteps(steps: int, newStatus: Status): (r: int)
    ensures newStatus == Dirty ==> r == steps + 1
    ensures newStatus != Dirty ==> r == 1
  {
    if newStatus == Dirty then steps + 1 else 1
  }

  // ---------------------------------------------------------------------------
  // Notifications

  /** The columns of a notification row that the model keeps. */
  datatype Row = Row(expectedResults: int, url: string, guid: string, visitDate: int, wholeEntry: int)

  /** A PlacesVisitRemoved notification. */
  datatype VisitRemoved = VisitRemoved(url: string, pageGuid: string, isRemovedFromStore: bool, isPartialVisitsRemoval: bool)

  /** The notification built for one row: a whole page removed, or some of its visits. */
  function Notification(row: Row): (n: VisitRemoved)
    ensures n.url == row.url && n.pageGuid == row.guid
    ensures n.isRemovedFromStore <==> row.wholeEntry != 0
    ensures n.isPartialVisitsRemoval <==> row.wholeEntry == 0 && row.visitDate > 0
    ensures !(n.isRemovedFromStore && n.isPartialVisitsRemoval)
  {
    var isRemovedFromStore := row.wholeEntry != 0;
    VisitRemoved(row.url, row.guid, isRemovedFromStore, !isRemovedFromStore && row.visitDate > 0)
  }

  /** The expected_results column of a sequence of rows. */
  function ExpectedColumn(rows: seq<Row>): (xs: seq<int>)
    ensures |xs| == |rows|
    ensures forall i :: 0 <= i < |rows| ==> xs[i] == rows[i].expectedResults
  {
    if rows == [] then [] else [rows[0].expectedResults] + ExpectedColumn(rows[1..])
  }

  /** Notifications for a sequence of rows. */
  function Notifications(rows: seq<Row>): (ns: seq<VisitRemoved>)
    ensures |ns| == |rows|
    ensures forall i :: 0 <= i < |rows| ==> ns[i] == Notification(rows[i])
  {
    if rows == [] then [] else [Notification(rows[0])] + Notifications(rows[1..])
  }
}
