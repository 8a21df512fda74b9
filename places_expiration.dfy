/**
 * The history expiration component of Places
 * (toolkit/components/places/PlacesExpiration.sys.mjs) as an object whose
 * fields its setters, observers and expiration runs update in place.
 *
 * The database is not modelled: what a run reads from it (the rows each
 * query returns, the page statistics) is passed in, and whatever the
 * component hands to other components (notifications, observer topics,
 * telemetry samples) is recorded in sequence fields.
 */
module PlacesExpiration {
  import opened Wrappers
  import opened ExpirationQueries
  import opened JsParseInt
  import opened ExpirationPolicy

  /** The repeating expiration timer: its period in seconds, and whether it was cancelled. */
  datatype Timer = Timer(intervalSeconds: int, cancelled: bool)

  /** The observer topics the component reacts to (anything else is ignored). */
  datatype Topic =
    | DebugStartTopic(data: string)
    | IdleBeginTopic
    | IdleEndTopic
    | IdleDailyTopic
    | TestingModeTopic
    | InitCompleteTopic
    | OtherTopic

  /** One query an expiration run executed, with the parameters bound into its SQL. */
  datatype Execution = Execution(query: Query, params: Option<QueryParams>)

  /** The bookkeeping the end of a run updates, as it stood before the run. */
  datatype Bookkeeping = Bookkeeping(status: Status, timer: Option<Timer>, isIdleObserver: bool, expireOnIdle: bool,
                                     intervalChanges: seq<int>, telemetrySteps: int, stepsToClean: seq<int>,
                                     notified: seq<seq<VisitRemoved>>, finishedRuns: nat)

  /** The rows the queries return, query after query. */
  function AllRows(qs: seq<Query>, rowsOf: Query -> seq<Row>): seq<Row>
  {
    if qs == [] then [] else AllRows(qs[..|qs| - 1], rowsOf) + rowsOf(qs[|qs| - 1])
  }

  /** The queries `qs` paired with the parameters a run binds into each of them. */
  function Plan(qs: seq<Query>, limit: Limit, action: Action, status: Status, debugLimit: Option<int>,
                pagesLimit: int, expireDays: int): seq<Execution>
    requires limit == Limit.Debug ==> debugLimit.Some?
  {
    if qs == [] then []
    else
      var last := qs[|qs| - 1];
      Plan(qs[..|qs| - 1], limit, action, status, debugLimit, pagesLimit, expireDays)
        + [Execution(last, QueryParamsFor(last, limit, action, status, debugLimit, pagesLimit, expireDays))]
  }

  /** The countdown after a run's rows: untouched once shutdown began. */
  function CountAfter(shuttingDown: bool, count0: Option<int>, rows: seq<Row>): Option<int>
  {
    if shuttingDown then count0 else CountRows(count0, ExpectedColumn(rows))
  }

  /** The notifications a run's rows produce: none once shutdown began. */
  function BatchAfter(shuttingDown: bool, rows: seq<Row>): seq<VisitRemoved>
  {
    if shuttingDown then [] else Notifications(rows)
  }

  class Expiration {
    var shuttingDown: bool
    var status: Status
    var isIdleObserver: bool
    var expireOnIdle: bool
    /** Set by a debug expiration; once set it is never cleared. */
    var debugLimit: Option<int>
    var testingMode: bool
    var timer: Option<Timer>
    /** The interval preference, after its transform to a positive value. */
    var intervalSeconds: int
    /** The max_pages preference (negative: measure the database). */
    var maxPages: int
    /** The cached pages limit; cleared when max_pages changes. */
    var pagesLimit: Option<int>
    /** The countdown of expected visits; present only while a run counts them. */
    var expectedResultsCount: Option<int>
    var telemetrySteps: int
    var historyClearedListener: bool
    /** Intervals announced on the test topic, in testing mode. */
    var intervalChanges: seq<int>
    /** Samples of the steps it took to get back to CLEAN. */
    var stepsToClean: seq<int>
    /** Batches of visit-removed notifications handed to the listeners. */
    var notified: seq<seq<VisitRemoved>>
    /** Number of expiration-finished notifications. */
    var finishedRuns: nat

    /** The preference, telemetry and debug fields hold values the component can produce. */
    ghost predicate Coherent()
      reads this
    {
      && intervalSeconds > 0
      && telemetrySteps >= 1
      && (debugLimit.Some? ==> debugLimit.value > 0 || debugLimit.value == -1)
    }

    /**
     * A live (not cancelled) timer exists only before shutdown, while idle
     * is observed, and ticks at the interval the current status asks for.
     */
    ghost predicate Valid()
      reads this
    {
      && Coherent()
      && (timer.Some? && !timer.value.cancelled ==>
            && !shuttingDown
            && isIdleObserver
            && timer.value.intervalSeconds == TimerInterval(intervalSeconds, status))
    }

    /** The state the field initialisers and preference defaults give. */
    constructor(maxPagesPref: int, intervalPref: int)
      ensures Valid()
      ensures !shuttingDown && status == Unknown && !isIdleObserver && !expireOnIdle
      ensures debugLimit.None? && !testingMode && timer.None?
      ensures intervalSeconds == IntervalPref(intervalPref) && maxPages == maxPagesPref
      ensures pagesLimit.None? && expectedResultsCount.None? && telemetrySteps == 1
      ensures !historyClearedListener
      ensures intervalChanges == [] && stepsToClean == [] && notified == [] && finishedRuns == 0
    {
      shuttingDown := false;
      status := Unknown;
      isIdleObserver := false;
      expireOnIdle := false;
      debugLimit := None;
      testingMode := false;
      timer := None;
      intervalSeconds := IntervalPref(intervalPref);
      maxPages := maxPagesPref;
      pagesLimit := None;
      expectedResultsCount := None;
      telemetrySteps := 1;
      historyClearedListener := false;
      intervalChanges := [];
      stepsToClean := [];
      notified := [];
      finishedRuns := 0;
    }

    /**
     * Cancels the current timer and, unless shutting down, starts a new one
     * at the interval the status asks for, observing idle first.
     */
    method NewTimer()
      requires Coherent()
      modifies this`timer, this`isIdleObserver, this`intervalChanges
      ensures Valid()
      ensures old(shuttingDown) ==>
                && timer == (if old(timer).Some? then Some(old(timer).value.(cancelled := true)) else None)
                && isIdleObserver == old(isIdleObserver) && intervalChanges == old(intervalChanges)
      ensures !old(shuttingDown) ==>
                && timer == Some(Timer(TimerInterval(intervalSeconds, status), false))
                && isIdleObserver
                && intervalChanges == old(intervalChanges) + (if testingMode then [timer.value.intervalSeconds] else [])
    {
      if timer.Some? {
        timer := Some(timer.value.(cancelled := true));
      }
      if shuttingDown {
        return;
      }
      if !isIdleObserver {
        isIdleObserver := true;
      }
      var interval := TimerInterval(intervalSeconds, status);
      timer := Some(Timer(interval, false));
      if testingMode {
        intervalChanges := intervalChanges + [interval];
      }
    }

    /**
     * The expireOnIdle setter: idle is observed before shutdown and not
     * after it, and once a debug expiration has run, idle expiration stays off.
     */
    method SetExpireOnIdle(value: bool)
      modifies this`isIdleObserver, this`expireOnIdle
      ensures isIdleObserver == !shuttingDown
      ensures expireOnIdle == (debugLimit.None? && value)
    {
      if !isIdleObserver && !shuttingDown {
        isIdleObserver := true;
      } else if isIdleObserver && shuttingDown {
        isIdleObserver := false;
      }
      if debugLimit.Some? {
        expireOnIdle := false;
      } else {
        expireOnIdle := value;
      }
    }

    /**
     * The timer and idle fields after the status went from `b0.status` to
     * `status` through the status setter: untouched when it did not change;
     * otherwise the old timer is cancelled and, unless shutting down, a new
     * one ticks at the new status's interval (announced in testing mode),
     * idle is observed exactly before shutdown, and idle expiration is on
     * exactly when history became DIRTY and no debug limit was set.
     */
    ghost predicate StatusApplied(b0: Bookkeeping)
      reads this
    {
      Coherent() &&
      if status == b0.status then
        && timer == b0.timer && isIdleObserver == b0.isIdleObserver
        && expireOnIdle == b0.expireOnIdle && intervalChanges == b0.intervalChanges
      else
        && timer == (if !shuttingDown then Some(Timer(TimerInterval(intervalSeconds, status), false))
                     else if b0.timer.Some? then Some(b0.timer.value.(cancelled := true))
                     else None)
        && isIdleObserver == !shuttingDown
        && expireOnIdle == (status == Dirty && debugLimit.None?)
        && intervalChanges == b0.intervalChanges
             + (if !shuttingDown && testingMode then [TimerInterval(intervalSeconds, status)] else [])
    }

    /**
     * The status setter: a change renews the timer for the new status and
     * turns idle expiration on exactly when the status becomes DIRTY.
     */
    method SetStatus(newStatus: Status)
      requires Valid()
      modifies this`status, this`timer, this`isIdleObserver, this`expireOnIdle, this`intervalChanges
      ensures Valid()
      ensures status == newStatus
      ensures StatusApplied(old(Books()))
    {
      if newStatus != status {
        status := newStatus;
        NewTimer();
        SetExpireOnIdle(newStatus == Dirty);
      }
    }

    /** The interval preference changed: the timer is renewed with the new period. */
    method SetIntervalPref(v: int)
      requires Valid()
      modifies this`intervalSeconds, this`timer, this`isIdleObserver, this`intervalChanges
      ensures Valid()
      ensures intervalSeconds == IntervalPref(v)
      ensures !shuttingDown ==>
                && timer == Some(Timer(TimerInterval(IntervalPref(v), status), false))
                && isIdleObserver
                && intervalChanges == old(intervalChanges)
                     + (if testingMode then [TimerInterval(IntervalPref(v), status)] else [])
      ensures shuttingDown ==>
                && timer == (if old(timer).Some? then Some(old(timer).value.(cancelled := true)) else None)
                && isIdleObserver == old(isIdleObserver) && intervalChanges == old(intervalChanges)
    {
      intervalSeconds := IntervalPref(v);
      NewTimer();
    }

    /** The max_pages preference changed: the cached limit is dropped. */
    method SetMaxPagesPref(v: int)
      modifies this`maxPages, this`pagesLimit
      ensures maxPages == v && pagesLimit.None?
    {
      maxPages := v;
      pagesLimit := None;
    }

    /** The database finished its setup: the timer starts. */
    method OnDatabaseInitialized()
      requires Valid()
      modifies this`timer, this`isIdleObserver, this`intervalChanges
      ensures Valid()
      ensures !shuttingDown ==>
                && timer == Some(Timer(TimerInterval(intervalSeconds, status), false))
                && isIdleObserver
                && intervalChanges == old(intervalChanges)
                     + (if testingMode then [TimerInterval(intervalSeconds, status)] else [])
      ensures shuttingDown ==>
                && timer == (if old(timer).Some? then Some(old(timer).value.(cancelled := true)) else None)
                && isIdleObserver == old(isIdleObserver) && intervalChanges == old(intervalChanges)
    {
      NewTimer();
    }

    /** The pages limit, computed once and cached until max_pages changes. */
    method GetPagesLimit(db: DbProbe) returns (r: int)
      requires ProbeWellFormed(db)
      modifies this`pagesLimit
      ensures r == PagesLimit(old(pagesLimit), maxPages, db)
      ensures pagesLimit == Some(r)
    {
      if pagesLimit.Some? {
        return pagesLimit.value;
      }
      if maxPages >= 0 {
        r := maxPages;
      } else if db.Stats? {
        r := MeasuredPagesLimit(db);
      } else {
        r := FallbackPagesLimit;
      }
      pagesLimit := Some(r);
    }

    /**
     * A timer tick: compares the page count with the pages limit and picks
     * the expiration to run.
     */
    method Notify(pagesCount: int, db: DbProbe) returns (req: Request)
      requires ProbeWellFormed(db)
      modifies this`pagesLimit
      ensures req == TimedRequest(pagesCount, PagesLimit(old(pagesLimit), maxPages, db))
      ensures pagesLimit == Some(PagesLimit(old(pagesLimit), maxPages, db))
    {
      var limit := GetPagesLimit(db);
      req := TimedRequest(pagesCount, limit);
    }

    /**
     * Reacts to an observer topic; returns the expiration it starts, if any.
     * Nothing happens once shutdown began.
     */
    method Observe(topic: Topic) returns (req: Option<Request>)
      requires Valid()
      modifies this`debugLimit, this`timer, this`isIdleObserver, this`intervalChanges, this`testingMode,
               this`historyClearedListener
      ensures Valid()
      ensures old(shuttingDown) ==> req.None? && unchanged(this)
      ensures !old(shuttingDown) && topic.DebugStartTopic? ==>
                var d := DebugRequest(ParseInt(topic.data));
                && req == Some(Request(Action.Debug, d.limit))
                && debugLimit == (if d.newDebugLimit.Some? then d.newDebugLimit else old(debugLimit))
      ensures !old(shuttingDown) && topic == IdleBeginTopic ==>
                && timer.None?
                && req == (if expireOnIdle then Some(Request(IdleDirty, Large)) else None)
                && isIdleObserver == old(isIdleObserver) && intervalChanges == old(intervalChanges)
      ensures !old(shuttingDown) && topic == IdleEndTopic ==>
                && req.None?
                && (old(timer).Some? ==>
                      timer == old(timer) && isIdleObserver == old(isIdleObserver)
                      && intervalChanges == old(intervalChanges))
                && (old(timer).None? ==>
                      && timer == Some(Timer(TimerInterval(intervalSeconds, status), false))
                      && isIdleObserver
                      && intervalChanges == old(intervalChanges)
                           + (if testingMode then [TimerInterval(intervalSeconds, status)] else []))
      ensures topic != IdleBeginTopic && topic != IdleEndTopic ==>
                timer == old(timer) && isIdleObserver == old(isIdleObserver) && intervalChanges == old(intervalChanges)
      ensures !old(shuttingDown) && topic == IdleDailyTopic ==> req == Some(Request(Action.IdleDaily, Large))
      ensures !old(shuttingDown) && topic == TestingModeTopic ==> req.None? && testingMode
      ensures !old(shuttingDown) && topic == InitCompleteTopic ==> req.None? && historyClearedListener
      ensures !old(shuttingDown) && !topic.DebugStartTopic? ==> debugLimit == old(debugLimit)
      ensures topic != TestingModeTopic ==> testingMode == old(testingMode)
      ensures topic != InitCompleteTopic ==> historyClearedListener == old(historyClearedListener)
    {
      req := None;
      if shuttingDown {
        return;
      }
      match topic
      case DebugStartTopic(data) =>
        var r := StartDebug(data);
        req := Some(r);
      case IdleBeginTopic =>
        req := OnIdleBegin();
      case IdleEndTopic =>
        OnIdleEnd();
      case IdleDailyTopic =>
        req := Some(Request(Action.IdleDaily, Large));
      case TestingModeTopic =>
        testingMode := true;
      case InitCompleteTopic =>
        historyClearedListener := true;
      case OtherTopic =>
    }

    /** Idle begins: the timer is stopped, and a DIRTY history with idle expiration on gets a large step. */
    method OnIdleBegin() returns (req: Option<Request>)
      requires Valid()
      modifies this`timer
      ensures Valid()
      ensures timer.None?
      ensures req == (if expireOnIdle then Some(Request(IdleDirty, Large)) else None)
    {
      req := None;
      if timer.Some? {
        timer := None;
      }
      if expireOnIdle {
        req := Some(Request(IdleDirty, Large));
      }
    }

    /** Idle ends: a stopped timer is restarted. */
    method OnIdleEnd()
      requires Valid()
      modifies this`timer, this`isIdleObserver, this`intervalChanges
      ensures Valid()
      ensures old(timer).Some? ==>
                timer == old(timer) && isIdleObserver == old(isIdleObserver) && intervalChanges == old(intervalChanges)
      ensures old(timer).None? && !shuttingDown ==>
                && timer == Some(Timer(TimerInterval(intervalSeconds, status), false))
                && isIdleObserver
                && intervalChanges == old(intervalChanges)
                     + (if testingMode then [TimerInterval(intervalSeconds, status)] else [])
    {
      if timer.None? {
        NewTimer();
      }
    }

    /**
     * The debug topic: its data, read by parseInt, picks the limit, and a
     * positive value or one that is neither -1 nor positive sets the debug limit.
     */
    method StartDebug(data: string) returns (req: Request)
      requires Coherent()
      modifies this`debugLimit
      ensures Coherent()
      ensures var d := DebugRequest(ParseInt(data));
              && req == Request(Action.Debug, d.limit)
              && debugLimit == (if d.newDebugLimit.Some? then d.newDebugLimit else old(debugLimit))
    {
      var d := DebugRequest(ParseInt(data));
      if d.newDebugLimit.Some? {
        debugLimit := d.newDebugLimit;
      }
      req := Request(Action.Debug, d.limit);
    }

    /** The history-cleared listener: history is CLEAN after a clear. */
    method OnHistoryCleared()
      requires Valid() && historyClearedListener
      modifies this`status, this`timer, this`isIdleObserver, this`expireOnIdle, this`intervalChanges
      ensures Valid()
      ensures status == Clean
      ensures StatusApplied(old(Books()))
      ensures old(status) != Clean ==> !expireOnIdle
    {
      SetStatus(Clean);
    }

    /**
     * The shutdown blocker, which runs once: idle is no longer observed,
     * the timer is dropped, and a DIRTY history gets one more large step.
     */
    method Shutdown() returns (req: Option<Request>)
      requires Valid()
      modifies this`shuttingDown, this`isIdleObserver, this`expireOnIdle, this`timer
      ensures Valid()
      ensures old(shuttingDown) ==> req.None? && unchanged(this)
      ensures !old(shuttingDown) ==>
                && shuttingDown && !isIdleObserver && !expireOnIdle && timer.None?
                && req == (if status == Dirty then Some(Request(ShutdownDirty, Large)) else None)
    {
      req := None;
      if shuttingDown {
        return;
      }
      shuttingDown := true;
      SetExpireOnIdle(false);
      if timer.Some? {
        timer := None;
      }
      if status == Dirty {
        req := Some(Request(ShutdownDirty, Large));
      }
    }

    /**
     * One row of a query's result: counts it down and queues its
     * notification, unless shutting down.
     */
    method HandleRow(row: Row, notifications: seq<VisitRemoved>) returns (ns: seq<VisitRemoved>)
      modifies this`expectedResultsCount
      ensures shuttingDown ==> ns == notifications && expectedResultsCount == old(expectedResultsCount)
      ensures !shuttingDown ==>
                && ns == notifications + [Notification(row)]
                && expectedResultsCount == CountRow(old(expectedResultsCount), row.expectedResults)
    {
      if shuttingDown {
        return notifications;
      }
      expectedResultsCount := CountRow(expectedResultsCount, row.expectedResults);
      ns := notifications + [Notification(row)];
    }

    /**
     * The pages limit cache during a run that started with `cached0`: still
     * as it was, or holding `pages`; a limit already cached is kept.
     */
    ghost predicate PagesCached(cached0: Option<int>, pages: int)
      reads this
    {
      && (pagesLimit == cached0 || pagesLimit == Some(pages))
      && (cached0.Some? ==> pagesLimit == cached0)
    }

    /**
     * The parameters bound into one query of a run. Only the visits query
     * reads the pages limit, computing and caching it on first use; `cached0`
     * is the cache when the run began and `pages` the limit it stands for.
     */
    method GetQueryParams(q: Query, limit: Limit, action: Action, db: DbProbe, expireDays: int,
                          ghost cached0: Option<int>, ghost pages: int)
      returns (params: Option<QueryParams>)
      requires ProbeWellFormed(db) && (limit == Limit.Debug ==> debugLimit.Some?)
      requires pages == PagesLimit(cached0, maxPages, db)
      requires PagesCached(cached0, pages)
      modifies this`pagesLimit
      ensures params == QueryParamsFor(q, limit, action, status, debugLimit, pages, expireDays)
      ensures q == FindVisitsToExpire ==> pagesLimit == Some(pages)
      ensures q != FindVisitsToExpire ==> pagesLimit == old(pagesLimit)
      ensures PagesCached(cached0, pages)
    {
      var p := 0;
      if q == FindVisitsToExpire {
        p := GetPagesLimit(db);
      } else {
        OnlyVisitsQueryReadsPagesLimit(q, limit, action, status, debugLimit, p, pages, expireDays);
      }
      params := QueryParamsFor(q, limit, action, status, debugLimit, p, expireDays);
    }

    /** The rows of one more query of a run, handled in order after those of the earlier queries `sel`. */
    method HandleQueryRows(q: Query, rowsOf: Query -> seq<Row>, notifications: seq<VisitRemoved>,
                           ghost sel: seq<Query>, ghost count0: Option<int>)
      returns (ns: seq<VisitRemoved>)
      requires Accounted(count0, AllRows(sel, rowsOf), notifications)
      modifies this`expectedResultsCount
      ensures Accounted(count0, AllRows(sel + [q], rowsOf), ns)
    {
      ns := HandleRows(rowsOf(q), notifications);
      NextQuery(count0, sel, q, rowsOf);
    }

    /** The rows one query returns, in order: each is counted down and turned into a notification. */
    method HandleRows(rows: seq<Row>, notifications: seq<VisitRemoved>) returns (ns: seq<VisitRemoved>)
      modifies this`expectedResultsCount
      ensures shuttingDown ==> ns == notifications && expectedResultsCount == old(expectedResultsCount)
      ensures !shuttingDown ==>
                && ns == notifications + Notifications(rows)
                && expectedResultsCount == CountRows(old(expectedResultsCount), ExpectedColumn(rows))
    {
      ns := notifications;
      var j := 0;
      while j < |rows|
        invariant 0 <= j <= |rows|
        invariant shuttingDown ==> ns == notifications && expectedResultsCount == old(expectedResultsCount)
        invariant !shuttingDown ==>
                    && ns == notifications + Notifications(rows[..j])
                    && expectedResultsCount == CountRows(old(expectedResultsCount), ExpectedColumn(rows[..j]))
      {
        assert rows[..j + 1] == rows[..j] + [rows[j]];
        ExpectedColumnSnoc(rows[..j], rows[j]);
        NotificationsSnoc(rows[..j], rows[j]);
        CountRowsSnoc(old(expectedResultsCount), ExpectedColumn(rows[..j]), rows[j].expectedResults);
        ns := HandleRow(rows[j], ns);
        j := j + 1;
      }
      assert rows[..|rows|] == rows;
    }

    ghost function Books(): Bookkeeping
      reads this
    {
      Bookkeeping(status, timer, isIdleObserver, expireOnIdle, intervalChanges, telemetrySteps, stepsToClean,
                  notified, finishedRuns)
    }

    /**
     * The state after the end of a run that started from `books0`, counted
     * `count` and removed the visits in `batch`: the batch is notified, the
     * countdown dropped, and a countdown that was kept decides the status and
     * the telemetry steps; a status change re-arms the timer and the idle
     * preference.
     */
    ghost predicate Finished(books0: Bookkeeping, count: Option<int>, batch: seq<VisitRemoved>)
      reads this
    {
      && expectedResultsCount.None?
      && notified == books0.notified + (if batch != [] then [batch] else [])
      && finishedRuns == books0.finishedRuns + 1
      && (count.None? ==>
            status == books0.status && telemetrySteps == books0.telemetrySteps
            && stepsToClean == books0.stepsToClean)
      && (count.Some? ==>
            && status == StatusAfterRun(count.value)
            && telemetrySteps == NextTelemetrySteps(books0.telemetrySteps, status)
            && stepsToClean == books0.stepsToClean
                 + (if status != Dirty && books0.status == Dirty then [books0.telemetrySteps] else []))
      && StatusApplied(books0)
    }

    /**
     * The end of a run that did not fail: the notifications go to the
     * listeners, and a run that counted expectations sets the status from
     * the countdown, updates the telemetry steps and drops the countdown.
     */
    method FinishRun(batch: seq<VisitRemoved>)
      requires Valid()
      modifies this`notified, this`status, this`timer, this`isIdleObserver, this`expireOnIdle,
               this`intervalChanges, this`telemetrySteps, this`stepsToClean, this`expectedResultsCount,
               this`finishedRuns
      ensures Valid()
      ensures Finished(old(Books()), old(expectedResultsCount), batch)
    {
      if batch != [] {
        notified := notified + [batch];
      }
      if expectedResultsCount.Some? {
        SettleStatus(expectedResultsCount.value);
        expectedResultsCount := None;
      }
      finishedRuns := finishedRuns + 1;
    }

    /**
     * A countdown that was kept to the end of a run decides the status; the
     * telemetry steps count the runs spent dirty, and the count is recorded
     * when the status leaves dirty.
     */
    method SettleStatus(count: int)
      requires Valid()
      modifies this`status, this`timer, this`isIdleObserver, this`expireOnIdle, this`intervalChanges,
               this`telemetrySteps, this`stepsToClean
      ensures Valid()
      ensures status == StatusAfterRun(count)
      ensures telemetrySteps == NextTelemetrySteps(old(telemetrySteps), status)
      ensures stepsToClean == old(stepsToClean)
                + (if status != Dirty && old(status) == Dirty then [old(telemetrySteps)] else [])
      ensures StatusApplied(old(Books()))
    {
      var oldStatus := status;
      SetStatus(StatusAfterRun(count));
      if status == Dirty {
        telemetrySteps := telemetrySteps + 1;
      } else {
        if oldStatus == Dirty {
          stepsToClean := stepsToClean + [telemetrySteps];
        }
        telemetrySteps := 1;
      }
    }

    /**
     * One expiration run. `rowsOf` gives the rows each query returns and
     * `failed` says whether the transaction threw: a failed run notifies
     * nothing and leaves status and countdown as the rows left them. After
     * shutdown only the shutdown step runs.
     */
    method Expire(action: Action, limit: Limit, rowsOf: Query -> seq<Row>, interactionsEnabled: bool,
                  expireDays: int, db: DbProbe, failed: bool)
      returns (ran: seq<Execution>)
      requires Valid() && ProbeWellFormed(db) && (limit == Limit.Debug ==> debugLimit.Some?)
      modifies this`pagesLimit, this`notified, this`status, this`timer, this`isIdleObserver, this`expireOnIdle,
                 this`intervalChanges, this`telemetrySteps, this`stepsToClean, this`expectedResultsCount,
                 this`finishedRuns
      ensures Valid()
      ensures old(shuttingDown) && action != ShutdownDirty ==> ran == [] && unchanged(this)
      ensures !(old(shuttingDown) && action != ShutdownDirty) ==>
                RunDone(Queries, action, limit, rowsOf, interactionsEnabled, expireDays, db, failed, ran)
    {
      ran := [];
      if shuttingDown && action != ShutdownDirty {
        return;
      }
      ran := Run(Queries, action, limit, rowsOf, interactionsEnabled, expireDays, db, failed);
    }

    /**
     * The state a run leaves: the queries it executed with their parameters,
     * the pages limit cache, and the countdown, status, telemetry and
     * notifications, which a failed run leaves as its rows left them.
     */
    twostate predicate RunDone(qs: seq<Query>, action: Action, limit: Limit, rowsOf: Query -> seq<Row>,
                               interactionsEnabled: bool, expireDays: int, db: DbProbe, failed: bool,
                               ran: seq<Execution>)
      requires ProbeWellFormed(db) && (limit == Limit.Debug ==> old(debugLimit).Some?)
      reads this
    {
      var rows := AllRows(Selected(qs, action, interactionsEnabled), rowsOf);
      var counted := CountAfter(old(shuttingDown), old(expectedResultsCount), rows);
      var batch := BatchAfter(old(shuttingDown), rows);
      && ran == Plan(Selected(qs, action, interactionsEnabled), limit, action, old(status),
                     old(debugLimit), PagesLimit(old(pagesLimit), old(maxPages), db), expireDays)
      && pagesLimit == (if FindVisitsToExpire in Selected(qs, action, interactionsEnabled)
                        then Some(PagesLimit(old(pagesLimit), old(maxPages), db)) else old(pagesLimit))
      && if failed then expectedResultsCount == counted && Books() == old(Books())
         else Finished(old(Books()), counted, batch)
    }

    /** A run that is not skipped: the transaction, then, unless it failed, the end of the run. */
    method Run(qs: seq<Query>, action: Action, limit: Limit, rowsOf: Query -> seq<Row>, interactionsEnabled: bool,
               expireDays: int, db: DbProbe, failed: bool)
      returns (ran: seq<Execution>)
      requires Valid() && ProbeWellFormed(db) && (limit == Limit.Debug ==> debugLimit.Some?)
      modifies this`pagesLimit, this`notified, this`status, this`timer, this`isIdleObserver, this`expireOnIdle,
               this`intervalChanges, this`telemetrySteps, this`stepsToClean, this`expectedResultsCount,
               this`finishedRuns
      ensures Valid()
      ensures RunDone(qs, action, limit, rowsOf, interactionsEnabled, expireDays, db, failed, ran)
    {
      ghost var books0 := Books();
      var notifications;
      ran, notifications := RunQueries(qs, action, limit, rowsOf, interactionsEnabled, expireDays, db);
      assert Books() == books0;
      if !failed {
        FinishRun(notifications);
      }
    }

    /**
     * The countdown and the notifications account for `rows`, the rows
     * handled so far in a run that started with the countdown `count0`
     * (after shutdown, rows are neither counted nor notified).
     */
    ghost predicate Accounted(count0: Option<int>, rows: seq<Row>, notifications: seq<VisitRemoved>)
      reads this
    {
      expectedResultsCount == CountAfter(shuttingDown, count0, rows)
      && notifications == BatchAfter(shuttingDown, rows)
    }

    /**
     * The transaction of a run over the queries `qs` (the run passes all of
     * them, in declaration order): every query that runs for the action,
     * with its parameters, its rows handled one by one.
     */
    method RunQueries(qs: seq<Query>, action: Action, limit: Limit, rowsOf: Query -> seq<Row>, interactionsEnabled: bool,
                      expireDays: int, db: DbProbe)
      returns (ran: seq<Execution>, notifications: seq<VisitRemoved>)
      requires ProbeWellFormed(db) && (limit == Limit.Debug ==> debugLimit.Some?)
      modifies this`pagesLimit, this`expectedResultsCount
      ensures ran == Plan(Selected(qs, action, interactionsEnabled), limit, action, status, debugLimit,
                          PagesLimit(old(pagesLimit), maxPages, db), expireDays)
      ensures pagesLimit == old(pagesLimit) || pagesLimit == Some(PagesLimit(old(pagesLimit), maxPages, db))
      ensures old(pagesLimit).Some? ==> pagesLimit == old(pagesLimit)
      ensures pagesLimit == (if FindVisitsToExpire in Selected(qs, action, interactionsEnabled)
                             then Some(PagesLimit(old(pagesLimit), maxPages, db)) else old(pagesLimit))
      ensures expectedResultsCount
              == CountAfter(shuttingDown, old(expectedResultsCount), AllRows(Selected(qs, action, interactionsEnabled), rowsOf))
      ensures notifications == BatchAfter(shuttingDown, AllRows(Selected(qs, action, interactionsEnabled), rowsOf))
    {
      ghost var pages := PagesLimit(pagesLimit, maxPages, db);
      ghost var cached0 := pagesLimit;
      ghost var count0 := expectedResultsCount;
      ghost var sel: seq<Query> := [];
      ran := [];
      notifications := [];
      var i := 0;
      while i < |qs|
        invariant 0 <= i <= |qs|
        invariant sel == Selected(qs[..i], action, interactionsEnabled)
        invariant ran == Plan(sel, limit, action, status, debugLimit, pages, expireDays)
        invariant PagesCached(cached0, pages)
        invariant pagesLimit == (if FindVisitsToExpire in sel then Some(pages) else cached0)
        invariant Accounted(count0, AllRows(sel, rowsOf), notifications)
      {
        var q := qs[i];
        SelectedPrefixStep(qs, i, action, interactionsEnabled);
        if Runs(q, action, interactionsEnabled) {
          ran, notifications := RunQuery(q, limit, action, rowsOf, expireDays, db, ran, notifications,
                                         cached0, pages, count0, sel);
          sel := sel + [q];
        }
        i := i + 1;
      }
      assert qs[..|qs|] == qs;
    }

    /**
     * One query of a run, after the queries `sel`: it executes with its
     * parameters, and its rows are handled after those of `sel`.
     */
    method RunQuery(q: Query, limit: Limit, action: Action, rowsOf: Query -> seq<Row>, expireDays: int, db: DbProbe,
                    ran: seq<Execution>, notifications: seq<VisitRemoved>,
                    ghost cached0: Option<int>, ghost pages: int, ghost count0: Option<int>, ghost sel: seq<Query>)
      returns (ran': seq<Execution>, notifications': seq<VisitRemoved>)
      requires ProbeWellFormed(db) && (limit == Limit.Debug ==> debugLimit.Some?)
      requires pages == PagesLimit(cached0, maxPages, db)
      requires ran == Plan(sel, limit, action, status, debugLimit, pages, expireDays)
      requires PagesCached(cached0, pages)
      requires Accounted(count0, AllRows(sel, rowsOf), notifications)
      modifies this`pagesLimit, this`expectedResultsCount
      ensures ran' == Plan(sel + [q], limit, action, status, debugLimit, pages, expireDays)
      ensures PagesCached(cached0, pages)
      ensures q == FindVisitsToExpire ==> pagesLimit == Some(pages)
      ensures q != FindVisitsToExpire ==> pagesLimit == old(pagesLimit)
      ensures Accounted(count0, AllRows(sel + [q], rowsOf), notifications')
    {
      var params := GetQueryParams(q, limit, action, db, expireDays, cached0, pages);
      notifications' := HandleQueryRows(q, rowsOf, notifications, sel, count0);
      PlanSnoc(sel, q, limit, action, status, debugLimit, pages, expireDays);
      ran' := ran + [Execution(q, params)];
    }
  }

  /** Selecting from one more query of the list. */
  lemma SelectedPrefixStep(qs: seq<Query>, i: nat, a: Action, interactionsEnabled: bool)
    requires i < |qs|
    ensures Selected(qs[..i + 1], a, interactionsEnabled)
         == Selected(qs[..i], a, interactionsEnabled) + (if Runs(qs[i], a, interactionsEnabled) then [qs[i]] else [])
  {
    assert qs[..i + 1] == qs[..i] + [qs[i]];
    SelectedSnoc(qs[..i], qs[i], a, interactionsEnabled);
  }

  lemma PlanSnoc(qs: seq<Query>, q: Query, limit: Limit, action: Action, status: Status, debugLimit: Option<int>,
                 pagesLimit: int, expireDays: int)
    requires limit == Limit.Debug ==> debugLimit.Some?
    ensures Plan(qs + [q], limit, action, status, debugLimit, pagesLimit, expireDays)
         == Plan(qs, limit, action, status, debugLimit, pagesLimit, expireDays)
            + [Execution(q, QueryParamsFor(q, limit, action, status, debugLimit, pagesLimit, expireDays))]
  {
    assert (qs + [q])[..|qs|] == qs;
  }

  // The column and the notifications of concatenated rows are those of the parts, concatenated.

  lemma ExpectedColumnSnoc(rows: seq<Row>, r: Row)
    ensures ExpectedColumn(rows + [r]) == ExpectedColumn(rows) + [r.expectedResults]
  {
  }

  lemma NotificationsSnoc(rows: seq<Row>, r: Row)
    ensures Notifications(rows + [r]) == Notifications(rows) + [Notification(r)]
  {
  }

  lemma ExpectedColumnConcat(a: seq<Row>, b: seq<Row>)
    ensures ExpectedColumn(a + b) == ExpectedColumn(a) + ExpectedColumn(b)
  {
  }

  lemma NotificationsConcat(a: seq<Row>, b: seq<Row>)
    ensures Notifications(a + b) == Notifications(a) + Notifications(b)
  {
  }

  /** What one more query adds to a run: its rows, counted and notified after the earlier ones. */
  lemma NextQuery(count0: Option<int>, sel: seq<Query>, q: Query, rowsOf: Query -> seq<Row>)
    ensures AllRows(sel + [q], rowsOf) == AllRows(sel, rowsOf) + rowsOf(q)
    ensures CountRows(count0, ExpectedColumn(AllRows(sel, rowsOf) + rowsOf(q)))
            == CountRows(CountRows(count0, ExpectedColumn(AllRows(sel, rowsOf))), ExpectedColumn(rowsOf(q)))
    ensures Notifications(AllRows(sel, rowsOf) + rowsOf(q)) == Notifications(AllRows(sel, rowsOf)) + Notifications(rowsOf(q))
  {
    var before := AllRows(sel, rowsOf);
    var rows := rowsOf(q);
    assert (sel + [q])[..|sel|] == sel;
    ExpectedColumnConcat(before, rows);
    CountRowsConcat(count0, ExpectedColumn(before), ExpectedColumn(rows));
    NotificationsConcat(before, rows);
  }
}
