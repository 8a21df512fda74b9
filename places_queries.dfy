/**
 * The expiration queries of Places history expiration
 * (toolkit/components/places/PlacesExpiration.sys.mjs): the constants, the
 * status, limit and action enumerations, and which queries run for an action.
 */
module ExpirationQueries {
  // ---------------------------------------------------------------------------
  // Constants

  /** Size in bytes of the optimal database (75 MiB). */
  const DatabaseMaxSize: int := 78643200
  /** Entries expired by one small step. */
  const ExpireLimitPerStep: int := 6
  /** A large step expires this many times the small step. */
  const ExpireLimitPerLargeStepMultiplier: int := 10
  /** Dirty history expires this many times more entries; clean history waits this many times longer. */
  const ExpireAggressivityMultiplier: int := 3
  /** Fallback average size in bytes of one URI entry. */
  const UriEntryAvgSize: int := 700
  /** Seconds of idle time before the idle observer fires. */
  const IdleTimeoutSeconds: int := 300
  /** Pages over the limit beyond which a timed step becomes a large one. */
  const OverlimitPagesThreshold: int := 1000
  /** Default of places.history.expiration.interval_seconds. */
  const DefaultIntervalSeconds: int := 180
  /** Pages limit used when the database cannot be measured. */
  const FallbackPagesLimit: int := 100000

  // ---------------------------------------------------------------------------
  // Enumerations

  /** Status of the history database. */
  datatype Status = Clean | Dirty | Unknown

  /** How much one expiration may remove. */
  datatype Limit = Small | Large | Unlimited | Debug

  /** What triggered an expiration; in the source each action is one bit of a query's mask. */
  datatype Action = Timed | TimedOverlimit | ShutdownDirty | IdleDirty | IdleDaily | Debug

  /** One expiration to start: the action and the limit `_expire` is called with. */
  datatype Request = Request(action: Action, limit: Limit)

  // ---------------------------------------------------------------------------
  // The expiration queries, each an opaque name plus the mask of actions it runs on

  datatype Query =
    | FindExoticVisitsToExpire
    | FindVisitsToExpire
    | ExpireVisits
    | FindUrisToExpire
    | ExpireUris
    | UpdateHosts
    | ExpireOldFavicons
    | ExpireFaviconsPages
    | ExpireFavicons
    | ExpireAnnos
    | ExpireInputHistory
    | SelectNotifications
    | DeleteNotifications
    | ExpireInteractions

  /** The queries in declaration order, the order in which they are enumerated. */
  const Queries: seq<Query> := [
    FindExoticVisitsToExpire, FindVisitsToExpire, ExpireVisits, FindUrisToExpire,
    ExpireUris, UpdateHosts, ExpireOldFavicons, ExpireFaviconsPages, ExpireFavicons,
    ExpireAnnos, ExpireInputHistory, SelectNotifications, DeleteNotifications,
    ExpireInteractions]

  /** Position of a query in declaration order. */
  function Order(q: Query): nat
  {
    match q
    case FindExoticVisitsToExpire => 0
    case FindVisitsToExpire => 1
    case ExpireVisits => 2
    case FindUrisToExpire => 3
    case ExpireUris => 4
    case UpdateHosts => 5
    case ExpireOldFavicons => 6
    case ExpireFaviconsPages => 7
    case ExpireFavicons => 8
    case ExpireAnnos => 9
    case ExpireInputHistory => 10
    case SelectNotifications => 11
    case DeleteNotifications => 12
    case ExpireInteractions => 13
  }

  /** The actions a query is registered for (the bits set in its `actions` mask). */
  function ActionsOf(q: Query): (r: set<Action>)
    ensures {IdleDirty, IdleDaily, Action.Debug} <= r
  {
    match q
    case FindExoticVisitsToExpire | FindVisitsToExpire | ExpireVisits =>
      {TimedOverlimit, IdleDirty, IdleDaily, Action.Debug}
    case FindUrisToExpire | ExpireUris | UpdateHosts | ExpireAnnos | ExpireInputHistory
       | SelectNotifications | DeleteNotifications =>
      {Timed, TimedOverlimit, ShutdownDirty, IdleDirty, IdleDaily, Action.Debug}
    case ExpireOldFavicons =>
      {IdleDirty, IdleDaily, Action.Debug}
    case ExpireFaviconsPages | ExpireFavicons | ExpireInteractions =>
      {TimedOverlimit, ShutdownDirty, IdleDirty, IdleDaily, Action.Debug}
  }

  /** Only the interactions query can be disabled, by its preference. */
  predicate Disabled(q: Query, interactionsEnabled: bool)
  {
    q == ExpireInteractions && !interactionsEnabled
  }

  /** The test `query.actions & aAction && !query.disabled` of the expiration loop. */
  predicate Runs(q: Query, a: Action, interactionsEnabled: bool): (r: bool)
    ensures q != ExpireInteractions ==> (r <==> a in ActionsOf(q))
  {
    a in ActionsOf(q) && !Disabled(q, interactionsEnabled)
  }

  /** The queries of `qs` that an expiration for `a` runs, in the order of `qs`. */
  function Selected(qs: seq<Query>, a: Action, interactionsEnabled: bool): (r: seq<Query>)
    ensures |r| <= |qs|
  {
    if qs == [] then []
    else (if Runs(qs[0], a, interactionsEnabled) then [qs[0]] else [])
         + Selected(qs[1..], a, interactionsEnabled)
  }

  /** A query is selected exactly when it is one of `qs` and runs for the action. */
  lemma {:induction false} SelectedMembers(qs: seq<Query>, a: Action, interactionsEnabled: bool)
    ensures |Selected(qs, a, interactionsEnabled)| <= |qs|
    ensures forall q :: q in Selected(qs, a, interactionsEnabled) <==> q in qs && Runs(q, a, interactionsEnabled)
  {
    if qs != [] {
      SelectedMembers(qs[1..], a, interactionsEnabled);
      assert qs == [qs[0]] + qs[1..];
    }
  }

  /** Selecting from a longer list: the selection so far, then the new query if it runs. */
  lemma {:induction false} SelectedSnoc(qs: seq<Query>, q: Query, a: Action, interactionsEnabled: bool)
    ensures Selected(qs + [q], a, interactionsEnabled)
         == Selected(qs, a, interactionsEnabled) + (if Runs(q, a, interactionsEnabled) then [q] else [])
  {
    if qs != [] {
      assert (qs + [q])[0] == qs[0];
      assert (qs + [q])[1..] == qs[1..] + [q];
      SelectedSnoc(qs[1..], q, a, interactionsEnabled);
    }
  }

  predicate InDeclarationOrder(qs: seq<Query>)
  {
    forall i, j :: 0 <= i < j < |qs| ==> Order(qs[i]) < Order(qs[j])
  }

  /** Selecting keeps the declaration order: queries run in the order they are declared. */
  lemma {:induction false} SelectedKeepsOrder(qs: seq<Query>, a: Action, interactionsEnabled: bool)
    requires InDeclarationOrder(qs)
    ensures InDeclarationOrder(Selected(qs, a, interactionsEnabled))
  {
    if qs != [] {
      var rest := qs[1..];
      OrderedTail(qs);
      SelectedKeepsOrder(rest, a, interactionsEnabled);
      var tail := Selected(rest, a, interactionsEnabled);
      if Runs(qs[0], a, interactionsEnabled) {
        SelectedMembers(rest, a, interactionsEnabled);
        forall q | q in tail ensures Order(qs[0]) < Order(q) {
          var k :| 0 <= k < |rest| && rest[k] == q;
          assert qs[k + 1] == q;
        }
        OrderedCons(qs[0], tail);
      }
    }
  }

  lemma OrderedTail(qs: seq<Query>)
    requires qs != [] && InDeclarationOrder(qs)
    ensures InDeclarationOrder(qs[1..])
  {
    var rest := qs[1..];
    forall i, j | 0 <= i < j < |rest| ensures Order(rest[i]) < Order(rest[j]) {
      assert rest[i] == qs[i + 1] && rest[j] == qs[j + 1];
    }
  }

  lemma OrderedCons(q: Query, tail: seq<Query>)
    requires InDeclarationOrder(tail)
    requires forall x | x in tail :: Order(q) < Order(x)
    ensures InDeclarationOrder([q] + tail)
  {
    var s := [q] + tail;
    forall i, j | 0 <= i < j < |s| ensures Order(s[i]) < Order(s[j]) {
      assert s[j] == tail[j - 1];
      if i > 0 {
        assert s[i] == tail[i - 1];
      }
    }
  }

  lemma QueriesInDeclarationOrder()
    ensures InDeclarationOrder(Queries)
  {
    forall i | 0 <= i < |Queries| ensures Order(Queries[i]) == i {
    }
  }

  /** Every query is in the list the expiration loop walks. */
  lemma AllQueriesListed(q: Query)
    ensures q in Queries
  {
    assert Queries[Order(q)] == q;
  }

  /**
   * A plain timed step runs exactly the orphan-cleanup queries (in declaration
   * order, by SelectedKeepsOrder): it never touches visits, favicons or interactions.
   */
  lemma TimedStepSelection(q: Query, interactionsEnabled: bool)
    ensures q in Selected(Queries, Timed, interactionsEnabled) <==>
      q in {FindUrisToExpire, ExpireUris, UpdateHosts, ExpireAnnos, ExpireInputHistory,
            SelectNotifications, DeleteNotifications}
  {
    AllQueriesListed(q);
    SelectedRunsListed(Queries, q, Timed, interactionsEnabled);
    TimedRuns(q, interactionsEnabled);
  }

  lemma TimedRuns(q: Query, interactionsEnabled: bool)
    ensures Runs(q, Timed, interactionsEnabled) <==>
      q in {FindUrisToExpire, ExpireUris, UpdateHosts, ExpireAnnos, ExpireInputHistory,
            SelectNotifications, DeleteNotifications}
  {
  }

  /** Visits are looked for by every action except a plain timed step and shutdown. */
  lemma VisitsSearchedExactly(a: Action, interactionsEnabled: bool)
    ensures FindVisitsToExpire in Selected(Queries, a, interactionsEnabled)
        <==> a != Timed && a != ShutdownDirty
    ensures FindExoticVisitsToExpire in Selected(Queries, a, interactionsEnabled)
        <==> a != Timed && a != ShutdownDirty
  {
    AllQueriesListed(FindExoticVisitsToExpire);
    AllQueriesListed(FindVisitsToExpire);
    SelectedRunsListed(Queries, FindExoticVisitsToExpire, a, interactionsEnabled);
    SelectedRunsListed(Queries, FindVisitsToExpire, a, interactionsEnabled);
  }

  /** Interactions expire only when their preference enables them, and never on a plain timed step. */
  lemma InteractionsFollowPreference(a: Action, interactionsEnabled: bool)
    ensures ExpireInteractions in Selected(Queries, a, interactionsEnabled)
        <==> interactionsEnabled && a != Timed
  {
    AllQueriesListed(ExpireInteractions);
    SelectedRunsListed(Queries, ExpireInteractions, a, interactionsEnabled);
  }

  /** A listed query is selected exactly when it runs for the action. */
  lemma SelectedRunsListed(qs: seq<Query>, q: Query, a: Action, interactionsEnabled: bool)
    requires q in qs
    ensures q in Selected(qs, a, interactionsEnabled) <==> Runs(q, a, interactionsEnabled)
  {
    SelectedMembers(qs, a, interactionsEnabled);
  }
}
