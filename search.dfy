/**
 * The routing rules of the `kahuna.search` module: the two states `search`
 * and `search.results`, the deep-state-redirect composer of `search`, the
 * title and the `isReloadingPreviousSearch` resolver of `search.results`,
 * and the `$stateChangeSuccess` guard that moves a navigation stuck on
 * `search` on to `search.results`.
 */
module Search {
  import opened Wrappers
  import opened Params

  /** The entry state, which only ever redirects. */
  const SearchState: string := "search"
  /** The results state, child of the entry state. */
  const ResultsState: string := "search.results"
  /** The query-string parameters of the results state's URL pattern. */
  const ResultsUrlParams: seq<string> := ["query", "ids", "since", "nonFree", "uploadedBy", "until", "orderBy"]
  /** The routing-only, non-URL parameter that marks a deep-state redirect. */
  const DsrFlag: string := "isDeepStateRedirect"
  /** The declared default of that parameter. */
  const DsrFlagDefault: Value := Bool(false)
  /** The parameter the title is taken from. */
  const QueryParam: string := "query"
  /** The title shown when there is no query. */
  const TitleFallback: string := "search"

  /** The non-URL flag is not one of the URL's query parameters, so parameters read from the URL never carry it. */
  lemma DsrFlagIsNotUrlParam()
    ensures DsrFlag !in ResultsUrlParams
  {
  }

  // ---------------------------------------------------------------------
  // Deep-state redirect of the entry state
  // ---------------------------------------------------------------------

  /** A redirect descriptor: the state to go to and the parameters to go with. */
  datatype Redirect = Redirect(state: string, params: ParamMap)

  /**
   * The `deepStateRedirect.fn` of the entry state: the remembered redirect's
   * state, with a fresh copy of its parameters in which the routing flag is
   * forced to `true`.
   */
  function ComposeRedirect(remembered: Redirect): (r: Redirect)
    ensures r.state == remembered.state
    ensures r.params.Keys == remembered.params.Keys + {DsrFlag}
    ensures r.params[DsrFlag] == Bool(true)
    ensures forall name :: name in remembered.params && name != DsrFlag ==> r.params[name] == remembered.params[name]
  {
    var flagged := map[DsrFlag := Bool(true)];
    ExtendEmptyWithTwo(remembered.params, flagged);
    Redirect(remembered.state, Extend(map[], [remembered.params, flagged]))
  }

  /** The composed parameters are exactly the remembered ones with the flag set to `true`. */
  lemma ComposeRedirectIsFlagOverride(remembered: Redirect)
    ensures ComposeRedirect(remembered).params == remembered.params[DsrFlag := Bool(true)]
  {
  }

  // ---------------------------------------------------------------------
  // Title of the results state
  // ---------------------------------------------------------------------

  /** `data.title` of the results state: the query when it is truthy, otherwise the fallback label. */
  function Title(params: ParamMap): (title: Value)
    ensures Truthy(title)
    ensures title == Lookup(params, QueryParam) || title == Str(TitleFallback)
  {
    var query := Lookup(params, QueryParam);
    if Truthy(query) then query else Str(TitleFallback)
  }

  /** The title is the query itself exactly when the query is truthy; otherwise it is the fallback. */
  lemma TitleIsQueryIff(params: ParamMap)
    ensures Title(params) == Lookup(params, QueryParam) <==> Truthy(Lookup(params, QueryParam))
    ensures !Truthy(Lookup(params, QueryParam)) ==> Title(params) == Str(TitleFallback)
  {
  }

  // ---------------------------------------------------------------------
  // Parameters on entry to the results state, and the replay-flag resolver
  // ---------------------------------------------------------------------

  /**
   * The parameters the results state is entered with: those supplied, with
   * the declared default of the non-URL flag filled in when the flag was not
   * supplied.
   */
  function EnteringResults(supplied: ParamMap): (entered: ParamMap)
    ensures Lookup(entered, DsrFlag) == if Lookup(supplied, DsrFlag) == Undefined then DsrFlagDefault else Lookup(supplied, DsrFlag)
    ensures forall name :: name != DsrFlag ==> Lookup(entered, name) == Lookup(supplied, name)
    ensures entered.Keys == supplied.Keys + {DsrFlag}
  {
    if Lookup(supplied, DsrFlag) == Undefined then supplied[DsrFlag := DsrFlagDefault] else supplied
  }

  /**
   * What `isReloadingPreviousSearch` computes, as a value: the flag read from
   * the parameters, and the parameters left behind once it is deleted.
   */
  function TakeFlag(params: ParamMap): (taken: (Value, ParamMap))
    ensures taken.0 == Lookup(params, DsrFlag)
    ensures DsrFlag !in taken.1
    ensures forall name :: name != DsrFlag ==> (name in taken.1 <==> name in params)
    ensures forall name :: name in taken.1 ==> taken.1[name] == params[name]
  {
    (Lookup(params, DsrFlag), params - {DsrFlag})
  }

  /**
   * The `isReloadingPreviousSearch` resolver: reads the routing flag from the
   * shared `$stateParams`, deletes it there, and returns what it read.
   */
  method IsReloadingPreviousSearch(stateParams: StateParams) returns (isDeepStateRedirect: Value)
    modifies stateParams
    ensures (isDeepStateRedirect, stateParams.entries) == TakeFlag(old(stateParams.entries))
    ensures DsrFlag !in stateParams.entries
  {
    isDeepStateRedirect := Lookup(stateParams.entries, DsrFlag);
    stateParams.Delete(DsrFlag);
  }

  /** Clearing is idempotent: a second run finds no flag and leaves the parameters as they are. */
  lemma TakeFlagIdempotent(params: ParamMap)
    ensures TakeFlag(TakeFlag(params).1) == (Undefined, TakeFlag(params).1)
  {
    var cleared := TakeFlag(params).1;
    assert cleared - {DsrFlag} == cleared;
  }

  /** Putting the taken flag back restores the parameters: nothing but the flag is lost. */
  lemma TakeFlagRestores(params: ParamMap)
    requires DsrFlag in params
    ensures TakeFlag(params).1[DsrFlag := TakeFlag(params).0] == params
  {
  }

  /**
   * A replayed search: entering the results state through the composed
   * redirect, the resolver reports `true` and leaves exactly the remembered
   * parameters, without the flag.
   */
  lemma ReplayedSearchIsFlagged(remembered: Redirect)
    ensures TakeFlag(EnteringResults(ComposeRedirect(remembered).params)) == (Bool(true), remembered.params - {DsrFlag})
  {
    ComposeRedirectIsFlagOverride(remembered);
    var composed := ComposeRedirect(remembered).params;
    assert EnteringResults(composed) == composed;
    assert composed - {DsrFlag} == remembered.params - {DsrFlag};
  }

  /**
   * Entering the results state with the flag absent or `undefined`, the
   * resolver reports the declared default `false` and leaves every other
   * supplied parameter as it was.
   */
  lemma UnflaggedEntryGetsDefault(supplied: ParamMap)
    requires Lookup(supplied, DsrFlag) == Undefined
    ensures TakeFlag(EnteringResults(supplied)) == (DsrFlagDefault, supplied - {DsrFlag})
  {
    assert supplied[DsrFlag := DsrFlagDefault] - {DsrFlag} == supplied - {DsrFlag};
  }

  /**
   * A fresh search: entering the results state with parameters taken from
   * its URL, which cannot carry the non-URL flag, the resolver reports the
   * declared default `false` and leaves the supplied parameters unchanged.
   */
  lemma FreshSearchIsNotFlagged(supplied: ParamMap)
    requires forall name :: name in supplied ==> name in ResultsUrlParams
    ensures TakeFlag(EnteringResults(supplied)) == (DsrFlagDefault, supplied)
  {
    DsrFlagIsNotUrlParam();
    assert DsrFlag !in supplied;
    UnflaggedEntryGetsDefault(supplied);
    assert supplied - {DsrFlag} == supplied;
  }

  /**
   * The replay of `ReplayedSearchIsFlagged` run through the objects: it joins
   * the redirect composer to the `IsReloadingPreviousSearch` method acting on
   * a new `$stateParams` built from the composed redirect.
   */
  method ReplayRemembered(rememberedState: string, remembered: StateParams) returns (current: StateParams, replay: Value)
    ensures fresh(current)
    ensures remembered.entries == old(remembered.entries)
    ensures replay == Bool(true)
    ensures current.entries == old(remembered.entries) - {DsrFlag}
  {
    var redirect := ComposeRedirect(Redirect(rememberedState, remembered.entries));
    current := new StateParams(EnteringResults(redirect.params));
    replay := IsReloadingPreviousSearch(current);
    ReplayedSearchIsFlagged(Redirect(rememberedState, remembered.entries));
  }

  // ---------------------------------------------------------------------
  // The $stateChangeSuccess guard
  // ---------------------------------------------------------------------

  /** A `$state.go(target, params, {reload: reload})` request; `params == None` is `null`. */
  datatype NavRequest = NavRequest(target: string, params: Option<ParamMap>, reload: bool)

  /**
   * The guard's reaction to a successful state change: a forced reload of the
   * results state, with null parameters, when the change landed on the entry
   * state, and nothing otherwise.
   */
  function OnStateChangeSuccess(toStateName: string): (request: Option<NavRequest>)
    ensures request.Some? <==> toStateName == SearchState
    ensures request.Some? ==> request.value.target == ResultsState && request.value.params == None && request.value.reload
  {
    if toStateName == SearchState then Some(NavRequest(ResultsState, None, true)) else None
  }

  /** The corrective navigation's own success does not trigger the guard again. */
  lemma GuardDoesNotRetrigger(toStateName: string)
    ensures OnStateChangeSuccess(toStateName).Some? ==>
              OnStateChangeSuccess(OnStateChangeSuccess(toStateName).value.target) == None
  {
  }

  /**
   * The states the application settles in, one `$stateChangeSuccess` each,
   * starting from a change into `toStateName` and following every request of
   * the guard, each assumed to succeed.
   */
  function Settle(toStateName: string): (trail: seq<string>)
    ensures |trail| >= 1 && trail[0] == toStateName
    ensures trail[|trail| - 1] != SearchState
    ensures forall i :: 0 < i < |trail| ==> trail[i] == ResultsState
    decreases if toStateName == SearchState then 1 else 0
  {
    match OnStateChangeSuccess(toStateName)
    case None => [toStateName]
    case Some(request) => [toStateName] + Settle(request.target)
  }

  /** The guard fires once for a change into the entry state and never for any other change. */
  lemma GuardFiresOnceForEntry(toStateName: string)
    ensures |Settle(toStateName)| == if toStateName == SearchState then 2 else 1
  {
    if toStateName == SearchState {
      assert Settle(ResultsState) == [ResultsState];
    }
  }
}
