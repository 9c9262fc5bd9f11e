# Search routing rules of kahuna

This project models the routing rules of kahuna's `kahuna.search` module: the
logic the module writes itself around its two ui-router states, `search` (the
entry state, served at `/`) and its child `search.results`.

- **Deep-state redirect.** Entering `search` redirects to the remembered child
  state when there is one; otherwise the application lands on `search` and the
  navigation guard moves it on. The redirect function copies the remembered parameters into a new
  object, adds the routing-only flag `isDeepStateRedirect: true` on top, and
  keeps the remembered state.
- **Title.** The results state's title is its `query` parameter when that is
  truthy in JavaScript's sense, otherwise the label `search`.
- **Replay-flag resolver.** `isReloadingPreviousSearch` reads
  `isDeepStateRedirect` from the shared `$stateParams`, deletes the key in
  place, and returns what it read. The parameter is declared as a non-URL
  boolean with default `false`.
- **Navigation guard.** On every `$stateChangeSuccess` whose target is exactly
  `search`, the module issues `$state.go('search.results', null, {reload: true})`.

Files:
- `wrappers.dfy`: module `Wrappers`, an `Option` type that stands for `null`.
- `params.dfy`: module `Params`. It holds JavaScript parameter objects as
  `map<string, Value>`, where a `Value` is a string, a boolean or `undefined`.
  It also holds truthiness, property lookup, and `angular.extend` as `Extend`,
  a left-to-right merge in which the last writer wins. The class `StateParams`
  is the shared, mutable `$stateParams` object, with an in-place `Delete`.
- `search.dfy`: module `Search`, the states' constants and the four rules. Each
  rule comes with lemmas about it.

Behaviour of the code that the model keeps:
- The resolver deletes exactly one key, `isDeepStateRedirect`.
- The title test is JavaScript truthiness, not non-emptiness.
- The resolver returns whatever the property holds. That is `undefined` when
  the router's declared default is not applied.

## Model

| member | source | states |
|---|---|---|
| Params.Extend | kahuna/public/js/search/index.js:39-41 | `angular.extend`: the result owns a key iff the target or some source owns it; a key no source owns keeps the target's value; a key takes the value of the last source that owns it |
| Params.ExtendEmptyWithTwo | kahuna/public/js/search/index.js:39-41 | `angular.extend({}, a, b)` equals the union of `a` and `b` with `b` winning on shared keys |
| Params.StateParams.Delete | kahuna/public/js/search/index.js:69 | `delete` removes exactly the named property from the shared object and changes nothing when it is absent |
| Search.DsrFlagIsNotUrlParam | kahuna/public/js/search/index.js:48-55 | `isDeepStateRedirect` is not one of the results URL's query parameters |
| Search.ComposeRedirect | kahuna/public/js/search/index.js:38-43 | the redirect keeps the remembered state; its parameters own the remembered keys plus the flag; the flag is `true` whatever was remembered; every other remembered key keeps its value |
| Search.ComposeRedirectIsFlagOverride | kahuna/public/js/search/index.js:39-42 | the composed parameters equal the remembered map with the flag overridden to `true` |
| Search.Title | kahuna/public/js/search/index.js:58-60 | the title is always truthy and is either the query or the label `search` |
| Search.TitleIsQueryIff | kahuna/public/js/search/index.js:58-60 | the title equals the query iff the query is truthy; otherwise it is `search` |
| Search.EnteringResults | kahuna/public/js/search/index.js:55 | on entry the flag holds the supplied value, or the declared default `false` when none was supplied; every other parameter is as supplied |
| Search.TakeFlag | kahuna/public/js/search/index.js:65-71 | the resolver's result is the flag's value on entry; the parameters left behind lack the flag and keep every other key and value |
| Search.IsReloadingPreviousSearch | kahuna/public/js/search/index.js:65-71 | the resolver returns the flag read on entry and leaves `$stateParams` equal to its old contents minus the flag |
| Search.TakeFlagIdempotent | kahuna/public/js/search/index.js:69 | clearing already-cleared parameters finds `undefined` and changes nothing |
| Search.TakeFlagRestores | kahuna/public/js/search/index.js:66-69 | when the flag was present, putting the returned flag back restores the parameters exactly, so only the flag is removed |
| Search.ReplayedSearchIsFlagged | kahuna/public/js/search/index.js:38-70 | entering the results state through the redirect, the resolver returns `true` and leaves exactly the remembered parameters without the flag |
| Search.UnflaggedEntryGetsDefault | kahuna/public/js/search/index.js:55-70 | entering the results state with the flag absent or `undefined`, the resolver returns the declared default `false` and leaves every other supplied parameter unchanged |
| Search.FreshSearchIsNotFlagged | kahuna/public/js/search/index.js:48-70 | entering the results state with parameters taken from its URL, which cannot carry the flag, the resolver returns `false` and leaves the parameters exactly as supplied |
| Search.ReplayRemembered | kahuna/public/js/search/index.js:39-69 | joins the composer to the in-place resolver method: entering through the redirect, the replay flag is `true` and the new `$stateParams` holds the remembered parameters without the flag |
| Search.OnStateChangeSuccess | kahuna/public/js/search/index.js:92-96 | a request is issued iff the target is exactly `search`, and it is to `search.results` with null params and `reload: true` |
| Search.GuardDoesNotRetrigger | kahuna/public/js/search/index.js:93-94 | the target of the guard's own request does not trigger the guard |
| Search.Settle | kahuna/public/js/search/index.js:88-96 | following the guard's requests, the last state of the chain is never `search`, and every state after the first is `search.results` |
| Search.GuardFiresOnceForEntry | kahuna/public/js/search/index.js:92-96 | the guard causes exactly one extra state change for a change into `search` and none for any other target |

## Left out

- Angular module creation, imports and the `config`/`run` registration calls (index.js lines 1-22, 27-30, 91). They only wire dependencies.
- View templates and the controllers of the `results` and `panel` views (lines 10-12, 73-84). They are consumers outside the routing rules.
- The deep-state-redirect memory of `angular-ui-router-extras`, which records and recalls the last child state. The library is not part of this model. The remembered redirect is an input value (`Redirect`).
- Params.Extend: models the sources as plain objects. It does not model `angular.extend`'s skipping of non-object sources, prototype properties or `$$hashKey` handling.
- Search.ComposeRedirect: takes the remembered parameters as a value. That the remembered object is not modified is therefore true by construction. The model does not tell `angular.extend({}, p, f)` from `angular.extend(p, f)`.
- Search.ReplayRemembered: the remembered object's parameters are unchanged because the method has no `modifies` clause and the composer works on values. The new `$stateParams` is the router's object for the results state, not the `{}` of line 39. Aliasing between the remembered object and the redirect's target is therefore not modelled.
- Search.EnteringResults: models only ui-router's filling-in of the declared default of `isDeepStateRedirect`. URL pattern matching, defaults of URL parameters and type coercion (`type: 'bool'`) belong to ui-router and are not modelled.
- Parameter values are strings, booleans and `undefined`. `null`, numbers and arrays as parameter values are not modelled.
- Search.Settle: assumes every corrective navigation succeeds. The asynchronous transition machinery behind `$state.go`, `$rootScope` event broadcasting and navigation errors (including the 401 case in the TODO at lines 24-26) are not modelled.
