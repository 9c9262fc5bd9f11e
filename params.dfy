/**
 * JavaScript parameter objects as the search router sees them: a map from
 * property name to value, the truthiness test the router's conditionals use,
 * `angular.extend` (the merge that builds the redirect parameters), and the
 * shared `$stateParams` object that a resolver may change in place.
 */
module Params {

  /** A property value: a string, a boolean, or `undefined`. */
  datatype Value = Str(s: string) | Bool(b: bool) | Undefined

  /** A plain parameter object: the properties it owns, with their values. */
  type ParamMap = map<string, Value>

  /** JavaScript truthiness of a value: the empty string, `false` and `undefined` are falsy. */
  predicate Truthy(v: Value)
  {
    match v
    case Str(s) => s != ""
    case Bool(b) => b
    case Undefined => false
  }

  /** Reading `obj.name`: a property the object does not own reads as `undefined`. */
  function Lookup(obj: ParamMap, name: string): Value
  {
    if name in obj then obj[name] else Undefined
  }

  /** True when some object of `sources` owns the property `name`. */
  predicate OwnedBySome(sources: seq<ParamMap>, name: string)
  {
    exists j :: 0 <= j < |sources| && name in sources[j]
  }

  /**
   * `angular.extend(dst, src1, src2, ...)`: copies every property of each
   * source onto `dst`, the sources taken left to right, so a later source
   * overrides an earlier one and every source overrides `dst`.
   */
  function Extend(dst: ParamMap, sources: seq<ParamMap>): (r: ParamMap)
    ensures forall name :: name in r <==> name in dst || OwnedBySome(sources, name)
    ensures forall name :: name in dst && !OwnedBySome(sources, name) ==> r[name] == dst[name]
    ensures forall j, name :: 0 <= j < |sources| && name in sources[j] && !OwnedBySome(sources[j + 1..], name)
              ==> name in r && r[name] == sources[j][name]
    decreases |sources|
  {
    if sources == [] then dst
    else Extend(dst + sources[0], sources[1..])
  }

  /** Extending an empty object with two sources gives their union, the second source winning on shared keys. */
  lemma ExtendEmptyWithTwo(first: ParamMap, second: ParamMap)
    ensures Extend(map[], [first, second]) == first + second
  {
    var sources := [first, second];
    assert sources[1..] == [second];
    assert sources[1..][1..] == [];
    assert Extend(map[], sources) == Extend(map[] + first, [second]);
    assert Extend(map[] + first, [second]) == Extend(map[] + first + second, []);
    assert map[] + first == first;
  }

  /** The shared `$stateParams` object of the active state, mutated in place by resolvers. */
  class StateParams {
    var entries: ParamMap

    constructor (initial: ParamMap)
      ensures entries == initial
    {
      entries := initial;
    }

    /** `delete this[name]`: removes the property if present; deleting a missing property changes nothing. */
    method Delete(name: string)
      modifies this
      ensures entries == old(entries) - {name}
    {
      entries := entries - {name};
    }
  }
}
