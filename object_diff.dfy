/** `objectDifference` (client/src/utils/utils.ts): walks the entries of
    `second` and writes into the caller's `defaultValues` object every entry
    whose value is not strictly equal (`!==`) to `first`'s value for the same
    key. The accumulator is the caller's object itself, changed in place. */
module ObjectDiff {

  /** A JavaScript number; +0 and -0 are the same finite value. */
  datatype Number = Finite(value: real) | PositiveInfinity | NegativeInfinity | NaN

  /** A JavaScript value; objects and functions are compared by reference. */
  datatype JsValue =
    | Undefined
    | Null
    | Boolean(b: bool)
    | Num(n: Number)
    | Str(s: string)
    | ObjectRef(address: nat)

  /** `a === b`: the same value, except that NaN equals nothing. */
  predicate StrictEquals(a: JsValue, b: JsValue) {
    a == b && a != Num(NaN)
  }

  /** `===` is symmetric, equates only equal values, fails exactly for
      NaN against itself, and does not tell +0 from -0. */
  lemma StrictEqualsLaws(a: JsValue, b: JsValue)
    ensures StrictEquals(a, b) <==> StrictEquals(b, a)
    ensures StrictEquals(a, b) ==> a == b
    ensures StrictEquals(a, a) <==> a != Num(NaN)
    ensures StrictEquals(Num(Finite(0.0)), Num(Finite(-0.0)))
  {
  }

  /** `o[k]` for an object's own properties: `undefined` when absent. */
  function Get(o: map<string, JsValue>, k: string): JsValue {
    if k in o then o[k] else Undefined
  }

  /** A JavaScript object whose properties are assigned in place. */
  class JsObject {
    var props: map<string, JsValue>

    constructor (props: map<string, JsValue>)
      ensures this.props == props
    {
      this.props := props;
    }
  }

  /** The shape of `Object.entries(o)`: no key appears twice. */
  predicate DistinctKeys(entries: seq<(string, JsValue)>) {
    forall i, j :: 0 <= i < j < |entries| ==> entries[i].0 != entries[j].0
  }

  /** The object whose entries these are, built as the entries are
      assigned one after the other. */
  function ToMap(entries: seq<(string, JsValue)>): (o: map<string, JsValue>)
    ensures forall k :: k in o <==> exists i :: 0 <= i < |entries| && entries[i].0 == k
    ensures DistinctKeys(entries) ==> forall i :: 0 <= i < |entries| ==> o[entries[i].0] == entries[i].1
  {
    if entries == [] then map[]
    else
      var init, last := entries[..|entries| - 1], entries[|entries| - 1];
      assert forall i :: 0 <= i < |init| ==> init[i] == entries[i];
      ToMap(init)[last.0 := last.1]
  }

  /** `second` has the key `k`, and `first`'s value for it is not
      strictly equal to `second`'s. */
  predicate Differs(first: map<string, JsValue>, second: map<string, JsValue>, k: string) {
    k in second && !StrictEquals(Get(first, k), second[k])
  }

  /** What `objectDifference(first, second, defaults)` returns, stated
      without the fold: every differing entry of `second`, over the
      defaults. */
  function Difference(first: map<string, JsValue>, second: map<string, JsValue>, defaults: map<string, JsValue>): (m: map<string, JsValue>)
    // a key whose values differ maps to second's value
    ensures forall k :: Differs(first, second, k) ==> k in m && m[k] == second[k]
    // a default that no differing entry overwrites is kept
    ensures forall k :: k in defaults && !Differs(first, second, k) ==> k in m && m[k] == defaults[k]
    // nothing else enters the result: a key only in `first`, or with equal
    // values, is there only if it is a default
    ensures forall k :: k in m ==> k in defaults || Differs(first, second, k)
  {
    map k | k in defaults.Keys + second.Keys && (k in defaults || Differs(first, second, k))
      :: if Differs(first, second, k) then second[k] else defaults[k]
  }

  /** One more entry of `Object.entries(second)` adds one key to the
      entries seen so far. */
  lemma ToMapStep(entries: seq<(string, JsValue)>, n: nat)
    requires DistinctKeys(entries) && n < |entries|
    ensures DistinctKeys(entries[..n]) && DistinctKeys(entries[..n + 1])
    ensures entries[n].0 !in ToMap(entries[..n])
    ensures ToMap(entries[..n + 1]) == ToMap(entries[..n])[entries[n].0 := entries[n].1]
  {
    assert entries[..n + 1][..n] == entries[..n];
  }

  /** Taking one more entry of `second` into account is one more
      assignment `acc[k] = v`, or none. */
  lemma DifferenceStep(first: map<string, JsValue>, seen: map<string, JsValue>, k: string, v: JsValue, defaults: map<string, JsValue>)
    requires k !in seen
    ensures Difference(first, seen[k := v], defaults) ==
      if !StrictEquals(Get(first, k), v)
      then Difference(first, seen, defaults)[k := v]
      else Difference(first, seen, defaults)
  {
    var after := Difference(first, seen[k := v], defaults);
    var before := Difference(first, seen, defaults);
    var expected := if !StrictEquals(Get(first, k), v) then before[k := v] else before;
    assert forall j :: j != k ==> (Differs(first, seen[k := v], j) <==> Differs(first, seen, j));
    assert after.Keys == expected.Keys;
  }

  /** `objectDifference`: the `reduce` over `Object.entries(second)`,
      writing into `defaultValues` and returning that same object. */
  method ObjectDifference(first: map<string, JsValue>, second: seq<(string, JsValue)>, defaultValues: JsObject)
    returns (acc: JsObject)
    requires DistinctKeys(second)
    modifies defaultValues
    ensures acc == defaultValues
    ensures acc.props == Difference(first, ToMap(second), old(defaultValues.props))
  {
    acc := defaultValues;
    ghost var defaults := acc.props;
    assert second[..0] == [];
    for n := 0 to |second|
      invariant acc == defaultValues
      invariant DistinctKeys(second[..n])
      invariant acc.props == Difference(first, ToMap(second[..n]), defaults)
    {
      ToMapStep(second, n);
      var (k, v) := second[n];
      DifferenceStep(first, ToMap(second[..n]), k, v, defaults);
      if Get(first, k) != v || v == Num(NaN) {
        acc.props := acc.props[k := v];
      }
    }
    assert second[..|second|] == second;
  }

  /** Diffing an object against itself with no defaults keeps exactly the
      entries whose value is NaN, since NaN !== NaN. */
  lemma SelfDifference(o: map<string, JsValue>)
    ensures forall k :: k in Difference(o, o, map[]) <==> k in o && o[k] == Num(NaN)
  {
  }

  /** ... so an object without NaN values diffs against itself to {}. */
  lemma SelfDifferenceEmpty(o: map<string, JsValue>)
    requires forall k :: k in o ==> o[k] != Num(NaN)
    ensures Difference(o, o, map[]) == map[]
  {
    SelfDifference(o);
    assert Difference(o, o, map[]).Keys == {};
  }
}
