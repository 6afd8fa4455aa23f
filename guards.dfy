/** The guard combinators of src/guards.ts, over run-time flat values. */
module Guards {
  import opened StoreTypes

  /** `Guard<T>`: a test on an arbitrary run-time value. */
  type Guard = FlatValue -> bool

  /** `isBoolean`: `typeof value === 'boolean'`. */
  predicate IsBoolean(v: FlatValue) { v.FPrim? && v.p.PBool? }

  /** `isString`: `typeof value === 'string'`. */
  predicate IsString(v: FlatValue) { v.FPrim? && v.p.PString? }

  /** `Array.prototype.every`: checks the items front to back. */
  function Every(g: Guard, items: seq<FlatValue>): bool
    decreases |items|
  {
    |items| == 0 || (g(items[0]) && Every(g, items[1..]))
  }

  /** `isArrayOf(itemGuard)`. */
  function IsArrayOf(itemGuard: Guard): Guard {
    (v: FlatValue) => v.FList? && Every(itemGuard, v.items)
  }

  /** `isTupleOf(guard1, guard2)`. */
  function IsTupleOf(guard1: Guard, guard2: Guard): Guard {
    (v: FlatValue) => v.FList? && |v.items| == 2 && guard1(v.items[0]) && guard2(v.items[1])
  }

  /** `every` holds exactly when each item passes. */
  lemma {:induction false} EveryIffAll(g: Guard, items: seq<FlatValue>)
    ensures Every(g, items) <==> forall i :: 0 <= i < |items| ==> g(items[i])
    decreases |items|
  {
    if |items| > 0 {
      EveryIffAll(g, items[1..]);
      assert forall i :: 1 <= i < |items| ==> items[i] == items[1..][i - 1];
    }
  }

  /** `isArrayOf(g)` accepts exactly the arrays whose every item passes `g`:
      the empty array always, a non-array never. */
  lemma IsArrayOfIff(g: Guard, v: FlatValue)
    ensures IsArrayOf(g)(v) <==> v.FList? && forall i :: 0 <= i < |v.items| ==> g(v.items[i])
    ensures IsArrayOf(g)(FList([]))
    ensures !v.FList? ==> !IsArrayOf(g)(v)
  {
    if v.FList? {
      EveryIffAll(g, v.items);
    }
  }

  /** `isTupleOf(g1, g2)` accepts a two-element array exactly when each
      element passes its guard, and rejects arrays of any other length. */
  lemma IsTupleOfIff(g1: Guard, g2: Guard, a: FlatValue, b: FlatValue, v: FlatValue)
    ensures IsTupleOf(g1, g2)(FList([a, b])) <==> g1(a) && g2(b)
    ensures v.FList? && |v.items| != 2 ==> !IsTupleOf(g1, g2)(v)
  {
  }
}
