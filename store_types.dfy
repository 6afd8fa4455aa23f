/** The shapes of src/store/types.ts and the Point/Cursor shapes of
    src/selection.ts. */
module StoreTypes {
  import opened Wrappers
  import opened Decimal

  /** `PrimitiveValue`: a string, number or boolean (numbers as integers). */
  datatype Primitive = PBool(b: bool) | PNumber(n: int) | PString(s: string)

  /** A value held in the `values` map, as it exists at run time: a primitive,
      a text handle (modelled by its characters), or an array of values.
      A key is a string primitive, a list of keys is an array of them, and a
      list of (property, key) pairs is an array of two-element arrays. */
  datatype FlatValue = FPrim(p: Primitive) | FText(text: string) | FList(items: seq<FlatValue>)

  /** `Key = RootKey | NonRootKey`: keys are strings at run time. */
  type Key = string

  const RootKey: Key := "root"

  /** How a key is held inside a flat value. */
  function KeyValue(k: Key): FlatValue { FPrim(PString(k)) }

  /** The string a key-shaped flat value holds ("" for anything else, which
      every caller has already excluded with `IsNonRootKey`). */
  function KeyOf(v: FlatValue): Key {
    if v.FPrim? && v.p.PString? then v.p.s else ""
  }

  /** `isNonRootKey`: a string of one or more ASCII digits. */
  predicate IsNonRootKey(v: FlatValue) {
    v.FPrim? && v.p.PString? && IsDigitString(v.p.s)
  }

  /** A key-shaped value holds its key, and the root key is never accepted
      as a non-root key. */
  lemma KeyValueRoundTrip(k: Key)
    ensures KeyOf(KeyValue(k)) == k
    ensures IsNonRootKey(KeyValue(k)) <==> IsDigitString(k)
    ensures !IsNonRootKey(KeyValue(RootKey))
  {
    assert !IsDigit(RootKey[0]);
  }

  /** Every key `String(n)` passes `isNonRootKey`. */
  lemma GeneratedKeyIsNonRoot(n: nat)
    ensures IsNonRootKey(KeyValue(NatToDecimal(n)))
    ensures NatToDecimal(n) != RootKey
  {
    assert !IsDigit(RootKey[0]);
  }

  /** `Point`: a key and an optional character offset. */
  datatype Point = Point(key: Key, index: Option<int>)

  /** `Cursor`: a start and an end point. */
  datatype Cursor = Cursor(start: Point, end: Point)
}
