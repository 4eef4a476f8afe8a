/**
 * A custom adapter for the MyCustomALong constraint with two entry points:
 * the primitive `isValid(long)` and the boxed `isValid(Long)`. As written they
 * accept different numbers.
 */
module CustomAdapters {
  import opened Values

  newtype int64 = x: int | -0x8000_0000_0000_0000 <= x < 0x8000_0000_0000_0000

  /** `isValid(long value)`. */
  predicate IsValidPrimitive(value: int64)
  {
    value == 4
  }

  /** `isValid(Long value)`; `None` is a null Long. */
  predicate IsValidBoxed(value: Option<int64>)
  {
    value.None? || value.value == 3
  }

  /** The primitive path accepts exactly 4. */
  lemma PrimitiveAcceptsFour(value: int64)
    ensures IsValidPrimitive(value) <==> value == 4
  {
  }

  /** The boxed path accepts null, and a non-null value exactly when it is 3. */
  lemma BoxedAcceptsNullOrThree(value: Option<int64>)
    ensures value.None? ==> IsValidBoxed(value)
    ensures value.Some? ==> (IsValidBoxed(value) <==> value.value == 3)
  {
  }

  /** The two paths disagree on exactly two logical values: 3 passes boxed but
      fails primitive, and 4 the reverse. */
  lemma PathsDisagree(value: int64)
    ensures IsValidPrimitive(value) != IsValidBoxed(Some(value)) <==> value == 3 || value == 4
    ensures IsValidBoxed(Some(3)) && !IsValidPrimitive(3)
    ensures IsValidPrimitive(4) && !IsValidBoxed(Some(4))
  {
  }
}
