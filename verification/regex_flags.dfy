/**
 * The pattern adapters combine the declared regex flags into one int by
 * bitwise OR before compiling the expression.
 */
module RegexFlags {

  /** The OR of the flag values, folded left to right as the constructor loops do. */
  function FlagBits(flags: seq<bv32>): bv32
  {
    if flags == [] then 0 else FlagBits(flags[..|flags| - 1]) | flags[|flags| - 1]
  }

  /** Every listed flag's bits are set in the combined value. */
  lemma {:induction false} FlagBitsIncludesEach(flags: seq<bv32>, i: nat)
    requires i < |flags|
    ensures FlagBits(flags) & flags[i] == flags[i]
    decreases |flags|
  {
    var n := |flags| - 1;
    if i < n {
      assert flags[..n][i] == flags[i];
      FlagBitsIncludesEach(flags[..n], i);
    }
  }

  /** No bit is set in the combined value unless some listed flag sets it:
      a mask that no flag touches is untouched by the result. */
  lemma {:induction false} FlagBitsOnlyListed(flags: seq<bv32>, mask: bv32)
    requires forall i :: 0 <= i < |flags| ==> Disjoint(flags[i], mask)
    ensures Disjoint(FlagBits(flags), mask)
    decreases |flags|
  {
    if flags != [] {
      var n := |flags| - 1;
      var init := flags[..n];
      forall i | 0 <= i < |init|
        ensures Disjoint(init[i], mask)
      {
        assert init[i] == flags[i];
      }
      FlagBitsOnlyListed(init, mask);
      OrOutsideMask(FlagBits(init), flags[n], mask);
    }
  }

  /** No bit in common. */
  predicate Disjoint(x: bv32, mask: bv32)
  {
    x & mask == 0
  }

  lemma OrOutsideMask(x: bv32, y: bv32, mask: bv32)
    requires Disjoint(x, mask) && Disjoint(y, mask)
    ensures Disjoint(x | y, mask)
  {
  }

  /** The constructors' `for (flag : flags) bits |= flag.getValue()` loop. */
  method CollectFlags(flags: seq<bv32>) returns (bits: bv32)
    ensures bits == FlagBits(flags)
  {
    bits := 0;
    for i := 0 to |flags|
      invariant bits == FlagBits(flags[..i])
    {
      assert flags[..i + 1][..i] == flags[..i];
      bits := bits | flags[i];
    }
    assert flags[..|flags|] == flags;
  }
}
