/**
 The generator of peer indices: a 24-bit shift register that steps through its cycle and refuses to
 begin a second round.
 */
module IndexLfsrs {
  import opened Wrappers

  type Register = bv32

  const LFSR_MAX: Register := 0xffffff
  const LFSR_POLY: Register := 0xd80000

  /** A non-zero 24-bit register. */
  predicate Fits24(x: Register) {
    0 < x <= LFSR_MAX
  }

  function Shift(x: Register): Register {
    (x >> 1) ^ (if x & 1 == 1 then LFSR_POLY else 0)
  }

  lemma ShiftStays(x: Register)
    requires Fits24(x)
    ensures Fits24(Shift(x))
  {}

  /** No two registers have the same successor. */
  lemma ShiftInjective(x: Register, y: Register)
    requires Fits24(x) && Fits24(y) && Shift(x) == Shift(y)
    ensures x == y
  {}

  lemma MaskInjective(x: Register, y: Register, mask: Register)
    requires Fits24(x) && Fits24(y) && (x - 1) ^ mask == (y - 1) ^ mask
    ensures x == y
  {}

  lemma MaskFits(x: Register, mask: Register)
    requires Fits24(x) && mask <= LFSR_MAX
    ensures (x - 1) ^ mask <= LFSR_MAX
  {}

  /** The register as a number. */
  function Value(x: Register): (n: nat)
    requires x <= LFSR_MAX
    ensures n < 0x100_0000
  {
    (x as bv24) as nat
  }

  lemma NarrowInjective(x: Register, y: Register)
    requires x <= LFSR_MAX && y <= LFSR_MAX && x as bv24 == y as bv24
    ensures x == y
  {}

  lemma NumberInjective(x: bv24, y: bv24)
    requires x as nat == y as nat
    ensures x == y
  {
    assert (x as nat) as bv24 == x;
    assert (y as nat) as bv24 == y;
  }

  lemma ValueInjective(x: Register, y: Register)
    requires x <= LFSR_MAX && y <= LFSR_MAX && Value(x) == Value(y)
    ensures x == y
  {
    NumberInjective(x as bv24, y as bv24);
    NarrowInjective(x, y);
  }

  // ---------------------------------------------------------------------------
  // The sequence of indices
  // ---------------------------------------------------------------------------

  /** The register after `n` shifts. */
  function Nth(seed: Register, n: nat): (x: Register)
    requires Fits24(seed)
    ensures Fits24(x)
  {
    if n == 0 then seed
    else
      var x := Nth(seed, n - 1);
      ShiftStays(x);
      Shift(x)
  }

  /** The cycle was not closed within `n` shifts. */
  ghost predicate Open(seed: Register, n: nat)
    requires Fits24(seed)
  {
    forall k :: 1 <= k <= n ==> Nth(seed, k) != seed
  }

  /** Going back `i` shifts from two equal registers leads to equal registers. */
  lemma {:induction false} Backwards(seed: Register, i: nat, j: nat)
    requires Fits24(seed) && i <= j && Nth(seed, i) == Nth(seed, j)
    ensures seed == Nth(seed, j - i)
    decreases i
  {
    if i > 0 {
      ShiftInjective(Nth(seed, i - 1), Nth(seed, j - 1));
      Backwards(seed, i - 1, j - 1);
    }
  }

  /** All registers before the cycle closes are distinct. */
  lemma RegistersDistinct(seed: Register, n: nat, i: nat, j: nat)
    requires Fits24(seed) && Open(seed, n) && i < j <= n
    ensures Nth(seed, i) != Nth(seed, j)
  {
    if Nth(seed, i) == Nth(seed, j) {
      Backwards(seed, i, j);
    }
  }

  /** The index that comes with a register. */
  function IndexFrom(x: Register, mask: Register): (n: nat)
    requires Fits24(x) && mask <= LFSR_MAX
    ensures n < 0x100_0000
  {
    MaskFits(x, mask);
    Value((x - 1) ^ mask)
  }

  lemma IndexFromInjective(x: Register, y: Register, mask: Register)
    requires Fits24(x) && Fits24(y) && mask <= LFSR_MAX && IndexFrom(x, mask) == IndexFrom(y, mask)
    ensures x == y
  {
    MaskFits(x, mask);
    MaskFits(y, mask);
    ValueInjective((x - 1) ^ mask, (y - 1) ^ mask);
    MaskInjective(x, y, mask);
  }

  /** The `k`-th index that the generator hands out. */
  function IndexAt(seed: Register, mask: Register, k: nat): (n: nat)
    requires Fits24(seed) && mask <= LFSR_MAX
    ensures n < 0x100_0000
  {
    IndexFrom(Nth(seed, k), mask)
  }

  /** All indices handed out before the generator refuses are distinct. */
  lemma IndicesDistinct(seed: Register, mask: Register, n: nat, i: nat, j: nat)
    requires Fits24(seed) && mask <= LFSR_MAX && Open(seed, n) && i < j <= n
    ensures IndexAt(seed, mask, i) != IndexAt(seed, mask, j)
  {
    RegistersDistinct(seed, n, i, j);
    if IndexAt(seed, mask, i) == IndexAt(seed, mask, j) {
      IndexFromInjective(Nth(seed, i), Nth(seed, j), mask);
    }
  }

  class IndexLfsr {
    const initial: Register
    const mask: Register
    var lfsr: Register
    /** How many indices were handed out. */
    ghost var count: nat

    ghost predicate Valid()
      reads this
    {
      Fits24(initial) && mask <= LFSR_MAX && lfsr == Nth(initial, count) && Open(initial, count)
    }

    constructor (seed: Register, mask: Register)
      requires Fits24(seed) && Fits24(mask)
      ensures Valid() && initial == seed && this.mask == mask && count == 0
    {
      initial, lfsr, this.mask, count := seed, seed, mask, 0;
    }

    /** The next index, or None when the cycle closes and the generator aborts. */
    method Next() returns (r: Option<nat>)
      requires Valid()
      modifies this
      ensures r.None? <==> Nth(initial, old(count) + 1) == initial
      ensures r.Some? ==> Valid() && count == old(count) + 1 && r.value == IndexAt(initial, mask, old(count))
    {
      var before := lfsr;
      lfsr := Shift(lfsr);
      assert Nth(initial, count + 1) == lfsr;
      if lfsr == initial {
        return None;
      }
      count := count + 1;
      return Some(IndexFrom(before, mask));
    }
  }
}
