/**
 * How many blocks `ByteArray::addCapacity` links for a request (myhttp/bytearray.cpp:508-543), against what its
 * declaration promises: room for `size` more bytes behind the cursor (myhttp/bytearray.h:473-476).
 */
module Capacity {
  import opened Bytes

  /** `Shipped` is the formula in the source; `Ceiling` is the rounding its declaration calls for. */
  datatype Growth = Shipped | Ceiling

  /** Blocks linked when `size` bytes are requested and `free` bytes lie between the cursor and the capacity. */
  function BlocksToAdd(growth: Growth, base: nat, size: nat, free: nat): nat
    requires 0 < base
  {
    if size <= free then
      0
    else
      var r := size - free;
      var extra := match growth
        case Shipped => r % base > free
        case Ceiling => r % base > 0;
      r / base + if extra then 1 else 0
  }

  /** The promise of addCapacity: afterwards `size` bytes fit behind the cursor. */
  predicate Suffices(growth: Growth, base: nat, size: nat, free: nat)
    requires 0 < base
  {
    size <= free + Span(base, BlocksToAdd(growth, base, size, free))
  }

  /** With no free space at all both formulas link at least one block and keep the promise. */
  lemma FullArrayGrows(growth: Growth, base: nat, size: nat)
    requires 0 < base && 0 < size
    ensures BlocksToAdd(growth, base, size, 0) > 0
    ensures Suffices(growth, base, size, 0)
  {
    DivModSplit(size, base);
  }

  /**
   * The shipped formula keeps the promise exactly when the shortfall fills whole blocks or overflows the old free
   * space.
   */
  lemma ShippedSufficesIff(base: nat, size: nat, free: nat)
    requires 0 < base
    ensures Suffices(Shipped, base, size, free)
       <==> size <= free || (size - free) % base == 0 || (size - free) % base > free
  {
    if size > free {
      var r := size - free;
      SpanIsProduct(base, r / base);
      assert r == Span(base, r / base) + r % base;
    }
  }

  /** For a write of at most one block that straddles a block boundary: more than half of it must lie beyond. */
  lemma ShippedStraddle(base: nat, size: nat, free: nat)
    requires 0 < free < size <= base
    ensures Suffices(Shipped, base, size, free) <==> size - free > free
  {
    ShippedSufficesIff(base, size, free);
  }

  /** One byte written into a fresh array, then 4096 more: the shipped formula links no block at all. */
  lemma ShippedFallsShort()
    ensures BlocksToAdd(Shipped, 4096, 4096, 4095) == 0
    ensures !Suffices(Shipped, 4096, 4096, 4095)
  {
  }

  /** Ceiling division always keeps the promise and never links a block that stays wholly unused. */
  lemma CeilingSuffices(base: nat, size: nat, free: nat)
    requires 0 < base
    ensures Suffices(Ceiling, base, size, free)
    ensures size > free ==> free + Span(base, BlocksToAdd(Ceiling, base, size, free)) - size < base
  {
    if size > free {
      var r := size - free;
      SpanIsProduct(base, r / base);
      assert r == Span(base, r / base) + r % base;
    }
  }

  /** Where the two formulas differ the shipped one links exactly one block too few. */
  lemma ShippedShortByOne(base: nat, size: nat, free: nat)
    requires 0 < base
    ensures BlocksToAdd(Ceiling, base, size, free)
         == BlocksToAdd(Shipped, base, size, free) + if Suffices(Shipped, base, size, free) then 0 else 1
  {
    ShippedSufficesIff(base, size, free);
  }
}
