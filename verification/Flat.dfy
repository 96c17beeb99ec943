/**
 * What a ByteArray stands for: one flat byte sequence with a cursor (myhttp/bytearray.h:361-408).
 * The class in ByteArray.dfy is proved against these functions.
 */
module FlatBytes {
  import opened Bytes
  import opened Capacity

  /** `content` is everything below the high-water mark m_size; the cursor is m_position. */
  datatype Flat = Flat(growth: Growth, base: nat, content: seq<byte>, position: nat, capacity: nat) {
    predicate Ok() {
      0 < base && position <= |content| <= capacity
    }

    function Readable(): nat
      requires Ok()
    {
      |content| - position
    }
  }

  /**
   * `rest` is the state the call leaves; NullBlock stands for following a null block pointer, which ends the program.
   */
  datatype Got<+T> = Got(value: T, rest: Flat) | OutOfRange(rest: Flat) | NullBlock

  /** None when the blocks linked by addCapacity do not reach far enough and the copy runs off the list. */
  function Write(f: Flat, bytes: seq<byte>): (r: Option<Flat>)
    requires f.Ok()
    ensures r.Some? ==> r.value.Ok()
  {
    if bytes == [] then
      Some(f)
    else
      var free := f.capacity - f.position;
      var blocks := BlocksToAdd(f.growth, f.base, |bytes|, free);
      if Suffices(f.growth, f.base, |bytes|, free) then
        Some(f.(content := Overwrite(f.content, f.position, bytes),
                position := f.position + |bytes|,
                capacity := f.capacity + Span(f.base, blocks)))
      else
        None
  }

  /** Even a read of nothing dereferences the cursor's block, which is null at the capacity. */
  function Read(f: Flat, n: nat): (r: Got<seq<byte>>)
    requires f.Ok()
    ensures !r.NullBlock? ==> r.rest.Ok()
    ensures r.Got? ==> |r.value| == n
  {
    if n > f.Readable() then
      OutOfRange(f)
    else if f.position == f.capacity then
      NullBlock
    else
      Got(f.content[f.position..f.position + n], f.(position := f.position + n))
  }

  /** setPosition below the high-water mark; above it the class exposes whatever the blocks hold. */
  function Seek(f: Flat, p: nat): (r: Flat)
    requires f.Ok() && p <= |f.content|
    ensures r.Ok()
  {
    f.(position := p)
  }

  /** A write changes exactly the window behind the cursor. */
  lemma WriteFrame(f: Flat, bytes: seq<byte>)
    requires f.Ok() && Write(f, bytes).Some?
    ensures var g := Write(f, bytes).value;
            && g.position == f.position + |bytes|
            && g.content[f.position..g.position] == bytes
            && (forall i :: 0 <= i < |f.content| && !(f.position <= i < g.position) ==> g.content[i] == f.content[i])
            && |g.content| == if g.position > |f.content| then g.position else |f.content|
  {
  }

  /** Writing with ceiling growth never runs off the block list; nor does the shipped growth at a full array. */
  lemma WriteSucceeds(f: Flat, bytes: seq<byte>)
    requires f.Ok()
    ensures f.growth == Ceiling ==> Write(f, bytes).Some?
    ensures f.position == f.capacity ==> Write(f, bytes).Some?
    ensures |bytes| <= f.capacity - f.position ==> Write(f, bytes).Some? && Write(f, bytes).value.capacity == f.capacity
  {
    var free := f.capacity - f.position;
    CeilingSuffices(f.base, |bytes|, free);
    ShippedSufficesIff(f.base, |bytes|, free);
  }

  /** What was written is what is read back from the old cursor, and the cursor ends where the write left it. */
  lemma ReadBack(f: Flat, bytes: seq<byte>)
    requires f.Ok() && bytes != [] && Write(f, bytes).Some?
    ensures var g := Write(f, bytes).value;
            Read(Seek(g, f.position), |bytes|) == Got(bytes, g)
  {
  }

  /** Two writes in a row leave the bytes of one write of both. */
  lemma WriteWrite(f: Flat, a: seq<byte>, b: seq<byte>)
    requires f.Ok() && Write(f, a).Some? && Write(Write(f, a).value, b).Some?
    ensures var g := Write(Write(f, a).value, b).value;
            && g.content == Overwrite(f.content, f.position, a + b)
            && g.position == f.position + |a + b|
  {
  }
}
