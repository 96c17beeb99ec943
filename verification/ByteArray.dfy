/** The block list of myhttp/bytearray.cpp, proved to act as the flat sequence of Flat.dfy. */
module ByteArrays {
  import opened Bytes
  import opened Capacity
  import F = FlatBytes

  datatype Endian = LittleEndian | BigEndian

  /** One iovec: `len` bytes of a block, starting at `off`. */
  datatype IoVec = IoVec(buf: array<byte>, off: nat, len: nat)

  datatype ReadResult<+T> = Value(value: T) | Throws | NullDeref

  class Node {
    const ptr: array<byte>
    const size: nat
    var next: Node?
    ghost const id: nat  // its place in the list

    constructor (s: nat, ghost id: nat)
      ensures fresh(ptr) && ptr.Length == size == s && next == null && this.id == id
    {
      this.id := id;
      ptr := new byte[s];
      size := s;
      next := null;
    }
  }

  ghost function WindowsOf(blocks: seq<Node>, base: nat, c: nat, off: nat, len: nat): (w: seq<IoVec>)
    requires off < base
    decreases |blocks| - c
  {
    if len == 0 || c >= |blocks| then
      []
    else
      var n := if base - off >= len then len else base - off;
      [IoVec(blocks[c].ptr, off, n)] + WindowsOf(blocks, base, c + 1, 0, len - n)
  }

  /** Collecting one iovec leaves the rest of the list to be collected from the next block. */
  lemma CollectStep(iovs: seq<IoVec>, blocks: seq<Node>, base: nat, c: nat, off: nat, len: nat)
    requires off < base && 0 < len && c < |blocks|
    ensures len <= base - off ==>
              iovs + WindowsOf(blocks, base, c, off, len)
                == iovs + [IoVec(blocks[c].ptr, off, len)] + WindowsOf(blocks, base, c, off, 0)
    ensures len > base - off ==>
              iovs + WindowsOf(blocks, base, c, off, len)
              == iovs + [IoVec(blocks[c].ptr, off, base - off)] + WindowsOf(blocks, base, c + 1, 0, len - (base - off))
  {
    assert len <= base - off ==> WindowsOf(blocks, base, c + 1, 0, 0) == [];
  }

  /** memcpy into a block. */
  method CopyInto(dst: array<byte>, at: nat, src: seq<byte>)
    requires at + |src| <= dst.Length
    modifies dst
    ensures dst[..] == Splice(old(dst[..]), at, src)
  {
    forall i | 0 <= i < |src| {
      dst[at + i] := src[i];
    }
  }

  class ByteArray {
    const growth: Growth
    const base: nat
    var position: nat
    var capacity: nat
    var size: nat
    var endian: Endian
    var root: Node
    var cur: Node?

    ghost var blocks: seq<Node>
    ghost var cells: seq<seq<byte>>
    ghost var at: nat
    ghost var owner: map<array<byte>, nat>
    ghost var Repr: set<object>

    /** Block `i` holds cells[i] and is followed by block `i + 1`, the last one by null; no two share a buffer. */
    ghost predicate Linked(i: nat)
      requires i < |blocks| == |cells|
      reads this, Repr
    {
      var b := blocks[i];
      && b in Repr && b.ptr in Repr
      && b.size == b.ptr.Length == base
      && b.ptr[..] == cells[i]
      && b.next == (if i + 1 < |blocks| then blocks[i + 1] else null)
      && b.id == i && b.ptr in owner && owner[b.ptr] == i
    }

    ghost predicate Chain()
      reads this, Repr
    {
      && 0 < base
      && this in Repr
      && |blocks| == |cells| > 0
      && blocks[0] == root
      && (forall i :: 0 <= i < |blocks| ==> Linked(i))
      && Uniform(cells, base)
      && capacity == Span(base, |blocks|)
    }

    /** The cursor stands in block `at`, whose pointer is m_cur, or behind the last block, where m_cur is null. */
    ghost predicate Valid()
      reads this, Repr
    {
      && Chain()
      && position <= size <= capacity
      && CursorIn(at)
    }

    ghost predicate CursorIn(c: nat)
      reads this
    {
      && c <= |blocks|
      && Span(base, c) <= position < Span(base, c) + base
      && position <= capacity
      && cur == BlockAt(c)
    }

    ghost function BlockAt(i: nat): Node?
      requires i <= |blocks|
      reads this
    {
      if i < |blocks| then blocks[i] else null
    }

    /** Every byte of every block, used or not. */
    ghost function Data(): seq<byte>
      reads this
    {
      Concat(cells)
    }

    ghost function View(): (f: F.Flat)
      requires Valid()
      reads this, Repr
      ensures f.Ok()
    {
      ConcatLength(cells, base);
      F.Flat(growth, base, Data()[..size], position, capacity)
    }

    /** m_cur is block number m_position / m_baseSize, and null exactly when the cursor is at the capacity. */
    lemma CursorBlock()
      requires Valid()
      ensures at == position / base && position % base == position - Span(base, at)
      ensures cur == null <==> position == capacity
      ensures cur != null ==> at < |blocks| && cur == blocks[at]
    {
      SpanDivMod(base, at, position - Span(base, at));
      SpanStep(base, at, |blocks|);
    }

    /** Block size 0 is accepted too, but the invariant of the other methods, which divide by it, is not met then. */
    constructor (growth: Growth, baseSize: nat)
      ensures fresh(Repr) && endian == BigEndian && position == size == 0 && capacity == base == baseSize
      ensures root == cur && root.size == baseSize && root.next == null
      ensures 0 < baseSize <==> Valid()
      ensures 0 < baseSize ==> View() == F.Flat(growth, baseSize, [], 0, baseSize)
    {
      this.growth := growth;
      base := baseSize;
      position, capacity, size := 0, baseSize, 0;
      endian := BigEndian;
      var n := new Node(baseSize, 0);
      root, cur, at := n, n, 0;
      blocks, cells := [n], [n.ptr[..]];
      owner := map[n.ptr := 0];
      Repr := {this, n, n.ptr};
      new;
      if 0 < baseSize {
        assert cells[0] == n.ptr[..] && Span(base, 1) == Span(base, 0) + base;
        assert Linked(0);
        assert Chain();
      }
    }

    method SetLittleEndian(val: bool)
      modifies `endian
      ensures endian == if val then LittleEndian else BigEndian
    {
      endian := if val then LittleEndian else BigEndian;
    }

    /** Drops every block but the first. */
    method Clear()
      requires Valid()
      modifies this`position, this`size, this`capacity, this`cur, this`at, this`blocks, this`cells, root`next
      ensures Valid()
      ensures View() == F.Flat(growth, base, [], 0, base)
      ensures cells == old(cells)[..1]
    {
      assert Linked(0);
      position, size := 0, 0;
      capacity := base;
      cur, at := root, 0;
      root.next := null;
      blocks, cells := blocks[..1], cells[..1];
    }

    /** Appends one block behind the last one. */
    method LinkBlock(last: Node) returns (n: Node)
      requires Chain() && last == blocks[|blocks| - 1]
      modifies this`capacity, this`blocks, this`cells, this`owner, this`Repr, last`next
      ensures Chain() && fresh(Repr - old(Repr)) && old(Repr) <= Repr
      ensures blocks == old(blocks) + [n] && |cells| == |old(cells)| + 1 && cells[..|old(cells)|] == old(cells)
    {
      assert Linked(|blocks| - 1);
      n := new Node(base, |blocks|);
      last.next := n;
      capacity := capacity + base;
      blocks, cells := blocks + [n], cells + [n.ptr[..]];
      owner := owner[n.ptr := |blocks| - 1];
      Repr := Repr + {n, n.ptr};
      forall i | 0 <= i < |blocks|
        ensures Linked(i)
      {
        if i < |blocks| - 1 {
          assert old(Linked(i));
        }
      }
    }

    /** Walks to the last block and appends `count` blocks; `first` is the first of them. */
    method LinkBlocks(count: nat) returns (first: Node?)
      requires Chain()
      modifies this`capacity, this`blocks, this`cells, this`owner, this`Repr, Repr
      ensures Chain() && fresh(Repr - old(Repr)) && old(Repr) <= Repr
      ensures |blocks| == |old(blocks)| + count && cells[..|old(cells)|] == old(cells)
      ensures blocks[..|old(blocks)|] == old(blocks)
      ensures first == if count == 0 then null else blocks[|old(blocks)|]
      ensures position == old(position) && size == old(size) && endian == old(endian) && cur == old(cur)
              && at == old(at)
    {
      var tmp := root;
      ghost var k := 0;
      assert Linked(0);
      while tmp.next != null
        invariant k < |blocks| && tmp == blocks[k] && Linked(k)
        decreases |blocks| - k
      {
        tmp := tmp.next;
        k := k + 1;
      }
      first := null;
      var i := 0;
      while i < count
        invariant 0 <= i <= count
        invariant Chain() && fresh(Repr - old(Repr)) && old(Repr) <= Repr
        invariant position == old(position) && size == old(size) && endian == old(endian) && cur == old(cur)
                  && at == old(at)
        invariant |blocks| == |old(blocks)| + i && cells[..|old(cells)|] == old(cells)
        invariant blocks[..|old(blocks)|] == old(blocks)
        invariant tmp == blocks[|blocks| - 1]
        invariant first == if i == 0 then null else blocks[|old(blocks)|]
      {
        assert Linked(|blocks| - 1);
        tmp := LinkBlock(tmp);
        if first == null {
          first := tmp;
        }
        i := i + 1;
      }
    }

    /** Links the blocks the growth formula asks for; bytes, cursor and high-water mark stay. */
    method AddCapacity(n: nat)
      requires Valid()
      modifies Repr
      ensures Valid() && fresh(Repr - old(Repr)) && old(Repr) <= Repr
      ensures position == old(position) && size == old(size) && endian == old(endian)
      ensures capacity == old(capacity) + Span(base, BlocksToAdd(growth, base, n, old(capacity) - position))
      ensures |cells| >= |old(cells)| && cells[..|old(cells)|] == old(cells)
    {
      var free := capacity - position;
      if free >= n {
        return;
      }
      var count := BlocksToAdd(growth, base, n, free);
      FullArrayGrows(growth, base, n);
      CursorBlock();
      SpanAdd(base, |blocks|, count);
      var first := LinkBlocks(count);
      if free == 0 {
        EnterBlock(first);
      }
    }

    /** The cursor was at the old capacity and m_cur was null; now there is a block to stand in. */
    method EnterBlock(first: Node?)
      requires Chain() && at < |blocks| && first == blocks[at] && position == Span(base, at)
      modifies this`cur
      ensures Chain() && CursorIn(at)
    {
      SpanStep(base, at, |blocks|);
      cur := first;
      Kept();
    }

    /** The block list depends on the nodes and its own fields, not on the cursor or the high-water mark. */
    twostate lemma Kept()
      requires old(Chain())
      requires blocks == old(blocks) && cells == old(cells) && owner == old(owner) && Repr == old(Repr)
      requires root == old(root) && capacity == old(capacity)
      requires forall b :: b in blocks ==> unchanged(b) && unchanged(b.ptr)
      ensures Chain()
    {
      forall i | 0 <= i < |blocks|
        ensures Linked(i)
      {
        assert old(Linked(i));
      }
    }

    /** The high-water mark follows a cursor that has moved past it. */
    method RaiseSize()
      requires Chain() && CursorIn(at) && size <= capacity
      modifies this`size
      ensures Valid()
      ensures size == if position > old(size) then position else old(size)
    {
      if position > size {
        size := position;
        Kept();
      }
    }

    /** Growth keeps every byte that was there. */
    lemma GrownData(old_: seq<seq<byte>>)
      requires Chain() && |old_| <= |cells| && cells[..|old_|] == old_
      ensures |Data()| == capacity && |Concat(old_)| == Span(base, |old_|) <= capacity
      ensures Data()[..Span(base, |old_|)] == Concat(old_)
    {
      ConcatLength(cells, base);
      ConcatLength(old_, base);
      SpanStep(base, |old_|, |cells|);
      ConcatAppend(old_, cells[|old_|..]);
      assert cells == old_ + cells[|old_|..];
    }

    /** memcpy into block `c`: the flat bytes change in the matching window only. */
    method CopyToBlock(ghost node: Node, ghost c: nat, off: nat, buf: array<byte>, chunk: seq<byte>)
      requires Chain() && c < |blocks| && node == blocks[c] && buf == node.ptr && off + |chunk| <= base
      modifies this`cells, buf
      ensures Chain()
      ensures cells == old(cells)[c := Splice(old(cells)[c], off, chunk)]
    {
      assert Linked(c);
      CopyInto(buf, off, chunk);
      cells := cells[c := Splice(cells[c], off, chunk)];
      forall i | 0 <= i < |blocks|
        ensures Linked(i)
      {
        assert old(Linked(i));
      }
    }

    /** Moves the cursor `n` bytes on inside its block, to the next block when that was its rest. */
    method Advance(off: nat, n: nat)
      requires Chain() && CursorIn(at) && at < |blocks| && off == position - Span(base, at) && off + n <= base
      modifies this`position, this`cur, this`at
      ensures Chain() && CursorIn(at) && position == old(position) + n
      ensures off + n < base ==> at == old(at)
      ensures off + n == base ==> at == old(at) + 1 && position == Span(base, at)
    {
      SpanStep(base, at, |blocks|);
      assert Linked(at);
      if cur.size == off + n {
        cur := cur.next;
        at := at + 1;
      }
      position := position + n;
      Kept();
    }

    /** Copies buf[k..k + n] into the cursor's block and moves the cursor over it. */
    method PutChunk(off: nat, buf: seq<byte>, k: nat, n: nat, ghost data0: seq<byte>, ghost start: nat)
      requires Chain() && CursorIn(at) && at < |blocks| && off == position - Span(base, at) && off + n <= base
      requires k + n <= |buf| && position == start + k && LaidOver(Data(), data0, start, buf, k)
      requires cur.ptr in Repr
      modifies this`cells, this`position, this`cur, this`at, cur.ptr
      ensures Chain() && CursorIn(at) && position == old(position) + n
      ensures off + n < base ==> at == old(at)
      ensures off + n == base ==> at == old(at) + 1 && position == Span(base, at)
      ensures LaidOver(Data(), data0, start, buf, k + n)
    {
      assert Linked(at);
      ConcatSplice(cells, base, at, off, buf[k..k + n]);
      LaidOverStep(Data(), data0, start, buf, k, n);
      CopyToBlock(cur, at, off, cur.ptr, buf[k..k + n]);
      Advance(off, n);
    }

    /** The copy loop of write; it ends on a null block exactly when the capacity is too small. */
    method CopyAll(buf: seq<byte>) returns (ok: bool)
      requires Chain() && CursorIn(at) && cur != null
      modifies Repr
      ensures blocks == old(blocks) && capacity == old(capacity) && size == old(size) && endian == old(endian)
              && Repr == old(Repr)
      ensures ok <==> old(position) + |buf| <= capacity
      ensures Chain()
      ensures ok ==> position == old(position) + |buf| && CursorIn(at)
      ensures ok ==> LaidOver(Data(), old(Data()), old(position), buf, |buf|)
    {
      SpanDivMod(base, at, position - Span(base, at));
      ConcatLength(cells, base);
      assert Linked(at);
      var npos := position % base;
      var ncap := cur.size - npos;
      var bpos, left := 0, |buf|;
      ghost var start, data0 := position, Data();
      while left > 0
        invariant 0 <= bpos && 0 <= left && bpos + left == |buf| && position == start + bpos
        invariant Chain() && CursorIn(at)
        invariant blocks == old(blocks) && capacity == old(capacity) && size == old(size) && endian == old(endian)
                  && Repr == old(Repr)
        invariant left > 0 ==> at < |blocks| && npos == position - Span(base, at) && ncap == base - npos
        invariant LaidOver(Data(), data0, start, buf, bpos)
      {
        SpanStep(base, at, |blocks|);
        assert Linked(at);
        var n := if ncap >= left then left else ncap;
        PutChunk(npos, buf, bpos, n, data0, start);
        bpos := bpos + n;
        left := left - n;
        if left > 0 {
          if cur == null {
            return false;
          }
          assert Linked(at);
          ncap := cur.size;
          npos := 0;
        }
      }
      ok := true;
    }

    /** False when the copy follows the null behind the last block. */
    method Write(buf: seq<byte>) returns (ok: bool)
      requires Valid()
      modifies Repr
      ensures ok <==> F.Write(old(View()), buf).Some?
      ensures ok ==> Valid() && fresh(Repr - old(Repr)) && endian == old(endian)
      ensures ok ==> View() == F.Write(old(View()), buf).value
      ensures ok ==> |old(Data())| == old(capacity) && |Data()| == capacity
      ensures ok ==> Data()[..old(capacity)] == Overwrite(old(Data()), old(position), buf)[..old(capacity)]
    {
      ghost var f, d0 := View(), Data();
      ConcatLength(cells, base);
      if |buf| == 0 {
        return true;
      }
      AddCapacity(|buf|);
      GrownData(old(cells));
      ghost var d1 := Data();
      CursorBlock();
      FullArrayGrows(growth, base, |buf|);
      WriteView(f, d0, d1, buf);
      if cur == null {
        return false;
      }
      ok := CopyAll(buf);
      if ok {
        LaidOverAll(Data(), d1, f.position, buf);
        RaiseSize();
      }
    }

    /**
     * What a read answers, against the flat sequence's answer; nothing is left to say once a null block was followed.
     */
    ghost predicate Agrees<T>(flat: F.Got<T>, r: ReadResult<T>)
      reads this, Repr
    {
      match flat
      case Got(v, rest) => r == Value(v) && Valid() && View() == rest
      case OutOfRange(rest) => r == Throws && Valid() && View() == rest
      case NullBlock => r == NullDeref
    }

    /** The `n` bytes at offset `off` of block `c`. */
    method BlockBytes(node: Node, ghost c: nat, off: nat, n: nat) returns (bytes: seq<byte>)
      requires Chain() && c < |blocks| && node == blocks[c] && off + n <= base
      ensures Span(base, c) + off + n <= |Data()| == capacity
      ensures bytes == Data()[Span(base, c) + off..Span(base, c) + off + n]
    {
      assert Linked(c);
      ConcatWindow(cells, base, c, off, n);
      bytes := node.ptr[off..off + n];
    }

    /** Takes the next `n` bytes of the cursor's block and moves the cursor over them. */
    method TakeChunk(off: nat, n: nat, out: seq<byte>, ghost start: nat) returns (out': seq<byte>)
      requires Chain() && CursorIn(at) && at < |blocks| && off == position - Span(base, at) && off + n <= base
      requires position == start + |out| && Window(out, Data(), start)
      modifies this`position, this`cur, this`at
      ensures Chain() && CursorIn(at) && position == old(position) + n && |out'| == |out| + n
      ensures off + n < base ==> at == old(at)
      ensures off + n == base ==> at == old(at) + 1 && position == Span(base, at)
      ensures Window(out', Data(), start)
    {
      var chunk := BlockBytes(cur, at, off, n);
      WindowStep(Data(), start, out, chunk);
      Advance(off, n);
      out' := out + chunk;
    }

    method Read(n: nat) returns (r: ReadResult<seq<byte>>)
      requires Valid()
      modifies this`position, this`cur, this`at
      ensures Agrees(F.Read(old(View()), n), r)
      ensures r.NullDeref? <==> n == 0 && old(position) == capacity
    {
      ghost var f := View();
      CursorBlock();
      ConcatLength(cells, base);
      if n > size - position {
        return Throws;
      }
      if cur == null {
        return NullDeref;
      }
      assert Linked(at);
      var npos := position % base;
      var ncap := cur.size - npos;
      var out, left := [], n;
      ghost var start := position;
      while left > 0
        invariant 0 <= left && |out| + left == n && position == start + |out|
        invariant Chain() && CursorIn(at)
        invariant left > 0 ==> at < |blocks| && npos == position - Span(base, at) && ncap == base - npos
        invariant Window(out, Data(), start)
      {
        if ncap >= left {
          out := TakeChunk(npos, left, out, start);
          left := 0;
        } else {
          out := TakeChunk(npos, ncap, out, start);
          left := left - ncap;
          SpanStep(base, at, |blocks|);
          assert at < |blocks| && Linked(at);
          ncap := cur.size;
          npos := 0;
        }
      }
      assert f.content[start..start + n] == Data()[start..start + n];
      r := Value(out);
    }

    /**
     * The positioned read starts in the cursor's block, whatever the position: it copies from byte `p % base` of that
     * block. It throws on the cursor's readable size, and runs off the list when the blocks behind it are too few.
     */
    method ReadAt(n: nat, p: nat) returns (r: ReadResult<seq<byte>>)
      requires Valid()
      ensures |Data()| == capacity
      ensures r.Throws? <==> n > size - position
      ensures r.NullDeref? <==> n <= size - position && (cur == null || AtStart(p) + n > capacity)
      ensures r.Value? ==> AtStart(p) + n <= capacity && r.value == Data()[AtStart(p)..AtStart(p) + n]
    {
      CursorBlock();
      ConcatLength(cells, base);
      if n > size - position {
        return Throws;
      }
      if cur == null {
        return NullDeref;
      }
      SpanStep(base, at, |blocks|);
      r := CopyOut(cur, at, p % base, n);
    }

    /** The copy loop of the positioned read, from byte `off` of block `first`. */
    method CopyOut(from: Node, ghost first: nat, off: nat, n: nat) returns (r: ReadResult<seq<byte>>)
      requires Chain() && first < |blocks| && from == blocks[first] && off < base
      ensures |Data()| == capacity && Span(base, first) + off < capacity
      ensures r == (if Span(base, first) + off + n <= capacity
                    then Value(Data()[Span(base, first) + off..Span(base, first) + off + n]) else NullDeref)
    {
      ConcatLength(cells, base);
      SpanStep(base, first, |blocks|);
      assert Linked(first);
      ghost var start: nat, c: nat := Span(base, first) + off, first;
      var node: Node? := from;
      var npos: nat, ncap: nat := off, from.size - off;
      var out, left := [], n;
      while left > 0
        invariant 0 <= left && |out| + left == n
        invariant c <= |blocks| && node == BlockAt(c)
        invariant left > 0 ==> c < |blocks| && Span(base, c) + npos == start + |out| && ncap == base - npos > 0
        invariant Window(out, Data(), start)
      {
        SpanStep(base, c, |blocks|);
        assert Linked(c);
        if ncap >= left {
          var chunk := BlockBytes(node, c, npos, left);
          WindowStep(Data(), start, out, chunk);
          if node.size == npos + left {
            node := node.next;
            c := c + 1;
          }
          out := out + chunk;
          left := 0;
        } else {
          var chunk := BlockBytes(node, c, npos, ncap);
          WindowStep(Data(), start, out, chunk);
          out := out + chunk;
          left := left - ncap;
          node := node.next;
          c := c + 1;
          if node == null {
            return NullDeref;
          }
          assert Linked(c);
          ncap := node.size;
          npos := 0;
        }
      }
      r := Value(out);
    }

    /** Where the positioned read starts: the asked-for offset inside the cursor's block. */
    ghost function AtStart(p: nat): nat
      requires Valid()
      reads this, Repr
    {
      Span(base, at) + p % base
    }

    /** The positioned read is right exactly for the positions of the cursor's own block. */
    lemma PositionedReadIff(p: nat)
      requires Valid()
      ensures AtStart(p) == p <==> p / base == position / base
    {
      CursorBlock();
      DivModSplit(p, base);
      SpanStep(base, p / base, at);
      SpanStep(base, at, p / base);
    }

    /** The readable bytes; it always answers. */
    method ToString() returns (str: seq<byte>)
      requires Valid()
      ensures str == View().content[position..]
    {
      CursorBlock();
      ConcatLength(cells, base);
      if size - position == 0 {
        return [];
      }
      PositionedReadIff(position);
      var r := ReadAt(size - position, position);
      str := r.value;
    }

    /** The walk of setPosition from the root to the block of position `p`; it never meets null on the way. */
    method WalkTo(p: nat) returns (node: Node?, ghost k: nat)
      requires Chain() && p <= capacity
      ensures k <= |blocks| && Span(base, k) <= p < Span(base, k) + base && node == BlockAt(k)
    {
      var v := p;
      node, k := root, 0;
      assert Linked(0);
      while v > node.size
        invariant 0 <= v && k < |blocks| && node == blocks[k] && node.size == base && Span(base, k) + v == p
        decreases v
      {
        assert Linked(k);
        SpanStep(base, |blocks|, k + 1);
        v := v - node.size;
        node, k := node.next, k + 1;
        assert Linked(k);
      }
      assert Linked(k);
      if v == node.size {
        node, k := node.next, k + 1;
      }
    }

    /** True when the position is beyond the capacity and the call throws. */
    method SetPosition(p: nat) returns (throws: bool)
      requires Valid()
      modifies this`position, this`size, this`cur, this`at
      ensures throws <==> p > capacity
      ensures throws ==> position == old(position) && size == old(size) && cur == old(cur) && at == old(at)
      ensures Valid() && Data() == old(Data()) && |Data()| == capacity
      ensures !throws ==> position == p && size == if p > old(size) then p else old(size)
      ensures !throws && p <= old(size) ==> View() == F.Seek(old(View()), p)
      ensures !throws && p > old(size) ==> View() == F.Flat(growth, base, Data()[..p], p, capacity)
    {
      ConcatLength(cells, base);
      if p > capacity {
        return true;
      }
      position := p;
      if position > size {
        size := position;
      }
      Kept();
      cur, at := WalkTo(p);
      Kept();
      throws := false;
    }

    /** The iovecs for `len` bytes from byte `off` of block `c` on: the rest of that block, then block after block. */
    ghost function Windows(c: nat, off: nat, len: nat): (w: seq<IoVec>)
      requires off < base
      reads this
    {
      WindowsOf(blocks, base, c, off, len)
    }

    /** The collecting loop of getReadBuffers and getWriteBuffers; false when it follows a null block. */
    method Collect(from: Node?, ghost first: nat, off: nat, len: nat) returns (ok: bool, iovs: seq<IoVec>)
      requires Chain() && first <= |blocks| && from == BlockAt(first) && off < base && 0 < len
      ensures ok <==> Span(base, first) + off + len <= capacity
      ensures ok ==> iovs == Windows(first, off, len)
    {
      iovs := [];
      SpanStep(base, |blocks|, first);
      if from == null {
        return false, iovs;
      }
      assert Linked(first);
      ghost var c: nat := first;
      var node: Node? := from;
      var npos: nat, ncap: nat, left: nat := off, from.size - off, len;
      while left > 0
        invariant c <= |blocks| && node == BlockAt(c) && npos < base
        invariant left > 0 ==>
                    c < |blocks| && Span(base, c) + npos + left == Span(base, first) + off + len && ncap == base - npos
        invariant left == 0 ==> Span(base, first) + off + len <= capacity
        invariant iovs + Windows(c, npos, left) == Windows(first, off, len)
      {
        SpanStep(base, c, |blocks|);
        assert Linked(c);
        CollectStep(iovs, blocks, base, c, npos, left);
        if ncap >= left {
          iovs := iovs + [IoVec(node.ptr, npos, left)];
          left := 0;
        } else {
          iovs := iovs + [IoVec(node.ptr, npos, ncap)];
          left := left - ncap;
          node := node.next;
          c := c + 1;
          if node == null {
            return false, iovs;
          }
          assert Linked(c);
          ncap := node.size;
          npos := 0;
        }
      }
      ok := true;
    }

    method GetReadBuffers(len: nat) returns (n: nat, iovs: seq<IoVec>)
      requires Valid()
      ensures n == if len > size - position then size - position else len
      ensures n == 0 ==> iovs == []
      ensures n > 0 ==> at == position / base && iovs == Windows(position / base, position % base, n)
    {
      CursorBlock();
      n := if len > size - position then size - position else len;
      if n == 0 {
        return n, [];
      }
      var ok;
      ok, iovs := Collect(cur, at, position % base, n);
    }

    /**
     * The overload with a position walks there from the root; it runs off the list when the position is too far out.
     */
    method GetReadBuffersAt(len: nat, p: nat) returns (ok: bool, n: nat, iovs: seq<IoVec>)
      requires Valid()
      ensures n == if len > size - position then size - position else len
      ensures ok <==> n == 0 || p + n <= capacity
      ensures n == 0 ==> iovs == []
      ensures ok && n > 0 ==> iovs == Windows(p / base, p % base, n)
    {
      n := if len > size - position then size - position else len;
      if n == 0 {
        return true, n, [];
      }
      DivModSplit(p, base);
      var count: nat := p / base;
      var node: Node? := root;
      ghost var c: nat := 0;
      while count > 0
        invariant 0 <= count && c + count == p / base
        invariant c <= |blocks| && node == BlockAt(c)
      {
        if node == null {
          SpanStep(base, |blocks|, p / base);
          return false, n, [];
        }
        assert Linked(c);
        node := node.next;
        count := count - 1;
        c := c + 1;
      }
      ok, iovs := Collect(node, c, p % base, n);
    }

    method GetWriteBuffers(len: nat) returns (ok: bool, iovs: seq<IoVec>)
      requires Valid()
      modifies Repr
      ensures Valid() && fresh(Repr - old(Repr)) && old(Repr) <= Repr
      ensures position == old(position) && size == old(size) && endian == old(endian)
      ensures ok <==> Suffices(growth, base, len, old(capacity) - position)
      ensures capacity == old(capacity) + Span(base, BlocksToAdd(growth, base, len, old(capacity) - position))
      ensures |cells| >= |old(cells)| && cells[..|old(cells)|] == old(cells) && View().content == old(View().content)
      ensures len == 0 ==> iovs == []
      ensures ok && len > 0 ==> iovs == Windows(position / base, position % base, len) && position + len <= capacity
    {
      if len == 0 {
        return true, [];
      }
      AddCapacity(len);
      GrownData(old(cells));
      CursorBlock();
      ConcatLength(old(cells), base);
      ok, iovs := Collect(cur, at, position % base, len);
    }

    /** The bytes the iovecs describe, one after the other. */
    static function Gather(iovs: seq<IoVec>): seq<byte>
      reads set v | v in iovs :: v.buf
    {
      if iovs == [] then
        []
      else
        var v := iovs[0];
        (if v.off + v.len <= v.buf.Length then v.buf[v.off..v.off + v.len] else []) + Gather(iovs[1..])
    }

    /** The first iovec holds the first piece of the window. */
    lemma FirstWindow(c: nat, off: nat, n: nat)
      requires Chain() && c < |blocks| && off + n <= base
      ensures Span(base, c) + off + n <= |Data()| == capacity
      ensures n <= base - off && off + n <= blocks[c].ptr.Length && blocks[c].ptr in owner
      ensures Gather([IoVec(blocks[c].ptr, off, n)]) == Data()[Span(base, c) + off..Span(base, c) + off + n]
    {
      ConcatLength(cells, base);
      assert Linked(c);
      ConcatWindow(cells, base, c, off, n);
      var one := [IoVec(blocks[c].ptr, off, n)];
      assert Gather(one[1..]) == [];
    }

    static lemma GatherFirst(v: IoVec, rest: seq<IoVec>)
      ensures Gather([v] + rest) == Gather([v]) + Gather(rest)
    {
      var all := [v] + rest;
      assert all[1..] == rest && [v][1..] == [];
    }

    /** The iovecs together hold exactly the asked-for window of the flat bytes. */
    lemma {:induction false} WindowsHold(c: nat, off: nat, len: nat)
      requires Chain() && off < base && Span(base, c) + off + len <= capacity
      ensures |Data()| == capacity
      ensures Gather(Windows(c, off, len)) == Data()[Span(base, c) + off..Span(base, c) + off + len]
      decreases len
    {
      ConcatLength(cells, base);
      if len > 0 {
        SpanStep(base, |blocks|, c);
        var n := if base - off >= len then len else base - off;
        FirstWindow(c, off, n);
        var v, rest := IoVec(blocks[c].ptr, off, n), Windows(c + 1, 0, len - n);
        GatherFirst(v, rest);
        var s := Span(base, c) + off;
        if n < len {
          WindowsHold(c + 1, 0, len - n);
        }
        assert Gather(rest) == Data()[s + n..s + len];
        WindowSplit(Data(), s, n, len);
      }
    }

    /** The iovecs are non-empty and stay inside buffers of this array. */
    lemma {:induction false} WindowsInside(c: nat, off: nat, len: nat)
      requires Chain() && off < base && Span(base, c) + off + len <= capacity
      ensures forall v :: v in Windows(c, off, len) ==>
                0 < v.len && v.off + v.len <= base == v.buf.Length && v.buf in owner
      decreases len
    {
      if len > 0 {
        SpanStep(base, |blocks|, c);
        assert Linked(c);
        var n := if base - off >= len then len else base - off;
        if n < len {
          WindowsInside(c + 1, 0, len - n);
        }
        var rest := Windows(c + 1, 0, len - n);
        assert forall v :: v in rest ==> 0 < v.len && v.off + v.len <= base == v.buf.Length && v.buf in owner;
        assert Windows(c, off, len) == [IoVec(blocks[c].ptr, off, n)] + rest;
      }
    }

    /** A kernel filling the first |bytes| bytes of the iovecs, in order. */
    method Fill(iovs: seq<IoVec>, bytes: seq<byte>, ghost first: nat, ghost off: nat, ghost len: nat)
      requires Chain() && off < base && Span(base, first) + off + len <= capacity && |bytes| <= len
      requires iovs == Windows(first, off, len)
      modifies Repr
      ensures Chain() && blocks == old(blocks) && capacity == old(capacity) && Repr == old(Repr)
      ensures size == old(size) && position == old(position) && endian == old(endian) && cur == old(cur)
              && at == old(at)
      ensures LaidOver(Data(), old(Data()), Span(base, first) + off, bytes, |bytes|)
    {
      ghost var data0, start := Data(), Span(base, first) + off;
      ghost var c: nat, o: nat, rest: nat := first, off, len;
      var i, done := 0, 0;
      ConcatLength(cells, base);
      while done < |bytes|
        invariant 0 <= done <= |bytes| && 0 <= i <= |iovs|
        invariant Chain() && blocks == old(blocks) && capacity == old(capacity) && Repr == old(Repr)
        invariant size == old(size) && position == old(position) && endian == old(endian) && cur == old(cur)
                  && at == old(at)
        invariant done < |bytes| ==>
                    o < base && Span(base, c) + o == start + done && rest == len - done
                      && iovs[i..] == Windows(c, o, rest)
        invariant LaidOver(Data(), data0, start, bytes, done)
      {
        SpanStep(base, |blocks|, c);
        assert Linked(c);
        var v := iovs[i];
        assert v == iovs[i..][0] && iovs[i + 1..] == iovs[i..][1..] == Windows(c + 1, 0, rest - v.len);
        var n := if v.len <= |bytes| - done then v.len else |bytes| - done;
        FillOne(blocks[c], c, o, v, bytes, done, n, data0, start);
        done := done + n;
        rest := rest - v.len;
        i, c, o := i + 1, c + 1, 0;
      }
    }

    /** Writes bytes[k..k + n] through an iovec into its block. */
    method FillOne(ghost node: Node, ghost c: nat, ghost off: nat, v: IoVec, bytes: seq<byte>, k: nat, n: nat,
                   ghost data0: seq<byte>, ghost start: nat)
      requires Chain() && c < |blocks| && node == blocks[c] && v.buf == node.ptr && v.off == off && off + n <= base
      requires k + n <= |bytes| && Span(base, c) + off == start + k && LaidOver(Data(), data0, start, bytes, k)
      modifies this`cells, v.buf
      ensures Chain() && LaidOver(Data(), data0, start, bytes, k + n)
    {
      assert Linked(c);
      ConcatSplice(cells, base, c, off, bytes[k..k + n]);
      LaidOverStep(Data(), data0, start, bytes, k, n);
      CopyToBlock(node, c, v.off, v.buf, bytes[k..k + n]);
    }
  }

  lemma WindowSplit(data: seq<byte>, s: nat, n: nat, len: nat)
    requires n <= len && s + len <= |data|
    ensures data[s..s + n] + data[s + n..s + len] == data[s..s + len]
  {
  }

  /** `out` is what `data` holds from `start` on. */
  ghost predicate Window(out: seq<byte>, data: seq<byte>, start: nat) {
    start + |out| <= |data| && out == data[start..start + |out|]
  }

  /** Appending the next window's bytes extends the window. */
  lemma WindowStep(data: seq<byte>, start: nat, out: seq<byte>, chunk: seq<byte>)
    requires Window(out, data, start) && Window(chunk, data, start + |out|)
    ensures Window(out + chunk, data, start)
  {
  }

  /** The flat write, from the raw bytes before (`d0`) and after (`d1`) the growth. */
  lemma WriteView(f: F.Flat, d0: seq<byte>, d1: seq<byte>, buf: seq<byte>)
    requires f.Ok() && buf != [] && |d0| == f.capacity && d0[..|f.content|] == f.content
    requires |d0| <= |d1| && d1[..|d0|] == d0
    requires |d1| == f.capacity + Span(f.base, BlocksToAdd(f.growth, f.base, |buf|, f.capacity - f.position))
    ensures F.Write(f, buf).Some? <==> f.position + |buf| <= |d1|
    ensures f.position + |buf| <= |d1| ==>
              var p := f.position + |buf|;
              var size := if p > |f.content| then p else |f.content|;
              var d2 := Splice(d1, f.position, buf);
              && F.Write(f, buf).value == F.Flat(f.growth, f.base, d2[..size], p, |d1|)
              && d2[..|d0|] == Overwrite(d0, f.position, buf)[..|d0|]
  {
    if f.position + |buf| <= |d1| {
      var p := f.position + |buf|;
      var size := if p > |f.content| then p else |f.content|;
      var d2 := Splice(d1, f.position, buf);
      forall i | 0 <= i < size
        ensures d2[i] == Overwrite(f.content, f.position, buf)[i]
      {
        assert i < |f.content| ==> f.content[i] == d0[i] == d1[i];
      }
      assert d2[..size] == Overwrite(f.content, f.position, buf);
      forall i | 0 <= i < |d0|
        ensures d2[i] == Overwrite(d0, f.position, buf)[i]
      {
        assert d0[i] == d1[i];
      }
    }
  }
}
