/** Lists of mixed records written one after the other and read back, on the flat view of a ByteArray. */
module Records {
  import opened Bytes
  import opened Capacity
  import opened Codecs
  import F = FlatBytes

  /** What the caller must know to read a record back: which read function to call. */
  datatype Kind = FixedKind(width: nat, signed: bool) | VarKind(bits: nat) | ZigzagKind | StrKind(width: nat)

  datatype Record =
    | Fixed(width: nat, signed: bool, value: int)
    | Var(bits: nat, code: nat)
    | Zigzag(delta: int)
    | Str(prefix: nat, bytes: seq<byte>)
  {
    function Kind(): Kind {
      match this
      case Fixed(w, s, _) => FixedKind(w, s)
      case Var(b, _) => VarKind(b)
      case Zigzag(_) => ZigzagKind
      case Str(w, _) => StrKind(w)
    }

    /** The argument is one the C++ parameter type can hold, and a string's size fits its prefix. */
    ghost predicate Fits() {
      match this
      case Fixed(w, s, v) => w in {1, 2, 4, 8} && InRange(v, w, s)
      case Var(b, v) => b in {32, 64} && v < Pow2(b)
      case Zigzag(v) => Int32(v)
      case Str(w, b) => w in {2, 4, 8} && |b| < Pow256(w)
    }
  }

  /** The size is passed to a write function of the prefix's width, which keeps its low bytes. */
  function StringPrefix(swap: bool, size: nat, width: nat): (r: seq<byte>)
    ensures |r| == width
  {
    Wire(swap, size, width)
  }

  /** The calls of `write` a record makes, in order. */
  function Chunks(swap: bool, r: Record): seq<seq<byte>>
    requires r.Fits()
  {
    match r
    case Fixed(w, s, v) => WordBack(v, w, s); [Wire(swap, ToWord(v, w), w)]
    case Var(_, v) => [Varint(v)]
    case Zigzag(v) => [Varint(EncodeZigzag32(v))]
    case Str(w, b) => [StringPrefix(swap, |b|, w), b]
  }

  function AllChunks(swap: bool, rs: seq<Record>): seq<seq<byte>>
    requires forall r :: r in rs ==> r.Fits()
  {
    if rs == [] then [] else Chunks(swap, rs[0]) + AllChunks(swap, rs[1..])
  }

  function WriteChunks(f: F.Flat, chunks: seq<seq<byte>>): (r: Option<F.Flat>)
    requires f.Ok()
    ensures r.Some? ==> r.value.Ok()
    decreases |chunks|
  {
    if chunks == [] then
      Some(f)
    else
      match F.Write(f, chunks[0])
      case None => None
      case Some(g) => WriteChunks(g, chunks[1..])
  }

  function WriteRecords(swap: bool, f: F.Flat, rs: seq<Record>): (r: Option<F.Flat>)
    requires f.Ok() && forall r :: r in rs ==> r.Fits()
    ensures r.Some? ==> r.value.Ok()
  {
    WriteChunks(f, AllChunks(swap, rs))
  }

  function ReadFixed(swap: bool, f: F.Flat, width: nat): (r: F.Got<nat>)
    requires f.Ok()
    ensures !r.NullBlock? ==> r.rest.Ok()
  {
    match F.Read(f, width)
    case Got(b, g) => F.Got(Unwire(swap, b), g)
    case OutOfRange(g) => F.OutOfRange(g)
    case NullBlock => F.NullBlock
  }

  function ReadZigzag(f: F.Flat): (r: F.Got<int>)
    requires f.Ok()
    ensures !r.NullBlock? ==> r.rest.Ok()
  {
    match ReadVar(f, 0, 32)
    case Got(u, g) => ReadWord32(f); F.Got(DecodeZigzag32(u), g)
    case OutOfRange(g) => F.OutOfRange(g)
    case NullBlock => F.NullBlock
  }

  lemma ReadWord32(f: F.Flat)
    requires f.Ok() && ReadVar(f, 0, 32).Got?
    ensures ReadVar(f, 0, 32).value < TWO32
  {
    var k := VarInWord(f, 0, 32);
    WordSizes();
  }

  function ReadString(swap: bool, f: F.Flat, width: nat): (r: F.Got<seq<byte>>)
    requires f.Ok()
    ensures !r.NullBlock? ==> r.rest.Ok()
  {
    match ReadFixed(swap, f, width)
    case Got(n, g) => F.Read(g, n)
    case OutOfRange(g) => F.OutOfRange(g)
    case NullBlock => F.NullBlock
  }

  function AsFixed(w: nat, signed: bool, r: F.Got<nat>): F.Got<Record> {
    match r
    case Got(u, g) => F.Got(Fixed(w, signed, FromWord(u, w, signed)), g)
    case OutOfRange(g) => F.OutOfRange(g)
    case NullBlock => F.NullBlock
  }

  function AsVar(bits: nat, r: F.Got<nat>): F.Got<Record> {
    match r
    case Got(u, g) => F.Got(Var(bits, u), g)
    case OutOfRange(g) => F.OutOfRange(g)
    case NullBlock => F.NullBlock
  }

  function AsZigzag(r: F.Got<int>): F.Got<Record> {
    match r
    case Got(v, g) => F.Got(Zigzag(v), g)
    case OutOfRange(g) => F.OutOfRange(g)
    case NullBlock => F.NullBlock
  }

  function AsString(w: nat, r: F.Got<seq<byte>>): F.Got<Record> {
    match r
    case Got(b, g) => F.Got(Str(w, b), g)
    case OutOfRange(g) => F.OutOfRange(g)
    case NullBlock => F.NullBlock
  }

  function ReadRecord(swap: bool, f: F.Flat, k: Kind): (r: F.Got<Record>)
    requires f.Ok()
    ensures !r.NullBlock? ==> r.rest.Ok()
  {
    match k
    case FixedKind(w, s) => AsFixed(w, s, ReadFixed(swap, f, w))
    case VarKind(b) => AsVar(b, ReadVar(f, 0, b))
    case ZigzagKind => AsZigzag(ReadZigzag(f))
    case StrKind(w) => AsString(w, ReadString(swap, f, w))
  }

  function Prepend(r: Record, rest: F.Got<seq<Record>>): F.Got<seq<Record>> {
    match rest
    case Got(rs, h) => F.Got([r] + rs, h)
    case OutOfRange(h) => F.OutOfRange(h)
    case NullBlock => F.NullBlock
  }

  function ReadRecords(swap: bool, f: F.Flat, ks: seq<Kind>): (r: F.Got<seq<Record>>)
    requires f.Ok()
    decreases |ks|
  {
    if ks == [] then
      F.Got([], f)
    else
      match ReadRecord(swap, f, ks[0])
      case OutOfRange(g) => F.OutOfRange(g)
      case NullBlock => F.NullBlock
      case Got(r, g) => Prepend(r, ReadRecords(swap, g, ks[1..]))
  }

  function Kinds(rs: seq<Record>): seq<Kind> {
    if rs == [] then [] else [rs[0].Kind()] + Kinds(rs[1..])
  }

  /** The last record is an empty string whose prefix ends exactly at the capacity: reading it touches a null block. */
  predicate EndsOnNullBlock(rs: seq<Record>, end: F.Flat) {
    rs != [] && rs[|rs| - 1].Str? && rs[|rs| - 1].bytes == [] && end.position == end.capacity
  }

  // ---------- writing ----------

  lemma {:induction false} WriteChunksIsConcat(f: F.Flat, chunks: seq<seq<byte>>)
    requires f.Ok() && WriteChunks(f, chunks).Some?
    ensures var g := WriteChunks(f, chunks).value;
            && g.content == Overwrite(f.content, f.position, Concat(chunks))
            && g.position == f.position + |Concat(chunks)|
            && g.growth == f.growth && g.base == f.base
    decreases |chunks|
  {
    if chunks != [] {
      var g := F.Write(f, chunks[0]).value;
      WriteIsOverwrite(f, chunks[0]);
      WriteChunksIsConcat(g, chunks[1..]);
      OverwriteTwice(f.content, f.position, chunks[0], Concat(chunks[1..]));
    } else {
      assert Overwrite(f.content, f.position, []) == f.content;
    }
  }

  lemma WriteIsOverwrite(f: F.Flat, bytes: seq<byte>)
    requires f.Ok() && F.Write(f, bytes).Some?
    ensures var g := F.Write(f, bytes).value;
            && g.content == Overwrite(f.content, f.position, bytes)
            && g.position == f.position + |bytes| && g.growth == f.growth && g.base == f.base
  {
    if bytes == [] {
      assert Overwrite(f.content, f.position, []) == f.content;
    }
  }

  /** Whether every single write finds enough blocks, from the sizes alone. */
  predicate SizesFit(growth: Growth, base: nat, free: nat, sizes: seq<nat>)
    requires 0 < base
    decreases |sizes|
  {
    sizes == [] ||
    (Suffices(growth, base, sizes[0], free)
     && SizesFit(growth, base, free + Span(base, BlocksToAdd(growth, base, sizes[0], free)) - sizes[0], sizes[1..]))
  }

  function Sizes(chunks: seq<seq<byte>>): (r: seq<nat>)
    ensures |r| == |chunks|
    decreases |chunks|
  {
    if chunks == [] then [] else [|chunks[0]|] + Sizes(chunks[1..])
  }

  /**
   * The writes go through exactly when each chunk's size fits after the growth before it; ceiling growth always does.
   */
  lemma {:induction false} WriteChunksIff(f: F.Flat, chunks: seq<seq<byte>>)
    requires f.Ok()
    ensures WriteChunks(f, chunks).Some? <==> SizesFit(f.growth, f.base, f.capacity - f.position, Sizes(chunks))
    ensures f.growth == Ceiling ==> WriteChunks(f, chunks).Some?
    decreases |chunks|
  {
    if chunks != [] {
      F.WriteSucceeds(f, chunks[0]);
      assert Sizes(chunks)[1..] == Sizes(chunks[1..]);
      if F.Write(f, chunks[0]).Some? {
        WriteChunksIff(F.Write(f, chunks[0]).value, chunks[1..]);
      }
    }
  }

  // ---------- reading back ----------

  ghost function RecordBytes(swap: bool, r: Record): seq<byte>
    requires r.Fits()
  {
    Concat(Chunks(swap, r))
  }

  lemma BytesOf(swap: bool, r: Record)
    requires r.Fits()
    ensures |RecordBytes(swap, r)| >= 1
    ensures !r.Str? ==> RecordBytes(swap, r) == Chunks(swap, r)[0]
    ensures r.Str? ==> RecordBytes(swap, r) == StringPrefix(swap, |r.bytes|, r.prefix) + r.bytes
  {
    var c := Chunks(swap, r);
    assert Concat(c) == c[0] + Concat(c[1..]);
    if r.Str? {
      assert c[1..] == [r.bytes];
      assert Concat([r.bytes]) == r.bytes + Concat([]);
    } else {
      assert c[1..] == [];
    }
  }

  lemma ReadsPrefix(f: F.Flat, bytes: seq<byte>, n: nat)
    requires f.Ok() && StartsWith(f, bytes) && 1 <= n <= |bytes|
    ensures F.Read(f, n) == F.Got(bytes[..n], Skip(f, n))
    ensures StartsWith(Skip(f, n), bytes[n..])
  {
    var p := f.position;
    assert f.content[p..p + n] == f.content[p..p + |bytes|][..n];
    assert f.content[p + n..p + |bytes|] == f.content[p..p + |bytes|][n..];
  }

  lemma FixedBack(swap: bool, f: F.Flat, w: nat, u: nat)
    requires f.Ok() && 1 <= w && StartsWith(f, Wire(swap, u, w))
    ensures ReadFixed(swap, f, w) == F.Got(LowBytes(u, w), Skip(f, w))
  {
    ReadsPrefix(f, Wire(swap, u, w), w);
    assert Wire(swap, u, w)[..w] == Wire(swap, u, w);
    WireBack(swap, u, w);
  }

  lemma SplitStart(f: F.Flat, a: seq<byte>, b: seq<byte>)
    requires f.Ok() && StartsWith(f, a + b)
    ensures StartsWith(f, a) && StartsWith(Skip(f, |a|), b)
  {
    var p := f.position;
    assert f.content[p..p + |a|] == f.content[p..p + |a + b|][..|a|] == a;
    assert f.content[p + |a|..p + |a + b|] == f.content[p..p + |a + b|][|a|..] == b;
  }

  /** The string comes back, cut to the size its prefix holds; an empty one needs room behind the prefix. */
  lemma StringBack(swap: bool, f: F.Flat, w: nat, b: seq<byte>)
    requires f.Ok() && 1 <= w && StartsWith(f, StringPrefix(swap, |b|, w) + b)
    ensures LowBytes(|b|, w) <= |b|
    ensures var n, g := LowBytes(|b|, w), Skip(f, w);
            ReadString(swap, f, w)
            == if n == 0 && g.position == g.capacity then F.NullBlock else F.Got(b[..n], Skip(g, n))
  {
    var n := LowBytes(|b|, w);
    LowBytesIff(|b|, w);
    SplitStart(f, StringPrefix(swap, |b|, w), b);
    FixedBack(swap, f, w, |b|);
    if n > 0 {
      ReadsPrefix(Skip(f, w), b, n);
    }
  }

  /** The state after one record, or the null block for the empty string whose prefix ends at the capacity. */
  ghost function After(swap: bool, f: F.Flat, r: Record): F.Got<Record>
    requires f.Ok() && r.Fits() && StartsWith(f, RecordBytes(swap, r))
  {
    var g := Skip(f, |RecordBytes(swap, r)|);
    if r.Str? && r.bytes == [] && g.position == g.capacity then F.NullBlock else F.Got(r, g)
  }

  lemma FixedRecordBack(swap: bool, f: F.Flat, r: Record)
    requires f.Ok() && r.Fits() && StartsWith(f, RecordBytes(swap, r)) && r.Fixed?
    ensures ReadRecord(swap, f, r.Kind()) == F.Got(r, Skip(f, |RecordBytes(swap, r)|))
  {
    BytesOf(swap, r);
    WordBack(r.value, r.width, r.signed);
    LowBytesIff(ToWord(r.value, r.width), r.width);
    FixedBack(swap, f, r.width, ToWord(r.value, r.width));
  }

  lemma VarRecordBack(swap: bool, f: F.Flat, r: Record)
    requires f.Ok() && r.Fits() && StartsWith(f, RecordBytes(swap, r)) && r.Var?
    ensures ReadRecord(swap, f, r.Kind()) == F.Got(r, Skip(f, |RecordBytes(swap, r)|))
  {
    BytesOf(swap, r);
    VarintRoundTrip(f, r.code, r.bits);
  }

  lemma ZigzagRecordBack(swap: bool, f: F.Flat, r: Record)
    requires f.Ok() && r.Fits() && StartsWith(f, RecordBytes(swap, r)) && r.Zigzag?
    ensures ReadRecord(swap, f, r.Kind()) == F.Got(r, Skip(f, |RecordBytes(swap, r)|))
  {
    BytesOf(swap, r);
    WordSizes();
    VarintRoundTrip(f, EncodeZigzag32(r.delta), 32);
    Zigzag32Inverse(r.delta, 0);
    assert ReadZigzag(f) == F.Got(r.delta, Skip(f, |RecordBytes(swap, r)|));
  }

  /** One record comes back from its bytes. */
  lemma RecordBack(swap: bool, f: F.Flat, r: Record)
    requires f.Ok() && r.Fits() && StartsWith(f, RecordBytes(swap, r))
    ensures ReadRecord(swap, f, r.Kind()) == After(swap, f, r)
  {
    match r
    case Fixed(_, _, _) => FixedRecordBack(swap, f, r);
    case Var(_, _) => VarRecordBack(swap, f, r);
    case Zigzag(_) => ZigzagRecordBack(swap, f, r);
    case Str(w, b) =>
      BytesOf(swap, r);
      LowBytesIff(|b|, w);
      assert b[..|b|] == b;
      StringBack(swap, f, w, b);
  }

  ghost function ListBytes(swap: bool, rs: seq<Record>): seq<byte>
    requires forall r :: r in rs ==> r.Fits()
  {
    Concat(AllChunks(swap, rs))
  }

  lemma ListBytesCons(swap: bool, rs: seq<Record>)
    requires rs != [] && forall r :: r in rs ==> r.Fits()
    ensures ListBytes(swap, rs) == RecordBytes(swap, rs[0]) + ListBytes(swap, rs[1..])
  {
    ConcatAppend(Chunks(swap, rs[0]), AllChunks(swap, rs[1..]));
  }

  /** The state after a whole list, or the null block. */
  ghost function ListAfter(swap: bool, f: F.Flat, rs: seq<Record>): F.Got<seq<Record>>
    requires f.Ok() && (forall r :: r in rs ==> r.Fits()) && StartsWith(f, ListBytes(swap, rs))
  {
    var g := Skip(f, |ListBytes(swap, rs)|);
    if EndsOnNullBlock(rs, g) then F.NullBlock else F.Got(rs, g)
  }

  lemma ReadRecordsCons(swap: bool, f: F.Flat, rs: seq<Record>)
    requires f.Ok() && rs != []
    ensures ReadRecord(swap, f, rs[0].Kind()).NullBlock? ==> ReadRecords(swap, f, Kinds(rs)) == F.NullBlock
    ensures ReadRecord(swap, f, rs[0].Kind()).Got? ==>
              var Got(r, g) := ReadRecord(swap, f, rs[0].Kind());
              ReadRecords(swap, f, Kinds(rs)) == Prepend(r, ReadRecords(swap, g, Kinds(rs[1..])))
  {
    assert Kinds(rs)[1..] == Kinds(rs[1..]);
  }

  lemma NonEmptyList(swap: bool, f: F.Flat, rs: seq<Record>)
    requires f.Ok() && (forall r :: r in rs ==> r.Fits()) && StartsWith(f, ListBytes(swap, rs)) && rs != []
    ensures f.position < f.capacity
  {
    ListBytesCons(swap, rs);
    BytesOf(swap, rs[0]);
  }

  lemma ListStarts(swap: bool, f: F.Flat, rs: seq<Record>)
    requires f.Ok() && (forall r :: r in rs ==> r.Fits()) && StartsWith(f, ListBytes(swap, rs)) && rs != []
    ensures StartsWith(f, RecordBytes(swap, rs[0]))
    ensures var g := Skip(f, |RecordBytes(swap, rs[0])|);
            && StartsWith(g, ListBytes(swap, rs[1..]))
            && Skip(g, |ListBytes(swap, rs[1..])|) == Skip(f, |ListBytes(swap, rs)|)
  {
    ListBytesCons(swap, rs);
    SplitStart(f, RecordBytes(swap, rs[0]), ListBytes(swap, rs[1..]));
    SkipSkip(f, |RecordBytes(swap, rs[0])|, |ListBytes(swap, rs[1..])|);
  }

  lemma ListAfterCons(swap: bool, f: F.Flat, rs: seq<Record>)
    requires f.Ok() && (forall r :: r in rs ==> r.Fits()) && StartsWith(f, ListBytes(swap, rs)) && rs != []
    requires StartsWith(f, RecordBytes(swap, rs[0]))
    requires StartsWith(Skip(f, |RecordBytes(swap, rs[0])|), ListBytes(swap, rs[1..]))
    ensures After(swap, f, rs[0]).NullBlock? ==> ListAfter(swap, f, rs) == F.NullBlock
    ensures After(swap, f, rs[0]).Got? ==>
              ListAfter(swap, f, rs) == Prepend(rs[0], ListAfter(swap, Skip(f, |RecordBytes(swap, rs[0])|), rs[1..]))
  {
    ListStarts(swap, f, rs);
    var tail := rs[1..];
    assert [rs[0]] + tail == rs;
    if tail != [] {
      NonEmptyList(swap, Skip(f, |RecordBytes(swap, rs[0])|), tail);
      assert tail[|tail| - 1] == rs[|rs| - 1];
    }
  }

  lemma SkipSkip(f: F.Flat, m: nat, n: nat)
    requires f.Ok() && m + n <= f.Readable()
    ensures Skip(Skip(f, m), n) == Skip(f, m + n)
  {
  }

  lemma {:induction false} RecordsBack(swap: bool, f: F.Flat, rs: seq<Record>)
    requires f.Ok() && (forall r :: r in rs ==> r.Fits()) && StartsWith(f, ListBytes(swap, rs))
    ensures ReadRecords(swap, f, Kinds(rs)) == ListAfter(swap, f, rs)
    decreases |rs|
  {
    if rs != [] {
      ListStarts(swap, f, rs);
      ListAfterCons(swap, f, rs);
      RecordBack(swap, f, rs[0]);
      ReadRecordsCons(swap, f, rs);
      RecordsBack(swap, Skip(f, |RecordBytes(swap, rs[0])|), rs[1..]);
    }
  }

  /**
   * Writing any list of records, moving the cursor back and reading the same kinds returns the same list and ends
   * where the writing ended, in either byte order and across any block boundaries. The single exception is a list whose
   * last record is an empty string that ends exactly at the capacity: reading it follows a null block.
   */
  lemma RecordsRoundTrip(swap: bool, f: F.Flat, rs: seq<Record>)
    requires f.Ok() && (forall r :: r in rs ==> r.Fits())
    requires WriteRecords(swap, f, rs).Some?
    ensures var g := WriteRecords(swap, f, rs).value;
            && f.position <= |g.content|
            && ReadRecords(swap, F.Seek(g, f.position), Kinds(rs))
               == (if EndsOnNullBlock(rs, g) then F.NullBlock else F.Got(rs, g))
            && (f.position == |f.content| ==> g.position == |g.content|)
  {
    var g := WriteRecords(swap, f, rs).value;
    var bytes := ListBytes(swap, rs);
    WriteChunksIsConcat(f, AllChunks(swap, rs));
    var back := F.Seek(g, f.position);
    assert g.content[f.position..f.position + |bytes|] == bytes;
    RecordsBack(swap, back, rs);
    assert Skip(back, |bytes|) == g;
  }

  /** With ceiling growth the writes of any list go through, so only the null-block case is left. */
  lemma CeilingRoundTrip(swap: bool, f: F.Flat, rs: seq<Record>)
    requires f.Ok() && f.growth == Ceiling && (forall r :: r in rs ==> r.Fits())
    ensures WriteRecords(swap, f, rs).Some?
    ensures var g := WriteRecords(swap, f, rs).value;
            f.position <= |g.content|
            && (ReadRecords(swap, F.Seek(g, f.position), Kinds(rs)) == F.Got(rs, g) <==> !EndsOnNullBlock(rs, g))
  {
    WriteChunksIff(f, AllChunks(swap, rs));
    RecordsRoundTrip(swap, f, rs);
  }

  /** The shipped growth loses a byte followed by a 32-bit word in a fresh array of 4-byte blocks. */
  lemma ShippedRoundTripFails(swap: bool)
    ensures WriteRecords(swap, F.Flat(Shipped, 4, [], 0, 4), [Fixed(1, false, 7), Fixed(4, false, 7)]) == None
  {
    assert Pow256(1) == 256 && Pow256(4) == 256 * Pow256(3) == 65536 * Pow256(2);
    var a, b := Fixed(1, false, 7), Fixed(4, false, 7);
    var rs := [a, b];
    assert rs[1..] == [b] && [b][1..] == [];
    assert AllChunks(swap, [b]) == Chunks(swap, b);
    var f := F.Flat(Shipped, 4, [], 0, 4);
    var chunks := AllChunks(swap, rs);
    assert chunks == Chunks(swap, a) + Chunks(swap, b);
    assert |chunks[0]| == 1 && |chunks[1]| == 4 && chunks[1..] == [chunks[1]];
    ShippedSufficesIff(4, 1, 4);
    ShippedSufficesIff(4, 4, 3);
    var g := F.Write(f, chunks[0]).value;
    assert F.Write(g, chunks[1]).None?;
    assert WriteChunks(g, [chunks[1]]).None?;
  }

  /** A string comes back exactly when its size fits the prefix; otherwise it is cut to the low bytes of its size. */
  lemma StringBackIff(swap: bool, f: F.Flat, w: nat, b: seq<byte>)
    requires f.Ok() && w in {2, 4, 8} && StartsWith(f, StringPrefix(swap, |b|, w) + b)
    requires f.position + w < f.capacity
    ensures ReadString(swap, f, w).Got? && LowBytes(|b|, w) <= |b|
            && ReadString(swap, f, w).value == b[..LowBytes(|b|, w)]
    ensures ReadString(swap, f, w).value == b <==> |b| < Pow256(w)
  {
    StringBack(swap, f, w, b);
    LowBytesIff(|b|, w);
    assert b[..|b|] == b;
  }
}
