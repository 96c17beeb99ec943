/** The codec methods of myhttp/bytearray.cpp, each a few reads or writes of the block list. */
module ByteArrayCodecs {
  import opened Bytes
  import opened Codecs
  import opened ByteArrays
  import F = FlatBytes
  import R = Records

  /** A write went through exactly when the flat one does, and left the flat one's result. */
  ghost predicate Wrote(ba: ByteArray, flat: Option<F.Flat>, ok: bool)
    reads ba, ba.Repr
  {
    && (ok <==> flat.Some?)
    && (ok ==> ba.Valid() && ba.View() == flat.value)
  }

  /** The host is a little-endian machine whose byte-order macro says `host`. */
  ghost function Swaps(ba: ByteArray, host: Endian): bool
    reads ba
  {
    ba.endian != host
  }

  lemma OneByte(v: nat, s: seq<byte>)
    requires |s| == 1
    ensures Wire(true, v, 1) == Wire(false, v, 1)
    ensures Unwire(true, s) == Unwire(false, s)
  {
    WireSwapped(v, 1);
    assert ToBytes(v, 1) == [v % 256];
    assert Reverse([v % 256]) == [v % 256];
    assert s == [s[0]] && s[1..] == [];
    assert FromBytes(s) == s[0];
    assert ToBytes(s[0], 1) == s;
    assert Reverse(s) == s;
  }

  /** writeFint8 .. writeFuint64: `word` is the argument's two's complement word of `w` bytes. */
  method WriteFixed(ba: ByteArray, host: Endian, word: nat, w: nat) returns (ok: bool)
    requires ba.Valid() && w in {1, 2, 4, 8}
    modifies ba.Repr
    ensures Wrote(ba, F.Write(old(ba.View()), Wire(old(Swaps(ba, host)), word, w)), ok)
    ensures ok ==> fresh(ba.Repr - old(ba.Repr)) && ba.endian == old(ba.endian)
  {
    var value := word;
    if w == 1 {
      OneByte(word, [0]);
    } else if ba.endian != host {
      value := ByteSwap(value, w);
    }
    ok := ba.Write(ToBytes(value, w));
  }

  /** writeUint32 and writeUint64: the loop fills a scratch array of 5 or 10 bytes and never past its end. */
  method WriteVarint(ba: ByteArray, value: nat, bits: nat) returns (ok: bool)
    requires ba.Valid() && bits in {32, 64} && value < Pow2(bits)
    modifies ba.Repr
    ensures Wrote(ba, F.Write(old(ba.View()), Varint(value)), ok)
    ensures ok ==> fresh(ba.Repr - old(ba.Repr)) && ba.endian == old(ba.endian)
  {
    var code := EncodeVarint(value, bits);
    ok := ba.Write(code);
  }

  method EncodeVarint(value: nat, bits: nat) returns (code: seq<byte>)
    requires bits in {32, 64} && value < Pow2(bits)
    ensures code == Varint(value)
  {
    ScratchSuffices(value, bits);
    var tmp := new byte[if bits == 32 then 5 else 10];
    code := FillScratch(value, tmp);
  }

  /** The loop of writeUint32 and writeUint64. */
  method FillScratch(value: nat, tmp: array<byte>) returns (code: seq<byte>)
    requires |Varint(value)| <= tmp.Length
    modifies tmp
    ensures code == Varint(value)
  {
    var v: nat, i: nat := value, 0;
    ghost var done: seq<byte> := [];
    while v >= 128
      invariant done + Varint(v) == Varint(value) && |done| == i
      invariant i + |Varint(v)| <= tmp.Length && tmp[..i] == done
    {
      VarintStep(done, v);
      tmp[i] := v % 128 + 128;
      done := done + [tmp[i]];
      i := i + 1;
      v := v / 128;
    }
    VarintStep(done, v);
    tmp[i] := v;
    i := i + 1;
    code := tmp[..i];
  }

  /** writeInt32. */
  method WriteZigzag(ba: ByteArray, value: int) returns (ok: bool)
    requires ba.Valid() && Int32(value)
    modifies ba.Repr
    ensures Wrote(ba, F.Write(old(ba.View()), Varint(EncodeZigzag32(value))), ok)
    ensures ok ==> fresh(ba.Repr - old(ba.Repr)) && ba.endian == old(ba.endian)
  {
    WordSizes();
    ok := WriteVarint(ba, EncodeZigzag32(value), 32);
  }

  /** writeString16, 32 and 64: the size, then the bytes. */
  method WriteString(ba: ByteArray, host: Endian, w: nat, value: seq<byte>) returns (ok: bool)
    requires ba.Valid() && w in {2, 4, 8}
    modifies ba.Repr
    ensures Wrote(ba, R.WriteChunks(old(ba.View()), [R.StringPrefix(old(Swaps(ba, host)), |value|, w), value]), ok)
    ensures ok ==> fresh(ba.Repr - old(ba.Repr)) && ba.endian == old(ba.endian)
  {
    TwoChunks(ba.View(), R.StringPrefix(Swaps(ba, host), |value|, w), value);
    ok := WriteFixed(ba, host, |value|, w);
    if ok {
      ok := ba.Write(value);
    }
  }

  lemma TwoChunks(f: F.Flat, a: seq<byte>, b: seq<byte>)
    requires f.Ok()
    ensures R.WriteChunks(f, [a, b]) == match F.Write(f, a) case None => None case Some(g) => F.Write(g, b)
  {
    assert [a, b][1..] == [b] && [b][1..] == [];
    if F.Write(f, a).Some? {
      var g := F.Write(f, a).value;
      assert R.WriteChunks(g, [b]) == match F.Write(g, b) case None => None case Some(h) => R.WriteChunks(h, []);
    }
  }

  /** readFint8 .. readFuint64, up to the signed reading of the word. */
  method ReadFixed(ba: ByteArray, host: Endian, w: nat) returns (r: ReadResult<nat>)
    requires ba.Valid() && w in {1, 2, 4, 8}
    modifies ba`position, ba`cur, ba`at
    ensures ba.Agrees(R.ReadFixed(old(Swaps(ba, host)), old(ba.View()), w), r)
  {
    var bytes := ba.Read(w);
    match bytes
    case Throws => r := Throws;
    case NullDeref => r := NullDeref;
    case Value(s) =>
      if w == 1 {
        OneByte(0, s);
      }
      var v := FromBytes(s);
      r := Value(if w > 1 && ba.endian != host then ByteSwap(v, w) else v);
  }

  /** Before the group at shift `i`: the partial result has no bit from there on, and the rest is still to be added. */
  ghost predicate Decoding(ba: ByteArray, low: nat, i: nat, bits: nat, all: F.Got<nat>)
    reads ba, ba.Repr
  {
    ba.Valid() && low < Pow2(i) && all == AddLow(low, ReadVar(ba.View(), i, bits))
  }

  /**
   * One turn of the decoding loop: a byte is read and its group added, and the loop ends on an error or a
   * last group.
   */
  method TakeGroup(ba: ByteArray, low: nat, i: nat, bits: nat, ghost all: F.Got<nat>)
    returns (end: bool, r: ReadResult<nat>, low': nat)
    requires i < bits && Decoding(ba, low, i, bits, all)
    modifies ba`position, ba`cur, ba`at
    ensures end ==> ba.Agrees(all, r)
    ensures !end ==> Decoding(ba, low', i + 7, bits, all)
  {
    ghost var f := ba.View();
    end, r, low' := true, Throws, low;
    var b := ba.Read(1);
    match b
    case Throws =>
    case NullDeref => r := NullDeref;
    case Value(s) =>
      assert s == [s[0]];
      ReadVarTurn(f, low, i, bits, s[0], ba.View());
      if s[0] < 128 {
        low' := low + Group(s[0], i, bits);
        r := Value(low');
      } else {
        GroupStaysBelow(low, s[0] % 128, i, bits);
        low' := low + Group(s[0] % 128, i, bits);
        end := false;
      }
  }

  lemma DecodingStarts(ba: ByteArray, i: nat, bits: nat) returns (all: F.Got<nat>)
    requires ba.Valid() && i == 0
    ensures all == ReadVar(ba.View(), i, bits) && Decoding(ba, i, i, bits, all)
  {
    all := ReadVar(ba.View(), i, bits);
    AddLowZero(all);
  }

  lemma DecodingEnds(ba: ByteArray, low: nat, i: nat, bits: nat, all: F.Got<nat>)
    requires i >= bits && Decoding(ba, low, i, bits, all)
    ensures ba.Agrees(all, Value(low))
  {
  }

  /** readUint32 and readUint64. */
  method ReadVarint(ba: ByteArray, bits: nat) returns (r: ReadResult<nat>)
    requires ba.Valid() && bits in {32, 64}
    modifies ba`position, ba`cur, ba`at
    ensures ba.Agrees(ReadVar(old(ba.View()), 0, bits), r)
  {
    var result: nat, i: nat := 0, 0;
    ghost var all := DecodingStarts(ba, i, bits);
    while i < bits
      invariant Decoding(ba, result, i, bits, all)
      decreases bits + 7 - i
    {
      var end;
      end, r, result := TakeGroup(ba, result, i, bits, all);
      if end {
        return;
      }
      i := i + 7;
    }
    DecodingEnds(ba, result, i, bits, all);
    r := Value(result);
  }

  /** readInt32. */
  method ReadZigzag(ba: ByteArray) returns (r: ReadResult<int>)
    requires ba.Valid()
    modifies ba`position, ba`cur, ba`at
    ensures ba.Agrees(R.ReadZigzag(old(ba.View())), r)
  {
    ghost var f := ba.View();
    var u := ReadVarint(ba, 32);
    match u
    case Throws => r := Throws;
    case NullDeref => r := NullDeref;
    case Value(v) =>
      R.ReadWord32(f);
      r := Value(DecodeZigzag32(v));
  }

  /** readStringF16, F32 and F64. */
  method ReadString(ba: ByteArray, host: Endian, w: nat) returns (r: ReadResult<seq<byte>>)
    requires ba.Valid() && w in {2, 4, 8}
    modifies ba`position, ba`cur, ba`at
    ensures ba.Agrees(R.ReadString(old(Swaps(ba, host)), old(ba.View()), w), r)
  {
    var len := ReadFixed(ba, host, w);
    match len
    case Throws => r := Throws;
    case NullDeref => r := NullDeref;
    case Value(n) => r := ba.Read(n);
  }
}
