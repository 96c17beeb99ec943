/**
 * The encodings of myhttp/bytearray.cpp on values: fixed-width integers in either byte order, base-128 varints and
 * zigzag (Protocol Buffers "Encoding", sections "Base 128 Varints" and "Signed Integers").
 */
module Codecs {
  import opened Bytes
  import F = FlatBytes

  function Pow2(n: nat): (r: int)
    ensures r > 0
  {
    if n == 0 then 1 else 2 * Pow2(n - 1)
  }

  lemma {:induction false} Pow2Mono(a: nat, b: nat)
    requires a <= b
    ensures Pow2(a) <= Pow2(b)
    decreases b
  {
    if a < b {
      Pow2Mono(a, b - 1);
    }
  }

  lemma Pow2Seven(n: nat)
    ensures Pow2(n + 7) == 128 * Pow2(n)
  {
    assert Pow2(n + 7) == 2 * Pow2(n + 6) == 4 * Pow2(n + 5) == 8 * Pow2(n + 4);
    assert Pow2(n + 4) == 2 * Pow2(n + 3) == 4 * Pow2(n + 2) == 8 * Pow2(n + 1);
  }

  const TWO32: nat := 0x1_0000_0000
  const TWO64: nat := 0x1_0000_0000_0000_0000

  lemma WordSizes()
    ensures Pow2(32) == TWO32 && Pow2(64) == TWO64
    ensures Pow2(35) > Pow2(32) && Pow2(70) > Pow2(64)
  {
    Pow2Seven(0);
    Pow2Seven(7);
    Pow2Seven(14);
    Pow2Seven(21);
    Pow2Times16(28);
    Pow2Times16(32);
    Pow2Times16(36);
    Pow2Times16(40);
    Pow2Times16(44);
    Pow2Times16(48);
    Pow2Times16(52);
    Pow2Times16(56);
    Pow2Times16(60);
    Pow2Seven(28);
    Pow2Seven(63);
    assert Pow2(64) == 2 * Pow2(63);
  }

  lemma Pow2Times16(n: nat)
    ensures Pow2(n + 4) == 16 * Pow2(n)
  {
    assert Pow2(n + 4) == 2 * Pow2(n + 3) == 4 * Pow2(n + 2);
    assert Pow2(n + 2) == 2 * Pow2(n + 1) == 4 * Pow2(n);
  }

  // ---------- varints ----------

  /** Seven bits a byte, least significant first, the top bit set on all bytes but the last. */
  function Varint(v: nat): (r: seq<byte>)
    ensures |r| >= 1
  {
    if v < 128 then [v] else [v % 128 + 128] + Varint(v / 128)
  }

  /** The encoding takes at most n bytes exactly when the value has at most 7n bits. */
  lemma {:induction false} VarintLength(v: nat, n: nat)
    requires 1 <= n
    ensures |Varint(v)| <= n <==> v < Pow2(7 * n)
    decreases n
  {
    Pow2Seven(7 * n - 7);
    if n == 1 {
      assert Pow2(7) == 128 * Pow2(0);
    } else {
      Pow2Mono(7, 7 * n);
      Pow2Seven(0);
      if v >= 128 {
        VarintLength(v / 128, n - 1);
      }
    }
  }

  /** At most 5 bytes for 32-bit values and 10 for 64-bit ones: the sizes of the encoders' scratch arrays. */
  lemma VarintFitsScratch(v: nat)
    ensures v < TWO32 ==> |Varint(v)| <= 5
    ensures v < TWO64 ==> |Varint(v)| <= 10
  {
    WordSizes();
    VarintLength(v, 5);
    VarintLength(v, 10);
  }

  lemma ScratchSuffices(v: nat, bits: nat)
    requires bits in {32, 64} && v < Pow2(bits)
    ensures |Varint(v)| <= if bits == 32 then 5 else 10
  {
    WordSizes();
    VarintFitsScratch(v);
  }

  /** readUint32 and readUint64 from bit `i` on: bytes are taken while the top bit is set and `i` is below the width. */
  function ReadVar(f: F.Flat, i: nat, bits: nat): (r: F.Got<nat>)
    requires f.Ok()
    ensures !r.NullBlock? ==> r.rest.Ok()
    decreases bits + 7 - i
  {
    if i >= bits then
      F.Got(0, f)
    else
      match F.Read(f, 1)
      case OutOfRange(g) => F.OutOfRange(g)
      case NullBlock => F.NullBlock
      case Got(b, g) =>
        if b[0] < 128 then
          F.Got(Group(b[0], i, bits), g)
        else
          AddLow(Group(b[0] % 128, i, bits), ReadVar(g, i + 7, bits))
  }

  /** A group shifted left by `i` in a word of `bits` bits. */
  function Group(v: nat, i: nat, bits: nat): nat {
    v * Pow2(i) % Pow2(bits)
  }

  lemma AddLowZero(r: F.Got<nat>)
    ensures AddLow(0, r) == r
  {
  }

  /** One turn of the decoding loop with `low` read so far: it goes on, or ends with the sum. */
  lemma ReadVarTurn(f: F.Flat, low: nat, i: nat, bits: nat, b: byte, g: F.Flat)
    requires f.Ok() && g.Ok() && i < bits && F.Read(f, 1) == F.Got([b], g)
    ensures AddLow(low, ReadVar(f, i, bits))
         == if b < 128 then F.Got(low + Group(b, i, bits), g)
            else AddLow(low + Group(b % 128, i, bits), ReadVar(g, i + 7, bits))
  {
  }

  /** The groups are or-ed into disjoint bits, which is adding them. */
  function AddLow(low: nat, r: F.Got<nat>): F.Got<nat> {
    match r
    case Got(v, g) => F.Got(low + v, g)
    case OutOfRange(g) => F.OutOfRange(g)
    case NullBlock => F.NullBlock
  }

  /** The shifts of the decoding loops. */
  lemma GroupShifts()
    ensures Pow2(0) == 1 && Pow2(7) == 0x80 && Pow2(14) == 0x4000 && Pow2(21) == 0x20_0000 && Pow2(28) == 0x1000_0000
    ensures Pow2(35) == 0x8_0000_0000 && Pow2(42) == 0x400_0000_0000 && Pow2(49) == 0x2_0000_0000_0000
    ensures Pow2(56) == 0x100_0000_0000_0000 && Pow2(63) == 0x8000_0000_0000_0000
  {
    Pow2Seven(0);
    Pow2Seven(7);
    Pow2Seven(14);
    Pow2Seven(21);
    Pow2Seven(28);
    Pow2Seven(35);
    Pow2Seven(42);
    Pow2Seven(49);
    Pow2Seven(56);
  }

  /** Oring a group at shift `i` to what is below 2^i is adding it; the bounds are those of GroupShifts. */
  lemma OrAddsDisjointBits(low: bv64, group: bv64)
    ensures low < 0x80 ==> low | (group << 7) == low + (group << 7)
    ensures low < 0x4000 ==> low | (group << 14) == low + (group << 14)
    ensures low < 0x20_0000 ==> low | (group << 21) == low + (group << 21)
    ensures low < 0x1000_0000 ==> low | (group << 28) == low + (group << 28)
    ensures low < 0x8_0000_0000 ==> low | (group << 35) == low + (group << 35)
    ensures low < 0x400_0000_0000 ==> low | (group << 42) == low + (group << 42)
    ensures low < 0x2_0000_0000_0000 ==> low | (group << 49) == low + (group << 49)
    ensures low < 0x100_0000_0000_0000 ==> low | (group << 56) == low + (group << 56)
    ensures low < 0x8000_0000_0000_0000 ==> low | (group << 63) == low + (group << 63)
  {
  }

  /** A group added to what is below 2^i stays below 2^(i + 7), also when its top bits are cut off. */
  lemma GroupStaysBelow(low: nat, v: nat, i: nat, bits: nat)
    requires low < Pow2(i) && v < 128
    ensures low + Group(v, i, bits) < Pow2(i + 7)
  {
    Pow2Seven(i);
    assert v * Pow2(i) <= 127 * Pow2(i);
    CutIsBelow(v * Pow2(i), Pow2(bits));
  }

  lemma CutIsBelow(x: nat, m: nat)
    requires 0 < m
    ensures x % m <= x
  {
  }

  ghost predicate StartsWith(f: F.Flat, bytes: seq<byte>)
    requires f.Ok()
  {
    |bytes| <= f.Readable() && f.content[f.position..f.position + |bytes|] == bytes
  }

  function Skip(f: F.Flat, n: nat): (g: F.Flat)
    requires f.Ok() && n <= f.Readable()
    ensures g.Ok()
  {
    f.(position := f.position + n)
  }

  lemma Distribute(q: nat, r: nat, p: nat)
    ensures (128 * q + r) * p == q * (128 * p) + r * p
    ensures 0 <= r * p && 0 <= q * (128 * p)
    ensures 1 <= q ==> 128 * p <= q * (128 * p)
  {
    if 1 <= q {
      assert q * (128 * p) == (q - 1) * (128 * p) + 128 * p;
      assert 0 <= (q - 1) * (128 * p);
    }
  }

  lemma VarintStep(done: seq<byte>, v: nat)
    ensures v >= 128 ==>
              done + Varint(v) == done + [v % 128 + 128] + Varint(v / 128) && |Varint(v)| == 1 + |Varint(v / 128)|
    ensures v < 128 ==> done + Varint(v) == done + [v] && |Varint(v)| == 1
  {
  }

  lemma GroupFits(v: nat, i: nat, bits: nat)
    requires v * Pow2(i) < Pow2(bits)
    ensures v < 128 ==> Group(v, i, bits) == v * Pow2(i)
    ensures Group(v % 128, i, bits) + v / 128 * Pow2(i + 7) == v * Pow2(i)
    ensures v / 128 * Pow2(i + 7) < Pow2(bits)
    ensures v >= 128 ==> i + 7 < bits
  {
    Pow2Seven(i);
    Distribute(v / 128, v % 128, Pow2(i));
    Small(v % 128 * Pow2(i), Pow2(bits));
    if v >= 128 && i + 7 >= bits {
      Pow2Mono(bits, i + 7);
      assert false;
    }
  }

  lemma Small(x: nat, m: nat)
    requires x < m
    ensures x % m == x
  {
  }

  /** The decoder takes exactly the encoder's bytes and returns the value, whatever bytes follow. */
  lemma {:induction false} VarintBack(f: F.Flat, v: nat, i: nat, bits: nat)
    requires f.Ok() && i < bits && v * Pow2(i) < Pow2(bits) && StartsWith(f, Varint(v))
    ensures ReadVar(f, i, bits) == F.Got(v * Pow2(i), Skip(f, |Varint(v)|))
    decreases v
  {
    var code, g := Varint(v), Skip(f, 1);
    StartsWithCons(f, code);
    if v < 128 {
      assert ReadVar(f, i, bits) == F.Got(Group(v, i, bits), g);
      GroupFits(v, i, bits);
    } else {
      ReadVarMore(f, i, bits, v, g);
      assert code[1..] == Varint(v / 128);
      assert Skip(g, |Varint(v / 128)|) == Skip(f, |code|);
      GroupFits(v, i, bits);
      VarintBack(g, v / 128, i + 7, bits);
    }
  }

  lemma ReadVarMore(f: F.Flat, i: nat, bits: nat, v: nat, g: F.Flat)
    requires f.Ok() && g.Ok() && i < bits && v >= 128 && F.Read(f, 1) == F.Got([v % 128 + 128], g)
    ensures ReadVar(f, i, bits) == AddLow(Group(v % 128, i, bits), ReadVar(g, i + 7, bits))
  {
    var b: byte := v % 128 + 128;
    assert b % 128 == v % 128;
  }

  /** readUint32 or readUint64 on the bytes of a value of that width. */
  lemma VarintRoundTrip(f: F.Flat, v: nat, bits: nat)
    requires f.Ok() && 0 < bits && v < Pow2(bits) && StartsWith(f, Varint(v))
    ensures ReadVar(f, 0, bits) == F.Got(v, Skip(f, |Varint(v)|))
  {
    assert Pow2(0) == 1 && v * 1 == v;
    VarintBack(f, v, 0, bits);
    assert v * Pow2(0) == v;
  }

  lemma StartsWithCons(f: F.Flat, bytes: seq<byte>)
    requires f.Ok() && bytes != [] && StartsWith(f, bytes)
    ensures F.Read(f, 1) == F.Got([bytes[0]], Skip(f, 1))
    ensures StartsWith(Skip(f, 1), bytes[1..])
  {
    var p := f.position;
    assert f.content[p..p + 1] == f.content[p..p + |bytes|][..1] == [bytes[0]];
    assert f.content[p + 1..p + |bytes|] == f.content[p..p + |bytes|][1..];
  }

  /** No input makes the decoder take more bytes than the width has groups, nor throw anything but out_of_range. */
  lemma {:induction false} VarintConsumes(f: F.Flat, i: nat, bits: nat)
    requires f.Ok()
    ensures !ReadVar(f, i, bits).NullBlock?
    ensures var g := ReadVar(f, i, bits).rest;
            && g.content == f.content && f.position <= g.position
            && (i < bits ==> 7 * (g.position - f.position) < bits - i + 7)
            && (i >= bits ==> g == f)
    decreases bits + 7 - i
  {
    if i < bits {
      match F.Read(f, 1)
      case Got(b, g) =>
        if b[0] >= 128 {
          VarintConsumes(g, i + 7, bits);
        }
      case OutOfRange(g) =>
      case NullBlock =>
    }
  }

  lemma TwiceProduct(x: int, y: int)
    ensures 2 * x * y == 2 * (x * y)
  {
  }

  lemma {:induction false} Pow2Add(a: nat, b: nat)
    ensures Pow2(a + b) == Pow2(a) * Pow2(b)
  {
    if a > 0 {
      Pow2Add(a - 1, b);
      TwiceProduct(Pow2(a - 1), Pow2(b));
    }
  }

  lemma Rearrange(m: nat, q: nat, r: nat, p: nat)
    ensures (m * q + r) * p == m * p * q + r * p
  {
  }

  lemma ModScale(c: nat, m: nat, p: nat)
    requires 0 < m && 0 < p
    ensures 0 < m * p && c * p % (m * p) == c % m * p
    ensures c % m * p <= m * p - p
  {
    var q, r := c / m, c % m;
    assert c == m * q + r;
    Rearrange(m, q, r, p);
    Rearrange(1, m - 1 - r, r + 1, p);
    Rearrange(1, r, 1, p);
    assert 0 <= r * p && 0 <= (m - 1 - r) * p;
    ModUnique(m * p, q, r * p);
  }

  lemma ModUnique(d: nat, q: nat, r: nat)
    requires r < d
    ensures (d * q + r) % d == r
  {
    SpanIsProduct(d, q);
    SpanDivMod(d, q, r);
  }

  lemma StackGroups(c: nat, k: nat, p: nat, limit: nat)
    requires c < 128 && k * (128 * p) <= limit - 128 * p
    ensures c * p + k * (128 * p) == (c + 128 * k) * p <= limit - p
  {
    Distribute(k, c, p);
    assert (127 - c) * p >= 0;
    assert 127 * p == (127 - c) * p + c * p;
  }

  /** Whatever the bytes, the decoded value fits the word: the groups never overlap or overflow. */
  lemma {:induction false} VarInWord(f: F.Flat, i: nat, bits: nat) returns (k: nat)
    requires f.Ok() && ReadVar(f, i, bits).Got?
    ensures var v := ReadVar(f, i, bits).value;
            if i < bits then v == k * Pow2(i) <= Pow2(bits) - Pow2(i) else v == 0
    decreases bits + 7 - i
  {
    k := 0;
    if i < bits {
      var Got(b, g) := F.Read(f, 1);
      var c := b[0] % 128;
      Pow2Add(bits - i, i);
      var m := Pow2(bits - i);
      ModScale(c, m, Pow2(i));
      ModScale(b[0], m, Pow2(i));
      if b[0] < 128 {
        k := b[0] % m;
      } else {
        var k' := VarInWord(g, i + 7, bits);
        if i + 7 < bits {
          Pow2Seven(i);
          Pow2Add(bits - i - 7, 7);
          Pow2Mono(7, bits - i);
          Pow2Seven(0);
          Small(c, m);
          StackGroups(c, k', Pow2(i), Pow2(bits));
          k := c + 128 * k';
        } else {
          k := c % m;
        }
      }
    }
  }

  // ---------- zigzag ----------

  predicate Int32(v: int) { -0x8000_0000 <= v < 0x8000_0000 }

  predicate Int64(v: int) { -0x8000_0000_0000_0000 <= v < 0x8000_0000_0000_0000 }

  /** The two's complement reading of a 32-bit word. */
  function Signed32(u: nat): int
    requires u < TWO32
  {
    if u < 0x8000_0000 then u else u - TWO32
  }

  function EncodeZigzag32(v: int): (u: nat)
    requires Int32(v)
    ensures u < TWO32
  {
    if v < 0 then (-v % TWO32 * 2 - 1) % TWO32 else v * 2 % TWO32
  }

  /** The source narrows the negated value to 32 bits here as well. */
  function EncodeZigzag64(v: int): (u: nat)
    requires Int64(v)
    ensures u < TWO64
  {
    if v < 0 then (-v % TWO32 * 2 - 1) % TWO32 else v * 2 % TWO64
  }

  /** (v >> 1) ^ -(v & 1): the halved word, complemented when the lowest bit is set. */
  function DecodeZigzag32(u: nat): int
    requires u < TWO32
  {
    Signed32(if u % 2 == 0 then u / 2 else TWO32 - 1 - u / 2)
  }

  /** The 64-bit word is narrowed to the int32_t the function returns. */
  function DecodeZigzag64(u: nat): int
    requires u < TWO64
  {
    Signed32((if u % 2 == 0 then u / 2 else TWO64 - 1 - u / 2) % TWO32)
  }

  /** What `(v >> 1) ^ -(v & 1)` does: it keeps the halved word for an even one and complements it for an odd one. */
  lemma XorComplements(u: bv32, w: bv64)
    ensures u & 1 == 0 ==> (u >> 1) ^ (0 - (u & 1)) == u >> 1
    ensures u & 1 == 1 ==> (u >> 1) ^ (0 - (u & 1)) == !(u >> 1)
    ensures w & 1 == 0 ==> (w >> 1) ^ (0 - (w & 1)) == w >> 1
    ensures w & 1 == 1 ==> (w >> 1) ^ (0 - (w & 1)) == !(w >> 1)
  {
    XorEven(u, w);
    XorOdd(u, w);
  }

  lemma XorEven(u: bv32, w: bv64)
    ensures u & 1 == 0 ==> (u >> 1) ^ (0 - (u & 1)) == u >> 1
    ensures w & 1 == 0 ==> (w >> 1) ^ (0 - (w & 1)) == w >> 1
  {
  }

  lemma XorOdd(u: bv32, w: bv64)
    ensures u & 1 == 1 ==> (u >> 1) ^ (0 - (u & 1)) == !(u >> 1)
    ensures w & 1 == 1 ==> (w >> 1) ^ (0 - (w & 1)) == !(w >> 1)
  {
  }

  /** On 32-bit values both encoders number 0, -1, 1, -2, 2, ... from 0. */
  lemma ZigzagOrder(v: int)
    requires Int32(v)
    ensures Int64(v) && EncodeZigzag32(v) == EncodeZigzag64(v) == if v < 0 then -2 * v - 1 else 2 * v
  {
    if v < 0 {
      Small(-v, TWO32);
      if -v == 0x8000_0000 {
        assert (-v % TWO32 * 2 - 1) % TWO32 == TWO32 - 1;
      } else {
        Small(-v * 2 - 1, TWO32);
      }
    }
  }

  /** 32-bit zigzag loses nothing in either direction. */
  lemma Zigzag32Inverse(v: int, u: nat)
    ensures Int32(v) ==> DecodeZigzag32(EncodeZigzag32(v)) == v
    ensures u < TWO32 ==> Int32(DecodeZigzag32(u)) && EncodeZigzag32(DecodeZigzag32(u)) == u
  {
    if Int32(v) {
      ZigzagOrder(v);
    }
    if u < TWO32 {
      ZigzagOrder(DecodeZigzag32(u));
    }
  }

  /** Whatever it decodes, the 64-bit decoder returns a 32-bit value. */
  lemma Decode64IsNarrow(u: nat)
    requires u < TWO64
    ensures Int32(DecodeZigzag64(u))
  {
  }

  lemma Decode64Small(v: int)
    requires Int32(v)
    ensures DecodeZigzag64(if v < 0 then -2 * v - 1 else 2 * v) == v
  {
    if v < 0 {
      assert TWO64 - 1 - (-v - 1) == TWO32 * (TWO32 - 1) + (TWO32 + v);
      ModUnique(TWO32, TWO32 - 1, TWO32 + v);
    } else {
      Small(v, TWO32);
    }
  }

  /** The 64-bit pair returns its argument exactly when that fits in 32 signed bits. */
  lemma Zigzag64Iff(v: int)
    requires Int64(v)
    ensures DecodeZigzag64(EncodeZigzag64(v)) == v <==> Int32(v)
  {
    Decode64IsNarrow(EncodeZigzag64(v));
    if Int32(v) {
      ZigzagOrder(v);
      Decode64Small(v);
    }
  }

  /** 2^31 is the smallest positive value that does not survive. */
  lemma Zigzag64Fails()
    ensures DecodeZigzag64(EncodeZigzag64(0x8000_0000)) == -0x8000_0000
  {
  }

  /** Small magnitudes take few bytes: at most n of them exactly in the range of 7n-bit signed integers. */
  lemma ZigzagLength(v: int, n: nat)
    requires Int32(v) && 1 <= n <= 4
    ensures |Varint(EncodeZigzag32(v))| <= n <==> -Pow2(7 * n - 1) <= v < Pow2(7 * n - 1)
  {
    VarintLength(EncodeZigzag32(v), n);
    ZigzagOrder(v);
    assert Pow2(7 * n) == 2 * Pow2(7 * n - 1);
  }

  // ---------- fixed width ----------

  /** The `w` bytes of a word in a little-endian memory. */
  function ToBytes(v: nat, w: nat): (r: seq<byte>)
    ensures |r| == w
  {
    if w == 0 then [] else [v % 256] + ToBytes(v / 256, w - 1)
  }

  function FromBytes(s: seq<byte>): nat {
    if s == [] then 0 else s[0] + 256 * FromBytes(s[1..])
  }

  function Reverse(s: seq<byte>): (r: seq<byte>)
    ensures |r| == |s|
  {
    if s == [] then [] else Reverse(s[1..]) + [s[0]]
  }

  function Pow256(w: nat): (r: int)
    ensures r > 0
  {
    if w == 0 then 1 else 256 * Pow256(w - 1)
  }

  /** What `w` bytes keep of a word: the conversion to the unsigned type of that width. */
  function LowBytes(v: nat, w: nat): nat {
    FromBytes(ToBytes(v, w))
  }

  lemma {:induction false} LowBytesIff(v: nat, w: nat)
    ensures LowBytes(v, w) <= v
    ensures LowBytes(v, w) == v <==> v < Pow256(w)
    decreases w
  {
    if w > 0 {
      LowBytesIff(v / 256, w - 1);
      assert ToBytes(v, w)[1..] == ToBytes(v / 256, w - 1);
    }
  }

  /** A byte in front of a number is its remainder, and the number its quotient. */
  lemma FrontByte(b: byte, m: nat)
    ensures (b + 256 * m) % 256 == b && (b + 256 * m) / 256 == m
  {
  }

  lemma {:induction false} ToFromBytes(s: seq<byte>)
    ensures FromBytes(s) < Pow256(|s|) && ToBytes(FromBytes(s), |s|) == s
  {
    if s != [] {
      var m := FromBytes(s[1..]);
      ToFromBytes(s[1..]);
      FrontByte(s[0], m);
      assert ToBytes(s[0] + 256 * m, |s|) == [s[0]] + ToBytes(m, |s| - 1);
      assert s == [s[0]] + s[1..];
    }
  }

  lemma {:induction false} ReverseAppend(s: seq<byte>, b: byte)
    ensures Reverse(s + [b]) == [b] + Reverse(s)
  {
    if s != [] {
      ReverseAppend(s[1..], b);
      assert (s + [b])[1..] == s[1..] + [b];
    }
  }

  lemma {:induction false} ReverseReverse(s: seq<byte>)
    ensures Reverse(Reverse(s)) == s
  {
    if s != [] {
      ReverseAppend(Reverse(s[1..]), s[0]);
      ReverseReverse(s[1..]);
    }
  }

  /** bswap: the word whose bytes are those of `v` backwards. */
  function ByteSwap(v: nat, w: nat): nat {
    FromBytes(Reverse(ToBytes(v, w)))
  }

  /** What the write functions store: the word is swapped first when the array's order is not the host's. */
  function Wire(swap: bool, v: nat, w: nat): (r: seq<byte>)
    ensures |r| == w
  {
    ToBytes(if swap then ByteSwap(v, w) else v, w)
  }

  function Unwire(swap: bool, s: seq<byte>): nat {
    if swap then ByteSwap(FromBytes(s), |s|) else FromBytes(s)
  }

  /** Swapping stores the bytes of the word backwards. */
  lemma WireSwapped(v: nat, w: nat)
    ensures Wire(true, v, w) == Reverse(Wire(false, v, w))
  {
    ToFromBytes(Reverse(ToBytes(v, w)));
  }

  /** Reading undoes writing in either order, up to what the width keeps. */
  lemma WireBack(swap: bool, v: nat, w: nat)
    ensures Unwire(swap, Wire(swap, v, w)) == LowBytes(v, w)
  {
    if swap {
      ToFromBytes(Reverse(ToBytes(v, w)));
      ReverseReverse(ToBytes(v, w));
    }
  }

  /** The two's complement word of a signed value, and back. */
  function ToWord(v: int, w: nat): (u: nat)
    requires -Pow256(w) <= v < Pow256(w)
    ensures u < Pow256(w)
  {
    if v < 0 then v + Pow256(w) else v
  }

  function FromWord(u: nat, w: nat, signed: bool): int {
    if signed && 2 * u >= Pow256(w) then u - Pow256(w) else u
  }

  predicate InRange(v: int, w: nat, signed: bool) {
    if signed then -Pow256(w) <= 2 * v < Pow256(w) else 0 <= v < Pow256(w)
  }

  lemma WordBack(v: int, w: nat, signed: bool)
    requires InRange(v, w, signed)
    ensures -Pow256(w) <= v < Pow256(w) && FromWord(ToWord(v, w), w, signed) == v
  {
  }
}
