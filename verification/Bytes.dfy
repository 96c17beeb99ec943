/** Byte sequences: overwriting a window, and the view of equally long blocks as one flat sequence. */
module Bytes {

  type byte = x: int | 0 <= x < 256

  datatype Option<+T> = None | Some(value: T)

  /** `s` with `chunk` laid over the window that starts at `at`. */
  function Splice(s: seq<byte>, at: nat, chunk: seq<byte>): (r: seq<byte>)
    requires at + |chunk| <= |s|
    ensures |r| == |s|
  {
    s[..at] + chunk + s[at + |chunk|..]
  }

  /** `s` with `chunk` laid over it at `at`; unlike Splice the chunk may reach past the end. */
  function Overwrite(s: seq<byte>, at: nat, chunk: seq<byte>): (r: seq<byte>)
    requires at <= |s|
    ensures |r| == if at + |chunk| > |s| then at + |chunk| else |s|
  {
    s[..at] + chunk + (if at + |chunk| < |s| then s[at + |chunk|..] else [])
  }

  lemma OverwriteTwice(s: seq<byte>, at: nat, a: seq<byte>, b: seq<byte>)
    requires at <= |s|
    ensures Overwrite(Overwrite(s, at, a), at + |a|, b) == Overwrite(s, at, a + b)
  {
  }

  /** The blocks' bytes, one block after the other. */
  function Concat(cells: seq<seq<byte>>): seq<byte> {
    if cells == [] then [] else cells[0] + Concat(cells[1..])
  }

  ghost predicate Uniform(cells: seq<seq<byte>>, base: nat) {
    forall i :: 0 <= i < |cells| ==> |cells[i]| == base
  }

  /** `t` is `s` with the first `k` bytes of `buf` laid over it at `at`: Splice, byte by byte. */
  ghost predicate LaidOver(t: seq<byte>, s: seq<byte>, at: nat, buf: seq<byte>, k: nat) {
    && k <= |buf| && at + k <= |s| == |t|
    && forall i :: 0 <= i < |t| ==> t[i] == if at <= i < at + k then buf[i - at] else s[i]
  }

  lemma LaidOverStep(t: seq<byte>, s: seq<byte>, at: nat, buf: seq<byte>, k: nat, n: nat)
    requires LaidOver(t, s, at, buf, k) && k + n <= |buf| && at + k + n <= |s|
    ensures LaidOver(Splice(t, at + k, buf[k..k + n]), s, at, buf, k + n)
  {
  }

  lemma LaidOverAll(t: seq<byte>, s: seq<byte>, at: nat, buf: seq<byte>)
    requires LaidOver(t, s, at, buf, |buf|)
    ensures t == Splice(s, at, buf)
  {
  }

  /** The bytes in `n` blocks; a sum rather than a product, so that proofs about blocks stay linear. */
  function Span(base: nat, n: nat): nat {
    if n == 0 then 0 else Span(base, n - 1) + base
  }

  lemma SpanIsProduct(base: nat, n: nat)
    ensures Span(base, n) == base * n
  {
    if n > 0 {
      SpanIsProduct(base, n - 1);
      assert base * n == base * (n - 1) + base;
    }
  }

  lemma SpanAdd(base: nat, m: nat, n: nat)
    ensures Span(base, m + n) == Span(base, m) + Span(base, n)
  {
    if n > 0 {
      SpanAdd(base, m, n - 1);
    }
  }

  /** Different numbers of blocks are at least one block apart. */
  lemma {:induction false} SpanStep(base: nat, a: nat, b: nat)
    ensures a < b ==> Span(base, a) + base <= Span(base, b)
    decreases b
  {
    if a < b {
      SpanStep(base, a, b - 1);
    }
  }

  lemma DivModSplit(p: nat, base: nat)
    requires 0 < base
    ensures p == Span(base, p / base) + p % base
  {
    var q, r := p / base, p % base;
    assert p == base * q + r;
    SpanIsProduct(base, q);
  }

  /** Byte `off` of block `c` is at the position whose quotient and remainder they are. */
  lemma SpanDivMod(base: nat, c: nat, off: nat)
    requires off < base
    ensures (Span(base, c) + off) / base == c && (Span(base, c) + off) % base == off
  {
    var p := Span(base, c) + off;
    DivModSplit(p, base);
    var q, r := p / base, p % base;
    SpanStep(base, q, c);
    SpanStep(base, c, q);
  }

  lemma ConcatLength(cells: seq<seq<byte>>, base: nat)
    requires Uniform(cells, base)
    ensures |Concat(cells)| == Span(base, |cells|)
  {
    if cells != [] {
      ConcatLength(cells[1..], base);
    }
  }

  lemma ConcatAppend(cells: seq<seq<byte>>, more: seq<seq<byte>>)
    ensures Concat(cells + more) == Concat(cells) + Concat(more)
  {
    if cells == [] {
      assert cells + more == more;
    } else {
      ConcatAppend(cells[1..], more);
      assert (cells + more)[1..] == cells[1..] + more;
    }
  }

  lemma SpliceInTail(head: seq<byte>, rest: seq<byte>, at: nat, chunk: seq<byte>)
    requires at + |chunk| <= |rest|
    ensures head + Splice(rest, at, chunk) == Splice(head + rest, |head| + at, chunk)
  {
  }

  lemma SpliceInHead(head: seq<byte>, rest: seq<byte>, at: nat, chunk: seq<byte>)
    requires at + |chunk| <= |head|
    ensures Splice(head, at, chunk) + rest == Splice(head + rest, at, chunk)
  {
  }

  lemma SliceOfTail(head: seq<byte>, rest: seq<byte>, at: nat, n: nat)
    requires at + n <= |rest|
    ensures (head + rest)[|head| + at..|head| + at + n] == rest[at..at + n]
  {
  }

  /** A window inside block `c` is the same window of the flat sequence, shifted by the blocks before it. */
  lemma {:induction false} ConcatWindow(cells: seq<seq<byte>>, base: nat, c: nat, off: nat, n: nat)
    requires Uniform(cells, base) && c < |cells| && off + n <= base
    ensures |Concat(cells)| == Span(base, |cells|) && Span(base, c) + off + n <= |Concat(cells)|
    ensures Concat(cells)[Span(base, c) + off..Span(base, c) + off + n] == cells[c][off..off + n]
    decreases c
  {
    ConcatLength(cells, base);
    SpanStep(base, c, |cells|);
    if c > 0 {
      ConcatWindow(cells[1..], base, c - 1, off, n);
      SliceOfTail(cells[0], Concat(cells[1..]), Span(base, c - 1) + off, n);
    } else {
      assert (cells[0] + Concat(cells[1..]))[off..off + n] == cells[0][off..off + n];
    }
  }

  /** Overwriting a window of one block overwrites the matching window of the flat sequence and nothing else. */
  lemma {:induction false} ConcatSplice(cells: seq<seq<byte>>, base: nat, c: nat, off: nat, chunk: seq<byte>)
    requires Uniform(cells, base) && c < |cells| && off + |chunk| <= base
    ensures |Concat(cells)| == Span(base, |cells|) && Span(base, c) + off + |chunk| <= |Concat(cells)|
    ensures Concat(cells[c := Splice(cells[c], off, chunk)]) == Splice(Concat(cells), Span(base, c) + off, chunk)
    decreases c
  {
    ConcatWindow(cells, base, c, off, |chunk|);
    var cells' := cells[c := Splice(cells[c], off, chunk)];
    if c == 0 {
      assert cells'[1..] == cells[1..];
      SpliceInHead(cells[0], Concat(cells[1..]), off, chunk);
    } else {
      ConcatSplice(cells[1..], base, c - 1, off, chunk);
      assert cells'[1..] == cells[1..][c - 1 := Splice(cells[c], off, chunk)];
      SpliceInTail(cells[0], Concat(cells[1..]), Span(base, c - 1) + off, chunk);
    }
  }
}
