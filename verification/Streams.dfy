/** Draining and filling a ByteArray through a socket: myhttp/socket_stream.cpp and the loops of myhttp/stream.cpp. */
module Streams {
  import opened Bytes
  import opened Capacity
  import opened ByteArrays
  import opened Codecs
  import F = FlatBytes

  const SIZE_T: nat := 0x1_0000_0000_0000_0000

  /** The conversion of a transport result to size_t, and size_t subtraction. */
  function ToSizeT(rt: int): nat
    requires -1 <= rt < SIZE_T
  {
    if rt < 0 then rt + SIZE_T else rt
  }

  function Minus(left: nat, len: nat): (r: nat)
    requires left < SIZE_T && len < SIZE_T
    ensures r < SIZE_T
  {
    if left >= len then left - len else left - len + SIZE_T
  }

  /** `return length` from a function returning int. */
  function AsInt(length: nat): int {
    Signed32(length % TWO32)
  }

  /** Keeps the books of a turn: an error makes `left` one longer, or wraps it to 0. */
  lemma Tally(left: nat, rt: int, failures: nat, wraps: nat) returns (failures': nat, wraps': nat)
    requires left < SIZE_T && -1 <= rt <= left
    ensures Minus(left, ToSizeT(rt)) + (if rt > 0 then rt else 0) + wraps' * SIZE_T + failures
            == left + wraps * SIZE_T + failures'
    ensures rt >= 0 ==> failures' == failures && wraps' == wraps
    ensures rt == -1 ==> Minus(left, ToSizeT(rt)) == if left == SIZE_T - 1 then 0 else left + 1
    ensures rt >= 0 ==> Minus(left, ToSizeT(rt)) == left - rt
  {
    failures', wraps' := failures, wraps;
    if rt == -1 {
      failures' := failures + 1;
      wraps' := wraps + if left == SIZE_T - 1 then 1 else 0;
    }
  }

  /**
   * The transport. `script` holds the results the system calls are going to return, -1 for an error; a result larger
   * than what is asked for is cut, and after the script every call returns 0.
   */
  class Socket {
    var connected: bool
    var script: seq<int>
    var incoming: seq<byte>
    var sent: seq<byte>

    method NextResult(limit: nat) returns (rt: int)
      modifies `script
      ensures -1 <= rt <= limit
      ensures rt != 0 ==> |script| < |old(script)|
      ensures |script| <= |old(script)|
      ensures old(AllGood()) ==> 0 <= rt && AllGood()
    {
      if script == [] {
        return 0;
      }
      assert script[0] in script;
      assert forall r :: r in script[1..] ==> r in script;
      rt := if script[0] < 0 then -1 else if script[0] > limit then limit else script[0];
      script := script[1..];
    }

    /** No call fails. */
    ghost predicate AllGood()
      reads this
    {
      connected && forall r :: r in script ==> 0 <= r
    }

    method Send(bytes: seq<byte>) returns (rt: int)
      modifies `script, `sent
      ensures -1 <= rt <= |bytes| && |script| <= |old(script)|
      ensures rt != 0 ==> |script| < |old(script)|
      ensures sent == old(sent) + if rt > 0 then bytes[..rt] else []
      ensures old(AllGood()) ==> 0 <= rt && AllGood()
    {
      rt := NextResult(|bytes|);
      if rt > 0 {
        sent := sent + bytes[..rt];
      }
    }

    method Receive(limit: nat) returns (rt: int, bytes: seq<byte>)
      modifies `script, `incoming
      ensures -1 <= rt <= limit && |script| <= |old(script)|
      ensures rt != 0 ==> |script| < |old(script)|
      ensures |bytes| == (if rt > 0 then rt else 0) && old(incoming) == bytes + incoming
      ensures old(AllGood()) ==> 0 <= rt && AllGood()
    {
      rt := NextResult(if limit < |incoming| then limit else |incoming|);
      var n := if rt > 0 then rt else 0;
      bytes := incoming[..n];
      incoming := incoming[n..];
    }
  }

  class SocketStream {
    const socket: Socket

    constructor (s: Socket)
      ensures socket == s
    {
      socket := s;
    }

    /** Sends from the cursor on and moves it over what went out. */
    method WriteFrom(ba: ByteArray, length: nat) returns (rt: int)
      requires ba.Valid() && socket !in ba.Repr
      modifies socket`script, socket`sent, ba`position, ba`size, ba`cur, ba`at
      ensures ba.Valid() && -1 <= rt && rt <= length && rt <= |old(ba.View()).content| - old(ba.position)
      ensures ba.View() == F.Seek(old(ba.View()), old(ba.position) + if rt > 0 then rt else 0)
      ensures socket.sent == old(socket.sent) + ba.View().content[old(ba.position)..ba.position]
      ensures rt > 0 || (rt == -1 && socket.connected) ==> |socket.script| < |old(socket.script)|
      ensures |socket.script| <= |old(socket.script)|
      ensures !socket.connected ==> rt == -1
      ensures old(socket.AllGood()) ==> 0 <= rt && socket.AllGood()
    {
      ghost var f := ba.View();
      if !socket.connected {
        return -1;
      }
      var bytes := ReadableBytes(ba, length);
      rt := socket.Send(bytes);
      if rt > 0 {
        var throws := ba.SetPosition(ba.position + rt);
        assert bytes[..rt] == f.content[f.position..f.position + rt];
      }
    }

    /** Fills the blocks behind the cursor and moves it over what came in; not ok when the blocks run out. */
    method ReadInto(ba: ByteArray, length: nat) returns (ok: bool, rt: int)
      requires ba.Valid() && socket !in ba.Repr
      modifies socket`script, socket`incoming, ba.Repr
      ensures ok <==> !socket.connected || Suffices(ba.growth, ba.base, length, old(ba.capacity) - old(ba.position))
      ensures ok ==> ba.Valid() && fresh(ba.Repr - old(ba.Repr)) && -1 <= rt <= length
      ensures ok ==>
                Received(old(ba.View()), ba.View(), old(socket.incoming), socket.incoming, if rt > 0 then rt else 0)
      ensures ok && old(ba.position) + length <= old(ba.capacity) ==> ba.capacity == old(ba.capacity)
      ensures ok && socket.connected ==> old(ba.position) + length <= ba.capacity
      ensures ok && (rt > 0 || (rt == -1 && socket.connected)) ==> |socket.script| < |old(socket.script)|
      ensures |socket.script| <= |old(socket.script)|
      ensures !socket.connected ==> rt == -1
      ensures ok && old(socket.AllGood()) ==> 0 <= rt && socket.AllGood()
    {
      rt := -1;
      if !socket.connected {
        return true, -1;
      }
      var iovs;
      ok, iovs := ba.GetWriteBuffers(length);
      if !ok {
        return;
      }
      var bytes;
      rt, bytes := socket.Receive(length);
      if rt > 0 {
        FillAndAdvance(ba, iovs, length, bytes);
      }
    }

    /** Between two turns: what went out is what the cursor moved over since `f`, and the books. */
    ghost predicate Sending(ba: ByteArray, rest: nat, length: nat, f: F.Flat, sent0: seq<byte>, failures: nat,
                            wraps: nat,
                            good: bool)
      reads this, socket, ba, ba.Repr
    {
      && f.Ok() && ba.Valid() && socket !in ba.Repr && rest < SIZE_T
      && f.position <= ba.position <= |f.content| && ba.View() == F.Seek(f, ba.position)
      && socket.sent == sent0 + f.content[f.position..ba.position]
      && rest + (ba.position - f.position) + wraps * SIZE_T == length + failures
      && (good ==> failures == wraps == 0 && socket.AllGood())
      && (!socket.connected ==> ba.position == f.position)
    }

    /** One turn of the sending loop; 0 stops it. */
    method WriteTurn(ba: ByteArray, rest: nat, ghost length: nat, ghost f: F.Flat, ghost sent0: seq<byte>,
                     ghost failures: nat, ghost wraps: nat, ghost good: bool)
      returns (stop: bool, rest': nat, ghost failures': nat, ghost wraps': nat)
      requires 0 < rest && Sending(ba, rest, length, f, sent0, failures, wraps, good)
      modifies socket`script, socket`sent, ba`position, ba`size, ba`cur, ba`at
      ensures Sending(ba, rest', length, f, sent0, failures', wraps', good)
      ensures stop ==> rest' == rest && socket.connected
      ensures |socket.script| < |old(socket.script)|
              || (|socket.script| <= |old(socket.script)| && (stop || rest' == 0 || rest' > rest))
    {
      ghost var p := ba.position;
      var rt := WriteFrom(ba, rest);
      var len := ToSizeT(rt);
      rest', failures', wraps' := rest, failures, wraps;
      stop := len == 0;
      SentMore(sent0, f.content, f.position, p, ba.position);
      if !stop {
        failures', wraps' := Tally(rest, rt, failures, wraps);
        rest' := Minus(rest, len);
      }
    }

    /**
     * Sends `length` bytes from the cursor on, however the transport splits them: what goes out is always exactly the
     * bytes the cursor moves over. An error result is -1, which the size_t turns into one more byte to send; `failures`
     * counts them and `wraps` the times `left` ran over the end of size_t.
     */
    method WriteFixSize(ba: ByteArray, length: nat)
      returns (r: int, ghost left: nat, ghost failures: nat, ghost wraps: nat)
      requires ba.Valid() && socket !in ba.Repr && length < SIZE_T
      modifies socket`script, socket`sent, ba`position, ba`size, ba`cur, ba`at
      ensures ba.Valid() && old(ba.position) <= ba.position <= |old(ba.View()).content|
      ensures ba.View() == F.Seek(old(ba.View()), ba.position)
      ensures socket.sent == old(socket.sent) + ba.View().content[old(ba.position)..ba.position]
      ensures left + (ba.position - old(ba.position)) + wraps * SIZE_T == length + failures
      ensures r == if left == 0 then AsInt(length) else 0
      ensures old(socket.AllGood()) ==> failures == wraps == 0
      ensures !socket.connected ==> ba.position == old(ba.position) && left == 0
    {
      var rest := length;
      left, failures, wraps := length, 0, 0;
      ghost var f, sent0, good := ba.View(), socket.sent, socket.AllGood();
      while rest > 0
        invariant left == rest && Sending(ba, rest, length, f, sent0, failures, wraps, good)
        decreases |socket.script|, if rest == 0 then 0 else SIZE_T - rest
      {
        var stop;
        stop, rest, failures, wraps := WriteTurn(ba, rest, length, f, sent0, failures, wraps, good);
        left := rest;
        if stop {
          return 0, left, failures, wraps;
        }
      }
      r := AsInt(length);
    }

    /** One read of the receiving loop, after `moved` bytes have come in since `f`. */
    method ReadOnce(ba: ByteArray, rest: nat, ghost f: F.Flat, ghost in0: seq<byte>, ghost moved: nat)
      returns (ok: bool, rt: int, ghost moved': nat)
      requires ba.Valid() && socket !in ba.Repr
      requires f.Ok() && Received(f, ba.View(), in0, socket.incoming, moved)
      modifies socket`script, socket`incoming, ba.Repr
      ensures ok <==> !socket.connected || Suffices(ba.growth, ba.base, rest, old(ba.capacity) - old(ba.position))
      ensures ok ==> ba.Valid() && fresh(ba.Repr - old(ba.Repr)) && -1 <= rt <= rest
      ensures ok ==> moved' == moved + (if rt > 0 then rt else 0) && ba.position == old(ba.position) + (moved' - moved)
      ensures ok ==> Received(f, ba.View(), in0, socket.incoming, moved')
      ensures ok && socket.connected ==> old(ba.position) + rest <= ba.capacity
      ensures ok && (rt > 0 || (rt == -1 && socket.connected)) ==> |socket.script| < |old(socket.script)|
      ensures |socket.script| <= |old(socket.script)|
      ensures !socket.connected ==> rt == -1
      ensures ok && old(socket.AllGood()) ==> 0 <= rt && socket.AllGood()
    {
      ghost var g, in1 := ba.View(), socket.incoming;
      ok, rt := ReadInto(ba, rest);
      moved' := moved + if rt > 0 then rt else 0;
      if ok {
        ReceivedTwice(f, g, ba.View(), in0, in1, socket.incoming, moved, moved' - moved);
      }
    }

    /** Between two turns: `moved` bytes have come in, and the rest still fits where the transport does not fail. */
    ghost predicate Receiving(ba: ByteArray, rest: nat, length: nat, f: F.Flat, in0: seq<byte>, moved: nat,
                              failures: nat, wraps: nat, good: bool)
      reads this, socket, ba, ba.Repr
    {
      && f.Ok() && ba.Valid() && socket !in ba.Repr && rest < SIZE_T
      && Received(f, ba.View(), in0, socket.incoming, moved)
      && rest + moved + wraps * SIZE_T == length + failures
      && (good ==> failures == wraps == 0 && socket.AllGood()
                   && ((ba.position + rest <= ba.capacity
                        && Suffices(f.growth, f.base, length, f.capacity - f.position))
                       || (rest == length && ba.capacity - ba.position == f.capacity - f.position)))
      && (!socket.connected ==> moved == 0)
    }

    /** One turn of the receiving loop; 0 stops it. */
    method ReadTurn(ba: ByteArray, rest: nat, ghost length: nat, ghost f: F.Flat, ghost in0: seq<byte>,
                    ghost moved: nat,
                    ghost failures: nat, ghost wraps: nat, ghost good: bool)
      returns (ok: bool, stop: bool, rest': nat, ghost moved': nat, ghost failures': nat, ghost wraps': nat)
      requires 0 < rest && Receiving(ba, rest, length, f, in0, moved, failures, wraps, good)
      modifies socket`script, socket`incoming, ba.Repr
      ensures ok ==>
                fresh(ba.Repr - old(ba.Repr)) && Receiving(ba, rest', length, f, in0, moved', failures', wraps', good)
      ensures !ok ==>
                socket.connected && ba.growth != Ceiling
                  && (good ==> !Suffices(f.growth, f.base, length, f.capacity - f.position))
      ensures ok && good ==> Suffices(f.growth, f.base, length, f.capacity - f.position)
      ensures stop ==> rest' == rest && socket.connected
      ensures ok && !stop ==>
                |socket.script| < |old(socket.script)|
                  || (|socket.script| <= |old(socket.script)| && (rest' == 0 || rest' > rest))
    {
      CeilingSuffices(ba.base, rest, ba.capacity - ba.position);
      var r;
      rest', failures', wraps' := rest, failures, wraps;
      ok, r, moved' := ReadOnce(ba, rest, f, in0, moved);
      if !ok {
        return false, false, rest, moved, failures, wraps;
      }
      var len := ToSizeT(r);
      stop := len == 0;
      if !stop {
        failures', wraps' := Tally(rest, r, failures, wraps);
        rest' := Minus(rest, len);
      }
    }

    /**
     * Receives `length` bytes behind the cursor, however the transport splits them. Without errors it runs off the
     * block list exactly when the very first growth falls short, and with ceiling growth never.
     */
    method ReadFixSize(ba: ByteArray, length: nat)
      returns (ok: bool, r: int, ghost moved: nat, ghost left: nat, ghost failures: nat, ghost wraps: nat)
      requires ba.Valid() && socket !in ba.Repr && length < SIZE_T
      modifies socket`script, socket`incoming, ba.Repr
      ensures ok ==> ba.Valid() && fresh(ba.Repr - old(ba.Repr))
      ensures ok ==> Received(old(ba.View()), ba.View(), old(socket.incoming), socket.incoming, moved)
      ensures ok ==> left + moved + wraps * SIZE_T == length + failures
      ensures ok ==> r == if left == 0 then AsInt(length) else 0
      ensures ok && old(socket.AllGood()) ==> failures == wraps == 0
      ensures ba.growth == Ceiling ==> ok
      ensures old(socket.AllGood()) ==>
                (ok <==> Suffices(ba.growth, ba.base, length, old(ba.capacity) - old(ba.position)))
      ensures !socket.connected ==> ok && moved == 0 && left == 0
    {
      var rest := length;
      moved, left, failures, wraps := 0, length, 0, 0;
      ghost var f, in0, good := ba.View(), socket.incoming, socket.AllGood();
      while rest > 0
        invariant left == rest && fresh(ba.Repr - old(ba.Repr))
                  && Receiving(ba, rest, length, f, in0, moved, failures, wraps, good)
        decreases |socket.script|, if rest == 0 then 0 else SIZE_T - rest
      {
        var stop;
        ok, stop, rest, moved, failures, wraps := ReadTurn(ba, rest, length, f, in0, moved, failures, wraps, good);
        left := rest;
        if !ok {
          return false, 0, moved, left, failures, wraps;
        }
        if stop {
          return true, 0, moved, left, failures, wraps;
        }
      }
      ok, r := true, AsInt(length);
    }
  }

  /** What the iovecs of getReadBuffers hold. */
  method ReadableBytes(ba: ByteArray, length: nat) returns (bytes: seq<byte>)
    requires ba.Valid()
    ensures var f := ba.View();
            var n := if length > f.Readable() then f.Readable() else length;
            bytes == f.content[f.position..f.position + n]
  {
    ConcatLength(ba.cells, ba.base);
    ba.CursorBlock();
    var n, iovs := ba.GetReadBuffers(length);
    if n > 0 {
      ba.WindowsHold(ba.position / ba.base, ba.position % ba.base, n);
      WindowOfPrefix(ba.Data(), ba.size, ba.position, n);
    }
    bytes := ByteArray.Gather(iovs);
  }

  /** `n` more bytes have come in and lie behind the old cursor; nothing else has changed. */
  ghost predicate Received(f: F.Flat, g: F.Flat, before: seq<byte>, after: seq<byte>, n: nat)
    requires f.Ok() && g.Ok()
  {
    && n <= |before| && after == before[n..]
    && g.growth == f.growth && g.base == f.base
    && g.position == f.position + n && g.content == Overwrite(f.content, f.position, before[..n])
  }

  /** recv through the iovecs of getWriteBuffers, then setPosition: exactly those bytes become readable. */
  method FillAndAdvance(ba: ByteArray, iovs: seq<IoVec>, length: nat, bytes: seq<byte>)
    requires ba.Valid() && |bytes| <= length && ba.position + length <= ba.capacity && bytes != []
    requires iovs == ba.Windows(ba.position / ba.base, ba.position % ba.base, length)
    modifies ba.Repr
    ensures ba.Valid() && ba.Repr == old(ba.Repr)
    ensures ba.View() == old(ba.View()).(position := old(ba.position) + |bytes|,
                                         content := Overwrite(old(ba.View()).content, old(ba.position), bytes))
  {
    ghost var f, d := ba.View(), ba.Data();
    ba.CursorBlock();
    ba.Fill(iovs, bytes, ba.position / ba.base, ba.position % ba.base, length);
    ConcatLength(ba.cells, ba.base);
    LaidOverAll(ba.Data(), d, f.position, bytes);
    var throws := ba.SetPosition(ba.position + |bytes|);
    SpliceOfPrefix(d, |f.content|, f.position, bytes);
  }

  lemma SentMore(sent: seq<byte>, content: seq<byte>, start: nat, p: nat, q: nat)
    requires start <= p <= q <= |content|
    ensures sent + content[start..p] + content[p..q] == sent + content[start..q]
  {
    assert content[start..p] + content[p..q] == content[start..q];
  }

  lemma WindowOfPrefix(d: seq<byte>, size: nat, p: nat, n: nat)
    requires p + n <= size <= |d|
    ensures d[..size][p..p + n] == d[p..p + n]
  {
  }

  lemma SpliceOfPrefix(d: seq<byte>, size: nat, p: nat, bytes: seq<byte>)
    requires p <= size <= |d| && p + |bytes| <= |d|
    ensures Splice(d, p, bytes)[..if p + |bytes| > size then p + |bytes| else size] == Overwrite(d[..size], p, bytes)
  {
  }

  /** Receiving twice is receiving the concatenation. */
  lemma ReceivedTwice(f: F.Flat, g: F.Flat, h: F.Flat, a: seq<byte>, b: seq<byte>, c: seq<byte>, m: nat, n: nat)
    requires f.Ok() && g.Ok() && h.Ok()
    requires Received(f, g, a, b, m) && Received(g, h, b, c, n)
    ensures Received(f, h, a, c, m + n)
  {
    assert b[..n] == a[m..m + n];
    assert a[..m] + b[..n] == a[..m + n];
    OverwriteTwice(f.content, f.position, a[..m], b[..n]);
  }
}
