/**
  Stream frames over a FIFO of link messages (stream.go, and the chunked send and recv of
  backend.go): an eight-byte big-endian length, then the payload, each split into messages of
  at most one staging buffer.
 */
module Framing {
  import opened Bytes
  import opened Chunks

  // ---- Lengths ----

  /** The low k bytes of n, most significant first. */
  function BigEndian(n: nat, k: nat): (s: seq<byte>)
    ensures |s| == k
  {
    if k == 0 then [] else BigEndian(n / 256, k - 1) + [n % 256]
  }

  function Value(s: seq<byte>): nat {
    if s == [] then 0 else 256 * Value(s[..|s| - 1]) + s[|s| - 1]
  }

  lemma {:induction false} ValueOfBigEndian(n: nat, k: nat)
    requires n < Pow256(k)
    ensures Value(BigEndian(n, k)) == n
  {
    if k > 0 {
      var s, high := BigEndian(n, k), n / 256;
      assert n == 256 * high + n % 256 && high < Pow256(k - 1);
      ValueOfBigEndian(high, k - 1);
      assert s[..k - 1] == BigEndian(high, k - 1);
      hide BigEndian, Pow256;
    }
  }

  /** Eight bytes as a number, most significant first. */
  function Uint64(s: seq<byte>): nat
    requires |s| == 8
  {
    0x1_0000_0000 * Uint32(s[0], s[1], s[2], s[3]) + Uint32(s[4], s[5], s[6], s[7])
  }

  function Uint32(a: nat, b: nat, c: nat, d: nat): nat { 0x100_0000 * a + 0x1_0000 * b + 0x100 * c + d }

  lemma ValueSnoc(s: seq<byte>, k: nat)
    requires k < |s|
    ensures Value(s[..k + 1]) == 0x100 * Value(s[..k]) + s[k]
  {
    assert s[..k + 1][..k] == s[..k];
  }

  lemma HeaderIsBigEndian(s: seq<byte>)
    requires |s| == 8
    ensures Value(s) == Uint64(s)
  {
    assert s[..8] == s && s[..0] == [];
    assert Value(s[..0]) == 0;
    hide Value;
    ValueSnoc(s, 0);
    ValueSnoc(s, 1);
    ValueSnoc(s, 2);
    ValueSnoc(s, 3);
    ValueSnoc(s, 4);
    ValueSnoc(s, 5);
    ValueSnoc(s, 6);
    ValueSnoc(s, 7);
  }

  // ---- Messages ----

  type Message = seq<byte>

  type Pos = k: nat | k > 0 witness 1

  /** Pieces of at most k bytes. */
  function Split(p: seq<byte>, k: Pos): (ms: seq<Message>)
    ensures forall i :: 0 <= i < |ms| ==> 0 < |ms[i]| <= k
    decreases |p|
  {
    if p == [] then [] else if |p| <= k then [p] else [p[..k]] + Split(p[k..], k)
  }

  lemma {:induction false} SplitJoin(p: seq<byte>, k: Pos)
    ensures Join(Split(p, k)) == p
    decreases |p|
  {
    if p != [] {
      var ms := Split(p, k);
      JoinHead(ms);
      if |p| > k {
        SplitJoin(p[k..], k);
        assert ms[1..] == Split(p[k..], k);
        assert p == p[..k] + p[k..];
      }
    }
  }

  /** The pieces are the successive chunks of k bytes, of which only the last may be shorter. */
  lemma {:induction false} SplitIsChunks(p: seq<byte>, k: Pos, i: nat)
    ensures |Split(p, k)| == ChunkCount(|p|, k)
    ensures i < |Split(p, k)| ==> Split(p, k)[i] == Chunk(p, k, i)
    decreases |p|
  {
    if |p| > k {
      SplitIsChunks(p[k..], k, if i > 0 then i - 1 else 0);
      if 0 < i < |Split(p, k)| {
        ChunkOfTail(p, k, i);
      }
    }
  }

  lemma ChunkOfTail(p: seq<byte>, k: Pos, i: nat)
    requires |p| > k && i > 0
    ensures Chunk(p[k..], k, i - 1) == Chunk(p, k, i)
  {
    ChunkShift(i - 1, k);
    hide Off;
    var tail := p[k..|p|];
    assert tail == p[k..];
    var lo := Least(Off(i - 1, k), |tail|);
    var hi := Least(lo + k, |tail|);
    assert Chunk(tail, k, i - 1) == tail[lo..hi] && Chunk(p, k, i) == p[k + lo..k + hi];
    SliceOfSlice(p, k, |p|, lo, hi);
  }

  /**
    Short: the messages so far are not enough. Mismatch: a piece had another size, and is gone with
    those before it.
   */
  datatype Taken = Have(data: seq<byte>, rest: seq<Message>) | Short | Mismatch(rest: seq<Message>)

  /** n bytes received in staging-size pieces: waits when messages run out, fails on a piece of another size. */
  function Take(q: seq<Message>, n: nat, k: Pos): Taken
    decreases n
  {
    if n == 0 then Have([], q)
    else if q == [] then Short
    else
      var want := if n <= k then n else k;
      if |q[0]| != want then Mismatch(q[1..])
      else
        match Take(q[1..], n - want, k)
        case Have(data, rest) => Have(q[0] + data, rest)
        case Short => Short
        case Mismatch(rest) => Mismatch(rest)
  }

  /** The split on send and the join on receive undo each other. */
  lemma {:induction false} TakeSplit(p: seq<byte>, rest: seq<Message>, k: Pos)
    ensures Take(Split(p, k) + rest, |p|, k) == Have(p, rest)
    decreases |p|
  {
    var q := Split(p, k) + rest;
    if |p| > k {
      assert q[1..] == Split(p[k..], k) + rest;
      TakeSplit(p[k..], rest, k);
      assert p == p[..k] + p[k..];
    } else if p != [] {
      assert q[1..] == rest;
      assert p + [] == p;
    } else {
      assert q == rest;
    }
  }

  /** Messages that arrive later change nothing about what was already complete. */
  lemma {:induction false} TakeMore(q: seq<Message>, more: seq<Message>, n: nat, k: Pos)
    requires Take(q, n, k).Have?
    ensures Take(q + more, n, k) == Have(Take(q, n, k).data, Take(q, n, k).rest + more)
    decreases n
  {
    if n > 0 {
      var want := if n <= k then n else k;
      assert (q + more)[1..] == q[1..] + more;
      TakeMore(q[1..], more, n - want, k);
    }
  }

  lemma {:induction false} TakeMismatch(q: seq<Message>, more: seq<Message>, n: nat, k: Pos)
    requires Take(q, n, k).Mismatch?
    ensures Take(q + more, n, k) == Mismatch(Take(q, n, k).rest + more)
    decreases n
  {
    var want := if n <= k then n else k;
    assert (q + more)[1..] == q[1..] + more;
    if |q[0]| == want {
      TakeMismatch(q[1..], more, n - want, k);
    }
  }

  // ---- Frames ----

  /** sendFrame: header, then payload if there is any. */
  function FrameMessages(p: seq<byte>, k: Pos): seq<Message> {
    Split(BigEndian(|p|, 8), k) + Split(p, k)
  }

  /** What a frame puts on the wire: eight bytes of length, most significant first, and the payload. */
  lemma WireImage(p: seq<byte>, k: Pos)
    requires |p| < 0x1_0000_0000_0000_0000
    ensures var wire := Join(FrameMessages(p, k)); |wire| == 8 + |p| && wire[8..] == p && Uint64(wire[..8]) == |p|
  {
    var header := BigEndian(|p|, 8);
    TwoTo64();
    hide Split, BigEndian, Join, Value, Pow256;
    JoinAppend(Split(header, k), Split(p, k));
    SplitJoin(header, k);
    SplitJoin(p, k);
    ValueOfBigEndian(|p|, 8);
    HeaderIsBigEndian(header);
    assert (header + p)[..8] == header;
  }

  lemma TwoTo64()
    ensures Pow256(8) == 0x1_0000_0000_0000_0000
  {
    assert Pow256(4) == 0x100 * Pow256(3) && Pow256(3) == 0x100 * Pow256(2) && Pow256(2) == 0x100 * Pow256(1);
    assert Pow256(8) == 0x100 * Pow256(7) && Pow256(7) == 0x100 * Pow256(6);
    assert Pow256(6) == 0x100 * Pow256(5) && Pow256(5) == 0x100 * Pow256(4);
  }

  /** Whatever recvFrame returns, rest is what it has left on the link; while it waits it has not returned. */
  datatype Next = Frame(payload: seq<byte>, rest: seq<Message>) | Waiting | TooLong(rest: seq<Message>)
                | LinkError(rest: seq<Message>)

  function FrameOf(t: Taken): Next {
    match t
    case Have(data, rest) => Frame(data, rest)
    case Short => Waiting
    case Mismatch(rest) => LinkError(rest)
  }

  /** recvFrame: an empty payload marks the end of the stream. */
  function NextFrame(q: seq<Message>, max: nat, k: Pos): Next {
    var header := Take(q, 8, k);
    if !header.Have? then FrameOf(header)
    else
      var n := Value(header.data);
      if n > max then TooLong(header.rest) else FrameOf(Take(header.rest, n, k))
  }

  /**
    A frame is read back whole, unless it exceeds the reader's limit: then its header is lost and
    its payload stays.
   */
  lemma NextFrameIs(p: seq<byte>, rest: seq<Message>, max: nat, k: Pos)
    requires |p| < Pow256(8)
    ensures NextFrame(FrameMessages(p, k) + rest, max, k)
         == if |p| > max then TooLong(Split(p, k) + rest) else Frame(p, rest)
  {
    hide Take, Split, BigEndian, Value;
    var header := BigEndian(|p|, 8);
    ValueOfBigEndian(|p|, 8);
    assert FrameMessages(p, k) + rest == Split(header, k) + (Split(p, k) + rest);
    TakeSplit(header, Split(p, k) + rest, k);
    TakeSplit(p, rest, k);
  }

  /** What has arrived decides the frame; what is still under way does not. */
  lemma NextFrameMore(q: seq<Message>, more: seq<Message>, max: nat, k: Pos)
    requires !NextFrame(q, max, k).Waiting?
    ensures var now, later := NextFrame(q, max, k), NextFrame(q + more, max, k);
            later == now.(rest := now.rest + more)
  {
    hide Take, Value;
    var header := Take(q, 8, k);
    if header.Mismatch? {
      TakeMismatch(q, more, 8, k);
    } else {
      TakeMore(q, more, 8, k);
      var n := Value(header.data);
      if n <= max {
        if Take(header.rest, n, k).Have? {
          TakeMore(header.rest, more, n, k);
        } else {
          TakeMismatch(header.rest, more, n, k);
        }
      }
    }
  }

  /** The messages of a sequence of frames. */
  function Encode(fs: seq<seq<byte>>, k: Pos): seq<Message> {
    if fs == [] then [] else FrameMessages(fs[0], k) + Encode(fs[1..], k)
  }

  lemma {:induction false} EncodeAppend(a: seq<seq<byte>>, b: seq<seq<byte>>, k: Pos)
    ensures Encode(a + b, k) == Encode(a, k) + Encode(b, k)
    decreases |a|
  {
    hide FrameMessages;
    if a == [] {
      assert a + b == b;
    } else {
      assert (a + b)[1..] == a[1..] + b;
      EncodeAppend(a[1..], b, k);
    }
  }
}
