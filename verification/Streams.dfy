/** The stream writer and reader as the source updates them, in place over a link, against StreamSpec. */
module Streams {
  import opened Bytes
  import opened Framing
  import opened StreamSpec

  class Link {
    const staging: Pos
    var queue: seq<Message>

    constructor (staging: Pos)
      ensures this.staging == staging && queue == []
    {
      this.staging := staging;
      queue := [];
    }

    /** send: one message per staging buffer. */
    method Send(src: seq<byte>)
      modifies this
      ensures queue == old(queue) + Split(src, staging)
    {
      var off := 0;
      assert src[0..] == src;
      while off < |src|
        invariant off <= |src| && queue + Split(src[off..], staging) == old(queue) + Split(src, staging)
      {
        var n := if staging < |src| - off then staging else |src| - off;
        SplitStep(src[off..], staging);
        assert src[off..][..n] == src[off..off + n] && src[off..][n..] == src[off + n..];
        queue := queue + [src[off..off + n]];
        off := off + n;
      }
    }

    /** recv: fill dst from as many messages as it takes; on Short the call would still be waiting. */
    method Recv(dst: array<byte>) returns (t: Taken)
      modifies this, dst
      ensures t == Take(old(queue), dst.Length, staging)
      ensures t.Have? ==> dst[..] == t.data && queue == t.rest
      ensures t.Mismatch? ==> queue == t.rest
      ensures t.Short? ==> queue == old(queue)
    {
      hide Take;
      var q := queue;
      var off := 0;
      ghost var whole := Take(queue, dst.Length, staging);
      PrependNothing(whole);
      while off < dst.Length
        invariant off <= dst.Length && queue == old(queue)
        invariant Prepend(dst[..off], Take(q, dst.Length - off, staging)) == whole
      {
        TakeStep(q, dst.Length - off, staging);
        if q == [] { return Short; }
        var n := if staging < dst.Length - off then staging else dst.Length - off;
        if |q[0]| != n {
          queue := q[1..];
          return Mismatch(queue);
        }
        ghost var before := dst[..off];
        CopyTo(dst, off, q[0]);
        assert dst[..off + n] == before + q[0];
        PrependTwice(before, q[0], Take(q[1..], dst.Length - off - n, staging));
        q := q[1..];
        off := off + n;
      }
      TakeNothing(q, staging);
      assert dst[..off] == dst[..] && dst[..] + [] == dst[..];
      queue := q;
      t := Have(dst[..], q);
    }
  }

  ghost function Prepend(a: seq<byte>, t: Taken): Taken {
    match t
    case Have(data, rest) => Have(a + data, rest)
    case _ => t
  }

  lemma PrependNothing(t: Taken)
    ensures Prepend([], t) == t
  {
    if t.Have? {
      assert [] + t.data == t.data;
    }
  }

  lemma TakeNothing(q: seq<Message>, k: Pos)
    ensures Take(q, 0, k) == Have([], q)
  {
  }

  lemma TakeStep(q: seq<Message>, n: nat, k: Pos)
    requires n > 0
    ensures Take(q, n, k) ==
            if q == [] then Short
            else if |q[0]| != (if k < n then k else n) then Mismatch(q[1..])
            else Prepend(q[0], Take(q[1..], n - |q[0]|, k))
  {
  }

  lemma PrependTwice(a: seq<byte>, b: seq<byte>, t: Taken)
    ensures Prepend(a, Prepend(b, t)) == Prepend(a + b, t)
  {
    if t.Have? {
      assert a + (b + t.data) == a + b + t.data;
    }
  }

  lemma SplitStep(p: seq<byte>, k: Pos)
    requires p != []
    ensures var n := if k < |p| then k else |p|; Split(p, k) == [p[..n]] + Split(p[n..], k)
  {
    if |p| <= k {
      assert p[..|p|] == p && p[|p|..] == [];
    }
  }

  /** copy(dst[off:], src). */
  method CopyTo(dst: array<byte>, off: nat, src: seq<byte>)
    requires off + |src| <= dst.Length
    modifies dst
    ensures dst[..off] == old(dst[..off]) && dst[off..off + |src|] == src
    ensures dst[off + |src|..] == old(dst[off + |src|..])
  {
    for i := 0 to |src|
      invariant forall j :: 0 <= j < dst.Length ==> dst[j] == if off <= j < off + i then src[j - off] else old(dst[j])
    {
      dst[off + i] := src[i];
    }
  }

  class SendWriter {
    const link: Link
    const cfg: Config
    var closed: bool

    constructor (link: Link, cfg: Config)
      ensures this.link == link && this.cfg == cfg && !closed
    {
      this.link, this.cfg, closed := link, cfg, false;
    }

    predicate Ready()
    {
      link.staging == cfg.staging
    }

    method SendFrame(payload: seq<byte>)
      requires Ready()
      modifies link
      ensures link.queue == old(link.queue) + FrameMessages(payload, cfg.staging)
    {
      hide Split, BigEndian;
      link.Send(BigEndian(|payload|, 8));
      if |payload| == 0 {
        NothingToSplit(payload, cfg.staging);
        return;
      }
      link.Send(payload);
    }

    /** Returns the number of bytes sent, or nothing from a closed writer. */
    method Write(p: seq<byte>) returns (written: nat, ok: bool)
      requires Ready()
      modifies link
      ensures ok <==> !closed
      ensures written == if ok then |p| else 0
      ensures link.queue == old(link.queue) + if ok then WriteMessages(p, cfg) else []
    {
      hide FrameMessages, Split, WriteMessages, Encode;
      if closed { return 0, false; }
      written := 0;
      ghost var was := link.queue;
      assert p[0..] == p;
      while written < |p|
        invariant written <= |p|
        invariant link.queue + WriteMessages(p[written..], cfg) == was + WriteMessages(p, cfg)
      {
        var n := if cfg.chunk < |p| - written then cfg.chunk else |p| - written;
        WriteUnfolds(p[written..], cfg);
        assert p[written..][..n] == p[written..written + n] && p[written..][n..] == p[written + n..];
        Associates(link.queue, FrameMessages(p[written..written + n], cfg.staging),
          WriteMessages(p[written + n..], cfg));
        SendFrame(p[written..written + n]);
        written := written + n;
      }
      NothingToWrite(p[written..], cfg);
      assert link.queue + [] == link.queue;
      ok := true;
    }

    /** Sends what a source returns read by read; the last read may report an error, which is returned. */
    method ReadFrom(parts: seq<seq<byte>>, failed: bool) returns (total: nat, ok: bool)
      requires Ready()
      modifies link
      ensures ok <==> !closed && !failed
      ensures total == if closed then 0 else |Join(parts)|
      ensures link.queue == old(link.queue) + if closed then [] else AllMessages(parts, cfg)
    {
      hide WriteMessages, AllMessages, Join;
      if closed { return 0, false; }
      total := 0;
      ghost var was := link.queue;
      assert parts[0..] == parts;
      for i := 0 to |parts|
        invariant link.queue + AllMessages(parts[i..], cfg) == was + AllMessages(parts, cfg)
        invariant total + |Join(parts[i..])| == |Join(parts)|
      {
        assert parts[i..][0] == parts[i] && parts[i..][1..] == parts[i + 1..];
        PartsUnfold(parts[i..], cfg);
        Associates(link.queue, WriteMessages(parts[i], cfg), AllMessages(parts[i + 1..], cfg));
        if |parts[i]| > 0 {
          var n, _ := Write(parts[i]);
          total := total + n;
        } else {
          NothingToWrite(parts[i], cfg);
          assert link.queue + [] == link.queue;
        }
      }
      NoParts(parts[|parts|..], cfg);
      assert link.queue + [] == link.queue;
      ok := !failed;
    }

    /** Sends the end-of-stream frame, once. */
    method Close()
      requires Ready()
      modifies this, link
      ensures closed
      ensures link.queue == old(link.queue) + if old(closed) then [] else FrameMessages([], cfg.staging)
    {
      if closed { return; }
      closed := true;
      SendFrame([]);
    }
  }

  /** The messages of successive writes. */
  function AllMessages(writes: seq<seq<byte>>, cfg: Config): seq<Message>
  {
    if writes == [] then [] else WriteMessages(writes[0], cfg) + AllMessages(writes[1..], cfg)
  }

  lemma PartsUnfold(writes: seq<seq<byte>>, cfg: Config)
    requires writes != []
    ensures AllMessages(writes, cfg) == WriteMessages(writes[0], cfg) + AllMessages(writes[1..], cfg)
    ensures |Join(writes)| == |writes[0]| + |Join(writes[1..])|
  {
    JoinHead(writes);
    hide Join, WriteMessages;
  }

  lemma NoParts(writes: seq<seq<byte>>, cfg: Config)
    requires writes == []
    ensures AllMessages(writes, cfg) == [] && Join(writes) == []
  {
  }

  lemma Associates(a: seq<Message>, b: seq<Message>, c: seq<Message>)
    ensures a + (b + c) == (a + b) + c
  {
  }

  lemma NothingToSplit(p: seq<byte>, k: Pos)
    requires p == []
    ensures Split(p, k) == []
  {
  }

  lemma NothingToWrite(p: seq<byte>, cfg: Config)
    requires p == []
    ensures WriteMessages(p, cfg) == []
  {
  }

  lemma WriteUnfolds(p: seq<byte>, cfg: Config)
    requires p != []
    ensures var n := if cfg.chunk < |p| then cfg.chunk else |p|;
            WriteMessages(p, cfg) == FrameMessages(p[..n], cfg.staging) + WriteMessages(p[n..], cfg)
  {
    hide FrameMessages;
    SplitStep(p, cfg.chunk);
    var n := if cfg.chunk < |p| then cfg.chunk else |p|;
    var fs := Split(p, cfg.chunk);
    assert fs[0] == p[..n] && fs[1..] == Split(p[n..], cfg.chunk);
  }

  class RecvReader {
    const link: Link
    const cfg: Config
    var pending: seq<byte>
    var eof: bool
    var closed: bool

    constructor (link: Link, cfg: Config)
      ensures this.link == link && this.cfg == cfg && View() == Reader([], false, false)
    {
      this.link, this.cfg := link, cfg;
      pending, eof, closed := [], false, false;
    }

    function View(): Reader
      reads this
    {
      Reader(pending, eof, closed)
    }

    predicate Ready()
    {
      link.staging == cfg.staging
    }

    method RecvFrame() returns (f: Next)
      requires Ready()
      modifies link
      ensures f == NextFrame(old(link.queue), cfg.max, cfg.staging)
      ensures link.queue == if f.Waiting? then old(link.queue) else f.rest
    {
      hide Take, Value;
      ghost var was := link.queue;
      var waiting := link.queue;
      var header := new byte[8];
      var t := link.Recv(header);
      if !t.Have? { return FrameOf(t); }
      var n := Value(header[..]);
      if n > cfg.max { return TooLong(link.queue); }
      var frame := new byte[n];
      t := link.Recv(frame);
      if t.Short? { link.queue := waiting; }
      return FrameOf(t);
    }

    /** Reads into p, at most its length. */
    method Read(p: array<byte>) returns (res: ReadResult)
      requires Ready()
      modifies this, link, p
      ensures (View(), link.queue, res) == StreamSpec.Read(old(View()), old(link.queue), p.Length, cfg)
      ensures res.Got? ==> |res.data| <= p.Length && p[..|res.data|] == res.data
    {
      hide NextFrame;
      if closed { return ReaderClosed; }
      if p.Length == 0 { return Got([]); }
      if |pending| > 0 {
        var n := Least(p.Length, |pending|);
        CopyTo(p, 0, pending[..n]);
        res := Got(pending[..n]);
        pending := pending[n..];
        return;
      }
      if eof { return EndOfStream; }
      var f := RecvFrame();
      match f {
        case Waiting => return Blocked;
        case TooLong(_) => return FrameTooLong;
        case LinkError(_) => return LinkFailed;
        case Frame(frame, _) =>
          if frame == [] {
            eof := true;
            return EndOfStream;
          }
          var n := Least(p.Length, |frame|);
          CopyTo(p, 0, frame[..n]);
          pending := frame[n..];
          return Got(frame[..n]);
      }
    }

    /** Delivers pending bytes and then whole frames until the end of the stream, to a writer that takes everything. */
    method WriteTo() returns (data: seq<byte>, res: ReadResult)
      requires Ready()
      modifies this, link
      ensures closed == old(closed)
      ensures closed ==> data == [] && res == ReaderClosed && View() == old(View()) && link.queue == old(link.queue)
      ensures !closed && old(eof) ==>
                data == old(pending) && res == EndOfStream && eof && pending == [] && link.queue == old(link.queue)
      ensures !closed && !old(eof) ==>
                var d := DrainFrames(old(link.queue), cfg);
                && data == old(pending) + d.data && res == d.result && eof == d.eof && pending == []
                && link.queue == d.rest
    {
      hide NextFrame;
      if closed { return [], ReaderClosed; }
      data := pending;
      pending := [];
      if eof { return data, EndOfStream; }
      ghost var d := DrainFrames(link.queue, cfg);
      ghost var left := d;
      while true
        invariant !closed && !eof && pending == []
        invariant left == DrainFrames(link.queue, cfg)
        invariant data + left.data == old(pending) + d.data
        invariant left.(data := []) == d.(data := [])
        decreases |link.queue|
      {
        if NextFrame(link.queue, cfg.max, cfg.staging).Frame? {
          FrameShrinks(link.queue, cfg);
        }
        var f := RecvFrame();
        match f {
          case Waiting => return data, Blocked;
          case TooLong(_) => return data, FrameTooLong;
          case LinkError(_) => return data, LinkFailed;
          case Frame(frame, rest) =>
            if frame == [] {
              eof := true;
              return data, EndOfStream;
            }
            left := DrainFrames(rest, cfg);
            assert data + (frame + left.data) == data + frame + left.data;
            data := data + frame;
        }
      }
    }

    /** Releases the reader and drops what is pending. */
    method Close()
      modifies this
      ensures View() == old(View()).(closed := true, pending := [])
    {
      closed := true;
      pending := [];
    }
  }
}
