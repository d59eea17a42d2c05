/**
  Stream writer and reader (stream.go) over one FIFO link, and every run of the two: the writer
  queues messages, the link delivers them one at a time, and the reader reads in sizes of its
  choosing at moments of its choosing.
 */
module StreamSpec {
  import opened Bytes
  import opened Framing

  /** Writer chunk, reader frame limit, staging buffer. */
  datatype Config = Config(chunk: Pos, max: Pos, staging: Pos)

  datatype Reader = Reader(pending: seq<byte>, eof: bool, closed: bool)

  datatype ReadResult = Got(data: seq<byte>) | EndOfStream | ReaderClosed | Blocked | FrameTooLong | LinkFailed

  /** The messages of one Write: a frame per chunk. */
  function WriteMessages(p: seq<byte>, cfg: Config): seq<Message>
  {
    Encode(Split(p, cfg.chunk), cfg.staging)
  }

  /** One Read into a buffer of n bytes: the new reader, what is left on the link, and the answer. */
  function Read(r: Reader, q: seq<Message>, n: nat, cfg: Config): (Reader, seq<Message>, ReadResult)
  {
    if r.closed then (r, q, ReaderClosed)
    else if n == 0 then (r, q, Got([]))
    else if r.pending != [] then
      var m := Least(n, |r.pending|);
      (r.(pending := r.pending[m..]), q, Got(r.pending[..m]))
    else if r.eof then (r, q, EndOfStream)
    else
      match NextFrame(q, cfg.max, cfg.staging)
      case Waiting => (r, q, Blocked)
      case TooLong(rest) => (r, rest, FrameTooLong)
      case LinkError(rest) => (r, rest, LinkFailed)
      case Frame(p, rest) =>
        if p == [] then (r.(eof := true), rest, EndOfStream)
        else (r.(pending := p[Least(n, |p|)..]), rest, Got(p[..Least(n, |p|)]))
  }

  /** A read takes what is at hand: its buffer is full, or nothing of the frame is left over. */
  lemma ReadTakesAll(r: Reader, q: seq<Message>, n: nat, cfg: Config)
    ensures var (r', q', res) := Read(r, q, n, cfg);
            && (res == ReaderClosed <==> r.closed)
            && (res.Got? ==> |res.data| <= n && (|res.data| == n || r'.pending == []))
            && (res.Got? && r.pending != [] && n > 0 ==> res.data + r'.pending == r.pending && q' == q)
            && (!res.Got? || n == 0 ==> r'.pending == r.pending)
            && r'.closed == r.closed && (r.eof ==> r'.eof) && (r'.eof && !r.eof ==> res == EndOfStream)
  {
    hide NextFrame;
  }

  // ---- Runs ----

  /**
    outbox: queued by the writer and not yet on the link. written and got are the bytes accepted and
    handed out so far.
   */
  datatype State = State(writerClosed: bool, outbox: seq<Message>, link: seq<Message>, reader: Reader,
      written: seq<byte>, got: seq<byte>)

  datatype Action = DoWrite(p: seq<byte>) | DoCloseWriter | Deliver | DoRead(n: nat) | DoCloseReader

  const Initial: State := State(false, [], [], Reader([], false, false), [], [])

  /** A writer call returns only once its messages are on the link; a read returns only when it need not wait. */
  ghost predicate Enabled(s: State, a: Action, cfg: Config)
  {
    match a
    case DoWrite(_) => s.outbox == []
    case DoCloseWriter => s.outbox == []
    case Deliver => s.outbox != []
    case DoRead(n) => !Read(s.reader, s.link, n, cfg).2.Blocked?
    case DoCloseReader => true
  }

  ghost function Effect(s: State, a: Action, cfg: Config): State
    requires Enabled(s, a, cfg)
  {
    match a
    case DoWrite(p) =>
      if s.writerClosed then s else s.(outbox := WriteMessages(p, cfg), written := s.written + p)
    case DoCloseWriter =>
      if s.writerClosed then s else s.(outbox := FrameMessages([], cfg.staging), writerClosed := true)
    case Deliver => s.(link := s.link + [s.outbox[0]], outbox := s.outbox[1..])
    case DoRead(n) =>
      var (r, q, res) := Read(s.reader, s.link, n, cfg);
      s.(reader := r, link := q, got := if res.Got? then s.got + res.data else s.got)
    case DoCloseReader => s.(reader := s.reader.(closed := true, pending := []))
  }

  ghost predicate Run(tr: seq<State>, acts: seq<Action>, cfg: Config)
  {
    && |tr| == |acts| + 1 && tr[0] == Initial
    && forall i :: 0 <= i < |acts| ==> Enabled(tr[i], acts[i], cfg) && tr[i + 1] == Effect(tr[i], acts[i], cfg)
  }

  /** A reader can be closed at any time, and from then on every read is refused. */
  lemma ReaderCloses(s: State, cfg: Config, n: nat)
    ensures Enabled(s, DoCloseReader, cfg)
    ensures var t := Effect(s, DoCloseReader, cfg);
            Read(t.reader, t.link, n, cfg).2 == ReaderClosed && t.link == s.link && t.got == s.got
  {
  }

  /** The frames under way: payloads no longer than a chunk, and an empty one exactly at the end of a closed stream. */
  ghost predicate FramesOk(s: State, fs: seq<seq<byte>>, cfg: Config) {
    var ending := s.writerClosed && !s.reader.eof;
    && (forall i :: 0 <= i < |fs| ==> |fs[i]| <= cfg.chunk)
    && (forall i :: 0 <= i < |fs| ==> (fs[i] == [] <==> ending && i == |fs| - 1))
    && (ending ==> fs != [])
    && (s.reader.eof ==> s.writerClosed && fs == [] && s.reader.pending == [])
  }

  ghost predicate InvWith(s: State, fs: seq<seq<byte>>, cfg: Config)
  {
    && s.link + s.outbox == Encode(fs, cfg.staging)
    && FramesOk(s, fs, cfg)
    && (!s.reader.closed ==> s.written == s.got + (s.reader.pending + Join(fs)))
    && s.got <= s.written
  }

  ghost predicate Inv(s: State, cfg: Config)
  {
    exists fs :: InvWith(s, fs, cfg)
  }

  /** Chunk lengths fit the header, and the reader's limit admits every chunk. */
  predicate Compatible(cfg: Config) { cfg.chunk <= cfg.max && cfg.chunk < Pow256(8) }

  /** An unblocked reader with nothing pending finds the first frame under way. */
  lemma ReadsFirstFrame(s: State, fs: seq<seq<byte>>, cfg: Config)
    requires Compatible(cfg) && InvWith(s, fs, cfg) && !NextFrame(s.link, cfg.max, cfg.staging).Waiting?
    ensures fs != [] && NextFrame(s.link, cfg.max, cfg.staging).Frame?
    ensures var f := NextFrame(s.link, cfg.max, cfg.staging);
            f.payload == fs[0] && f.rest + s.outbox == Encode(fs[1..], cfg.staging)
  {
    hide NextFrame, FrameMessages, Join;
    NextFrameMore(s.link, s.outbox, cfg.max, cfg.staging);
    if fs == [] {
      EmptyLinkWaits(s.link, s.outbox, cfg);
    } else {
      NextFrameIs(fs[0], Encode(fs[1..], cfg.staging), cfg.max, cfg.staging);
    }
  }

  lemma EmptyLinkWaits(link: seq<Message>, outbox: seq<Message>, cfg: Config)
    requires link + outbox == []
    ensures NextFrame(link, cfg.max, cfg.staging).Waiting?
  {
    assert link == [];
  }

  lemma WriteStep(s: State, fs: seq<seq<byte>>, p: seq<byte>, cfg: Config)
    requires Compatible(cfg) && InvWith(s, fs, cfg) && s.outbox == [] && !s.writerClosed
    ensures InvWith(Effect(s, DoWrite(p), cfg), fs + Split(p, cfg.chunk), cfg)
  {
    hide Split, Encode, Join;
    var pieces := Split(p, cfg.chunk);
    EncodeAppend(fs, pieces, cfg.staging);
    JoinAppend(fs, pieces);
    SplitJoin(p, cfg.chunk);
    assert s.link + s.outbox == s.link;
    assert s.got + (s.reader.pending + (Join(fs) + p)) == s.got + (s.reader.pending + Join(fs)) + p;
  }

  lemma EmptyFrame(k: Pos)
    ensures Encode([[]], k) == FrameMessages([], k) && Join([[]]) == []
  {
    assert Encode([[]], k) == FrameMessages([], k) + Encode([], k);
    assert Join([[]]) == Join([]) + [];
  }

  lemma CloseStep(s: State, fs: seq<seq<byte>>, cfg: Config)
    requires Compatible(cfg) && InvWith(s, fs, cfg) && s.outbox == [] && !s.writerClosed
    ensures InvWith(Effect(s, DoCloseWriter, cfg), fs + [[]], cfg)
  {
    hide Encode, Join, FrameMessages;
    EmptyFrame(cfg.staging);
    EncodeAppend(fs, [[]], cfg.staging);
    JoinAppend(fs, [[]]);
    assert s.link + s.outbox == s.link;
    assert Join(fs) + [] == Join(fs);
  }

  /** A read that takes the first frame. */
  lemma FrameStep(s: State, fs: seq<seq<byte>>, n: nat, cfg: Config)
    requires Compatible(cfg) && InvWith(s, fs, cfg) && Enabled(s, DoRead(n), cfg)
    requires !s.reader.closed && n > 0 && s.reader.pending == [] && !s.reader.eof
    ensures fs != [] && InvWith(Effect(s, DoRead(n), cfg), fs[1..], cfg)
  {
    hide NextFrame, Encode, Join, FramesOk;
    ReadsFirstFrame(s, fs, cfg);
    var t := Effect(s, DoRead(n), cfg);
    TailFrames(s, t, fs, cfg);
    Regroup(s.got, fs[0], Least(n, |fs[0]|), Join(fs[1..]));
    assert s.reader.pending + Join(fs) == Join(fs);
    JoinHead(fs);
    assert t.got <= t.written;
  }

  lemma Regroup(a: seq<byte>, p: seq<byte>, m: nat, c: seq<byte>)
    requires m <= |p|
    ensures a + (p + c) == (a + p[..m]) + (p[m..] + c)
  {
    assert p == p[..m] + p[m..];
  }

  /** The frames left once the first is taken. */
  lemma TailFrames(s: State, t: State, fs: seq<seq<byte>>, cfg: Config)
    requires FramesOk(s, fs, cfg) && fs != [] && !s.reader.eof && t.writerClosed == s.writerClosed
    requires t.reader.eof <==> fs[0] == []
    requires t.reader.eof ==> t.reader.pending == []
    ensures FramesOk(t, fs[1..], cfg)
  {
  }

  /** A read that needs no frame. */
  lemma PendingStep(s: State, fs: seq<seq<byte>>, n: nat, cfg: Config)
    requires Compatible(cfg) && InvWith(s, fs, cfg) && Enabled(s, DoRead(n), cfg)
    requires s.reader.closed || n == 0 || s.reader.pending != [] || s.reader.eof
    ensures InvWith(Effect(s, DoRead(n), cfg), fs, cfg)
  {
    hide NextFrame, Encode, Join;
    var t, pending := Effect(s, DoRead(n), cfg), s.reader.pending;
    if !s.reader.closed {
      if n > 0 && pending != [] {
        var m := Least(n, |pending|);
        assert pending == pending[..m] + pending[m..];
        assert s.written == (s.got + pending[..m]) + (pending[m..] + Join(fs));
      } else {
        assert s.got + [] == s.got;
      }
    }
  }

  lemma StepInv(s: State, a: Action, cfg: Config)
    requires Compatible(cfg) && Inv(s, cfg) && Enabled(s, a, cfg)
    ensures Inv(Effect(s, a, cfg), cfg)
  {
    hide InvWith, Effect, Enabled;
    var fs :| InvWith(s, fs, cfg);
    match a
    case DoRead(n) =>
      if s.reader.closed || n == 0 || s.reader.pending != [] || s.reader.eof {
        PendingStep(s, fs, n, cfg);
      } else {
        FrameStep(s, fs, n, cfg);
      }
    case _ => WriterStep(s, a, fs, cfg);
  }

  lemma WriterStep(s: State, a: Action, fs: seq<seq<byte>>, cfg: Config)
    requires Compatible(cfg) && InvWith(s, fs, cfg) && Enabled(s, a, cfg) && !a.DoRead?
    ensures Inv(Effect(s, a, cfg), cfg)
  {
    hide InvWith;
    if a.DoWrite? && !s.writerClosed {
      hide Effect;
      WriteStep(s, fs, a.p, cfg);
    } else if a.DoCloseWriter? && !s.writerClosed {
      hide Effect;
      CloseStep(s, fs, cfg);
    } else {
      OtherStep(s, a, fs, cfg);
    }
  }

  /** Delivering, closing the reader, and calls on a closed writer. */
  lemma OtherStep(s: State, a: Action, fs: seq<seq<byte>>, cfg: Config)
    requires InvWith(s, fs, cfg) && Enabled(s, a, cfg) && !a.DoRead?
    requires a.DoWrite? || a.DoCloseWriter? ==> s.writerClosed
    ensures InvWith(Effect(s, a, cfg), fs, cfg)
  {
    hide Encode, Join;
    var t := Effect(s, a, cfg);
    assert t.link + t.outbox == s.link + s.outbox;
  }

  lemma {:induction false} RunInv(tr: seq<State>, acts: seq<Action>, cfg: Config, i: nat)
    requires Compatible(cfg) && Run(tr, acts, cfg) && i < |tr|
    ensures Inv(tr[i], cfg)
  {
    hide Effect, Inv;
    if i == 0 {
      InitialInv(cfg);
    } else {
      RunInv(tr, acts, cfg, i - 1);
      StepInv(tr[i - 1], acts[i - 1], cfg);
    }
  }

  lemma InitialInv(cfg: Config)
    ensures Inv(Initial, cfg)
  {
    assert InvWith(Initial, [], cfg);
  }

  // ---- What a reader sees ----

  lemma EmptyEnd(s: State, fs: seq<seq<byte>>, cfg: Config)
    requires InvWith(s, fs, cfg)
    ensures Join(fs) == [] <==> fs == [] || fs == [[]]
  {
    if fs != [] {
      JoinHead(fs);
    }
  }

  /**
    Whatever was written and however it was read: bytes come out as they went in, no read fails,
    a read of n > 0 bytes reports the end exactly when the stream is closed and every byte has
    been read, and otherwise returns at least one byte.
   */
  lemma ReadsWhatWasWritten(tr: seq<State>, acts: seq<Action>, cfg: Config, i: nat, n: nat)
    requires Compatible(cfg) && Run(tr, acts, cfg) && i < |tr| && n > 0 && !tr[i].reader.closed
    requires Enabled(tr[i], DoRead(n), cfg)
    ensures tr[i].got <= tr[i].written
    ensures var res := Read(tr[i].reader, tr[i].link, n, cfg).2;
            && (res.EndOfStream? <==> tr[i].writerClosed && tr[i].got == tr[i].written)
            && (res.Got? || res.EndOfStream?)
            && (res.Got? ==> 0 < |res.data| <= n && tr[i].got + res.data <= tr[i].written)
  {
    hide Run;
    RunInv(tr, acts, cfg, i);
    var s := tr[i];
    var fs :| InvWith(s, fs, cfg);
    hide Inv, NextFrame, Encode;
    EmptyEnd(s, fs, cfg);
    if s.reader.pending == [] && !s.reader.eof {
      ReadsFirstFrame(s, fs, cfg);
      FrameStep(s, fs, n, cfg);
    } else {
      PendingStep(s, fs, n, cfg);
    }
    hide Join;
  }

  /**
    Nothing is lost at the end: with all messages delivered, a read waits only if an open stream has
    been read to its end.
   */
  lemma ReadsWaitOnlyForTheWriter(tr: seq<State>, acts: seq<Action>, cfg: Config, i: nat, n: nat)
    requires Compatible(cfg) && Run(tr, acts, cfg) && i < |tr| && tr[i].outbox == [] && !Enabled(tr[i], DoRead(n), cfg)
    ensures !tr[i].writerClosed && tr[i].got == tr[i].written
  {
    hide Run;
    RunInv(tr, acts, cfg, i);
    var s := tr[i];
    var fs :| InvWith(s, fs, cfg);
    hide NextFrame;
    if fs != [] {
      assert s.link == s.link + s.outbox;
      NextFrameIs(fs[0], Encode(fs[1..], cfg.staging), cfg.max, cfg.staging);
      assert false;
    }
  }

  /** Only Close emits the empty frame: every frame of a Write carries at least one byte, and together they carry p. */
  lemma WritesNeverEnd(p: seq<byte>, cfg: Config)
    ensures var fs := Split(p, cfg.chunk);
            && WriteMessages(p, cfg) == Encode(fs, cfg.staging) && Join(fs) == p
            && forall i :: 0 <= i < |fs| ==> 0 < |fs[i]| <= cfg.chunk
  {
    SplitJoin(p, cfg.chunk);
  }

  // ---- Draining a stream ----

  lemma {:induction false} TakeShrinks(q: seq<Message>, n: nat, k: Pos)
    requires Take(q, n, k).Have?
    ensures |Take(q, n, k).rest| <= |q| && (n > 0 ==> |Take(q, n, k).rest| < |q|)
    decreases n
  {
    if n > 0 {
      TakeShrinks(q[1..], n - Least(n, k), k);
    }
  }

  lemma FrameShrinks(q: seq<Message>, cfg: Config)
    requires NextFrame(q, cfg.max, cfg.staging).Frame?
    ensures |NextFrame(q, cfg.max, cfg.staging).rest| < |q|
  {
    var header := Take(q, 8, cfg.staging);
    TakeShrinks(q, 8, cfg.staging);
    TakeShrinks(header.rest, Value(header.data), cfg.staging);
  }

  datatype Drained = Drained(eof: bool, rest: seq<Message>, data: seq<byte>, result: ReadResult)

  /** The frame loop of WriteTo into a writer that takes everything. */
  function DrainFrames(q: seq<Message>, cfg: Config): Drained
    decreases |q|
  {
    match NextFrame(q, cfg.max, cfg.staging)
    case Waiting => Drained(false, q, [], Blocked)
    case TooLong(rest) => Drained(false, rest, [], FrameTooLong)
    case LinkError(rest) => Drained(false, rest, [], LinkFailed)
    case Frame(p, rest) =>
      if p == [] then Drained(true, rest, [], EndOfStream)
      else
        FrameShrinks(q, cfg);
        var d := DrainFrames(rest, cfg);
        d.(data := p + d.data)
  }

  /** Draining frames delivers all of them, and ends exactly at an empty one. */
  lemma {:induction false} DrainFramesDelivers(fs: seq<seq<byte>>, ending: bool, cfg: Config)
    requires Compatible(cfg) && (forall i :: 0 <= i < |fs| ==> |fs[i]| <= cfg.chunk)
    requires forall i :: 0 <= i < |fs| ==> (fs[i] == [] <==> ending && i == |fs| - 1)
    requires ending ==> fs != []
    ensures var d := DrainFrames(Encode(fs, cfg.staging), cfg);
            d.data == Join(fs) && d.rest == [] && d.eof == ending && d.result == if ending then EndOfStream else Blocked
    decreases |fs|
  {
    hide NextFrame, FrameMessages, Join;
    JoinNothing();
    if fs == [] {
      EmptyLinkWaits([], [], cfg);
    } else {
      JoinHead(fs);
      NextFrameIs(fs[0], Encode(fs[1..], cfg.staging), cfg.max, cfg.staging);
      if fs[0] != [] {
        DrainFramesDelivers(fs[1..], ending, cfg);
      } else {
        assert fs == [[]] && fs[1..] == [];
      }
    }
  }

  lemma JoinNothing()
    ensures Join([]) == []
  {
  }

  /**
    In every run: draining what has been delivered completes the bytes written, and ends exactly if
    the writer closed.
   */
  lemma DrainCompletes(tr: seq<State>, acts: seq<Action>, cfg: Config, i: nat)
    requires Compatible(cfg) && Run(tr, acts, cfg) && i < |tr| && tr[i].outbox == [] && !tr[i].reader.closed
    requires !tr[i].reader.eof
    ensures var d := DrainFrames(tr[i].link, cfg);
            && tr[i].got + (tr[i].reader.pending + d.data) == tr[i].written
            && d.result == if tr[i].writerClosed then EndOfStream else Blocked
  {
    hide Run;
    RunInv(tr, acts, cfg, i);
    var s := tr[i];
    var fs :| InvWith(s, fs, cfg);
    hide Encode, Join, DrainFrames;
    assert s.link == s.link + s.outbox;
    DrainFramesDelivers(fs, s.writerClosed, cfg);
  }

  // ---- The frame limit ----

  lemma ExtendRun(tr: seq<State>, acts: seq<Action>, cfg: Config, a: Action)
    requires Run(tr, acts, cfg) && Enabled(tr[|acts|], a, cfg)
    ensures Run(tr + [Effect(tr[|acts|], a, cfg)], acts + [a], cfg)
  {
    hide Enabled, Effect;
  }

  /** A run may go on by delivering everything that is queued. */
  lemma {:induction false} DeliverAll(tr: seq<State>, acts: seq<Action>, cfg: Config)
    returns (tr': seq<State>, acts': seq<Action>)
    requires Run(tr, acts, cfg)
    ensures Run(tr', acts', cfg)
    ensures var s, t := tr[|acts|], tr'[|acts'|]; t == s.(outbox := [], link := s.link + s.outbox)
    decreases |tr[|acts|].outbox|
  {
    var s := tr[|acts|];
    if s.outbox == [] {
      assert s.link + s.outbox == s.link;
      return tr, acts;
    }
    ExtendRun(tr, acts, cfg, Deliver);
    var t := Effect(s, Deliver, cfg);
    assert t.link + t.outbox == s.link + s.outbox;
    assert (tr + [t])[|acts + [Deliver]|] == t;
    tr', acts' := DeliverAll(tr + [t], acts + [Deliver], cfg);
  }

  /** In no run is a read refused for the length of a frame. */
  ghost predicate NeverTooLong(cfg: Config) {
    forall tr: seq<State>, acts, i, n: nat :: Run(tr, acts, cfg) && 0 <= i < |tr| && 0 < n ==>
      !Read(tr[i].reader, tr[i].link, n, cfg).2.FrameTooLong?
  }

  /** A writer whose chunk exceeds the reader's limit can be refused: one write of limit + 1 bytes. */
  lemma OversizeWrite(cfg: Config) returns (tr: seq<State>, acts: seq<Action>)
    requires cfg.max < cfg.chunk < Pow256(8)
    ensures Run(tr, acts, cfg) && Read(tr[|acts|].reader, tr[|acts|].link, 1, cfg).2.FrameTooLong?
  {
    var p := Zeros(cfg.max + 1);
    ExtendRun([Initial], [], cfg, DoWrite(p));
    var s := Effect(Initial, DoWrite(p), cfg);
    assert ([Initial] + [s])[|[] + [DoWrite(p)]|] == s;
    tr, acts := DeliverAll([Initial] + [s], [] + [DoWrite(p)], cfg);
    var fs := Split(p, cfg.chunk);
    assert fs == [p] && fs[1..] == [];
    assert WriteMessages(p, cfg) == FrameMessages(p, cfg.staging) + Encode([], cfg.staging);
    NextFrameIs(p, [], cfg.max, cfg.staging);
    assert tr[|acts|].link == FrameMessages(p, cfg.staging) + [];
  }

  /** Reads are never refused for length, in any run, if and only if the reader's limit admits the writer's chunk. */
  lemma LimitCondition(cfg: Config)
    requires cfg.chunk < Pow256(8)
    ensures NeverTooLong(cfg) <==> cfg.chunk <= cfg.max
  {
    if cfg.chunk <= cfg.max {
      forall tr: seq<State>, acts, i, n: nat | Run(tr, acts, cfg) && 0 <= i < |tr| && 0 < n
        ensures !Read(tr[i].reader, tr[i].link, n, cfg).2.FrameTooLong?
      {
        hide Run, NextFrame;
        if !tr[i].reader.closed && !Read(tr[i].reader, tr[i].link, n, cfg).2.Blocked? {
          ReadsWhatWasWritten(tr, acts, cfg, i, n);
        }
      }
    } else {
      var tr, acts := OversizeWrite(cfg);
      assert !NeverTooLong(cfg);
    }
  }
}
