/**
  Quiescent maintenance across N daemon ranks (cmd/jaccld/transport.go, admission.go,
  tcpchan.go).

  Receive matching on a link is first-in first-out and untagged, so a maintenance byte and
  a user chunk must never be outstanding on the same link out of step. A rank closes its
  admission gate, drains its data operations, locks its connections, passes a barrier, posts
  and polls one maintenance block, passes a second barrier and reopens. The side channel
  enters only through the property proved of it in SideChannel: a rank returns from its k-th
  call only when every rank has started its k-th call.

  Data operations are collectives, run in the same order on every rank. The configuration says
  whether users may also call the bare Barrier, the point-to-point Send and the point-to-point
  Recv. Isolation holds over every run exactly when they may call neither of the first two: a Recv
  that took a collective's chunk leaves its rank one receive short for ever, so no window opens
  again.
 */
module Maintenance {
  import opened Grid
  import opened Stages

  datatype Config = Config(n: nat, chunks: nat -> nat, userBarriers: bool, directSend: bool, directRecv: bool)

  /** What a posted send or receive is for. */
  datatype Tag = User(op: nat, chunk: nat) | Maint(round: nat) | Direct

  /** Taking: a point-to-point Recv has posted its receive and waits for it. */
  datatype Work = Free | Busy(tag: Tag, stage: Stage) | Taking(from: nat)

  datatype Window = Open | Draining | Locked | InPre | Working | InPost

  datatype Rank = Rank(
    waiting: nat,     // admitted operations that do not yet hold the connections
    leaving: nat,     // operations that are finished but have not left the gate
    barring: bool,    // a user Barrier is inside the side channel
    work: Work,       // the block (one pass over the peers per stage) whose owner holds the connections
    window: Window,
    ops: nat,         // collectives started
    rounds: nat,      // maintenance windows completed
    barIn: nat,       // side-channel calls started
    barOut: nat,      // side-channel calls returned
    hist: seq<Tag>)   // blocks started

  /** sends[q][r] and recvs[r][q] are the posts made on the link q->r; polled[r][q] counts receives completed. */
  datatype State = State(
    ranks: seq<Rank>,
    sends: seq<seq<seq<Tag>>>,
    recvs: seq<seq<seq<Tag>>>,
    polled: seq<seq<nat>>)

  datatype Action =
    | Admit(r: nat) | StartOp(r: nat) | NextChunk(r: nat) | FinishOp(r: nat) | Leave(r: nat)
    | Advance(r: nat)
    | BeginWindow(r: nat) | Drained(r: nat) | EnterPre(r: nat) | ExitPre(r: nat) | EnterPost(r: nat) | ExitPost(r: nat)
    | EnterBarrier(r: nat) | ExitBarrier(r: nat) | SendDirect(r: nat, to: nat)
    | RecvDirect(r: nat, from: nat) | RecvDone(r: nat)

  function InFlight(m: Rank): nat {
    m.waiting + m.leaving + (if m.barring then 1 else 0)
    + (if (m.work.Busy? && m.work.tag.User?) || m.work.Taking? then 1 else 0)
  }

  predicate Closed(m: Rank) { !m.window.Open? }

  predicate Shaped(cfg: Config, s: State) {
    |s.ranks| == cfg.n && IsGrid(s.sends, cfg.n) && IsGrid(s.recvs, cfg.n) && IsGrid(s.polled, cfg.n)
  }

  /** Every rank has started the side-channel call that r is in. */
  predicate BarrierPassed(s: State, r: nat)
    requires r < |s.ranks|
  {
    forall q :: 0 <= q < |s.ranks| ==> s.ranks[r].barOut < s.ranks[q].barIn
  }

  predicate BlockDone(cfg: Config, m: Rank) {
    m.work.Busy? && m.work.stage == Polls(cfg.n)
  }

  predicate CanStart(m: Rank) {
    m.waiting > 0 && m.work.Free? && (m.window.Open? || m.window.Draining?)
  }

  /** What an action asks of the acting rank's own state. */
  predicate Guard(cfg: Config, m: Rank, a: Action) {
    match a
    case Admit(_) => m.window.Open?
    case StartOp(_) => CanStart(m)
    case NextChunk(_) => BlockDone(cfg, m) && m.work.tag.User? && m.work.tag.chunk + 1 < cfg.chunks(m.work.tag.op)
    case FinishOp(_) => BlockDone(cfg, m) && m.work.tag.User? && m.work.tag.chunk + 1 >= cfg.chunks(m.work.tag.op)
    case Leave(_) => m.leaving > 0
    case Advance(_) => m.work.Busy? && m.work.stage.next <= cfg.n && (m.work.stage.Polls? ==> m.work.stage.next < cfg.n)
    case BeginWindow(_) => m.window.Open?
    case Drained(_) => m.window.Draining? && InFlight(m) == 0
    case EnterPre(_) => m.window.Locked?
    case ExitPre(_) => m.window.InPre?
    case EnterPost(_) => m.window.Working? && BlockDone(cfg, m)
    case ExitPost(_) => m.window.InPost?
    case EnterBarrier(_) => cfg.userBarriers && m.window.Open? && !m.barring
    case ExitBarrier(_) => m.barring
    case SendDirect(_, _) => cfg.directSend && CanStart(m)
    case RecvDirect(_, _) => cfg.directRecv && CanStart(m)
    case RecvDone(_) => m.work.Taking?
  }

  /** A poll of peer q completes when the next receive and its matching send are both posted. */
  predicate CanPoll(s: State, r: nat, q: nat)
    requires r < |s.ranks| && q < |s.ranks| && IsGrid(s.sends, |s.ranks|) && IsGrid(s.recvs, |s.ranks|)
    requires IsGrid(s.polled, |s.ranks|)
  {
    s.polled[r][q] < |s.recvs[r][q]| && s.polled[r][q] < |s.sends[q][r]|
  }

  predicate Enabled(cfg: Config, s: State, a: Action)
    requires Shaped(cfg, s)
  {
    && a.r < cfg.n && Guard(cfg, s.ranks[a.r], a)
    && (a.ExitPre? || a.ExitPost? || a.ExitBarrier? ==> BarrierPassed(s, a.r))
    && (a.Advance? ==>
          var st := s.ranks[a.r].work.stage;
          st.Polls? && st.next != a.r ==> CanPoll(s, a.r, st.next))
    && (a.SendDirect? ==> a.to < cfg.n && a.to != a.r)
    && (a.RecvDirect? ==> a.from < cfg.n && a.from != a.r)
    && (a.RecvDone? ==> var q := s.ranks[a.r].work.from; q < cfg.n && q != a.r && CanPoll(s, a.r, q))
  }

  function Begun(m: Rank, tag: Tag): Rank {
    m.(work := Busy(tag, Recvs(0)), hist := m.hist + [tag])
  }

  /** The acting rank's next state. */
  function Stepped(cfg: Config, m: Rank, a: Action): Rank
    requires Guard(cfg, m, a)
  {
    match a
    case Admit(_) => m.(waiting := m.waiting + 1)
    case StartOp(_) => Begun(m.(waiting := m.waiting - 1, ops := m.ops + 1), User(m.ops, 0))
    case NextChunk(_) => Begun(m, User(m.work.tag.op, m.work.tag.chunk + 1))
    case FinishOp(_) => m.(work := Free, leaving := m.leaving + 1)
    case Leave(_) => m.(leaving := m.leaving - 1)
    case Advance(_) => m.(work := Busy(m.work.tag, StageAfter(cfg.n, m.work.stage)))
    case BeginWindow(_) => m.(window := Draining)
    case Drained(_) => m.(window := Locked)
    case EnterPre(_) => m.(window := InPre, barIn := m.barIn + 1)
    case ExitPre(_) => Begun(m.(window := Working, barOut := m.barOut + 1), Maint(m.rounds))
    case EnterPost(_) => m.(window := InPost, work := Free, barIn := m.barIn + 1)
    case ExitPost(_) => m.(window := Open, barOut := m.barOut + 1, rounds := m.rounds + 1)
    case EnterBarrier(_) => m.(barring := true, barIn := m.barIn + 1)
    case ExitBarrier(_) => m.(barring := false, barOut := m.barOut + 1)
    case SendDirect(_, _) => m.(waiting := m.waiting - 1, leaving := m.leaving + 1)
    case RecvDirect(_, from) => m.(waiting := m.waiting - 1, work := Taking(from))
    case RecvDone(_) => m.(work := Free, leaving := m.leaving + 1)
  }

  function Apply(cfg: Config, s: State, a: Action): State
    requires Shaped(cfg, s) && Enabled(cfg, s, a)
  {
    var r := a.r;
    var m := s.ranks[r];
    var t := s.(ranks := s.ranks[r := Stepped(cfg, m, a)]);
    match a
    case Advance(_) =>
      var q := m.work.stage.next;
      if q == cfg.n || q == r then t
      else if m.work.stage.Recvs? then t.(recvs := Put(s.recvs, r, q, s.recvs[r][q] + [m.work.tag]))
      else if m.work.stage.Sends? then t.(sends := Put(s.sends, r, q, s.sends[r][q] + [m.work.tag]))
      else t.(polled := Put(s.polled, r, q, s.polled[r][q] + 1))
    case SendDirect(_, to) => t.(sends := Put(s.sends, r, to, s.sends[r][to] + [Direct]))
    case RecvDirect(_, from) => t.(recvs := Put(s.recvs, r, from, s.recvs[r][from] + [Direct]))
    case RecvDone(_) => t.(polled := Put(s.polled, r, m.work.from, s.polled[r][m.work.from] + 1))
    case _ => t
  }

  const Fresh: Rank := Rank(0, 0, false, Free, Open, 0, 0, 0, 0, [])

  predicate Init(cfg: Config, s: State) {
    && Shaped(cfg, s)
    && (forall r :: 0 <= r < cfg.n ==> s.ranks[r] == Fresh)
    && (forall q, r :: 0 <= q < cfg.n && 0 <= r < cfg.n ==>
          s.sends[q][r] == [] && s.recvs[q][r] == [] && s.polled[q][r] == 0)
  }

  ghost predicate Next(cfg: Config, s: State, t: State) {
    Shaped(cfg, s) && exists a :: Enabled(cfg, s, a) && t == Apply(cfg, s, a)
  }

  ghost predicate Run(cfg: Config, tr: seq<State>) {
    |tr| > 0 && Init(cfg, tr[0]) && forall i :: 0 < i < |tr| ==> Next(cfg, tr[i - 1], tr[i])
  }

  // ---- What isolation means ----

  /** While any rank posts or polls maintenance work, every rank is closed with nothing in flight. */
  predicate Quiescent(s: State) {
    forall r, q :: 0 <= r < |s.ranks| && 0 <= q < |s.ranks| && s.ranks[r].work.Busy? && s.ranks[r].work.tag.Maint? ==>
      Closed(s.ranks[q]) && InFlight(s.ranks[q]) == 0
  }

  /** First-in first-out matching pairs the k-th send of a link with its k-th receive. */
  predicate PairsMatch(sends: seq<Tag>, recvs: seq<Tag>) {
    forall k :: 0 <= k < |sends| && k < |recvs| ==> (sends[k].Maint? <==> recvs[k].Maint?)
  }

  predicate Isolated(cfg: Config, s: State) {
    && Shaped(cfg, s) && Quiescent(s)
    && forall q, r :: 0 <= q < cfg.n && 0 <= r < cfg.n && q != r ==> PairsMatch(s.sends[q][r], s.recvs[r][q])
  }

  // ---- Block order ----

  /** Where a history of blocks stands: collectives begun, whether one is unfinished, windows begun. */
  datatype Cursor = Cursor(ops: nat, open: bool, chunk: nat, rounds: nat)

  predicate CanFollow(c: Cursor, t: Tag) {
    match t
    case User(k, x) => if c.open then k + 1 == c.ops && x == c.chunk + 1 else k == c.ops && x == 0
    case Maint(j) => !c.open && j == c.rounds
    case Direct => false
  }

  function Moved(cfg: Config, c: Cursor, t: Tag): Cursor {
    match t
    case User(k, x) => Cursor(k + 1, x + 1 < cfg.chunks(k), if x + 1 < cfg.chunks(k) then x else 0, c.rounds)
    case Maint(j) => c.(rounds := j + 1)
    case Direct => c
  }

  function CursorOf(cfg: Config, hist: seq<Tag>): Cursor {
    if hist == [] then Cursor(0, false, 0, 0)
    else Moved(cfg, CursorOf(cfg, hist[..|hist| - 1]), hist[|hist| - 1])
  }

  predicate Compatible(h: seq<Tag>, k: seq<Tag>) { h <= k || k <= h }

  // ---- Invariant ----

  predicate Sealed(w: Window) { w.Locked? || w.InPre? || w.Working? || w.InPost? }

  predicate BarriersOk(m: Rank) {
    match m.window
    case InPre => m.barIn == 2 * m.rounds + 1 && m.barOut == 2 * m.rounds
    case Working => m.barIn == 2 * m.rounds + 1 && m.barOut == 2 * m.rounds + 1
    case InPost => m.barIn == 2 * m.rounds + 2 && m.barOut == 2 * m.rounds + 1
    case _ => m.barIn == 2 * m.rounds && m.barOut == 2 * m.rounds
  }

  predicate WorkOk(cfg: Config, m: Rank) {
    match m.work
    case Free => !m.window.Working?
    case Taking(_) => m.window.Open? || m.window.Draining?
    case Busy(tag, stage) =>
      && stage.next <= cfg.n && |m.hist| > 0 && m.hist[|m.hist| - 1] == tag
      && CanFollow(CursorOf(cfg, m.hist[..|m.hist| - 1]), tag)
      && (tag.User? ==> m.window.Open? || m.window.Draining?)
      && (tag.Maint? ==> m.window.Working? && tag.round == m.rounds)
  }

  /** The cursor of a rank's history, read off its fields. */
  predicate CursorOk(cfg: Config, m: Rank) {
    var c := CursorOf(cfg, m.hist);
    && c.ops == m.ops
    && c.rounds == (if m.window.Working? || m.window.InPost? then m.rounds + 1 else m.rounds)
    && (c.open ==> m.work.Busy? && m.work.tag.User? && c.chunk == m.work.tag.chunk)
    && (m.work.Busy? && m.work.tag.User? ==>
          m.work.tag.op + 1 == m.ops && (c.open <==> m.work.tag.chunk + 1 < cfg.chunks(m.work.tag.op)))
  }

  predicate RankOk(cfg: Config, m: Rank) {
    && !m.barring
    && (Sealed(m.window) ==> InFlight(m) == 0)
    && BarriersOk(m) && WorkOk(cfg, m) && CursorOk(cfg, m)
  }

  function Completed(m: Rank): nat {
    if m.work.Busy? && |m.hist| > 0 then |m.hist| - 1 else |m.hist|
  }

  function RecvsTo(m: Rank, q: nat): (k: nat)
    ensures k <= |m.hist|
  {
    if m.work.Busy? && (m.work.stage.Recvs? ==> q < m.work.stage.next) then |m.hist| else Completed(m)
  }

  function SendsTo(m: Rank, q: nat): (k: nat)
    ensures k <= |m.hist|
  {
    if m.work.Busy? && !m.work.stage.Recvs? && (m.work.stage.Sends? ==> q < m.work.stage.next) then |m.hist|
    else Completed(m)
  }

  function PolledFrom(m: Rank, q: nat): (k: nat)
    ensures k <= |m.hist|
  {
    if m.work.Busy? && m.work.stage.Polls? && q < m.work.stage.next then |m.hist| else Completed(m)
  }

  /** The posts of collectives and windows among those of a link. */
  function Blocks(posts: seq<Tag>): (h: seq<Tag>)
    ensures |h| <= |posts|
  {
    if posts == [] then []
    else
      var rest, last := Blocks(posts[..|posts| - 1]), posts[|posts| - 1];
      if last.Direct? then rest else rest + [last]
  }

  function Directs(posts: seq<Tag>): nat { |posts| - |Blocks(posts)| }

  /** The receive of a Recv that has not completed. */
  function Awaited(m: Rank, q: nat): nat { if m.work == Taking(q) then 1 else 0 }

  /** Rank r's posts on its link with q are the blocks of its history, in order, and its point-to-point receives. */
  predicate LinkOk(s: State, r: nat, q: nat) {
    && r < |s.ranks| && q < |s.ranks| && IsGrid(s.sends, |s.ranks|) && IsGrid(s.recvs, |s.ranks|)
    && IsGrid(s.polled, |s.ranks|)
    && var m := s.ranks[r];
       && s.sends[r][q] == m.hist[..SendsTo(m, q)]
       && Blocks(s.recvs[r][q]) == m.hist[..RecvsTo(m, q)]
       && Awaited(m, q) <= Directs(s.recvs[r][q])
       && s.polled[r][q] == PolledFrom(m, q) + Directs(s.recvs[r][q]) - Awaited(m, q) <= |s.sends[q][r]|
  }

  /** From the place of a point-to-point receive on, neither history has a window. */
  predicate NoWindowAfter(posts: seq<Tag>, h: seq<Tag>) {
    forall x, i :: 0 <= x < |posts| && posts[x].Direct? && x <= i < |h| ==> !h[i].Maint?
  }

  /** What point-to-point receives at r from q exclude. */
  predicate RecvsOk(s: State, r: nat, q: nat) {
    && r < |s.ranks| && q < |s.ranks| && IsGrid(s.recvs, |s.ranks|)
    && (Sealed(s.ranks[r].window) && Sealed(s.ranks[q].window) ==> Directs(s.recvs[r][q]) == 0)
    && NoWindowAfter(s.recvs[r][q], s.ranks[r].hist) && NoWindowAfter(s.recvs[r][q], s.ranks[q].hist)
  }

  /** What any two ranks have in common. */
  predicate PairOk(s: State, r: nat, q: nat) {
    && r < |s.ranks| && q < |s.ranks|
    && s.ranks[r].barOut <= s.ranks[q].barIn
    && Compatible(s.ranks[r].hist, s.ranks[q].hist)
    && (r != q ==> LinkOk(s, r, q) && RecvsOk(s, r, q))
  }

  ghost predicate Inv(cfg: Config, s: State) {
    && Shaped(cfg, s)
    && (forall r :: 0 <= r < cfg.n ==> RankOk(cfg, s.ranks[r]))
    && (forall r, q :: 0 <= r < cfg.n && 0 <= q < cfg.n ==> PairOk(s, r, q))
  }

  predicate Strict(cfg: Config) { !cfg.userBarriers && !cfg.directSend }

  lemma CursorSnoc(cfg: Config, h: seq<Tag>, t: Tag)
    ensures CursorOf(cfg, h + [t]) == Moved(cfg, CursorOf(cfg, h), t)
  {
    assert (h + [t])[..|h|] == h;
  }

  /** Two tags that may follow the same history are equal or of different kinds. */
  lemma SameKindSameTag(c: Cursor, t: Tag, u: Tag)
    requires CanFollow(c, t) && CanFollow(c, u) && (t.Maint? <==> u.Maint?)
    ensures t == u
  {
  }

  /** Which actions begin a block, and with what tag. */
  predicate Begins(a: Action) { a.StartOp? || a.NextChunk? || a.ExitPre? }

  function NewTag(m: Rank, a: Action): Tag
    requires Begins(a) && (a.NextChunk? ==> m.work.Busy? && m.work.tag.User?)
  {
    match a
    case StartOp(_) => User(m.ops, 0)
    case NextChunk(_) => User(m.work.tag.op, m.work.tag.chunk + 1)
    case ExitPre(_) => Maint(m.rounds)
  }

  /** The tag a rank begins with may follow its history, and it has completed all earlier blocks. */
  lemma NewTagFollows(cfg: Config, m: Rank, a: Action)
    requires Guard(cfg, m, a) && Begins(a) && RankOk(cfg, m)
    ensures a.NextChunk? ==> m.work.Busy? && m.work.tag.User?
    ensures CanFollow(CursorOf(cfg, m.hist), NewTag(m, a))
    ensures Stepped(cfg, m, a).hist == m.hist + [NewTag(m, a)]
    ensures m.work.Busy? ==> BlockDone(cfg, m) && |m.hist| > 0
  {
    hide CursorOf;
  }

  lemma BeginKeepsRank(cfg: Config, m: Rank, m': Rank, tag: Tag)
    requires RankOk(cfg, m) && CanFollow(CursorOf(cfg, m.hist), tag) && tag != Direct
    requires m' == Begun(m.(waiting := m'.waiting, ops := m'.ops, window := m'.window, barOut := m'.barOut), tag)
    requires tag.User? ==> !Sealed(m.window) && m'.window == m.window && m'.barOut == m.barOut && m'.ops == tag.op + 1
    requires tag.Maint? ==>
               && m.window.InPre? && m'.window.Working? && m'.barOut == m.barOut + 1
               && m'.ops == m.ops && m'.waiting == m.waiting
    ensures RankOk(cfg, m')
  {
    hide CursorOf;
    CursorSnoc(cfg, m.hist, tag);
    assert m'.hist[..|m.hist|] == m.hist;
    var c, c' := CursorOf(cfg, m.hist), CursorOf(cfg, m'.hist);
    assert tag.User? ==> c'.ops == tag.op + 1 && c'.rounds == c.rounds;
    assert tag.User? ==> (c'.open <==> tag.chunk + 1 < cfg.chunks(tag.op));
    assert tag.Maint? ==> c' == c.(rounds := c.rounds + 1) && !c.open;
    hide Moved, CanFollow;
    assert CursorOk(cfg, m');
    hide CursorOk;
    assert WorkOk(cfg, m') && BarriersOk(m');
  }

  lemma RankKept(cfg: Config, m: Rank, a: Action)
    requires Strict(cfg) && Guard(cfg, m, a) && RankOk(cfg, m)
    ensures RankOk(cfg, Stepped(cfg, m, a))
  {
    hide CursorOf;
    if Begins(a) {
      NewTagFollows(cfg, m, a);
      BeginKeepsRank(cfg, m, Stepped(cfg, m, a), NewTag(m, a));
    }
  }

  lemma BarrierKept(cfg: Config, s: State, a: Action, r: nat, q: nat)
    requires Shaped(cfg, s) && Enabled(cfg, s, a) && r < cfg.n && q < cfg.n
    requires s.ranks[r].barOut <= s.ranks[q].barIn && s.ranks[r].barOut <= s.ranks[r].barIn
    ensures |Apply(cfg, s, a).ranks| == cfg.n && Apply(cfg, s, a).ranks[r].barOut <= Apply(cfg, s, a).ranks[q].barIn
  {
    ApplyRanks(cfg, s, a);
    BarriersMove(cfg, s.ranks[a.r], a);
    hide Apply, Stepped, Guard;
  }

  /** A rank's call counts grow, and a call returns only by leaving a barrier. */
  lemma BarriersMove(cfg: Config, m: Rank, a: Action)
    requires Guard(cfg, m, a)
    ensures var m' := Stepped(cfg, m, a);
            && m'.barIn >= m.barIn
            && m'.barOut == if a.ExitPre? || a.ExitPost? || a.ExitBarrier? then m.barOut + 1 else m.barOut
  {
  }

  /** Barrier counts alone: when some rank works, every rank is sealed in the same round. */
  lemma WorkingSealsAll(cfg: Config, m: Rank, you: Rank)
    requires RankOk(cfg, m) && RankOk(cfg, you) && m.window.Working?
    requires m.barOut <= you.barIn && you.barOut <= m.barIn
    ensures Sealed(you.window) && Closed(you) && InFlight(you) == 0
  {
  }

  /** What rank q does leaves rank r's side of their link alone and only adds to its own sends. */
  lemma PeerKeepsLink(cfg: Config, s: State, a: Action, r: nat, q: nat)
    requires Shaped(cfg, s) && Enabled(cfg, s, a) && r < cfg.n && q < cfg.n && r != q && a.r != r
    requires LinkOk(s, r, q)
    ensures Shaped(cfg, Apply(cfg, s, a)) && LinkOk(Apply(cfg, s, a), r, q)
  {
    ApplyOthers(cfg, s, a, r, q);
    hide Apply, Enabled, SendsTo, RecvsTo, PolledFrom, Blocks;
  }

  lemma ApplyOthers(cfg: Config, s: State, a: Action, r: nat, q: nat)
    requires Shaped(cfg, s) && Enabled(cfg, s, a) && r < cfg.n && q < cfg.n && r != q && a.r != r
    ensures var t := Apply(cfg, s, a);
            && Shaped(cfg, t) && t.ranks[r] == s.ranks[r] && t.sends[r][q] == s.sends[r][q]
            && t.recvs[r][q] == s.recvs[r][q]
            && t.polled[r][q] == s.polled[r][q] && |s.sends[q][r]| <= |t.sends[q][r]|
  {
    hide Guard, Stepped, BarrierPassed, CanPoll;
  }

  lemma LinkKept(cfg: Config, s: State, a: Action, r: nat, q: nat)
    requires Strict(cfg) && Inv(cfg, s) && Enabled(cfg, s, a) && r < cfg.n && q < cfg.n && r != q
    ensures Shaped(cfg, Apply(cfg, s, a)) && LinkOk(Apply(cfg, s, a), r, q)
  {
    assert PairOk(s, r, q) && RankOk(cfg, s.ranks[r]);
    assert WorkOk(cfg, s.ranks[r]) && LinkOk(s, r, q);
    hide LinkOk, Inv, WorkOk, RankOk, Apply, Enabled;
    if a.r != r {
      PeerKeepsLink(cfg, s, a, r, q);
    } else if Begins(a) {
      BeginKeepsLink(cfg, s, a, q);
    } else if a.Advance? {
      AdvanceKeepsPosts(cfg, s, a, q);
    } else {
      QuietKeepsLink(cfg, s, a, q);
    }
  }

  lemma BeginKeepsLink(cfg: Config, s: State, a: Action, q: nat)
    requires Shaped(cfg, s) && Enabled(cfg, s, a) && q < cfg.n && q != a.r && Begins(a)
    requires LinkOk(s, a.r, q) && RankOk(cfg, s.ranks[a.r])
    ensures Shaped(cfg, Apply(cfg, s, a)) && LinkOk(Apply(cfg, s, a), a.r, q)
  {
    hide CursorOf, CursorOk, BarriersOk, BarrierPassed, Blocks;
    var t := Apply(cfg, s, a);
    NewTagFollows(cfg, s.ranks[a.r], a);
    BeginKeepsPosts(s.ranks[a.r], t.ranks[a.r], q, cfg.n);
  }

  /** What the other actions of a rank do to its posts: at most begin or end a point-to-point receive. */
  lemma ApplyQuiet(cfg: Config, s: State, a: Action, q: nat)
    requires Strict(cfg) && Shaped(cfg, s) && Enabled(cfg, s, a) && q < cfg.n && q != a.r && !Begins(a) && !a.Advance?
    ensures var t, m := Apply(cfg, s, a), s.ranks[a.r];
            && Shaped(cfg, t) && t.ranks[a.r].hist == m.hist && t.sends[a.r][q] == s.sends[a.r][q]
            && t.sends[q][a.r] == s.sends[q][a.r]
            && t.recvs[a.r][q] == (if a == RecvDirect(a.r, q) then s.recvs[a.r][q] + [Direct] else s.recvs[a.r][q])
            && t.polled[a.r][q] == (if a.RecvDone? && m.work == Taking(q) then s.polled[a.r][q] + 1
                 else s.polled[a.r][q])
            && (a.RecvDone? && m.work == Taking(q) ==> s.polled[a.r][q] < |s.sends[q][a.r]|)
  {
    hide BarrierPassed;
  }

  lemma WorkMoves(cfg: Config, m: Rank, a: Action, q: nat)
    requires Guard(cfg, m, a) && WorkOk(cfg, m) && !Begins(a) && !a.Advance?
    ensures var m' := Stepped(cfg, m, a);
            && (m'.work == m.work || (!m'.work.Busy? && (m.work.Busy? ==> BlockDone(cfg, m) && |m.hist| > 0)))
            && Awaited(m', q) == if a.RecvDirect? && a.from == q then 1 else if a.RecvDone? then 0 else Awaited(m, q)
  {
    hide CursorOf, CanFollow;
  }

  lemma QuietKeepsLink(cfg: Config, s: State, a: Action, q: nat)
    requires Strict(cfg) && Shaped(cfg, s) && Enabled(cfg, s, a) && q < cfg.n && q != a.r && !Begins(a) && !a.Advance?
    requires LinkOk(s, a.r, q) && WorkOk(cfg, s.ranks[a.r])
    ensures Shaped(cfg, Apply(cfg, s, a)) && LinkOk(Apply(cfg, s, a), a.r, q)
  {
    ApplyRanks(cfg, s, a);
    ApplyQuiet(cfg, s, a, q);
    WorkMoves(cfg, s.ranks[a.r], a, q);
    hide Apply, Stepped, Guard, Enabled, Blocks, WorkOk, SendsTo, RecvsTo, PolledFrom;
    QuietKeepsPosts(cfg, s.ranks[a.r], Apply(cfg, s, a).ranks[a.r], q);
    BlocksSnoc(s.recvs[a.r][q], Direct);
  }

  lemma BlocksSnoc(posts: seq<Tag>, t: Tag)
    ensures Blocks(posts + [t]) == if t.Direct? then Blocks(posts) else Blocks(posts) + [t]
  {
    assert (posts + [t])[..|posts|] == posts;
  }

  lemma QuietKeepsPosts(cfg: Config, m: Rank, m': Rank, q: nat)
    requires q < cfg.n && m'.hist == m.hist
    requires m'.work == m.work || (!m'.work.Busy? && (m.work.Busy? ==> BlockDone(cfg, m) && |m.hist| > 0))
    ensures SendsTo(m', q) == SendsTo(m, q) && RecvsTo(m', q) == RecvsTo(m, q) && PolledFrom(m', q) == PolledFrom(m, q)
  {
  }

  lemma BeginKeepsPosts(m: Rank, m': Rank, q: nat, n: nat)
    requires q < n && (m.work.Busy? ==> m.work.stage == Polls(n)) && |m'.hist| == |m.hist| + 1 && m.hist <= m'.hist
    requires m'.work.Busy? && m'.work.stage == Recvs(0)
    requires m.work.Busy? ==> |m.hist| > 0
    ensures m'.hist[..SendsTo(m', q)] == m.hist[..SendsTo(m, q)]
    ensures m'.hist[..RecvsTo(m', q)] == m.hist[..RecvsTo(m, q)]
    ensures PolledFrom(m', q) == PolledFrom(m, q)
  {
  }

  /** Advancing past peer q adds one to exactly the count of the current stage. */
  lemma AdvanceCounts(cfg: Config, m: Rank, a: Action, q: nat)
    requires a.Advance? && Guard(cfg, m, a) && WorkOk(cfg, m) && q < cfg.n
    ensures var m' := Stepped(cfg, m, a);
            var here := m.work.stage.next == q;
            && m'.hist == m.hist
            && RecvsTo(m', q) == (if m.work.stage.Recvs? && here then |m.hist| else RecvsTo(m, q))
            && SendsTo(m', q) == (if m.work.stage.Sends? && here then |m.hist| else SendsTo(m, q))
            && PolledFrom(m', q) == (if m.work.stage.Polls? && here then |m.hist| else PolledFrom(m, q))
            && (here ==> |m.hist| - 1 == match m.work.stage
                                         case Recvs(_) => RecvsTo(m, q)
                                         case Sends(_) => SendsTo(m, q)
                                         case Polls(_) => PolledFrom(m, q))
  {
    hide CursorOf, CanFollow;
  }

  lemma AdvanceKeepsPosts(cfg: Config, s: State, a: Action, q: nat)
    requires Shaped(cfg, s) && Enabled(cfg, s, a) && a.Advance? && q < cfg.n && q != a.r
    requires LinkOk(s, a.r, q) && WorkOk(cfg, s.ranks[a.r])
    ensures Shaped(cfg, Apply(cfg, s, a)) && LinkOk(Apply(cfg, s, a), a.r, q)
  {
    hide *;
    LinkParts(s, a.r, q);
    ShapedParts(cfg, s);
    var m := s.ranks[a.r];
    ApplyRanks(cfg, s, a);
    ShapedParts(cfg, Apply(cfg, s, a));
    ApplyAdvance(cfg, s, a, q);
    AdvanceCounts(cfg, m, a, q);
    BlocksSnoc(s.recvs[a.r][q], m.work.tag);
    BusyParts(cfg, m);
    AdvanceStays(cfg, m, a, q);
    var last := |m.hist| - 1;
    assert m.hist[..last] + [m.hist[last]] == m.hist[..|m.hist|];
    LinkMade(Apply(cfg, s, a), a.r, q);
  }

  lemma ShapedParts(cfg: Config, s: State)
    requires Shaped(cfg, s)
    ensures |s.ranks| == cfg.n && IsGrid(s.sends, cfg.n) && IsGrid(s.recvs, cfg.n) && IsGrid(s.polled, cfg.n)
    ensures forall r :: 0 <= r < cfg.n ==> |s.sends[r]| == cfg.n && |s.recvs[r]| == cfg.n && |s.polled[r]| == cfg.n
  {
  }

  lemma LinkParts(s: State, r: nat, q: nat)
    requires LinkOk(s, r, q)
    ensures r < |s.ranks| && q < |s.ranks| && IsGrid(s.sends, |s.ranks|) && IsGrid(s.recvs, |s.ranks|)
    ensures IsGrid(s.polled, |s.ranks|)
    ensures var m := s.ranks[r];
            && s.sends[r][q] == m.hist[..SendsTo(m, q)] && Blocks(s.recvs[r][q]) == m.hist[..RecvsTo(m, q)]
            && |s.recvs[r][q]| == |Blocks(s.recvs[r][q])| + Directs(s.recvs[r][q])
            && s.polled[r][q] == PolledFrom(m, q) + Directs(s.recvs[r][q]) - Awaited(m, q) <= |s.sends[q][r]|
  {
    hide SendsTo, RecvsTo, PolledFrom, Blocks;
  }

  lemma LinkMade(s: State, r: nat, q: nat)
    requires r < |s.ranks| && q < |s.ranks| && IsGrid(s.sends, |s.ranks|) && IsGrid(s.recvs, |s.ranks|)
    requires IsGrid(s.polled, |s.ranks|)
    requires var m := s.ranks[r];
             && s.sends[r][q] == m.hist[..SendsTo(m, q)] && Blocks(s.recvs[r][q]) == m.hist[..RecvsTo(m, q)]
             && Awaited(m, q) == 0
             && s.polled[r][q] == PolledFrom(m, q) + |s.recvs[r][q]| - |Blocks(s.recvs[r][q])| <= |s.sends[q][r]|
    ensures LinkOk(s, r, q)
  {
    hide SendsTo, RecvsTo, PolledFrom, Blocks;
  }

  lemma BusyParts(cfg: Config, m: Rank)
    requires m.work.Busy? && WorkOk(cfg, m)
    ensures |m.hist| > 0 && m.hist[|m.hist| - 1] == m.work.tag && !m.work.tag.Direct?
  {
    hide CursorOf;
  }

  lemma AdvanceStays(cfg: Config, m: Rank, a: Action, q: nat)
    requires a.Advance? && Guard(cfg, m, a)
    ensures m.work.Busy? && Awaited(m, q) == 0 && Awaited(Stepped(cfg, m, a), q) == 0
  {
  }

  /** What an advance posts or polls towards peer q. */
  lemma ApplyAdvance(cfg: Config, s: State, a: Action, q: nat)
    requires Shaped(cfg, s) && Enabled(cfg, s, a) && a.Advance? && q < cfg.n && q != a.r
    ensures s.ranks[a.r].work.Busy?
    ensures var t, w := Apply(cfg, s, a), s.ranks[a.r].work;
            && Shaped(cfg, t) && t.sends[q][a.r] == s.sends[q][a.r]
            && t.recvs[a.r][q] == (if w.stage == Recvs(q) then s.recvs[a.r][q] + [w.tag] else s.recvs[a.r][q])
            && t.sends[a.r][q] == (if w.stage == Sends(q) then s.sends[a.r][q] + [w.tag] else s.sends[a.r][q])
            && t.polled[a.r][q] == (if w.stage == Polls(q) then s.polled[a.r][q] + 1 else s.polled[a.r][q])
            && (w.stage == Polls(q) ==> s.polled[a.r][q] < |s.sends[q][a.r]|)
  {
    hide BarrierPassed, StageAfter;
  }

  /** Every rank stays within one block of what its peers have begun. */
  lemma CompletedBound(cfg: Config, s: State, r: nat, q: nat)
    requires Inv(cfg, s) && r < cfg.n && q < cfg.n && r != q
    ensures Completed(s.ranks[r]) <= |s.ranks[q].hist|
  {
    hide Compatible, CursorOf, CursorOk, BarriersOk, Blocks, RecvsOk;
    assert PairOk(s, r, q) && PairOk(s, q, r);
    assert RankOk(cfg, s.ranks[r]) && RankOk(cfg, s.ranks[q]);
  }

  /** Two ranks with nothing outstanding have received no point-to-point message from each other. */
  lemma IdlePairHasNoDirects(cfg: Config, s: State, r: nat, q: nat)
    requires Inv(cfg, s) && r < cfg.n && q < cfg.n && r != q && s.ranks[r].work.Free? && s.ranks[q].work.Free?
    ensures Directs(s.recvs[r][q]) == 0
  {
    hide Compatible, CursorOf, RankOk, Blocks, RecvsOk;
    assert PairOk(s, r, q) && PairOk(s, q, r);
  }

  /** When a window opens on rank p, every rank is sealed, so no point-to-point receive involves p. */
  lemma OpeningHasNoDirects(cfg: Config, s: State, p: nat, q: nat)
    requires Inv(cfg, s) && p < cfg.n && q < cfg.n && p != q && s.ranks[p].window.InPre? && BarrierPassed(s, p)
    ensures Directs(s.recvs[p][q]) == 0 && Directs(s.recvs[q][p]) == 0
  {
    hide Compatible, CursorOk, LinkOk, WorkOk, Blocks, NoWindowAfter;
    assert RankOk(cfg, s.ranks[p]) && RankOk(cfg, s.ranks[q]);
    assert PairOk(s, p, q) && PairOk(s, q, p);
  }

  lemma NoDirects(posts: seq<Tag>, x: nat)
    requires x < |posts| && posts[x].Direct?
    ensures Directs(posts) > 0
    decreases |posts|
  {
    if x < |posts| - 1 {
      NoDirects(posts[..|posts| - 1], x);
    }
  }

  /** A window begins only where no point-to-point receive has been posted. */
  lemma WindowsKeepRecvs(cfg: Config, s: State, a: Action, r: nat, q: nat)
    requires Strict(cfg) && Inv(cfg, s) && Enabled(cfg, s, a) && Begins(a) && r < cfg.n && q < cfg.n && r != q
    ensures Shaped(cfg, Apply(cfg, s, a)) && RecvsOk(Apply(cfg, s, a), r, q)
  {
    hide Compatible, CursorOf, CursorOk, LinkOk, Blocks, WorkOk, BarriersOk;
    assert PairOk(s, r, q) && RankOk(cfg, s.ranks[a.r]);
    NewTagFollows(cfg, s.ranks[a.r], a);
    ApplyRanks(cfg, s, a);
    var t, posts := Apply(cfg, s, a), s.recvs[r][q];
    if a.ExitPre? && (a.r == r || a.r == q) {
      OpeningHasNoDirects(cfg, s, a.r, if a.r == r then q else r);
      forall x | 0 <= x < |posts|
        ensures !posts[x].Direct?
      {
        if posts[x].Direct? {
          NoDirects(posts, x);
        }
      }
    }
  }

  /** A point-to-point receive is posted after every window that either rank has begun. */
  lemma DirectsComeLate(cfg: Config, s: State, r: nat, q: nat)
    requires Inv(cfg, s) && r < cfg.n && q < cfg.n && r != q && s.ranks[r].work.Free? && !Sealed(s.ranks[r].window)
    ensures forall i :: |s.recvs[r][q]| <= i < |s.ranks[r].hist| ==> !s.ranks[r].hist[i].Maint?
    ensures forall i :: |s.recvs[r][q]| <= i < |s.ranks[q].hist| ==> !s.ranks[q].hist[i].Maint?
  {
    hide Compatible, CursorOf, CursorOk, Blocks, RecvsOk;
    var m, you := s.ranks[r], s.ranks[q];
    assert PairOk(s, r, q) && PairOk(s, q, r) && RankOk(cfg, m) && RankOk(cfg, you);
    CompletedBound(cfg, s, q, r);
    if you.window.Working? {
      WorkingSealsAll(cfg, you, m);
      assert false;
    }
  }

  lemma RecvsKept(cfg: Config, s: State, a: Action, r: nat, q: nat)
    requires Strict(cfg) && Inv(cfg, s) && Enabled(cfg, s, a) && r < cfg.n && q < cfg.n && r != q
    ensures Shaped(cfg, Apply(cfg, s, a)) && RecvsOk(Apply(cfg, s, a), r, q)
  {
    if Begins(a) {
      WindowsKeepRecvs(cfg, s, a, r, q);
    } else if a == RecvDirect(r, q) {
      DirectKeepsRecvs(cfg, s, a, r, q);
    } else {
      QuietKeepsRecvs(cfg, s, a, r, q);
    }
  }

  lemma DirectKeepsRecvs(cfg: Config, s: State, a: Action, r: nat, q: nat)
    requires Inv(cfg, s) && Enabled(cfg, s, a) && a == RecvDirect(r, q) && r < cfg.n && q < cfg.n && r != q
    ensures Shaped(cfg, Apply(cfg, s, a)) && RecvsOk(Apply(cfg, s, a), r, q)
  {
    hide Compatible, CursorOf, CursorOk, LinkOk, Blocks, WorkOk, BarriersOk;
    assert PairOk(s, r, q);
    DirectsComeLate(cfg, s, r, q);
  }

  lemma QuietKeepsRecvs(cfg: Config, s: State, a: Action, r: nat, q: nat)
    requires Strict(cfg) && Inv(cfg, s) && Enabled(cfg, s, a) && r < cfg.n && q < cfg.n && r != q
    requires !Begins(a) && a != RecvDirect(r, q)
    ensures Shaped(cfg, Apply(cfg, s, a)) && RecvsOk(Apply(cfg, s, a), r, q)
  {
    AddsBlocks(cfg, s, a, r, q);
    SealedTogether(cfg, s, a, r, q);
    assert RecvsOk(s, r, q) by {
      assert PairOk(s, r, q);
    }
    hide Inv, Enabled, Apply, Blocks, Begins;
  }

  /** The second of two ranks to be sealed drains while the other is idle. */
  lemma SealedTogether(cfg: Config, s: State, a: Action, r: nat, q: nat)
    requires Strict(cfg) && Inv(cfg, s) && Enabled(cfg, s, a) && r < cfg.n && q < cfg.n && r != q && !Begins(a)
    ensures var t := Apply(cfg, s, a);
            && |t.ranks| == cfg.n
            && (Sealed(t.ranks[r].window) && Sealed(t.ranks[q].window) ==> Directs(s.recvs[r][q]) == 0)
  {
    hide Compatible, CursorOf, CursorOk, LinkOk, Blocks, BarrierPassed, NoWindowAfter;
    var t := Apply(cfg, s, a);
    assert PairOk(s, r, q) && PairOk(s, q, r) && RankOk(cfg, s.ranks[r]) && RankOk(cfg, s.ranks[q]);
    ApplyRanks(cfg, s, a);
    SealsByDraining(cfg, s.ranks[a.r], a);
    hide Apply, Stepped, Enabled;
    if a.Drained? && (a.r == r || a.r == q) && Sealed(t.ranks[r].window) && Sealed(t.ranks[q].window) {
      DrainedPair(cfg, s, a.r, if a.r == r then q else r);
      IdlePairHasNoDirects(cfg, s, r, q);
    }
  }

  lemma SealsByDraining(cfg: Config, m: Rank, a: Action)
    requires Guard(cfg, m, a) && !Begins(a)
    ensures Sealed(Stepped(cfg, m, a).window) ==> Sealed(m.window) || a.Drained?
  {
  }

  lemma DrainedPair(cfg: Config, s: State, r: nat, q: nat)
    requires Inv(cfg, s) && r < cfg.n && q < cfg.n && r != q
    requires s.ranks[r].window.Draining? && InFlight(s.ranks[r]) == 0 && Sealed(s.ranks[q].window)
    ensures s.ranks[r].work.Free? && s.ranks[q].work.Free?
  {
    hide Compatible, CursorOf, CursorOk, LinkOk, RecvsOk;
    assert PairOk(s, r, q) && PairOk(s, q, r) && RankOk(cfg, s.ranks[r]) && RankOk(cfg, s.ranks[q]);
    if s.ranks[q].window.Working? {
      WorkingSealsAll(cfg, s.ranks[q], s.ranks[r]);
      assert false;
    }
  }

  /** What an action posts as a receive at r from q. */
  lemma ApplyRecvs(cfg: Config, s: State, a: Action, r: nat, q: nat)
    requires Shaped(cfg, s) && Enabled(cfg, s, a) && r < cfg.n && q < cfg.n && r != q && a != RecvDirect(r, q)
    ensures var t, m := Apply(cfg, s, a), s.ranks[a.r];
            && Shaped(cfg, t)
            && t.recvs[r][q] == if a.Advance? && a.r == r && m.work.stage == Recvs(q) then s.recvs[r][q] + [m.work.tag]
                 else s.recvs[r][q]
  {
  }

  /** What a block posts is no point-to-point receive. */
  lemma AddsBlocks(cfg: Config, s: State, a: Action, r: nat, q: nat)
    requires Inv(cfg, s) && Enabled(cfg, s, a) && r < cfg.n && q < cfg.n && r != q && !Begins(a)
    requires a != RecvDirect(r, q)
    ensures var t := Apply(cfg, s, a);
            && Shaped(cfg, t) && t.ranks[r].hist == s.ranks[r].hist && t.ranks[q].hist == s.ranks[q].hist
            && Directs(t.recvs[r][q]) == Directs(s.recvs[r][q])
            && s.recvs[r][q] <= t.recvs[r][q]
            && forall x :: |s.recvs[r][q]| <= x < |t.recvs[r][q]| ==> !t.recvs[r][q][x].Direct?
  {
    hide *;
    ActorInRange(cfg, s, a);
    ShapedParts(cfg, s);
    ApplyRanks(cfg, s, a);
    ShapedParts(cfg, Apply(cfg, s, a));
    ApplyRecvs(cfg, s, a, r, q);
    HistoryMoves(cfg, s.ranks[a.r], a);
    InvParts(cfg, s, r, r, q);
    if a.Advance? && a.r == r {
      AdvanceTag(cfg, s.ranks[r], a);
      BlocksSnoc(s.recvs[r][q], s.ranks[r].work.tag);
      DirectsIs(s.recvs[r][q]);
      DirectsIs(s.recvs[r][q] + [s.ranks[r].work.tag]);
    }
  }

  lemma AdvanceTag(cfg: Config, m: Rank, a: Action)
    requires a.Advance? && Guard(cfg, m, a) && RankOk(cfg, m)
    ensures m.work.Busy? && !m.work.tag.Direct?
  {
    hide CursorOf, CursorOk, BarriersOk;
  }

  lemma DirectsIs(posts: seq<Tag>)
    ensures Directs(posts) == |posts| - |Blocks(posts)|
  {
  }

  /** A rank that begins a block picks the tag its peer has already begun, if it has. */
  lemma BeginStaysCompatible(cfg: Config, s: State, a: Action, q: nat)
    requires Strict(cfg) && Inv(cfg, s) && Enabled(cfg, s, a) && Begins(a) && q < cfg.n && q != a.r
    ensures Compatible(s.ranks[a.r].hist + [NewTag(s.ranks[a.r], a)], s.ranks[q].hist)
  {
    hide CursorOf, LinkOk, RecvsOk;
    var m, you := s.ranks[a.r], s.ranks[q];
    var tag := NewTag(m, a);
    assert RankOk(cfg, m) && RankOk(cfg, you);
    NewTagFollows(cfg, s.ranks[a.r], a);
    CompletedBound(cfg, s, a.r, q);
    CompletedBound(cfg, s, q, a.r);
    assert PairOk(s, a.r, q) && PairOk(s, q, a.r);
    if |you.hist| > |m.hist| {
      assert Completed(you) == |m.hist| && you.work.Busy?;
      assert you.hist[..|you.hist| - 1] == m.hist;
      if a.ExitPre? {
        assert m.barOut < you.barIn;
        assert Sealed(you.window);
      } else if you.window.Working? {
        WorkingSealsAll(cfg, you, m);
      }
      SameKindSameTag(CursorOf(cfg, m.hist), tag, you.work.tag);
      assert you.hist == m.hist + [tag];
    }
  }

  lemma HistoryMoves(cfg: Config, m: Rank, a: Action)
    requires Guard(cfg, m, a)
    ensures !Begins(a) ==> Stepped(cfg, m, a).hist == m.hist
  {
  }

  lemma CompatibleKept(cfg: Config, s: State, a: Action, r: nat, q: nat)
    requires Strict(cfg) && Inv(cfg, s) && Enabled(cfg, s, a) && r < cfg.n && q < cfg.n
    ensures Shaped(cfg, Apply(cfg, s, a)) && Compatible(Apply(cfg, s, a).ranks[r].hist, Apply(cfg, s, a).ranks[q].hist)
  {
    hide *;
    ActorInRange(cfg, s, a);
    InvParts(cfg, s, a.r, r, q);
    ApplyRanks(cfg, s, a);
    HistoryMoves(cfg, s.ranks[a.r], a);
    CompatibleSym(s.ranks[r].hist, s.ranks[q].hist);
    if Begins(a) {
      NewTagFollows(cfg, s.ranks[a.r], a);
      var h := s.ranks[a.r].hist + [NewTag(s.ranks[a.r], a)];
      if a.r == r && q != r {
        BeginStaysCompatible(cfg, s, a, q);
      } else if a.r == q && q != r {
        BeginStaysCompatible(cfg, s, a, r);
        CompatibleSym(h, s.ranks[r].hist);
      } else if q == r {
        CompatibleSym(h, h);
      }
    }
  }

  lemma ActorInRange(cfg: Config, s: State, a: Action)
    requires Inv(cfg, s) && Enabled(cfg, s, a)
    ensures Shaped(cfg, s) && a.r < cfg.n
  {
  }

  lemma CompatibleSym(h: seq<Tag>, k: seq<Tag>)
    ensures Compatible(h, k) <==> Compatible(k, h)
    ensures Compatible(h, h)
  {
  }

  lemma InvParts(cfg: Config, s: State, p: nat, r: nat, q: nat)
    requires Inv(cfg, s) && p < cfg.n && r < cfg.n && q < cfg.n
    ensures Shaped(cfg, s) && |s.ranks| == cfg.n && RankOk(cfg, s.ranks[p])
    ensures Compatible(s.ranks[r].hist, s.ranks[q].hist)
  {
    hide RankOk, LinkOk, RecvsOk, Compatible;
    assert PairOk(s, r, q);
  }

  lemma ApplyRanks(cfg: Config, s: State, a: Action)
    requires Shaped(cfg, s) && Enabled(cfg, s, a)
    ensures Guard(cfg, s.ranks[a.r], a) && Shaped(cfg, Apply(cfg, s, a))
    ensures Apply(cfg, s, a).ranks == s.ranks[a.r := Stepped(cfg, s.ranks[a.r], a)]
  {
    hide Stepped, Guard, BarrierPassed, CanPoll;
  }

  lemma PairKept(cfg: Config, s: State, a: Action, r: nat, q: nat)
    requires Strict(cfg) && Inv(cfg, s) && Enabled(cfg, s, a) && r < cfg.n && q < cfg.n
    ensures Shaped(cfg, Apply(cfg, s, a)) && PairOk(Apply(cfg, s, a), r, q)
  {
    hide RankOk, LinkOk, Compatible, Apply, Guard, Stepped, Enabled, RecvsOk;
    ApplyRanks(cfg, s, a);
    assert PairOk(s, r, q) && PairOk(s, r, r);
    BarrierKept(cfg, s, a, r, q);
    CompatibleKept(cfg, s, a, r, q);
    if r != q {
      LinkKept(cfg, s, a, r, q);
      RecvsKept(cfg, s, a, r, q);
    }
  }

  lemma StepKeepsInv(cfg: Config, s: State, t: State)
    requires Strict(cfg) && Inv(cfg, s) && Next(cfg, s, t)
    ensures Inv(cfg, t)
  {
    hide RankOk, PairOk, Apply, Guard, Stepped, Enabled, Inv, Shaped;
    var a :| Enabled(cfg, s, a) && t == Apply(cfg, s, a);
    ActorInRange(cfg, s, a);
    ShapedParts(cfg, s);
    ApplyRanks(cfg, s, a);
    ShapedParts(cfg, t);
    forall r | 0 <= r < cfg.n
      ensures RankOk(cfg, t.ranks[r])
    {
      InvParts(cfg, s, r, r, r);
      if r == a.r {
        RankKept(cfg, s.ranks[r], a);
      }
    }
    forall r, q | 0 <= r < cfg.n && 0 <= q < cfg.n
      ensures PairOk(t, r, q)
    {
      PairKept(cfg, s, a, r, q);
    }
    InvMade(cfg, t);
  }

  lemma InvMade(cfg: Config, s: State)
    requires Shaped(cfg, s) && |s.ranks| == cfg.n && forall r :: 0 <= r < cfg.n ==> RankOk(cfg, s.ranks[r])
    requires forall r, q :: 0 <= r < cfg.n && 0 <= q < cfg.n ==> PairOk(s, r, q)
    ensures Inv(cfg, s)
  {
    hide RankOk, PairOk;
  }

  lemma {:induction false} RunInv(cfg: Config, tr: seq<State>, k: nat)
    requires Strict(cfg) && Run(cfg, tr) && k < |tr|
    ensures Inv(cfg, tr[k])
  {
    if k > 0 {
      RunInv(cfg, tr, k - 1);
      assert Next(cfg, tr[k - 1], tr[k]);
      StepKeepsInv(cfg, tr[k - 1], tr[k]);
    }
  }

  // ---- Results ----

  /** While any rank posts or polls maintenance work, every rank has admission closed and nothing in flight. */
  lemma MaintenanceIsQuiescent(cfg: Config, tr: seq<State>, k: nat)
    requires Strict(cfg) && Run(cfg, tr) && k < |tr|
    ensures Quiescent(tr[k])
  {
    RunInv(cfg, tr, k);
    var s := tr[k];
    forall r, q | 0 <= r < |s.ranks| && 0 <= q < |s.ranks| && s.ranks[r].work.Busy? && s.ranks[r].work.tag.Maint?
      ensures Closed(s.ranks[q]) && InFlight(s.ranks[q]) == 0
    {
      assert RankOk(cfg, s.ranks[r]) && RankOk(cfg, s.ranks[q]);
      assert PairOk(s, r, q) && PairOk(s, q, r);
      WorkingSealsAll(cfg, s.ranks[r], s.ranks[q]);
    }
  }

  /** Without point-to-point receives the posts of a link are its blocks. */
  lemma {:induction false} BlocksOnly(posts: seq<Tag>)
    requires forall x :: 0 <= x < |posts| ==> !posts[x].Direct?
    ensures Blocks(posts) == posts
  {
    if posts != [] {
      BlocksOnly(posts[..|posts| - 1]);
    }
  }

  /** The post number k of a link, if it is of a block, is the block that the blocks before it count to. */
  lemma {:induction false} BlockAt(posts: seq<Tag>, k: nat)
    requires k < |posts| && !posts[k].Direct?
    ensures var i := |Blocks(posts[..k])|; i < |Blocks(posts)| && Blocks(posts)[i] == posts[k]
    decreases |posts|
  {
    var front := posts[..|posts| - 1];
    if k < |front| {
      BlockAt(front, k);
      assert front[..k] == posts[..k];
    }
  }

  lemma {:induction false} BlocksGrow(posts: seq<Tag>, x: nat)
    requires x <= |posts|
    ensures |Blocks(posts[..x])| <= |Blocks(posts)|
    decreases |posts|
  {
    if x < |posts| {
      var front := posts[..|posts| - 1];
      BlocksGrow(front, x);
      assert front[..x] == posts[..x];
    } else {
      assert posts[..x] == posts;
    }
  }

  /** Up to the first point-to-point receive, the k-th send and k-th receive of a link are for the very same block. */
  lemma SameBlock(cfg: Config, s: State, q: nat, r: nat, k: nat)
    requires Inv(cfg, s) && q < cfg.n && r < cfg.n && q != r && k < |s.sends[q][r]| && k < |s.recvs[r][q]|
    requires forall x :: 0 <= x <= k ==> !s.recvs[r][q][x].Direct?
    ensures s.sends[q][r][k] == s.recvs[r][q][k]
  {
    hide RankOk, RecvsOk, Blocks, SendsTo, RecvsTo, PolledFrom;
    assert PairOk(s, q, r) && PairOk(s, r, q);
    BlocksOnly(s.recvs[r][q][..k]);
    BlockAt(s.recvs[r][q], k);
  }

  /**
    The k-th send and the k-th receive of a link are for the very same block: same collective and
    chunk, or same window.
   */
  lemma PairsAreSameBlock(cfg: Config, tr: seq<State>, i: nat, q: nat, r: nat, k: nat)
    requires Strict(cfg) && Run(cfg, tr) && i < |tr| && q < cfg.n && r < cfg.n && q != r
    requires Shaped(cfg, tr[i]) && k < |tr[i].sends[q][r]| && k < |tr[i].recvs[r][q]|
    requires forall x :: 0 <= x <= k ==> !tr[i].recvs[r][q][x].Direct?
    ensures tr[i].sends[q][r][k] == tr[i].recvs[r][q][k]
  {
    hide Inv;
    RunInv(cfg, tr, i);
    SameBlock(cfg, tr[i], q, r, k);
  }

  /** From the first point-to-point receive on, neither side of a link has a window to confuse. */
  lemma LateBlocksAreUsers(cfg: Config, s: State, q: nat, r: nat, x: nat, k: nat)
    requires Inv(cfg, s) && q < cfg.n && r < cfg.n && q != r && x <= k < |s.sends[q][r]| && k < |s.recvs[r][q]|
    requires s.recvs[r][q][x].Direct? && forall y :: 0 <= y < x ==> !s.recvs[r][q][y].Direct?
    ensures !s.sends[q][r][k].Maint? && !s.recvs[r][q][k].Maint?
  {
    hide RankOk, Blocks, SendsTo, RecvsTo, PolledFrom, Compatible;
    assert PairOk(s, q, r) && PairOk(s, r, q);
    var posts := s.recvs[r][q];
    if !posts[k].Direct? {
      BlockAt(posts, k);
      BlocksOnly(posts[..x]);
      BlocksGrow(posts[..k], x);
      assert posts[..k][..x] == posts[..x];
    }
  }

  lemma FirstDirect(posts: seq<Tag>, k: nat) returns (x: nat)
    requires k < |posts|
    ensures x <= k + 1 && (forall y :: 0 <= y < x ==> !posts[y].Direct?) && (x <= k ==> posts[x].Direct?)
  {
    x := 0;
    while x <= k && !posts[x].Direct?
      invariant x <= k + 1 && forall y :: 0 <= y < x ==> !posts[y].Direct?
    {
      x := x + 1;
    }
  }

  lemma StrictIsIsolated(cfg: Config, tr: seq<State>, i: nat)
    requires Strict(cfg) && Run(cfg, tr) && i < |tr|
    ensures Isolated(cfg, tr[i])
  {
    hide RankOk, PairOk;
    RunInv(cfg, tr, i);
    MaintenanceIsQuiescent(cfg, tr, i);
    var s := tr[i];
    forall q, r, k | 0 <= q < cfg.n && 0 <= r < cfg.n && q != r && 0 <= k < |s.sends[q][r]| && k < |s.recvs[r][q]|
      ensures s.sends[q][r][k].Maint? <==> s.recvs[r][q][k].Maint?
    {
      var x := FirstDirect(s.recvs[r][q], k);
      if x <= k {
        LateBlocksAreUsers(cfg, s, q, r, x, k);
      } else {
        SameBlock(cfg, s, q, r, k);
      }
    }
  }

  // ---- Why the hypotheses are needed ----

  lemma ExtendRun(cfg: Config, tr: seq<State>, a: Action) returns (longer: seq<State>)
    requires Run(cfg, tr) && Shaped(cfg, tr[|tr| - 1]) && Enabled(cfg, tr[|tr| - 1], a)
    ensures Run(cfg, longer) && |longer| > 0 && longer[|longer| - 1] == Apply(cfg, tr[|tr| - 1], a)
  {
    var last := tr[|tr| - 1];
    longer := tr + [Apply(cfg, last, a)];
    forall i | 0 < i < |longer|
      ensures Next(cfg, longer[i - 1], longer[i])
    {
      if i < |tr| {
        assert Next(cfg, tr[i - 1], tr[i]);
      }
    }
  }

  function Empty<T>(n: nat, v: T): (g: seq<seq<T>>)
    ensures IsGrid(g, n) && forall i, j :: 0 <= i < n && 0 <= j < n ==> g[i][j] == v
  {
    seq(n, _ => seq(n, _ => v))
  }

  const AtPre: Rank := Fresh.(window := InPre, barIn := 1)

  const Barred: Rank := Fresh.(barring := true, barIn := 1)

  /** Rank 0 waits in the pre-barrier; ranks 1..j are inside a user Barrier. */
  function WaitingWith(n: nat, j: nat): State {
    State(seq(n, r => if r == 0 then AtPre else if r <= j then Barred else Fresh),
          Empty(n, []), Empty(n, []), Empty(n, 0))
  }

  lemma FirstWaits(cfg: Config) returns (tr: seq<State>)
    requires cfg.n > 0
    ensures Run(cfg, tr) && tr[|tr| - 1] == WaitingWith(cfg.n, 0)
  {
    var s := State(seq(cfg.n, _ => Fresh), Empty(cfg.n, []), Empty(cfg.n, []), Empty(cfg.n, 0));
    tr := [s];
    tr := ExtendRun(cfg, tr, BeginWindow(0));
    tr := ExtendRun(cfg, tr, Drained(0));
    tr := ExtendRun(cfg, tr, EnterPre(0));
    assert tr[|tr| - 1].ranks == WaitingWith(cfg.n, 0).ranks;
  }

  lemma OneMoreBars(cfg: Config, j: nat)
    requires cfg.userBarriers && 0 < j < cfg.n
    ensures var s := WaitingWith(cfg.n, j - 1);
            && Shaped(cfg, s) && Enabled(cfg, s, EnterBarrier(j))
            && Apply(cfg, s, EnterBarrier(j)) == WaitingWith(cfg.n, j)
  {
    assert Apply(cfg, WaitingWith(cfg.n, j - 1), EnterBarrier(j)).ranks == WaitingWith(cfg.n, j).ranks;
  }

  lemma {:induction false} UserBarriersArrive(cfg: Config, j: nat) returns (tr: seq<State>)
    requires cfg.userBarriers && j < cfg.n
    ensures Run(cfg, tr) && tr[|tr| - 1] == WaitingWith(cfg.n, j)
  {
    hide WaitingWith, Enabled, Apply, Next, Init;
    if j == 0 {
      tr := FirstWaits(cfg);
    } else {
      tr := UserBarriersArrive(cfg, j - 1);
      OneMoreBars(cfg, j);
      tr := ExtendRun(cfg, tr, EnterBarrier(j));
    }
  }

  /** A user Barrier on the other ranks lets rank 0 through its pre-barrier while their gates are open. */
  lemma UserBarrierBreaksIsolation(cfg: Config) returns (tr: seq<State>)
    requires cfg.userBarriers && cfg.n >= 2
    ensures Run(cfg, tr) && !Quiescent(tr[|tr| - 1])
  {
    tr := UserBarriersArrive(cfg, cfg.n - 1);
    tr := ExtendRun(cfg, tr, ExitPre(0));
    var s := tr[|tr| - 1];
    assert s.ranks[0].work.tag == Maint(0) && !Closed(s.ranks[1]);
  }

  /** Rank 0 has sent directly to rank 1, which has not received; ranks below j wait in the pre-barrier. */
  function SentThenWaiting(n: nat, j: nat): State
    requires n >= 2
  {
    State(seq(n, r => if r < j then AtPre else Fresh), Put(Empty(n, []), 0, 1, [Direct]), Empty(n, []), Empty(n, 0))
  }

  lemma DirectFirst(cfg: Config) returns (tr: seq<State>)
    requires cfg.directSend && cfg.n >= 2
    ensures Run(cfg, tr) && tr[|tr| - 1] == SentThenWaiting(cfg.n, 0)
  {
    var none: seq<Tag> := [];
    var s := State(seq(cfg.n, _ => Fresh), Empty(cfg.n, none), Empty(cfg.n, none), Empty(cfg.n, 0));
    tr := [s];
    tr := ExtendRun(cfg, tr, Admit(0));
    tr := ExtendRun(cfg, tr, SendDirect(0, 1));
    tr := ExtendRun(cfg, tr, Leave(0));
    assert tr[|tr| - 1].ranks == SentThenWaiting(cfg.n, 0).ranks;
    assert s.sends[0][1] + [Direct] == [Direct];
  }

  lemma {:induction false} DirectThenWindows(cfg: Config, j: nat) returns (tr: seq<State>)
    requires cfg.directSend && cfg.n >= 2 && j <= cfg.n
    ensures Run(cfg, tr) && tr[|tr| - 1] == SentThenWaiting(cfg.n, j)
  {
    if j == 0 {
      tr := DirectFirst(cfg);
    } else {
      tr := DirectThenWindows(cfg, j - 1);
      tr := ExtendRun(cfg, tr, BeginWindow(j - 1));
      tr := ExtendRun(cfg, tr, Drained(j - 1));
      tr := ExtendRun(cfg, tr, EnterPre(j - 1));
      assert tr[|tr| - 1].ranks == SentThenWaiting(cfg.n, j).ranks;
    }
  }

  /** A point-to-point Send that completed on its own is later matched with a maintenance receive. */
  lemma DirectSendBreaksIsolation(cfg: Config) returns (tr: seq<State>)
    requires cfg.directSend && cfg.n >= 2
    ensures Run(cfg, tr) && Shaped(cfg, tr[|tr| - 1])
    ensures !PairsMatch(tr[|tr| - 1].sends[0][1], tr[|tr| - 1].recvs[1][0])
  {
    tr := DirectThenWindows(cfg, cfg.n);
    tr := ExtendRun(cfg, tr, ExitPre(1));
    tr := ExtendRun(cfg, tr, Advance(1));
    var s := tr[|tr| - 1];
    assert s.sends[0][1][0] == Direct && s.recvs[1][0][0] == Maint(0);
  }

  ghost predicate AlwaysIsolated(cfg: Config) {
    forall tr, i :: Run(cfg, tr) && 0 <= i < |tr| ==> Isolated(cfg, tr[i])
  }

  /**
    With at least two ranks, every run is isolated exactly when users can neither Barrier nor Send
    directly, whether or not they Recv.
   */
  lemma IsolationCondition(cfg: Config)
    requires cfg.n >= 2
    ensures AlwaysIsolated(cfg) <==> Strict(cfg)
  {
    if Strict(cfg) {
      forall tr, i | Run(cfg, tr) && 0 <= i < |tr|
        ensures Isolated(cfg, tr[i])
      {
        StrictIsIsolated(cfg, tr, i);
      }
    } else if cfg.userBarriers {
      var tr := UserBarrierBreaksIsolation(cfg);
      assert !Isolated(cfg, tr[|tr| - 1]);
    } else {
      var tr := DirectSendBreaksIsolation(cfg);
      assert !Isolated(cfg, tr[|tr| - 1]);
    }
  }
}
