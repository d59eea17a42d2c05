/**
  The session store (internal/jaccld/resource/store.go) as functions on its state: three
  bounded pools, the sessions leased from them, and the admission state.

  A context is refused from some check on, for ever: pool calls are numbered inside one store
  call and CancelledAfter(k) lets the first k of them through. The clock is read before the
  store's mutex is taken, so an operation may act on a reading older than the clock.
 */
module StoreSpec {
  import opened PoolSpec
  import SlabSpec
  import Text

  type Time = int

  const ZeroTime: Time := 0

  datatype Context = Background | CancelledAfter(checks: nat)

  predicate Cancelled(ctx: Context, k: nat) { ctx.CancelledAfter? && k >= ctx.checks }

  /** The context as the caller of check k sees it. */
  function Later(ctx: Context, k: nat): Context {
    match ctx
    case Background => Background
    case CancelledAfter(n) => CancelledAfter(if k <= n then n - k else 0)
  }

  datatype PeerSpec = PeerSpec(rank: int, route: string)

  datatype HeartbeatMR = HeartbeatMR(addr: nat, rkey: nat, length: int, epoch: nat)

  datatype Window = Window(id: nat, off: nat, n: nat)

  datatype Request = Request(client: string, peer: PeerSpec, size: int, deadline: Time, heartbeat: int,
      heartbeatMR: HeartbeatMR)

  datatype Session = Session(
    id: nat, client: string, peer: PeerSpec, window: Window, heartbeatMR: HeartbeatMR, qp: Handle, cq: Handle,
    created: Time, expires: Time, lastActivity: Time, healthy: bool)

  datatype StoreError = InvalidRequest | Expired | NotReady | InvalidState | SessionNotFound | ContextEnded
                      | PoolRefused(pool: PoolError) | SlabRefused(slab: SlabSpec.SlabError)

  datatype Answer = Granted(session: Session) | Refused(error: StoreError)

  const Ready: nat := 2
  const Terminated: nat := 4

  datatype Store = Store(
    state: nat, next: nat, slab: SlabSpec.Slab, qp: Pool<PeerSpec>, cq: Pool<bool>, sessions: map<nat, Session>)

  // ---- Operations ----

  predicate ValidHeartbeat(h: HeartbeatMR) {
    || h == HeartbeatMR(0, 0, 0, 0)
    || (h.addr != 0 && h.rkey != 0 && h.length > 0 && h.epoch != 0)
  }

  predicate WellFormedRequest(req: Request) {
    !Text.Blank(req.client) && req.peer.rank >= 0 && req.size > 0 && req.deadline != ZeroTime
  }

  predicate ValidRequest(req: Request, now: Time) {
    WellFormedRequest(req) && req.deadline > now && req.heartbeat >= 0 && ValidHeartbeat(req.heartbeatMR)
  }

  function RequestError(req: Request, now: Time): StoreError {
    if WellFormedRequest(req) && req.deadline <= now then Expired else InvalidRequest
  }

  function FreeWindow(slab: SlabSpec.Slab, cancelled: bool, id: nat): SlabSpec.Slab {
    if cancelled then slab else SlabSpec.Free(slab, id).0
  }

  function FreeWindowError(slab: SlabSpec.Slab, cancelled: bool, id: nat): seq<StoreError> {
    if cancelled then [ContextEnded]
    else if SlabSpec.Free(slab, id).1.FreeFailed? then [SlabRefused(SlabSpec.Free(slab, id).1.error)]
    else []
  }

  function NewSession(s: Store, now: Time, req: Request, w: Window, qp: Handle, cq: Handle): Session {
    Session(s.next + 1, req.client, req.peer, w, req.heartbeatMR, qp, cq, now, req.deadline, now, true)
  }

  /** Window, then completion queue, then queue pair; what was taken is given back on failure. */
  function Open(s: Store, ctx: Context, now: Time, req: Request): (Store, Answer) {
    if !ValidRequest(req, now) then (s, Refused(RequestError(req, now)))
    else if s.state != Ready then (s, Refused(NotReady))
    else if Cancelled(ctx, 0) then (s, Refused(ContextEnded))
    else
      var (slab, a) := SlabSpec.Alloc(s.slab, req.size);
      if a.AllocFailed? then (s, Refused(SlabRefused(a.error)))
          else OpenWithWindow(s, ctx, now, req, slab, Window(a.id, a.off, a.n))
  }

  function OpenWithWindow(s: Store, ctx: Context, now: Time, req: Request, slab: SlabSpec.Slab, w: Window)
    : (Store, Answer)
  {
    var (cq, c) := Acquire(s.cq, Cancelled(ctx, 1), true);
    if c.NotGot? then (s.(slab := FreeWindow(slab, Cancelled(ctx, 2), w.id)), Refused(PoolRefused(c.error)))
    else
      var (qp, q) := Acquire(s.qp, Cancelled(ctx, 2), req.peer);
      if q.NotGot? then
        (s.(cq := Release(cq, Cancelled(ctx, 3), c.handle).0, slab := FreeWindow(slab, Cancelled(ctx, 4), w.id)),
         Refused(PoolRefused(q.error)))
      else
        var lease := NewSession(s, now, req, w, q.handle, c.handle);
        (s.(next := s.next + 1, slab := slab, qp := qp, cq := cq, sessions := s.sessions[lease.id := lease]),
          Granted(lease))
  }

  /** Hand back a session's queue pair, completion queue and window. */
  function GiveBack(s: Store, ctx: Context, l: Session): Store {
    s.(qp := Release(s.qp, Cancelled(ctx, 0), l.qp).0,
       cq := Release(s.cq, Cancelled(ctx, 1), l.cq).0,
       slab := FreeWindow(s.slab, Cancelled(ctx, 2), l.window.id))
  }

  function ReleaseError(r: Released): seq<StoreError> {
    if r.Done? then [] else [PoolRefused(r.error)]
  }

  /** The errors the release joins; none means it returned nil. */
  function GiveBackErrors(s: Store, ctx: Context, l: Session): seq<StoreError> {
    ReleaseError(Release(s.qp, Cancelled(ctx, 0), l.qp).1)
    + ReleaseError(Release(s.cq, Cancelled(ctx, 1), l.cq).1)
    + FreeWindowError(s.slab, Cancelled(ctx, 2), l.window.id)
  }

  function Close(s: Store, ctx: Context, id: nat): (Store, seq<StoreError>) {
    if id !in s.sessions then (s, [SessionNotFound])
    else
      var l := s.sessions[id];
      var t := s.(sessions := s.sessions - {id});
      (GiveBack(t, ctx, l), GiveBackErrors(t, ctx, l))
  }

  /** Close the sessions of order, one after the other, under one context: three checks each. */
  function CloseAll(s: Store, ctx: Context, order: seq<nat>): Store
    decreases |order|
  {
    if order == [] then s
    else
      var front := order[..|order| - 1];
      Close(CloseAll(s, ctx, front), Later(ctx, 3 * |front|), order[|order| - 1]).0
  }

  /** An order in which the reaper may meet the expired sessions. */
  ghost predicate ReapOrder(s: Store, now: Time, order: seq<nat>) {
    Distinct(order) && forall id :: id in order <==> id in s.sessions && s.sessions[id].expires <= now
  }

  function CheckLive(s: Store, now: Time, id: nat): (e: seq<StoreError>)
    ensures e == [] ==> id in s.sessions && s.sessions[id].expires > now
  {
    if id == 0 then [InvalidRequest]
    else if s.state != Ready then [NotReady]
    else if id !in s.sessions then [SessionNotFound]
    else if s.sessions[id].expires <= now then [Expired]
    else []
  }

  function Refresh(s: Store, now: Time, id: nat, deadline: Time): (Store, Answer) {
    if id == 0 || deadline == ZeroTime then (s, Refused(InvalidRequest))
    else if deadline <= now then (s, Refused(Expired))
    else if CheckLive(s, now, id) != [] then (s, Refused(CheckLive(s, now, id)[0]))
    else
      var l := s.sessions[id].(expires := deadline, lastActivity := now, healthy := true);
      (s.(sessions := s.sessions[id := l]), Granted(l))
  }

  function Touch(s: Store, now: Time, id: nat): (Store, Answer) {
    if CheckLive(s, now, id) != [] then (s, Refused(CheckLive(s, now, id)[0]))
    else
      var l := s.sessions[id].(lastActivity := now, healthy := true);
      (s.(sessions := s.sessions[id := l]), Granted(l))
  }

  function Pulsed(l: Session, now: Time): Session {
    if l.expires <= now then l else l.(lastActivity := now, healthy := true)
  }

  function Pulse(s: Store, now: Time): Store {
    s.(sessions := map id | id in s.sessions :: Pulsed(s.sessions[id], now))
  }

  function SetState(s: Store, state: nat): (Store, bool) {
    if state > Terminated || state < s.state then (s, false) else (s.(state := state), true)
  }

  // ---- Bookkeeping ----

  ghost predicate UsesQP(sessions: map<nat, Session>, h: Handle) { exists id :: id in sessions && sessions[id].qp == h }

  ghost predicate UsesCQ(sessions: map<nat, Session>, h: Handle) { exists id :: id in sessions && sessions[id].cq == h }

  ghost predicate IsWindow(sessions: map<nat, Session>, w: nat) {
    exists id :: id in sessions && sessions[id].window.id == w
  }

  /** Two sessions share neither window nor handle. */
  ghost predicate Separate(a: Session, b: Session) {
    a.window.id != b.window.id && a.qp != b.qp && a.cq != b.cq
  }

  ghost predicate SessionsOk(sessions: map<nat, Session>, next: nat, leases: map<nat, SlabSpec.Span>) {
    && (forall id :: id in sessions ==>
          && 0 < id <= next && sessions[id].id == id
          && sessions[id].window.id in leases
          && leases[sessions[id].window.id] == SlabSpec.Span(sessions[id].window.off, sessions[id].window.n))
    && AllSeparate(sessions)
  }

  /** The handles in use are exactly the handles of the sessions. */
  ghost predicate HandlesMatch(sessions: map<nat, Session>, qp: Pool<PeerSpec>, cq: Pool<bool>) {
    && (forall h :: h in qp.inUse <==> UsesQP(sessions, h))
    && (forall h :: h in cq.inUse <==> UsesCQ(sessions, h))
  }

  /** The store's accounts agree with its pools, which were made with the handles qps and cqs. */
  ghost predicate Books(s: Store, qps: set<Handle>, cqs: set<Handle>) {
    && SlabSpec.Valid(s.slab) && !s.slab.closed
    && Holds(s.qp, qps) && Holds(s.cq, cqs)
    && SessionsOk(s.sessions, s.next, s.slab.leases)
    && HandlesMatch(s.sessions, s.qp, s.cq)
  }

  /** Slab leases that no session owns: other users of the slab, and anything leaked. */
  ghost function Foreign(s: Store): set<nat> {
    set w | w in s.slab.leases && !IsWindow(s.sessions, w)
  }

  ghost predicate SamePools(s: Store, t: Store) {
    t.qp == s.qp && t.cq == s.cq && t.slab == s.slab.(nextID := t.slab.nextID) && t.slab.nextID >= s.slab.nextID
  }

  lemma UsesAfterAdd(m: map<nat, Session>, id: nat, l: Session, h: Handle)
    requires id !in m
    ensures UsesQP(m[id := l], h) <==> UsesQP(m, h) || h == l.qp
    ensures UsesCQ(m[id := l], h) <==> UsesCQ(m, h) || h == l.cq
  {
    var n := m[id := l];
    assert n[id] == l;
    if k :| k in m && m[k].qp == h { assert n[k].qp == h; }
    if k :| k in m && m[k].cq == h { assert n[k].cq == h; }
  }

  lemma WindowAfterAdd(m: map<nat, Session>, id: nat, l: Session, w: nat)
    requires id !in m
    ensures IsWindow(m[id := l], w) <==> IsWindow(m, w) || w == l.window.id
  {
    var n := m[id := l];
    assert n[id] == l;
    if k :| k in m && m[k].window.id == w { assert n[k].window.id == w; }
  }

  ghost predicate AllSeparate(m: map<nat, Session>) {
    forall a, b :: a in m && b in m && a != b ==> Separate(m[a], m[b])
  }

  lemma UsesAfterDrop(m: map<nat, Session>, id: nat, h: Handle)
    requires id in m && AllSeparate(m)
    ensures UsesQP(m - {id}, h) <==> UsesQP(m, h) && h != m[id].qp
    ensures UsesCQ(m - {id}, h) <==> UsesCQ(m, h) && h != m[id].cq
  {
    var n := m - {id};
    if k :| k in m && m[k].qp == h && h != m[id].qp { assert n[k].qp == h; }
    if k :| k in m && m[k].cq == h && h != m[id].cq { assert n[k].cq == h; }
    if k :| k in n && n[k].qp == h { assert m[k].qp == h && Separate(m[k], m[id]); }
    if k :| k in n && n[k].cq == h { assert m[k].cq == h && Separate(m[k], m[id]); }
  }

  lemma WindowAfterDrop(m: map<nat, Session>, id: nat, w: nat)
    requires id in m && AllSeparate(m)
    ensures IsWindow(m - {id}, w) <==> IsWindow(m, w) && w != m[id].window.id
  {
    var n := m - {id};
    if k :| k in m && m[k].window.id == w && w != m[id].window.id { assert n[k].window.id == w; }
    if k :| k in n && n[k].window.id == w { assert m[k].window.id == w && Separate(m[k], m[id]); }
  }

  // ---- Open ----

  /** Whether a request gets as far as holding a window. */
  ghost predicate GetsWindow(s: Store, ctx: Context, now: Time, req: Request) {
    ValidRequest(req, now) && s.state == Ready && !Cancelled(ctx, 0) && SlabSpec.Alloc(s.slab, req.size).1.Leased?
  }

  /** Whether a request that holds its window also gets both handles. */
  ghost predicate GetsHandles(s: Store, ctx: Context) {
    s.cq.available != [] && s.qp.available != [] && !Cancelled(ctx, 2)
  }

  /** The last pool check a failing Open makes once it holds a window. */
  function LastCheck(s: Store): nat {
    if s.cq.available != [] && s.qp.available == [] then 4 else 2
  }

  lemma OpenSucceeds(s: Store, ctx: Context, now: Time, req: Request)
    ensures Open(s, ctx, now, req).1.Granted? <==> GetsWindow(s, ctx, now, req) && GetsHandles(s, ctx)
  {
  }

  lemma SucceededOpen(s: Store, ctx: Context, now: Time, req: Request)
    requires GetsWindow(s, ctx, now, req) && GetsHandles(s, ctx)
    ensures var (slab, a) := SlabSpec.Alloc(s.slab, req.size);
            var (cq, c) := Acquire(s.cq, false, true);
            var (qp, q) := Acquire(s.qp, false, req.peer);
            var l := NewSession(s, now, req, Window(a.id, a.off, a.n), q.handle, c.handle);
            Open(s, ctx, now, req).0 ==
            s.(next := s.next + 1, slab := slab, qp := qp, cq := cq, sessions := s.sessions[l.id := l])
  {
    hide SlabSpec.Alloc;
  }

  /** A session added with a window and handles nobody else has keeps the accounts. */
  lemma AddedSession(s: Store, t: Store, l: Session, tag: PeerSpec)
    requires SessionsOk(s.sessions, s.next, s.slab.leases) && HandlesMatch(s.sessions, s.qp, s.cq)
    requires t.next == s.next + 1 == l.id && t.sessions == s.sessions[l.id := l]
    requires l.window.id !in s.slab.leases
    requires t.slab.leases == s.slab.leases[l.window.id := SlabSpec.Span(l.window.off, l.window.n)]
    requires l.qp !in s.qp.inUse && l.cq !in s.cq.inUse
    requires t.qp.inUse == s.qp.inUse[l.qp := tag] && t.cq.inUse == s.cq.inUse[l.cq := true]
    ensures SessionsOk(t.sessions, t.next, t.slab.leases) && HandlesMatch(t.sessions, t.qp, t.cq)
    ensures Foreign(t) == Foreign(s)
  {
    hide *;
    NextIsNew(s.sessions, s.next, s.slab.leases);
    AddedMatch(s, t, l, tag);
    AddedForeign(s, t, l);
    AddedApart(s, l);
    AddedOk(s, t, l);
  }

  lemma NextIsNew(sessions: map<nat, Session>, next: nat, leases: map<nat, SlabSpec.Span>)
    requires SessionsOk(sessions, next, leases)
    ensures next + 1 !in sessions
  {
  }

  /** A session whose window and handles nobody holds is separate from all others. */
  lemma AddedApart(s: Store, l: Session)
    requires SessionsOk(s.sessions, s.next, s.slab.leases) && HandlesMatch(s.sessions, s.qp, s.cq)
    requires l.window.id !in s.slab.leases && l.qp !in s.qp.inUse && l.cq !in s.cq.inUse
    ensures forall a :: a in s.sessions ==> Separate(s.sessions[a], l) && Separate(l, s.sessions[a])
  {
    hide UsesQP, UsesCQ, IsWindow;
    forall a | a in s.sessions
      ensures Separate(s.sessions[a], l) && Separate(l, s.sessions[a])
    {
      WindowOf(s.sessions, a);
    }
  }

  lemma AddedOk(s: Store, t: Store, l: Session)
    requires SessionsOk(s.sessions, s.next, s.slab.leases)
    requires t.next == s.next + 1 == l.id && t.sessions == s.sessions[l.id := l]
    requires l.window.id !in s.slab.leases
    requires t.slab.leases == s.slab.leases[l.window.id := SlabSpec.Span(l.window.off, l.window.n)]
    requires forall a :: a in s.sessions ==> Separate(s.sessions[a], l) && Separate(l, s.sessions[a])
    ensures SessionsOk(t.sessions, t.next, t.slab.leases)
  {
    hide Separate;
  }

  lemma AddedForeign(s: Store, t: Store, l: Session)
    requires l.id !in s.sessions && t.sessions == s.sessions[l.id := l]
    requires l.window.id !in s.slab.leases
    requires t.slab.leases == s.slab.leases[l.window.id := SlabSpec.Span(l.window.off, l.window.n)]
    ensures Foreign(t) == Foreign(s)
  {
    hide IsWindow;
    forall w
      ensures w in Foreign(t) <==> w in Foreign(s)
    {
      WindowAfterAdd(s.sessions, l.id, l, w);
    }
  }

  lemma AddedMatch(s: Store, t: Store, l: Session, tag: PeerSpec)
    requires HandlesMatch(s.sessions, s.qp, s.cq) && l.id !in s.sessions && t.sessions == s.sessions[l.id := l]
    requires t.qp.inUse == s.qp.inUse[l.qp := tag] && t.cq.inUse == s.cq.inUse[l.cq := true]
    ensures HandlesMatch(t.sessions, t.qp, t.cq)
  {
    hide UsesQP, UsesCQ;
    forall h
      ensures h in t.qp.inUse <==> UsesQP(t.sessions, h)
      ensures h in t.cq.inUse <==> UsesCQ(t.sessions, h)
    {
      UsesAfterAdd(s.sessions, l.id, l, h);
    }
  }

  lemma OpenedBooks(s: Store, ctx: Context, now: Time, req: Request, qps: set<Handle>, cqs: set<Handle>)
    requires Books(s, qps, cqs) && Open(s, ctx, now, req).1.Granted?
    ensures Books(Open(s, ctx, now, req).0, qps, cqs) && Foreign(Open(s, ctx, now, req).0) == Foreign(s)
  {
    OpenSucceeds(s, ctx, now, req);
    SucceededOpen(s, ctx, now, req);
    var t := Open(s, ctx, now, req).0;
    var a := SlabSpec.Alloc(s.slab, req.size).1;
    SlabSpec.AllocKeepsValid(s.slab, req.size);
    SlabSpec.FreshID(s.slab, req.size);
    AcquireKeeps(s.cq, false, true, cqs);
    AcquireKeeps(s.qp, false, req.peer, qps);
    assert t.slab == SlabSpec.Alloc(s.slab, req.size).0 && !t.slab.closed
           && t.slab.leases == s.slab.leases[a.id := SlabSpec.Span(a.off, a.n)];
    hide Open, SlabSpec.Valid, SlabSpec.Alloc, SessionsOk, HandlesMatch, Holds, Foreign;
    AddedSession(s, t, t.sessions[t.next], req.peer);
  }

  /** Whether a failed Open keeps something: it held a window, and its context ended too soon to give it back. */
  ghost predicate OpenLeaks(s: Store, ctx: Context, now: Time, req: Request) {
    GetsWindow(s, ctx, now, req) && Cancelled(ctx, LastCheck(s))
  }

  /** A failed Open changes no session, and restores all three pools if and only if it does not leak. */
  lemma FailedOpenRestores(s: Store, ctx: Context, now: Time, req: Request, qps: set<Handle>, cqs: set<Handle>)
    requires Books(s, qps, cqs) && Open(s, ctx, now, req).1.Refused?
    ensures var t := Open(s, ctx, now, req).0;
            && t.sessions == s.sessions && t.next == s.next && t.state == s.state
            && (SamePools(s, t) <==> !OpenLeaks(s, ctx, now, req))
  {
    var (slab, a) := SlabSpec.Alloc(s.slab, req.size);
    if GetsWindow(s, ctx, now, req) {
      SlabSpec.AllocThenFreeRestores(s.slab, req.size);
      SlabSpec.FreshID(s.slab, req.size);
      assert a.id in slab.leases && a.id !in s.slab.leases && slab.nextID >= s.slab.nextID;
      hide SlabSpec.Alloc, SlabSpec.Free, SlabSpec.Valid, SessionsOk, HandlesMatch, Holds, OpenWithWindow;
      FailedWithWindow(s, ctx, now, req, slab, Window(a.id, a.off, a.n), cqs);
    }
  }

  lemma FailedWithWindow(s: Store, ctx: Context, now: Time, req: Request, slab: SlabSpec.Slab, w: Window,
                         cqs: set<Handle>)
    requires Holds(s.cq, cqs) && OpenWithWindow(s, ctx, now, req, slab, w).1.Refused?
    requires slab.leases != s.slab.leases && slab.nextID >= s.slab.nextID
    requires SlabSpec.Free(slab, w.id).0 == s.slab.(nextID := slab.nextID)
    ensures var t := OpenWithWindow(s, ctx, now, req, slab, w).0;
            && t.sessions == s.sessions && t.next == s.next && t.state == s.state
            && (SamePools(s, t) <==> !Cancelled(ctx, LastCheck(s)))
  {
    if s.cq.available != [] {
      AcquireThenRelease(s.cq, true, cqs);
    }
    hide SlabSpec.Free, Holds;
  }

  // ---- Close ----

  /** A session dropped together with its window and handles keeps the accounts. */
  lemma DroppedSession(s: Store, t: Store, id: nat)
    requires SessionsOk(s.sessions, s.next, s.slab.leases) && HandlesMatch(s.sessions, s.qp, s.cq) && id in s.sessions
    requires t.next == s.next && t.sessions == s.sessions - {id}
    requires t.slab.leases == s.slab.leases - {s.sessions[id].window.id}
    requires t.qp.inUse == s.qp.inUse - {s.sessions[id].qp} && t.cq.inUse == s.cq.inUse - {s.sessions[id].cq}
    ensures SessionsOk(t.sessions, t.next, t.slab.leases) && HandlesMatch(t.sessions, t.qp, t.cq)
    ensures Foreign(t) == Foreign(s)
  {
    assert AllSeparate(s.sessions);
    hide *;
    DroppedMatch(s, t, id);
    DroppedForeign(s, t, id);
    DroppedOk(s, t, id);
  }

  lemma DroppedOk(s: Store, t: Store, id: nat)
    requires SessionsOk(s.sessions, s.next, s.slab.leases) && id in s.sessions
    requires t.next == s.next && t.sessions == s.sessions - {id}
    requires t.slab.leases == s.slab.leases - {s.sessions[id].window.id}
    ensures SessionsOk(t.sessions, t.next, t.slab.leases)
  {
    assert AllSeparate(t.sessions);
    forall a | a in t.sessions
      ensures s.sessions[a].window.id != s.sessions[id].window.id
    {
      assert Separate(s.sessions[a], s.sessions[id]);
    }
    hide AllSeparate, Separate;
  }

  lemma DroppedMatch(s: Store, t: Store, id: nat)
    requires AllSeparate(s.sessions) && HandlesMatch(s.sessions, s.qp, s.cq) && id in s.sessions
    requires t.sessions == s.sessions - {id}
    requires t.qp.inUse == s.qp.inUse - {s.sessions[id].qp} && t.cq.inUse == s.cq.inUse - {s.sessions[id].cq}
    ensures HandlesMatch(t.sessions, t.qp, t.cq)
  {
    hide UsesQP, UsesCQ, AllSeparate;
    forall h
      ensures h in t.qp.inUse <==> UsesQP(t.sessions, h)
      ensures h in t.cq.inUse <==> UsesCQ(t.sessions, h)
    {
      UsesAfterDrop(s.sessions, id, h);
    }
  }

  lemma DroppedForeign(s: Store, t: Store, id: nat)
    requires AllSeparate(s.sessions) && id in s.sessions && t.sessions == s.sessions - {id}
    requires t.slab.leases == s.slab.leases - {s.sessions[id].window.id}
    ensures Foreign(t) == Foreign(s)
  {
    hide IsWindow, AllSeparate;
    assert IsWindow(s.sessions, s.sessions[id].window.id) by {
      WindowOf(s.sessions, id);
    }
    forall w
      ensures w in Foreign(t) <==> w in Foreign(s)
    {
      WindowAfterDrop(s.sessions, id, w);
    }
  }

  lemma WindowOf(m: map<nat, Session>, id: nat)
    requires id in m
    ensures IsWindow(m, m[id].window.id) && UsesQP(m, m[id].qp) && UsesCQ(m, m[id].cq)
  {
  }

  /** Closing under a context that lasts three checks returns nil and gives back exactly the session's resources. */
  lemma ClosedBooks(s: Store, ctx: Context, id: nat, qps: set<Handle>, cqs: set<Handle>)
    requires Books(s, qps, cqs) && id in s.sessions && !Cancelled(ctx, 2)
    ensures var (t, e) := Close(s, ctx, id);
            && Books(t, qps, cqs) && Foreign(t) == Foreign(s) && e == []
            && t.sessions == s.sessions - {id} && t.next == s.next && t.state == s.state
            && t.slab.leases == s.slab.leases - {s.sessions[id].window.id} && t.slab.nextID == s.slab.nextID
  {
    var l := s.sessions[id];
    var t := Close(s, ctx, id).0;
    WindowOf(s.sessions, id);
    SlabSpec.FreeKeepsValid(s.slab, l.window.id);
    ReleaseKeeps(s.qp, false, l.qp, qps);
    ReleaseKeeps(s.cq, false, l.cq, cqs);
    CloseEffect(s, ctx, id);
    hide SlabSpec.Valid, SlabSpec.Merge, SlabSpec.Insert, Holds, UsesQP, UsesCQ, IsWindow, AllSeparate, Foreign, Close,
         SessionsOk,
         HandlesMatch;
    DroppedSession(s, t, id);
  }

  lemma CloseEffect(s: Store, ctx: Context, id: nat)
    requires id in s.sessions && !Cancelled(ctx, 2) && !s.slab.closed
    requires s.sessions[id].qp in s.qp.inUse && s.sessions[id].cq in s.cq.inUse
    requires s.sessions[id].window.id in s.slab.leases
    ensures var l := s.sessions[id];
            var (t, e) := Close(s, ctx, id);
            && e == [] && t.sessions == s.sessions - {id} && t.next == s.next && t.state == s.state
            && t.slab == SlabSpec.Free(s.slab, l.window.id).0 && t.slab.leases == s.slab.leases - {l.window.id}
            && t.qp == Release(s.qp, false, l.qp).0 && t.qp.inUse == s.qp.inUse - {l.qp}
            && t.cq == Release(s.cq, false, l.cq).0 && t.cq.inUse == s.cq.inUse - {l.cq}
  {
    hide SlabSpec.Merge, SlabSpec.Insert;
  }

  /** Closing gives everything back if and only if its context lasts for all three checks. */
  lemma CloseBalances(s: Store, ctx: Context, id: nat, qps: set<Handle>, cqs: set<Handle>)
    requires Books(s, qps, cqs) && id in s.sessions
    ensures var t := Close(s, ctx, id).0;
            Books(t, qps, cqs) && Foreign(t) == Foreign(s) <==> !Cancelled(ctx, 2)
  {
    if !Cancelled(ctx, 2) {
      ClosedBooks(s, ctx, id, qps, cqs);
    } else {
      var t := Close(s, ctx, id).0;
      var w := s.sessions[id].window.id;
      WindowOf(s.sessions, id);
      WindowAfterDrop(s.sessions, id, w);
      assert w in Foreign(t) && w !in Foreign(s);
    }
  }

  ghost function Without(m: map<nat, Session>, order: seq<nat>): map<nat, Session> {
    map id | id in m && id !in order :: m[id]
  }

  /** Closing several live sessions in any order removes exactly those. */
  lemma {:induction false} AllClosed(s: Store, order: seq<nat>, qps: set<Handle>, cqs: set<Handle>)
    requires Books(s, qps, cqs) && Distinct(order) && forall id :: id in order ==> id in s.sessions
    ensures var t := CloseAll(s, Background, order);
            && Books(t, qps, cqs) && Foreign(t) == Foreign(s) && t.next == s.next && t.state == s.state
            && t.sessions == Without(s.sessions, order)
    decreases |order|
  {
    hide Books, Foreign, Close, Without;
    if order == [] {
      WithoutNone(s.sessions);
    } else {
      var front, last := order[..|order| - 1], order[|order| - 1];
      FrontOf(s.sessions, order);
      AllClosed(s, front, qps, cqs);
      ClosedBooks(CloseAll(s, Background, front), Background, last, qps, cqs);
    }
  }

  lemma WithoutNone(m: map<nat, Session>)
    ensures Without(m, []) == m
  {
  }

  lemma FrontOf(m: map<nat, Session>, order: seq<nat>)
    requires order != [] && Distinct(order) && forall id :: id in order ==> id in m
    ensures var front, last := order[..|order| - 1], order[|order| - 1];
            && Distinct(front) && (forall id :: id in front ==> id in m)
            && last in Without(m, front) && Without(m, front) - {last} == Without(m, order)
  {
    var front, last := order[..|order| - 1], order[|order| - 1];
    assert order == front + [last];
  }
}
