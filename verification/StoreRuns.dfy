/**
  Every run of the session store under uncancelled contexts and a monotone clock, with other
  users of the slab allocating and freeing their own leases in between.
 */
module StoreRuns {
  import opened PoolSpec
  import opened StoreSpec
  import SlabSpec
  import StoreAnswers

  datatype World = World(store: Store, clock: Time)

  /** One critical section; read is the clock as the operation saw it before it took the mutex. */
  datatype Action =
    | DoOpen(read: Time, req: Request)
    | DoRefresh(read: Time, id: nat, deadline: Time)
    | DoTouch(read: Time, id: nat)
    | DoPulse(read: Time)
    | DoClose(id: nat)
    | DoReap(read: Time, order: seq<nat>)
    | DoSetState(state: nat)
    | OtherAlloc(n: int)
    | OtherFree(id: nat)
    | Tick(to: Time)

  ghost predicate Allowed(w: World, a: Action) {
    match a
    case DoOpen(read, _) => read <= w.clock
    case DoRefresh(read, _, _) => read <= w.clock
    case DoTouch(read, _) => read <= w.clock
    case DoPulse(read) => read <= w.clock
    case DoReap(read, order) => read <= w.clock && ReapOrder(w.store, read, order)
    case OtherFree(id) => !IsWindow(w.store.sessions, id)
    case Tick(to) => w.clock <= to
    case _ => true
  }

  ghost function Effect(w: World, a: Action): World {
    match a
    case DoOpen(read, req) => w.(store := Open(w.store, Background, read, req).0)
    case DoRefresh(read, id, deadline) => w.(store := Refresh(w.store, read, id, deadline).0)
    case DoTouch(read, id) => w.(store := Touch(w.store, read, id).0)
    case DoPulse(read) => w.(store := Pulse(w.store, read))
    case DoClose(id) => w.(store := Close(w.store, Background, id).0)
    case DoReap(read, order) => w.(store := CloseAll(w.store, Background, order))
    case DoSetState(state) => w.(store := SetState(w.store, state).0)
    case OtherAlloc(n) => w.(store := w.store.(slab := SlabSpec.Alloc(w.store.slab, n).0))
    case OtherFree(id) => w.(store := w.store.(slab := SlabSpec.Free(w.store.slab, id).0))
    case Tick(to) => w.(clock := to)
  }

  ghost predicate Run(tr: seq<World>, acts: seq<Action>) {
    && |tr| == |acts| + 1
    && forall i :: 0 <= i < |acts| ==> Allowed(tr[i], acts[i]) && tr[i + 1] == Effect(tr[i], acts[i])
  }

  /** What each step of a run does to the store, in terms of the sessions and leases one can see. */
  lemma StepsTakeEffect(w: World, a: Action, id: nat, qps: set<Handle>, cqs: set<Handle>)
    requires Books(w.store, qps, cqs) && Allowed(w, a)
    ensures var t := Effect(w, a);
            && t.clock == (if a.Tick? then a.to else w.clock)
            && (a == DoClose(id) ==> id !in t.store.sessions)
            && (a.DoReap? ==>
                  (id in t.store.sessions <==> id in w.store.sessions && w.store.sessions[id].expires > a.read))
            && (a.DoTouch? && a.id == id && StoreAnswers.LiveAt(w.store, a.read, id) ==>
                  id in t.store.sessions && t.store.sessions[id].lastActivity == a.read)
            && (a.DoPulse? && id in w.store.sessions && w.store.sessions[id].expires > a.read ==>
                  id in t.store.sessions && t.store.sessions[id].lastActivity == a.read)
            && (a.DoRefresh? && a.id == id && StoreAnswers.LiveAt(w.store, a.read, id) && a.read < a.deadline != 0 ==>
                  id in t.store.sessions && t.store.sessions[id].expires == a.deadline)
            && (a.DoSetState? ==> t.store.state == if w.store.state <= a.state <= 4 then a.state else w.store.state)
            && (a == OtherFree(id) ==> id !in t.store.slab.leases)
            && (a.OtherAlloc? && a.n > 0 && (exists o :: SlabSpec.Fits(w.store.slab, a.n, o)) ==>
                  t.store.slab.leases.Keys == w.store.slab.leases.Keys + {t.store.slab.nextID})
  {
    hide Books, SlabSpec.Alloc, SlabSpec.Free, Close, CloseAll, Refresh, Touch, Pulse, SetState, SlabSpec.Fits;
    match a
    case DoClose(i) => StoreAnswers.CloseReports(w.store, Background, i, qps, cqs);
    case DoReap(read, order) => StoreAnswers.ReapEndsExpired(w.store, read, order, qps, cqs);
    case DoTouch(read, i) => StoreAnswers.TouchAnswers(w.store, read, i);
    case DoRefresh(read, i, deadline) => StoreAnswers.RefreshAnswers(w.store, read, i, deadline);
    case DoPulse(read) =>
      if id in w.store.sessions {
        StoreAnswers.PulseMarks(w.store, read, id);
      }
    case DoSetState(state) => StoreAnswers.StateMoves(w.store, state);
    case OtherFree(i) => OtherFreeEnds(w.store, i, qps, cqs);
    case OtherAlloc(n) => OtherAllocGrants(w.store, n, qps, cqs);
    case _ =>
  }

  lemma OtherFreeEnds(s: Store, id: nat, qps: set<Handle>, cqs: set<Handle>)
    requires Books(s, qps, cqs)
    ensures id !in SlabSpec.Free(s.slab, id).0.leases
  {
    SlabSpec.FreeAnswers(s.slab, id);
  }

  lemma OtherAllocGrants(s: Store, n: int, qps: set<Handle>, cqs: set<Handle>)
    requires Books(s, qps, cqs)
    ensures var t := SlabSpec.Alloc(s.slab, n).0;
            n > 0 && (exists o :: SlabSpec.Fits(s.slab, n, o)) ==> t.leases.Keys == s.slab.leases.Keys + {t.nextID}
  {
    SlabSpec.AllocAnswers(s.slab, n);
    hide SlabSpec.Valid, SlabSpec.Fits, SlabSpec.Alloc;
  }

  // ---- The accounts ----

  /** The same sessions with the same resources, whatever their times. */
  ghost predicate SameResources(m: map<nat, Session>, n: map<nat, Session>) {
    && m.Keys == n.Keys
    && forall id :: id in m ==>
         n[id].id == m[id].id && n[id].window == m[id].window && n[id].qp == m[id].qp && n[id].cq == m[id].cq
  }

  lemma SameUses(m: map<nat, Session>, n: map<nat, Session>, h: Handle, w: nat)
    requires SameResources(m, n)
    ensures UsesQP(m, h) ==> UsesQP(n, h)
    ensures UsesCQ(m, h) ==> UsesCQ(n, h)
    ensures IsWindow(m, w) ==> IsWindow(n, w)
  {
    if id :| id in m && m[id].qp == h { assert n[id].qp == h; }
    if id :| id in m && m[id].cq == h { assert n[id].cq == h; }
    if id :| id in m && m[id].window.id == w { assert n[id].window.id == w; }
  }

  lemma UpdatedBooks(s: Store, t: Store, qps: set<Handle>, cqs: set<Handle>)
    requires Books(s, qps, cqs) && t == s.(sessions := t.sessions) && SameResources(s.sessions, t.sessions)
    ensures Books(t, qps, cqs)
  {
    hide UsesQP, UsesCQ, IsWindow, Holds, SlabSpec.Valid;
    forall h
      ensures UsesQP(s.sessions, h) <==> UsesQP(t.sessions, h)
      ensures UsesCQ(s.sessions, h) <==> UsesCQ(t.sessions, h)
    {
      SameUses(s.sessions, t.sessions, h, 0);
      SameUses(t.sessions, s.sessions, h, 0);
    }
    forall a, b | a in t.sessions && b in t.sessions && a != b
      ensures Separate(t.sessions[a], t.sessions[b])
    {
      assert Separate(s.sessions[a], s.sessions[b]);
    }
  }

  lemma UpdatesKeepResources(w: World, a: Action)
    requires a.DoRefresh? || a.DoTouch? || a.DoPulse?
    ensures Effect(w, a).store == w.store.(sessions := Effect(w, a).store.sessions)
    ensures SameResources(w.store.sessions, Effect(w, a).store.sessions)
  {
  }

  lemma OtherBooks(w: World, a: Action, qps: set<Handle>, cqs: set<Handle>)
    requires Books(w.store, qps, cqs) && Allowed(w, a) && (a.OtherAlloc? || a.OtherFree?)
    ensures Books(Effect(w, a).store, qps, cqs)
  {
    assert SlabSpec.Valid(w.store.slab);
    hide *;
    OtherKeepsWindows(w, a);
    SlabBooks(w.store, Effect(w, a).store, qps, cqs);
  }

  lemma OtherKeepsWindows(w: World, a: Action)
    requires SlabSpec.Valid(w.store.slab) && Allowed(w, a) && (a.OtherAlloc? || a.OtherFree?)
    ensures var s, t := w.store, Effect(w, a).store;
            && t == s.(slab := t.slab) && SlabSpec.Valid(t.slab) && t.slab.closed == s.slab.closed
            && forall id :: id in s.slab.leases && IsWindow(s.sessions, id) ==>
                 id in t.slab.leases && t.slab.leases[id] == s.slab.leases[id]
  {
    hide SlabSpec.Valid, SlabSpec.Alloc, SlabSpec.Free, IsWindow;
    OtherSlab(w.store.slab, a);
  }

  /** A slab that still has every window keeps the accounts. */
  lemma SlabBooks(s: Store, t: Store, qps: set<Handle>, cqs: set<Handle>)
    requires Books(s, qps, cqs) && t == s.(slab := t.slab) && SlabSpec.Valid(t.slab) && t.slab.closed == s.slab.closed
    requires forall id :: id in s.slab.leases && IsWindow(s.sessions, id) ==>
               id in t.slab.leases && t.slab.leases[id] == s.slab.leases[id]
    ensures Books(t, qps, cqs)
  {
    hide SlabSpec.Valid, Holds, HandlesMatch, AllSeparate, IsWindow, UsesQP, UsesCQ;
    forall id | id in s.sessions
      ensures IsWindow(s.sessions, s.sessions[id].window.id)
    {
      WindowOf(s.sessions, id);
    }
  }

  lemma OtherSlab(s: SlabSpec.Slab, a: Action)
    requires SlabSpec.Valid(s) && (a.OtherAlloc? || a.OtherFree?)
    ensures var t := if a.OtherAlloc? then SlabSpec.Alloc(s, a.n).0 else SlabSpec.Free(s, a.id).0;
            && SlabSpec.Valid(t) && t.closed == s.closed
            && forall id :: id in s.leases && (a.OtherFree? ==> id != a.id) ==>
                 id in t.leases && t.leases[id] == s.leases[id]
  {
    hide SlabSpec.Valid, SlabSpec.Merge, SlabSpec.Insert, SlabSpec.Take, SlabSpec.FirstFit;
    if a.OtherAlloc? {
      SlabSpec.AllocKeepsValid(s, a.n);
      if SlabSpec.Alloc(s, a.n).1.Leased? {
        SlabSpec.FreshID(s, a.n);
      }
    } else {
      SlabSpec.FreeKeepsValid(s, a.id);
    }
  }

  lemma StepBooks(w: World, a: Action, qps: set<Handle>, cqs: set<Handle>)
    requires Books(w.store, qps, cqs) && Allowed(w, a)
    ensures Books(Effect(w, a).store, qps, cqs)
  {
    hide Books, Open, Close, CloseAll, Refresh, Touch, Pulse, SameResources, SlabSpec.Alloc, SlabSpec.Free;
    match a
    case DoOpen(read, req) => OpenBooks(w.store, read, req, qps, cqs);
    case DoClose(id) =>
      if id in w.store.sessions {
        ClosedBooks(w.store, Background, id, qps, cqs);
      } else {
        NothingToClose(w.store, id);
      }
    case DoReap(read, order) => AllClosed(w.store, order, qps, cqs);
    case DoSetState(state) => StateBooks(w.store, state, qps, cqs);
    case OtherAlloc(_) => OtherBooks(w, a, qps, cqs);
    case OtherFree(_) => OtherBooks(w, a, qps, cqs);
    case Tick(_) =>
    case _ =>
      UpdatesKeepResources(w, a);
      UpdatedBooks(w.store, Effect(w, a).store, qps, cqs);
  }

  lemma NothingToClose(s: Store, id: nat)
    requires id !in s.sessions
    ensures Close(s, Background, id).0 == s
  {
  }

  lemma StateBooks(s: Store, state: nat, qps: set<Handle>, cqs: set<Handle>)
    requires Books(s, qps, cqs)
    ensures Books(SetState(s, state).0, qps, cqs)
  {
  }

  lemma OpenBooks(s: Store, now: Time, req: Request, qps: set<Handle>, cqs: set<Handle>)
    requires Books(s, qps, cqs)
    ensures Books(Open(s, Background, now, req).0, qps, cqs)
  {
    var (t, r) := Open(s, Background, now, req);
    if r.Granted? {
      OpenedBooks(s, Background, now, req, qps, cqs);
    } else {
      FailedOpenRestores(s, Background, now, req, qps, cqs);
      SameSlabValid(s.slab, t.slab);
      hide SlabSpec.Valid, Open, Holds, HandlesMatch;
    }
  }

  lemma SameSlabValid(s: SlabSpec.Slab, t: SlabSpec.Slab)
    requires SlabSpec.Valid(s) && t == s.(nextID := t.nextID) && t.nextID >= s.nextID
    ensures SlabSpec.Valid(t)
  {
  }

  /** Every reachable store has its books in order. */
  lemma {:induction false} RunBooks(tr: seq<World>, acts: seq<Action>, i: nat, qps: set<Handle>, cqs: set<Handle>)
    requires Run(tr, acts) && Books(tr[0].store, qps, cqs) && i < |tr|
    ensures Books(tr[i].store, qps, cqs)
  {
    if i > 0 {
      RunBooks(tr, acts, i - 1, qps, cqs);
      StepBooks(tr[i - 1], acts[i - 1], qps, cqs);
    }
  }

  /** The books say: as many handles in use as sessions, none lost, and no two windows overlap. */
  lemma BooksMean(s: Store, qps: set<Handle>, cqs: set<Handle>)
    requires Books(s, qps, cqs)
    ensures |s.qp.inUse| == |s.cq.inUse| == |s.sessions|
    ensures |s.qp.inUse| + |s.qp.available| == |qps| && |s.cq.inUse| + |s.cq.available| == |cqs|
    ensures forall a, b :: a in s.sessions && b in s.sessions && a != b ==>
              SlabSpec.Apart(SpanOf(s.sessions[a].window), SpanOf(s.sessions[b].window))
  {
    hide *;
    HandlesCount(s, qps, cqs);
    WindowsApart(s, qps, cqs);
  }

  lemma HandlesCount(s: Store, qps: set<Handle>, cqs: set<Handle>)
    requires Books(s, qps, cqs)
    ensures |s.qp.inUse| == |s.cq.inUse| == |s.sessions|
    ensures |s.qp.inUse| + |s.qp.available| == |qps| && |s.cq.inUse| + |s.cq.available| == |cqs|
  {
    hide Holds, UsesQP, UsesCQ, SlabSpec.Valid, QPs, CQs;
    PoolConserves(s.qp, qps);
    PoolConserves(s.cq, cqs);
    UsesAreImages(s.sessions);
    ImageCount(QPs(s.sessions), s.qp.inUse.Keys);
    ImageCount(CQs(s.sessions), s.cq.inUse.Keys);
  }

  lemma WindowsApart(s: Store, qps: set<Handle>, cqs: set<Handle>)
    requires Books(s, qps, cqs)
    ensures forall a, b :: a in s.sessions && b in s.sessions && a != b ==>
              SlabSpec.Apart(SpanOf(s.sessions[a].window), SpanOf(s.sessions[b].window))
  {
    hide Holds, HandlesMatch, SlabSpec.Normal, SlabSpec.Partition;
    forall a, b | a in s.sessions && b in s.sessions && a != b
      ensures SlabSpec.Apart(SpanOf(s.sessions[a].window), SpanOf(s.sessions[b].window))
    {
      assert Separate(s.sessions[a], s.sessions[b]);
    }
  }

  ghost function QPs(m: map<nat, Session>): map<nat, Handle> { map id | id in m :: m[id].qp }

  ghost function CQs(m: map<nat, Session>): map<nat, Handle> { map id | id in m :: m[id].cq }

  ghost predicate Injective(m: map<nat, Handle>) { forall a, b :: a in m && b in m && a != b ==> m[a] != m[b] }

  lemma UsesAreImages(m: map<nat, Session>)
    requires AllSeparate(m)
    ensures forall h :: UsesQP(m, h) <==> h in QPs(m).Values
    ensures forall h :: UsesCQ(m, h) <==> h in CQs(m).Values
    ensures Injective(QPs(m)) && Injective(CQs(m)) && |QPs(m)| == |CQs(m)| == |m|
  {
    assert QPs(m).Keys == m.Keys == CQs(m).Keys;
    forall h
      ensures UsesQP(m, h) <==> h in QPs(m).Values
      ensures UsesCQ(m, h) <==> h in CQs(m).Values
    {
      if id :| id in m && m[id].qp == h { assert QPs(m)[id] == h; }
      if id :| id in m && m[id].cq == h { assert CQs(m)[id] == h; }
    }
    forall a, b | a in m && b in m && a != b
      ensures m[a].qp != m[b].qp && m[a].cq != m[b].cq
    {
      assert Separate(m[a], m[b]);
    }
  }

  function SpanOf(w: Window): SlabSpec.Span { SlabSpec.Span(w.off, w.n) }

  /** An injective map has as many values as keys. */
  lemma {:induction false} ImageCount(m: map<nat, Handle>, image: set<Handle>)
    requires Injective(m) && forall h :: h in image <==> h in m.Values
    ensures |image| == |m|
    decreases |m|
  {
    if k :| k in m {
      var rest := m - {k};
      forall v | v in m.Values
        ensures v in rest.Values || v == m[k]
      {
        var j :| j in m && m[j] == v;
        assert j == k || rest[j] == v;
      }
      assert m[k] !in rest.Values;
      ImageCount(rest, image - {m[k]});
    } else {
      assert m == map[];
      assert image == {};
    }
  }

  lemma StoreConserves(tr: seq<World>, acts: seq<Action>, i: nat, qps: set<Handle>, cqs: set<Handle>)
    requires Run(tr, acts) && Books(tr[0].store, qps, cqs) && i < |tr|
    ensures var s := tr[i].store;
            && (forall h :: h in s.qp.inUse <==> UsesQP(s.sessions, h))
            && (forall h :: h in s.cq.inUse <==> UsesCQ(s.sessions, h))
            && |s.qp.inUse| == |s.cq.inUse| == |s.sessions|
            && |s.qp.inUse| + |s.qp.available| == |qps| && |s.cq.inUse| + |s.cq.available| == |cqs|
    ensures var m := tr[i].store.sessions;
            forall a, b :: a in m && b in m && a != b ==> SlabSpec.Apart(SpanOf(m[a].window), SpanOf(m[b].window))
  {
    RunBooks(tr, acts, i, qps, cqs);
    BooksMean(tr[i].store, qps, cqs);
  }

  // ---- Lifetimes ----

  /** Issued once and closed or reaped since. */
  ghost predicate Gone(w: World, id: nat) { id <= w.store.next && id !in w.store.sessions }

  /** Issued once and not live now. */
  ghost predicate Dead(w: World, id: nat) {
    id <= w.store.next && (id in w.store.sessions ==> w.store.sessions[id].expires <= w.clock)
  }

  /** A refresh that acts on the clock as it is when the store is updated. */
  ghost predicate FreshRead(w: World, a: Action) { a.DoRefresh? ==> a.read == w.clock }

  lemma {:induction false} CloseAllDrops(s: Store, ctx: Context, order: seq<nat>)
    ensures var t := CloseAll(s, ctx, order);
            t.next == s.next && forall id :: id in t.sessions ==> id in s.sessions && t.sessions[id] == s.sessions[id]
    decreases |order|
  {
    if order != [] {
      CloseAllDrops(s, ctx, order[..|order| - 1]);
    }
  }

  /** What one action can do to the sessions: add the next id, drop some, or move one deadline. */
  lemma StepSessions(w: World, a: Action, id: nat)
    requires Allowed(w, a)
    ensures var v := Effect(w, a);
            && v.store.next >= w.store.next && v.clock >= w.clock
            && (id in v.store.sessions && id <= w.store.next ==> id in w.store.sessions)
            && (id in v.store.sessions && id <= w.store.next && !(a.DoRefresh? && a.id == id) ==>
                  v.store.sessions[id].expires == w.store.sessions[id].expires)
  {
    hide SlabSpec.Alloc, SlabSpec.Free, PoolSpec.Acquire, PoolSpec.Release;
    if a.DoReap? {
      CloseAllDrops(w.store, Background, a.order);
    }
  }

  lemma {:induction false} IdsAreNeverReused(tr: seq<World>, acts: seq<Action>, i: nat, j: nat, id: nat)
    requires Run(tr, acts) && i <= j < |tr| && Gone(tr[i], id)
    ensures Gone(tr[j], id)
    decreases j
  {
    if i < j {
      IdsAreNeverReused(tr, acts, i, j - 1, id);
      StepSessions(tr[j - 1], acts[j - 1], id);
    }
  }

  /** Under fresh reads, a session that is expired at one moment is never live at a later one. */
  lemma {:induction false} ExpiredStaysDead(tr: seq<World>, acts: seq<Action>, i: nat, j: nat, id: nat)
    requires Run(tr, acts) && i <= j < |tr| && Dead(tr[i], id)
    requires forall k :: 0 <= k < |acts| ==> FreshRead(tr[k], acts[k])
    ensures Dead(tr[j], id)
    decreases j
  {
    if i < j {
      ExpiredStaysDead(tr, acts, i, j - 1, id);
      var w, a := tr[j - 1], acts[j - 1];
      assert FreshRead(w, a) && Allowed(w, a);
      StepSessions(w, a, id);
      if a.DoRefresh? && a.id == id {
        RefreshRevives(w, a.read, id, a.deadline);
      }
    }
  }

  /** A refresh revives a dead session if and only if it read the clock before the session expired. */
  lemma RefreshRevives(w: World, read: Time, id: nat, deadline: Time)
    requires Dead(w, id) && read <= w.clock
    ensures !Dead(Effect(w, DoRefresh(read, id, deadline)), id) <==>
              && w.store.state == Ready && id != 0 && id in w.store.sessions
              && read < w.store.sessions[id].expires && deadline > w.clock && deadline != ZeroTime
  {
  }

  /** Such a run: opened at 1 until 5, read at 4, the clock moves to 6, and the refresh brings the session back. */
  lemma StaleRefreshRevives()
    ensures exists tr: seq<World>, acts: seq<Action>, i: nat, j: nat, id: nat ::
              && Run(tr, acts) && Books(tr[0].store, {"q"}, {"c"})
              && i <= j < |tr| && Dead(tr[i], id) && !Dead(tr[j], id)
  {
    FirstOpen();
    hide FirstStore, FirstRequest, Books, Open;
    var w0 := World(FirstStore(), 1);
    var w1 := Effect(w0, DoOpen(1, FirstRequest()));
    var w2 := Effect(w1, Tick(6));
    RefreshRevives(w2, 4, 1, 10);
    hide Refresh, Dead;
    var w3 := Effect(w2, DoRefresh(4, 1, 10));
    var tr := [w0, w1, w2, w3];
    assert Run(tr, [DoOpen(1, FirstRequest()), Tick(6), DoRefresh(4, 1, 10)]);
    assert !Dead(tr[3], 1);
    assert Dead(tr[2], 1);
  }

  ghost function FirstStore(): Store {
    Store(Ready, 0, SlabSpec.NewSlab(2), Pool(["q"], map[]), Pool(["c"], map[]), map[])
  }

  ghost function FirstRequest(): Request {
    Request("x", PeerSpec(0, ""), 1, 5, 0, HeartbeatMR(0, 0, 0, 0))
  }

  lemma FirstOpen()
    ensures Books(FirstStore(), {"q"}, {"c"})
    ensures var t := Open(FirstStore(), Background, 1, FirstRequest()).0;
            t.next == 1 && t.state == Ready && 1 in t.sessions && t.sessions[1].expires == 5
  {
    var s, req := FirstStore(), FirstRequest();
    SlabSpec.NewSlabValid(2);
    assert req.client[0] == 'x';
    SlabSpec.AllocIsLowestFit(s.slab, 1);
    assert SlabSpec.Fits(s.slab, 1, 0);
    hide SlabSpec.Alloc, SlabSpec.Valid;
    SucceededOpen(s, Background, 1, req);
  }

  /** A context that ends after its first check leaks the window of a new store's first Open. */
  lemma OpenCanLeak()
    ensures var s, ctx := FirstStore(), CancelledAfter(1);
            var (t, r) := Open(s, ctx, 1, FirstRequest());
            && Books(s, {"q"}, {"c"}) && r.Refused? && OpenLeaks(s, ctx, 1, FirstRequest()) && !SamePools(s, t)
            && t.slab.leases != map[] && t.sessions == map[]
  {
    var s, ctx, req := FirstStore(), CancelledAfter(1), FirstRequest();
    FirstOpen();
    OpenSucceeds(s, Background, 1, req);
    OpenSucceeds(s, ctx, 1, req);
    FailedOpenRestores(s, ctx, 1, req, {"q"}, {"c"});
    SlabSpec.FreshID(s.slab, req.size);
  }

  /** A cancelled Close of that store's first session drops the session and keeps everything it held. */
  lemma CloseCanLeak()
    ensures var s := Open(FirstStore(), Background, 1, FirstRequest()).0;
            var t := Close(s, CancelledAfter(0), 1).0;
            && Books(s, {"q"}, {"c"}) && 1 in s.sessions && 1 !in t.sessions
            && t.slab == s.slab && t.qp == s.qp && t.cq == s.cq && !(Books(t, {"q"}, {"c"}) && Foreign(t) == Foreign(s))
  {
    FirstOpen();
    OpenBooks(FirstStore(), 1, FirstRequest(), {"q"}, {"c"});
    hide FirstStore, FirstRequest, Open, Books;
    CloseBalances(Open(FirstStore(), Background, 1, FirstRequest()).0, CancelledAfter(0), 1, {"q"}, {"c"});
  }
}
