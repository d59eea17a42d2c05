/** The session store as the source updates it, in place over the three pools, against StoreSpec. */
module SessionStore {
  import opened Options
  import opened PoolSpec
  import opened HandlePools
  import opened StoreSpec
  import SlabSpec
  import SlabAllocator
  import Text

  class Sessions {
    const slab: SlabAllocator.Allocator
    const qp: HandlePool<PeerSpec>
    const cq: HandlePool<bool>
    var state: nat
    var next: nat
    var sessions: map<nat, Session>

    ghost predicate Ok()
      reads this, slab, slab.free
    {
      slab.Ok()
    }

    ghost function View(): Store
      requires Ok()
      reads this, slab, slab.free, qp, cq
    {
      Store(state, next, slab.View(), qp.View(), cq.View(), sessions)
    }

    constructor (slab: SlabAllocator.Allocator, qp: HandlePool<PeerSpec>, cq: HandlePool<bool>)
      requires slab.Ok()
      ensures this.slab == slab && this.qp == qp && this.cq == cq && Ok()
      ensures View() == Store(0, 0, slab.View(), qp.View(), cq.View(), map[])
    {
      this.slab, this.qp, this.cq := slab, qp, cq;
      state, next, sessions := 0, 0, map[];
    }

    method SetState(to: nat) returns (ok: bool)
      requires Ok()
      modifies this
      ensures Ok() && View() == StoreSpec.SetState(old(View()), to).0 && ok == StoreSpec.SetState(old(View()), to).1
    {
      if to > Terminated { return false; }
      if state == Terminated && to != Terminated { return false; }
      if to < state { return false; }
      state := to;
      return true;
    }

    method FreeMR(cancelled: bool, id: nat) returns (e: seq<StoreError>)
      requires Ok()
      modifies slab, slab.free
      ensures Ok() && (slab.free == old(slab.free) || fresh(slab.free))
      ensures slab.View() == FreeWindow(old(slab.View()), cancelled, id)
      ensures e == FreeWindowError(old(slab.View()), cancelled, id)
    {
      hide SlabSpec.Free, SlabSpec.Valid;
      if cancelled { return [ContextEnded]; }
      var r := slab.Free(id);
      return if r.Freed? then [] else [SlabRefused(r.error)];
    }

    method Open(ctx: Context, now: Time, req: Request) returns (r: Answer)
      requires Ok()
      modifies this, slab, slab.free, qp, cq
      ensures Ok() && (slab.free == old(slab.free) || fresh(slab.free))
      ensures View() == StoreSpec.Open(old(View()), ctx, now, req).0
      ensures r == StoreSpec.Open(old(View()), ctx, now, req).1
    {
      hide SlabSpec.Alloc, SlabSpec.Valid, OpenWithWindow;
      ghost var s := View();
      AllocFailureKeeps(s.slab, req.size);
      var bad := ValidateRequest(req, now);
      if bad.Some? { return Refused(bad.value); }
      if state != Ready { return Refused(NotReady); }
      if Cancelled(ctx, 0) { return Refused(ContextEnded); }
      var a := slab.Alloc(req.size);
      if a.AllocFailed? { return Refused(SlabRefused(a.error)); }
      r := OpenWindow(ctx, now, req, Window(a.id, a.off, a.n), s);
    }

    /** The part of Open after the window is allocated; s is the store before it. */
    method OpenWindow(ctx: Context, now: Time, req: Request, w: Window, ghost s: Store) returns (r: Answer)
      requires Ok() && View() == s.(slab := slab.View())
      modifies this, slab, slab.free, qp, cq
      ensures Ok() && (slab.free == old(slab.free) || fresh(slab.free))
      ensures View() == OpenWithWindow(s, ctx, now, req, old(slab.View()), w).0
      ensures r == OpenWithWindow(s, ctx, now, req, old(slab.View()), w).1
    {
      hide SlabSpec.Free, SlabSpec.Valid, FreeWindow, FreeWindowError, PoolSpec.Release;
      var c := cq.Acquire(Cancelled(ctx, 1), true);
      if c.NotGot? {
        var _ := FreeMR(Cancelled(ctx, 2), w.id);
        return Refused(PoolRefused(c.error));
      }
      var q := qp.Acquire(Cancelled(ctx, 2), req.peer);
      if q.NotGot? {
        var _ := cq.Release(Cancelled(ctx, 3), c.handle);
        var _ := FreeMR(Cancelled(ctx, 4), w.id);
        return Refused(PoolRefused(q.error));
      }
      next := next + 1;
      var lease :=
        Session(next, req.client, req.peer, w, req.heartbeatMR, q.handle, c.handle, now, req.deadline, now, true);
      sessions := sessions[lease.id := lease];
      return Granted(lease);
    }

    /** releaseLocked: all three releases are tried, whatever the others return. */
    method GiveBack(ctx: Context, l: Session) returns (e: seq<StoreError>)
      requires Ok()
      modifies slab, slab.free, qp, cq
      ensures Ok() && (slab.free == old(slab.free) || fresh(slab.free))
      ensures View() == StoreSpec.GiveBack(old(View()), ctx, l) && e == GiveBackErrors(old(View()), ctx, l)
    {
      hide SlabSpec.Free, SlabSpec.Valid, FreeWindow, FreeWindowError, PoolSpec.Acquire, PoolSpec.Release;
      var a := qp.Release(Cancelled(ctx, 0), l.qp);
      var b := cq.Release(Cancelled(ctx, 1), l.cq);
      var c := FreeMR(Cancelled(ctx, 2), l.window.id);
      return ReleaseError(a) + ReleaseError(b) + c;
    }

    method Close(ctx: Context, id: nat) returns (e: seq<StoreError>)
      requires Ok()
      modifies this, slab, slab.free, qp, cq
      ensures Ok() && (slab.free == old(slab.free) || fresh(slab.free))
      ensures View() == StoreSpec.Close(old(View()), ctx, id).0 && e == StoreSpec.Close(old(View()), ctx, id).1
    {
      hide SlabSpec.Valid, StoreSpec.GiveBack, GiveBackErrors;
      if id !in sessions { return [SessionNotFound]; }
      var l := sessions[id];
      sessions := sessions - {id};
      e := GiveBack(ctx, l);
    }

    /** Close every expired session, in whatever order the map yields them. */
    method ReapExpired(ctx: Context, now: Time) returns (n: nat, ghost order: seq<nat>)
      requires Ok()
      modifies this, slab, slab.free, qp, cq
      ensures Ok() && (slab.free == old(slab.free) || fresh(slab.free))
      ensures ReapOrder(old(View()), now, order) && n == |order|
      ensures View() == CloseAll(old(View()), ctx, order)
    {
      hide SlabSpec.Valid, StoreSpec.Close, SlabAllocator.Allocator.Ok;
      ghost var s := View();
      var left := set id | id in sessions && sessions[id].expires <= now;
      order, n := [], 0;
      while left != {}
        invariant Ok() && (slab.free == old(slab.free) || fresh(slab.free))
        invariant View() == CloseAll(s, ctx, order) && n == |order|
        invariant Distinct(order) && (forall id :: id in order ==> id !in left)
        invariant forall id :: id in left || id in order <==> id in s.sessions && s.sessions[id].expires <= now
        decreases left
      {
        var id :| id in left;
        assert (order + [id])[..|order|] == order;
        var _ := Close(Later(ctx, 3 * n), id);
        order := order + [id];
        n := n + 1;
        left := left - {id};
      }
    }

    method Refresh(now: Time, id: nat, deadline: Time) returns (r: Answer)
      requires Ok()
      modifies this
      ensures Ok() && View() == StoreSpec.Refresh(old(View()), now, id, deadline).0
      ensures r == StoreSpec.Refresh(old(View()), now, id, deadline).1
    {
      if id == 0 { return Refused(InvalidRequest); }
      if deadline == ZeroTime { return Refused(InvalidRequest); }
      if deadline <= now { return Refused(Expired); }
      if state != Ready { return Refused(NotReady); }
      if id !in sessions { return Refused(SessionNotFound); }
      var l := sessions[id];
      if l.expires <= now { return Refused(Expired); }
      l := l.(expires := deadline, lastActivity := now, healthy := true);
      sessions := sessions[id := l];
      return Granted(l);
    }

    method Touch(now: Time, id: nat) returns (r: Answer)
      requires Ok()
      modifies this
      ensures Ok() && View() == StoreSpec.Touch(old(View()), now, id).0 && r == StoreSpec.Touch(old(View()), now, id).1
    {
      if id == 0 { return Refused(InvalidRequest); }
      if state != Ready { return Refused(NotReady); }
      if id !in sessions { return Refused(SessionNotFound); }
      var l := sessions[id];
      if l.expires <= now { return Refused(Expired); }
      l := l.(lastActivity := now, healthy := true);
      sessions := sessions[id := l];
      return Granted(l);
    }

    /** Mark every live session healthy; n counts them. */
    method PulseControlPlane(now: Time) returns (n: nat)
      requires Ok()
      modifies this
      ensures Ok() && View() == Pulse(old(View()), now)
      ensures n == |set id | id in old(sessions) && old(sessions)[id].expires > now|
    {
      hide SlabSpec.Valid, SlabAllocator.Allocator.Ok, SlabAllocator.Allocator.View, Pulse, Pulsed;
      ghost var was, s := sessions, View();
      var left := sessions.Keys;
      ghost var live: set<nat> := {};
      n := 0;
      while left != {}
        invariant left <= was.Keys == sessions.Keys && state == old(state) && next == old(next)
        invariant forall id :: id in was ==> sessions[id] == if id in left then was[id] else Pulsed(was[id], now)
        invariant forall id :: id in live <==> id in was && id !in left && was[id].expires > now
        invariant n == |live|
        decreases left
      {
        var id :| id in left;
        left := left - {id};
        var l := sessions[id];
        PulsedIs(l, now);
        if l.expires > now {
          sessions := sessions[id := l.(lastActivity := now, healthy := true)];
          n := n + 1;
          live := live + {id};
        }
      }
      assert live == set id | id in was && was[id].expires > now;
      PulseIs(s, now, sessions);
    }
  }

  /** validateRequest: the checks in the source's order. */
  method ValidateRequest(req: Request, now: Time) returns (e: Option<StoreError>)
    ensures e.None? <==> ValidRequest(req, now)
    ensures e.Some? ==> e.value == RequestError(req, now)
  {
    Text.BlankIsTrimmed(req.client);
    if Text.Trim(req.client) == "" { return Some(InvalidRequest); }
    if req.peer.rank < 0 { return Some(InvalidRequest); }
    if req.size <= 0 { return Some(InvalidRequest); }
    if req.deadline == ZeroTime { return Some(InvalidRequest); }
    if req.deadline <= now { return Some(Expired); }
    if req.heartbeat < 0 { return Some(InvalidRequest); }
    var h := req.heartbeatMR;
    if h != HeartbeatMR(0, 0, 0, 0) {
      if h.addr == 0 || h.rkey == 0 || h.length <= 0 || h.epoch == 0 { return Some(InvalidRequest); }
    }
    return None;
  }

  lemma PulsedIs(l: Session, now: Time)
    ensures Pulsed(l, now) == if l.expires > now then l.(lastActivity := now, healthy := true) else l
  {
  }

  lemma PulseIs(s: Store, now: Time, after: map<nat, Session>)
    requires after.Keys == s.sessions.Keys && forall id :: id in after ==> after[id] == Pulsed(s.sessions[id], now)
    ensures Pulse(s, now) == s.(sessions := after)
  {
  }

  lemma AllocFailureKeeps(s: SlabSpec.Slab, n: int)
    ensures SlabSpec.Alloc(s, n).1.AllocFailed? ==> SlabSpec.Alloc(s, n).0 == s
  {
  }
}
