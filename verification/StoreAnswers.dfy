/**
  What the session store answers, field by field (internal/jaccld/resource/store.go): the lease that a
  granted request gets, which refusal a request meets and when, and what the calls on a session change.
 */
module StoreAnswers {
  import opened PoolSpec
  import opened StoreSpec
  import SlabSpec
  import Text

  // ---- Pools ----

  /** A pool hands out from the end of its stack, and refuses exactly when cancelled or empty. */
  lemma PoolAnswers<P>(p: Pool<P>, cancelled: bool, tag: P, h: Handle)
    ensures var (q, r) := Acquire(p, cancelled, tag);
            && (r == NotGot(ContextDone) <==> cancelled)
            && (r == NotGot(Exhausted) <==> !cancelled && p.available == [])
            && (r.NotGot? ==> q == p && r.error != NotInUse)
            && (r.Got? ==> p.available == q.available + [r.handle] && q.inUse == p.inUse[r.handle := tag])
    ensures var (q, r) := Release(p, cancelled, h);
            && (r == NotReleased(ContextDone) <==> cancelled)
            && (r == NotReleased(NotInUse) <==> !cancelled && h !in p.inUse)
            && (r.NotReleased? ==> q == p && r.error != Exhausted)
            && (r.Done? ==> q.available == p.available + [h] && q.inUse.Keys == p.inUse.Keys - {h})
  {
  }

  // ---- Open ----

  /** The lease of a granted request is the request's, on a window and handles that were free. */
  lemma OpenGrants(s: Store, ctx: Context, now: Time, req: Request, qps: set<Handle>, cqs: set<Handle>)
    requires Books(s, qps, cqs) && Open(s, ctx, now, req).1.Granted?
    ensures var (t, r) := Open(s, ctx, now, req);
            var l := r.session;
            && l.client == req.client && l.peer == req.peer && l.heartbeatMR == req.heartbeatMR
            && l.created == now && l.lastActivity == now && l.expires == req.deadline && l.healthy
            && l.id == s.next + 1 == t.next && l.id !in s.sessions && t.sessions == s.sessions[l.id := l]
            && l.window.n == req.size && l.window.id !in s.slab.leases
            && t.slab.leases == s.slab.leases[l.window.id := SlabSpec.Span(l.window.off, req.size)]
            && l.qp in s.qp.available && t.qp.inUse == s.qp.inUse[l.qp := req.peer]
            && l.cq in s.cq.available && t.cq.inUse == s.cq.inUse[l.cq := true]
            && t.state == s.state
  {
    OpenSucceeds(s, ctx, now, req);
    SlabSpec.FreshID(s.slab, req.size);
    PoolAnswers(s.qp, false, req.peer, "");
    PoolAnswers(s.cq, false, true, "");
    assert s.next + 1 !in s.sessions;
    hide SlabSpec.Valid, Holds, SessionsOk, HandlesMatch, SlabSpec.FirstFit, SlabSpec.Take;
  }

  /** A request is ill-formed: no client name, a negative rank, no room asked for, or no deadline. */
  predicate IllFormed(req: Request) {
    Text.Trim(req.client) == "" || req.peer.rank < 0 || req.size <= 0 || req.deadline == 0
  }

  /** A request names a heartbeat region, and not all of it. */
  predicate BadHeartbeat(req: Request) {
    || req.heartbeat < 0
    || (req.heartbeatMR != HeartbeatMR(0, 0, 0, 0)
        && !(req.heartbeatMR.addr > 0 && req.heartbeatMR.rkey > 0 && req.heartbeatMR.length > 0
             && req.heartbeatMR.epoch > 0))
  }

  /** Nothing is wrong with the request itself. */
  predicate GoodRequest(req: Request, now: Time) { !IllFormed(req) && req.deadline > now && !BadHeartbeat(req) }

  /** Which refusal a request meets; e is any answer of the slab. */
  lemma OpenRefusals(s: Store, ctx: Context, now: Time, req: Request, e: SlabSpec.SlabError)
    ensures var r := Open(s, ctx, now, req).1;
            var here := GoodRequest(req, now) && s.state == 2;
            && (r == Refused(Expired) <==> !IllFormed(req) && req.deadline <= now)
            && (r == Refused(InvalidRequest) <==> IllFormed(req) || (req.deadline > now && BadHeartbeat(req)))
            && (r == Refused(NotReady) <==> GoodRequest(req, now) && s.state != 2)
            && (r == Refused(ContextEnded) <==> here && Cancelled(ctx, 0))
            && (r == Refused(SlabRefused(e)) <==>
                  here && !Cancelled(ctx, 0) && SlabSpec.Alloc(s.slab, req.size).1 == SlabSpec.AllocFailed(e))
            && (r.Refused? ==> !r.error.InvalidState? && !r.error.SessionNotFound?)
  {
    Text.BlankIsTrimmed(req.client);
    hide SlabSpec.Alloc, Text.Blank, Text.Trim;
  }

  /** Once it holds a window, a request is refused exactly for a pool that is empty or a context that ends. */
  lemma PoolRefusals(s: Store, ctx: Context, now: Time, req: Request)
    requires GetsWindow(s, ctx, now, req)
    ensures var r := Open(s, ctx, now, req).1;
            && (r == Refused(PoolRefused(ContextDone)) <==>
                  Cancelled(ctx, 1) || (s.cq.available != [] && Cancelled(ctx, 2)))
            && (r == Refused(PoolRefused(Exhausted)) <==>
                  || (!Cancelled(ctx, 1) && s.cq.available == [])
                  || (!Cancelled(ctx, 2) && s.cq.available != [] && s.qp.available == []))
  {
    hide SlabSpec.Alloc;
    PoolAnswers(s.cq, Cancelled(ctx, 1), true, "");
    PoolAnswers(s.qp, Cancelled(ctx, 2), req.peer, "");
  }

  /** Whether a request takes a completion queue before it is refused. */
  predicate TakesQueue(s: Store, ctx: Context) { s.cq.available != [] && !Cancelled(ctx, 1) }

  /** What a request refused with a window in hand leaves behind: each cleanup fails exactly at its own check. */
  lemma OpenLeavesBehind(s: Store, ctx: Context, now: Time, req: Request, qps: set<Handle>, cqs: set<Handle>)
    requires Books(s, qps, cqs) && GetsWindow(s, ctx, now, req) && Open(s, ctx, now, req).1.Refused?
    ensures var t, w := Open(s, ctx, now, req).0, SlabSpec.Alloc(s.slab, req.size).1.id;
            && (w in t.slab.leases <==> Cancelled(ctx, if TakesQueue(s, ctx) then 4 else 2))
            && (t.cq == s.cq <==> !TakesQueue(s, ctx) || !Cancelled(ctx, 3))
            && t.qp == s.qp
  {
    SlabSpec.AllocAnswers(s.slab, req.size);
    SlabSpec.FreeAnswers(SlabSpec.Alloc(s.slab, req.size).0, SlabSpec.Alloc(s.slab, req.size).1.id);
    PoolAnswers(s.cq, Cancelled(ctx, 1), true, "");
    PoolAnswers(s.qp, Cancelled(ctx, 2), req.peer, "");
    if TakesQueue(s, ctx) {
      AcquireThenRelease(s.cq, true, cqs);
      assert |Acquire(s.cq, false, true).0.available| < |s.cq.available|;
    }
    hide Books, SlabSpec.Alloc, SlabSpec.Free, Acquire, SlabSpec.Valid;
  }

  // ---- Calls on a session ----

  /** The session and the client's claim on it, apart from its times and health. */
  ghost predicate SameLease(a: Session, b: Session) {
    && a.id == b.id && a.client == b.client && a.peer == b.peer && a.window == b.window
    && a.heartbeatMR == b.heartbeatMR && a.qp == b.qp && a.cq == b.cq && a.created == b.created
  }

  /** t is s with session id replaced by l, which was marked active at now. */
  ghost predicate Marked(s: Store, t: Store, id: nat, l: Session, now: Time) {
    && id in s.sessions && SameLease(l, s.sessions[id]) && l.lastActivity == now && l.healthy
    && id in t.sessions && t.sessions[id] == l && t.sessions.Keys == s.sessions.Keys
    && (forall i :: i in s.sessions && i != id ==> t.sessions[i] == s.sessions[i])
    && t.slab == s.slab && t.qp == s.qp && t.cq == s.cq && t.next == s.next && t.state == s.state
  }

  /** A live session of a ready store. */
  predicate LiveAt(s: Store, now: Time, id: nat) {
    id != 0 && s.state == 2 && id in s.sessions && s.sessions[id].expires > now
  }

  lemma RefreshAnswers(s: Store, now: Time, id: nat, deadline: Time)
    ensures var (t, r) := Refresh(s, now, id, deadline);
            var asked := id != 0 && deadline != 0;
            && (r.Granted? <==> asked && deadline > now && LiveAt(s, now, id))
            && (r.Granted? ==> Marked(s, t, id, r.session, now) && r.session.expires == deadline)
            && (r.Refused? ==> t == s)
            && (r == Refused(InvalidRequest) <==> !asked)
            && (r == Refused(NotReady) <==> asked && deadline > now && s.state != 2)
            && (r == Refused(SessionNotFound) <==> asked && deadline > now && s.state == 2 && id !in s.sessions)
            && (r == Refused(Expired) <==>
                  asked && (deadline <= now || (s.state == 2 && id in s.sessions && s.sessions[id].expires <= now)))
  {
  }

  lemma TouchAnswers(s: Store, now: Time, id: nat)
    ensures var (t, r) := Touch(s, now, id);
            && (r.Granted? <==> LiveAt(s, now, id))
            && (r.Granted? ==> Marked(s, t, id, r.session, now) && r.session.expires == s.sessions[id].expires)
            && (r.Refused? ==> t == s)
            && (r == Refused(InvalidRequest) <==> id == 0)
            && (r == Refused(NotReady) <==> id != 0 && s.state != 2)
            && (r == Refused(SessionNotFound) <==> id != 0 && s.state == 2 && id !in s.sessions)
            && (r == Refused(Expired) <==> id != 0 && s.state == 2 && id in s.sessions && s.sessions[id].expires <= now)
  {
  }

  /** A pulse marks every live session active, extends no deadline and leaves expired sessions alone. */
  lemma PulseMarks(s: Store, now: Time, id: nat)
    requires id in s.sessions
    ensures var t := Pulse(s, now);
            && t.sessions.Keys == s.sessions.Keys && SameLease(t.sessions[id], s.sessions[id])
            && t.sessions[id].expires == s.sessions[id].expires
            && (s.sessions[id].expires > now ==> t.sessions[id].lastActivity == now && t.sessions[id].healthy)
            && (s.sessions[id].expires <= now ==> t.sessions[id] == s.sessions[id])
            && t.slab == s.slab && t.qp == s.qp && t.cq == s.cq && t.next == s.next && t.state == s.state
  {
  }

  /** The states are 0 to 4 and only move forward. */
  lemma StateMoves(s: Store, to: nat)
    ensures var (t, ok) := SetState(s, to);
            && (ok <==> s.state <= to <= 4) && t.state == (if ok then to else s.state)
            && t.sessions == s.sessions && t.slab == s.slab && t.qp == s.qp && t.cq == s.cq && t.next == s.next
  {
  }

  // ---- Close ----

  /** A close reports nothing exactly when the session was there and its context lasted three checks. */
  lemma CloseReports(s: Store, ctx: Context, id: nat, qps: set<Handle>, cqs: set<Handle>)
    requires Books(s, qps, cqs)
    ensures var (t, e) := Close(s, ctx, id);
            && (e == [] <==> id in s.sessions && !Cancelled(ctx, 2))
            && (e == [SessionNotFound] <==> id !in s.sessions)
            && (id !in s.sessions ==> t == s) && id !in t.sessions
            && (Cancelled(ctx, 0) && id in s.sessions ==>
                  e == [PoolRefused(ContextDone), PoolRefused(ContextDone), ContextEnded])
  {
    if id in s.sessions && !Cancelled(ctx, 2) {
      ClosedBooks(s, ctx, id, qps, cqs);
    }
    hide Books, SlabSpec.Free;
    if id in s.sessions && Cancelled(ctx, 2) {
      var t := s.(sessions := s.sessions - {id});
      assert FreeWindowError(t.slab, true, s.sessions[id].window.id) == [ContextEnded];
      var e := GiveBackErrors(t, ctx, s.sessions[id]);
      assert e[|e| - 1] == ContextEnded;
    }
  }

  // ---- Reaping ----

  /** Reaping ends exactly the sessions that have expired and leaves the others as they are. */
  lemma ReapEndsExpired(s: Store, now: Time, order: seq<nat>, qps: set<Handle>, cqs: set<Handle>)
    requires Books(s, qps, cqs) && ReapOrder(s, now, order)
    ensures var t := CloseAll(s, Background, order);
            && Books(t, qps, cqs)
            && (forall id :: id in t.sessions <==> id in s.sessions && s.sessions[id].expires > now)
            && (forall id :: id in t.sessions ==> t.sessions[id] == s.sessions[id])
  {
    AllClosed(s, order, qps, cqs);
    hide Books, CloseAll;
  }

  lemma LastingClose(s: Store, ctx: Context, id: nat)
    requires !Cancelled(ctx, 2)
    ensures Close(s, ctx, id).0 == Close(s, Background, id).0
  {
    assert !Cancelled(ctx, 0) && !Cancelled(ctx, 1);
    hide Release, FreeWindow;
  }

  lemma CancelledClose(s: Store, id: nat)
    ensures var t := Close(s, CancelledAfter(0), id).0;
            t.slab == s.slab && t.qp == s.qp && t.cq == s.cq && t.sessions == Close(s, Background, id).0.sessions
  {
    hide SlabSpec.Free;
  }

  lemma {:induction false} LastingReap(s: Store, k: nat, order: seq<nat>)
    requires |order| <= k
    ensures CloseAll(s, CancelledAfter(3 * k), order) == CloseAll(s, Background, order)
    decreases |order|
  {
    hide Close;
    if order != [] {
      var front := order[..|order| - 1];
      LastingReap(s, k, front);
      LastingClose(CloseAll(s, Background, front), CancelledAfter(3 * k - 3 * |front|), order[|order| - 1]);
    }
  }

  /** Each session takes three checks: a context that lasts 3k of them lets the first k go back and leaks the rest. */
  lemma {:induction false} ReapUnderContext(s: Store, k: nat, order: seq<nat>)
    requires k <= |order|
    ensures var t, back := CloseAll(s, CancelledAfter(3 * k), order), CloseAll(s, Background, order[..k]);
            && t.slab == back.slab && t.qp == back.qp && t.cq == back.cq
            && t.sessions == CloseAll(s, Background, order).sessions
    decreases |order|
  {
    hide Close;
    if k == |order| {
      assert order[..k] == order;
      LastingReap(s, k, order);
    } else {
      var front, last := order[..|order| - 1], order[|order| - 1];
      assert front[..k] == order[..k];
      ReapUnderContext(s, k, front);
      CancelledClose(CloseAll(s, CancelledAfter(3 * k), front), last);
      SessionsOfClose(CloseAll(s, CancelledAfter(3 * k), front), CloseAll(s, Background, front), last);
    }
  }

  lemma SessionsOfClose(s: Store, t: Store, id: nat)
    requires s.sessions == t.sessions
    ensures Close(s, Background, id).0.sessions == Close(t, Background, id).0.sessions
  {
    hide SlabSpec.Free, Release;
  }
}
