/**
  What the requests of one connection do (internal/ipc/server.go): they reach what the connection holds
  and nothing of anyone else's, what is granted goes to the one who asked, and every piece of work that
  was submitted is running, finished, or collected.
 */
module ServerRequests {
  import opened Options
  import opened PoolSpec
  import opened StoreSpec
  import opened StoreAnswers
  import opened Server
  import opened ServerRuns
  import SlabSpec

  // ---- Nobody else's ----

  /** The connection on whose behalf an action is; the reaper, the liveness pulse and Accept act for none. */
  function Actor(s: State, a: Action): Option<nat> {
    match a
    case Accept => None
    case Reap(_, _) => None
    case Liveness(_) => None
    case OpenFinish => if s.opening.Some? then Some(s.opening.value.conn) else None
    case _ => Some(a.conn)
  }

  /** Session i is none of c's. */
  predicate Elsewhere(s: State, c: nat, i: nat) { c < |s.conns| && i in s.store.sessions && i !in s.conns[c].sessions }

  lemma CloseLeavesOthers(s: Store, id: nat, i: nat)
    requires i in s.sessions && i != id
    ensures var t := Close(s, Background, id).0; i in t.sessions && t.sessions[i] == s.sessions[i]
  {
    hide SlabSpec.Free, PoolSpec.Release;
  }

  lemma RefreshLeavesOthers(s: Store, read: Time, id: nat, deadline: Time, i: nat)
    requires i in s.sessions && i != id
    ensures var t := Refresh(s, read, id, deadline).0; i in t.sessions && t.sessions[i] == s.sessions[i]
  {
  }

  /** An action of connection c leaves every other connection, and every session that is not c's, as it was. */
  lemma ActsOnOwn(s: State, a: Action, c: nat, i: nat, d: nat, qps: set<Handle>, cqs: set<Handle>)
    requires Inv(s, qps, cqs) && Enabled(s, a) && Actor(s, a) == Some(c) && Elsewhere(s, c, i)
    ensures var t := Effect(s, a); i in t.store.sessions && t.store.sessions[i] == s.store.sessions[i]
    ensures d < |s.conns| && d != c ==> |Effect(s, a).conns| == |s.conns| && Effect(s, a).conns[d] == s.conns[d]
  {
    hide OneOwner, SessionsPlaced, Books, OpenWithWindow, Close, Refresh, SlabSpec.Alloc, SlabSpec.Free, IsWindow;
    match a
    case OpenFinish => FinishLeavesOthers(s, i, qps, cqs);
    case ClientClose(_, id) =>
      if id in s.conns[c].sessions {
        CloseLeavesOthers(s.store, id, i);
      }
    case CloseOne(_, id) => CloseLeavesOthers(s.store, id, i);
    case ClientRefresh(_, id, read, deadline) =>
      if id in s.conns[c].sessions {
        RefreshLeavesOthers(s.store, read, id, deadline, i);
      }
    case _ =>
  }

  lemma FinishLeavesOthers(s: State, i: nat, qps: set<Handle>, cqs: set<Handle>)
    requires Inv(s, qps, cqs) && Enabled(s, OpenFinish) && i in s.store.sessions
    ensures var t := Effect(s, OpenFinish); i in t.store.sessions && t.store.sessions[i] == s.store.sessions[i]
  {
    hide OneOwner, SessionsPlaced, Books, OpenWithWindow, SlabSpec.Free, IsWindow;
    var o := s.opening.value;
    OpeningOwns(s);
    NotAWindow(s, OfOpening, o.window.id);
    if OpenWithWindow(s.store, Background, o.read, o.req, s.store.slab, o.window).1.Granted? {
      FinishGranted(s.store, o.read, o.req, o.window, qps, cqs);
    } else {
      FinishRefused(s.store, o.read, o.req, o.window, qps, cqs);
    }
  }

  /** In every run: no request of a connection changes, extends or ends a session of another. */
  lemma OthersSessionsUntouched(tr: seq<State>, acts: seq<Action>, size: nat, reserve: int, qps: seq<Handle>,
                                cqs: seq<Handle>, x: nat, c: nat, i: nat, d: nat)
    requires Run(tr, acts, size, reserve, qps, cqs) && x < |acts| && Actor(tr[x], acts[x]) == Some(c)
    requires Elsewhere(tr[x], c, i)
    ensures i in tr[x + 1].store.sessions && tr[x + 1].store.sessions[i] == tr[x].store.sessions[i]
    ensures d < |tr[x].conns| && d != c ==> d < |tr[x + 1].conns| && tr[x + 1].conns[d] == tr[x].conns[d]
  {
    hide Inv, Effect, Enabled, Start, Elements, Actor, Elsewhere;
    RunInv(tr, acts, size, reserve, qps, cqs, x);
    ActsOnOwn(tr[x], acts[x], c, i, d, Elements(qps), Elements(cqs));
  }

  // ---- What a request gets ----

  /** An allocation is granted exactly if the bytes are there, to the connection that asked and to no one else. */
  lemma AllocGoesToRequester(s: State, c: nat, n: int, qps: set<Handle>, cqs: set<Handle>)
    requires Inv(s, qps, cqs) && Enabled(s, ClientAlloc(c, n)) && c < |s.conns|
    ensures var t := Effect(s, ClientAlloc(c, n));
            if n > 0 && exists o :: SlabSpec.Fits(s.store.slab, n, o) then
              && |t.conns| == |s.conns|
              && var id := t.store.slab.nextID;
              && id !in s.store.slab.leases && id in t.store.slab.leases && t.store.slab.leases[id].n == n
              && t.conns[c].leases == s.conns[c].leases + {id}
            else t == s
  {
    BooksSlab(s.store, qps, cqs);
    SlabSpec.AllocAnswers(s.store.slab, n);
    hide Inv, SlabSpec.Alloc, SlabSpec.Valid, SlabSpec.Fits;
  }

  /** A free ends exactly a lease the connection holds; any other id changes nothing. */
  lemma FreeEndsOwnLease(s: State, c: nat, id: nat, qps: set<Handle>, cqs: set<Handle>)
    requires Inv(s, qps, cqs) && Enabled(s, ClientFree(c, id)) && c < |s.conns|
    ensures var t := Effect(s, ClientFree(c, id));
            if id in s.conns[c].leases then
              && t.store.slab.leases == s.store.slab.leases - {id}
              && |t.conns| == |s.conns| && t.conns[c].leases == s.conns[c].leases - {id}
            else t == s
  {
    if id in s.conns[c].leases {
      assert Owns(s, OfConn(c), id);
      OwnedIsLive(s, OfConn(c), id);
    }
    BooksSlab(s.store, qps, cqs);
    assert Books(s.store, qps, cqs) && Enabled(s, ClientFree(c, id));
    hide *;
    if id in s.conns[c].leases {
      FreeFacts(s.store.slab, id);
      FreeingIs(s, c, id);
    } else {
      RefusedFree(s, c, id);
    }
  }

  lemma FreeingIs(s: State, c: nat, id: nat)
    requires Enabled(s, ClientFree(c, id)) && c < |s.conns| && id in s.conns[c].leases
    requires SlabSpec.Free(s.store.slab, id).1.Freed?
    ensures var t := Effect(s, ClientFree(c, id));
            && t.store.slab == SlabSpec.Free(s.store.slab, id).0
            && |t.conns| == |s.conns| && t.conns[c].leases == s.conns[c].leases - {id}
  {
    hide SlabSpec.Free;
  }

  lemma RefusedFree(s: State, c: nat, id: nat)
    requires Enabled(s, ClientFree(c, id)) && c < |s.conns| && id !in s.conns[c].leases
    ensures Effect(s, ClientFree(c, id)) == s
  {
    hide SlabSpec.Free;
  }

  /** Closing a session one holds ends it and frees its window, and the connection forgets it. */
  lemma CloseEndsOwnSession(s: State, c: nat, id: nat, qps: set<Handle>, cqs: set<Handle>)
    requires Inv(s, qps, cqs) && Enabled(s, ClientClose(c, id)) && c < |s.conns|
    requires id in s.conns[c].sessions && id in s.store.sessions
    ensures var t := Effect(s, ClientClose(c, id));
            && t.store.sessions == s.store.sessions - {id}
            && |t.conns| == |s.conns| && t.conns[c].sessions == s.conns[c].sessions - {id}
            && t.store.slab.leases == s.store.slab.leases - {s.store.sessions[id].window.id}
  {
    assert Books(s.store, qps, cqs);
    hide *;
    ClosedBooks(s.store, Background, id, qps, cqs);
    ClosingIs(s, c, id);
  }

  lemma ClosingIs(s: State, c: nat, id: nat)
    requires Enabled(s, ClientClose(c, id)) && c < |s.conns| && id in s.conns[c].sessions
    requires Close(s.store, Background, id).1 == []
    ensures var t := Effect(s, ClientClose(c, id));
            && t.store == Close(s.store, Background, id).0
            && |t.conns| == |s.conns| && t.conns[c].sessions == s.conns[c].sessions - {id}
  {
    hide Close;
  }

  /** Refreshing a live session one holds moves its deadline, and nothing else but its activity. */
  lemma RefreshMovesOwnDeadline(s: State, c: nat, id: nat, read: Time, deadline: Time)
    requires Enabled(s, ClientRefresh(c, id, read, deadline))
    ensures var t := Effect(s, ClientRefresh(c, id, read, deadline));
            if id in s.conns[c].sessions && id > 0 && deadline != 0 && deadline > read && LiveAt(s.store, read, id) then
              && id in t.store.sessions && Marked(s.store, t.store, id, t.store.sessions[id], read)
              && t.store.sessions[id].expires == deadline && t.conns == s.conns
            else t == s
  {
    RefreshAnswers(s.store, read, id, deadline);
    hide Refresh;
  }

  /** A session request takes a window of its size first, exactly if it is valid, the store ready and the room there. */
  lemma OpenTakesWindow(s: State, c: nat, read: Time, req: Request, qps: set<Handle>, cqs: set<Handle>)
    requires Inv(s, qps, cqs) && Enabled(s, OpenStart(c, read, req))
    ensures var t := Effect(s, OpenStart(c, read, req));
            if && ValidRequest(req, read) && s.store.state == 2
               && exists o :: SlabSpec.Fits(s.store.slab, req.size, o) then
              && t.opening.Some? && t.conns == s.conns && t.store.sessions == s.store.sessions
              && var w := t.opening.value.window;
              && t.opening.value == Opening(c, read, req, w) && w.n == req.size && w.id !in s.store.slab.leases
              && t.store.slab.leases == s.store.slab.leases[w.id := SlabSpec.Span(w.off, req.size)]
            else t == s
  {
    BooksSlab(s.store, qps, cqs);
    SlabSpec.AllocAnswers(s.store.slab, req.size);
    hide Inv, SlabSpec.Alloc, SlabSpec.Valid, SlabSpec.Fits;
  }

  /** A collective's scratch lease goes to that piece of work. */
  lemma ScratchGoesToWork(s: State, c: nat, k: nat, n: int, qps: set<Handle>, cqs: set<Handle>)
    requires Inv(s, qps, cqs) && Enabled(s, WorkAlloc(c, k, n)) && c < |s.conns|
    ensures var t := Effect(s, WorkAlloc(c, k, n));
            if n > 0 && exists o :: SlabSpec.Fits(s.store.slab, n, o) then
              && |t.conns| == |s.conns| && k in t.conns[c].running && t.conns[c].running[k].Some?
              && var id := t.conns[c].running[k].value;
              && id !in s.store.slab.leases && id in t.store.slab.leases && t.store.slab.leases[id].n == n
            else t == s
  {
    BooksSlab(s.store, qps, cqs);
    SlabSpec.AllocAnswers(s.store.slab, n);
    hide Inv, SlabSpec.Alloc, SlabSpec.Valid, SlabSpec.Fits;
  }

  /** Its release ends that lease and no other. */
  lemma ScratchIsReturned(s: State, c: nat, k: nat, qps: set<Handle>, cqs: set<Handle>)
    requires Inv(s, qps, cqs) && Enabled(s, WorkFree(c, k)) && c < |s.conns| && k in s.conns[c].running
    requires s.conns[c].running[k].Some?
    ensures var t := Effect(s, WorkFree(c, k));
            && |t.conns| == |s.conns| && k in t.conns[c].running && t.conns[c].running[k].None?
            && t.store.slab.leases == s.store.slab.leases - {s.conns[c].running[k].value}
  {
    var id := s.conns[c].running[k].value;
    assert Owns(s, OfWork(c, k), id);
    OwnedIsLive(s, OfWork(c, k), id);
    BooksSlab(s.store, qps, cqs);
    hide *;
    FreeFacts(s.store.slab, id);
    ReturningIs(s, c, k);
  }

  lemma ReturningIs(s: State, c: nat, k: nat)
    requires Enabled(s, WorkFree(c, k)) && c < |s.conns| && k in s.conns[c].running && s.conns[c].running[k].Some?
    ensures var t := Effect(s, WorkFree(c, k));
            && t.store.slab == SlabSpec.Free(s.store.slab, s.conns[c].running[k].value).0
            && |t.conns| == |s.conns| && k in t.conns[c].running && t.conns[c].running[k].None?
  {
    hide SlabSpec.Free;
  }

  /** The session that a request is granted belongs to the connection that asked and is what it asked for. */
  lemma SessionGoesToRequester(s: State, qps: set<Handle>, cqs: set<Handle>)
    requires Inv(s, qps, cqs) && Enabled(s, OpenFinish)
    ensures var t, o, id := Effect(s, OpenFinish), s.opening.value, s.store.next + 1;
            && t.opening.None?
            && if s.store.qp.available != [] && s.store.cq.available != [] then
                 && id !in s.store.sessions && id in t.store.sessions
                 && |t.conns| == |s.conns| && t.conns[o.conn].sessions == s.conns[o.conn].sessions + {id}
                 && t.store.sessions[id].client == o.req.client && t.store.sessions[id].peer == o.req.peer
                 && t.store.sessions[id].heartbeatMR == o.req.heartbeatMR
                 && t.store.sessions[id].expires == o.req.deadline && t.store.sessions[id].created == o.read
                 && t.store.sessions[id].window == o.window && t.store.slab == s.store.slab
               else
                 && t.conns == s.conns && t.store.sessions == s.store.sessions
                 && t.store.slab.leases == s.store.slab.leases - {o.window.id}
  {
    var o := s.opening.value;
    OpeningOwns(s);
    NotAWindow(s, OfOpening, o.window.id);
    BooksSlab(s.store, qps, cqs);
    NextIsNew(s.store.sessions, s.store.next, s.store.slab.leases);
    assert Books(s.store, qps, cqs) && Enabled(s, OpenFinish);
    if s.store.qp.available == [] || s.store.cq.available == [] {
      hide *;
      FinishRefused(s.store, o.read, o.req, o.window, qps, cqs);
      FreeFacts(s.store.slab, o.window.id);
      RefusalIs(s);
    } else {
      hide *;
      GrantIs(s);
    }
  }

  lemma GrantIs(s: State)
    requires Enabled(s, OpenFinish) && s.opening.Some? && s.opening.value.conn < |s.conns|
    requires s.store.qp.available != [] && s.store.cq.available != []
    ensures var t, o, id := Effect(s, OpenFinish), s.opening.value, s.store.next + 1;
            && t.opening.None? && id in t.store.sessions
            && |t.conns| == |s.conns| && t.conns[o.conn].sessions == s.conns[o.conn].sessions + {id}
            && t.store.sessions[id].client == o.req.client && t.store.sessions[id].peer == o.req.peer
            && t.store.sessions[id].heartbeatMR == o.req.heartbeatMR
            && t.store.sessions[id].expires == o.req.deadline && t.store.sessions[id].created == o.read
            && t.store.sessions[id].window == o.window && t.store.slab == s.store.slab
  {
    hide SlabSpec.Free;
  }

  lemma RefusalIs(s: State)
    requires Enabled(s, OpenFinish) && s.opening.Some? && s.opening.value.conn < |s.conns|
    requires var o := s.opening.value;
             OpenWithWindow(s.store, Background, o.read, o.req, s.store.slab, o.window).1.Refused?
    ensures var t, o := Effect(s, OpenFinish), s.opening.value;
            && t.opening.None? && t.conns == s.conns
            && t.store == OpenWithWindow(s.store, Background, o.read, o.req, s.store.slab, o.window).0
  {
    hide OpenWithWindow;
  }

  // ---- Who is served when ----

  /** A connection that is served can always allocate, free, submit and wait; session calls wait for one another. */
  lemma ServingIsServed(s: State, c: nat, id: nat, n: int, k: nat, read: Time, deadline: Time, req: Request)
    requires In(s, c, Serving)
    ensures Enabled(s, ClientAlloc(c, n)) && Enabled(s, ClientFree(c, id)) && Enabled(s, Submit(c))
    ensures Enabled(s, WaitWork(c, k))
    ensures Enabled(s, OpenStart(c, read, req)) <==> s.opening.None?
    ensures Enabled(s, ClientRefresh(c, id, read, deadline)) <==> s.opening.None?
    ensures Enabled(s, ClientClose(c, id)) <==> s.opening.None?
    ensures Enabled(s, Hangup(c)) <==> s.opening.None? || s.opening.value.conn != c
    ensures Enabled(s, Liveness(read)) <==> s.opening.None?
  {
  }

  /** A new connection is served and holds nothing; the others are as they were. */
  lemma AcceptServes(s: State)
    ensures Enabled(s, Accept)
    ensures var t, c := Effect(s, Accept), |s.conns|;
            && |t.conns| == c + 1 && t.conns[..c] == s.conns && t.store == s.store
            && In(t, c, Serving) && HoldsNothing(t.conns[c]) && t.conns[c].done == {}
  {
  }

  /** The reaper ends every session that had expired when it looked and no other; the pulse marks the live ones. */
  lemma ReaperEndsExpired(s: State, a: Action, id: nat, qps: set<Handle>, cqs: set<Handle>)
    requires Inv(s, qps, cqs) && Enabled(s, a) && (a.Reap? || a.Liveness?) && id in s.store.sessions
    ensures var t := Effect(s, a);
            && t.conns == s.conns
            && (a.Reap? ==> (id in t.store.sessions <==> s.store.sessions[id].expires > a.read))
            && (a.Liveness? ==>
                  && id in t.store.sessions && t.store.sessions[id].expires == s.store.sessions[id].expires
                  && (s.store.sessions[id].expires > a.read ==> t.store.sessions[id].lastActivity == a.read))
  {
    hide OneOwner, SessionsPlaced, Books, CloseAll, Pulse;
    match a
    case Reap(read, order) => ReapEndsExpired(s.store, read, order, qps, cqs);
    case Liveness(read) => PulseMarks(s.store, read, id);
  }

  /** What is left of a connection that is going away: phases to pass, leases and sessions to give back. */
  function Remaining(c: Conn): (nat, nat) {
    (match c.phase case Serving => 4 case Stopping => 3 case Freeing => 2 case Closing => 1 case Ended => 0,
     |c.leases| + |c.sessions|)
  }

  /** One is further along than the other. */
  predicate Closer(b: (nat, nat), a: (nat, nat)) { b.0 < a.0 || (b.0 == a.0 && b.1 < a.1) }

  /**
    A connection can hang up, and once its work is over it gets on with its teardown, whenever no session
    request is under way; so it ends.
   */
  lemma TeardownGoesOn(s: State, c: nat) returns (a: Action)
    requires c < |s.conns| && !s.conns[c].phase.Ended? && s.opening.None?
    requires s.conns[c].phase.Serving? || s.conns[c].running == map[]
    ensures Enabled(s, a) && c < |Effect(s, a).conns|
    ensures Closer(Remaining(Effect(s, a).conns[c]), Remaining(s.conns[c]))
  {
    hide Remaining, Closer, Effect;
    var me := s.conns[c];
    match me.phase
    case Serving =>
      a := Hangup(c);
      PhasePasses(s, c, a);
    case Stopping =>
      a := WorkStopped(c);
      PhasePasses(s, c, a);
    case Freeing =>
      if me.leases == {} {
        a := AllFreed(c);
        PhasePasses(s, c, a);
      } else {
        var id :| id in me.leases;
        a := FreeOne(c, id);
        LeaseGoes(s, c, id);
      }
    case Closing =>
      if me.sessions == {} {
        a := AllClosed(c);
        PhasePasses(s, c, a);
      } else {
        var id :| id in me.sessions;
        a := CloseOne(c, id);
        SessionGoes(s, c, id);
      }
  }

  lemma PhasePasses(s: State, c: nat, a: Action)
    requires Enabled(s, a) && c < |s.conns|
    requires a == Hangup(c) || a == WorkStopped(c) || a == AllFreed(c) || a == AllClosed(c)
    ensures c < |Effect(s, a).conns| && Closer(Remaining(Effect(s, a).conns[c]), Remaining(s.conns[c]))
  {
  }

  lemma LeaseGoes(s: State, c: nat, id: nat)
    requires Enabled(s, FreeOne(c, id)) && c < |s.conns| && id in s.conns[c].leases
    ensures var t := Effect(s, FreeOne(c, id));
            c < |t.conns| && Closer(Remaining(t.conns[c]), Remaining(s.conns[c]))
  {
    hide SlabSpec.Free;
    assert |s.conns[c].leases - {id}| < |s.conns[c].leases|;
  }

  lemma SessionGoes(s: State, c: nat, id: nat)
    requires Enabled(s, CloseOne(c, id)) && c < |s.conns| && id in s.conns[c].sessions
    ensures var t := Effect(s, CloseOne(c, id));
            c < |t.conns| && Closer(Remaining(t.conns[c]), Remaining(s.conns[c]))
  {
    hide Close;
    assert |s.conns[c].sessions - {id}| < |s.conns[c].sessions|;
  }

  /** Running work of any connection can always go on: take its scratch, give it back, or finish. */
  lemma WorkGoesOn(s: State, c: nat, k: nat, n: int)
    requires c < |s.conns| && k in s.conns[c].running
    ensures if s.conns[c].running[k].None? then Enabled(s, WorkAlloc(c, k, n)) && Enabled(s, WorkDone(c, k))
            else Enabled(s, WorkFree(c, k))
    ensures Enabled(s, WorkDone(c, k)) ==>
              var t := Effect(s, WorkDone(c, k));
              |t.conns| == |s.conns| && k !in t.conns[c].running && k in t.conns[c].done
  {
  }

  // ---- Work ----

  /** Work numbers of a connection are handed out once. */
  ghost predicate WorkOk(c: Conn) {
    && (forall k :: k in c.running ==> 0 < k <= c.nextWork)
    && (forall k :: k in c.done ==> 0 < k <= c.nextWork && k !in c.running)
  }

  lemma StepWork(s: State, a: Action, c: nat)
    requires Enabled(s, a) && c < |s.conns| && WorkOk(s.conns[c])
    ensures var t := Effect(s, a);
            c < |t.conns| && WorkOk(t.conns[c]) && s.conns[c].nextWork <= t.conns[c].nextWork
  {
    hide SlabSpec.Alloc, SlabSpec.Free, Close, CloseAll, Refresh, Pulse, OpenWithWindow;
  }

  lemma NewConnections(s: State, a: Action, c: nat)
    requires Enabled(s, a) && |s.conns| <= c < |Effect(s, a).conns|
    ensures WorkOk(Effect(s, a).conns[c])
  {
    hide SlabSpec.Alloc, SlabSpec.Free, Close, CloseAll, Refresh, Pulse, OpenWithWindow;
  }

  lemma {:induction false} RunWork(tr: seq<State>, acts: seq<Action>, size: nat, reserve: int, qps: seq<Handle>,
                                   cqs: seq<Handle>, i: nat, c: nat)
    requires Run(tr, acts, size, reserve, qps, cqs) && i < |tr| && c < |tr[i].conns|
    ensures WorkOk(tr[i].conns[c])
  {
    hide WorkOk, Effect, Enabled;
    if i > 0 {
      if c < |tr[i - 1].conns| {
        RunWork(tr, acts, size, reserve, qps, cqs, i - 1, c);
        StepWork(tr[i - 1], acts[i - 1], c);
      } else {
        NewConnections(tr[i - 1], acts[i - 1], c);
      }
    }
  }

  /** A submission starts work under a number that the connection has never used. */
  lemma SubmitStarts(tr: seq<State>, acts: seq<Action>, size: nat, reserve: int, qps: seq<Handle>,
                     cqs: seq<Handle>, i: nat, c: nat)
    requires Run(tr, acts, size, reserve, qps, cqs) && i < |acts| && acts[i] == Submit(c)
    ensures c < |tr[i].conns| && c < |tr[i + 1].conns|
    ensures var k := tr[i + 1].conns[c].nextWork;
            && tr[i].conns[c].nextWork < k && k in tr[i + 1].conns[c].running && tr[i + 1].conns[c].running[k].None?
            && k !in tr[i].conns[c].running && k !in tr[i].conns[c].done
  {
    RunWork(tr, acts, size, reserve, qps, cqs, i, c);
  }

  /** Work k of c was collected by a wait at some step in i..j. */
  ghost predicate Collected(tr: seq<State>, acts: seq<Action>, i: nat, j: nat, c: nat, k: nat) {
    exists x :: i <= x < j && x < |acts| && x < |tr| && acts[x] == WaitWork(c, k)
                && c < |tr[x].conns| && k in tr[x].conns[c].done
  }

  lemma WorkMoves(s: State, a: Action, c: nat, k: nat)
    requires Enabled(s, a) && c < |s.conns| && (k in s.conns[c].running || k in s.conns[c].done)
    ensures var t := Effect(s, a);
            && c < |t.conns|
            && (k in t.conns[c].running || k in t.conns[c].done || (a == WaitWork(c, k) && k in s.conns[c].done))
  {
    hide SlabSpec.Alloc, SlabSpec.Free, Close, CloseAll, Refresh, Pulse, OpenWithWindow;
  }

  /** In every run, work that was started is running, or finished, or a wait has collected it. */
  lemma {:induction false} WorkIsAccountedFor(tr: seq<State>, acts: seq<Action>, size: nat, reserve: int,
                                              qps: seq<Handle>, cqs: seq<Handle>, i: nat, j: nat, c: nat, k: nat)
    requires Run(tr, acts, size, reserve, qps, cqs) && i <= j < |tr| && c < |tr[i].conns| && k in tr[i].conns[c].running
    ensures c < |tr[j].conns|
    ensures k in tr[j].conns[c].running || k in tr[j].conns[c].done || Collected(tr, acts, i, j, c, k)
    decreases j
  {
    hide Effect, Enabled, Start;
    if i < j {
      WorkIsAccountedFor(tr, acts, size, reserve, qps, cqs, i, j - 1, c, k);
      if k in tr[j - 1].conns[c].running || k in tr[j - 1].conns[c].done {
        WorkMoves(tr[j - 1], acts[j - 1], c, k);
      } else {
        StepKeepsConns(tr[j - 1], acts[j - 1]);
      }
    }
  }

  lemma StepKeepsConns(s: State, a: Action)
    requires Enabled(s, a)
    ensures |s.conns| <= |Effect(s, a).conns|
  {
    hide SlabSpec.Alloc, SlabSpec.Free, Close, CloseAll, Refresh, Pulse, OpenWithWindow;
  }

  /** A wait answers ready exactly for finished work, and then forgets it; work that runs goes on running. */
  lemma WaitCollects(s: State, c: nat, k: nat)
    requires Enabled(s, WaitWork(c, k))
    ensures var t := Effect(s, WaitWork(c, k));
            && k !in t.conns[c].done && t.conns[c].running == s.conns[c].running && t.store == s.store
            && (k !in s.conns[c].done ==> t == s)
            && forall x :: x != k ==> (x in t.conns[c].done <==> x in s.conns[c].done)
  {
    if k !in s.conns[c].done {
      assert s.conns[c].done - {k} == s.conns[c].done;
      assert s.conns[c := s.conns[c]] == s.conns;
    }
  }
}
