/**
  The daemon's control server (internal/ipc/server.go) as a step system over its connections:
  leases, sessions and asynchronous work per connection, the session store they share, and the
  maintenance reserve taken at start-up (cmd/jaccld/main.go).

  A store operation holds the store's mutex, but not the slab's, from start to finish, so an
  open session request is two steps with other slab users in between. Everything else one
  connection does between two slab calls touches only its own maps.
 */
module Server {
  import opened Options
  import opened PoolSpec
  import opened StoreSpec
  import SlabSpec

  /** Serving requests; then, once the peer hung up: waiting for work, freeing leases, closing sessions, done. */
  datatype Phase = Serving | Stopping | Freeing | Closing | Ended

  /** running maps each unfinished work to the scratch lease it holds, if any. */
  datatype Conn = Conn(leases: set<nat>, sessions: set<nat>, nextWork: nat, running: map<nat, Option<nat>>,
      done: set<nat>, phase: Phase)

  /** A session request that holds its window and the store's mutex. */
  datatype Opening = Opening(conn: nat, read: Time, req: Request, window: Window)

  datatype State = State(store: Store, conns: seq<Conn>, reserve: Option<nat>, opening: Option<Opening>)

  datatype Owner = OfConn(conn: nat) | OfSession(session: nat) | OfReserve | OfWork(conn: nat, work: nat) | OfOpening

  datatype Action =
    | Accept
    | ClientAlloc(conn: nat, n: int)
    | ClientFree(conn: nat, id: nat)
    | OpenStart(conn: nat, read: Time, req: Request)
    | OpenFinish
    | ClientRefresh(conn: nat, id: nat, read: Time, deadline: Time)
    | ClientClose(conn: nat, id: nat)
    | Submit(conn: nat)
    | WorkAlloc(conn: nat, work: nat, n: int)
    | WorkFree(conn: nat, work: nat)
    | WorkDone(conn: nat, work: nat)
    | WaitWork(conn: nat, work: nat)
    | Hangup(conn: nat)
    | WorkStopped(conn: nat)
    | FreeOne(conn: nat, id: nat)
    | AllFreed(conn: nat)
    | CloseOne(conn: nat, id: nat)
    | AllClosed(conn: nat)
    | Reap(read: Time, order: seq<nat>)
    | Liveness(read: Time)

  predicate In(s: State, c: nat, phase: Phase) { c < |s.conns| && s.conns[c].phase == phase }

  ghost predicate Enabled(s: State, a: Action) {
    match a
    case Accept => true
    case ClientAlloc(c, _) => In(s, c, Serving)
    case ClientFree(c, _) => In(s, c, Serving)
    case OpenStart(c, read, req) => In(s, c, Serving) && s.opening.None?
    case OpenFinish => s.opening.Some? && s.opening.value.conn < |s.conns|
    case ClientRefresh(c, _, _, _) => In(s, c, Serving) && s.opening.None?
    case ClientClose(c, _) => In(s, c, Serving) && s.opening.None?
    case Submit(c) => In(s, c, Serving)
    case WorkAlloc(c, k, _) => c < |s.conns| && k in s.conns[c].running && s.conns[c].running[k].None?
    case WorkFree(c, k) => c < |s.conns| && k in s.conns[c].running && s.conns[c].running[k].Some?
    case WorkDone(c, k) => c < |s.conns| && k in s.conns[c].running && s.conns[c].running[k].None?
    case WaitWork(c, _) => In(s, c, Serving)
    case Hangup(c) => In(s, c, Serving) && (s.opening.Some? ==> s.opening.value.conn != c)
    case WorkStopped(c) => In(s, c, Stopping) && s.conns[c].running == map[]
    case FreeOne(c, id) => In(s, c, Freeing) && id in s.conns[c].leases
    case AllFreed(c) => In(s, c, Freeing) && s.conns[c].leases == {}
    case CloseOne(c, id) => In(s, c, Closing) && id in s.conns[c].sessions && s.opening.None?
    case AllClosed(c) => In(s, c, Closing) && s.conns[c].sessions == {}
    case Reap(read, order) => s.opening.None? && ReapOrder(s.store, read, order)
    case Liveness(_) => s.opening.None?
  }

  function With(s: State, c: nat, conn: Conn): State
    requires c < |s.conns|
  {
    s.(conns := s.conns[c := conn])
  }

  function WithSlab(s: State, slab: SlabSpec.Slab): State { s.(store := s.store.(slab := slab)) }

  ghost function Effect(s: State, a: Action): State
    requires Enabled(s, a)
  {
    match a
    case Accept => s.(conns := s.conns + [Conn({}, {}, 0, map[], {}, Serving)])
    case ClientAlloc(c, n) =>
      var (slab, r) := SlabSpec.Alloc(s.store.slab, n);
      if r.AllocFailed? then s else With(WithSlab(s, slab), c, s.conns[c].(leases := s.conns[c].leases + {r.id}))
    case ClientFree(c, id) =>
      if id !in s.conns[c].leases || SlabSpec.Free(s.store.slab, id).1.FreeFailed? then s else Release(s, c, id)
    case OpenStart(c, read, req) =>
      var (slab, r) := SlabSpec.Alloc(s.store.slab, req.size);
      if !ValidRequest(req, read) || s.store.state != Ready || r.AllocFailed? then s
      else WithSlab(s, slab).(opening := Some(Opening(c, read, req, Window(r.id, r.off, r.n))))
    case OpenFinish =>
      var o := s.opening.value;
      var (store, r) := OpenWithWindow(s.store, Background, o.read, o.req, s.store.slab, o.window);
      var t := s.(store := store, opening := None);
      if r.Refused? then t else With(t, o.conn, s.conns[o.conn].(sessions := s.conns[o.conn].sessions + {r.session.id}))
    case ClientRefresh(c, id, read, deadline) =>
      if id !in s.conns[c].sessions then s else s.(store := Refresh(s.store, read, id, deadline).0)
    case ClientClose(c, id) =>
      if id !in s.conns[c].sessions then s
      else
        var (store, e) := Close(s.store, Background, id);
        var t := s.(store := store);
        if e != [] then t else With(t, c, s.conns[c].(sessions := s.conns[c].sessions - {id}))
    case Submit(c) =>
      var k := s.conns[c].nextWork + 1;
      With(s, c, s.conns[c].(nextWork := k, running := s.conns[c].running[k := None]))
    case WorkAlloc(c, k, n) =>
      var (slab, r) := SlabSpec.Alloc(s.store.slab, n);
      if r.AllocFailed? then s
      else With(WithSlab(s, slab), c, s.conns[c].(running := s.conns[c].running[k := Some(r.id)]))
    case WorkFree(c, k) =>
      With(WithSlab(s, SlabSpec.Free(s.store.slab, s.conns[c].running[k].value).0), c,
           s.conns[c].(running := s.conns[c].running[k := None]))
    case WorkDone(c, k) =>
      With(s, c, s.conns[c].(running := s.conns[c].running - {k}, done := s.conns[c].done + {k}))
    case WaitWork(c, k) => With(s, c, s.conns[c].(done := s.conns[c].done - {k}))
    case Hangup(c) => With(s, c, s.conns[c].(phase := Stopping))
    case WorkStopped(c) => With(s, c, s.conns[c].(phase := Freeing))
    case FreeOne(c, id) => Release(s, c, id)
    case AllFreed(c) => With(s, c, s.conns[c].(phase := Closing))
    case CloseOne(c, id) =>
      With(s.(store := Close(s.store, Background, id).0), c, s.conns[c].(sessions := s.conns[c].sessions - {id}))
    case AllClosed(c) => With(s, c, s.conns[c].(phase := Ended))
    case Reap(read, order) => s.(store := CloseAll(s.store, Background, order))
    case Liveness(read) => s.(store := Pulse(s.store, read))
  }

  /** Connection c gives lease id back to the slab and forgets it. */
  function Release(s: State, c: nat, id: nat): State
    requires c < |s.conns|
  {
    With(WithSlab(s, SlabSpec.Free(s.store.slab, id).0), c, s.conns[c].(leases := s.conns[c].leases - {id}))
  }

  // ---- Ownership ----

  ghost predicate Owns(s: State, o: Owner, id: nat) {
    match o
    case OfConn(c) => c < |s.conns| && id in s.conns[c].leases
    case OfSession(i) => i in s.store.sessions && s.store.sessions[i].window.id == id
    case OfReserve => s.reserve == Some(id)
    case OfWork(c, k) => c < |s.conns| && k in s.conns[c].running && s.conns[c].running[k] == Some(id)
    case OfOpening => s.opening.Some? && s.opening.value.window.id == id
  }

  /** Every live slab lease has exactly one owner, and nobody owns anything else. */
  ghost predicate OneOwner(s: State) {
    && (forall id :: id in s.store.slab.leases ==> exists o :: Owns(s, o, id))
    && (forall o, id :: Owns(s, o, id) ==> id in s.store.slab.leases)
    && (forall o, p, id :: Owns(s, o, id) && Owns(s, p, id) ==> o == p)
  }

  /** Every live session belongs to one connection that has not ended; issued ids stay below the counter. */
  ghost predicate SessionsPlaced(s: State) {
    && (forall i :: i in s.store.sessions ==> exists c: nat :: c < |s.conns| && i in s.conns[c].sessions)
    && (forall c: nat, i :: c < |s.conns| && i in s.conns[c].sessions ==> i <= s.store.next)
    && (forall c: nat, d: nat, i :: c < |s.conns| && d < |s.conns| && i in s.conns[c].sessions ==>
          i in s.conns[d].sessions ==> c == d)
  }

  /** What a connection can still hold in each phase of its teardown. */
  ghost predicate PhaseOk(c: Conn) {
    && (forall k :: k in c.running ==> k <= c.nextWork)
    && (c.phase in {Freeing, Closing, Ended} ==> c.running == map[])
    && (c.phase in {Closing, Ended} ==> c.leases == {})
    && (c.phase.Ended? ==> c.sessions == {})
  }

  ghost predicate PhasesOk(s: State) {
    && (forall c :: 0 <= c < |s.conns| ==> PhaseOk(s.conns[c]))
    && (s.opening.Some? ==> In(s, s.opening.value.conn, Serving))
  }

  /** The window of the request being opened is a live lease of the size asked for. */
  ghost predicate OpeningOk(s: State) {
    s.opening.Some? ==>
      var w := s.opening.value.window;
      w.id in s.store.slab.leases && s.store.slab.leases[w.id] == SlabSpec.Span(w.off, w.n)
  }

  ghost predicate Inv(s: State, qps: set<Handle>, cqs: set<Handle>) {
    Books(s.store, qps, cqs) && OneOwner(s) && SessionsPlaced(s) && PhasesOk(s) && OpeningOk(s)
  }

  /** A new owner for a lease that was not live. */
  lemma OwnerAdded(s: State, t: State, o: Owner, id: nat)
    requires OneOwner(s) && id !in s.store.slab.leases
    requires forall x :: x in t.store.slab.leases <==> x in s.store.slab.leases || x == id
    requires forall p, x :: Owns(t, p, x) <==> Owns(s, p, x) || (p == o && x == id)
    ensures OneOwner(t)
  {
    hide Owns;
    assert Owns(t, o, id);
  }

  /** A lease released by its owner. */
  lemma OwnerDropped(s: State, t: State, o: Owner, id: nat)
    requires OneOwner(s) && Owns(s, o, id)
    requires forall x :: x in t.store.slab.leases <==> x in s.store.slab.leases && x != id
    requires forall p, x :: Owns(t, p, x) <==> Owns(s, p, x) && !(p == o && x == id)
    ensures OneOwner(t)
  {
    hide Owns;
  }

  lemma OwnersSame(s: State, t: State)
    requires OneOwner(s)
    requires forall x :: x in t.store.slab.leases <==> x in s.store.slab.leases
    requires forall p, x :: Owns(t, p, x) <==> Owns(s, p, x)
    ensures OneOwner(t)
  {
    hide Owns;
  }

  /** A lease handed from one owner to another. */
  lemma OwnerMoved(s: State, t: State, o: Owner, q: Owner, id: nat)
    requires OneOwner(s) && Owns(s, o, id)
    requires forall x :: x in t.store.slab.leases <==> x in s.store.slab.leases
    requires forall p, x :: Owns(t, p, x) <==> (Owns(s, p, x) && !(p == o && x == id)) || (p == q && x == id)
    ensures OneOwner(t)
  {
    hide Owns;
    assert Owns(t, q, id);
  }
}
