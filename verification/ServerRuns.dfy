/**
  Every run of the control server: each live slab lease has exactly one owner, only that owner
  releases it, and a connection that has ended has released everything it held.
 */
module ServerRuns {
  import opened Options
  import opened PoolSpec
  import opened StoreSpec
  import opened Server
  import SlabSpec
  import StoreRuns

  // ---- The slab ----

  lemma AllocFacts(slab: SlabSpec.Slab, n: int)
    requires SlabSpec.Valid(slab)
    ensures var (t, r) := SlabSpec.Alloc(slab, n);
            if r.AllocFailed? then t == slab
            else
              && SlabSpec.Valid(t) && t.closed == slab.closed && t.nextID >= slab.nextID && r.id > slab.nextID
              && r.id !in slab.leases && t.leases == slab.leases[r.id := SlabSpec.Span(r.off, r.n)]
  {
    hide *;
    SlabSpec.AllocKeepsValid(slab, n);
    if SlabSpec.Alloc(slab, n).1.Leased? {
      SlabSpec.FreshID(slab, n);
    }
    AllocParts(slab, n);
  }

  lemma AllocParts(slab: SlabSpec.Slab, n: int)
    ensures var (t, r) := SlabSpec.Alloc(slab, n);
            if r.AllocFailed? then t == slab
            else
              && t.closed == slab.closed && t.nextID == slab.nextID + 1 == r.id
              && t.leases == slab.leases[r.id := SlabSpec.Span(r.off, r.n)]
  {
    hide SlabSpec.FirstFit, SlabSpec.Take;
  }

  lemma FreeFacts(slab: SlabSpec.Slab, id: nat)
    requires SlabSpec.Valid(slab) && !slab.closed && id in slab.leases
    ensures var (t, r) := SlabSpec.Free(slab, id);
            && r.Freed? && SlabSpec.Valid(t) && !t.closed && t.nextID == slab.nextID && t.leases == slab.leases - {id}
  {
    SlabSpec.FreeKeepsValid(slab, id);
    hide SlabSpec.Valid, SlabSpec.Merge, SlabSpec.Insert;
  }

  lemma BooksSlab(s: Store, qps: set<Handle>, cqs: set<Handle>)
    requires Books(s, qps, cqs)
    ensures SlabSpec.Valid(s.slab) && !s.slab.closed
  {
  }

  /** A new slab lease belongs to no session. */
  lemma AllocBooks(s: Store, n: int, qps: set<Handle>, cqs: set<Handle>)
    requires Books(s, qps, cqs)
    ensures Books(s.(slab := SlabSpec.Alloc(s.slab, n).0), qps, cqs)
  {
    hide Books, SlabSpec.Alloc, SlabSpec.Valid;
    BooksSlab(s, qps, cqs);
    AllocFacts(s.slab, n);
    StoreRuns.SlabBooks(s, s.(slab := SlabSpec.Alloc(s.slab, n).0), qps, cqs);
  }

  lemma FreeBooks(s: Store, id: nat, qps: set<Handle>, cqs: set<Handle>)
    requires Books(s, qps, cqs) && id in s.slab.leases && !IsWindow(s.sessions, id)
    ensures Books(s.(slab := SlabSpec.Free(s.slab, id).0), qps, cqs)
  {
    hide Books, SlabSpec.Free, SlabSpec.Valid;
    BooksSlab(s, qps, cqs);
    FreeFacts(s.slab, id);
    StoreRuns.SlabBooks(s, s.(slab := SlabSpec.Free(s.slab, id).0), qps, cqs);
  }

  // ---- Ownership ----

  /** What replacing one connection does to ownership. */
  lemma OwnsWith(s: State, t: State, c: nat, p: Owner, x: nat)
    requires c < |s.conns| == |t.conns| && t.conns == s.conns[c := t.conns[c]]
    requires t.store.sessions == s.store.sessions && t.reserve == s.reserve && t.opening == s.opening
    ensures Owns(t, p, x) <==>
              if p == OfConn(c) then x in t.conns[c].leases
              else if p.OfWork? && p.conn == c then
                p.work in t.conns[c].running && t.conns[c].running[p.work] == Some(x)
              else Owns(s, p, x)
    ensures p == OfConn(c) ==> (Owns(s, p, x) <==> x in s.conns[c].leases)
    ensures p.OfWork? && p.conn == c ==>
              (Owns(s, p, x) <==> p.work in s.conns[c].running && s.conns[c].running[p.work] == Some(x))
  {
  }

  /** A lease that a session does not own is no session's window. */
  lemma NotAWindow(s: State, o: Owner, id: nat)
    requires OneOwner(s) && Owns(s, o, id) && !o.OfSession?
    ensures !IsWindow(s.store.sessions, id) && id in s.store.slab.leases
  {
    if IsWindow(s.store.sessions, id) {
      var i :| i in s.store.sessions && s.store.sessions[i].window.id == id;
      assert Owns(s, OfSession(i), id);
    }
  }

  /** The two parts of the invariant that talk about the slab and the store. */
  ghost predicate Accounts(s: State, qps: set<Handle>, cqs: set<Handle>) {
    Books(s.store, qps, cqs) && OneOwner(s) && OpeningOk(s)
  }

  /** A successful allocation by owner o. */
  lemma GrantAccounts(s: State, t: State, n: int, o: Owner, qps: set<Handle>, cqs: set<Handle>)
    requires Accounts(s, qps, cqs) && SlabSpec.Alloc(s.store.slab, n).1.Leased?
    requires t.store == s.store.(slab := SlabSpec.Alloc(s.store.slab, n).0)
    requires var r := SlabSpec.Alloc(s.store.slab, n).1;
             && (forall p, x :: Owns(t, p, x) <==> Owns(s, p, x) || (p == o && x == r.id))
             && (t.opening == s.opening || (t.opening.Some? && t.opening.value.window == Window(r.id, r.off, r.n)))
    ensures Accounts(t, qps, cqs)
  {
    hide Books, SlabSpec.Alloc, SlabSpec.Valid, Owns, OneOwner;
    BooksSlab(s.store, qps, cqs);
    AllocBooks(s.store, n, qps, cqs);
    AllocFacts(s.store.slab, n);
    OwnerAdded(s, t, o, SlabSpec.Alloc(s.store.slab, n).1.id);
  }

  /** A release by owner o. */
  lemma GiveAccounts(s: State, t: State, o: Owner, id: nat, qps: set<Handle>, cqs: set<Handle>)
    requires Accounts(s, qps, cqs) && Owns(s, o, id) && !o.OfSession?
    requires t.store == s.store.(slab := SlabSpec.Free(s.store.slab, id).0)
    requires forall p, x :: Owns(t, p, x) <==> Owns(s, p, x) && !(p == o && x == id)
    requires t.opening == s.opening || t.opening.None?
    requires o.OfOpening? ==> t.opening.None?
    ensures Accounts(t, qps, cqs)
  {
    hide Books, SlabSpec.Free, SlabSpec.Valid, IsWindow;
    NotAWindow(s, o, id);
    assert t.opening.Some? ==> Owns(s, OfOpening, t.opening.value.window.id);
    assert t.opening.Some? ==> t.opening.value.window.id != id;
    hide Owns, OneOwner;
    BooksSlab(s.store, qps, cqs);
    FreeBooks(s.store, id, qps, cqs);
    FreeFacts(s.store.slab, id);
    OwnerDropped(s, t, o, id);
  }

  lemma AllocsAccounts(s: State, a: Action, qps: set<Handle>, cqs: set<Handle>)
    requires Accounts(s, qps, cqs) && Enabled(s, a) && (a.ClientAlloc? || a.WorkAlloc?)
    ensures Accounts(Effect(s, a), qps, cqs)
  {
    hide Accounts, SlabSpec.Alloc, Owns;
    var t, r := Effect(s, a), SlabSpec.Alloc(s.store.slab, a.n).1;
    var o := if a.ClientAlloc? then OfConn(a.conn) else OfWork(a.conn, a.work);
    if r.Leased? {
      forall p, x
        ensures Owns(t, p, x) <==> Owns(s, p, x) || (p == o && x == r.id)
      {
        OwnsWith(s, t, a.conn, p, x);
      }
      GrantAccounts(s, t, a.n, o, qps, cqs);
    }
  }

  lemma FreesAccounts(s: State, a: Action, qps: set<Handle>, cqs: set<Handle>)
    requires Accounts(s, qps, cqs) && Enabled(s, a) && (a.ClientFree? || a.FreeOne? || a.WorkFree?)
    ensures Accounts(Effect(s, a), qps, cqs)
  {
    hide Accounts, SlabSpec.Free, Owns;
    var t := Effect(s, a);
    if t != s {
      var o := if a.WorkFree? then OfWork(a.conn, a.work) else OfConn(a.conn);
      var id := if a.WorkFree? then s.conns[a.conn].running[a.work].value else a.id;
      OwnsWith(s, t, a.conn, o, id);
      forall p, x
        ensures Owns(t, p, x) <==> Owns(s, p, x) && !(p == o && x == id)
      {
        OwnsWith(s, t, a.conn, p, x);
      }
      GiveAccounts(s, t, o, id, qps, cqs);
    }
  }

  lemma OpenStartAccounts(s: State, a: Action, qps: set<Handle>, cqs: set<Handle>)
    requires Accounts(s, qps, cqs) && Enabled(s, a) && a.OpenStart?
    ensures Accounts(Effect(s, a), qps, cqs)
  {
    hide Accounts, SlabSpec.Alloc;
    var t, r := Effect(s, a), SlabSpec.Alloc(s.store.slab, a.req.size).1;
    if t != s {
      forall p, x
        ensures Owns(t, p, x) <==> Owns(s, p, x) || (p == OfOpening && x == r.id)
      {
      }
      hide Owns;
      GrantAccounts(s, t, a.req.size, OfOpening, qps, cqs);
    }
  }

  // ---- Store operations ----

  /** Finishing an open request that gets its handles. */
  lemma FinishGranted(s: Store, read: Time, req: Request, w: Window, qps: set<Handle>, cqs: set<Handle>)
    requires Books(s, qps, cqs) && !IsWindow(s.sessions, w.id)
    requires w.id in s.slab.leases && s.slab.leases[w.id] == SlabSpec.Span(w.off, w.n)
    requires OpenWithWindow(s, Background, read, req, s.slab, w).1.Granted?
    ensures var (t, r) := OpenWithWindow(s, Background, read, req, s.slab, w);
            && Books(t, qps, cqs) && t.slab == s.slab && t.next == s.next + 1 == r.session.id
            && r.session.id !in s.sessions
            && r.session.window == w && t.sessions == s.sessions[r.session.id := r.session]
  {
    var (t, r) := OpenWithWindow(s, Background, read, req, s.slab, w);
    AcquireKeeps(s.cq, false, true, cqs);
    AcquireKeeps(s.qp, false, req.peer, qps);
    var before := s.(slab := s.slab.(leases := s.slab.leases - {w.id}));
    WithoutWindow(s, w.id);
    NextIsNew(s.sessions, s.next, s.slab.leases);
    hide SlabSpec.Valid, SessionsOk, HandlesMatch, Holds, IsWindow, Foreign;
    assert t.slab.leases == before.slab.leases[w.id := SlabSpec.Span(w.off, w.n)];
    AddedSession(before, t, r.session, req.peer);
  }

  lemma WithoutWindow(s: Store, w: nat)
    requires SessionsOk(s.sessions, s.next, s.slab.leases) && !IsWindow(s.sessions, w)
    ensures SessionsOk(s.sessions, s.next, s.slab.leases - {w})
  {
    hide AllSeparate;
  }

  /** Finishing one that does not: the window goes back, and the completion queue if it had one. */
  lemma FinishRefused(s: Store, read: Time, req: Request, w: Window, qps: set<Handle>, cqs: set<Handle>)
    requires Books(s, qps, cqs) && OpenWithWindow(s, Background, read, req, s.slab, w).1.Refused?
    ensures OpenWithWindow(s, Background, read, req, s.slab, w).0 == s.(slab := SlabSpec.Free(s.slab, w.id).0)
  {
    if s.cq.available != [] {
      AcquireThenRelease(s.cq, true, cqs);
    }
    hide SlabSpec.Valid, SessionsOk, HandlesMatch, Holds, SlabSpec.Free;
  }

  lemma OpenFinishAccounts(s: State, qps: set<Handle>, cqs: set<Handle>)
    requires Accounts(s, qps, cqs) && Enabled(s, OpenFinish)
    ensures Accounts(Effect(s, OpenFinish), qps, cqs)
  {
    hide OpenWithWindow, Books, IsWindow, OneOwner, SlabSpec.Free, Owns;
    var o, t := s.opening.value, Effect(s, OpenFinish);
    var (store, r) := OpenWithWindow(s.store, Background, o.read, o.req, s.store.slab, o.window);
    var w := o.window.id;
    OpeningOwns(s);
    NotAWindow(s, OfOpening, w);
    if r.Granted? {
      FinishGranted(s.store, o.read, o.req, o.window, qps, cqs);
      forall p, x
        ensures Owns(t, p, x) <==>
                  (Owns(s, p, x) && !(p == OfOpening && x == w)) || (p == OfSession(r.session.id) && x == w)
      {
        OwnsOpened(s, t, r.session, p, x);
      }
      OwnerMoved(s, t, OfOpening, OfSession(r.session.id), w);
    } else {
      FinishRefused(s.store, o.read, o.req, o.window, qps, cqs);
      forall p, x
        ensures Owns(t, p, x) <==> Owns(s, p, x) && !(p == OfOpening && x == w)
      {
        OwnsRefused(s, t, p, x);
      }
      GiveAccounts(s, t, OfOpening, w, qps, cqs);
    }
  }

  lemma OpeningOwns(s: State)
    requires s.opening.Some?
    ensures Owns(s, OfOpening, s.opening.value.window.id)
  {
  }

  lemma OwnsOpened(s: State, t: State, l: Session, p: Owner, x: nat)
    requires s.opening.Some? && t.opening.None? && t.reserve == s.reserve && |t.conns| == |s.conns|
    requires forall c :: 0 <= c < |s.conns| ==>
               t.conns[c].leases == s.conns[c].leases && t.conns[c].running == s.conns[c].running
    requires l.id !in s.store.sessions && l.window == s.opening.value.window
    requires t.store.sessions == s.store.sessions[l.id := l]
    ensures var w := l.window.id;
            Owns(t, p, x) <==> (Owns(s, p, x) && !(p == OfOpening && x == w)) || (p == OfSession(l.id) && x == w)
  {
  }

  lemma OwnsRefused(s: State, t: State, p: Owner, x: nat)
    requires s.opening.Some? && t.opening.None? && t.reserve == s.reserve && t.conns == s.conns
    requires t.store.sessions == s.store.sessions
    ensures Owns(t, p, x) <==> Owns(s, p, x) && !(p == OfOpening && x == s.opening.value.window.id)
  {
  }

  /** Closing one session hands back its window and nothing else. */
  lemma CloseAccounts(s: State, id: nat, qps: set<Handle>, cqs: set<Handle>)
    requires Accounts(s, qps, cqs)
    ensures var t := s.(store := Close(s.store, Background, id).0);
            && Accounts(t, qps, cqs) && t.store.sessions == s.store.sessions - {id} && t.store.next == s.store.next
    ensures (id in s.store.sessions <==> Close(s.store, Background, id).1 == [])
    ensures id !in s.store.sessions ==> Close(s.store, Background, id).0 == s.store
  {
    hide Books, Close, OneOwner, Owns;
    var t := s.(store := Close(s.store, Background, id).0);
    if id in s.store.sessions {
      var w := s.store.sessions[id].window.id;
      OpeningApart(s, id);
      ClosedBooks(s.store, Background, id, qps, cqs);
      forall p, x
        ensures Owns(t, p, x) <==> Owns(s, p, x) && !(p == OfSession(id) && x == w)
      {
        OwnsClosed(s, t, id, p, x);
      }
      OwnerDropped(s, t, OfSession(id), w);
    } else {
      NothingClosed(s.store, id);
    }
  }

  lemma NothingClosed(s: Store, id: nat)
    requires id !in s.sessions
    ensures Close(s, Background, id) == (s, [SessionNotFound])
  {
  }

  /** A session's window is not the one being opened. */
  lemma OpeningApart(s: State, id: nat)
    requires OneOwner(s) && id in s.store.sessions
    ensures Owns(s, OfSession(id), s.store.sessions[id].window.id)
    ensures s.opening.Some? ==> s.opening.value.window.id != s.store.sessions[id].window.id
  {
    assert Owns(s, OfSession(id), s.store.sessions[id].window.id);
    if s.opening.Some? {
      OpeningOwns(s);
    }
  }

  lemma OwnsClosed(s: State, t: State, id: nat, p: Owner, x: nat)
    requires t == s.(store := t.store) && id in s.store.sessions && t.store.sessions == s.store.sessions - {id}
    ensures Owns(t, p, x) <==> Owns(s, p, x) && !(p == OfSession(id) && x == s.store.sessions[id].window.id)
  {
  }

  lemma {:induction false} ReapAccounts(s: State, order: seq<nat>, qps: set<Handle>, cqs: set<Handle>)
    requires Accounts(s, qps, cqs)
    ensures var t := s.(store := CloseAll(s.store, Background, order));
            Accounts(t, qps, cqs) && t.store.next == s.store.next && t.store.sessions.Keys <= s.store.sessions.Keys
    decreases |order|
  {
    hide Accounts, Close;
    if order != [] {
      var front := order[..|order| - 1];
      ReapAccounts(s, front, qps, cqs);
      CloseAccounts(s.(store := CloseAll(s.store, Background, front)), order[|order| - 1], qps, cqs);
    }
  }

  /** A change of session times only. */
  lemma TimesAccounts(s: State, t: State, qps: set<Handle>, cqs: set<Handle>)
    requires Accounts(s, qps, cqs) && t == s.(store := t.store) && t.store == s.store.(sessions := t.store.sessions)
    requires StoreRuns.SameResources(s.store.sessions, t.store.sessions)
    ensures Accounts(t, qps, cqs)
  {
    hide Books, OneOwner;
    StoreRuns.UpdatedBooks(s.store, t.store, qps, cqs);
    forall p, x
      ensures Owns(t, p, x) <==> Owns(s, p, x)
    {
    }
    hide Owns;
    OwnersSame(s, t);
  }

  lemma RefreshTimes(s: Store, read: Time, id: nat, deadline: Time)
    ensures var t := Refresh(s, read, id, deadline).0;
            t == s.(sessions := t.sessions) && StoreRuns.SameResources(s.sessions, t.sessions)
  {
  }

  lemma PulseTimes(s: Store, read: Time)
    ensures Pulse(s, read) == s.(sessions := Pulse(s, read).sessions)
    ensures StoreRuns.SameResources(s.sessions, Pulse(s, read).sessions)
  {
  }

  // ---- One step ----

  /** The same leases and the same scratch leases. */
  ghost predicate SameHoldings(a: Conn, b: Conn) {
    && a.leases == b.leases
    && forall k, x :: (k in a.running && a.running[k] == Some(x)) <==> (k in b.running && b.running[k] == Some(x))
  }

  ghost predicate HoldsNothing(c: Conn) { c.leases == {} && c.running == map[] && c.sessions == {} }

  /** Steps that move no lease: the connections hold what they held, and new ones nothing. */
  ghost predicate NothingMoved(s: State, t: State) {
    && t.reserve == s.reserve && t.opening == s.opening && |s.conns| <= |t.conns|
    && (forall c :: 0 <= c < |s.conns| ==> SameHoldings(s.conns[c], t.conns[c]))
    && (forall c :: |s.conns| <= c < |t.conns| ==> HoldsNothing(t.conns[c]))
  }

  lemma UnmovedOwns(s: State, t: State, p: Owner, x: nat)
    requires NothingMoved(s, t) && t.store.sessions == s.store.sessions
    ensures Owns(t, p, x) <==> Owns(s, p, x)
  {
    match p
    case OfWork(c, k) =>
      assert c < |s.conns| ==> SameHoldings(s.conns[c], t.conns[c]);
    case _ =>
  }

  lemma UnmovedAccounts(s: State, t: State, qps: set<Handle>, cqs: set<Handle>)
    requires Accounts(s, qps, cqs) && NothingMoved(s, t) && t.store == s.store
    ensures Accounts(t, qps, cqs)
  {
    hide Books, Owns, OneOwner;
    assert t.opening == s.opening;
    forall p, x
      ensures Owns(t, p, x) <==> Owns(s, p, x)
    {
      UnmovedOwns(s, t, p, x);
    }
    OwnersSame(s, t);
  }

  ghost predicate IsLocal(a: Action) {
    a.Accept? || a.Submit? || a.WorkDone? || a.WaitWork? || a.Hangup? || a.WorkStopped? || a.AllFreed? || a.AllClosed?
  }

  lemma LocalMovesNothing(s: State, a: Action)
    requires PhasesOk(s) && Enabled(s, a) && IsLocal(a)
    ensures NothingMoved(s, Effect(s, a)) && Effect(s, a).store == s.store
  {
    if !a.Accept? {
      LocalHoldings(s, a);
    }
  }

  lemma LocalHoldings(s: State, a: Action)
    requires PhasesOk(s) && Enabled(s, a) && IsLocal(a) && !a.Accept?
    ensures var t := Effect(s, a);
            && a.conn < |s.conns| && t == s.(conns := s.conns[a.conn := t.conns[a.conn]]) && |t.conns| == |s.conns|
            && SameHoldings(s.conns[a.conn], t.conns[a.conn])
  {
    assert PhaseOk(s.conns[a.conn]);
  }

  lemma CloseStepAccounts(s: State, a: Action, qps: set<Handle>, cqs: set<Handle>)
    requires Accounts(s, qps, cqs) && Enabled(s, a) && (a.ClientClose? || a.CloseOne?)
    ensures Accounts(Effect(s, a), qps, cqs)
  {
    hide Accounts, Close;
    CloseAccounts(s, a.id, qps, cqs);
    var u, t := s.(store := Close(s.store, Background, a.id).0), Effect(s, a);
    if t != s {
      assert NothingMoved(u, t) && t.store == u.store;
      UnmovedAccounts(u, t, qps, cqs);
    }
  }

  lemma StepAccounts(s: State, a: Action, qps: set<Handle>, cqs: set<Handle>)
    requires Accounts(s, qps, cqs) && PhasesOk(s) && Enabled(s, a)
    ensures Accounts(Effect(s, a), qps, cqs)
  {
    hide Accounts, PhasesOk, NothingMoved, Enabled, Effect;
    if IsLocal(a) {
      LocalMovesNothing(s, a);
      UnmovedAccounts(s, Effect(s, a), qps, cqs);
    } else {
      match a
      case ClientAlloc(_, _) => AllocsAccounts(s, a, qps, cqs);
      case WorkAlloc(_, _, _) => AllocsAccounts(s, a, qps, cqs);
      case ClientFree(_, _) => FreesAccounts(s, a, qps, cqs);
      case FreeOne(_, _) => FreesAccounts(s, a, qps, cqs);
      case WorkFree(_, _) => FreesAccounts(s, a, qps, cqs);
      case OpenStart(_, _, _) => OpenStartAccounts(s, a, qps, cqs);
      case OpenFinish => OpenFinishAccounts(s, qps, cqs);
      case ClientClose(_, _) => CloseStepAccounts(s, a, qps, cqs);
      case CloseOne(_, _) => CloseStepAccounts(s, a, qps, cqs);
      case _ => TimesStepAccounts(s, a, qps, cqs);
    }
  }

  lemma TimesStepAccounts(s: State, a: Action, qps: set<Handle>, cqs: set<Handle>)
    requires Accounts(s, qps, cqs) && Enabled(s, a) && (a.ClientRefresh? || a.Liveness? || a.Reap?)
    ensures Accounts(Effect(s, a), qps, cqs)
  {
    hide Accounts, Refresh, Pulse, CloseAll, StoreRuns.SameResources;
    match a
    case ClientRefresh(c, id, read, deadline) =>
      if id in s.conns[c].sessions {
        RefreshTimes(s.store, read, id, deadline);
        TimesAccounts(s, Effect(s, a), qps, cqs);
      }
    case Liveness(read) =>
      PulseTimes(s.store, read);
      TimesAccounts(s, Effect(s, a), qps, cqs);
    case Reap(read, order) => ReapAccounts(s, order, qps, cqs);
  }

  lemma StepPhases(s: State, a: Action)
    requires PhasesOk(s) && Enabled(s, a)
    ensures PhasesOk(Effect(s, a)) && |Effect(s, a).conns| >= |s.conns|
  {
    hide PhaseOk, SlabSpec.Alloc, SlabSpec.Free, Close, CloseAll, Refresh, Pulse, OpenWithWindow;
    var t := Effect(s, a);
    forall c | 0 <= c < |t.conns|
      ensures PhaseOk(t.conns[c])
    {
      StepPhase(s, a, c);
    }
  }

  lemma StepPhase(s: State, a: Action, c: nat)
    requires PhasesOk(s) && Enabled(s, a) && c < |Effect(s, a).conns|
    ensures PhaseOk(Effect(s, a).conns[c])
  {
    assert c < |s.conns| ==> PhaseOk(s.conns[c]);
    if a.Submit? || a.WorkAlloc? || a.WorkFree? || a.WorkDone? || a.WaitWork? {
      WorkPhase(s, a, c);
    } else {
      hide SlabSpec.Alloc, SlabSpec.Free, Close, CloseAll, Refresh, Pulse, OpenWithWindow;
    }
  }

  lemma WorkPhase(s: State, a: Action, c: nat)
    requires Enabled(s, a) && c < |Effect(s, a).conns| && (c < |s.conns| ==> PhaseOk(s.conns[c]))
    requires a.Submit? || a.WorkAlloc? || a.WorkFree? || a.WorkDone? || a.WaitWork?
    ensures PhaseOk(Effect(s, a).conns[c])
  {
    hide SlabSpec.Alloc, SlabSpec.Free;
  }

  /** Sessions may end and be forgotten together, but never change hands. */
  ghost predicate SessionsShrink(s: State, t: State) {
    && t.store.sessions.Keys <= s.store.sessions.Keys && t.store.next == s.store.next && |s.conns| <= |t.conns|
    && (forall c :: 0 <= c < |s.conns| ==> t.conns[c].sessions <= s.conns[c].sessions)
    && (forall c :: |s.conns| <= c < |t.conns| ==> t.conns[c].sessions == {})
    && (forall c, i :: 0 <= c < |s.conns| && i in s.conns[c].sessions && i in t.store.sessions ==>
         i in t.conns[c].sessions)
  }

  lemma ShrinkPlaced(s: State, t: State)
    requires SessionsPlaced(s) && SessionsShrink(s, t)
    ensures SessionsPlaced(t)
  {
  }

  lemma OtherStepsShrink(s: State, a: Action, qps: set<Handle>, cqs: set<Handle>)
    requires Accounts(s, qps, cqs) && Enabled(s, a) && !a.OpenFinish?
    ensures SessionsShrink(s, Effect(s, a))
  {
    hide Accounts, Close, CloseAll, Refresh, Pulse;
    match a
    case ClientClose(_, id) => CloseAccounts(s, id, qps, cqs);
    case CloseOne(_, id) => CloseAccounts(s, id, qps, cqs);
    case Reap(_, order) => ReapAccounts(s, order, qps, cqs);
    case ClientRefresh(_, id, read, deadline) => RefreshKeys(s.store, read, id, deadline);
    case Liveness(read) => PulseKeys(s.store, read);
    case _ => LeaseStepsShrink(s, a);
  }

  lemma LeaseStepsShrink(s: State, a: Action)
    requires Enabled(s, a) && !a.OpenFinish? && !a.ClientClose? && !a.CloseOne? && !a.Reap? && !a.ClientRefresh?
    requires !a.Liveness?
    ensures SessionsShrink(s, Effect(s, a))
  {
    hide SlabSpec.Alloc, SlabSpec.Free;
  }

  lemma RefreshKeys(s: Store, read: Time, id: nat, deadline: Time)
    ensures var t := Refresh(s, read, id, deadline).0; t.sessions.Keys == s.sessions.Keys && t.next == s.next
  {
  }

  lemma PulseKeys(s: Store, read: Time)
    ensures Pulse(s, read).sessions.Keys == s.sessions.Keys && Pulse(s, read).next == s.next
  {
  }

  /** What finishing an open request does to the sessions: nothing, or one new id for its connection. */
  lemma OpenFinishSessions(s: State, qps: set<Handle>, cqs: set<Handle>)
    requires Accounts(s, qps, cqs) && Enabled(s, OpenFinish)
    ensures var t, o := Effect(s, OpenFinish), s.opening.value;
            || SessionsShrink(s, t)
            || (&& t.store.next == s.store.next + 1 && t.store.sessions.Keys == s.store.sessions.Keys + {t.store.next}
                && var c := s.conns[o.conn];
                   t.conns == s.conns[o.conn := c.(sessions := c.sessions + {t.store.next})])
  {
    hide OpenWithWindow, Books, OneOwner, IsWindow, SlabSpec.Free;
    var o := s.opening.value;
    OpeningOwns(s);
    NotAWindow(s, OfOpening, o.window.id);
    if OpenWithWindow(s.store, Background, o.read, o.req, s.store.slab, o.window).1.Granted? {
      FinishGranted(s.store, o.read, o.req, o.window, qps, cqs);
    } else {
      FinishRefused(s.store, o.read, o.req, o.window, qps, cqs);
    }
  }

  lemma StepPlaced(s: State, a: Action, qps: set<Handle>, cqs: set<Handle>)
    requires Accounts(s, qps, cqs) && SessionsPlaced(s) && Enabled(s, a)
    ensures SessionsPlaced(Effect(s, a))
  {
    hide Accounts, Effect, SessionsShrink;
    if a.OpenFinish? {
      OpenFinishSessions(s, qps, cqs);
      if SessionsShrink(s, Effect(s, a)) {
        ShrinkPlaced(s, Effect(s, a));
      } else {
        var t := Effect(s, a);
        NewPlaced(s, t, s.opening.value.conn);
      }
    } else {
      OtherStepsShrink(s, a, qps, cqs);
      ShrinkPlaced(s, Effect(s, a));
    }
  }

  lemma NewPlaced(s: State, t: State, c: nat)
    requires SessionsPlaced(s) && c < |s.conns|
    requires t.store.next == s.store.next + 1 && t.store.sessions.Keys == s.store.sessions.Keys + {t.store.next}
    requires t.conns == s.conns[c := s.conns[c].(sessions := s.conns[c].sessions + {t.store.next})]
    ensures SessionsPlaced(t)
  {
    forall i | i in t.store.sessions
      ensures exists d: nat :: d < |t.conns| && i in t.conns[d].sessions
    {
      if i == t.store.next {
        assert i in t.conns[c].sessions;
      } else {
        var d: nat :| d < |s.conns| && i in s.conns[d].sessions;
        assert i in t.conns[d].sessions;
      }
    }
    NewIsAlone(s, t, c);
  }

  lemma NewIsAlone(s: State, t: State, c: nat)
    requires SessionsPlaced(s) && c < |s.conns| && t.store.next == s.store.next + 1
    requires t.conns == s.conns[c := s.conns[c].(sessions := s.conns[c].sessions + {t.store.next})]
    ensures forall d: nat, i :: d < |t.conns| && i in t.conns[d].sessions ==> i <= t.store.next
    ensures forall d: nat, e: nat, i :: d < |t.conns| && e < |t.conns| && i in t.conns[d].sessions ==>
              i in t.conns[e].sessions ==> d == e
  {
    forall d: nat, i | d < |t.conns| && i in t.conns[d].sessions
      ensures i in s.conns[d].sessions || (d == c && i == t.store.next)
    {
    }
  }

  lemma StepInv(s: State, a: Action, qps: set<Handle>, cqs: set<Handle>)
    requires Inv(s, qps, cqs) && Enabled(s, a)
    ensures Inv(Effect(s, a), qps, cqs)
  {
    hide Books, OneOwner, SessionsPlaced, PhasesOk, OpeningOk, Effect, Enabled;
    StepAccounts(s, a, qps, cqs);
    StepPlaced(s, a, qps, cqs);
    StepPhases(s, a);
  }

  // ---- Runs ----

  /** The daemon before its first connection: an empty slab less the maintenance reserve, and a ready store. */
  function Start(size: nat, reserve: int, qps: seq<Handle>, cqs: seq<Handle>): State {
    var (slab, r) := SlabSpec.Alloc(SlabSpec.NewSlab(size), reserve);
    State(Store(Ready, 0, slab, Pool(qps, map[]), Pool(cqs, map[]), map[]), [],
          if r.Leased? then Some(r.id) else None, None)
  }

  ghost predicate Run(tr: seq<State>, acts: seq<Action>, size: nat, reserve: int, qps: seq<Handle>, cqs: seq<Handle>) {
    && size > 0 && Distinct(qps) && Distinct(cqs)
    && |tr| == |acts| + 1 && tr[0] == Start(size, reserve, qps, cqs)
    && forall i :: 0 <= i < |acts| ==> Enabled(tr[i], acts[i]) && tr[i + 1] == Effect(tr[i], acts[i])
  }

  lemma StartInv(size: nat, reserve: int, qps: seq<Handle>, cqs: seq<Handle>)
    requires size > 0 && Distinct(qps) && Distinct(cqs)
    ensures Inv(Start(size, reserve, qps, cqs), Elements(qps), Elements(cqs))
  {
    hide Books, OneOwner, SlabSpec.Alloc;
    StartBooks(size, reserve, qps, cqs);
    StartOwners(size, reserve, qps, cqs);
  }

  lemma StartBooks(size: nat, reserve: int, qps: seq<Handle>, cqs: seq<Handle>)
    requires size > 0 && Distinct(qps) && Distinct(cqs)
    ensures Books(Start(size, reserve, qps, cqs).store, Elements(qps), Elements(cqs))
  {
    SlabSpec.NewSlabValid(size);
    AllocFacts(SlabSpec.NewSlab(size), reserve);
    hide SlabSpec.Valid, SlabSpec.Alloc;
  }

  lemma StartOwners(size: nat, reserve: int, qps: seq<Handle>, cqs: seq<Handle>)
    requires size > 0
    ensures OneOwner(Start(size, reserve, qps, cqs))
  {
    SlabSpec.NewSlabValid(size);
    AllocFacts(SlabSpec.NewSlab(size), reserve);
    hide SlabSpec.Valid, SlabSpec.Alloc;
    var s := Start(size, reserve, qps, cqs);
    forall id | id in s.store.slab.leases
      ensures Owns(s, OfReserve, id)
    {
    }
  }

  lemma {:induction false} RunInv(tr: seq<State>, acts: seq<Action>, size: nat, reserve: int, qps: seq<Handle>,
                                  cqs: seq<Handle>, i: nat)
    requires Run(tr, acts, size, reserve, qps, cqs) && i < |tr|
    ensures Inv(tr[i], Elements(qps), Elements(cqs))
  {
    hide Inv, Effect, Start, Enabled, Elements;
    if i == 0 {
      StartInv(size, reserve, qps, cqs);
    } else {
      RunInv(tr, acts, size, reserve, qps, cqs, i - 1);
      StepInv(tr[i - 1], acts[i - 1], Elements(qps), Elements(cqs));
    }
  }

  /** In every run, every live slab lease has exactly one owner. */
  lemma EveryLeaseHasOneOwner(tr: seq<State>, acts: seq<Action>, size: nat, reserve: int, qps: seq<Handle>,
                              cqs: seq<Handle>, i: nat)
    requires Run(tr, acts, size, reserve, qps, cqs) && i < |tr|
    ensures OneOwner(tr[i])
  {
    hide OneOwner;
    RunInv(tr, acts, size, reserve, qps, cqs, i);
  }

  // ---- Releases ----

  /** The releases an action makes on behalf of an owner. */
  ghost predicate Releases(s: State, a: Action, o: Owner, id: nat)
    requires Enabled(s, a)
  {
    match a
    case ClientFree(c, i) => o == OfConn(c) && id == i
    case FreeOne(c, i) => o == OfConn(c) && id == i
    case WorkFree(c, k) => o == OfWork(c, k)
    case ClientClose(c, i) => o == OfSession(i) && i in s.conns[c].sessions
    case CloseOne(c, i) => o == OfSession(i) && i in s.conns[c].sessions
    case Reap(_, order) => o.OfSession? && o.session in order
    case OpenFinish => o == OfOpening
    case _ => false
  }

  /** Ownership ends only by a release. */
  lemma OwnershipStays(s: State, a: Action, o: Owner, id: nat, qps: set<Handle>, cqs: set<Handle>)
    requires Inv(s, qps, cqs) && Enabled(s, a) && Owns(s, o, id) && !Releases(s, a, o, id)
    ensures Owns(Effect(s, a), o, id)
  {
    hide Books, OneOwner, SessionsPlaced;
    if o.OfSession? {
      SessionStays(s, a, o.session, qps, cqs);
    } else {
      HoldingStays(s, a, o, id);
    }
  }

  lemma SessionStays(s: State, a: Action, i: nat, qps: set<Handle>, cqs: set<Handle>)
    requires Inv(s, qps, cqs) && Enabled(s, a) && i in s.store.sessions
    requires !Releases(s, a, OfSession(i), s.store.sessions[i].window.id)
    ensures var t := Effect(s, a); i in t.store.sessions && t.store.sessions[i].window == s.store.sessions[i].window
  {
    hide OneOwner, SessionsPlaced, PhasesOk, Books, OpenWithWindow, Close, CloseAll, Refresh, Pulse, IsWindow;
    match a
    case OpenFinish =>
      var o := s.opening.value;
      OpeningOwns(s);
      NotAWindow(s, OfOpening, o.window.id);
      if OpenWithWindow(s.store, Background, o.read, o.req, s.store.slab, o.window).1.Granted? {
        FinishGranted(s.store, o.read, o.req, o.window, qps, cqs);
      } else {
        FinishRefused(s.store, o.read, o.req, o.window, qps, cqs);
      }
    case ClientClose(_, id) => CloseKeepsOthers(s.store, id);
    case CloseOne(_, id) => CloseKeepsOthers(s.store, id);
    case Reap(_, order) => CloseAllKeepsOthers(s.store, order, i);
    case ClientRefresh(_, id, read, deadline) => RefreshTimes(s.store, read, id, deadline);
    case Liveness(read) => PulseTimes(s.store, read);
    case _ => LeaseStepsKeepSessions(s, a);
  }

  lemma LeaseStepsKeepSessions(s: State, a: Action)
    requires Enabled(s, a) && !a.OpenFinish? && !a.ClientClose? && !a.CloseOne? && !a.Reap? && !a.ClientRefresh?
    requires !a.Liveness?
    ensures Effect(s, a).store.sessions == s.store.sessions
  {
    hide SlabSpec.Alloc, SlabSpec.Free;
  }

  lemma CloseKeepsOthers(s: Store, id: nat)
    ensures Close(s, Background, id).0.sessions == s.sessions - {id}
  {
  }

  lemma {:induction false} CloseAllKeepsOthers(s: Store, order: seq<nat>, i: nat)
    requires i in s.sessions && i !in order
    ensures var t := CloseAll(s, Background, order); i in t.sessions && t.sessions[i] == s.sessions[i]
    decreases |order|
  {
    hide Close;
    if order != [] {
      CloseAllKeepsOthers(s, order[..|order| - 1], i);
      CloseKeepsOthers(CloseAll(s, Background, order[..|order| - 1]), order[|order| - 1]);
    }
  }

  lemma HoldingStays(s: State, a: Action, o: Owner, id: nat)
    requires PhasesOk(s) && Enabled(s, a) && Owns(s, o, id) && !o.OfSession? && !Releases(s, a, o, id)
    ensures Owns(Effect(s, a), o, id)
  {
    match o
    case OfConn(c) => LeaseStays(s, a, c, id);
    case OfWork(c, k) => ScratchStays(s, a, c, k, id);
    case _ =>
      hide SlabSpec.Alloc, SlabSpec.Free, Close, CloseAll, Refresh, Pulse, OpenWithWindow;
  }

  lemma LeaseStays(s: State, a: Action, c: nat, id: nat)
    requires Enabled(s, a) && c < |s.conns| && id in s.conns[c].leases && !Releases(s, a, OfConn(c), id)
    ensures var t := Effect(s, a); c < |t.conns| && id in t.conns[c].leases
  {
    hide SlabSpec.Alloc, SlabSpec.Free, Close, CloseAll, Refresh, Pulse, OpenWithWindow;
  }

  lemma ScratchStays(s: State, a: Action, c: nat, k: nat, id: nat)
    requires PhasesOk(s) && Enabled(s, a) && c < |s.conns| && k in s.conns[c].running
    requires s.conns[c].running[k] == Some(id)
    requires !Releases(s, a, OfWork(c, k), id)
    ensures var t := Effect(s, a); c < |t.conns| && k in t.conns[c].running && t.conns[c].running[k] == Some(id)
  {
    hide SlabSpec.Alloc, SlabSpec.Free, Close, CloseAll, Refresh, Pulse, OpenWithWindow;
    assert PhaseOk(s.conns[c]);
  }

  /**
    In every run, a lease that stops being live was released by an action of its owner: no request
    reaches another's lease.
   */
  lemma OnlyOwnerReleases(tr: seq<State>, acts: seq<Action>, size: nat, reserve: int, qps: seq<Handle>,
                          cqs: seq<Handle>, i: nat, o: Owner, id: nat)
    requires Run(tr, acts, size, reserve, qps, cqs) && i < |acts| && Owns(tr[i], o, id)
    ensures id in tr[i + 1].store.slab.leases || Releases(tr[i], acts[i], o, id)
  {
    hide Effect, Enabled, Owns, Releases, Start, Elements, Books, SessionsPlaced, PhasesOk, OpeningOk;
    RunInv(tr, acts, size, reserve, qps, cqs, i);
    RunInv(tr, acts, size, reserve, qps, cqs, i + 1);
    if !Releases(tr[i], acts[i], o, id) {
      OwnershipStays(tr[i], acts[i], o, id, Elements(qps), Elements(cqs));
    }
  }

  // ---- Disconnecting ----

  lemma CloseLeases(s: Store, id: nat, qps: set<Handle>, cqs: set<Handle>)
    requires Books(s, qps, cqs)
    ensures var t := Close(s, Background, id).0;
            Books(t, qps, cqs) && t.slab.nextID == s.slab.nextID && t.slab.leases.Keys <= s.slab.leases.Keys
  {
    hide Books;
    if id in s.sessions {
      ClosedBooks(s, Background, id, qps, cqs);
    } else {
      NothingClosed(s, id);
    }
  }

  lemma {:induction false} CloseAllLeases(s: Store, order: seq<nat>, qps: set<Handle>, cqs: set<Handle>)
    requires Books(s, qps, cqs)
    ensures var t := CloseAll(s, Background, order);
            Books(t, qps, cqs) && t.slab.nextID == s.slab.nextID && t.slab.leases.Keys <= s.slab.leases.Keys
    decreases |order|
  {
    hide Books, Close;
    if order != [] {
      CloseAllLeases(s, order[..|order| - 1], qps, cqs);
      CloseLeases(CloseAll(s, Background, order[..|order| - 1]), order[|order| - 1], qps, cqs);
    }
  }

  /** Lease ids are handed out once: a step makes live only ids above the counter. */
  ghost predicate OnlyNewLeases(s: SlabSpec.Slab, t: SlabSpec.Slab) {
    t.nextID >= s.nextID && forall id :: id in t.leases ==> id in s.leases || id > s.nextID
  }

  lemma StepLeases(s: State, a: Action, qps: set<Handle>, cqs: set<Handle>)
    requires Inv(s, qps, cqs) && Enabled(s, a)
    ensures OnlyNewLeases(s.store.slab, Effect(s, a).store.slab)
  {
    hide Books, OneOwner, SessionsPlaced, PhasesOk, OpeningOk, SlabSpec.Alloc, SlabSpec.Free, SlabSpec.Valid, Close,
         CloseAll, Refresh, Pulse, OpenWithWindow;
    BooksSlab(s.store, qps, cqs);
    match a
    case ClientAlloc(_, n) => AllocFacts(s.store.slab, n);
    case WorkAlloc(_, _, n) => AllocFacts(s.store.slab, n);
    case OpenStart(_, _, req) => AllocFacts(s.store.slab, req.size);
    case ClientFree(_, id) => FreeShrinks(s.store.slab, id);
    case FreeOne(_, id) => FreeShrinks(s.store.slab, id);
    case WorkFree(c, k) => FreeShrinks(s.store.slab, s.conns[c].running[k].value);
    case OpenFinish => OpenFinishLeases(s, qps, cqs);
    case ClientClose(_, id) => CloseLeases(s.store, id, qps, cqs);
    case CloseOne(_, id) => CloseLeases(s.store, id, qps, cqs);
    case Reap(_, order) => CloseAllLeases(s.store, order, qps, cqs);
    case ClientRefresh(_, id, read, deadline) => RefreshTimes(s.store, read, id, deadline);
    case Liveness(read) => PulseTimes(s.store, read);
    case _ =>
  }

  lemma FreeShrinks(s: SlabSpec.Slab, id: nat)
    ensures var t := SlabSpec.Free(s, id).0; t.nextID == s.nextID && t.leases.Keys <= s.leases.Keys
    ensures !s.closed ==> id !in SlabSpec.Free(s, id).0.leases
  {
    hide SlabSpec.Merge, SlabSpec.Insert;
  }

  lemma OpenFinishLeases(s: State, qps: set<Handle>, cqs: set<Handle>)
    requires Inv(s, qps, cqs) && Enabled(s, OpenFinish)
    ensures var t := Effect(s, OpenFinish).store.slab;
            t.nextID == s.store.slab.nextID && t.leases.Keys <= s.store.slab.leases.Keys
  {
    hide Books, OneOwner, SessionsPlaced, PhasesOk, SlabSpec.Free, OpenWithWindow, IsWindow;
    var o := s.opening.value;
    OpeningOwns(s);
    NotAWindow(s, OfOpening, o.window.id);
    if OpenWithWindow(s.store, Background, o.read, o.req, s.store.slab, o.window).1.Granted? {
      FinishGranted(s.store, o.read, o.req, o.window, qps, cqs);
    } else {
      FinishRefused(s.store, o.read, o.req, o.window, qps, cqs);
      FreeShrinks(s.store.slab, o.window.id);
    }
  }

  /** A lease of connection c is either still its own or no longer live. */
  ghost predicate OursOrGone(s: State, c: nat, id: nat) {
    id <= s.store.slab.nextID && (id in s.store.slab.leases ==> Owns(s, OfConn(c), id))
  }

  lemma StepOursOrGone(s: State, a: Action, c: nat, id: nat, qps: set<Handle>, cqs: set<Handle>)
    requires Inv(s, qps, cqs) && Enabled(s, a) && OursOrGone(s, c, id)
    ensures OursOrGone(Effect(s, a), c, id)
  {
    hide Inv, Effect, Owns, Releases;
    StepLeases(s, a, qps, cqs);
    if id in s.store.slab.leases {
      if Releases(s, a, OfConn(c), id) {
        ConnReleases(s, a, c, id, qps, cqs);
      } else {
        OwnershipStays(s, a, OfConn(c), id, qps, cqs);
      }
    }
  }

  lemma ConnReleases(s: State, a: Action, c: nat, id: nat, qps: set<Handle>, cqs: set<Handle>)
    requires Inv(s, qps, cqs) && Enabled(s, a) && Owns(s, OfConn(c), id) && Releases(s, a, OfConn(c), id)
    ensures id !in Effect(s, a).store.slab.leases
  {
    ReleaseFrees(s, a, c, id);
    assert id in s.store.slab.leases by {
      OwnedIsLive(s, OfConn(c), id);
    }
    assert Books(s.store, qps, cqs);
    hide *;
    BooksSlab(s.store, qps, cqs);
    FreeFacts(s.store.slab, id);
  }

  lemma ReleaseFrees(s: State, a: Action, c: nat, id: nat)
    requires Enabled(s, a) && Owns(s, OfConn(c), id) && Releases(s, a, OfConn(c), id)
    ensures Effect(s, a).store.slab == SlabSpec.Free(s.store.slab, id).0
            || (SlabSpec.Free(s.store.slab, id).1.FreeFailed? && Effect(s, a) == s)
  {
    hide SlabSpec.Free;
  }

  lemma OwnedIsLive(s: State, o: Owner, id: nat)
    requires OneOwner(s) && Owns(s, o, id)
    ensures id in s.store.slab.leases
  {
    hide Owns;
  }

  /** A session of connection c is either still its own or no longer live. */
  ghost predicate SessionOursOrGone(s: State, c: nat, i: nat) {
    c < |s.conns| && i <= s.store.next && (i in s.store.sessions ==> i in s.conns[c].sessions)
  }

  lemma StepSessionOursOrGone(s: State, a: Action, c: nat, i: nat, qps: set<Handle>, cqs: set<Handle>)
    requires Inv(s, qps, cqs) && Enabled(s, a) && SessionOursOrGone(s, c, i)
    ensures SessionOursOrGone(Effect(s, a), c, i)
  {
    hide Books, OneOwner, SessionsPlaced, PhasesOk, OpeningOk, Effect;
    if a.OpenFinish? {
      OpenFinishSessions(s, qps, cqs);
    } else {
      OtherStepsShrink(s, a, qps, cqs);
    }
  }

  lemma {:induction false} OursUntilGone(tr: seq<State>, acts: seq<Action>, size: nat, reserve: int, qps: seq<Handle>,
                                         cqs: seq<Handle>, i: nat, j: nat, c: nat, id: nat)
    requires Run(tr, acts, size, reserve, qps, cqs) && i <= j < |tr|
    ensures OursOrGone(tr[i], c, id) ==> OursOrGone(tr[j], c, id)
    ensures SessionOursOrGone(tr[i], c, id) ==> SessionOursOrGone(tr[j], c, id)
    decreases j
  {
    hide OursOrGone, SessionOursOrGone, Inv, Effect, Enabled, Start, Elements;
    if i < j {
      OursUntilGone(tr, acts, size, reserve, qps, cqs, i, j - 1, c, id);
      RunInv(tr, acts, size, reserve, qps, cqs, j - 1);
      var s, a := tr[j - 1], acts[j - 1];
      if OursOrGone(s, c, id) {
        StepOursOrGone(s, a, c, id, Elements(qps), Elements(cqs));
      }
      if SessionOursOrGone(s, c, id) {
        StepSessionOursOrGone(s, a, c, id, Elements(qps), Elements(cqs));
      }
    }
  }

  /** Everything a connection ever held, leases and sessions, is released by the time it has ended. */
  lemma DisconnectReleasesAll(tr: seq<State>, acts: seq<Action>, size: nat, reserve: int, qps: seq<Handle>,
                              cqs: seq<Handle>, i: nat, j: nat, c: nat, id: nat)
    requires Run(tr, acts, size, reserve, qps, cqs) && i <= j < |tr| && In(tr[j], c, Ended)
    ensures Owns(tr[i], OfConn(c), id) ==> id !in tr[j].store.slab.leases
    ensures c < |tr[i].conns| && id in tr[i].conns[c].sessions ==> id !in tr[j].store.sessions
    ensures forall x, k :: !Owns(tr[j], OfConn(c), x) && !Owns(tr[j], OfWork(c, k), x)
  {
    hide Effect, Enabled, Start, Elements, Books;
    RunInv(tr, acts, size, reserve, qps, cqs, i);
    RunInv(tr, acts, size, reserve, qps, cqs, j);
    OursUntilGone(tr, acts, size, reserve, qps, cqs, i, j, c, id);
    assert PhaseOk(tr[j].conns[c]);
    if Owns(tr[i], OfConn(c), id) {
      OwnedIsLive(tr[i], OfConn(c), id);
      LeaseBelowCounter(tr[i].store, id, Elements(qps), Elements(cqs));
    }
  }

  lemma LeaseBelowCounter(s: Store, id: nat, qps: set<Handle>, cqs: set<Handle>)
    requires Books(s, qps, cqs) && id in s.slab.leases
    ensures id <= s.slab.nextID
  {
  }

  /** A connection releases on its way out only after all its work, scratch leases included, has finished. */
  lemma TeardownAfterWork(tr: seq<State>, acts: seq<Action>, size: nat, reserve: int, qps: seq<Handle>,
                          cqs: seq<Handle>, i: nat)
    requires Run(tr, acts, size, reserve, qps, cqs) && i < |acts| && (acts[i].FreeOne? || acts[i].CloseOne?)
    ensures tr[i].conns[acts[i].conn].running == map[]
    ensures forall k, x :: !Owns(tr[i], OfWork(acts[i].conn, k), x)
  {
    hide Effect, Start, Elements, Books, OneOwner;
    RunInv(tr, acts, size, reserve, qps, cqs, i);
    assert PhaseOk(tr[i].conns[acts[i].conn]);
  }

  /** A session id kept by a connection after the session was reaped reaches no other session. */
  lemma StaleSessionIsHarmless(s: State, c: nat, id: nat, a: Action, qps: set<Handle>, cqs: set<Handle>)
    requires Inv(s, qps, cqs) && Enabled(s, a) && c < |s.conns| && id in s.conns[c].sessions && id !in s.store.sessions
    requires a == ClientClose(c, id) || a == CloseOne(c, id) || (a.ClientRefresh? && a.conn == c && a.id == id)
    ensures Effect(s, a).store == s.store
  {
    if !a.ClientRefresh? {
      NothingClosed(s.store, id);
    }
  }
}
