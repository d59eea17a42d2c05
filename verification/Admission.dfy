/**
  The admission gate (cmd/jaccld/admission.go): data operations enter and leave, and a
  maintenance window closes the gate and waits for them to drain.

  AdmissionGate holds the fields and one method per critical section. Goroutines that
  interleave those sections are modelled as a step system; a broadcast channel is a
  generation number, closed once the gate has moved past it.
 */
module Admission {

  /** The gate's fields. changed is the current channel; every smaller number is closed. */
  datatype Gate = Gate(maintenance: bool, inFlight: nat, changed: nat)

  function Signal(g: Gate): Gate { g.(changed := g.changed + 1) }

  datatype Begun = AlreadyRunning | Drained | MustWait(changed: nat)

  // ---- Critical sections as functions of the fields ----

  /** enter, one pass of its loop: None when admitted, else the channel to wait on. */
  datatype EnterResult = Admit | Wait(changed: nat)

  function EnterSection(g: Gate): (Gate, EnterResult) {
    if !g.maintenance then (g.(inFlight := g.inFlight + 1), Admit) else (g, Wait(g.changed))
  }

  function LeaveSection(g: Gate): Gate
    requires g.inFlight > 0
  {
    var h := g.(inFlight := g.inFlight - 1);
    if h.inFlight == 0 then Signal(h) else h
  }

  function DrainCheck(g: Gate): Begun {
    if g.inFlight > 0 then MustWait(g.changed) else Drained
  }

  function BeginSection(g: Gate): (Gate, Begun) {
    if g.maintenance then (g, AlreadyRunning)
    else
      var h := Signal(g.(maintenance := true));
      (h, DrainCheck(h))
  }

  function ReopenSection(g: Gate): Gate { Signal(g.(maintenance := false)) }

  class AdmissionGate {
    var maintenance: bool
    var inFlight: nat
    var changed: nat

    ghost function View(): Gate
      reads this
    {
      Gate(maintenance, inFlight, changed)
    }

    constructor ()
      ensures View() == Gate(false, 0, 0)
    {
      maintenance, inFlight, changed := false, 0, 0;
    }

    method TryEnter() returns (r: EnterResult)
      modifies this
      ensures View() == EnterSection(old(View())).0 && r == EnterSection(old(View())).1
    {
      if !maintenance {
        inFlight := inFlight + 1;
        return Admit;
      }
      return Wait(changed);
    }

    /** ok is false where the source panics. */
    method Leave() returns (ok: bool)
      modifies this
      ensures ok <==> old(inFlight) > 0
      ensures View() == if ok then LeaveSection(old(View())) else old(View())
    {
      if inFlight == 0 { return false; }
      inFlight := inFlight - 1;
      if inFlight == 0 {
        SignalLocked();
      }
      return true;
    }

    method TryBegin() returns (r: Begun)
      modifies this
      ensures View() == BeginSection(old(View())).0 && r == BeginSection(old(View())).1
    {
      if maintenance { return AlreadyRunning; }
      maintenance := true;
      SignalLocked();
      if inFlight > 0 { return MustWait(changed); }
      return Drained;
    }

    method Recheck() returns (r: Begun)
      ensures r == DrainCheck(View())
    {
      if inFlight > 0 { return MustWait(changed); }
      return Drained;
    }

    /** The end function of a window, and the cancelled exit of beginMaintenance. */
    method Reopen()
      modifies this
      ensures View() == ReopenSection(old(View()))
    {
      maintenance := false;
      SignalLocked();
    }

    method SignalLocked()
      modifies this`changed
      ensures View() == Signal(old(View()))
    {
      changed := changed + 1;
    }
  }

  // ---- Interleaved goroutines ----

  datatype Proc =
    | Idle
    | Waiting(chan: nat)    // in enter, blocked on a channel
    | Admitted              // holds a done function that has not run
    | Draining(chan: nat)   // in beginMaintenance, blocked on a channel
    | Holding               // beginMaintenance returned, end function not yet run
    | Spent                 // its done or end function has run

  datatype System = System(gate: Gate, procs: seq<Proc>, panicked: bool)

  datatype Action =
    | Enter(p: nat)         // first or repeated pass of enter
    | CancelEnter(p: nat)
    | Done(p: nat)          // the returned done function
    | Begin(p: nat)
    | WakeDrain(p: nat)
    | CancelDrain(p: nat)
    | End(p: nat)           // the returned end function
    | Rest(p: nat)          // the goroutine goes on to its next operation

  predicate Enabled(s: System, a: Action) {
    && a.p < |s.procs|
    && var me := s.procs[a.p];
       match a
       case Enter(_) => me.Idle? || (me.Waiting? && me.chan < s.gate.changed)
       case CancelEnter(_) => me.Waiting?
       case Done(_) => me.Admitted? || me.Spent?
       case Begin(_) => me.Idle?
       case WakeDrain(_) => me.Draining? && me.chan < s.gate.changed
       case CancelDrain(_) => me.Draining?
       case End(_) => me.Holding? || me.Spent?
       case Rest(_) => me.Spent?
  }

  function AfterBegin(b: Begun): Proc {
    match b
    case AlreadyRunning => Idle
    case Drained => Holding
    case MustWait(c) => Draining(c)
  }

  function Apply(s: System, a: Action): System
    requires Enabled(s, a)
  {
    var p := a.p;
    match a
    case Enter(_) =>
      var (g, r) := EnterSection(s.gate);
      s.(gate := g, procs := s.procs[p := if r.Admit? then Admitted else Waiting(r.changed)])
    case CancelEnter(_) => s.(procs := s.procs[p := Idle])
    case Done(_) =>
      if s.procs[p].Spent? then s // sync.Once: a second call does nothing
      else if s.gate.inFlight == 0 then s.(panicked := true)
      else s.(gate := LeaveSection(s.gate), procs := s.procs[p := Spent])
    case Begin(_) =>
      var (g, b) := BeginSection(s.gate);
      s.(gate := g, procs := s.procs[p := AfterBegin(b)])
    case WakeDrain(_) => s.(procs := s.procs[p := AfterBegin(DrainCheck(s.gate))])
    case CancelDrain(_) => s.(gate := ReopenSection(s.gate), procs := s.procs[p := Idle])
    case End(_) =>
      if s.procs[p].Spent? then s else s.(gate := ReopenSection(s.gate), procs := s.procs[p := Spent])
    case Rest(_) => s.(procs := s.procs[p := Idle])
  }

  ghost predicate Init(s: System) {
    s.gate == Gate(false, 0, 0) && !s.panicked && forall p :: 0 <= p < |s.procs| ==> s.procs[p] == Idle
  }

  ghost predicate Next(s: System, t: System) {
    exists a :: Enabled(s, a) && t == Apply(s, a)
  }

  ghost predicate Run(tr: seq<System>) {
    |tr| > 0 && Init(tr[0]) && forall i :: 0 < i < |tr| ==> Next(tr[i - 1], tr[i])
  }

  function Admissions(procs: seq<Proc>): nat {
    if procs == [] then 0
    else Admissions(procs[..|procs| - 1]) + if procs[|procs| - 1].Admitted? then 1 else 0
  }

  function One(p: Proc): nat { if p.Admitted? then 1 else 0 }

  lemma {:induction false} AdmissionsUpdate(procs: seq<Proc>, p: nat, to: Proc)
    requires p < |procs|
    ensures Admissions(procs[p := to]) + One(procs[p]) == Admissions(procs) + One(to)
  {
    var last := |procs| - 1;
    if p == last {
      assert procs[p := to][..last] == procs[..last];
    } else {
      assert procs[p := to][..last] == procs[..last][p := to];
      AdmissionsUpdate(procs[..last], p, to);
    }
  }

  lemma {:induction false} AdmissionsZero(procs: seq<Proc>, p: nat)
    requires p < |procs|
    ensures procs[p].Admitted? ==> Admissions(procs) > 0
  {
    var last := |procs| - 1;
    if p < last {
      AdmissionsZero(procs[..last], p);
    }
  }

  predicate InWindow(p: Proc) { p.Draining? || p.Holding? }

  /** What one goroutine's position says about the gate. */
  predicate ProcOk(g: Gate, p: Proc) {
    match p
    case Waiting(c) => c < g.changed || (c == g.changed && g.maintenance)
    case Draining(c) => g.maintenance && (c < g.changed || (c == g.changed && g.inFlight > 0))
    case Holding => g.maintenance && g.inFlight == 0
    case _ => true
  }

  /** At most one goroutine is in a maintenance window. */
  predicate OneWindow(s: System) {
    forall p, q :: 0 <= p < |s.procs| && 0 <= q < |s.procs| ==> InWindow(s.procs[p]) && InWindow(s.procs[q]) ==> p == q
  }

  ghost predicate Inv(s: System) {
    && !s.panicked
    && s.gate.inFlight == Admissions(s.procs)
    && (forall p :: 0 <= p < |s.procs| ==> ProcOk(s.gate, s.procs[p]))
    && OneWindow(s)
    && (s.gate.maintenance ==> exists p :: 0 <= p < |s.procs| && InWindow(s.procs[p]))
  }

  lemma {:induction false} InitAdmissions(procs: seq<Proc>)
    requires forall p :: 0 <= p < |procs| ==> procs[p] == Idle
    ensures Admissions(procs) == 0
  {
    if procs != [] {
      InitAdmissions(procs[..|procs| - 1]);
    }
  }

  lemma ProcsKept(s: System, a: Action, p: nat)
    requires Inv(s) && Enabled(s, a) && p < |s.procs|
    ensures ProcOk(Apply(s, a).gate, Apply(s, a).procs[p])
  {
    hide Admissions;
    AdmissionsZero(s.procs, a.p);
    assert ProcOk(s.gate, s.procs[p]) && ProcOk(s.gate, s.procs[a.p]);
    assert InWindow(s.procs[p]) && InWindow(s.procs[a.p]) ==> p == a.p;
  }

  lemma CountKept(s: System, a: Action)
    requires Inv(s) && Enabled(s, a)
    ensures !Apply(s, a).panicked && Apply(s, a).gate.inFlight == Admissions(Apply(s, a).procs)
  {
    hide Admissions;
    AdmissionsUpdate(s.procs, a.p, Apply(s, a).procs[a.p]);
    AdmissionsZero(s.procs, a.p);
    assert ProcOk(s.gate, s.procs[a.p]);
    assert s.procs[a.p := s.procs[a.p]] == s.procs;
  }

  lemma WindowKept(s: System, a: Action)
    requires Inv(s) && Enabled(s, a)
    ensures var t := Apply(s, a);
            && (t.gate.maintenance ==> exists p :: 0 <= p < |t.procs| && InWindow(t.procs[p]))
            && OneWindow(t)
  {
    ActorWindow(s, a);
    var t := Apply(s, a);
    hide Admissions, Apply, Enabled;
    if s.gate.maintenance {
      var w :| 0 <= w < |s.procs| && InWindow(s.procs[w]);
      assert t.gate.maintenance ==> InWindow(t.procs[w]);
    } else {
      assert forall p :: 0 <= p < |s.procs| ==> ProcOk(s.gate, s.procs[p]);
      assert forall p :: 0 <= p < |s.procs| ==> !InWindow(s.procs[p]);
      assert t.gate.maintenance ==> InWindow(t.procs[a.p]);
    }
  }

  /** Only the actor moves, and it enters a window only by taking the flag and leaves one only by clearing it. */
  lemma ActorWindow(s: System, a: Action)
    requires Inv(s) && Enabled(s, a)
    ensures var t := Apply(s, a);
            && a.p < |s.procs| && t.procs == s.procs[a.p := t.procs[a.p]] && |t.procs| == |s.procs|
            && (InWindow(t.procs[a.p]) ==> t.gate.maintenance && (InWindow(s.procs[a.p]) || !s.gate.maintenance))
            && (t.gate.maintenance ==> s.gate.maintenance || InWindow(t.procs[a.p]))
            && (InWindow(s.procs[a.p]) && t.gate.maintenance ==> InWindow(t.procs[a.p]))
  {
    hide Admissions;
    assert ProcOk(s.gate, s.procs[a.p]);
  }

  lemma StepKeepsInv(s: System, t: System)
    requires Inv(s) && Next(s, t)
    ensures Inv(t)
  {
    var a :| Enabled(s, a) && t == Apply(s, a);
    hide Admissions, ProcOk, Inv;
    CountKept(s, a);
    WindowKept(s, a);
    forall p | 0 <= p < |s.procs|
      ensures ProcOk(t.gate, t.procs[p])
    {
      ProcsKept(s, a, p);
    }
    InvIs(t);
  }

  lemma InvIs(t: System)
    requires !t.panicked && t.gate.inFlight == Admissions(t.procs)
    requires forall p :: 0 <= p < |t.procs| ==> ProcOk(t.gate, t.procs[p])
    requires OneWindow(t)
    requires t.gate.maintenance ==> exists p :: 0 <= p < |t.procs| && InWindow(t.procs[p])
    ensures Inv(t)
  {
  }

  lemma {:induction false} RunInv(tr: seq<System>, k: nat)
    requires Run(tr) && k < |tr|
    ensures Inv(tr[k])
  {
    if k == 0 {
      InitAdmissions(tr[0].procs);
    } else {
      RunInv(tr, k - 1);
      assert Next(tr[k - 1], tr[k]);
      StepKeepsInv(tr[k - 1], tr[k]);
    }
  }

  /** While a window is held nothing is in flight, no goroutine is admitted and no other window is open. */
  lemma WindowExcludesData(tr: seq<System>, k: nat, p: nat, q: nat)
    requires Run(tr) && k < |tr| && p < |tr[k].procs| && q < |tr[k].procs| && tr[k].procs[p].Holding?
    ensures tr[k].gate.inFlight == 0 && !tr[k].procs[q].Admitted?
    ensures InWindow(tr[k].procs[q]) ==> q == p
    ensures Enabled(tr[k], Enter(q)) ==> !Apply(tr[k], Enter(q)).procs[q].Admitted?
  {
    RunInv(tr, k);
    AdmissionsZero(tr[k].procs, q);
    assert ProcOk(tr[k].gate, tr[k].procs[p]);
  }

  /** The count is the number of unreleased admissions, so leaving never panics. */
  lemma CountIsAdmissions(tr: seq<System>, k: nat)
    requires Run(tr) && k < |tr|
    ensures tr[k].gate.inFlight == Admissions(tr[k].procs) && !tr[k].panicked
  {
    RunInv(tr, k);
  }

  /** No lost wakeup: a goroutine blocked on a channel that is still open has a real reason to wait. */
  lemma BlockedForReason(tr: seq<System>, k: nat, p: nat)
    requires Run(tr) && k < |tr| && p < |tr[k].procs|
    ensures tr[k].procs[p].Waiting? && tr[k].procs[p].chan >= tr[k].gate.changed ==>
              tr[k].gate.maintenance && exists q :: 0 <= q < |tr[k].procs| && InWindow(tr[k].procs[q])
    ensures tr[k].procs[p].Draining? && tr[k].procs[p].chan >= tr[k].gate.changed ==>
              exists q :: 0 <= q < |tr[k].procs| && tr[k].procs[q].Admitted?
  {
    RunInv(tr, k);
    assert ProcOk(tr[k].gate, tr[k].procs[p]);
    if tr[k].gate.inFlight > 0 {
      var q := SomeAdmitted(tr[k].procs);
    }
  }

  lemma {:induction false} SomeAdmitted(procs: seq<Proc>) returns (q: nat)
    requires Admissions(procs) > 0
    ensures q < |procs| && procs[q].Admitted?
  {
    var last := |procs| - 1;
    if procs[last].Admitted? {
      q := last;
    } else {
      q := SomeAdmitted(procs[..last]);
    }
  }

  // ---- What the gate grants ----

  /** While no window is pending or open every pass of enter admits, and otherwise none does. */
  lemma EnterAnswers(s: System, p: nat)
    requires Enabled(s, Enter(p))
    ensures var t := Apply(s, Enter(p));
            if s.gate.maintenance then t.procs[p].Waiting? && t.gate == s.gate
            else t.procs[p].Admitted? && t.gate.inFlight == s.gate.inFlight + 1 && !t.gate.maintenance
  {
  }

  /**
    A goroutine that asks for the window of a free gate gets it: at once if nothing is in flight, and
    otherwise it is the one that drains; if the window is taken it is turned away with nothing changed.
   */
  lemma BeginAnswers(s: System, p: nat)
    requires Enabled(s, Begin(p))
    ensures var t := Apply(s, Begin(p));
            if s.gate.maintenance then t == s
            else
              && t.gate.maintenance && t.gate.inFlight == s.gate.inFlight
              && (t.procs[p].Holding? <==> s.gate.inFlight == 0) && (t.procs[p].Draining? <==> s.gate.inFlight > 0)
  {
  }

  /** Whoever waits goes on exactly when the channel it waits on has been closed. */
  lemma WakesOnSignal(s: System, p: nat)
    requires p < |s.procs| && (s.procs[p].Waiting? || s.procs[p].Draining?)
    ensures Enabled(s, if s.procs[p].Waiting? then Enter(p) else WakeDrain(p)) <==> s.procs[p].chan < s.gate.changed
  {
  }

  /** A done function counts its admission down once; called again it does nothing. */
  lemma DoneAnswers(s: System, p: nat)
    requires Enabled(s, Done(p))
    ensures var t := Apply(s, Done(p));
            && (s.procs[p].Spent? ==> t == s)
            && (s.procs[p].Admitted? && s.gate.inFlight > 0 ==>
                  && t.gate.inFlight == s.gate.inFlight - 1 && t.procs[p].Spent? && t.panicked == s.panicked
                  && (t.gate.changed > s.gate.changed <==> t.gate.inFlight == 0))
            && (s.procs[p].Admitted? && s.gate.inFlight == 0 ==> t.panicked)
  {
  }

  /** Giving up a wait, or going on after an end, changes nothing but that the goroutine is free again. */
  lemma IdleAgain(s: System, p: nat, a: Action)
    requires a == CancelEnter(p) || a == Rest(p)
    requires Enabled(s, a)
    ensures Apply(s, a).gate == s.gate && Apply(s, a).procs[p].Idle?
    ensures a == CancelEnter(p) <==> s.procs[p].Waiting?
  {
  }

  /** A drain that is woken holds the window exactly when nothing is in flight any more. */
  lemma DrainAnswers(s: System, p: nat)
    requires Enabled(s, WakeDrain(p))
    ensures var t := Apply(s, WakeDrain(p));
            && t.gate == s.gate && (t.procs[p].Holding? <==> s.gate.inFlight == 0)
            && (t.procs[p].Draining? <==> s.gate.inFlight > 0)
  {
  }

  /** Giving a window up, after it was held or while it drains, opens the gate again. */
  lemma EndReopens(s: System, p: nat, a: Action)
    requires a == End(p) || a == CancelDrain(p)
    requires p < |s.procs| && InWindow(s.procs[p])
    ensures Enabled(s, a) <==> (if a.End? then s.procs[p].Holding? else s.procs[p].Draining?)
    ensures Enabled(s, a) ==>
              var t := Apply(s, a);
              && !t.gate.maintenance && t.gate.inFlight == s.gate.inFlight && t.gate.changed > s.gate.changed
              && !InWindow(t.procs[p])
  {
  }

  /** The last one out wakes the drain: in every run, once nothing is in flight the drain can go on. */
  lemma DrainCanFinish(tr: seq<System>, i: nat, p: nat)
    requires Run(tr) && i < |tr| && p < |tr[i].procs| && tr[i].procs[p].Draining? && tr[i].gate.inFlight == 0
    ensures Enabled(tr[i], WakeDrain(p)) && Apply(tr[i], WakeDrain(p)).procs[p].Holding?
  {
    RunInv(tr, i);
    assert ProcOk(tr[i].gate, tr[i].procs[p]);
  }

  /** Whoever waits to enter can go on, and is admitted, as soon as the gate is open. */
  lemma WaiterCanEnter(tr: seq<System>, i: nat, p: nat)
    requires Run(tr) && i < |tr| && p < |tr[i].procs| && tr[i].procs[p].Waiting? && !tr[i].gate.maintenance
    ensures Enabled(tr[i], Enter(p)) && Apply(tr[i], Enter(p)).procs[p].Admitted?
  {
    RunInv(tr, i);
    assert ProcOk(tr[i].gate, tr[i].procs[p]);
  }
}
