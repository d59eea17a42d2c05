/**
  Fail-closed poisoning on one daemon rank (cmd/jaccld/transport.go), without the
  experimental heartbeat: concurrent Send/Recv, mesh exchange and Maintain calls over the
  rank's connections, each with a mutex and a poison mark that Maintain sets on error.

  Over every interleaving the poisoned connections are none or all whenever no Maintain is
  in the middle of marking them, a Maintain that fails after its pre-barrier leaves all of
  them poisoned, a mark never clears, and no work is ever posted on a poisoned connection.
 */
module Poison {

  /** Where a call is. Connections are numbered 0..k; errors leave through the same unlock as success. */
  datatype Call =
    | Idle
    | DirectCheck(peer: nat) | DirectLock(peer: nat) | DirectRecheck(peer: nat) | DirectPost(peer: nat)
    | MeshLock(next: nat) | MeshCheck(next: nat) | MeshPost
    | MaintLock(next: nat) | MaintPre | MaintCheck(next: nat) | MaintWork
    | MaintAfter(failed: bool)                  // about to enter the post-barrier
    | MaintMark(next: nat, after: Then)          // poisonMaintenance
    | MaintDone(failed: bool, passedPre: bool)  // about to unlock and return

  datatype Then = ToPostBarrier | ToReturn

  datatype Owner = NoOne | Held(call: nat)

  datatype Post = Post(peer: nat, poisoned: bool)

  datatype State = State(calls: seq<Call>, locks: seq<Owner>, poison: seq<bool>, posts: seq<Post>)

  datatype Action =
    | Start(call: nat, first: Call)
    | Step(call: nat, ok: bool)     // ok: what the barrier, the pending check or the provider answers
    | DoPost(call: nat, peer: nat)

  predicate Entry(k: nat, c: Call) {
    match c
    case DirectCheck(p) => p < k
    case MeshLock(i) => i == 0
    case MaintLock(i) => i == 0
    case _ => false
  }

  /** The connection a call must lock next, if any. */
  predicate Locking(k: nat, c: Call) {
    match c
    case DirectLock(p) => p < k
    case MeshLock(i) => i < k
    case MaintLock(i) => i < k
    case _ => false
  }

  function LockWanted(c: Call): nat {
    match c
    case DirectLock(p) => p
    case MeshLock(i) => i
    case MaintLock(i) => i
    case _ => 0
  }

  predicate Posting(c: Call, peer: nat) {
    c.MeshPost? || c.MaintWork? || c == DirectPost(peer)
  }

  predicate Shaped(k: nat, s: State) { |s.locks| == |s.poison| == k }

  predicate Enabled(k: nat, s: State, a: Action)
    requires Shaped(k, s)
  {
    && a.call < |s.calls|
    && var c := s.calls[a.call];
       match a
       case Start(_, first) => c.Idle? && Entry(k, first)
       case Step(_, _) => !c.Idle? && (Locking(k, c) ==> s.locks[LockWanted(c)].NoOne?)
       case DoPost(_, peer) => peer < k && Posting(c, peer)
  }

  /** Where a call goes next, given the marks it reads. */
  function NextCall(k: nat, poison: seq<bool>, c: Call, ok: bool): Call
    requires |poison| == k
  {
    match c
    case Idle => Idle
    case DirectCheck(p) => if p < k && poison[p] then Idle else DirectLock(p)
    case DirectLock(p) => DirectRecheck(p)
    case DirectRecheck(p) => if p < k && poison[p] then Idle else DirectPost(p)
    case DirectPost(_) => Idle
    case MeshLock(i) => if i < k then MeshLock(i + 1) else MeshCheck(0)
    case MeshCheck(i) => if i >= k then MeshPost else if poison[i] then Idle else MeshCheck(i + 1)
    case MeshPost => Idle
    case MaintLock(i) => if i < k then MaintLock(i + 1) else MaintPre
    case MaintPre => if ok then MaintCheck(0) else MaintDone(true, false)
    case MaintCheck(i) =>
      if i >= k then MaintWork
      else if poison[i] then MaintAfter(true)
      else if ok then MaintCheck(i + 1)
      else MaintMark(0, ToPostBarrier)
    case MaintWork => if ok then MaintAfter(false) else MaintMark(0, ToPostBarrier)
    case MaintAfter(failed) =>
      if ok then MaintDone(failed, true) else if failed then MaintDone(true, true) else MaintMark(0, ToReturn)
    case MaintMark(i, after) =>
      if i < k then MaintMark(i + 1, after)
      else if after.ToPostBarrier? then MaintAfter(true) else MaintDone(true, true)
    case MaintDone(_, _) => Idle
  }

  /** Which connections a call at this point holds. */
  predicate Holds(c: Call, j: nat) {
    match c
    case DirectRecheck(p) => j == p
    case DirectPost(p) => j == p
    case MeshLock(i) => j < i
    case MaintLock(i) => j < i
    case MeshCheck(_) => true
    case MeshPost => true
    case MaintPre => true
    case MaintCheck(_) => true
    case MaintWork => true
    case MaintAfter(_) => true
    case MaintMark(_, _) => true
    case MaintDone(_, _) => true
    case _ => false
  }

  /** Locks taken or released by call t as it moves from c to d. */
  function Relock(locks: seq<Owner>, t: nat, c: Call, d: Call): (l: seq<Owner>)
    ensures |l| == |locks|
  {
    seq(|locks|, j requires 0 <= j < |locks| =>
      if Holds(d, j) then (if Holds(c, j) then locks[j] else Held(t))
      else if Holds(c, j) then NoOne else locks[j])
  }

  function Apply(k: nat, s: State, a: Action): State
    requires Shaped(k, s) && Enabled(k, s, a)
  {
    var c := s.calls[a.call];
    match a
    case Start(t, first) => s.(calls := s.calls[t := first])
    case Step(t, ok) =>
      var d := NextCall(k, s.poison, c, ok);
      s.(calls := s.calls[t := d], locks := Relock(s.locks, t, c, d),
         poison := if c.MaintMark? && c.next < k then s.poison[c.next := true] else s.poison)
    case DoPost(_, peer) => s.(posts := s.posts + [Post(peer, s.poison[peer])])
  }

  ghost predicate Init(k: nat, s: State) {
    && Shaped(k, s) && s.posts == []
    && (forall t :: 0 <= t < |s.calls| ==> s.calls[t].Idle?)
    && (forall j :: 0 <= j < k ==> s.locks[j].NoOne? && !s.poison[j])
  }

  ghost predicate Next(k: nat, s: State, t: State) {
    Shaped(k, s) && exists a :: Enabled(k, s, a) && t == Apply(k, s, a)
  }

  ghost predicate Run(k: nat, tr: seq<State>) {
    |tr| > 0 && Init(k, tr[0]) && forall i :: 0 < i < |tr| ==> Next(k, tr[i - 1], tr[i])
  }

  /** A run together with the action of each step. */
  ghost predicate Traced(k: nat, tr: seq<State>, acts: seq<Action>) {
    && |tr| == |acts| + 1 && Init(k, tr[0])
    && forall i :: 0 <= i < |acts| ==>
         Shaped(k, tr[i]) && Enabled(k, tr[i], acts[i]) && tr[i + 1] == Apply(k, tr[i], acts[i])
  }

  // ---- Invariant ----

  /** The first i marks are clear. */
  predicate Clear(poison: seq<bool>, i: nat) { forall j :: 0 <= j < i && j < |poison| ==> !poison[j] }

  predicate AllMarked(poison: seq<bool>) { forall j :: 0 <= j < |poison| ==> poison[j] }

  predicate NoneMarked(poison: seq<bool>) { forall j :: 0 <= j < |poison| ==> !poison[j] }

  predicate Marking(c: Call) { c.MaintMark? }

  /** What a call's position says about the marks. */
  predicate CallOk(k: nat, poison: seq<bool>, c: Call)
    requires |poison| == k
  {
    match c
    case DirectCheck(p) => p < k
    case DirectLock(p) => p < k
    case DirectRecheck(p) => p < k
    case DirectPost(p) => p < k && !poison[p]
    case MeshLock(i) => i <= k
    case MaintLock(i) => i <= k
    case MeshCheck(i) => i <= k && Clear(poison, i)
    case MeshPost => NoneMarked(poison)
    case MaintCheck(i) => i <= k && Clear(poison, i)
    case MaintWork => NoneMarked(poison)
    case MaintAfter(failed) => if failed then AllMarked(poison) else NoneMarked(poison)
    case MaintMark(i, _) => i <= k && forall j :: 0 <= j < k ==> (poison[j] <==> j < i)
    case MaintDone(failed, passedPre) => failed && passedPre ==> AllMarked(poison)
    case _ => true
  }

  /** The owner of a lock is the one call whose position holds it. */
  ghost predicate LocksOk(s: State) {
    && (forall j, t :: 0 <= j < |s.locks| && 0 <= t < |s.calls| ==> (s.locks[j] == Held(t) <==> Holds(s.calls[t], j)))
    && (forall j :: 0 <= j < |s.locks| && s.locks[j].Held? ==> s.locks[j].call < |s.calls|)
  }

  ghost predicate Inv(k: nat, s: State) {
    && Shaped(k, s) && LocksOk(s)
    && (forall t :: 0 <= t < |s.calls| ==> CallOk(k, s.poison, s.calls[t]))
    && (AllMarked(s.poison) || NoneMarked(s.poison) || exists t :: 0 <= t < |s.calls| && Marking(s.calls[t]))
    && (forall i :: 0 <= i < |s.posts| ==> !s.posts[i].poisoned)
  }

  /** A call that holds everything excludes every other holder. */
  lemma SoleHolder(k: nat, s: State, t: nat, u: nat, j: nat)
    requires Shaped(k, s) && LocksOk(s) && t < |s.calls| && u < |s.calls| && t != u && j < k
    requires Holds(s.calls[t], j)
    ensures !Holds(s.calls[u], j)
  {
    assert s.locks[j] == Held(t);
  }

  lemma LocksKept(k: nat, s: State, a: Action)
    requires Inv(k, s) && Enabled(k, s, a)
    ensures LocksOk(Apply(k, s, a))
  {
    hide CallOk, AllMarked, NoneMarked;
    assert CallOk(k, s.poison, s.calls[a.call]);
    if a.Step? {
      var c := s.calls[a.call];
      var d := NextCall(k, s.poison, c, a.ok);
      forall j | 0 <= j < k && Holds(d, j) && !Holds(c, j)
        ensures s.locks[j].NoOne?
      {
        assert Locking(k, c) && LockWanted(c) == j;
      }
      var n := Apply(k, s, a);
      forall j, u | 0 <= j < |n.locks| && 0 <= u < |n.calls|
        ensures n.locks[j] == Held(u) <==> Holds(n.calls[u], j)
      {
        assert s.locks[j] == Held(u) <==> Holds(s.calls[u], j);
        assert s.locks[j] == Held(a.call) <==> Holds(c, j);
      }
      forall j | 0 <= j < |n.locks| && n.locks[j].Held?
        ensures n.locks[j].call < |n.calls|
      {
        assert s.locks[j].Held? ==> s.locks[j].call < |s.calls|;
      }
    } else {
      assert !Holds(s.calls[a.call], 0) || a.DoPost?;
    }
  }

  /** Every call but the marking one is undisturbed when a mark is set, because the marker holds every lock. */
  lemma CallKept(k: nat, s: State, a: Action, u: nat)
    requires Inv(k, s) && Enabled(k, s, a) && u < |s.calls|
    ensures Shaped(k, Apply(k, s, a)) && CallOk(k, Apply(k, s, a).poison, Apply(k, s, a).calls[u])
  {
    hide Relock;
    var t := a.call;
    var c := s.calls[t];
    assert CallOk(k, s.poison, s.calls[u]) && CallOk(k, s.poison, c);
    if a.Step? && c.MaintMark? && c.next < k {
      if u != t {
        SoleHolder(k, s, t, u, c.next);
        assert s.calls[u].DirectPost? ==> !Holds(s.calls[u], s.calls[u].peer) by {
          if s.calls[u].DirectPost? {
            SoleHolder(k, s, t, u, s.calls[u].peer);
          }
        }
      }
    } else if a.Step? && u == t && c.MaintCheck? && c.next < k {
      NobodyElseMarks(k, s, t);
    }
  }

  /** While a call holds every lock nobody else is marking. */
  lemma NobodyElseMarks(k: nat, s: State, t: nat)
    requires Inv(k, s) && k > 0 && t < |s.calls| && Holds(s.calls[t], 0) && !Marking(s.calls[t])
    ensures AllMarked(s.poison) || NoneMarked(s.poison)
  {
    forall u | 0 <= u < |s.calls|
      ensures !Marking(s.calls[u])
    {
      if u != t {
        SoleHolder(k, s, t, u, 0);
      }
    }
  }

  lemma MarksKept(k: nat, s: State, a: Action)
    requires Inv(k, s) && Enabled(k, s, a)
    ensures var t := Apply(k, s, a);
            AllMarked(t.poison) || NoneMarked(t.poison) || exists u :: 0 <= u < |t.calls| && Marking(t.calls[u])
  {
    var t := Apply(k, s, a);
    var c := s.calls[a.call];
    assert CallOk(k, s.poison, c);
    if a.Step? && Marking(c) {
      if c.next < k {
        assert Marking(t.calls[a.call]);
      }
    } else if !AllMarked(s.poison) && !NoneMarked(s.poison) {
      var u :| 0 <= u < |s.calls| && Marking(s.calls[u]);
      assert Marking(t.calls[u]);
    }
  }

  lemma StepKeepsInv(k: nat, s: State, t: State)
    requires Inv(k, s) && Next(k, s, t)
    ensures Inv(k, t)
  {
    var a :| Enabled(k, s, a) && t == Apply(k, s, a);
    LocksKept(k, s, a);
    MarksKept(k, s, a);
    forall u | 0 <= u < |t.calls|
      ensures CallOk(k, t.poison, t.calls[u])
    {
      CallKept(k, s, a, u);
    }
    if a.DoPost? {
      assert CallOk(k, s.poison, s.calls[a.call]);
    }
  }

  lemma {:induction false} RunInv(k: nat, tr: seq<State>, i: nat)
    requires Run(k, tr) && i < |tr|
    ensures Inv(k, tr[i])
  {
    if i > 0 {
      RunInv(k, tr, i - 1);
      assert Next(k, tr[i - 1], tr[i]);
      StepKeepsInv(k, tr[i - 1], tr[i]);
    }
  }

  // ---- Results ----

  /** Unless some Maintain is in the middle of marking, the poisoned connections are none or all. */
  lemma NoneOrAll(k: nat, tr: seq<State>, i: nat)
    requires Run(k, tr) && i < |tr|
    requires forall t :: 0 <= t < |tr[i].calls| ==> !Marking(tr[i].calls[t])
    ensures AllMarked(tr[i].poison) || NoneMarked(tr[i].poison)
  {
    RunInv(k, tr, i);
  }

  /** A Maintain that returns an error after its pre-barrier leaves every connection poisoned. */
  lemma FailedMaintainPoisonsAll(k: nat, tr: seq<State>, i: nat, t: nat)
    requires Run(k, tr) && i < |tr| && t < |tr[i].calls| && tr[i].calls[t] == MaintDone(true, true)
    ensures AllMarked(tr[i].poison)
  {
    RunInv(k, tr, i);
    assert CallOk(k, tr[i].poison, tr[i].calls[t]);
  }

  /** Marks never clear. */
  lemma {:induction false} PoisonStays(k: nat, tr: seq<State>, i: nat, n: nat, j: nat)
    requires Run(k, tr) && i <= n < |tr| && j < |tr[i].poison| && tr[i].poison[j]
    ensures j < |tr[n].poison| && tr[n].poison[j]
    decreases n
  {
    if i < n {
      PoisonStays(k, tr, i, n - 1, j);
      assert Next(k, tr[n - 1], tr[n]);
    }
  }

  /** No post in any run was made on a connection that was poisoned at the time. */
  lemma NeverPostsPoisoned(k: nat, tr: seq<State>, i: nat, p: nat)
    requires Run(k, tr) && i < |tr| && p < |tr[i].posts|
    ensures !tr[i].posts[p].poisoned
  {
    RunInv(k, tr, i);
  }

  /** Once every connection is poisoned and marking is over, nothing is ever posted again. */
  lemma MarkedStepIsSilent(k: nat, s: State, t: State)
    requires Inv(k, s) && Next(k, s, t) && AllMarked(s.poison)
    ensures t.posts == s.posts && AllMarked(t.poison)
  {
    hide LocksOk, Relock;
    var a :| Enabled(k, s, a) && t == Apply(k, s, a);
    assert CallOk(k, s.poison, s.calls[a.call]);
  }

  /** Once every connection is poisoned, nothing is ever posted again. */
  lemma {:induction false} PoisonedRankIsSilent(k: nat, tr: seq<State>, i: nat, n: nat)
    requires Run(k, tr) && i <= n < |tr| && AllMarked(tr[i].poison)
    ensures tr[n].posts == tr[i].posts && AllMarked(tr[n].poison)
    decreases n
  {
    if i < n {
      hide Inv, Next;
      PoisonedRankIsSilent(k, tr, i, n - 1);
      RunInv(k, tr, n - 1);
      assert Next(k, tr[n - 1], tr[n]);
      MarkedStepIsSilent(k, tr[n - 1], tr[n]);
    }
  }

  // ---- What the answers decide ----

  lemma TracedIsRun(k: nat, tr: seq<State>, acts: seq<Action>)
    requires Traced(k, tr, acts)
    ensures Run(k, tr)
  {
    forall i | 0 < i < |tr|
      ensures Next(k, tr[i - 1], tr[i])
    {
      assert Enabled(k, tr[i - 1], acts[i - 1]) && tr[i] == Apply(k, tr[i - 1], acts[i - 1]);
    }
  }

  lemma TracedInv(k: nat, tr: seq<State>, acts: seq<Action>, i: nat)
    requires Traced(k, tr, acts) && i < |tr|
    ensures Inv(k, tr[i])
  {
    TracedIsRun(k, tr, acts);
    RunInv(k, tr, i);
  }

  /** A barrier, a pending check or the provider has answered call t with an error. */
  ghost predicate Refused(k: nat, s: State, a: Action, t: nat) {
    a == Step(t, false) && t < |s.calls|
    && (s.calls[t].MaintPre? || s.calls[t].MaintWork? || s.calls[t].MaintAfter?
        || (s.calls[t].MaintCheck? && s.calls[t].next < k))
  }

  ghost predicate SomeRefusal(k: nat, tr: seq<State>, acts: seq<Action>, i: nat, n: nat, t: nat) {
    exists j :: i <= j < n && j < |acts| && j < |tr| && Refused(k, tr[j], acts[j], t)
  }

  /** Where a Maintain stands that met the marks start after its pre-barrier answered pre. */
  ghost predicate Course(k: nat, start: seq<bool>, pre: bool, refused: bool, poison: seq<bool>, c: Call) {
    match c
    case MaintCheck(_) => pre && !refused && poison == start
    case MaintWork => pre && !refused && poison == start && NoneMarked(start)
    case MaintAfter(failed) =>
      pre && if failed then refused || !NoneMarked(start) else !refused && poison == start && NoneMarked(start)
    case MaintMark(_, _) => pre && refused
    case MaintDone(failed, passedPre) =>
      && pre == passedPre && (!pre ==> failed && poison == start)
      && (failed <==> refused || !NoneMarked(start)) && (!failed ==> poison == start)
    case _ => false
  }

  /** While a Maintain holds every lock no other call sets a mark. */
  lemma OthersLeaveMarks(k: nat, s: State, a: Action, t: nat)
    requires Inv(k, s) && Enabled(k, s, a) && t < |s.calls| && a.call != t && forall j: nat :: Holds(s.calls[t], j)
    ensures Apply(k, s, a).poison == s.poison && Apply(k, s, a).calls[t] == s.calls[t]
  {
    hide Relock, CallOk, AllMarked, NoneMarked;
    if k > 0 && Marking(s.calls[a.call]) {
      SoleHolder(k, s, t, a.call, 0);
    }
  }

  lemma OwnStep(k: nat, s: State, a: Action, t: nat, start: seq<bool>, refused: bool)
    requires Inv(k, s) && Enabled(k, s, a) && t < |s.calls| && a.call == t
    requires Course(k, start, true, refused, s.poison, s.calls[t]) && !s.calls[t].MaintDone?
    ensures var n := Apply(k, s, a);
            Course(k, start, true, refused || Refused(k, s, a, t), n.poison, n.calls[t])
  {
    hide Relock, LocksOk;
    assert CallOk(k, s.poison, s.calls[t]);
    if s.calls[t].MaintCheck? && s.calls[t].next < k {
      assert s.poison[s.calls[t].next] ==> !NoneMarked(start);
    }
  }

  lemma FirstStep(k: nat, s: State, a: Action, t: nat)
    requires Inv(k, s) && Enabled(k, s, a) && t < |s.calls| && a.Step? && a.call == t && s.calls[t].MaintPre?
    ensures var n := Apply(k, s, a);
            Refused(k, s, a, t) == !a.ok && Course(k, s.poison, a.ok, !a.ok, n.poison, n.calls[t])
  {
    hide Relock, LocksOk, CallOk;
  }

  lemma RefusalSplits(k: nat, tr: seq<State>, acts: seq<Action>, i: nat, n: nat, t: nat)
    requires i <= n < |acts| < |tr|
    ensures SomeRefusal(k, tr, acts, i, n + 1, t) <==>
              SomeRefusal(k, tr, acts, i, n, t) || Refused(k, tr[n], acts[n], t)
  {
    hide Refused;
    if SomeRefusal(k, tr, acts, i, n, t) {
      var j :| i <= j < n && Refused(k, tr[j], acts[j], t);
      assert i <= j < n + 1 && Refused(k, tr[j], acts[j], t);
    }
  }

  lemma HoldsOn(k: nat, start: seq<bool>, pre: bool, refused: bool, poison: seq<bool>, c: Call)
    requires Course(k, start, pre, refused, poison, c)
    ensures forall j: nat :: Holds(c, j)
  {
  }

  lemma {:induction false} MaintainCourse(k: nat, tr: seq<State>, acts: seq<Action>, i: nat, n: nat, t: nat)
    requires Traced(k, tr, acts) && i < n < |tr| && t < |tr[i].calls| && tr[i].calls[t].MaintPre?
    requires acts[i].Step? && acts[i].call == t
    requires forall j :: i < j < n ==> t < |tr[j].calls| && !tr[j].calls[t].MaintDone?
    ensures t < |tr[n].calls|
    ensures Course(k, tr[i].poison, acts[i].ok, SomeRefusal(k, tr, acts, i, n, t), tr[n].poison, tr[n].calls[t])
    decreases n
  {
    hide Course, Inv, Refused, SomeRefusal;
    TracedInv(k, tr, acts, n - 1);
    RefusalSplits(k, tr, acts, i, n - 1, t);
    var a := acts[n - 1];
    if n == i + 1 {
      NoRefusalYet(k, tr, acts, i, t);
      FirstStep(k, tr[i], a, t);
    } else {
      MaintainCourse(k, tr, acts, i, n - 1, t);
      var refused := SomeRefusal(k, tr, acts, i, n - 1, t);
      PassedPre(k, tr[i].poison, acts[i].ok, refused, tr[n - 1].poison, tr[n - 1].calls[t]);
      if a.call == t {
        OwnStep(k, tr[n - 1], a, t, tr[i].poison, refused);
      } else {
        HoldsOn(k, tr[i].poison, acts[i].ok, refused, tr[n - 1].poison, tr[n - 1].calls[t]);
        OthersLeaveMarks(k, tr[n - 1], a, t);
        OthersNotRefused(k, tr[n - 1], a, t);
      }
    }
  }

  lemma NoRefusalYet(k: nat, tr: seq<State>, acts: seq<Action>, i: nat, t: nat)
    ensures !SomeRefusal(k, tr, acts, i, i, t)
  {
  }

  lemma PassedPre(k: nat, start: seq<bool>, pre: bool, refused: bool, poison: seq<bool>, c: Call)
    requires Course(k, start, pre, refused, poison, c) && !c.MaintDone?
    ensures pre
  {
  }

  lemma OthersNotRefused(k: nat, s: State, a: Action, t: nat)
    requires a.call != t
    ensures !Refused(k, s, a, t)
  {
  }

  /**
    What a Maintain comes to, in every interleaving. From the step of its pre-barrier to the end:
    it fails if and only if some barrier, pending check or provider call answered it with an error
    or a connection was already poisoned; if the pre-barrier let it through and it fails, every
    connection is poisoned; and otherwise it has set no mark.
   */
  lemma MaintainOutcome(k: nat, tr: seq<State>, acts: seq<Action>, i: nat, n: nat, t: nat)
    requires Traced(k, tr, acts) && i < n < |tr| && t < |tr[i].calls| && tr[i].calls[t].MaintPre?
    requires acts[i].Step? && acts[i].call == t
    requires forall j :: i < j < n ==> t < |tr[j].calls| && !tr[j].calls[t].MaintDone?
    requires t < |tr[n].calls| && tr[n].calls[t].MaintDone?
    ensures tr[n].calls[t].failed <==> SomeRefusal(k, tr, acts, i, n, t) || !NoneMarked(tr[i].poison)
    ensures acts[i].ok && tr[n].calls[t].failed ==> AllMarked(tr[n].poison)
    ensures !acts[i].ok || !tr[n].calls[t].failed ==> tr[n].poison == tr[i].poison
  {
    hide SomeRefusal;
    MaintainCourse(k, tr, acts, i, n, t);
    TracedIsRun(k, tr, acts);
    if acts[i].ok && tr[n].calls[t].failed {
      FailedMaintainPoisonsAll(k, tr, n, t);
    }
  }

  /** A Send or Recv that holds its connection goes on to post exactly if the connection is not poisoned. */
  lemma DirectPostsUnlessPoisoned(k: nat, tr: seq<State>, acts: seq<Action>, i: nat, p: nat)
    requires Traced(k, tr, acts) && i < |acts| && acts[i].Step?
    requires tr[i].calls[acts[i].call] == DirectRecheck(p)
    ensures var t, s := acts[i].call, tr[i + 1];
            && p < |tr[i].poison| && t < |s.calls|
            && if tr[i].poison[p] then s.calls[t].Idle? && s.locks[p].NoOne?
               else s.calls[t] == DirectPost(p) && s.locks[p] == Held(t) && Enabled(k, s, DoPost(t, p))
  {
    TracedInv(k, tr, acts, i);
    assert CallOk(k, tr[i].poison, tr[i].calls[acts[i].call]);
    assert LocksOk(tr[i]) && tr[i].locks[p] == Held(acts[i].call);
  }

  /** Where an exchange stands that met the marks start when it had every lock. */
  ghost predicate MeshCourse(start: seq<bool>, poison: seq<bool>, c: Call) {
    match c
    case MeshCheck(_) => poison == start
    case MeshPost => poison == start && NoneMarked(start)
    case Idle => !NoneMarked(start)
    case _ => false
  }

  lemma MeshStep(k: nat, s: State, a: Action, t: nat, start: seq<bool>)
    requires Inv(k, s) && Enabled(k, s, a) && t < |s.calls| && s.calls[t].MeshCheck?
    requires MeshCourse(start, s.poison, s.calls[t])
    ensures MeshCourse(start, Apply(k, s, a).poison, Apply(k, s, a).calls[t])
  {
    hide Relock, LocksOk;
    assert CallOk(k, s.poison, s.calls[t]);
    if a.call != t {
      OthersLeaveMarks(k, s, a, t);
    }
  }

  /** An exchange that has every lock posts if no connection is poisoned, and otherwise returns without posting. */
  lemma {:induction false} MeshPostsUnlessPoisoned(k: nat, tr: seq<State>, acts: seq<Action>, i: nat, n: nat, t: nat)
    requires Traced(k, tr, acts) && i <= n < |tr| && t < |tr[i].calls| && tr[i].calls[t] == MeshCheck(0)
    requires forall j :: i < j < n ==> t < |tr[j].calls| && tr[j].calls[t].MeshCheck?
    ensures t < |tr[n].calls| && MeshCourse(tr[i].poison, tr[n].poison, tr[n].calls[t])
    ensures tr[n].calls[t].MeshCheck? || (tr[n].calls[t].MeshPost? <==> NoneMarked(tr[i].poison))
    decreases n
  {
    if i < n {
      hide Inv;
      MeshPostsUnlessPoisoned(k, tr, acts, i, n - 1, t);
      TracedInv(k, tr, acts, n - 1);
      MeshStep(k, tr[n - 1], acts[n - 1], t, tr[i].poison);
    }
  }

  /** Where n steps take a call when every answer is good. */
  function Path(k: nat, poison: seq<bool>, c: Call, n: nat): Call
    requires |poison| == k
  {
    if n == 0 then c else NextCall(k, poison, Path(k, poison, c, n - 1), true)
  }

  lemma {:induction false} PathJoins(k: nat, poison: seq<bool>, c: Call, n: nat, m: nat)
    requires |poison| == k
    ensures Path(k, poison, c, n + m) == Path(k, poison, Path(k, poison, c, n), m)
  {
    hide NextCall;
    if m > 0 {
      PathJoins(k, poison, c, n, m - 1);
    }
  }

  lemma {:induction false} LocksInTurn(k: nat, poison: seq<bool>, n: nat)
    requires |poison| == k && n <= k
    ensures Path(k, poison, MaintLock(0), n) == MaintLock(n) && Path(k, poison, MeshLock(0), n) == MeshLock(n)
  {
    if n > 0 {
      LocksInTurn(k, poison, n - 1);
    }
  }

  lemma {:induction false} ChecksInTurn(k: nat, poison: seq<bool>, n: nat)
    requires |poison| == k && n <= k && NoneMarked(poison)
    ensures Path(k, poison, MaintCheck(0), n) == MaintCheck(n) && Path(k, poison, MeshCheck(0), n) == MeshCheck(n)
  {
    if n > 0 {
      ChecksInTurn(k, poison, n - 1);
    }
  }

  lemma GoodStep(k: nat, poison: seq<bool>, c: Call, n: nat, d: Call)
    requires |poison| == k && Path(k, poison, c, n) == d
    ensures Path(k, poison, c, n + 1) == NextCall(k, poison, d, true)
  {
  }

  lemma GoodAnswers(k: nat, poison: seq<bool>)
    requires |poison| == k
    ensures NextCall(k, poison, MaintLock(k), true) == MaintPre
    ensures NextCall(k, poison, MaintPre, true) == MaintCheck(0)
    ensures NextCall(k, poison, MaintCheck(k), true) == MaintWork
    ensures NextCall(k, poison, MaintWork, true) == MaintAfter(false)
    ensures NextCall(k, poison, MaintAfter(false), true) == MaintDone(false, true)
  {
  }

  lemma MaintainGetsThrough(k: nat, poison: seq<bool>)
    requires |poison| == k && NoneMarked(poison)
    ensures Path(k, poison, MaintLock(0), 2 * k + 5) == MaintDone(false, true)
  {
    hide *;
    var c := MaintLock(0);
    LocksInTurn(k, poison, k);
    ChecksInTurn(k, poison, k);
    GoodAnswers(k, poison);
    GoodStep(k, poison, c, k, MaintLock(k));
    GoodStep(k, poison, c, k + 1, MaintPre);
    PathJoins(k, poison, c, k + 2, k);
    GoodStep(k, poison, c, k + 2 + k, MaintCheck(k));
    GoodStep(k, poison, c, k + 2 + k + 1, MaintWork);
    GoodStep(k, poison, c, k + 2 + k + 2, MaintAfter(false));
    assert k + 2 + k + 3 == 2 * k + 5;
  }

  lemma MeshAnswers(k: nat, poison: seq<bool>)
    requires |poison| == k
    ensures NextCall(k, poison, MeshLock(k), true) == MeshCheck(0)
    ensures NextCall(k, poison, MeshCheck(k), true) == MeshPost
  {
  }

  lemma MeshGetsThrough(k: nat, poison: seq<bool>)
    requires |poison| == k && NoneMarked(poison)
    ensures Path(k, poison, MeshLock(0), 2 * k + 2) == MeshPost
  {
    hide *;
    LocksInTurn(k, poison, k);
    ChecksInTurn(k, poison, k);
    MeshAnswers(k, poison);
    GoodStep(k, poison, MeshLock(0), k, MeshLock(k));
    PathJoins(k, poison, MeshLock(0), k + 1, k);
    GoodStep(k, poison, MeshLock(0), k + 1 + k, MeshCheck(k));
    assert k + 1 + k + 1 == 2 * k + 2;
  }

  lemma DirectAnswers(k: nat, poison: seq<bool>, p: nat)
    requires |poison| == k && NoneMarked(poison)
    ensures Path(k, poison, DirectCheck(p), 0) == DirectCheck(p)
    ensures NextCall(k, poison, DirectCheck(p), true) == DirectLock(p)
    ensures NextCall(k, poison, DirectLock(p), true) == DirectRecheck(p)
    ensures NextCall(k, poison, DirectRecheck(p), true) == DirectPost(p)
  {
  }

  /**
    With k connections, none poisoned, and good answers a Maintain succeeds after 2k+5 steps, an exchange
    is ready to post after 2k+2 and a Send or Recv after 3.
   */
  lemma CleanCallsGetThrough(k: nat, poison: seq<bool>, p: nat)
    requires |poison| == k && NoneMarked(poison)
    ensures Path(k, poison, MaintLock(0), 2 * k + 5) == MaintDone(false, true)
    ensures Path(k, poison, MeshLock(0), 2 * k + 2) == MeshPost
    ensures Path(k, poison, DirectCheck(p), 3) == DirectPost(p)
  {
    hide *;
    MaintainGetsThrough(k, poison);
    MeshGetsThrough(k, poison);
    DirectAnswers(k, poison, p);
    GoodStep(k, poison, DirectCheck(p), 0, DirectCheck(p));
    GoodStep(k, poison, DirectCheck(p), 1, DirectLock(p));
    GoodStep(k, poison, DirectCheck(p), 2, DirectRecheck(p));
  }
}
