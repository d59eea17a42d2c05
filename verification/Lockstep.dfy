/**
  Ranks that exchange one payload per step with each neighbour, over FIFO links.

  Every rank repeats: encode a snapshot of its local state, post it to its neighbours
  in order, then take one payload from each neighbour in order and absorb it. Nothing
  else synchronises the ranks, so a run is any interleaving of these actions. The
  graph gather and the chunked mesh exchange are both instances.

  Main results, over every run: the local state of a rank at step t is the one of the
  synchronous execution, the i-th payload taken from a neighbour is that neighbour's
  step-i snapshot, neighbouring steps differ by at most one, no link holds more than
  two payloads, and until every rank has finished some rank can act. A neighbour that does not
  post back is waited for in vain: such a rank never finishes, and only progress needs that there
  are none.
 */
module Lockstep {
  import opened Bytes
  import opened Grid

  datatype Protocol<!L, !P> = Protocol(
    steps: nat,
    peers: seq<seq<nat>>,
    init: seq<L>,
    snapshot: (nat, nat, L) -> P,        // rank, step, local state at the start of the step
    absorb: (nat, nat, nat, L, P) -> L   // rank, step, sending peer, local state, payload
  )

  datatype Phase<P> = Starting | Sending(snap: P, next: nat) | Receiving(next: nat)

  datatype Rank<L, P> = Rank(step: nat, phase: Phase<P>, local: L)

  /** links[q][r] holds the payloads q has posted to r that r has not yet taken. */
  datatype State<L, P> = State(ranks: seq<Rank<L, P>>, links: seq<seq<seq<P>>>)

  datatype Action = Encode(rank: nat) | Post(rank: nat) | Turn(rank: nat) | Take(rank: nat) | Finish(rank: nat)

  ghost predicate WellFormed<L, P>(pr: Protocol<L, P>) {
    && |pr.peers| == |pr.init|
    && (forall r, i :: 0 <= r < |pr.peers| && 0 <= i < |pr.peers[r]| ==> pr.peers[r][i] < |pr.peers|)
    && (forall r, i, j :: 0 <= r < |pr.peers| && 0 <= i < j < |pr.peers[r]| ==> pr.peers[r][i] != pr.peers[r][j])
  }

  /** Ranks q and r post to each other. */
  ghost predicate TwoSided<L, P>(pr: Protocol<L, P>, q: nat, r: nat) {
    q < |pr.peers| && r < |pr.peers| && r in pr.peers[q] && q in pr.peers[r]
  }

  /** Whoever is posted to also posts. */
  ghost predicate Mutual<L, P>(pr: Protocol<L, P>) {
    forall q, r :: 0 <= q < |pr.peers| && 0 <= r < |pr.peers| ==> (q in pr.peers[r] <==> r in pr.peers[q])
  }

  // ---- The synchronous execution ----

  /** Local state of rank r after t steps when all ranks step together. */
  ghost function Sync<L, P>(pr: Protocol<L, P>, r: nat, t: nat): L
    requires WellFormed(pr) && r < |pr.peers|
    decreases t, 0
  {
    if t == 0 then pr.init[r] else SyncTaken(pr, r, t - 1, |pr.peers[r]|)
  }

  /** The snapshot rank r posts at step t. */
  ghost function SyncSnapshot<L, P>(pr: Protocol<L, P>, r: nat, t: nat): P
    requires WellFormed(pr) && r < |pr.peers|
    decreases t, 1
  {
    pr.snapshot(r, t, Sync(pr, r, t))
  }

  /** Local state of rank r in step t once the first i neighbours' payloads are absorbed. */
  ghost function SyncTaken<L, P>(pr: Protocol<L, P>, r: nat, t: nat, i: nat): L
    requires WellFormed(pr) && r < |pr.peers| && i <= |pr.peers[r]|
    decreases t, i + 2
  {
    if i == 0 then Sync(pr, r, t)
    else
      var q := pr.peers[r][i - 1];
      pr.absorb(r, t, q, SyncTaken(pr, r, t, i - 1), SyncSnapshot(pr, q, t))
  }

  // ---- The asynchronous execution ----

  ghost predicate Init<L, P>(pr: Protocol<L, P>, s: State<L, P>)
    requires WellFormed(pr)
  {
    && |s.ranks| == |s.links| == |pr.peers|
    && (forall r :: 0 <= r < |s.ranks| ==> s.ranks[r] == Rank(0, Starting, pr.init[r]))
    && (forall q :: 0 <= q < |s.links| ==> |s.links[q]| == |pr.peers|)
    && (forall q, r :: 0 <= q < |s.links| && 0 <= r < |s.links| ==> s.links[q][r] == [])
  }

  ghost predicate Shaped<L, P>(pr: Protocol<L, P>, s: State<L, P>) {
    && |s.ranks| == |s.links| == |pr.peers|
    && (forall q :: 0 <= q < |s.links| ==> |s.links[q]| == |pr.peers|)
  }

  ghost predicate Enabled<L, P>(pr: Protocol<L, P>, s: State<L, P>, a: Action)
    requires WellFormed(pr) && Shaped(pr, s)
  {
    && a.rank < |s.ranks|
    && var me := s.ranks[a.rank];
       var n := |pr.peers[a.rank]|;
       match a
       case Encode(_) => me.step < pr.steps && me.phase.Starting?
       case Post(_) => me.phase.Sending? && me.phase.next < n
       case Turn(_) => me.phase.Sending? && me.phase.next == n
       case Take(r) => me.phase.Receiving? && me.phase.next < n && s.links[pr.peers[r][me.phase.next]][r] != []
       case Finish(_) => me.phase.Receiving? && me.phase.next == n
  }

  ghost function Apply<L, P>(pr: Protocol<L, P>, s: State<L, P>, a: Action): State<L, P>
    requires WellFormed(pr) && Shaped(pr, s) && Enabled(pr, s, a)
  {
    var r := a.rank;
    var me := s.ranks[r];
    match a
    case Encode(_) => s.(ranks := s.ranks[r := me.(phase := Sending(pr.snapshot(r, me.step, me.local), 0))])
    case Post(_) =>
      var to := pr.peers[r][me.phase.next];
      State(s.ranks[r := me.(phase := Sending(me.phase.snap, me.phase.next + 1))],
            Put(s.links, r, to, s.links[r][to] + [me.phase.snap]))
    case Turn(_) => s.(ranks := s.ranks[r := me.(phase := Receiving(0))])
    case Take(_) =>
      var from := pr.peers[r][me.phase.next];
      var queue := s.links[from][r];
      State(s.ranks[r := Rank(me.step, Receiving(me.phase.next + 1), pr.absorb(r, me.step, from, me.local, queue[0]))],
            Put(s.links, from, r, queue[1..]))
    case Finish(_) => s.(ranks := s.ranks[r := Rank(me.step + 1, Starting, me.local)])
  }

  ghost predicate Next<L, P>(pr: Protocol<L, P>, s: State<L, P>, s': State<L, P>)
    requires WellFormed(pr)
  {
    Shaped(pr, s) && exists a :: Enabled(pr, s, a) && s' == Apply(pr, s, a)
  }

  /** A run: starts initially and takes one action at a time. */
  ghost predicate Run<L, P>(pr: Protocol<L, P>, tr: seq<State<L, P>>)
    requires WellFormed(pr)
  {
    && |tr| > 0 && Init(pr, tr[0])
    && forall i :: 0 < i < |tr| ==> Next(pr, tr[i - 1], tr[i])
  }

  // ---- The invariant: steps and phases determine everything else ----

  ghost function Pos(s: seq<nat>, x: nat): (i: nat)
    requires x in s
    ensures i < |s| && s[i] == x
  {
    var i :| 0 <= i < |s| && s[i] == x;
    i
  }

  /** How many payloads a rank in state me has posted to peer. */
  ghost function Sent<L, P>(me: Rank<L, P>, peers: seq<nat>, peer: nat): nat
    requires peer in peers
  {
    match me.phase
    case Starting => me.step
    case Sending(_, next) => if Pos(peers, peer) < next then me.step + 1 else me.step
    case Receiving(_) => me.step + 1
  }

  /** How many payloads a rank in state me has taken from peer. */
  ghost function Taken<L, P>(me: Rank<L, P>, peers: seq<nat>, peer: nat): nat
    requires peer in peers
  {
    if me.phase.Receiving? && Pos(peers, peer) < me.phase.next then me.step + 1 else me.step
  }

  ghost predicate RankOk<L, P>(pr: Protocol<L, P>, r: nat, me: Rank<L, P>)
    requires WellFormed(pr) && r < |pr.peers|
  {
    && me.step <= pr.steps
    && (!me.phase.Starting? ==> me.step < pr.steps)
    && match me.phase
       case Starting => me.local == Sync(pr, r, me.step)
       case Sending(snap, next) =>
         me.local == Sync(pr, r, me.step) && next <= |pr.peers[r]| && snap == SyncSnapshot(pr, r, me.step)
       case Receiving(next) => next <= |pr.peers[r]| && me.local == SyncTaken(pr, r, me.step, next)
  }

  /** The link q->r carries exactly q's snapshots number taken..sent. */
  ghost predicate LinkOk<L, P>(pr: Protocol<L, P>, s: State<L, P>, q: nat, r: nat)
    requires Shaped(pr, s) && TwoSided(pr, q, r)
  {
    var sent, taken := Sent(s.ranks[q], pr.peers[q], r), Taken(s.ranks[r], pr.peers[r], q);
    && taken <= sent
    && |s.links[q][r]| == sent - taken
    && WellFormed(pr) && forall i :: 0 <= i < |s.links[q][r]| ==> s.links[q][r][i] == SyncSnapshot(pr, q, taken + i)
  }

  /** A rank that does not post to r leaves their link empty, and r never takes from it. */
  ghost predicate SilentOk<L, P>(pr: Protocol<L, P>, s: State<L, P>, q: nat, r: nat)
    requires Shaped(pr, s) && q < |pr.peers| && r < |pr.peers|
  {
    r !in pr.peers[q] ==> s.links[q][r] == [] && (q in pr.peers[r] ==> Taken(s.ranks[r], pr.peers[r], q) == 0)
  }

  ghost predicate Inv<L, P>(pr: Protocol<L, P>, s: State<L, P>)
    requires WellFormed(pr)
  {
    && Shaped(pr, s)
    && (forall r :: 0 <= r < |s.ranks| ==> RankOk(pr, r, s.ranks[r]))
    && (forall q, r :: TwoSided(pr, q, r) ==> LinkOk(pr, s, q, r))
    && (forall q, r :: 0 <= q < |pr.peers| && 0 <= r < |pr.peers| ==> SilentOk(pr, s, q, r))
  }

  lemma PosUnique(s: seq<nat>, i: nat)
    requires i < |s| && forall j, k :: 0 <= j < k < |s| ==> s[j] != s[k]
    ensures s[i] in s && Pos(s, s[i]) == i
  {
  }

  /** A rank that neither posts nor takes leaves every link consistent. */
  lemma QuietKeepsLink<L, P>(pr: Protocol<L, P>, s: State<L, P>, s': State<L, P>, a: Action, q: nat, r: nat)
    requires WellFormed(pr) && Shaped(pr, s) && Enabled(pr, s, a) && s' == Apply(pr, s, a) && !a.Post? && !a.Take?
    requires TwoSided(pr, q, r) && LinkOk(pr, s, q, r)
    ensures Shaped(pr, s') && LinkOk(pr, s', q, r)
  {
    assert Sent(s'.ranks[q], pr.peers[q], r) == Sent(s.ranks[q], pr.peers[q], r);
    assert Taken(s'.ranks[r], pr.peers[r], q) == Taken(s.ranks[r], pr.peers[r], q);
  }

  /** Nobody takes from an empty link, so a rank waits for ever at a neighbour that does not post to it. */
  lemma SilentKept<L, P>(pr: Protocol<L, P>, s: State<L, P>, s': State<L, P>, a: Action, q: nat, r: nat)
    requires WellFormed(pr) && Shaped(pr, s) && Enabled(pr, s, a) && s' == Apply(pr, s, a)
    requires q < |pr.peers| && r < |pr.peers| && SilentOk(pr, s, q, r)
    ensures Shaped(pr, s') && SilentOk(pr, s', q, r)
  {
    if r !in pr.peers[q] && a.Take? {
      PosUnique(pr.peers[a.rank], s.ranks[a.rank].phase.next);
    }
  }

  lemma PostKeepsLink<L, P>(pr: Protocol<L, P>, s: State<L, P>, s': State<L, P>, a: Action, q: nat, r: nat)
    requires WellFormed(pr) && Shaped(pr, s) && a.Post? && Enabled(pr, s, a) && s' == Apply(pr, s, a)
    requires s.ranks[a.rank].phase.snap == SyncSnapshot(pr, a.rank, s.ranks[a.rank].step)
    requires TwoSided(pr, q, r) && LinkOk(pr, s, q, r)
    ensures Shaped(pr, s') && LinkOk(pr, s', q, r)
  {
    var me := s.ranks[a.rank];
    var to := pr.peers[a.rank][me.phase.next];
    PosUnique(pr.peers[a.rank], me.phase.next);
    var taken := Taken(s.ranks[r], pr.peers[r], q);
    assert Taken(s'.ranks[r], pr.peers[r], q) == taken;
    var was, now := s.links[q][r], s'.links[q][r];
    if q == a.rank && r == to {
      assert Sent(s.ranks[q], pr.peers[q], r) == me.step;
      assert Sent(s'.ranks[q], pr.peers[q], r) == me.step + 1;
      assert now == was + [me.phase.snap];
      assert taken + |was| == me.step;
    } else {
      assert Sent(s'.ranks[q], pr.peers[q], r) == Sent(s.ranks[q], pr.peers[q], r);
      assert now == was;
    }
  }

  lemma TakeKeepsLink<L, P>(pr: Protocol<L, P>, s: State<L, P>, s': State<L, P>, a: Action, q: nat, r: nat)
    requires WellFormed(pr) && Shaped(pr, s) && a.Take? && Enabled(pr, s, a) && s' == Apply(pr, s, a)
    requires TwoSided(pr, q, r) && LinkOk(pr, s, q, r)
    ensures Shaped(pr, s') && LinkOk(pr, s', q, r)
  {
    var me := s.ranks[a.rank];
    var from := pr.peers[a.rank][me.phase.next];
    PosUnique(pr.peers[a.rank], me.phase.next);
    assert Sent(s'.ranks[q], pr.peers[q], r) == Sent(s.ranks[q], pr.peers[q], r);
    if r == a.rank && q == from {
      var taken := Taken(s.ranks[r], pr.peers[r], q);
      assert Taken(s'.ranks[r], pr.peers[r], q) == taken + 1;
      var was, now := s.links[q][r], s'.links[q][r];
      assert now == was[1..];
      forall i | 0 <= i < |now|
        ensures now[i] == SyncSnapshot(pr, q, taken + 1 + i)
      {
        assert now[i] == was[i + 1] == SyncSnapshot(pr, q, taken + (i + 1));
      }
    } else {
      assert Taken(s'.ranks[r], pr.peers[r], q) == Taken(s.ranks[r], pr.peers[r], q);
      assert s'.links[q][r] == s.links[q][r];
    }
  }

  lemma RankKept<L, P>(pr: Protocol<L, P>, s: State<L, P>, s': State<L, P>, a: Action)
    requires WellFormed(pr) && Inv(pr, s) && Enabled(pr, s, a) && s' == Apply(pr, s, a)
    ensures Shaped(pr, s') && forall r :: 0 <= r < |s'.ranks| ==> RankOk(pr, r, s'.ranks[r])
  {
    var me := s.ranks[a.rank];
    assert RankOk(pr, a.rank, me);
    if a.Take? {
      var from := pr.peers[a.rank][me.phase.next];
      PosUnique(pr.peers[a.rank], me.phase.next);
      assert SilentOk(pr, s, from, a.rank);
      assert TwoSided(pr, from, a.rank) && LinkOk(pr, s, from, a.rank);
    }
    assert RankOk(pr, a.rank, s'.ranks[a.rank]);
  }

  lemma StepKeepsInv<L, P>(pr: Protocol<L, P>, s: State<L, P>, s': State<L, P>)
    requires WellFormed(pr) && Inv(pr, s) && Next(pr, s, s')
    ensures Inv(pr, s')
  {
    var a :| Enabled(pr, s, a) && s' == Apply(pr, s, a);
    RankKept(pr, s, s', a);
    assert RankOk(pr, a.rank, s.ranks[a.rank]);
    forall q, r | TwoSided(pr, q, r)
      ensures LinkOk(pr, s', q, r)
    {
      LinkKept(pr, s, s', a, q, r);
    }
    forall q, r | 0 <= q < |pr.peers| && 0 <= r < |pr.peers|
      ensures SilentOk(pr, s', q, r)
    {
      SilentKept(pr, s, s', a, q, r);
    }
  }

  lemma LinkKept<L, P>(pr: Protocol<L, P>, s: State<L, P>, s': State<L, P>, a: Action, q: nat, r: nat)
    requires WellFormed(pr) && Shaped(pr, s) && Enabled(pr, s, a) && s' == Apply(pr, s, a)
    requires RankOk(pr, a.rank, s.ranks[a.rank]) && TwoSided(pr, q, r) && LinkOk(pr, s, q, r)
    ensures Shaped(pr, s') && LinkOk(pr, s', q, r)
  {
    hide LinkOk;
    if a.Post? {
      PostKeepsLink(pr, s, s', a, q, r);
    } else if a.Take? {
      TakeKeepsLink(pr, s, s', a, q, r);
    } else {
      QuietKeepsLink(pr, s, s', a, q, r);
    }
  }

  lemma {:induction false} RunInv<L, P>(pr: Protocol<L, P>, tr: seq<State<L, P>>, k: nat)
    requires WellFormed(pr) && Run(pr, tr) && k < |tr|
    ensures Inv(pr, tr[k])
  {
    if k > 0 {
      RunInv(pr, tr, k - 1);
      assert Next(pr, tr[k - 1], tr[k]);
      StepKeepsInv(pr, tr[k - 1], tr[k]);
    }
  }

  // ---- Results over every run ----

  /** At the start of step t a rank holds the state of the synchronous execution. */
  lemma RunMatchesSync<L, P>(pr: Protocol<L, P>, tr: seq<State<L, P>>, k: nat, r: nat)
    requires WellFormed(pr) && Run(pr, tr) && k < |tr| && r < |pr.peers|
    ensures r < |tr[k].ranks|
    ensures tr[k].ranks[r].step <= pr.steps
    ensures tr[k].ranks[r].phase.Starting? ==> tr[k].ranks[r].local == Sync(pr, r, tr[k].ranks[r].step)
  {
    RunInv(pr, tr, k);
  }

  /** The payload about to be taken from a neighbour is that neighbour's snapshot of the same step. */
  lemma TakesSameStep<L, P>(pr: Protocol<L, P>, tr: seq<State<L, P>>, k: nat, r: nat)
    requires WellFormed(pr) && Run(pr, tr) && k < |tr| && r < |pr.peers|
    requires Shaped(pr, tr[k]) && Enabled(pr, tr[k], Take(r))
    ensures var me := tr[k].ranks[r];
            var from := pr.peers[r][me.phase.next];
            tr[k].links[from][r][0] == SyncSnapshot(pr, from, me.step)
  {
    RunInv(pr, tr, k);
    var me := tr[k].ranks[r];
    var from := pr.peers[r][me.phase.next];
    PosUnique(pr.peers[r], me.phase.next);
    assert SilentOk(pr, tr[k], from, r);
    assert TwoSided(pr, from, r) && LinkOk(pr, tr[k], from, r);
  }

  /** Neighbours stay within one step of each other and a link never holds more than two payloads. */
  lemma StepsStayClose<L, P>(pr: Protocol<L, P>, tr: seq<State<L, P>>, k: nat, q: nat, r: nat)
    requires WellFormed(pr) && Run(pr, tr) && k < |tr| && TwoSided(pr, q, r)
    ensures Shaped(pr, tr[k])
    ensures tr[k].ranks[q].step <= tr[k].ranks[r].step + 1
    ensures tr[k].ranks[r].step <= tr[k].ranks[q].step + 1
    ensures |tr[k].links[q][r]| <= 2
  {
    RunInv(pr, tr, k);
    assert TwoSided(pr, r, q);
    assert LinkOk(pr, tr[k], q, r);
    assert LinkOk(pr, tr[k], r, q);
  }

  /** A rank with a neighbour that does not post back never gets past its first step. */
  lemma OneSidedNeverFinishes<L, P>(pr: Protocol<L, P>, tr: seq<State<L, P>>, k: nat, q: nat, r: nat)
    requires WellFormed(pr) && Run(pr, tr) && k < |tr| && r < |pr.peers| && q in pr.peers[r] && pr.steps > 0
    requires q < |pr.peers| && r !in pr.peers[q]
    ensures r < |tr[k].ranks| && tr[k].ranks[r].step == 0 && !Finished(pr, tr[k].ranks[r])
  {
    RunInv(pr, tr, k);
    assert SilentOk(pr, tr[k], q, r);
  }

  ghost predicate Finished<L, P>(pr: Protocol<L, P>, me: Rank<L, P>) {
    me.step == pr.steps && me.phase.Starting?
  }

  lemma {:induction false} LowestStep<L, P>(ranks: seq<Rank<L, P>>) returns (r: nat)
    requires |ranks| > 0
    ensures r < |ranks| && forall q :: 0 <= q < |ranks| ==> ranks[r].step <= ranks[q].step
  {
    r := 0;
    for i := 1 to |ranks|
      invariant r < |ranks| && forall q :: 0 <= q < i ==> ranks[r].step <= ranks[q].step
    {
      if ranks[i].step < ranks[r].step { r := i; }
    }
  }

  /** No deadlock: while some rank has not finished, some rank can act. */
  lemma SomeRankCanAct<L, P>(pr: Protocol<L, P>, tr: seq<State<L, P>>, k: nat, r: nat)
    requires WellFormed(pr) && Mutual(pr) && Run(pr, tr) && k < |tr| && r < |pr.peers|
    requires r < |tr[k].ranks| && !Finished(pr, tr[k].ranks[r])
    ensures Shaped(pr, tr[k]) && exists a :: Enabled(pr, tr[k], a)
  {
    RunInv(pr, tr, k);
    var s := tr[k];
    var low := LowestStep(s.ranks);
    assert RankOk(pr, low, s.ranks[low]) && RankOk(pr, r, s.ranks[r]);
    var a := FirstMove(pr, s, low);
    if a.Take? && !Enabled(pr, s, a) {
      var from := pr.peers[low][s.ranks[low].phase.next];
      PosUnique(pr.peers[low], s.ranks[low].phase.next);
      assert TwoSided(pr, from, low) && LinkOk(pr, s, from, low);
      assert RankOk(pr, from, s.ranks[from]);
      var b := FirstMove(pr, s, from);
      assert Enabled(pr, s, b);
    }
  }

  /** The action a rank's own phase calls for; only a Take can be blocked. */
  ghost function FirstMove<L, P>(pr: Protocol<L, P>, s: State<L, P>, r: nat): (a: Action)
    requires WellFormed(pr) && Shaped(pr, s) && r < |s.ranks| && RankOk(pr, r, s.ranks[r])
    ensures a.rank == r
    ensures a.Take? ==> s.ranks[r].phase.Receiving? && s.ranks[r].phase.next < |pr.peers[r]|
    ensures !a.Take? && !Finished(pr, s.ranks[r]) ==> Enabled(pr, s, a)
  {
    match s.ranks[r].phase
    case Starting => Encode(r)
    case Sending(_, next) => if next < |pr.peers[r]| then Post(r) else Turn(r)
    case Receiving(next) => if next < |pr.peers[r]| then Take(r) else Finish(r)
  }

  // ---- Every run is finite ----

  /** Actions a rank with k neighbours takes per step. */
  function PerStep(k: nat): nat { 2 * k + 3 }

  /** Actions taken so far by a rank with k neighbours. */
  ghost function Work<L, P>(me: Rank<L, P>, k: nat): nat {
    Off(me.step, PerStep(k)) + match me.phase
                           case Starting => 0
                           case Sending(_, next) => 1 + next
                           case Receiving(next) => 2 + k + next
  }

  ghost function TotalWork<L, P>(ranks: seq<Rank<L, P>>, peers: seq<seq<nat>>): nat
    requires |ranks| <= |peers|
  {
    if ranks == [] then 0
    else TotalWork(ranks[..|ranks| - 1], peers) + Work(ranks[|ranks| - 1], |peers[|ranks| - 1]|)
  }

  ghost function WorkBound(steps: nat, peers: seq<seq<nat>>): nat {
    if peers == [] then 0
    else WorkBound(steps, peers[..|peers| - 1]) + Off(steps, PerStep(|peers[|peers| - 1]|))
  }

  lemma {:induction false} TotalWorkUpdate<L, P>(ranks: seq<Rank<L, P>>, peers: seq<seq<nat>>, r: nat, me: Rank<L, P>)
    requires |ranks| <= |peers| && r < |ranks| && Work(me, |peers[r]|) == Work(ranks[r], |peers[r]|) + 1
    ensures TotalWork(ranks[r := me], peers) == TotalWork(ranks, peers) + 1
  {
    var last := |ranks| - 1;
    var now := ranks[r := me];
    if r == last {
      assert now[..last] == ranks[..last];
    } else {
      assert now[..last] == ranks[..last][r := me];
      TotalWorkUpdate(ranks[..last], peers, r, me);
    }
  }

  /** Every action is one unit of its rank's work. */
  lemma RankWork<L, P>(pr: Protocol<L, P>, s: State<L, P>, a: Action)
    requires WellFormed(pr) && Shaped(pr, s) && Enabled(pr, s, a) && RankOk(pr, a.rank, s.ranks[a.rank])
    ensures var k := |pr.peers[a.rank]|;
            Work(Apply(pr, s, a).ranks[a.rank], k) == Work(s.ranks[a.rank], k) + 1
  {
    hide Off, RankOk;
    var step, k := s.ranks[a.rank].step, |pr.peers[a.rank]|;
    OffBounds(step, step + 1, PerStep(k));
  }

  lemma ActionIsWork<L, P>(pr: Protocol<L, P>, s: State<L, P>, s': State<L, P>)
    requires WellFormed(pr) && Inv(pr, s) && Next(pr, s, s')
    ensures Shaped(pr, s') && TotalWork(s'.ranks, pr.peers) == TotalWork(s.ranks, pr.peers) + 1
  {
    hide Work, TotalWork, RankOk, LinkOk, SilentOk, WellFormed;
    var a :| Enabled(pr, s, a) && s' == Apply(pr, s, a);
    RankWork(pr, s, a);
    TotalWorkUpdate(s.ranks, pr.peers, a.rank, s'.ranks[a.rank]);
  }

  lemma {:induction false} WorkIsBounded<L, P>(pr: Protocol<L, P>, ranks: seq<Rank<L, P>>)
    requires WellFormed(pr) && |ranks| <= |pr.peers|
    requires forall r :: 0 <= r < |ranks| ==> RankOk(pr, r, ranks[r])
    ensures TotalWork(ranks, pr.peers) <= WorkBound(pr.steps, pr.peers[..|ranks|])
    decreases |ranks|
  {
    if ranks != [] {
      var last := |ranks| - 1;
      WorkIsBounded(pr, ranks[..last]);
      assert pr.peers[..|ranks|][..last] == pr.peers[..last];
      RankWorkBounded(pr, last, ranks[last]);
    }
  }

  lemma RankWorkBounded<L, P>(pr: Protocol<L, P>, r: nat, me: Rank<L, P>)
    requires WellFormed(pr) && r < |pr.peers| && RankOk(pr, r, me)
    ensures Work(me, |pr.peers[r]|) <= Off(pr.steps, PerStep(|pr.peers[r]|))
  {
    hide Off;
    if me.step < pr.steps {
      OffBounds(me.step, pr.steps, PerStep(|pr.peers[r]|));
    }
  }

  lemma {:induction false} RunLength<L, P>(pr: Protocol<L, P>, tr: seq<State<L, P>>, k: nat)
    requires WellFormed(pr) && Run(pr, tr) && k < |tr|
    ensures Shaped(pr, tr[k]) && k <= TotalWork(tr[k].ranks, pr.peers)
  {
    if k > 0 {
      RunLength(pr, tr, k - 1);
      RunInv(pr, tr, k - 1);
      assert Next(pr, tr[k - 1], tr[k]);
      ActionIsWork(pr, tr[k - 1], tr[k]);
    }
  }

  /** With SomeRankCanAct: no run is longer than this, so every maximal run finishes on every rank. */
  lemma RunsAreFinite<L, P>(pr: Protocol<L, P>, tr: seq<State<L, P>>)
    requires WellFormed(pr) && Run(pr, tr)
    ensures |tr| <= WorkBound(pr.steps, pr.peers) + 1
  {
    var k := |tr| - 1;
    RunLength(pr, tr, k);
    RunInv(pr, tr, k);
    WorkIsBounded(pr, tr[k].ranks);
    assert pr.peers[..|pr.peers|] == pr.peers;
  }
}
