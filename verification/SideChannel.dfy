/**
  The TCP side channel (internal/tcpchan/tcpchan.go): rank 0 reads one frame from every
  other rank in order, then writes the gathered vector to each. Frames carry no tag or
  round number; a Barrier is an AllGather of an empty value.

  Over any number of successive calls and any interleaving, every rank's k-th call returns
  the vector of all ranks' k-th arguments, and not before every rank has started its k-th
  call. The vector's JSON encoding is taken as a codec that round-trips.
 */
module SideChannel {
  import opened Bytes

  type Msg = seq<byte>
  type Vector = seq<Msg>

  datatype Phase =
    | Ready
    | Reading(next: nat, values: Vector)   // rank 0: reading the frame of rank next
    | Sending(next: nat, values: Vector)   // rank 0: writing the vector to rank next
    | Calling                              // other ranks: own frame not yet written
    | Awaiting                             // other ranks: own frame written

  /** One rank: what it has passed to and got from successive calls, and where it is. */
  datatype Rank = Rank(calls: seq<Msg>, rets: seq<Vector>, phase: Phase)

  /** up[i] and down[i] are the frames in transit from and to rank i. */
  datatype State = State(ranks: seq<Rank>, up: seq<seq<Msg>>, down: seq<seq<Vector>>)

  datatype Action =
    | Call(rank: nat, arg: Msg)
    | Read
    | Turn
    | Write
    | Finish
    | Post(rank: nat)
    | Return(rank: nat)

  predicate Shaped(n: nat, s: State) {
    n > 0 && |s.ranks| == |s.up| == |s.down| == n
  }

  predicate Enabled(n: nat, s: State, a: Action)
    requires Shaped(n, s)
  {
    var zero := s.ranks[0].phase;
    match a
    case Call(r, _) => r < n && s.ranks[r].phase.Ready?
    case Read => zero.Reading? && zero.next < n && s.up[zero.next] != []
    case Turn => zero.Reading? && zero.next == n
    case Write => zero.Sending? && zero.next < n
    case Finish => zero.Sending? && zero.next == n
    case Post(r) => 0 < r < n && s.ranks[r].phase.Calling? && s.ranks[r].calls != []
    case Return(r) => 0 < r < n && s.ranks[r].phase.Awaiting? && s.down[r] != []
  }

  function Apply(n: nat, s: State, a: Action): State
    requires Shaped(n, s) && Enabled(n, s, a)
  {
    var me := s.ranks[0];
    match a
    case Call(r, arg) =>
      s.(ranks := s.ranks[r := Rank(s.ranks[r].calls + [arg], s.ranks[r].rets,
                                    if r == 0 then Reading(1, [arg]) else Calling)])
    case Read =>
      var from := me.phase.next;
      s.(ranks := s.ranks[0 := me.(phase := Reading(from + 1, me.phase.values + [s.up[from][0]]))],
         up := s.up[from := s.up[from][1..]])
    case Turn => s.(ranks := s.ranks[0 := me.(phase := Sending(1, me.phase.values))])
    case Write =>
      var to := me.phase.next;
      s.(ranks := s.ranks[0 := me.(phase := Sending(to + 1, me.phase.values))],
         down := s.down[to := s.down[to] + [me.phase.values]])
    case Finish => s.(ranks := s.ranks[0 := Rank(me.calls, me.rets + [me.phase.values], Ready)])
    case Post(r) =>
      var you := s.ranks[r];
      s.(ranks := s.ranks[r := you.(phase := Awaiting)],
         up := s.up[r := s.up[r] + [you.calls[|you.calls| - 1]]])
    case Return(r) =>
      var you := s.ranks[r];
      s.(ranks := s.ranks[r := Rank(you.calls, you.rets + [s.down[r][0]], Ready)],
         down := s.down[r := s.down[r][1..]])
  }

  ghost predicate Init(n: nat, s: State) {
    && Shaped(n, s)
    && forall r :: 0 <= r < n ==> s.ranks[r] == Rank([], [], Ready) && s.up[r] == [] && s.down[r] == []
  }

  ghost predicate Next(n: nat, s: State, t: State) {
    Shaped(n, s) && exists a :: Enabled(n, s, a) && t == Apply(n, s, a)
  }

  ghost predicate Run(n: nat, tr: seq<State>) {
    |tr| > 0 && Init(n, tr[0]) && forall i :: 0 < i < |tr| ==> Next(n, tr[i - 1], tr[i])
  }

  // ---- Invariant ----

  /** Every rank has started its k-th call. */
  predicate Started(s: State, k: nat) {
    forall j :: 0 <= j < |s.ranks| ==> k < |s.ranks[j].calls|
  }

  /** The ranks' k-th arguments, in rank order. */
  function Round(s: State, k: nat): Vector
    requires Started(s, k)
  {
    seq(|s.ranks|, j requires 0 <= j < |s.ranks| => s.ranks[j].calls[k])
  }

  /** The frame written for round k is what round k must return. */
  ghost predicate Is(s: State, k: nat, v: Vector) {
    Started(s, k) && v == Round(s, k)
  }

  function Done(s: State): nat
    requires |s.ranks| > 0
  {
    |s.ranks[0].rets|
  }

  /** Frames of rank i that rank 0 has read. */
  function ReadFrom(s: State, i: nat): nat
    requires |s.ranks| > 0
  {
    var p := s.ranks[0].phase;
    if (p.Reading? && i < p.next) || p.Sending? then Done(s) + 1 else Done(s)
  }

  /** Vectors that rank 0 has written to rank i. */
  function WrittenTo(s: State, i: nat): nat
    requires |s.ranks| > 0
  {
    var p := s.ranks[0].phase;
    if p.Sending? && i < p.next then Done(s) + 1 else Done(s)
  }

  function Posted(r: Rank): nat {
    if r.phase.Calling? && |r.calls| > 0 then |r.calls| - 1 else |r.calls|
  }

  ghost predicate ZeroOk(n: nat, s: State)
    requires Shaped(n, s)
  {
    var me := s.ranks[0];
    match me.phase
    case Ready => |me.calls| == |me.rets|
    case Reading(next, values) =>
      && |me.calls| == |me.rets| + 1 && 1 <= next <= n && |values| == next
      && forall j :: 0 <= j < next ==> Done(s) < |s.ranks[j].calls| && values[j] == s.ranks[j].calls[Done(s)]
    case Sending(next, values) => |me.calls| == |me.rets| + 1 && 1 <= next <= n && Is(s, Done(s), values)
    case _ => false
  }

  ghost predicate OtherOk(n: nat, s: State, i: nat)
    requires Shaped(n, s) && 0 < i < n
  {
    var me := s.ranks[i];
    && (me.phase.Ready? || me.phase.Calling? || me.phase.Awaiting?)
    && |me.calls| == |me.rets| + (if me.phase.Ready? then 0 else 1)
    && ReadFrom(s, i) <= Posted(me)
    && s.up[i] == me.calls[ReadFrom(s, i)..Posted(me)]
    && |me.rets| <= WrittenTo(s, i)
    && |s.down[i]| == WrittenTo(s, i) - |me.rets|
    && forall k :: 0 <= k < |s.down[i]| ==> Is(s, |me.rets| + k, s.down[i][k])
  }

  ghost predicate Inv(n: nat, s: State) {
    && Shaped(n, s)
    && ZeroOk(n, s)
    && (forall i :: 0 < i < n ==> OtherOk(n, s, i))
    && (forall r, k :: 0 <= r < n && 0 <= k < |s.ranks[r].rets| ==> Is(s, k, s.ranks[r].rets[k]))
  }

  /** calls only grow, so what was a round stays that round. */
  lemma RoundsStay(s: State, t: State, k: nat, v: Vector)
    requires |s.ranks| == |t.ranks| && (forall j :: 0 <= j < |s.ranks| ==> s.ranks[j].calls <= t.ranks[j].calls)
    requires Is(s, k, v)
    ensures Is(t, k, v)
  {
    assert Round(t, k) == Round(s, k);
  }

  lemma CallsGrow(n: nat, s: State, a: Action)
    requires Shaped(n, s) && Enabled(n, s, a)
    ensures Shaped(n, Apply(n, s, a))
    ensures forall j :: 0 <= j < n ==> s.ranks[j].calls <= Apply(n, s, a).ranks[j].calls
  {
  }

  lemma ZeroKept(n: nat, s: State, a: Action)
    requires Inv(n, s) && Enabled(n, s, a)
    ensures Shaped(n, Apply(n, s, a)) && ZeroOk(n, Apply(n, s, a))
  {
    var t := Apply(n, s, a);
    CallsGrow(n, s, a);
    match s.ranks[0].phase
    case Sending(_, values) =>
      RoundsStay(s, t, Done(s), values);
    case Reading(next, values) =>
      if a.Read? {
        assert OtherOk(n, s, next);
        assert s.up[next][0] == s.ranks[next].calls[Done(s)];
      }
      if a.Turn? {
        assert Is(t, Done(t), values);
      }
    case _ =>
  }

  lemma OtherKept(n: nat, s: State, a: Action, i: nat)
    requires Inv(n, s) && Enabled(n, s, a) && 0 < i < n
    ensures Shaped(n, Apply(n, s, a)) && OtherOk(n, Apply(n, s, a), i)
  {
    var t := Apply(n, s, a);
    CallsGrow(n, s, a);
    assert OtherOk(n, s, i);
    var me, you := s.ranks[i], t.ranks[i];
    var off := |me.rets|;
    forall k | 0 <= k < |s.down[i]|
      ensures Is(t, off + k, s.down[i][k])
    {
      RoundsStay(s, t, off + k, s.down[i][k]);
    }
    if a.Write? {
      RoundsStay(s, t, Done(s), s.ranks[0].phase.values);
    }
    UpKept(n, s, a, i);
    DownKept(n, s, a, i);
  }

  lemma UpKept(n: nat, s: State, a: Action, i: nat)
    requires Inv(n, s) && Enabled(n, s, a) && 0 < i < n
    ensures var t := Apply(n, s, a);
            && Shaped(n, t) && ReadFrom(t, i) <= Posted(t.ranks[i])
            && t.up[i] == t.ranks[i].calls[ReadFrom(t, i)..Posted(t.ranks[i])]
  {
    hide Is;
    var t := Apply(n, s, a);
    assert OtherOk(n, s, i);
    var me, you := s.ranks[i], t.ranks[i];
    if a.Call? && a.rank == i {
      assert you.calls[..|me.calls|] == me.calls;
      assert you.calls[ReadFrom(t, i)..Posted(you)] == me.calls[ReadFrom(s, i)..Posted(me)];
    } else if a.Post? && a.rank == i {
      assert me.calls[ReadFrom(s, i)..|me.calls|] == me.calls[ReadFrom(s, i)..Posted(me)] + [me.calls[|me.calls| - 1]];
    } else if a.Read? && s.ranks[0].phase.next == i {
      assert me.calls[ReadFrom(s, i)..Posted(me)][1..] == me.calls[ReadFrom(s, i) + 1..Posted(me)];
    }
  }

  lemma DownKept(n: nat, s: State, a: Action, i: nat)
    requires Inv(n, s) && Enabled(n, s, a) && 0 < i < n
    ensures var t := Apply(n, s, a);
            && Shaped(n, t) && |t.ranks[i].rets| <= WrittenTo(t, i)
            && |t.down[i]| == WrittenTo(t, i) - |t.ranks[i].rets|
            && if a == Return(i) then t.down[i] == s.down[i][1..] && |t.ranks[i].rets| == |s.ranks[i].rets| + 1
               else if a == Write && s.ranks[0].phase.next == i then
                 && t.down[i] == s.down[i] + [s.ranks[0].phase.values] && t.ranks[i].rets == s.ranks[i].rets
                 && |s.ranks[i].rets| + |s.down[i]| == Done(s)
               else t.down[i] == s.down[i] && t.ranks[i].rets == s.ranks[i].rets
  {
    hide Is;
    assert OtherOk(n, s, i);
  }

  lemma RetsKept(n: nat, s: State, a: Action, r: nat, k: nat)
    requires Inv(n, s) && Enabled(n, s, a) && r < n
    requires Shaped(n, Apply(n, s, a)) && k < |Apply(n, s, a).ranks[r].rets|
    ensures Is(Apply(n, s, a), k, Apply(n, s, a).ranks[r].rets[k])
  {
    var t := Apply(n, s, a);
    CallsGrow(n, s, a);
    hide Is;
    if k < |s.ranks[r].rets| {
      RoundsStay(s, t, k, s.ranks[r].rets[k]);
    } else if r == 0 {
      RoundsStay(s, t, k, s.ranks[0].phase.values);
    } else {
      assert OtherOk(n, s, r);
      RoundsStay(s, t, k, s.down[r][0]);
    }
  }

  lemma StepKeepsInv(n: nat, s: State, t: State)
    requires Inv(n, s) && Next(n, s, t)
    ensures Inv(n, t)
  {
    var a :| Enabled(n, s, a) && t == Apply(n, s, a);
    hide Is, OtherOk, ZeroOk;
    CallsGrow(n, s, a);
    ZeroKept(n, s, a);
    forall i | 0 < i < n
      ensures OtherOk(n, t, i)
    {
      OtherKept(n, s, a, i);
    }
    forall r, k | 0 <= r < n && 0 <= k < |t.ranks[r].rets|
      ensures Is(t, k, t.ranks[r].rets[k])
    {
      RetsKept(n, s, a, r, k);
    }
  }

  lemma {:induction false} RunInv(n: nat, tr: seq<State>, k: nat)
    requires Run(n, tr) && k < |tr|
    ensures Inv(n, tr[k])
  {
    if k > 0 {
      RunInv(n, tr, k - 1);
      assert Next(n, tr[k - 1], tr[k]);
      StepKeepsInv(n, tr[k - 1], tr[k]);
    }
  }

  /** Every rank's k-th call returns the vector of all ranks' k-th arguments. */
  lemma GatherReturnsRound(n: nat, tr: seq<State>, i: nat, r: nat, k: nat)
    requires Run(n, tr) && i < |tr| && r < |tr[i].ranks| && k < |tr[i].ranks[r].rets|
    ensures |tr[i].ranks| == n && Started(tr[i], k)
    ensures |tr[i].ranks[r].rets[k]| == n
    ensures forall j :: 0 <= j < n ==> tr[i].ranks[r].rets[k][j] == tr[i].ranks[j].calls[k]
  {
    RunInv(n, tr, i);
    assert Is(tr[i], k, tr[i].ranks[r].rets[k]);
  }

  /** A barrier: once any rank has returned from its k-th call, every rank has started its k-th call. */
  lemma BarrierHolds(n: nat, tr: seq<State>, i: nat, r: nat, q: nat)
    requires Run(n, tr) && i < |tr| && r < |tr[i].ranks| && q < |tr[i].ranks|
    ensures |tr[i].ranks[r].rets| <= |tr[i].ranks[q].calls|
    ensures |tr[i].ranks[q].calls| <= |tr[i].ranks[q].rets| + 1
  {
    RunInv(n, tr, i);
    var s := tr[i];
    if |s.ranks[r].rets| > 0 {
      assert Is(s, |s.ranks[r].rets| - 1, s.ranks[r].rets[|s.ranks[r].rets| - 1]);
    }
    if q > 0 {
      assert OtherOk(n, s, q);
    }
  }

  /** Once every rank is inside its k-th call, somebody can move until all have returned. */
  lemma GatherProgresses(n: nat, tr: seq<State>, i: nat, k: nat, r: nat)
    requires Run(n, tr) && i < |tr| && |tr[i].ranks| == n && r < n
    requires forall q :: 0 <= q < n ==> |tr[i].ranks[q].calls| == k + 1
    requires |tr[i].ranks[r].rets| == k
    ensures Shaped(n, tr[i]) && exists a :: Enabled(n, tr[i], a) && !a.Call?
  {
    RunInv(n, tr, i);
    var s := tr[i];
    var zero := s.ranks[0].phase;
    match zero {
      case Reading(next, _) =>
        if next < n {
          assert OtherOk(n, s, next);
          if s.ranks[next].phase.Calling? {
            assert Enabled(n, s, Post(next));
          } else {
            assert Enabled(n, s, Read);
          }
        } else {
          assert Enabled(n, s, Turn);
        }
      case Sending(next, _) =>
        assert Enabled(n, s, if next < n then Write else Finish);
      case Ready =>
        assert OtherOk(n, s, r);
        assert Enabled(n, s, Return(r));
    }
  }
}
