/**
  The course of maintenance windows over all ranks (cmd/jaccld/transport.go, Maintain): what closes a
  gate and what opens it again, how many operations are in flight meanwhile, and that a round in which
  every gate is closed and drained never gets stuck.
 */
module MaintenanceWindows {
  import opened Grid
  import opened Stages
  import opened Maintenance

  // ---- The gate ----

  /** What one action adds to the operations a rank has in flight. */
  function Change(a: Action): int {
    if a.Admit? || a.EnterBarrier? then 1 else if a.Leave? || a.ExitBarrier? then -1 else 0
  }

  /** Only an admission adds to what is in flight and only a departure takes from it. */
  lemma InFlightIsAdmissions(cfg: Config, s: State, a: Action)
    requires Inv(cfg, s) && Enabled(cfg, s, a)
    ensures InFlight(Stepped(cfg, s.ranks[a.r], a)) == InFlight(s.ranks[a.r]) + Change(a)
  {
    hide PairOk, CursorOk, CursorOf;
    assert RankOk(cfg, s.ranks[a.r]);
  }

  /** A closed gate admits nothing; it opens only as a round completes, and then everything is over. */
  lemma GateMoves(cfg: Config, s: State, a: Action)
    requires Inv(cfg, s) && Enabled(cfg, s, a)
    ensures var m, m' := s.ranks[a.r], Stepped(cfg, s.ranks[a.r], a);
            && (Closed(m) ==> InFlight(m') <= InFlight(m))
            && m.rounds <= m'.rounds <= m.rounds + 1
            && (Closed(m) && m'.rounds == m.rounds ==> Closed(m'))
            && (m'.rounds > m.rounds ==>
                  Closed(m) && !Closed(m') && InFlight(m') == 0 && m'.work.Free? && m'.barIn == m'.barOut)
  {
    hide PairOk, CursorOk, CursorOf;
    assert RankOk(cfg, s.ranks[a.r]);
  }

  /**
    In every run: from the moment a rank closes its gate, and as long as it has completed no further
    round, the gate stays closed and no operation is added to those in flight.
   */
  lemma {:induction false} ClosedUntilRoundEnds(cfg: Config, tr: seq<State>, i: nat, j: nat, r: nat)
    requires Strict(cfg) && Run(cfg, tr) && i <= j < |tr| && r < cfg.n
    ensures Shaped(cfg, tr[i]) && Shaped(cfg, tr[j]) && tr[i].ranks[r].rounds <= tr[j].ranks[r].rounds
    ensures Closed(tr[i].ranks[r]) && tr[i].ranks[r].rounds == tr[j].ranks[r].rounds ==>
              Closed(tr[j].ranks[r]) && InFlight(tr[j].ranks[r]) <= InFlight(tr[i].ranks[r])
    decreases j
  {
    hide Inv, Enabled, Stepped, Apply, InFlight;
    RunInv(cfg, tr, i);
    InvShaped(cfg, tr[i]);
    if i < j {
      ClosedUntilRoundEnds(cfg, tr, i, j - 1, r);
      RunInv(cfg, tr, j - 1);
      var a := ActionOf(cfg, tr, j - 1);
      GateMoves(cfg, tr[j - 1], a);
      ApplyRanks(cfg, tr[j - 1], a);
    }
  }

  lemma InvShaped(cfg: Config, s: State)
    requires Inv(cfg, s)
    ensures Shaped(cfg, s)
  {
  }

  lemma ActionOf(cfg: Config, tr: seq<State>, i: nat) returns (a: Action)
    requires Run(cfg, tr) && i + 1 < |tr|
    ensures Shaped(cfg, tr[i]) && Enabled(cfg, tr[i], a) && tr[i + 1] == Apply(cfg, tr[i], a) && a.r < cfg.n
    ensures |tr[i].ranks| == cfg.n
  {
    assert Next(cfg, tr[i + 1 - 1], tr[i + 1]);
    a :| Enabled(cfg, tr[i], a) && tr[i + 1] == Apply(cfg, tr[i], a);
  }

  /** In every run: when a rank completes a round its gate is open again, nothing is in flight, and it admits. */
  lemma CompletedRoundReopens(cfg: Config, tr: seq<State>, i: nat, r: nat)
    requires Strict(cfg) && Run(cfg, tr) && i + 1 < |tr| && r < cfg.n && r < |tr[i].ranks| && r < |tr[i + 1].ranks|
    requires tr[i].ranks[r].rounds < tr[i + 1].ranks[r].rounds
    ensures Shaped(cfg, tr[i + 1]) && !Closed(tr[i + 1].ranks[r]) && InFlight(tr[i + 1].ranks[r]) == 0
    ensures Closed(tr[i].ranks[r]) && Enabled(cfg, tr[i + 1], Admit(r))
  {
    RunInv(cfg, tr, i);
    RunInv(cfg, tr, i + 1);
    hide Inv;
    var a := ActionOf(cfg, tr, i);
    GateMoves(cfg, tr[i], a);
    ApplyRanks(cfg, tr[i], a);
    InvShaped(cfg, tr[i + 1]);
    hide InFlight, Apply, Stepped;
  }

  // ---- Progress of a round ----

  /** Every rank's gate is closed and its admitted operations have left. */
  ghost predicate AllDrained(cfg: Config, s: State) {
    |s.ranks| == cfg.n && forall r :: 0 <= r < cfg.n ==> Closed(s.ranks[r]) && InFlight(s.ranks[r]) == 0
  }

  /** A rank whose barrier call is the earliest of all passes its barrier. */
  lemma EarliestPasses(cfg: Config, s: State, r: nat)
    requires Inv(cfg, s) && r < cfg.n && (s.ranks[r].window.InPre? || s.ranks[r].window.InPost?)
    requires forall q :: 0 <= q < cfg.n ==> s.ranks[r].barIn <= s.ranks[q].barIn
    ensures exists a :: Enabled(cfg, s, a)
  {
    hide PairOk, WorkOk, CursorOk;
    assert RankOk(cfg, s.ranks[r]);
    assert BarrierPassed(s, r);
    assert Enabled(cfg, s, if s.ranks[r].window.InPre? then ExitPre(r) else ExitPost(r));
  }

  lemma EarliestRank(cfg: Config, s: State, n: nat) returns (r: nat)
    requires 0 < n <= cfg.n == |s.ranks|
    ensures r < n && forall q :: 0 <= q < n ==> s.ranks[r].barIn <= s.ranks[q].barIn
  {
    r := 0;
    for k := 1 to n
      invariant r < k && forall q :: 0 <= q < k ==> s.ranks[r].barIn <= s.ranks[q].barIn
    {
      if s.ranks[k].barIn < s.ranks[r].barIn { r := k; }
    }
  }

  /** Where a rank can be when the earliest one is at work in a round: at work in it too, or waiting at its end. */
  lemma RoundMates(cfg: Config, s: State, r: nat, q: nat)
    requires Inv(cfg, s) && r < cfg.n && q < cfg.n && s.ranks[r].window.Working?
    requires s.ranks[r].barIn <= s.ranks[q].barIn && !s.ranks[q].window.InPre?
    ensures s.ranks[q].rounds == s.ranks[r].rounds && (s.ranks[q].window.Working? || s.ranks[q].window.InPost?)
  {
    hide WorkOk, CursorOk, LinkOk, RecvsOk, Compatible;
    assert RankOk(cfg, s.ranks[r]) && RankOk(cfg, s.ranks[q]) && PairOk(s, r, q) && PairOk(s, q, r);
    WorkingSealsAll(cfg, s.ranks[r], s.ranks[q]);
  }

  /** Two ranks that have begun the same round have begun the same blocks. */
  lemma SameHistory(cfg: Config, s: State, r: nat, q: nat)
    requires Inv(cfg, s) && r < cfg.n && q < cfg.n && r != q && s.ranks[q].rounds == s.ranks[r].rounds
    requires s.ranks[r].window.Working? && (s.ranks[q].window.Working? || s.ranks[q].window.InPost?)
    ensures |s.ranks[r].hist| <= |s.ranks[q].hist|
  {
    var m, you := s.ranks[r], s.ranks[q];
    CompletedBound(cfg, s, r, q);
    assert RankOk(cfg, m) && RankOk(cfg, you) && PairOk(s, r, q);
    BusyHere(cfg, m);
    hide LinkOk, RecvsOk, CursorOf;
    assert you.hist == m.hist[..|m.hist| - 1] ==> CanFollow(CursorOf(cfg, you.hist), Maint(m.rounds));
  }

  lemma BusyHere(cfg: Config, m: Rank)
    requires RankOk(cfg, m) && m.window.Working?
    ensures m.work.Busy? && m.work.tag == Maint(m.rounds) && |m.hist| > 0 && m.work.stage.next <= cfg.n
    ensures CanFollow(CursorOf(cfg, m.hist[..|m.hist| - 1]), Maint(m.rounds)) && Completed(m) == |m.hist| - 1
  {
    hide CursorOf, CursorOk;
  }

  /** A rank at work in a window can go on unless the peer it polls has not posted its send. */
  lemma WorkerGoesOn(cfg: Config, s: State, r: nat)
    requires Inv(cfg, s) && r < cfg.n && s.ranks[r].window.Working?
    requires forall q :: 0 <= q < cfg.n ==>
               && s.ranks[q].rounds == s.ranks[r].rounds
               && (s.ranks[q].window.InPost? || (s.ranks[q].window.Working? && PastSends(s.ranks[q])))
    ensures exists a :: Enabled(cfg, s, a)
  {
    hide PairOk, CursorOf, CursorOk;
    var m := s.ranks[r];
    assert RankOk(cfg, m);
    BusyHere(cfg, m);
    var q := m.work.stage.next;
    if q == cfg.n {
      assert Enabled(cfg, s, EnterPost(r));
    } else {
      if q != r {
        SendIsThere(cfg, s, r, q);
      }
      assert Enabled(cfg, s, Advance(r));
    }
  }

  predicate PastSends(m: Rank) { m.work.Busy? && m.work.stage.Polls? }

  lemma SendIsThere(cfg: Config, s: State, r: nat, q: nat)
    requires Inv(cfg, s) && r < cfg.n && q < cfg.n && r != q && s.ranks[q].rounds == s.ranks[r].rounds
    requires s.ranks[r].window.Working? && s.ranks[r].work.Busy? && s.ranks[r].work.stage == Polls(q)
    requires s.ranks[q].window.InPost? || (s.ranks[q].window.Working? && PastSends(s.ranks[q]))
    ensures Shaped(cfg, s) && |s.ranks| == cfg.n && CanPoll(s, r, q)
  {
    SameHistory(cfg, s, r, q);
    assert RankOk(cfg, s.ranks[r]) && RankOk(cfg, s.ranks[q]) && PairOk(s, r, q) && PairOk(s, q, r);
    LinkParts(s, r, q);
    LinkParts(s, q, r);
    hide Compatible, CursorOf, CursorOk, LinkOk, Blocks, NoWindowAfter;
  }

  /** A rank still posting in its window can post. */
  lemma PosterGoesOn(cfg: Config, s: State, r: nat)
    requires Inv(cfg, s) && r < cfg.n && s.ranks[r].window.Working? && !PastSends(s.ranks[r])
    ensures exists a :: Enabled(cfg, s, a)
  {
    hide PairOk, CursorOf, CursorOk;
    assert RankOk(cfg, s.ranks[r]);
    BusyHere(cfg, s.ranks[r]);
    assert Enabled(cfg, s, Advance(r));
  }

  lemma EntrantGoesOn(cfg: Config, s: State, r: nat)
    requires Inv(cfg, s) && r < cfg.n && InFlight(s.ranks[r]) == 0
    requires s.ranks[r].window.Draining? || s.ranks[r].window.Locked?
    ensures exists a :: Enabled(cfg, s, a)
  {
    hide PairOk, RankOk;
    assert Enabled(cfg, s, if s.ranks[r].window.Draining? then Drained(r) else EnterPre(r));
  }

  /** In every run: once every gate is closed and drained, some rank can always act. */
  lemma RoundNeverStuck(cfg: Config, tr: seq<State>, i: nat)
    requires Strict(cfg) && Run(cfg, tr) && i < |tr| && cfg.n > 0 && AllDrained(cfg, tr[i])
    ensures Shaped(cfg, tr[i]) && exists a :: Enabled(cfg, tr[i], a)
  {
    hide Inv, Enabled, Run, InFlight;
    var s := tr[i];
    RunInv(cfg, tr, i);
    InvShaped(cfg, s);
    if r :| 0 <= r < cfg.n && (s.ranks[r].window.Draining? || s.ranks[r].window.Locked?) {
      EntrantGoesOn(cfg, s, r);
    } else if r :| 0 <= r < cfg.n && s.ranks[r].window.Working? && !PastSends(s.ranks[r]) {
      PosterGoesOn(cfg, s, r);
    } else {
      var r := EarliestRank(cfg, s, cfg.n);
      if s.ranks[r].window.Working? {
        if q :| 0 <= q < cfg.n && s.ranks[q].window.InPre? {
          PreIsEarliest(cfg, s, r, q);
          EarliestPasses(cfg, s, q);
        } else {
          forall q | 0 <= q < cfg.n
            ensures s.ranks[q].rounds == s.ranks[r].rounds
            ensures s.ranks[q].window.InPost? || (s.ranks[q].window.Working? && PastSends(s.ranks[q]))
          {
            RoundMates(cfg, s, r, q);
          }
          WorkerGoesOn(cfg, s, r);
        }
      } else {
        EarliestPasses(cfg, s, r);
      }
    }
  }

  /** A rank that waits to begin the round in which another works has called no more barriers than it. */
  lemma PreIsEarliest(cfg: Config, s: State, r: nat, q: nat)
    requires Inv(cfg, s) && r < cfg.n && q < cfg.n && s.ranks[r].window.Working? && s.ranks[q].window.InPre?
    requires forall p :: 0 <= p < cfg.n ==> s.ranks[r].barIn <= s.ranks[p].barIn
    ensures forall p :: 0 <= p < cfg.n ==> s.ranks[q].barIn <= s.ranks[p].barIn
  {
    hide WorkOk, CursorOk, LinkOk, RecvsOk, Compatible;
    assert RankOk(cfg, s.ranks[r]) && RankOk(cfg, s.ranks[q]) && PairOk(s, r, q) && PairOk(s, q, r);
  }

  // ---- Operations of users ----

  /** A block of a collective that has been polled is followed by the next chunk if there is one, and else ends it. */
  lemma CollectiveGoesOn(cfg: Config, s: State, r: nat)
    requires Shaped(cfg, s) && r < cfg.n && BlockDone(cfg, s.ranks[r]) && s.ranks[r].work.tag.User?
    ensures var tag := s.ranks[r].work.tag;
            if tag.chunk + 1 < cfg.chunks(tag.op) then
              && Enabled(cfg, s, NextChunk(r)) && !Enabled(cfg, s, FinishOp(r))
              && var m := Apply(cfg, s, NextChunk(r)).ranks[r];
              && m.work == Busy(User(tag.op, tag.chunk + 1), Recvs(0)) && m.leaving == s.ranks[r].leaving
            else
              && !Enabled(cfg, s, NextChunk(r)) && Enabled(cfg, s, FinishOp(r))
              && var m := Apply(cfg, s, FinishOp(r)).ranks[r];
              && m.work.Free? && m.leaving == s.ranks[r].leaving + 1
  {
  }

  /** A user's barrier is entered at an open gate, one at a time, and returns exactly when every rank has called. */
  lemma UserBarrierGoesOn(cfg: Config, s: State, r: nat)
    requires Shaped(cfg, s) && r < cfg.n
    ensures Enabled(cfg, s, EnterBarrier(r)) <==> cfg.userBarriers && !Closed(s.ranks[r]) && !s.ranks[r].barring
    ensures Enabled(cfg, s, ExitBarrier(r)) <==> s.ranks[r].barring && BarrierPassed(s, r)
    ensures Enabled(cfg, s, ExitBarrier(r)) ==>
              var m := Apply(cfg, s, ExitBarrier(r)).ranks[r]; !m.barring && m.barOut == s.ranks[r].barOut + 1
  {
  }

  /** A Recv posts on the link from the rank it names, and returns exactly when a message for it is there. */
  lemma DirectRecvGoesOn(cfg: Config, s: State, r: nat, q: nat)
    requires Shaped(cfg, s) && r < cfg.n && q < cfg.n && q != r
    ensures cfg.directRecv && CanStart(s.ranks[r]) ==>
              && Enabled(cfg, s, RecvDirect(r, q))
              && var t := Apply(cfg, s, RecvDirect(r, q));
              && t.recvs[r][q] == s.recvs[r][q] + [Direct] && t.ranks[r].work == Taking(q)
    ensures s.ranks[r].work == Taking(q) ==>
              (Enabled(cfg, s, RecvDone(r)) <==>
                 s.polled[r][q] < |s.recvs[r][q]| && s.polled[r][q] < |s.sends[q][r]|)
  {
  }
}
