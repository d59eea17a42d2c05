/**
  Completion demultiplexing on one connection (cmd/jaccld/transport.go): pollExpected waits
  for a given multiset of work ids, parking every other completion on a pending list;
  pollMaintenanceExpected refuses anything it did not ask for.

  What the provider returns is an input: a sequence of polls, each a batch or an error. A
  sequence that ends stands for a call that is still waiting, and counts as an error.
 */
module Completions {

  datatype WorkRequest = WorkRequest(id: nat, opcode: int, bytes: int, status: int)

  datatype Poll = Batch(wrs: seq<WorkRequest>) | PollError

  // ---- Counting ----

  /** What to count: completions of an id, or occurrences of one completion. */
  datatype Key = OfId(id: nat) | OfWork(wr: WorkRequest)

  predicate Matches(k: Key, wr: WorkRequest) {
    match k
    case OfId(id) => wr.id == id
    case OfWork(w) => wr == w
  }

  function Tally(s: seq<WorkRequest>, k: Key): nat {
    if s == [] then 0 else Tally(s[..|s| - 1], k) + if Matches(k, s[|s| - 1]) then 1 else 0
  }

  /** How often id is expected. */
  function Expected(ids: seq<nat>, id: nat): nat {
    if ids == [] then 0 else Expected(ids[..|ids| - 1], id) + if ids[|ids| - 1] == id then 1 else 0
  }

  lemma {:induction false} TallyIsMultiset(s: seq<WorkRequest>, wr: WorkRequest)
    ensures Tally(s, OfWork(wr)) == multiset(s)[wr]
  {
    if s != [] {
      TallyIsMultiset(s[..|s| - 1], wr);
      assert s == s[..|s| - 1] + [s[|s| - 1]];
    }
  }

  lemma {:induction false} ExpectedIsMultiset(ids: seq<nat>, id: nat)
    ensures Expected(ids, id) == multiset(ids)[id]
  {
    if ids != [] {
      ExpectedIsMultiset(ids[..|ids| - 1], id);
      assert ids == ids[..|ids| - 1] + [ids[|ids| - 1]];
    }
  }

  lemma TallySnoc(s: seq<WorkRequest>, wr: WorkRequest, k: Key)
    ensures Tally(s + [wr], k) == Tally(s, k) + if Matches(k, wr) then 1 else 0
  {
    assert (s + [wr])[..|s|] == s;
  }

  lemma {:induction false} TallyAppend(a: seq<WorkRequest>, b: seq<WorkRequest>, k: Key)
    ensures Tally(a + b, k) == Tally(a, k) + Tally(b, k)
    decreases |b|
  {
    if b == [] {
      assert a + b == a;
    } else {
      var front, wr := b[..|b| - 1], b[|b| - 1];
      TallyAppend(a, front, k);
      assert a + b == (a + front) + [wr] && b == front + [wr];
      TallySnoc(a + front, wr, k);
    }
  }

  lemma {:induction false} TallyZero(s: seq<WorkRequest>, k: Key)
    ensures Tally(s, k) == 0 <==> forall i :: 0 <= i < |s| ==> !Matches(k, s[i])
  {
    if s != [] {
      TallyZero(s[..|s| - 1], k);
      assert s == s[..|s| - 1] + [s[|s| - 1]];
    }
  }

  lemma TallyRemove(s: seq<WorkRequest>, i: nat, k: Key)
    requires i < |s|
    ensures Tally(s, k) == Tally(s[..i] + s[i + 1..], k) + if Matches(k, s[i]) then 1 else 0
  {
    assert s == (s[..i] + [s[i]]) + s[i + 1..];
    TallyAppend(s[..i] + [s[i]], s[i + 1..], k);
    TallySnoc(s[..i], s[i], k);
    TallyAppend(s[..i], s[i + 1..], k);
  }

  /** Everything the first k polls delivered. */
  function Delivered(polls: seq<Poll>, k: nat): seq<WorkRequest>
    requires k <= |polls|
  {
    if k == 0 then []
    else Delivered(polls, k - 1) + (if polls[k - 1].Batch? then polls[k - 1].wrs else [])
  }

  predicate AllBatches(polls: seq<Poll>, k: nat)
    requires k <= |polls|
  {
    forall i :: 0 <= i < k ==> polls[i].Batch?
  }

  lemma {:induction false} DeliveredGrows(polls: seq<Poll>, j: nat, n: nat, k: Key)
    requires j <= n <= |polls|
    ensures Tally(Delivered(polls, j), k) <= Tally(Delivered(polls, n), k)
  {
    hide Tally;
    if j < n {
      DeliveredGrows(polls, j, n - 1, k);
      TallyAppend(Delivered(polls, n - 1), if polls[n - 1].Batch? then polls[n - 1].wrs else [], k);
    }
  }

  // ---- The bookkeeping of one call ----

  /** The want map: ids to positive counts. */
  type Wanted = w: map<nat, nat> | forall id :: id in w ==> w[id] > 0 witness map[]

  function Need(want: Wanted, id: nat): nat { if id in want then want[id] else 0 }

  function Less(want: Wanted, id: nat): (w: Wanted)
    requires id in want
    ensures forall k :: Need(w, k) == if k == id then Need(want, k) - 1 else Need(want, k)
  {
    if want[id] == 1 then want - {id} else want[id := want[id] - 1]
  }

  method CountIds(ids: seq<nat>) returns (want: Wanted)
    ensures forall id :: Need(want, id) == Expected(ids, id)
  {
    want := map[];
    assert ids[..0] == [];
    for i := 0 to |ids|
      invariant forall id :: Need(want, id) == Expected(ids[..i], id)
    {
      assert ids[..i + 1][..i] == ids[..i];
      want := want[ids[i] := Need(want, ids[i]) + 1];
    }
    assert ids[..|ids|] == ids;
  }

  /** s without its first completion of the given id. */
  function WithoutFirst(s: seq<WorkRequest>, id: nat): seq<WorkRequest> {
    if s == [] then [] else if s[0].id == id then s[1..] else [s[0]] + WithoutFirst(s[1..], id)
  }

  lemma {:induction false} WithoutFirstAt(s: seq<WorkRequest>, id: nat, i: nat)
    requires i < |s| && s[i].id == id && forall j :: 0 <= j < i ==> s[j].id != id
    ensures WithoutFirst(s, id) == s[..i] + s[i + 1..]
  {
    if i > 0 {
      WithoutFirstAt(s[1..], id, i - 1);
      assert s[1..][..i - 1] == s[1..i] && s[1..][i..] == s[i + 1..];
    }
  }

  /** No pending completion is still wanted. */
  ghost predicate NothingWanted(pending: seq<WorkRequest>, want: Wanted) {
    forall id :: id in want ==> Tally(pending, OfId(id)) == 0
  }

  /** What was taken and what is pending account for everything that was there or came in. */
  ghost predicate Conserved(before: seq<WorkRequest>, arrived: seq<WorkRequest>, pending: seq<WorkRequest>,
                            taken: seq<WorkRequest>) {
    forall k :: Tally(before, k) + Tally(arrived, k) == Tally(pending, k) + Tally(taken, k)
  }

  /** The taken completions and what is still wanted make up the given demand. */
  ghost predicate Meets(taken: seq<WorkRequest>, want: Wanted, demand: Demand) {
    forall id :: Tally(taken, OfId(id)) + Need(want, id) == demand.Of(id)
  }

  /** Asked for by a want map or by a list of ids. */
  datatype Demand = ByMap(w: Wanted) | ByIds(ids: seq<nat>) {
    function Of(id: nat): nat {
      match this
      case ByMap(w) => Need(w, id)
      case ByIds(ids) => Expected(ids, id)
    }
  }

  lemma JoinConserved(before: seq<WorkRequest>, arrived: seq<WorkRequest>, mid: seq<WorkRequest>, had: seq<WorkRequest>,
                      more: seq<WorkRequest>, after: seq<WorkRequest>, got: seq<WorkRequest>)
    requires Conserved(before, arrived, mid, had) && Conserved(mid, more, after, got)
    ensures Conserved(before, arrived + more, after, had + got)
  {
    hide Tally;
    forall k
      ensures Tally(before, k) + Tally(arrived + more, k) == Tally(after, k) + Tally(had + got, k)
    {
      TallyAppend(arrived, more, k);
      TallyAppend(had, got, k);
    }
  }

  lemma JoinMeets(had: seq<WorkRequest>, want: Wanted, demand: Demand, got: seq<WorkRequest>, left: Wanted)
    requires Meets(had, want, demand) && Meets(got, left, ByMap(want))
    ensures Meets(had + got, left, demand)
  {
    hide Tally;
    forall id
      ensures Tally(had + got, OfId(id)) + Need(left, id) == demand.Of(id)
    {
      TallyAppend(had, got, OfId(id));
    }
  }

  /** A completion of a wanted id moves from wanted to taken. */
  lemma TakeOne(taken: seq<WorkRequest>, want: Wanted, demand: Demand, wr: WorkRequest)
    requires Meets(taken, want, demand) && wr.id in want
    ensures Meets(taken + [wr], Less(want, wr.id), demand)
  {
    hide Tally;
    forall id
      ensures Tally(taken + [wr], OfId(id)) + Need(Less(want, wr.id), id) == demand.Of(id)
    {
      TallySnoc(taken, wr, OfId(id));
    }
  }

  lemma StillNothing(pending: seq<WorkRequest>, want: Wanted, id: nat)
    requires NothingWanted(pending, want) && id in want
    ensures NothingWanted(pending, Less(want, id))
  {
    forall k | k in Less(want, id)
      ensures k in want
    {
      assert Need(Less(want, id), k) > 0;
    }
  }

  lemma Parked(pending: seq<WorkRequest>, want: Wanted, wr: WorkRequest)
    requires NothingWanted(pending, want) && wr.id !in want
    ensures NothingWanted(pending + [wr], want)
  {
    hide Tally;
    forall k | k in want
      ensures Tally(pending + [wr], OfId(k)) == 0
    {
      TallySnoc(pending, wr, OfId(k));
    }
  }

  /** Wanted ids outside keys have no pending completion. */
  ghost predicate Visited(pending: seq<WorkRequest>, want: Wanted, keys: set<nat>) {
    forall id :: id in want && id !in keys ==> Tally(pending, OfId(id)) == 0
  }

  lemma Untouched(pending: seq<WorkRequest>, wanted: Wanted)
    ensures Conserved(pending, [], pending, []) && Meets([], wanted, ByMap(wanted))
    ensures Visited(pending, wanted, wanted.Keys)
  {
  }

  lemma AllVisited(pending: seq<WorkRequest>, want: Wanted)
    requires Visited(pending, want, {})
    ensures NothingWanted(pending, want)
  {
  }

  lemma KeyDone(was: seq<WorkRequest>, pending: seq<WorkRequest>, got: seq<WorkRequest>,
                still: Wanted, want: Wanted, keys: set<nat>, id: nat)
    requires Visited(was, still, keys) && Conserved(was, [], pending, got)
    requires id in want ==> Tally(pending, OfId(id)) == 0
    requires forall k :: k != id ==> Need(want, k) == Need(still, k) && Tally(got, OfId(k)) == 0
    ensures Visited(pending, want, keys - {id})
  {
    hide Tally;
    forall k | k in want && k !in keys - {id}
      ensures Tally(pending, OfId(k)) == 0
    {
      if k != id {
        assert Need(want, k) == Need(still, k);
        assert Tally(was, OfId(k)) + Tally([], OfId(k)) == Tally(pending, OfId(k)) + Tally(got, OfId(k));
        TallyNothing();
      }
    }
  }

  const Nothing: seq<WorkRequest> := []

  class Connection {
    var pending: seq<WorkRequest>

    /** Remove the first pending completion with this id, keeping the others in order. */
    method TakePending(id: nat) returns (found: bool, ghost wr: WorkRequest)
      modifies this
      ensures found <==> Tally(old(pending), OfId(id)) > 0
      ensures found ==> wr.id == id && pending == WithoutFirst(old(pending), id)
      ensures found ==> Conserved(old(pending), [], pending, [wr])
      ensures !found ==> pending == old(pending)
    {
      wr := WorkRequest(id, 0, 0, 0);
      TallyZero(pending, OfId(id));
      for i := 0 to |pending|
        invariant pending == old(pending) && forall j :: 0 <= j < i ==> pending[j].id != id
      {
        if pending[i].id == id {
          wr := pending[i];
          WithoutFirstAt(pending, id, i);
          forall k
            ensures Tally(pending, k) == Tally(pending[..i] + pending[i + 1..], k) + Tally([wr], k)
          {
            TallyRemove(pending, i, k);
            TallySnoc([], wr, k);
            assert [] + [wr] == [wr];
          }
          pending := pending[..i] + pending[i + 1..];
          return true, wr;
        }
      }
      return false, wr;
    }

    /** Take pending completions of one id until none is left or none is wanted. */
    method TakeAll(id: nat, wanted: Wanted) returns (want: Wanted, ghost taken: seq<WorkRequest>)
      modifies this
      ensures Conserved(old(pending), [], pending, taken)
      ensures Meets(taken, want, ByMap(wanted))
      ensures id in want ==> Tally(pending, OfId(id)) == 0
      ensures forall k :: k != id ==> Need(want, k) == Need(wanted, k) && Tally(taken, OfId(k)) == 0
    {
      hide Tally;
      want, taken := wanted, [];
      TallyNothing();
      var more := true;
      while id in want && more
        invariant Conserved(old(pending), [], pending, taken)
        invariant Meets(taken, want, ByMap(wanted))
        invariant !more ==> Tally(pending, OfId(id)) == 0
        invariant forall k :: k != id ==> Need(want, k) == Need(wanted, k)
        decreases Need(want, id), more
      {
        ghost var was := pending;
        ghost var wr;
        more, wr := TakePending(id);
        if more {
          JoinConserved(old(pending), [], was, taken, [], pending, [wr]);
          assert Nothing + Nothing == Nothing;
          TakeOne(taken, want, ByMap(wanted), wr);
          taken := taken + [wr];
          want := Less(want, id);
        }
      }
    }

    /** First half of a turn of pollExpected: satisfy what is wanted from the pending list, in any id order. */
    method TakeWanted(wanted: Wanted) returns (want: Wanted, ghost taken: seq<WorkRequest>)
      modifies this
      ensures Conserved(old(pending), [], pending, taken)
      ensures Meets(taken, want, ByMap(wanted))
      ensures NothingWanted(pending, want)
    {
      want, taken := wanted, [];
      Untouched(pending, wanted);
      hide Tally, Conserved, Meets, Need, Visited, NothingWanted;
      var keys := wanted.Keys;
      while keys != {}
        invariant Conserved(old(pending), [], pending, taken)
        invariant Meets(taken, want, ByMap(wanted))
        invariant Visited(pending, want, keys)
        decreases keys
      {
        var id :| id in keys;
        ghost var was, had, still := pending, taken, want;
        ghost var got;
        want, got := TakeAll(id, want);
        JoinConserved(old(pending), [], was, had, [], pending, got);
        assert Nothing + Nothing == Nothing;
        JoinMeets(had, still, ByMap(wanted), got, want);
        taken := had + got;
        KeyDone(was, pending, got, still, want, keys, id);
        keys := keys - {id};
      }
      AllVisited(pending, want);
    }

    /** Second half: split a polled batch between the wanted ids and the pending list. */
    method Absorb(wanted: Wanted, wrs: seq<WorkRequest>) returns (want: Wanted, ghost taken: seq<WorkRequest>)
      requires NothingWanted(pending, wanted)
      modifies this
      ensures Conserved(old(pending), wrs, pending, taken)
      ensures Meets(taken, want, ByMap(wanted))
      ensures NothingWanted(pending, want)
    {
      want, taken := wanted, [];
      Untouched(pending, wanted);
      assert wrs[..0] == [];
      hide Tally, Conserved, Meets, Need, NothingWanted;
      for i := 0 to |wrs|
        invariant Conserved(old(pending), wrs[..i], pending, taken)
        invariant Meets(taken, want, ByMap(wanted))
        invariant NothingWanted(pending, want)
      {
        var wr := wrs[i];
        assert wrs[..i + 1] == wrs[..i] + [wr];
        OneMore(old(pending), wrs[..i], pending, taken, wr);
        if wr.id in want {
          TakeOne(taken, want, ByMap(wanted), wr);
          StillNothing(pending, want, wr.id);
          taken := taken + [wr];
          want := Less(want, wr.id);
        } else {
          Parked(pending, want, wr);
          pending := pending + [wr];
        }
      }
      assert wrs[..|wrs|] == wrs;
    }

    /**
      pollExpected. Every completion is either taken or pending afterwards; the taken ones carry
      exactly the expected ids on success, and some but not all of them on error. It succeeds
      exactly when the pending list and the batches before the first error hold all expected ids.
     */
    method PollExpected(ids: seq<nat>, polls: seq<Poll>) returns (ok: bool, used: nat, ghost taken: seq<WorkRequest>)
      modifies this
      ensures used <= |polls| && AllBatches(polls, used)
      ensures Conserved(old(pending), Delivered(polls, used), pending, taken)
      ensures ok ==> forall id :: Tally(taken, OfId(id)) == Expected(ids, id)
      ensures !ok ==> (forall id :: Tally(taken, OfId(id)) <= Expected(ids, id))
                      && exists id :: Tally(taken, OfId(id)) < Expected(ids, id)
      ensures ok <==> Satisfiable(old(pending), polls, ids)
    {
      hide *;
      used, taken := 0, [];
      var want := CountIds(ids);
      CallStarts(pending, polls, ids, want);
      ghost var before := pending;
      while want != map[]
        invariant used <= |polls| && InCall(before, polls, used, ids, pending, taken, want)
        decreases |polls| - used, |want|
      {
        want, taken := FirstHalf(before, polls, used, ids, want, taken);
        if want == map[] { break; }
        if used == |polls| || polls[used].PollError? {
          CallFails(before, polls, used, ids, pending, taken, want);
          return false, used, taken;
        }
        want, taken := SecondHalf(before, polls, used, ids, want, taken);
        used := used + 1;
      }
      CallSucceeds(before, polls, used, ids, pending, taken);
      return true, used, taken;
    }

    method FirstHalf(ghost before: seq<WorkRequest>, ghost polls: seq<Poll>, ghost used: nat, ghost ids: seq<nat>,
                     wanted: Wanted, ghost had: seq<WorkRequest>)
      returns (want: Wanted, ghost taken: seq<WorkRequest>)
      requires used <= |polls| && InCall(before, polls, used, ids, pending, had, wanted)
      modifies this
      ensures InCall(before, polls, used, ids, pending, taken, want) && NothingWanted(pending, want)
    {
      hide Tally, Expected, Conserved, Meets, NothingWanted;
      ghost var was := pending;
      ghost var got;
      want, got := TakeWanted(wanted);
      JoinConserved(before, Delivered(polls, used), was, had, [], pending, got);
      assert Delivered(polls, used) + [] == Delivered(polls, used);
      JoinMeets(had, wanted, ByIds(ids), got, want);
      taken := had + got;
    }

    method SecondHalf(ghost before: seq<WorkRequest>, polls: seq<Poll>, used: nat, ghost ids: seq<nat>,
                      wanted: Wanted, ghost had: seq<WorkRequest>)
      returns (want: Wanted, ghost taken: seq<WorkRequest>)
      requires used < |polls| && polls[used].Batch?
      requires InCall(before, polls, used, ids, pending, had, wanted) && NothingWanted(pending, wanted)
      modifies this
      ensures InCall(before, polls, used + 1, ids, pending, taken, want)
    {
      hide Tally, Expected, Conserved, Meets, NothingWanted;
      ghost var was := pending;
      ghost var got;
      want, got := Absorb(wanted, polls[used].wrs);
      JoinConserved(before, Delivered(polls, used), was, had, polls[used].wrs, pending, got);
      JoinMeets(had, wanted, ByIds(ids), got, want);
      OneBatchMore(polls, used);
      taken := had + got;
    }
  }

  /** A pollExpected call that has used the first polls. */
  ghost predicate InCall(before: seq<WorkRequest>, polls: seq<Poll>, used: nat, ids: seq<nat>,
                         pending: seq<WorkRequest>, taken: seq<WorkRequest>, want: Wanted)
    requires used <= |polls|
  {
    && AllBatches(polls, used) && Meets(taken, want, ByIds(ids))
    && Conserved(before, Delivered(polls, used), pending, taken)
  }

  lemma CallStarts(pending: seq<WorkRequest>, polls: seq<Poll>, ids: seq<nat>, want: Wanted)
    requires forall id :: Need(want, id) == Expected(ids, id)
    ensures InCall(pending, polls, 0, ids, pending, [], want)
  {
    Nowhere(pending, want, ids);
  }

  lemma CallSucceeds(before: seq<WorkRequest>, polls: seq<Poll>, used: nat, ids: seq<nat>,
                     pending: seq<WorkRequest>, taken: seq<WorkRequest>)
    requires used <= |polls| && InCall(before, polls, used, ids, pending, taken, map[])
    ensures AllBatches(polls, used) && Conserved(before, Delivered(polls, used), pending, taken)
    ensures Satisfiable(before, polls, ids) && forall id :: Tally(taken, OfId(id)) == Expected(ids, id)
  {
    hide Tally, Expected, Conserved, Meets;
    NoneLeft(taken, ids);
    SatisfiedAt(before, polls, ids, used, pending, taken);
  }

  lemma CallFails(before: seq<WorkRequest>, polls: seq<Poll>, used: nat, ids: seq<nat>,
                  pending: seq<WorkRequest>, taken: seq<WorkRequest>, want: Wanted)
    requires used <= |polls| && InCall(before, polls, used, ids, pending, taken, want)
    requires (used == |polls| || polls[used].PollError?) && want != map[] && NothingWanted(pending, want)
    ensures AllBatches(polls, used) && Conserved(before, Delivered(polls, used), pending, taken)
    ensures !Satisfiable(before, polls, ids)
    ensures (forall id :: Tally(taken, OfId(id)) <= Expected(ids, id))
    ensures exists id :: Tally(taken, OfId(id)) < Expected(ids, id)
  {
    hide Tally, Expected, Conserved, Meets, NothingWanted;
    NotSatisfied(before, polls, ids, used, pending, taken, want);
  }

  lemma NoneLeft(taken: seq<WorkRequest>, ids: seq<nat>)
    requires Meets(taken, map[], ByIds(ids))
    ensures forall id :: Tally(taken, OfId(id)) == Expected(ids, id)
  {
    hide Tally, Expected;
    forall id
      ensures Tally(taken, OfId(id)) == Expected(ids, id)
    {
      assert Tally(taken, OfId(id)) + Need(map[], id) == ByIds(ids).Of(id);
    }
  }

  /** A call starts with nothing taken and nothing delivered. */
  lemma Nowhere(pending: seq<WorkRequest>, want: Wanted, ids: seq<nat>)
    requires forall id :: Need(want, id) == Expected(ids, id)
    ensures Conserved(pending, [], pending, []) && Meets([], want, ByIds(ids))
  {
  }

  lemma OneBatchMore(polls: seq<Poll>, used: nat)
    requires used < |polls| && AllBatches(polls, used) && polls[used].Batch?
    ensures AllBatches(polls, used + 1) && Delivered(polls, used + 1) == Delivered(polls, used) + polls[used].wrs
  {
  }

  lemma TallyNothing()
    ensures forall k :: Tally([], k) == 0
  {
  }

  lemma OneMore(before: seq<WorkRequest>, arrived: seq<WorkRequest>, pending: seq<WorkRequest>, taken: seq<WorkRequest>,
                wr: WorkRequest)
    requires Conserved(before, arrived, pending, taken)
    ensures Conserved(before, arrived + [wr], pending + [wr], taken)
    ensures Conserved(before, arrived + [wr], pending, taken + [wr])
  {
    hide Tally;
    forall k
      ensures Tally(arrived + [wr], k) - Tally(arrived, k) == Tally(pending + [wr], k) - Tally(pending, k)
      ensures Tally(arrived + [wr], k) - Tally(arrived, k) == Tally(taken + [wr], k) - Tally(taken, k)
      ensures Tally(before, k) + Tally(arrived, k) == Tally(pending, k) + Tally(taken, k)
    {
      TallySnoc(arrived, wr, k);
      TallySnoc(pending, wr, k);
      TallySnoc(taken, wr, k);
    }
  }

  /** The pending list and the first k polls hold all expected ids. */
  ghost predicate Enough(pending: seq<WorkRequest>, polls: seq<Poll>, ids: seq<nat>, k: nat)
    requires k <= |polls|
  {
    forall id :: Expected(ids, id) <= Tally(pending, OfId(id)) + Tally(Delivered(polls, k), OfId(id))
  }

  ghost predicate Satisfiable(pending: seq<WorkRequest>, polls: seq<Poll>, ids: seq<nat>) {
    exists k: nat :: k <= |polls| && AllBatches(polls, k) && Enough(pending, polls, ids, k)
  }

  lemma SatisfiedAt(before: seq<WorkRequest>, polls: seq<Poll>, ids: seq<nat>, used: nat,
                    pending: seq<WorkRequest>, taken: seq<WorkRequest>)
    requires used <= |polls| && AllBatches(polls, used)
    requires Conserved(before, Delivered(polls, used), pending, taken)
    requires forall id :: Tally(taken, OfId(id)) == Expected(ids, id)
    ensures Satisfiable(before, polls, ids)
  {
    hide Tally, Expected;
    assert Enough(before, polls, ids, used);
  }

  lemma NotSatisfied(before: seq<WorkRequest>, polls: seq<Poll>, ids: seq<nat>, used: nat,
                     pending: seq<WorkRequest>, taken: seq<WorkRequest>, want: Wanted)
    requires used <= |polls| && (used == |polls| || polls[used].PollError?)
    requires Conserved(before, Delivered(polls, used), pending, taken)
    requires Meets(taken, want, ByIds(ids)) && want != map[] && NothingWanted(pending, want)
    ensures !Satisfiable(before, polls, ids)
    ensures forall id :: Tally(taken, OfId(id)) <= Expected(ids, id)
    ensures exists id :: Tally(taken, OfId(id)) < Expected(ids, id)
  {
    hide Tally, Expected;
    var id :| id in want;
    assert forall i :: Tally(taken, OfId(i)) + Need(want, i) == ByIds(ids).Of(i);
    assert Tally(taken, OfId(id)) + Need(want, id) == Expected(ids, id);
    forall k: nat | k <= |polls| && AllBatches(polls, k)
      ensures !Enough(before, polls, ids, k)
    {
      assert k <= used;
      DeliveredGrows(polls, k, used, OfId(id));
      assert Tally(before, OfId(id)) + Tally(Delivered(polls, used), OfId(id))
          == Tally(pending, OfId(id)) + Tally(taken, OfId(id));
    }
  }

  /** The first k polls are error-free and deliver exactly the expected ids. */
  ghost predicate Exact(polls: seq<Poll>, ids: seq<nat>, k: nat) {
    && k <= |polls| && AllBatches(polls, k)
    && forall id :: Tally(Delivered(polls, k), OfId(id)) == Expected(ids, id)
  }

  /**
    pollMaintenanceExpected succeeds exactly when what the provider delivers is what was asked for,
    no less and no more.
   */
  method PollMaintenanceExpected(ids: seq<nat>, polls: seq<Poll>) returns (ok: bool, used: nat)
    ensures used <= |polls|
    ensures ok ==> Exact(polls, ids, used)
    ensures ok <==> exists k: nat :: Exact(polls, ids, k)
  {
    var want := CountIds(ids);
    Nowhere([], want, ids);
    used := 0;
    hide Tally, Expected, Meets, AllBatches, Exact, Need;
    while want != map[]
      invariant used <= |polls| && AllBatches(polls, used)
      invariant Meets(Delivered(polls, used), want, ByIds(ids))
      decreases |polls| - used
    {
      if used == |polls| || polls[used].PollError? {
        NeverExact(polls, ids, used, want);
        return false, used;
      }
      var matched;
      matched, want := MatchBatch(ids, polls, used, want);
      if !matched { return false, used; }
      OneBatchMore(polls, used);
      used := used + 1;
    }
    ExactAt(polls, ids, used);
    return true, used;
  }

  /** One batch against what is still wanted; stops at the first completion nobody asked for. */
  method MatchBatch(ghost ids: seq<nat>, polls: seq<Poll>, used: nat, wanted: Wanted)
    returns (matched: bool, want: Wanted)
    requires used < |polls| && polls[used].Batch? && wanted != map[]
    requires Meets(Delivered(polls, used), wanted, ByIds(ids))
    ensures matched ==> Meets(Delivered(polls, used) + polls[used].wrs, want, ByIds(ids))
    ensures !matched ==> forall k: nat :: !Exact(polls, ids, k)
  {
    hide Tally, Expected, Meets, Exact;
    var wrs := polls[used].wrs;
    ghost var start := Delivered(polls, used);
    want := wanted;
    assert start + wrs[..0] == start;
    for i := 0 to |wrs|
      invariant Meets(start + wrs[..i], want, ByIds(ids))
    {
      assert start + wrs[..i + 1] == (start + wrs[..i]) + [wrs[i]];
      if wrs[i].id !in want {
        UnexpectedNeverExact(polls, ids, used, i, wanted, want);
        return false, want;
      }
      TakeOne(start + wrs[..i], want, ByIds(ids), wrs[i]);
      want := Less(want, wrs[i].id);
    }
    assert start + wrs[..|wrs|] == start + wrs;
    return true, want;
  }

  lemma ExactAt(polls: seq<Poll>, ids: seq<nat>, used: nat)
    requires used <= |polls| && AllBatches(polls, used) && Meets(Delivered(polls, used), map[], ByIds(ids))
    ensures Exact(polls, ids, used)
  {
    NoneLeft(Delivered(polls, used), ids);
  }

  lemma NeverExact(polls: seq<Poll>, ids: seq<nat>, used: nat, want: Wanted)
    requires used <= |polls| && (used == |polls| || polls[used].PollError?)
    requires Meets(Delivered(polls, used), want, ByIds(ids)) && want != map[]
    ensures forall k: nat :: !Exact(polls, ids, k)
  {
    hide Tally, Expected;
    var id :| id in want;
    assert Tally(Delivered(polls, used), OfId(id)) + Need(want, id) == ByIds(ids).Of(id);
    forall k: nat | k <= |polls| && AllBatches(polls, k)
      ensures Tally(Delivered(polls, k), OfId(id)) < Expected(ids, id)
    {
      assert k <= used;
      DeliveredGrows(polls, k, used, OfId(id));
    }
  }

  /** Batch used delivers more of id than expected. */
  lemma Overdelivered(polls: seq<Poll>, ids: seq<nat>, used: nat, i: nat, want: Wanted)
    requires used < |polls| && polls[used].Batch? && i < |polls[used].wrs|
    requires Meets(Delivered(polls, used) + polls[used].wrs[..i], want, ByIds(ids))
    requires polls[used].wrs[i].id !in want
    ensures var id := polls[used].wrs[i].id;
            Tally(Delivered(polls, used + 1), OfId(id)) > Expected(ids, id)
  {
    hide Tally, Expected;
    var wrs := polls[used].wrs;
    var k := OfId(wrs[i].id);
    var upto := Delivered(polls, used) + wrs[..i];
    assert Tally(upto, k) + Need(want, wrs[i].id) == ByIds(ids).Of(wrs[i].id);
    TallySnoc(upto, wrs[i], k);
    assert Delivered(polls, used) + wrs == (upto + [wrs[i]]) + wrs[i + 1..];
    TallyAppend(upto + [wrs[i]], wrs[i + 1..], k);
  }

  lemma UnexpectedNeverExact(polls: seq<Poll>, ids: seq<nat>, used: nat, i: nat, first: Wanted, want: Wanted)
    requires used < |polls| && polls[used].Batch? && i < |polls[used].wrs|
    requires Meets(Delivered(polls, used), first, ByIds(ids)) && first != map[]
    requires Meets(Delivered(polls, used) + polls[used].wrs[..i], want, ByIds(ids))
    requires polls[used].wrs[i].id !in want
    ensures forall k: nat :: !Exact(polls, ids, k)
  {
    hide Tally, Expected;
    Overdelivered(polls, ids, used, i, want);
    var id, other :| id == polls[used].wrs[i].id && other in first;
    assert Tally(Delivered(polls, used), OfId(other)) + Need(first, other) == ByIds(ids).Of(other);
    forall k: nat | k <= |polls| && AllBatches(polls, k)
      ensures !Exact(polls, ids, k)
    {
      if k <= used {
        DeliveredGrows(polls, k, used, OfId(other));
      } else {
        DeliveredGrows(polls, used + 1, k, OfId(id));
      }
    }
  }
}
