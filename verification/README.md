# jaccl, verified

A Dafny model of the protocols and bookkeeping of jaccl: collectives over a graph of ranks, the
daemon's transport with its maintenance windows, and the slab of memory that clients, sessions and
collectives lease from. Nothing here is executable against hardware; it states what the code
promises and proves it for every input, every interleaving and every reachable state.

## How it is organised

| files | what they model |
|---|---|
| `RankGraph`, `Topology` | walks and distance in a rank graph; the validators and `Choose`, with their loops and breadth-first search |
| `Lockstep` | any protocol in which each rank repeats "post a snapshot to every neighbour, then take one payload from each", as a step system with one FIFO per directed link |
| `GraphGather`, `Collectives`, `Reduce`, `ReduceMeaning` | the flooding gather and the chunked mesh exchange as such protocols, over whatever links were opened; the reduction kernels in place on bytes, and what they compute in plain numbers |
| `Admission`, `SideChannel`, `Maintenance`, `MaintenanceWindows`, `Poison`, `Completions` | the admission gate, the star-shaped gather and barrier, the maintenance window over all ranks with its isolation and its progress, fail-closed poisoning, and completion demultiplexing |
| `SlabSpec`, `SlabAllocator` | the allocator as functions on its state with a byte-level meaning, and the in-place class proved equal to them |
| `Ranges`, `SlabCollectives` | request checks in wrapping 64-bit arithmetic; one rank's slab reduce with its scratch lease, in place |
| `MeshMemory`, `CollectiveRuns` | local copy, zero-copy exchange and fold as steps over every rank's memory; the slab gather and reduce as runs of it, with the layout computed from the accepted requests and the allocator |
| `PoolSpec`, `HandlePools`, `StoreSpec`, `StoreAnswers`, `SessionStore`, `StoreRuns` | handle pools and session store: state functions, what they answer, the in-place classes, every run |
| `Server`, `ServerRuns`, `ServerRequests` | the control server as a step system over connections, who owns which lease, and what a request reaches |
| `Framing`, `StreamSpec`, `Streams` | stream frames over a FIFO of link messages: codec, every run of writer and reader, the in-place classes |
| `Bytes`, `Chunks`, `Grid`, `Stages`, `Options`, `Text` | shared vocabulary |

A run is a sequence of states in which each follows from the one before by one enabled action of one
participant. Statements about runs hold at every index of every run.

Where the source updates things in place, the model is a class or a method on an array, and its
contract ties the new state to a function of the old one; the theorems are about that function.

## Hypotheses

- Links are reliable and FIFO, and receives match sends in order, without tags. A send completes once its
  bytes have been read out of the sender's memory; that says nothing of their arrival, which is a later step.
- All ranks call the same collectives in the same order with equal lengths.
- The code opens a link from device 0 of an entry only, while the validators accept any usable device, so an
  accepted matrix may open fewer links than it lists. No result on the direct paths assumes them open. The conditions are exact:
  `GraphGather.GatherReturnsReachable` and `GraphGather.GatherReturnsAll` for the gather,
  `Collectives.MeshReduceRight`, `Collectives.MeshGatherRight` and `Collectives.MeshRightIffOpened` for the
  mesh. `Collectives.SuccessfulWrongReduce` is an accepted matrix on which the reduce reports success with
  the caller's own value. A link opened on one side only stops its owner for good
  (`Lockstep.OneSidedNeverFinishes`). The daemon opens a connection to every peer and refuses an exchange
  otherwise, so its mesh is full.
- Maintenance isolation needs that users neither call Barrier nor Send directly while windows run;
  `Maintenance.IsolationCondition` proves this necessary and sufficient, with direct Recv allowed or not. Runs
  there are free of errors; failing runs are the subject of `Poison`, without the experimental heartbeat.
- A reader refuses frames for their length, losing the header, exactly when its limit is below the writer's
  chunk (`StreamSpec.LimitCondition`); the other stream results are for limits that admit the chunk.
- Store and server runs use contexts that are not cancelled. What cancellation leaks is stated exactly by
  `StoreSpec.FailedOpenRestores` and `StoreSpec.CloseBalances`, and `StoreRuns.OpenCanLeak` and
  `StoreRuns.CloseCanLeak` exhibit it.
- The clock is monotone. The store reads it before it takes its mutex; `StoreRuns.RefreshRevives` says
  exactly when that lets a refresh revive an expired session, `StoreRuns.StaleRefreshRevives` is such a run,
  and `StoreRuns.ExpiredStaysDead` holds for refreshes that act on a current reading.
- Lease, session and work counters do not wrap. Elements are little-endian. JSON and decimal identifiers
  are codecs that round-trip.
- The mutexes of the direct mesh exchange are not modelled: its deferred unlock captures an empty slice.
  Lock reasoning, in `Poison`, follows the daemon.

## Model

| member | source | states |
|---|---|---|
| RankGraph.WithinIsDistance | internal/topology/topology.go:156-194 | being within t of a rank, grown one link at a time, is having a walk of at most t links |
| RankGraph.WithinOutward | internal/topology/topology.go:174-187 | a ball grown one link at its near end is equally grown one link at its far end |
| RankGraph.ReachableIsWithin | backend.go:346-370 | in a graph of n ranks, whatever a rank can reach at all it reaches within n-1 links, so n-1 steps of flooding suffice |
| Text.SpacesAreWhiteSpace | internal/topology/topology.go:227 | what is trimmed are the 25 code points with Unicode's White_Space property |
| Text.BlankIsTrimmed | internal/topology/topology.go:227 | a name is blank exactly when trimming both its ends leaves nothing |
| Topology.HasPathMeansNonBlank | internal/topology/topology.go:220-232 | an entry has a path exactly when some listed name is not blank |
| Topology.UsableCounts | internal/topology/topology.go:224-232 | the usable wires of an entry are the number of positions whose name is not blank |
| Topology.UsablePathCount | internal/topology/topology.go:224-232 | the loop counts exactly the positions whose name is not blank |
| Topology.ValidateDeviceMatrix | internal/topology/topology.go:35-51 | accepts exactly the non-empty square matrices without nil entries, and otherwise names the first bad row or entry |
| Topology.ValidateMesh | internal/topology/topology.go:54-76 | accepts exactly the well-formed matrices of at least two ranks in which every two distinct ranks have a path; a refusal names the first pair without a path, or with one only one way |
| Topology.ValidateRing | internal/topology/topology.go:80-114 | accepts exactly the well-formed matrices whose links are those between wrap-around neighbours, all with the same positive number of usable wires; a refusal names the first offending entry and whether it is adjacent |
| Topology.ValidateLine | internal/topology/topology.go:117-152 | accepts exactly the well-formed matrices whose links are those between consecutive ranks, all with the same positive number of usable wires; a refusal names the first offending entry and what is wrong with it |
| Topology.RingMeans | internal/topology/topology.go:80-114 | a ring is a matrix with, for some positive w, w named wires between any two ranks at distance 1 or n-1 and none between others |
| Topology.LineMeans | internal/topology/topology.go:117-152 | a line is a matrix with, for some positive w, w named wires between consecutive ranks and none between others |
| Topology.Flood | internal/topology/topology.go:174-187 | the breadth-first search ends and has marked exactly the ranks reachable from rank 0 |
| Topology.FindOneWay | internal/topology/topology.go:164-172 | finds the first pair of ranks with a path only one way, or none exactly when paths go both ways everywhere |
| Topology.ValidateConnected | internal/topology/topology.go:156-194 | accepts exactly the symmetric matrices of at least two ranks in which every rank is reachable; a refusal names the first one-way pair or the first unreachable rank |
| Topology.MeshIsConnected | internal/topology/topology.go:197-218 | every accepted mesh is an accepted connected graph |
| Topology.RingIsConnected | internal/topology/topology.go:197-218 | every accepted ring is an accepted connected graph |
| Topology.LineIsConnected | internal/topology/topology.go:197-218 | every accepted line is an accepted connected graph |
| Topology.Choose | internal/topology/topology.go:197-218 | succeeds exactly on symmetric connected matrices of at least two ranks, and returns each shape exactly when it fits and no preferred one does |
| Topology.AcceptedWithoutLinks | backend.go:193-198 | a matrix that Choose accepts although no link would be opened |
| Lockstep.RunMatchesSync | backend.go:346-370 | at the start of step t in any asynchronous run, a rank holds exactly the state of the synchronous execution after t rounds |
| Lockstep.TakesSameStep | backend.go:346-370 | the payload consumed in step t from a neighbour is that neighbour's step-t snapshot |
| Lockstep.StepsStayClose | backend.go:346-370 | neighbours differ by at most one step and no link holds more than two unconsumed payloads |
| Lockstep.SomeRankCanAct | backend.go:346-370 | no deadlock where links go both ways: until all ranks have finished some rank can act |
| Lockstep.OneSidedNeverFinishes | backend.go:346-370 | a rank with a neighbour that has no link back never gets past its first step, in any run |
| Lockstep.RunsAreFinite | backend.go:346-370 | runs have a bounded length, so with the previous row every maximal run finishes everywhere |
| GraphGather.EncodePayload | backend.go:434-443 | over any old buffer contents, writes the flags and the fitted value of each known rank at n + rank*elemLen, and zeros elsewhere |
| GraphGather.MergePayload | backend.go:445-458 | refuses exactly payloads of another length, changing nothing; otherwise adds the values of newly flagged ranks and keeps known ones |
| GraphGather.PayloadBlock | backend.go:434-443 | block i of an encoded payload is the sender's value for rank i |
| GraphGather.MergeAddsKnowledge | backend.go:434-458 | encode then merge: the receiver then knows exactly the union, each rank with its origin's own bytes |
| GraphGather.GraphNeighbours | backend.go:424-432 | the peers with a connection, in rank order |
| GraphGather.GatherWellFormed | backend.go:322-370 | the gather is a lockstep protocol on any graph, and on a symmetric one whoever is posted to also posts |
| GraphGather.KnownAfterAll | backend.go:346-370 | hearing the radius-t balls of all neighbours gives exactly the ball of radius t+1 |
| GraphGather.GatherKnowsBall | backend.go:346-370 | in every run a rank that starts step t knows exactly the ranks within distance t, with their own bytes |
| GraphGather.GatherNeverRefuses | backend.go:445-458 | no payload is ever refused, in any phase of any run |
| GraphGather.CheckComplete | backend.go:371-376 | the final scan reports the first missing rank, or none exactly when all are known |
| GraphGather.FinishedKnowsReachable | backend.go:346-376 | in every run a rank that finishes knows exactly the ranks it reaches over the opened links, each with its origin's own bytes |
| GraphGather.GatherReturnsReachable | backend.go:322-377 | a finished rank returns the full vector of inputs if and only if it reaches every rank over the opened links, and otherwise the error for the first rank it does not reach |
| GraphGather.GatherReturnsAll | backend.go:322-377 | on every matrix Choose accepts, a finished rank returns all inputs if and only if the payload fits the staging buffer and it reaches every rank over the links that first devices open; if first devices decide every edge, it does |
| Chunks.ChunkCount | backend.go:392-420 | the number of chunk turns covers the buffer and every turn before the last is full |
| Collectives.MeshWellFormed | backend.go:379-422 | the chunked exchange, skipping peers without a connection, is a lockstep protocol on any links |
| Collectives.MeshDelivers | backend.go:379-422 | in every run a rank that has finished holds the whole buffer of every linked peer and nil for the others |
| Collectives.ReduceInto | backend.go:250-271 | succeeds, and the destination ends as the fold, from this rank's own value, of the buffers that are not nil |
| Collectives.ReduceIntoUnsupported | backend.go:250-271 | an unsupported dtype is refused at the first peer and leaves a copy of the source |
| Collectives.GatherInto | backend.go:273-292 | the destination ends as one block per rank in rank order; the block of a nil buffer keeps what it held |
| Collectives.MeshReduceRight | backend.go:250-271 | rank r's mesh reduce is the reference for all inputs if and only if r is linked to every other rank |
| Collectives.MeshGatherRight | backend.go:273-292 | rank r's mesh gather is every rank's buffer, for all inputs and any old destination, if and only if r is linked to every other rank |
| Collectives.MissingLinkShows | backend.go:394-397 | for every operation, dtype and missing link there are inputs on which the mesh reduce is not the reference |
| Collectives.MeshRightIffOpened | backend.go:193-198 | all ranks' mesh reduces are the reference for all inputs if and only if every off-diagonal entry's first device is named |
| Collectives.SuccessfulWrongReduce | backend.go:250-271 | an accepted mesh matrix, inputs and a finished run after which rank 0 returns its own value without an error, which is not the reference |
| Collectives.MeshAndGraphAgree | backend.go:250-309 | whatever run of the mesh a fully linked rank finished and whatever run of the graph gather a rank that reaches all finished, both results are the one reference reduction |
| Reduce.Apply | internal/reduce/reduce.go:31-79 | refuses a length that is no whole number of elements, then a short destination, then an unsupported type, each exactly then and without a change; otherwise combines element by element in place |
| Reduce.ApplyElements | internal/reduce/reduce.go:81-109 | the in-place loop equals the element-wise kernel |
| Reduce.KernelElement | internal/reduce/reduce.go:81-109 | element j of the result depends on the elements j of the operands only |
| Reduce.CombineCommutes | internal/reduce/reduce.go:81-109 | combining is commutative on every integer and bool dtype |
| Reduce.CombineAssociates | internal/reduce/reduce.go:81-109 | combining is associative, wrapping sums included |
| Reduce.AllRanksAgree | backend.go:250-271 | every rank gets the reference although each starts from its own value |
| Reduce.ReferenceElement | backend.go:250-271 | element j of the reference is the fold of the ranks' elements j |
| Reduce.SumMeans | internal/reduce/reduce.go:81-97 | the sum is the sum of the ranks' unsigned values modulo 2^(8*size) |
| Reduce.SumDenotes | internal/reduce/reduce.go:81-97 | read as the dtype's own number, signed or not, the sum is in the dtype's range and congruent to the mathematical sum of the ranks' numbers modulo 2^(8*size) |
| Reduce.ResidueIsMod | internal/reduce/reduce.go:81-97 | the wrap by repeated subtraction is the mathematical remainder |
| Reduce.ExtremeMeans | internal/reduce/reduce.go:81-97 | the maximum is one of the ranks' elements and none is above it; the minimum likewise |
| Reduce.BoolMeans | internal/reduce/reduce.go:99-109 | sum and max are "some rank is true", min is "every rank is true", and results are 0 or 1 |
| ReduceMeaning.ElementWidths | internal/reduce/dtype.go:93-106 | the width in bytes of every dtype |
| ReduceMeaning.SupportedTypes | internal/reduce/reduce.go:43-78 | bool and the eight integer types have a kernel, half-precision floats have none |
| ReduceMeaning.ElementRanges | internal/reduce/reduce.go:46-61 | the numbers each of the eight integer dtypes can denote, as literal bounds |
| ReduceMeaning.LittleEndian | internal/reduce/reduce.go:134-141 | the number one, two or four bytes denote, least significant first |
| ReduceMeaning.LittleEndianWide | internal/reduce/reduce.go:134-141 | the number eight bytes denote, least significant first |
| ReduceMeaning.TwosComplement | internal/reduce/reduce.go:46-53 | a signed element is its unsigned value less 2^(8*size) exactly when its top bit is set |
| ReduceMeaning.ElementsAreLocal | internal/reduce/reduce.go:81-97 | the bytes w*j to w*j+w of a result depend on those bytes of the operands only, w being the dtype's width |
| ReduceMeaning.KernelMeans | internal/reduce/reduce.go:81-109 | each element of one application is the wrapped sum, the maximum or the minimum of the two numbers, or their or or and |
| ReduceMeaning.ReferenceMeans | backend.go:250-271 | each element of the reference is the wrapped sum (0), the maximum (1) or the minimum (2) of the ranks' numbers, or their or or and |
| Admission.AdmissionGate.TryEnter | cmd/jaccld/admission.go:28-46 | admits and counts exactly when no maintenance is pending, otherwise waits on the current channel |
| Admission.AdmissionGate.TryBegin | cmd/jaccld/admission.go:57-64 | takes the maintenance flag and signals exactly when it is free, and then drains or holds |
| Admission.AdmissionGate.Recheck | cmd/jaccld/admission.go:64-77 | the window opens exactly when nothing is in flight |
| Admission.AdmissionGate.Reopen | cmd/jaccld/admission.go:80-89 | clears the flag and signals |
| Admission.AdmissionGate.Leave | cmd/jaccld/admission.go:91-101 | lowers the count and signals at zero; fails exactly where the source panics |
| Admission.AdmissionGate.SignalLocked | cmd/jaccld/admission.go:103-106 | replaces the channel by a fresh one, waking all waiters of the old |
| Admission.WindowExcludesData | cmd/jaccld/admission.go:21-106 | in every interleaving, while a window is held nothing is in flight, nobody is admitted and no other window is open |
| Admission.CountIsAdmissions | cmd/jaccld/admission.go:21-106 | the count is always the number of unreleased admissions, so the panic is unreachable |
| Admission.BlockedForReason | cmd/jaccld/admission.go:21-106 | no lost wakeup: a waiter whose channel is still open is blocked for a reason that holds now |
| Admission.EnterAnswers | cmd/jaccld/admission.go:28-46 | a pass of enter admits exactly when no window is pending or held |
| Admission.BeginAnswers | cmd/jaccld/admission.go:57-64 | asking for a free window gets it, at once exactly if nothing is in flight; a taken one turns the asker away unchanged |
| Admission.WakesOnSignal | cmd/jaccld/admission.go:39-45 | whoever waits goes on exactly when the channel it waits on has been closed |
| Admission.DoneAnswers | cmd/jaccld/admission.go:91-101 | a done function counts down once and signals exactly at zero; a second call does nothing, and without an admission it panics |
| Admission.IdleAgain | cmd/jaccld/admission.go:39-45 | giving up a wait leaves the gate as it was |
| Admission.DrainAnswers | cmd/jaccld/admission.go:64-77 | a woken drain holds the window exactly when nothing is in flight |
| Admission.EndReopens | cmd/jaccld/admission.go:80-89 | giving up a window, held or draining, opens the gate |
| Admission.DrainCanFinish | cmd/jaccld/admission.go:57-106 | in every run, once nothing is in flight the drain can go on and then holds the window |
| Admission.WaiterCanEnter | cmd/jaccld/admission.go:28-106 | in every run, whoever waits at an open gate can go on and is admitted |
| SideChannel.GatherReturnsRound | internal/tcpchan/tcpchan.go:174-217 | over any number of calls, every rank's k-th call returns the vector of all ranks' k-th arguments |
| SideChannel.BarrierHolds | internal/tcpchan/tcpchan.go:220-223 | no rank returns from its k-th call before every rank has started its k-th call |
| SideChannel.GatherProgresses | internal/tcpchan/tcpchan.go:174-217 | once every rank is in its k-th call, somebody can move until all have returned |
| Maintenance.WorkingSealsAll | cmd/jaccld/transport.go:797-828 | when some rank works in a window, every rank is sealed in the same round |
| Maintenance.MaintenanceIsQuiescent | cmd/jaccld/transport.go:797-883 | while any rank posts or polls maintenance work, every rank has admission closed and no data operation in flight |
| Maintenance.PairsAreSameBlock | cmd/jaccld/transport.go:530-585 | on a link without direct receives so far, the k-th send and k-th receive belong to the same block: the same collective and chunk, or the same window |
| Maintenance.StrictIsIsolated | cmd/jaccld/transport.go:797-883 | in every run without user Barriers and direct Sends, direct Recvs or not, maintenance is quiescent and FIFO matching never pairs a user post with a maintenance one |
| Maintenance.UserBarrierBreaksIsolation | cmd/jaccld/transport.go:321-331 | a run in which user Barriers let a rank into its window while other gates are open |
| Maintenance.DirectSendBreaksIsolation | cmd/jaccld/transport.go:333-370 | a run in which a completed point-to-point Send is later matched with a maintenance receive |
| Maintenance.IsolationCondition | cmd/jaccld/transport.go:797-883 | with two or more ranks, every run is isolated if and only if users neither Barrier nor Send directly, whether or not they Recv directly |
| MaintenanceWindows.InFlightIsAdmissions | cmd/jaccld/transport.go:797-828 | only an admission adds to a rank's operations in flight, and only a departure takes from them |
| MaintenanceWindows.ClosedUntilRoundEnds | cmd/jaccld/transport.go:797-828 | in every run, from closing its gate until it completes a further round a rank's gate stays closed and nothing is added in flight |
| MaintenanceWindows.CompletedRoundReopens | cmd/jaccld/transport.go:801-805 | in every run, when a rank completes a round its gate is open again, nothing is in flight and it can admit |
| MaintenanceWindows.RoundNeverStuck | cmd/jaccld/transport.go:797-883 | in every run, once every gate is closed and drained some rank can always act: barriers, posts and polls of a round never deadlock |
| MaintenanceWindows.CollectiveGoesOn | cmd/jaccld/transport.go:552-585 | a polled block is followed by the next chunk if there is one, and otherwise the operation ends |
| MaintenanceWindows.UserBarrierGoesOn | cmd/jaccld/transport.go:321-331 | a user's barrier enters at an open gate, one at a time, and returns exactly when every rank has called |
| MaintenanceWindows.DirectRecvGoesOn | cmd/jaccld/transport.go:371-409 | a Recv posts on the link it names and returns exactly when a message for it is there |
| Poison.NoneOrAll | cmd/jaccld/transport.go:885-896 | the poisoned connections of a rank are none or all, except while one Maintain is marking them under every lock |
| Poison.FailedMaintainPoisonsAll | cmd/jaccld/transport.go:797-896 | a Maintain that returns an error after its pre-barrier leaves every connection poisoned |
| Poison.MaintainOutcome | cmd/jaccld/transport.go:813-896 | in every interleaving a Maintain fails if and only if a barrier, pending check or provider call answered it with an error or a connection was poisoned already; failing past the pre-barrier poisons every connection, and otherwise it sets no mark |
| Poison.DirectPostsUnlessPoisoned | cmd/jaccld/transport.go:333-409 | a Send or Recv that holds its connection posts exactly if the connection is not poisoned, and otherwise unlocks and returns |
| Poison.MeshPostsUnlessPoisoned | cmd/jaccld/transport.go:538-550 | an exchange that holds every lock posts exactly if no connection is poisoned |
| Poison.CleanCallsGetThrough | cmd/jaccld/transport.go:797-883 | with good answers and clean connections every kind of call gets through, in a stated number of steps |
| Poison.PoisonStays | cmd/jaccld/transport.go:1098-1115 | marks never clear |
| Poison.NeverPostsPoisoned | cmd/jaccld/transport.go:333-409 | no post in any run was made on a connection poisoned at that time |
| Poison.PoisonedRankIsSilent | cmd/jaccld/transport.go:543-550 | once every connection is poisoned nothing is ever posted again |
| Completions.TallyIsMultiset | cmd/jaccld/transport.go:946-985 | the counts used in the contracts are multiset multiplicities |
| Completions.ExpectedIsMultiset | cmd/jaccld/transport.go:946-985 | the wanted counts are the multiset of the expected ids |
| Completions.Connection.TakePending | cmd/jaccld/transport.go:1008-1019 | removes the first pending completion of an id, keeping the others in order, or reports that there is none |
| Completions.Connection.PollExpected | cmd/jaccld/transport.go:946-985 | on success new pending is old pending plus everything polled minus exactly the expected ids; on error only part of the expected ids was consumed |
| Completions.PollMaintenanceExpected | cmd/jaccld/transport.go:923-944 | succeeds exactly when what is polled, up to the last batch needed, is the expected multiset, no more and no less |
| SlabSpec.FreeListIsCanonical | internal/allocator/slab.go:230-255 | in every valid state the free list is the list of maximal unleased gaps, a function of the leases alone |
| SlabSpec.FreeListForgetsHistory | internal/allocator/slab.go:230-255 | the same live leases mean the same free list, whatever happened before |
| SlabSpec.MergeNormal | internal/allocator/slab.go:241-255 | merging a sorted list leaves no two touching spans |
| SlabSpec.MergeCover | internal/allocator/slab.go:241-255 | merging keeps exactly the same bytes |
| SlabSpec.AllocIsLowestFit | internal/allocator/slab.go:96-124 | Alloc(n) succeeds exactly when some n consecutive bytes are unleased, and returns the lowest such offset |
| SlabSpec.AllocAnswers | internal/allocator/slab.go:96-124 | what is answered is what is recorded, under an unused id; which refusal is given exactly when, and that it changes nothing |
| SlabSpec.FreeAnswers | internal/allocator/slab.go:127-140 | ends exactly the lease it names; which refusal is given exactly when, and that it changes nothing |
| SlabSpec.AllocKeepsValid | internal/allocator/slab.go:96-124 | leases and free spans still partition the slab |
| SlabSpec.FreeKeepsValid | internal/allocator/slab.go:127-140 | leases and free spans still partition the slab |
| SlabSpec.AllocThenFreeRestores | internal/allocator/slab.go:96-140 | freeing what was just allocated restores leases and free list exactly |
| SlabSpec.EveryRunCanonical | internal/allocator/slab.go:96-140 | every sequence of calls on a new slab ends in a partition with the canonical free list |
| SlabSpec.FreeAllRestores | internal/allocator/slab.go:127-140 | freeing all leases in any order restores the single span |
| SlabAllocator.CoalesceInPlace | internal/allocator/slab.go:241-255 | the merge that overwrites the slice it is reading equals the pure merge |
| SlabAllocator.InsertAt | internal/allocator/slab.go:230-239 | shifting the tail and storing is sequence insertion |
| SlabAllocator.RemoveAt | internal/allocator/slab.go:115-118 | closing the hole in place is sequence removal |
| SlabAllocator.FindFit | internal/allocator/slab.go:105-108 | the first span large enough, or the end |
| SlabAllocator.Allocator.constructor | internal/allocator/slab.go:54-94 | one free span of the whole slab |
| SlabAllocator.Allocator.Alloc | internal/allocator/slab.go:96-124 | the whole new state and result equal the specification's, error cases included |
| SlabAllocator.Allocator.Free | internal/allocator/slab.go:127-140 | the whole new state and result equal the specification's, error cases included |
| SlabAllocator.Allocator.InsertFree | internal/allocator/slab.go:230-239 | the free list becomes the merged insertion, growing its array when full |
| SlabAllocator.Allocator.Stats | internal/allocator/slab.go:177-192 | used is the sum of the live leases, and used plus free is the size |
| Ranges.CheckRangeExact | internal/ipc/server.go:377-394 | in wrapping 64-bit arithmetic the check accepts the ranges inside the lease and no others |
| Ranges.AsyncRangeExact | internal/ipc/server.go:396-427 | in plain arithmetic, accepts exactly a positive source that fits the destination, both inside their leases, and within one lease identical or disjoint |
| Ranges.OwnedFits | internal/ipc/server.go:377-394 | the leases of a connection fit 64 bits, so that exactness applies to every request |
| Ranges.AcceptedRequest | internal/ipc/server.go:396-427 | an accepted request has both ranges inside the slab, and they are identical or disjoint |
| Ranges.RangeInMRExact | cmd/jaccld/transport.go:610-623 | accepts exactly the ranges inside the registered memory |
| Ranges.ProductGuardExact | cmd/jaccld/transport.go:453-455 | the guard refuses precisely the products that do not fit 64 bits |
| Ranges.GatherChecksExact | cmd/jaccld/transport.go:487-516 | in plain arithmetic, a gather is accepted exactly for whole elements, a destination with room for one block per rank, and both ranges inside the registered memory |
| Ranges.GatherWindowsFit | cmd/jaccld/transport.go:487-585 | for an accepted gather on several ranks, source and destination are apart and every receive window computed in 64 bits stays inside its peer's block |
| MeshMemory.ExchangeDelivers | cmd/jaccld/transport.go:530-585 | in every run over all ranks' memory, when rank r's exchange returns its block for q holds q's original source, although faster ranks may have overwritten theirs |
| MeshMemory.SourceIntact | cmd/jaccld/transport.go:530-585 | until its exchange returns a rank's source reads as it did before anyone started, in place or not |
| MeshMemory.CopyStays | cmd/jaccld/transport.go:487-528 | the local copy, made at any time of the run, stays in the destination |
| MeshMemory.RunTouchesOnly | cmd/jaccld/transport.go:530-585 | at every moment, bytes outside a rank's destination and receive blocks are as they were |
| MeshMemory.WindowsAlwaysFit | cmd/jaccld/transport.go:552-565 | every chunk on the wire has the length of the window posted for it, and the window is inside its block |
| MeshMemory.PostsComeFirst | cmd/jaccld/transport.go:552-576 | in every run, no chunk leaves before its send is posted and none is written before its receive is |
| MeshMemory.FinishedSourceIsFree | cmd/jaccld/transport.go:530-585 | once a rank's exchange has returned, all its chunks have been read out and all chunks for it written, and no queue pair reads its source or writes its blocks again; its own chunks may still be on the wire |
| MeshMemory.SomeStepEnabled | cmd/jaccld/transport.go:530-585 | no deadlock: while some rank has not finished, some rank or queue pair can act |
| MeshMemory.FoldsToReference | cmd/jaccld/transport.go:466-482 | a rank that has folded every block holds the reference reduction of all original sources, whatever the slower ranks are doing |
| CollectiveRuns.GatherPlanIsClean | internal/ipc/server.go:396-427 | gather requests accepted on every rank give a layout that fits each memory, with sources apart from all that is received |
| CollectiveRuns.GatherAssembles | cmd/jaccld/transport.go:487-528 | in every run, block p of a finished rank's destination is rank p's source as it was before anyone started, its own included |
| CollectiveRuns.GatherTouchesDestinationOnly | cmd/jaccld/transport.go:487-585 | at every moment of every run, bytes outside the destination are as they were |
| CollectiveRuns.AcceptedIsAdmitted | internal/ipc/server.go:377-427 | what the server's 64-bit check accepts on a connection's leases lies inside live leases of the slab, identical or disjoint |
| CollectiveRuns.ReducePlanIsClean | cmd/jaccld/transport.go:453-470 | reduce requests and the scratch leases the allocator returns give a clean layout on every rank, source equal to destination allowed |
| CollectiveRuns.ReduceReachesReference | cmd/jaccld/transport.go:429-485 | in every run, in place or not, a rank that has folded all peers holds the reference reduction of all ranks' sources as they were before anyone started |
| CollectiveRuns.ReduceComputes | cmd/jaccld/transport.go:429-485 | the same in plain numbers: each element of the destination is the wrapped sum (0), maximum (1) or minimum (2) of all ranks' original elements |
| CollectiveRuns.ReduceKeepsLeases | cmd/jaccld/transport.go:429-485 | at every moment of every run, every byte of a live lease outside the destination is as it was |
| CollectiveRuns.ExchangeFillsScratch | cmd/jaccld/transport.go:468-470 | in every run, when a rank's exchange returns its scratch lease holds all its peers' original sources: the outcome MeshReduce is given |
| CollectiveRuns.ReducedIsReference | cmd/jaccld/transport.go:471-482 | with that outcome a successful MeshReduce leaves the same reference reduction in the destination |
| SlabCollectives.FoldScratch | cmd/jaccld/transport.go:471-482 | the loop over scratch blocks folds every peer into the destination and changes nothing else, or stops at the first peer on a bad operation or dtype |
| SlabCollectives.OperationNumbers | cmd/jaccld/transport.go:1129-1140 | operation 0 is the sum, 1 the maximum, 2 the minimum, and any other number is refused |
| SlabCollectives.MeshReduce | cmd/jaccld/transport.go:429-485 | one rank's sequential reduce: succeeds exactly when stated, leaves each element of the destination the wrapped sum (0), maximum (1) or minimum (2) of its source's and the received numbers, changes no byte of a live lease outside it, and restores leases and free list on every path |
| SlabCollectives.DaemonRanksAgree | cmd/jaccld/transport.go:471-482 | a destination folded over all ranks' buffers is the one reference reduction, whichever rank folded it |
| PoolSpec.AcquireKeeps | internal/jaccld/resource/handle.go:38-51 | every handle stays either available once or in use |
| PoolSpec.ReleaseKeeps | internal/jaccld/resource/handle.go:54-66 | every handle stays either available once or in use |
| PoolSpec.AcquireThenRelease | internal/jaccld/resource/handle.go:38-66 | releasing what was just acquired restores the pool exactly, stack order included |
| PoolSpec.PoolConserves | internal/jaccld/resource/handle.go:69-73 | in use plus available is the number of handles the pool was made with |
| StoreAnswers.PoolAnswers | internal/jaccld/resource/handle.go:38-66 | a pool hands out from the end of its list and takes back at the end; which refusal is given exactly when, and that it changes nothing |
| HandlePools.NewPool | internal/jaccld/resource/handle.go:17-35 | succeeds exactly on a non-empty list of distinct non-empty handles, all available |
| HandlePools.HandlePool.Acquire | internal/jaccld/resource/handle.go:104-117 | the new pool and result equal the specification's: refused when cancelled or exhausted, otherwise the last handle |
| HandlePools.HandlePool.Release | internal/jaccld/resource/handle.go:120-132 | the new pool and result equal the specification's: refused when cancelled or not in use |
| HandlePools.HandlePool.Stats | internal/jaccld/resource/handle.go:135-139 | the two counts add up to the handles the pool was made with |
| StoreSpec.OpenSucceeds | internal/jaccld/resource/store.go:80-126 | Open succeeds exactly for a valid request on a ready store with room, a free handle in both pools and a context that lasts three checks |
| StoreSpec.OpenedBooks | internal/jaccld/resource/store.go:110-126 | a granted session keeps the accounts and takes nothing from anyone else |
| StoreAnswers.OpenGrants | internal/jaccld/resource/store.go:110-126 | a granted session carries the request's client, peer, heartbeat region, size and deadline and the current time, a new id, and a window and handles that were free; nothing else changes |
| StoreAnswers.OpenRefusals | internal/jaccld/resource/store.go:80-97 | which refusal a request meets before it holds a window, exactly when |
| StoreAnswers.PoolRefusals | internal/jaccld/resource/store.go:98-109 | which refusal it meets once it holds a window, exactly when |
| StoreAnswers.OpenLeavesBehind | internal/jaccld/resource/store.go:98-109 | what a refused request that held a window leaves leased, each cleanup failing exactly at its own check of the context |
| StoreSpec.FailedOpenRestores | internal/jaccld/resource/store.go:93-109 | a failed Open restores all three pools if and only if its context outlasts the last cleanup check |
| StoreSpec.ClosedBooks | internal/jaccld/resource/store.go:254-266 | a close under a lasting context returns nil and gives back exactly the session's window and handles |
| StoreSpec.CloseBalances | internal/jaccld/resource/store.go:254-309 | a close gives everything back if and only if its context lasts three checks |
| StoreAnswers.CloseReports | internal/jaccld/resource/store.go:254-309 | a close reports no error exactly when the session existed and its context lasted; which errors otherwise |
| StoreSpec.AllClosed | internal/jaccld/resource/store.go:269-287 | closing several sessions in any order removes exactly those and keeps the accounts |
| StoreAnswers.ReapEndsExpired | internal/jaccld/resource/store.go:269-287 | reaping ends exactly the sessions whose deadline has passed and keeps the accounts |
| StoreAnswers.ReapUnderContext | internal/jaccld/resource/store.go:269-287 | a context that lasts 3k checks lets the first k sessions go back to the pools and leaks the rest |
| SessionStore.ValidateRequest | internal/jaccld/resource/store.go:311-336 | the checks in order accept exactly the valid requests, and a deadline in the past is told apart from the rest |
| SessionStore.Sessions.Open | internal/jaccld/resource/store.go:80-126 | the whole store afterwards and the answer equal the specification's, for every point at which the context may end |
| SessionStore.Sessions.GiveBack | internal/jaccld/resource/store.go:303-309 | all three releases are tried whatever the others return, and their errors joined |
| SessionStore.Sessions.Close | internal/jaccld/resource/store.go:254-266 | the whole store afterwards and the errors equal the specification's |
| SessionStore.Sessions.ReapExpired | internal/jaccld/resource/store.go:269-287 | closes exactly the expired sessions, each once, in some order, and counts them |
| StoreAnswers.RefreshAnswers | internal/jaccld/resource/store.go:129-157 | granted exactly for a live session and a later deadline; then the deadline moves, the session is marked active and nothing else changes; which refusal otherwise |
| SessionStore.Sessions.Refresh | internal/jaccld/resource/store.go:129-157 | the whole store afterwards and the answer equal the specification's |
| StoreAnswers.TouchAnswers | internal/jaccld/resource/store.go:160-181 | granted exactly for a live session, which is marked active with its deadline unchanged; which refusal otherwise |
| SessionStore.Sessions.Touch | internal/jaccld/resource/store.go:160-181 | the whole store afterwards and the answer equal the specification's |
| StoreAnswers.PulseMarks | internal/jaccld/resource/store.go:187-202 | a live session is marked active with its deadline unchanged, an expired one is left alone |
| SessionStore.Sessions.PulseControlPlane | internal/jaccld/resource/store.go:187-202 | marks exactly the live sessions, extends no deadline, and counts them |
| StoreAnswers.StateMoves | internal/jaccld/resource/store.go:56-70 | accepts exactly the states from the current one up to 4, and changes nothing but the state |
| SessionStore.Sessions.SetState | internal/jaccld/resource/store.go:56-70 | the whole store afterwards and the answer equal the specification's |
| StoreRuns.OpenCanLeak | internal/jaccld/resource/store.go:93-109 | a new store and a context that ends after one check: Open is refused and its window stays leased |
| StoreRuns.CloseCanLeak | internal/jaccld/resource/store.go:254-309 | a store one Open away from new and a cancelled context: Close drops the session and keeps all it held |
| StoreRuns.RunBooks | internal/jaccld/resource/store.go:80-309 | in every run, with other slab users in between, accounts and pools agree |
| StoreRuns.StoreConserves | internal/jaccld/resource/store.go:80-309 | in every run the handles in use are exactly the distinct handles of the sessions, in use plus available is constant, and windows are pairwise disjoint |
| StoreRuns.StepsTakeEffect | internal/jaccld/resource/store.go:129-287 | what each step of a run does to sessions, deadlines, state and other users' leases |
| StoreRuns.IdsAreNeverReused | internal/jaccld/resource/store.go:110-126 | a session id that was closed or reaped never names a session again |
| StoreRuns.ExpiredStaysDead | internal/jaccld/resource/store.go:129-202 | with refreshes acting on a current clock reading, a session expired at one moment is never live later |
| StoreRuns.RefreshRevives | internal/jaccld/resource/store.go:129-157 | a refresh brings an expired session back if and only if it read the clock before the expiry and asks for a later deadline on a ready store |
| StoreRuns.StaleRefreshRevives | internal/jaccld/resource/store.go:129-157 | a run from a new store in which that happens |
| ServerRuns.RunInv | internal/ipc/server.go:130-361 | in every interleaving of connections: accounts, owners, session holders and teardown phases agree |
| ServerRuns.EveryLeaseHasOneOwner | internal/ipc/server.go:130-361 | every live slab lease has exactly one owner: a connection, a session, a session request under way, a running collective, or the maintenance reserve |
| ServerRuns.OnlyOwnerReleases | internal/ipc/server.go:168-178 | a lease that stops being live was released by an action of its owner; no request reaches another's lease |
| ServerRuns.OwnershipStays | internal/ipc/server.go:130-361 | ownership ends only by such a release |
| ServerRuns.DisconnectReleasesAll | internal/ipc/server.go:138-149 | once a connection has ended, every lease and session it ever held has been released |
| ServerRuns.TeardownAfterWork | internal/ipc/server.go:138-149 | leases and sessions are released on disconnect only after all work of the connection, scratch leases included, has finished |
| ServerRuns.StaleSessionIsHarmless | internal/ipc/server.go:244-291 | closing or refreshing an id whose session was reaped changes nothing |
| ServerRequests.OthersSessionsUntouched | internal/ipc/server.go:130-361 | in every run, no action of a connection changes another connection's holdings, or changes, extends or ends a session that is not its own |
| ServerRequests.AllocGoesToRequester | internal/ipc/server.go:160-167 | an allocation is granted exactly if the bytes are free, to the connection that asked |
| ServerRequests.FreeEndsOwnLease | internal/ipc/server.go:168-178 | a free ends exactly a lease the connection holds; any other id changes nothing |
| ServerRequests.OpenTakesWindow | internal/ipc/server.go:225-243 | a session request takes a window of its size exactly if it is valid, the store ready and the bytes free |
| ServerRequests.SessionGoesToRequester | internal/ipc/server.go:225-243 | the granted session is what was asked for and belongs to the connection that asked; without a free handle the window goes back |
| ServerRequests.RefreshMovesOwnDeadline | internal/ipc/server.go:244-259 | a refresh moves the deadline of a live session the connection holds, and changes nothing otherwise |
| ServerRequests.CloseEndsOwnSession | internal/ipc/server.go:276-291 | closing a session one holds ends it, frees its window and forgets it |
| ServerRequests.ScratchGoesToWork | cmd/jaccld/transport.go:456-460 | a collective's scratch lease belongs to that piece of work |
| ServerRequests.ScratchIsReturned | cmd/jaccld/transport.go:460 | its release ends that lease and no other |
| ServerRequests.SubmitStarts | internal/ipc/server.go:298-329 | a submission starts work under a number the connection has never used |
| ServerRequests.WorkIsAccountedFor | internal/ipc/server.go:298-363 | in every run, submitted work is running, finished, or collected by a wait |
| ServerRequests.WaitCollects | internal/ipc/server.go:330-347 | a wait collects finished work once and leaves running work running |
| ServerRequests.WorkGoesOn | internal/ipc/server.go:353-363 | running work can always take scratch, return it, or finish |
| ServerRequests.AcceptServes | internal/ipc/server.go:130-137 | a new connection is served and holds nothing |
| ServerRequests.ServingIsServed | internal/ipc/server.go:150-159 | a connection that is served can always allocate, free, submit and wait, and session calls wait only for one another |
| ServerRequests.TeardownGoesOn | internal/ipc/server.go:138-149 | a connection that hung up and whose work is over always gets on with its teardown, so it ends |
| ServerRequests.ReaperEndsExpired | internal/jaccld/resource/store.go:187-287 | the reaper ends exactly the expired sessions and the pulse marks exactly the live ones, of whatever connection |
| Framing.ValueOfBigEndian | stream.go:229-250 | the eight-byte header round-trips every length |
| Framing.HeaderIsBigEndian | stream.go:229-250 | the header's value is its eight bytes, most significant first |
| Framing.SplitJoin | backend.go:204-225 | the staging pieces of a buffer join to the buffer |
| Framing.SplitIsChunks | backend.go:204-225 | the pieces are the successive full chunks, of which only the last may be shorter |
| Framing.TakeSplit | backend.go:204-248 | the split on send and the join on receive undo each other, whatever follows |
| Framing.WireImage | stream.go:229-241 | a frame is eight bytes of length, most significant first, and then the payload |
| Framing.NextFrameIs | stream.go:229-264 | a frame is read back whole, and refused exactly when it exceeds the reader's limit: then its header is gone and its payload is what comes next |
| Framing.NextFrameMore | stream.go:243-264 | what has arrived decides the frame; messages still under way cannot change it |
| StreamSpec.ReadsWhatWasWritten | stream.go:67-264 | in every run of writes, deliveries and reads of any sizes: bytes come out as they went in, no read fails, end-of-stream is reported exactly when the stream is closed and fully read, and any other read yields at least one byte |
| StreamSpec.ReadTakesAll | stream.go:147-174 | a read fills its buffer or leaves nothing of the frame over, and is refused as closed exactly on a closed reader |
| StreamSpec.ReaderCloses | stream.go:210-218 | a reader can be closed at any time, and from then on every read is refused |
| StreamSpec.ReadsWaitOnlyForTheWriter | stream.go:147-174 | with all messages delivered a read waits only on an open stream that has been read to its end |
| StreamSpec.WritesNeverEnd | stream.go:67-83 | every frame of a Write carries at least one byte, so only Close emits the empty frame |
| StreamSpec.DrainCompletes | stream.go:177-207 | in every run, draining delivers the rest of what was written, and ends exactly if the writer closed |
| StreamSpec.LimitCondition | stream.go:247-256 | no read of any run is refused for length if and only if the reader's limit admits the writer's chunk |
| StreamSpec.OversizeWrite | stream.go:247-256 | for every limit below the chunk, a run with one write whose read is refused |
| Streams.Link.Send | backend.go:204-225 | the loop queues exactly the staging pieces of the buffer |
| Streams.Link.Recv | backend.go:227-248 | the loop fills the buffer from the queued pieces, or loses the pieces up to one of another size, or reports that it would wait |
| Streams.SendWriter.SendFrame | stream.go:229-241 | queues the header and, if there is one, the payload |
| Streams.SendWriter.Write | stream.go:67-83 | queues one frame per chunk and returns the length; a closed writer queues nothing |
| Streams.SendWriter.ReadFrom | stream.go:86-111 | queues the frames of everything read, in order, and totals it |
| Streams.SendWriter.Close | stream.go:115-122 | queues the empty frame once |
| Streams.RecvReader.RecvFrame | stream.go:243-264 | takes exactly the next frame off the link; an oversize frame costs its header, a mismatch all pieces up to it |
| Streams.RecvReader.Read | stream.go:147-174 | new reader, link and result equal the specification's, and the buffer holds the bytes returned |
| Streams.RecvReader.WriteTo | stream.go:177-207 | delivers pending bytes and then every frame up to the end of the stream or the first frame refused |
| Streams.RecvReader.Close | stream.go:210-218 | closes the reader and drops pending bytes |

## Left out

- The RDMA bindings, memory mapping and queue-pair state changes: posting and polling are FIFO steps.
- Sockets, JSON, file descriptors, logging, frame-size limits of the side channel, its listen and dial handshake.
- The command-line tools, the tray application, configuration, error wrapping, the topology summary and the slot ledger.
- The byte positions of the maintenance reserve inside its lease, and how work ids are packed.
- The one-operation lock of a group, and the length prefix of side-channel frames.
- The RDMA-write heartbeat and the keepalive tracker.
- Progress of maintenance while collectives are in flight: an admitted collective may wait for a rank whose gate is closed. From the moment every gate is closed and drained, MaintenanceWindows.RoundNeverStuck applies.
- Float and complex reductions: the order of additions differs by rank, so equal results are not promised.
- A client that frees a lease while its own asynchronous work still uses it: the server does not track this.
- Streams.RecvReader.WriteTo: the destination takes every byte; what a failing or short-writing destination does to pending bytes is not modelled.
- Streams.Link.Recv: a call that has to wait is shown as not having started, since it returns nothing until its bytes are there.
- SlabCollectives.MeshReduce: the request is one the server has admitted, so the transport's own repetition of the range checks is not shown; the exchange is an outcome given to it, which CollectiveRuns.ExchangeFillsScratch shows every run of all ranks to produce.
- SessionStore.Sessions.Close: joined errors are a list of the failures, not their messages.
- Server.Effect: one store operation under its mutex is one step, except that a session request is two, with other slab users in between; closing the slab while the daemon runs is not modelled.
- SlabSpec.Alloc: sizes and offsets are unbounded; a slab is smaller than 2^63 bytes, so its own sums cannot overflow.
