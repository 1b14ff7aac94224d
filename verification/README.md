# A verified model of the AGIOS request scheduler

AGIOS is a library that I/O servers link to. Users hand it read and write requests to files, it
reorders and aggregates them, and it gives them back through callbacks when they should be processed.
This project models the parts of AGIOS in which its state is kept and changed, and proves what they
promise. Cited paths and lines are those of the AGIOS sources.

- `Requests`, `Aggregation`, `Tiling`: the offset-ordered queue that glues contiguous requests together,
  as a function on sequences of entries. Proved for all inputs and all runs: the invariant that holds
  even when requests overlap; and for runs without overlaps, that every virtual request is tiled exactly
  by its members and that nothing that could be merged is left apart.
- `NormalForm`, `ArrivalOrder`: exactly when the order of arrival does not matter to the queue.
- `Cancellation`, `AddThenCancel`: cancelling a queued request, and exactly when it undoes an addition.
- `Overlaps`, `Contiguity`: what every run keeps whatever overlaps and whatever is cancelled, exactly
  when the recorded intervals stay exact, and exactly when the lists given to the user are contiguous.
- `Joining`: exactly when an addition joins which entries, in offsets, lengths and numbers of requests,
  for requests that overlap in any way.
- `RequestQueue`: the same queue as the objects that the source updates in place, with each operation
  proved to compute the function of the modules above.
- `WfqModel`, `Wfq`: the deficit round robin scheduler. Fairness, no starvation, order per queue, and
  termination of the scheduling loops with arrivals at any time.
- `LockProtocol`: clients and the AGIOS thread as interleaved steps. In every run a client holds the
  lock of the line it was called for, or that of the timeline, as the scheduler in use needs it, and the
  AGIOS thread is not there; freedom from deadlock, and a bound on every schedule that begins nothing new.
- `Timeline`: the timeline with and without aggregation, and its reconstruction during a migration.
- `Lifecycle`, `LifecycleRuns`, `Restoration`: files, queues, timeline and the redundant counters under
  additions, dispatches, releases, cancellations and the migration to the timeline, as functions with an
  invariant kept by every run, and what adding a request and cancelling it restores.
- `ReleaseOrder`: which request a release frees, over every run of the library.
- `TimedCancellation`: cancelling while the timeline is in use, and exactly when that leaves the
  counters right.
- `Library`, `Serving`: the same operations statement by statement on the fields of one object, and the
  scheduling loops TO and SJF with arrivals while the locks are free. The entries of a queue are values
  here; their form as objects is in `RequestQueue`, proved against the same functions.
- `Sjf`: the search for the shortest queue, which stops early because the counters are right.
- `Twins`: time windows that serve the servers' queues in turn: windows in every run, and no starvation.
- `Performance`, `RunningAverage`: attribution of released requests to periods, and the truncating
  average kept for each.
- `MyList`: the intrusive circular list at the level of pointers.
- `Sequences`: facts about sequences and sums.

All quantities are mathematical integers. File handles are integers, compared as `strcmp` compares the
strings, and the hash is an arbitrary function to the 64 lines. Clock readings, arrivals and user
requests are inputs.

## What the proofs found

- README.md:48 promises that a list of requests passed to the callback is contiguous. Additions keep
  that promise however the requests overlap (`Contiguity.EveryRunNoGap`,
  `Contiguity.EveryTimelineRunNoGap`). A cancellation breaks it exactly if the other requests of the
  list need the one that is taken out (`Contiguity.EveryRunNoGapIff`); of requests in a row that is
  every one but the first and the last (`Contiguity.RemovalTilesIff`). Three requests in a row, of
  which the second is cancelled, are such a run (`Contiguity.CancellationLeavesGap`).
- With overlaps the recorded interval can be smaller than what its members cover: a request nested in
  the only one queued already does that (`Overlaps.NestedRequestShrinksHull`).
  `Overlaps.AddKeepsHullsIff` gives the exact condition on the neighbours of the newcomer.
- For that reason a request that was just added cannot always be cancelled: one that covers the only
  request queued, and starts no later, is never found (`AddThenCancel.CoveringRequestCannotBeCancelled`).
  Nor is it always the one that is cancelled: of two requests for the same block the older one can be
  found first (`AddThenCancel.DuplicateIsCancelledInstead`). Cancelling restores the pending requests
  exactly if the newcomer ends inside its entry, no entry before holds a match that is found, and no
  match stands before it in its own entry; otherwise another match leaves, or nothing changes if none is
  found (`AddThenCancel.CancelUndoesAddIff`). Without overlaps the pending requests are always restored
  (`AddThenCancel.CancelUndoesAdd`). The whole queue is restored exactly if moreover the newcomer's
  entry had an exact interval and no two entries were glued together
  (`AddThenCancel.CancelRestoresQueueIff`). In every run of the library the counters are restored
  exactly if the cancellation finds a request (`Restoration.CancelRestoresLibraryIff`).
- A cancellation can leave a hole in a virtual request. A later request that fits the hole is absorbed
  with a smaller end, and a queued request behind it can no longer be found by a cancellation, although
  no two requests overlap (`AddThenCancel.HoleCanHideRequest`). When all intervals are exact the search
  misses nothing (`Cancellation.FoundIffMember`, `Cancellation.CancelRemovesExactlyOneMatch`).
- `agios_cancel_request` reports success even if no request matched, or if the one that matches lies
  outside the interval of its entry; only an unknown file makes it return false
  (`Library.Agios.CancelRequest`), although its comment promises to report success.
- With the timeline in use `agios_cancel_request` ignores file and kind, so that it can take out a
  request of another file (`TimedCancellation.OtherFileIsCancelled`). All counters but those of the
  lines of the hashtable stay right; these do exactly if both files are on the same line
  (`TimedCancellation.TimedCancelKeepsInvIff`).
- SJF takes a queue of requests of length zero for an empty one (`Sjf.CanBeChosenIff`), so that its loop
  ends only if lengths are positive.
- `multi_timeline` has one list more than there are weights, and WFQ never visits that last list
  (`WfqModel.LastQueueNeverSent`). Its loop ends only if nothing arrives there, which README.md:54
  demands of the users: queue ids are below max_queue_id.
- The size cap makes the aggregation depend on the order of arrival. Without overlaps, all orders that
  leave certain requests queued agree exactly if the cap is one, or no more requests than it allows
  follow each other without a gap (`ArrivalOrder.OrderIrrelevantIff`).
- The running average can be off by n(n-1)/2 in total after n values, and no more
  (`RunningAverage.AverageDrift`, `RunningAverage.DriftBoundIsTight`).

## Model

| member | source | states |
|---|---|---|
| Aggregation.InsertionPoint | src/req_hashtable.c:134-145 | the search stops before the first entry with a larger offset, or an equal offset and a larger length, and at the end if there is none |
| Joining.BelongsAtInsertionPoint | src/req_hashtable.c:134-145 | the search ends at the one place with entries before it that start earlier, or at the same offset and are not longer, and an entry after it that starts later, or at the same offset and is longer |
| Aggregation.AbsorbOk | src/agios_add_request.c:185-200 | for any request, overlapping or not, the virtual request keeps the smallest offset, arrival time and timestamp of its members, its first member starts it and its last member ends it, and it holds one request more |
| Aggregation.AbsorbAllOk | src/agios_add_request.c:214-226 | the same after all requests of another entry were transferred one by one, provided none starts earlier |
| Aggregation.GluedOk | src/agios_add_request.c:206-230 | joining two entries gives one that satisfies the same invariant, starts where the first did and holds the requests of both |
| Aggregation.AddAddsExactly | src/req_hashtable.c:134-149 | whatever branch is taken, the queue afterwards holds the same requests and the new one, none lost or doubled |
| Aggregation.MergedFits | src/agios_add_request.c:247-272 | the entry that replaces those at the insertion point is summarised correctly, within the size cap, and in offset order with its neighbours |
| Aggregation.AddKeepsQueueOk | src/req_hashtable.c:134-149 | for arbitrary, also overlapping, requests an addition keeps the queue sorted by offset, every entry within the size cap and summarised correctly |
| Tiling.TileLength | src/agios_add_request.c:185-193 | the lengths of the members of a tiled virtual request sum to its length, and all lie inside its interval |
| Tiling.AbsorbTiles | src/agios_add_request.c:185-193 | attaching a request that touches either end keeps the tiling and extends the interval by exactly that request |
| Tiling.AbsorbAllTiles | src/agios_add_request.c:214-226 | transferring the members of the next entry in list order keeps the tiling |
| Tiling.InsertionGap | src/req_hashtable.c:134-145 | a request that overlaps no queued request falls between the intervals before and after its insertion point |
| Tiling.AddNextToPrevious | src/agios_add_request.c:247-261 | absorption by the previous entry, with or without closing the gap to the next one, keeps queues tiled and maximally merged |
| Tiling.AddElsewhere | src/agios_add_request.c:262-272 | so do absorption by the next entry and plain insertion |
| Tiling.AddKeepsTiled | src/agios_add_request.c:238-273 | an addition keeps all entries tiled and disjoint in increasing order, and any two neighbours that touch together exceed the size cap |
| Tiling.EveryRunKeepsQueueOk | src/req_hashtable.c:109-169 | the invariant for arbitrary requests holds after every run of additions and dispatches |
| Tiling.EveryRunKeepsRequests | src/req_hashtable.c:109-169 | in every such run the requests that arrived are those queued and those dispatched, each once |
| Tiling.EveryDisjointRunIsTiled | src/agios_add_request.c:174-273 | after every run in which no newcomer overlaps a queued request, the queue is tiled and maximally merged |
| Joining.AdditionJoins | src/agios_add_request.c:238-273 | whatever overlaps, the addition replaces exactly the neighbours that join the newcomer, decided by offsets, lengths and numbers of requests, by one entry with exactly their requests and the newcomer, and tells its interval; all other entries stay in order |
| Joining.TogetherIff | src/agios_add_request.c:247-272 | exactly the requests of those neighbours share the entry of the newcomer |
| Joining.SharesIff | src/agios_add_request.h:12-14 | the newcomer shares an entry with another request if and only if the entry before its place has room and the newcomer starts inside it or at its end, or the entry after has room and starts inside the newcomer or at its end |
| Overlaps.AddKeepsSummaries | src/agios_add_request.c:185-230 | for any requests, an addition keeps offset and times the least of the members', the recorded end the end of a member, and every entry within the cap |
| Overlaps.CancelKeepsSummaries | src/agios_cancel_request.c:68-141 | so does a cancellation |
| Overlaps.EveryRunKeepsSummaries | src/agios_add_request.c:174-273 | so does every run of additions, dispatches and cancellations from the empty queue |
| Overlaps.MergedEnd | src/agios_add_request.c:185-193 | the end that an addition records is that of the newcomer, of a neighbour or, after gluing, of one of three, decided by the offsets |
| Overlaps.AbsorbKeepsHullIff | src/agios_add_request.c:185-193 | an exact interval stays exact if and only if the newcomer sticks out on the side on which it is attached and not on the other |
| Overlaps.AddKeepsHullsIff | src/agios_add_request.c:238-273 | a whole addition, with or without gluing, leaves all intervals exact if and only if the entries next to the newcomer meet a condition on their ends |
| Overlaps.NestedRequestShrinksHull | src/agios_add_request.c:190-193 | from an empty queue, any request nested in the first one leaves an interval that ends before the first one does |
| Contiguity.AddNoGap | src/agios_add_request.c:185-230 | an addition leaves each point from the start of an entry to the end of any member in some member, however the requests overlap |
| Contiguity.EveryRunNoGap | README.md:48-48 | after every run of additions and dispatches, whatever overlaps, the members of every entry leave no gap |
| Contiguity.EveryTimelineRunNoGap | src/req_timeline.c:91-102 | the same for the timeline with aggregation |
| Contiguity.RemovalNoGapIff | src/agios_cancel_request.c:89-113 | taking a member out leaves no gap if and only if each of its points between two of the others is in one of the others |
| Contiguity.EveryRunNoGapIff | src/agios_cancel_request.c:68-141 | in a run with cancellations the entries never have a gap if and only if every cancellation takes out a request that the others do without |
| Contiguity.RemovalTilesIff | src/agios_cancel_request.c:89-113 | the members of a tiled entry stay tiled if and only if the first or the last is taken out |
| Contiguity.CancellationLeavesGap | src/agios_cancel_request.c:89-113 | from an empty queue: three requests in a row, the second cancelled, leave an entry with a gap |
| NormalForm.MembersInOffsetOrder | src/req_hashtable.c:134-149 | from first to last entry and in member order, the queued requests come in strictly increasing order of offset |
| NormalForm.FirstEntryIsMaximalPrefix | src/agios_add_request.c:238-273 | while the cap does not bind, an entry holds all requests up to the first gap |
| NormalForm.TilingUnique | src/agios_add_request.c:238-273 | the queue is determined by the requests it holds, if the cap is one or no more requests than it allows follow each other without a gap |
| ArrivalOrder.ArrivalOrderIrrelevant | src/agios_add_request.c:238-273 | two runs without overlaps that leave the same requests queued leave identical queues, if the cap is one or no more requests than it allows follow each other without a gap |
| ArrivalOrder.FullEntryStaysInRun | src/agios_add_request.c:250-264 | once an entry holds as many requests as the cap allows, it is still there, with the same members and interval, after all later additions |
| ArrivalOrder.LongChainDependsOnOrder | src/agios_add_request.c:250-258 | whenever more requests than the cap allows follow each other without a gap, two orders of arrival of the same requests leave different queues |
| ArrivalOrder.OrderIrrelevantIff | src/agios_add_request.c:238-273 | for disjoint requests, all runs that leave them queued leave the same queue if and only if the cap is one or no chain is longer than it |
| Cancellation.FirstMatch | src/agios_cancel_request.c:84-85 | the search among sub-requests finds the first with that length and offset |
| Cancellation.FindEntry | src/agios_cancel_request.c:68-85 | the search finds the first entry that is, or holds within its interval, a match |
| Cancellation.RecomputedIsHull | src/agios_cancel_request.c:93-113 | the recomputed interval is exactly the hull of the remaining members, and the times are exactly their minima |
| Cancellation.FoundIffMember | src/agios_cancel_request.c:69-85 | with an exact interval, the interval test never hides a matching member |
| Cancellation.CancelTakesOne | src/agios_cancel_request.c:68-141 | a successful cancellation removes one request and keeps all others |
| Cancellation.CancelRemovesExactlyOneMatch | src/agios_cancel_request.c:68-141 | with exact intervals, cancellation removes exactly one matching request if there is one, changes nothing if there is none, and leaves exact intervals |
| Cancellation.CancelKeepsPositions | src/agios_cancel_request.c:115-126 | only the entry of the request changes: a simple one disappears, a virtual one of two becomes its remaining member at the same position, and an interval only shrinks |
| Cancellation.FindsIffCancellable | src/agios_cancel_request.c:69-85 | in any queue the search succeeds if and only if a matching request is a simple one or lies inside the recorded interval of its entry |
| AddThenCancel.MergedFoundIff | src/agios_cancel_request.c:83-83 | the newcomer passes the interval test of the entry that took it in if and only if: joined to the previous entry, it is not longer than that one when both start at the same offset; joined to the next, it ends by its end; with gluing, it ends by the end recorded for the three |
| AddThenCancel.FindsAfterAddIff | src/agios_cancel_request.c:68-85 | after an addition the search finds a match if and only if the newcomer passes that test or another entry holds a match |
| AddThenCancel.MergedPicks | src/agios_cancel_request.c:84-85 | among several members of the same length and offset, the search finds the newcomer if and only if it was put in front of those of the previous entry, or there are none, and none of the entry glued to it was put in front of it |
| AddThenCancel.CancelUndoesAddIff | src/agios_cancel_request.c:68-141 | whatever overlaps, whatever was cancelled before and whatever requests of the same length and offset are queued: cancelling the request just added restores the queued requests if and only if it passes the interval test, nothing before it in the queue is found, and it stands first in its entry; if another match is found that one leaves instead, if none is found nothing changes |
| AddThenCancel.DuplicateIsCancelledInstead | src/agios_cancel_request.c:68-81 | from an empty queue, without aggregation: a request for the block of the only one queued, whose cancellation takes out the older one |
| AddThenCancel.CoveringRequestCannotBeCancelled | src/agios_add_request.c:185-189 | from an empty queue, a request that covers the first one and starts no later is queued and cannot be cancelled |
| AddThenCancel.RecomputedSameIff | src/agios_cancel_request.c:93-113 | the recomputation gives an entry back if and only if its interval was exact |
| AddThenCancel.CancelUndoesAdd | src/agios_cancel_request.c:68-141 | without overlaps, cancelling the request just added always restores the queued requests, and the whole queue if and only if the addition had not glued two entries together |
| AddThenCancel.CancelRestoresQueueIff | src/agios_cancel_request.c:93-126 | for any requests, it restores the whole queue if and only if the newcomer is the one found, the entry that took it in had an exact interval, and no two entries were glued together |
| AddThenCancel.HoleCanHideRequest | src/agios_cancel_request.c:83-83 | from an empty queue: three requests in a row, the second cancelled, and a request in its place after which the third is queued and cannot be cancelled |
| RequestQueue.RequestCell.Attach | src/agios_add_request.c:185-200 | in-place inclusion updates list, interval, count and times to what the function on entries gives |
| RequestQueue.RequestCell.Recompute | src/agios_cancel_request.c:93-113 | the loop over the remaining sub-requests computes their exact interval and minima |
| RequestQueue.RequestCell.Drop | src/agios_cancel_request.c:89-115 | the sub-request is taken out, the others stay in order, and the fields describe them exactly |
| RequestQueue.OffsetQueue.MakeVirtualRequest | src/agios_add_request.c:145-168 | a new object takes the place, interval and times of a simple request and holds only that request |
| RequestQueue.OffsetQueue.IncludeInAggregation | src/agios_add_request.c:174-201 | the entry becomes virtual if needed and absorbs the request; no other entry changes |
| RequestQueue.OffsetQueue.DelReq | src/req_hashtable.c:166-169 | exactly one entry leaves, with its sub-requests |
| RequestQueue.OffsetQueue.TransferAll | src/agios_add_request.c:214-228 | all sub-requests move in list order, one step behind the iterator, and the entry becomes what absorbing them gives |
| RequestQueue.OffsetQueue.JoinAggregations | src/agios_add_request.c:206-230 | two neighbouring entries become one that absorbed the members of the second |
| RequestQueue.OffsetQueue.InsertAggregations | src/agios_add_request.c:238-273 | it aggregates exactly if the entry before the place has room and the newcomer starts inside it or at its end, or the entry after has room and starts inside the newcomer or at its end; then the objects hold the queue that the addition at this place gives, else nothing changed |
| RequestQueue.OffsetQueue.AddRequest | src/req_hashtable.c:134-149 | the in-place addition computes the function whose invariants the modules Aggregation and Tiling prove, and no request object is shared |
| RequestQueue.OffsetQueue.CancelRequest | src/agios_cancel_request.c:68-141 | the in-place cancellation computes the function of the module Cancellation, and reports whether a request was found |
| WfqModel.Next | src/WFQ.c:93-138 | a step of the scheduler or an arrival keeps queues, weights, credits and current queue well formed |
| WfqModel.RunKeepsCredits | src/WFQ.c:131-132 | between visits every credit is non-negative, and a positive credit means that the first request of the queue is longer than it |
| WfqModel.Account | src/WFQ.c:96-132 | a queue that never runs empty has sent its weight for each visit begun, plus the credit it had, minus what it may still spend |
| WfqModel.Rounds | src/WFQ.c:134-134 | any two queues have been visited equally often up to one visit |
| WfqModel.Fairness | src/WFQ.c:93-138 | over complete visits in which two queues stay backlogged, their weighted service differs by at most w_i w_j + (M-1)(w_i + w_j), for requests of length at most M |
| WfqModel.FifoPerQueue | src/WFQ.c:103-109 | in every run what a queue sent followed by what it holds is what it held at first followed by what arrived |
| WfqModel.LastQueueNeverSent | src/WFQ.c:134-134 | no run sends anything from the last list |
| WfqModel.SentWithinVisits | src/WFQ.c:96-128 | a queued request is sent once the visits to its queue add up to the bytes ahead of it and its own |
| WfqModel.SentWithinRounds | src/WFQ.c:93-138 | no starvation: the same with a number of visits to all queues, whatever arrives meanwhile |
| Wfq.IdleVisitProgress | src/WFQ.c:103-134 | a visit that sends nothing while requests are queued lowers the lacking credit, or comes closer to a queue that is not empty |
| Wfq.Scheduler.constructor | src/WFQ.c:55-61 | all credits start at zero, with the given positive weights and one list more than weights |
| Wfq.Scheduler.SendCovered | src/WFQ.c:103-128 | the inner loop sends requests, with arrivals while the lock is free, until the queue is empty or the amount does not cover the first one |
| Wfq.Scheduler.FinishVisit | src/WFQ.c:130-134 | the left amount becomes the credit only if the queue is not empty, and the next queue becomes current |
| Wfq.Scheduler.Run | src/WFQ.c:81-142 | for all arrivals to visited queues the loop terminates, follows the transition system, and sends every request once in order of its queue |
| LockProtocol.StepKeepsInv | src/data_structures.c:136-198 | every step of any thread keeps the bookkeeping of locks and what each thread knows about the scheduler |
| LockProtocol.EveryRunIsSafe | src/data_structures.c:178-208 | in every run a client inside the library for line h is the holder of the lock of line h if the scheduler uses the hashtable, else of that of the timeline; the AGIOS thread is then neither processing there nor changing the scheduling algorithm |
| LockProtocol.AllLocksInOrder | src/data_structures.c:136-152 | in every interleaving the AGIOS thread holds all locks while requests move between the structures, and takes them timeline first, then lines in increasing order, and gives back lines in increasing order, timeline last |
| LockProtocol.InsideHoldsLineCalled | src/data_structures.c:183-197 | the line is the one of the client's last call, and the scheduler in use the one chosen last |
| LockProtocol.CallGoesThrough | src/data_structures.c:183-197 | while all is quiet, a call for any line gets inside, and ends with exactly the lock of that line taken if the scheduler uses the hashtable, else that of the timeline |
| LockProtocol.ProcessingGoesThrough | src/SJF.c:91-100 | while all is quiet, the AGIOS thread gets to process any line, or the timeline, holding exactly that lock, and gives it back |
| LockProtocol.RetriesBoundedByFlips | src/data_structures.c:183-196 | in every interleaving, the steps in which a client gives a wrong lock back are at most as many as the changes of algorithm that changed the structure in use |
| LockProtocol.NoDeadlock | src/data_structures.c:136-152 | in every reachable state with an unfinished thread some thread can take a step that brings it closer to being done |
| LockProtocol.EveryScheduleCompletes | src/data_structures.c:136-197 | without new calls no schedule is longer than a bound computed from the state, and a schedule can be continued exactly until every call and the change in progress are completed |
| LockProtocol.CanAlwaysComplete | src/data_structures.c:136-197 | from every reachable state a completing schedule within that bound can be given |
| Timeline.AbsorbingIndex | src/req_timeline.c:91-107 | the search stops at the first entry of the same file and kind that has room and either starts inside the newcomer or at its end, or the newcomer inside it or at its end, and at the end if there is none or aggregation is off |
| Timeline.FirstTakesIn | src/req_timeline.c:91-107 | if there is such an entry the first one takes the newcomer in, in place, and covers the interval given by the offsets; otherwise the newcomer is appended; no other entry changes |
| Timeline.AddKeepsTimeOrder | src/req_timeline.c:91-107 | adding the newest request, aggregated anywhere or appended, keeps the timeline ordered by timestamp and adds exactly that request |
| Timeline.HeadHoldsOldest | src/req_timeline.c:174-183 | the first entry of an ordered timeline holds the oldest request |
| Timeline.EveryRunKeepsTimeOrder | src/req_timeline.c:90-183 | every run of additions in order of timestamp and dispatches keeps the timeline ordered |
| Timeline.TimeOrderIsFifo | src/req_timeline.c:104-107 | without aggregation requests leave in exactly the order in which they came |
| Timeline.InsertAllKeepsRequests | src/req_timeline.c:110-119 | reinserting requests by timestamp adds exactly them, each as a simple request |
| Timeline.InsertAllSorts | src/req_timeline.c:110-119 | and gives a timeline sorted by timestamp |
| Timeline.RebuildIsArrivalOrder | src/req_timeline.c:108-119 | a rebuilt timeline is the list of its requests in order of arrival, in whatever order they were reinserted |
| LifecycleRuns.EnsureKeepsInv | src/agios_add_request.c:298-326 | a new file is put in order into the line of its hash and changes nothing that is counted |
| LifecycleRuns.AddKeepsInv | src/agios_add_request.c:357-370 | an addition keeps every counter equal to what it counts, and adds exactly the request |
| LifecycleRuns.DispatchKeepsInv | src/process_request.c:66-114 | so does sending an entry of a hashtable queue back, whose requests become in flight |
| LifecycleRuns.DispatchOldestKeepsInv | src/req_timeline.c:174-183 | so does sending the oldest entry of the timeline back |
| LifecycleRuns.CancelKeepsInv | src/agios_cancel_request.c:68-141 | so does a cancellation, which takes out exactly one request that matches |
| LifecycleRuns.ReleaseKeepsInv | src/agios_release_request.c:79-111 | so does a release, which takes exactly the first match out of the dispatched requests |
| LifecycleRuns.MigrationKeepsInv | src/data_structures.c:110-124 | moving all queues to the timeline empties them, loses and doubles no request, and leaves every counter right although none is touched |
| LifecycleRuns.MigrationRestoresArrivalOrder | src/data_structures.c:38-73 | the timeline after the migration lists all simple requests in order of arrival |
| LifecycleRuns.StepKeepsInv | src/agios_counters.c:27-73 | every operation keeps all five counters right and accounts for every request |
| LifecycleRuns.EveryRunConservesRequests | src/agios_counters.c:27-73 | after every run each request added is queued, in flight, released or cancelled, exactly once, and current_reqnb, current_filenb, every hashlist_reqcounter, timeline_reqnb and current_size equals what it counts |
| ReleaseOrder.StepFollows | src/process_request.c:52-59 | what an operation gives the user is put at the end of the requests in flight of its queue, in the order of the list given; a release takes the first match out; all else leaves every queue's requests in flight as they are |
| ReleaseOrder.FreedInOrderSent | src/agios_release_request.c:79-111 | in every run, among requests of the same file, kind, length and offset, those freed are the first ones given to the user, in that order, and the others are in flight |
| ReleaseOrder.ReleaseFindsIff | src/agios_release_request.c:79-111 | a release finds a request if and only if more such requests were given to the user than freed |
| Restoration.EveryRunKeepsQueuesOk | src/agios_add_request.c:174-273 | after every run of the library the entries of all queues satisfy the invariant that overlaps and cancellations keep |
| Restoration.CancelRestoresLibraryIff | src/agios_counters.c:27-73 | in every run, adding a request and cancelling it restores current_reqnb, current_filenb, all counters of lines and the records of all files if and only if a request is found, else it changes no more than the addition; it restores the requests held if and only if the newcomer is the one found, else another one leaves; exactly when the entries too are restored |
| TimedCancellation.TimedCancelTakesOne | src/agios_cancel_request.c:66-81 | with the timeline in use, the first entry that is or holds a match loses it, whatever its file and kind, and every counter but those of lines is right |
| TimedCancellation.TimedCancelKeepsInvIff | src/agios_cancel_request.c:76-80 | the counters of lines stay right if and only if the file of that request is on the line of the file named by the caller |
| TimedCancellation.OtherFileIsCancelled | src/agios_cancel_request.c:66-81 | two requests of the same length and offset of two files: cancelling the second takes out the first, with wrong counters if they are on different lines |
| Library.Agios.constructor | src/data_structures.c:159-170 | the library starts empty with all counters zero |
| Library.Agios.FindReqFile | src/agios_add_request.c:298-326 | the file is found or created at its place in the line, and counted if it had no queued request |
| Library.Agios.AddRequest | src/agios_add_request.c:357-370 | the in-place addition computes the function of LifecycleRuns and keeps its invariant |
| Library.Agios.Step1 | src/process_request.c:66-114 | the user ids are those of the members in member order, the members are in dispatch, and all counters are lowered by what left |
| Library.Agios.DispatchFromQueue | src/process_request.c:66-114 | an entry of a queue is sent back with all counters right |
| Library.Agios.DispatchOldest | src/req_timeline.c:174-183 | the oldest entry is sent back with all counters right |
| Library.Agios.ReleaseRequest | src/agios_release_request.c:44-120 | success exactly if a dispatched request of that queue matches; then the first match is gone, else nothing changes |
| Library.Agios.CancelRequest | src/agios_cancel_request.c:29-147 | with the hashtable in use, exactly if a match is queued in an entry of its own or inside the interval of its entry, one match of that queue leaves, otherwise nothing changes; with the timeline in use one match of any file leaves under the same condition, and the counters are right exactly if its line is the caller's; the result is false exactly if the file is unknown |
| Library.Agios.TimeOrder | src/TO.c:20-37 | with requests arriving after every iteration, the loop terminates with nothing queued, and every request queued or arrived was sent once; each group sent is the first entry of the timeline, which holds the oldest request queued if timestamps increase; without aggregation requests are sent in order of arrival |
| Serving.OldestIsAlwaysSent | src/TO.c:27-34 | in every iteration of the loop, aggregating or not, the group sent holds the oldest of all requests queued then |
| Library.Agios.SendShortest | src/SJF.c:87-100 | the first entry of a queue of least positive size is sent, and exactly its requests leave |
| Serving.SomeQueueChosen | src/SJF.c:88-89 | while requests are queued, and fewer bytes than LONG_MAX, the search finds a queue |
| Library.Agios.ShortestJobFirst | src/SJF.c:79-107 | with requests of positive length arriving after every iteration, the loop terminates with nothing queued, each iteration sent the first entry of a shortest queue of the whole table, and every request queued or arrived was sent once |
| Library.Agios.PutThisRequestInTimeline | src/data_structures.c:38-53 | an entry is inserted by timestamp, a virtual one broken into its members |
| Library.Agios.PutAllRequestsInTimeline | src/data_structures.c:61-73 | the mutual recursion terminates and inserts the members of all entries |
| Library.Agios.MigrateFromHashtable | src/data_structures.c:110-124 | the loops compute the migration of LifecycleRuns: all queues emptied, all members in the timeline, nothing else touched |
| Library.Agios.ChangeToTimeOrder | src/scheduling_algorithms.c:162-167 | the change of algorithm from one that uses the hashtable to TO keeps all counters right and every request |
| Sjf.SizeTellsQueue | src/SJF.c:25-32 | with positive lengths the recorded size of a queue is positive exactly if the queue holds requests |
| Sjf.CanBeChosenIff | src/SJF.c:25-32 | a queue can be chosen at all if and only if it holds a request of positive length |
| Sjf.ReqnbTellsFile | src/SJF.c:50-53 | the recorded number of requests of a file is zero exactly if both its queues are empty |
| Sjf.SearchLine | src/SJF.c:49-65 | after a line no queue in it or before it is shorter than the choice, every queue before the choice is longer, and its files with requests were counted |
| Sjf.NothingBeyond | src/SJF.c:67-67 | when as many files with requests as there are were seen, no later line holds a request |
| Sjf.GetShortestJob | src/SJF.c:38-74 | despite the early exit the choice is a non-empty queue of least positive size of the whole table, and the first of these in the order of lines, files, reads before writes; there is none exactly if no queue below LONG_MAX holds requests |
| Twins.StepKeepsTraceOk | src/TWINS.c:55-87 | every turn and arrival keeps round robin, the spacing of windows, and requests inside the window of their server |
| Twins.TurnOpens | src/TWINS.c:57-70 | a turn opens a window exactly if there was none or the last one has lasted its time; it is that of the next server in turn, whether or not anything is queued there |
| Twins.TurnServes | src/TWINS.c:71-83 | the turn then sends the first request of the server of the window, if there is one, and nothing else |
| Twins.Run | src/TWINS.c:55-87 | in every run with a clock that never goes back windows go to the servers in turn, start at least the configured time apart, and every request sent is of the server of its window, at its start or before its end |
| Twins.SameServerApart | src/TWINS.c:63-67 | two windows of the same server are at least one round of windows, and as many times the window, apart |
| Twins.RoundBetweenWindows | src/TWINS.c:55-87 | requests sent from one queue are of one window or of windows that start a full round apart |
| Twins.WindowsAreExpiredTurns | src/TWINS.c:57-70 | in every run as many windows were opened as turns came when there was none yet or the last one was over |
| Twins.EveryServerComesUp | src/TWINS.c:63-67 | each server has a window among as many such turns as there are servers, whether or not the others have requests |
| Twins.SentWithinWindows | src/TWINS.c:55-87 | no starvation: a request with n ahead of it in its queue is sent by the time n + 1 rounds of windows are over, whatever arrives meanwhile |
| Twins.FifoPerServer | src/TWINS.c:71-75 | in every run what was sent from a queue followed by what it holds is what arrived |
| Twins.Scheduler.UpdateWindow | src/TWINS.c:57-70 | the first turn starts the window of server 0; a window that has lasted its time is followed by that of the next server, empty or not, starting then; otherwise the window goes on |
| Twins.Scheduler.TakeTurn | src/TWINS.c:55-86 | one turn of the loop is a step of the model; it sends the first request of the current queue, or nothing if that is empty |
| Twins.Scheduler.Serve | src/TWINS.c:46-91 | with arrivals at any time the loop ends, having sent what the model says, with no request left or the current queue empty, and returns the time left in the window |
| Performance.PeriodIsLatest | src/performance.c:97-114 | with periods in order of time the attribution is the latest period that started by the dispatch time, and none exactly if all started later |
| Performance.PeriodAmongLast | src/performance.c:83-88 | looking only at the kept periods finds the period of the whole history if it is kept, and none otherwise |
| Performance.AccountSummarizes | src/agios_release_request.c:99-101 | counter, size and average after a release are those of all releases of the period |
| Performance.EveryRunSummarizesHistory | src/performance.c:64-114 | in every run the list is exactly the last configured periods, each with the count, size and average of exactly the released requests dispatched in it |
| Performance.PerformanceInfo.SetNewAlgorithm | src/performance.c:64-91 | the new period is appended with zero counters, and the oldest are evicted until the configured number is left |
| Performance.PerformanceInfo.GetRequestEntry | src/performance.c:97-114 | the backward loop returns the last kept period that starts no later than the dispatch, or none if all start later |
| Performance.PerformanceInfo.AccountRelease | src/agios_release_request.c:94-109 | the release is accounted to its period, or dropped if that is no longer kept |
| Performance.PerformanceInfo.ProcessedCountsCurrent | src/agios_release_request.c:102-105 | agios_processed_reqnb counts exactly the released requests that the current algorithm dispatched |
| RunningAverage.TruncDiv | src/common_functions.c:102-102 | the quotient is truncated toward zero: the remainder is smaller than the divisor and the product never passes the dividend |
| RunningAverage.StepIsTruncated | src/common_functions.c:98-103 | from the second value on, count times the change of the average never exceeds the difference to the value, has its sign, and is short of it by less than count |
| RunningAverage.OnlyOneStep | src/common_functions.c:98-103 | no other change of the average meets that |
| RunningAverage.UpdateStaysBetween | src/common_functions.c:98-103 | the new average is between the old one and the new value |
| RunningAverage.AverageWithinValues | src/common_functions.c:98-103 | the average stays within the smallest and the largest value |
| RunningAverage.AverageDrift | src/common_functions.c:98-103 | n times the average differs from the sum of the n values by at most n(n-1)/2 |
| RunningAverage.DriftBoundIsTight | src/common_functions.c:98-103 | for every n there are values for which it differs by exactly that |
| MyList.ListHead.constructor | src/mylist.c:8-12 | a new sentinel is an empty list |
| MyList.LinksDetermineSequence | src/mylist.h:25-28 | two descriptions of a circular list with the same sentinel are equal: iteration has one possible order |
| MyList.AddBetween | src/mylist.c:13-19 | the pointer writes insert the node at that place of the sequence |
| MyList.Add | src/mylist.c:20-23 | the node becomes the first after the sentinel |
| MyList.AddTail | src/mylist.c:24-27 | the node becomes the last |
| MyList.Del | src/mylist.c:28-38 | exactly that node leaves the sequence and becomes a list of its own |
| MyList.Empty | src/mylist.c:48-51 | true exactly if the list is only its sentinel |
| MyList.MoveAll | src/data_structures.c:61-73 | the loop one step behind its iterator visits every node once, in order, and leaves the first list empty; the other list is what inserting the nodes one by one gives, each at an arbitrary place |
| MyList.RelinkedKeepsNodes | src/req_timeline.c:110-119 | wherever each node is inserted, the sentinel stays first and the nodes are those of both lists, each once |
| MyList.RelinkedAtEnd | src/agios_add_request.c:190-191 | if each goes to the end, they stand there in their order |
| MyList.DispatchAll | src/process_request.c:92-104 | the loop that never unlinks its nodes still visits every one once, in order, and the dispatch list ends with all of them |

## Left out

- The aIOLi and MLF algorithms: waiting times, sleeping, lock retries and quanta, which are heuristics on clock readings.
- The SW algorithm: its priority is computed but never stored in the request, so the code does not decide the order.
- The NOOP algorithm: requests go straight back to the user and enter no queue.
- Cancellation under TWINS and WFQ, which searches `timeline` although the requests are in `multi_timeline`.
- Migration from the timeline to the hashtable, and of virtual requests into a timeline with aggregation, where virtual requests can be nested or relinked after removal.
- Reordering the timeline between two algorithms that both use it.
- `WFQ_STOP`, `TWINS_stop`, `SJF_stop` and `TO_stop`: no algorithm in the table is dynamic, so `is_time_to_change_scheduler` is always false in this code.
- Statistics, sched_factor, first_request_time, traces, callbacks beyond the list of user ids, and the clean-up of memory at the end.
- Failing allocations, overflow of 32-bit and 64-bit integers, and division by an elapsed time of zero in `agios_release_request`.
- Configuration files; `config_agios_performance_values` is taken to be at least one, since current_performance_entry dangles otherwise.
- The mixing of the hash function: any function to the lines of the table.
- The mutex inside the counters, and the user's own use of the timestamp counter: an addition is one step where timestamps matter.
- RequestQueue.OffsetQueue.AddRequest: the links between entries are sequences of objects here; pointers are only in MyList.
- Library.Agios.AddRequest: files and entries are values in a table that is reassigned, so aliasing between file and request objects is not captured, and the operations on entries are the functions that RequestQueue is proved against, not its methods; multi_timeline is modelled in Wfq and Twins only.
- Library.Agios.TimeOrder: arrivals come after each iteration, while step 2 holds no lock, not between the test of the loop and the lock.
- Library.Agios.ShortestJobFirst: likewise, and nothing arrives during the search or before the chosen line is locked; lengths are positive and add up to less than LONG_MAX, since otherwise the sanity check of src/SJF.c:52 fails or no queue is ever chosen.
- ArrivalOrder.OrderIrrelevantIff: for requests that do not overlap; with overlaps the order also decides which of two nested requests gives the recorded end.
- Library.Agios.ChangeToTimeOrder: only the change from the hashtable to the timeline without aggregation.
- Sjf.GetShortestJob: no additions between the locks of two lines or between the search and the lock of the chosen line; queues of LONG_MAX bytes and more count as none, as in the code.
- Wfq.Scheduler.Run: terminates only when nothing is queued in or arrives at the last list, as README.md:54 demands.
- Twins.Scheduler.Serve: arrivals come after each request sent, not between the window test and the choice of the request, which the lock excludes.
- AddThenCancel.CancelUndoesAddIff: the newcomer is not equal in all fields to a queued request; every request gets its own timestamp (src/agios_add_request.c:134-135). The same holds of AddThenCancel.CancelRestoresQueueIff and Restoration.CancelRestoresLibraryIff.
- LifecycleRuns.StepKeepsInv: runs include cancellations with the hashtable in use only, since those in the timeline do not always keep the counters.
