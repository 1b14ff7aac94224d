/** The WFQ scheduling loop, proved to be a run of `WfqModel` and to terminate. */
module Wfq {
  import opened Requests
  import opened Sequences
  import opened WfqModel

  // ---------------------------------------------------------------------------------------------
  // Progress of visits that send nothing
  // ---------------------------------------------------------------------------------------------

  /** How much credit the first requests of the first `n` queues still lack. */
  function Deficit(s: State, n: nat): int
    requires n <= |s.queues| && n <= |s.credit|
  {
    if n == 0 then 0
    else Deficit(s, n - 1) + (if s.queues[n - 1] == [] then 0 else s.queues[n - 1][0].len - s.credit[n - 1])
  }

  lemma {:induction false} DeficitNonNegative(w: seq<int>, s: State, n: nat)
    requires WellFormed(w, s) && !s.visiting && CreditsOk(s) && n <= |w|
    ensures Deficit(s, n) >= 0
  {
    if n == 0 {
    } else {
      DeficitNonNegative(w, s, n - 1);
      assert CreditOk(s, n - 1);
      if s.queues[n - 1] != [] { assert s.queues[n - 1][0] in s.queues[n - 1]; }
    }
  }

  lemma {:induction false} DeficitChange(s: State, t: State, c: nat, n: nat)
    requires |s.credit| == |t.credit| && s.queues == t.queues && n <= |s.credit| && n <= |s.queues| && c < |s.credit|
    requires forall q :: 0 <= q < |s.credit| && q != c ==> s.credit[q] == t.credit[q]
    ensures Deficit(t, n) == Deficit(s, n) - (if c < n && s.queues[c] != [] then t.credit[c] - s.credit[c] else 0)
  {
    if n == 0 {
    } else {
      DeficitChange(s, t, c, n - 1);
    }
  }

  /** The number of visits, at most `fuel`, from queue `c` to the first queue that is not empty. */
  function Gap(queues: seq<seq<Request>>, n: nat, c: nat, fuel: nat): nat
    requires c < n <= |queues|
    decreases fuel
  {
    if fuel == 0 || queues[c] != [] then 0 else 1 + Gap(queues, n, (c + 1) % n, fuel - 1)
  }

  lemma GapBound(queues: seq<seq<Request>>, n: nat, c: nat, fuel: nat, q: nat)
    requires c < n <= |queues| && q < n && queues[q] != []
    ensures Gap(queues, n, c, fuel) <= RingDistance(c, q, n)
    ensures fuel >= n - 1 ==> Gap(queues, n, c, fuel + 1) == Gap(queues, n, c, fuel)
    decreases RingDistance(c, q, n)
  {
    GapStable(queues, n, c, fuel, q);
  }

  lemma {:induction false} GapStable(queues: seq<seq<Request>>, n: nat, c: nat, fuel: nat, q: nat)
    requires c < n <= |queues| && q < n && queues[q] != []
    ensures Gap(queues, n, c, fuel) <= RingDistance(c, q, n)
    ensures fuel >= RingDistance(c, q, n) ==> Gap(queues, n, c, fuel + 1) == Gap(queues, n, c, fuel)
    decreases RingDistance(c, q, n)
  {
    NextInRing(c, n);
    if fuel > 0 && queues[c] == [] {
      GapStable(queues, n, (c + 1) % n, fuel - 1, q);
    }
  }

  /** A visit that sends nothing either shrinks the deficit or brings a non-empty queue nearer. */
  lemma IdleVisitProgress(w: seq<int>, s: State, q: nat)
    requires WellFormed(w, s) && !s.visiting && CreditsOk(s) && q < |w| && s.queues[q] != []
    requires !CanServe(Next(w, s, Begin))
    ensures var t := Next(w, Next(w, s, Begin), Finish);
            if s.queues[s.current] != [] then Deficit(t, |w|) < Deficit(s, |w|)
            else Deficit(t, |w|) == Deficit(s, |w|)
                 && Gap(t.queues, |w|, t.current, |w|) < Gap(s.queues, |w|, s.current, |w|)
  {
    var t := Next(w, Next(w, s, Begin), Finish);
    assert CreditOk(s, s.current);
    DeficitChange(s, t, s.current, |w|);
    if s.queues[s.current] == [] {
      GapBound(s.queues, |w|, t.current, |w| - 1, q);
    }
  }

  // ---------------------------------------------------------------------------------------------
  // The scheduler
  // ---------------------------------------------------------------------------------------------

  /** What was sent from queue `q`, out of everything sent. */
  function OfQueue(sent: seq<Arrival>, q: nat): seq<Request>
  {
    if sent == [] then [] else
      var n := |sent| - 1;
      OfQueue(sent[..n], q) + (if sent[n].queue == q then [sent[n].request] else [])
  }

  /** Everything sent in a run, with the queue it came from. */
  ghost function AllSent(w: seq<int>, s: State, steps: seq<Step>): seq<Arrival>
    requires ValidRun(w, s, steps)
    decreases |steps|
  {
    if steps == [] then [] else
      var n := |steps| - 1;
      var t := Exec(w, s, steps[..n]);
      AllSent(w, s, steps[..n]) + (if steps[n].Serve? then [Arrival(t.current, t.queues[t.current][0])] else [])
  }

  lemma {:induction false} SentIsOfQueue(w: seq<int>, s: State, steps: seq<Step>, q: nat)
    requires ValidRun(w, s, steps)
    ensures OfQueue(AllSent(w, s, steps), q) == Sent(w, s, steps, q)
    decreases |steps|
  {
    if steps == [] {
    } else {
      var n := |steps| - 1;
      var t := Exec(w, s, steps[..n]);
      SentIsOfQueue(w, s, steps[..n], q);
      assert !steps[n].Serve? ==> AllSent(w, s, steps) == AllSent(w, s, steps[..n]);
      if steps[n].Serve? {
        OfQueueGrows(AllSent(w, s, steps[..n]), Arrival(t.current, t.queues[t.current][0]), q);
      }
    }
  }

  lemma OfQueueGrows(sent: seq<Arrival>, a: Arrival, q: nat)
    ensures OfQueue(sent + [a], q) == OfQueue(sent, q) + (if a.queue == q then [a.request] else [])
  {
    assert (sent + [a])[..|sent|] == sent;
  }

  class Scheduler {
    const weights: seq<int>
    const credit: array<int>
    const queues: array<seq<Request>>
    var current: nat
    var reqnb: int

    ghost function Snapshot(visiting: bool, amount: int): State
      reads this, credit, queues
    {
      State(queues[..], credit[..], current, visiting, amount)
    }

    ghost predicate Follows(start: State, steps: seq<Step>, visiting: bool, amount: int)
      reads this, credit, queues
    {
      && ValidRun(weights, start, steps) && Exec(weights, start, steps) == Snapshot(visiting, amount)
      && CreditsOk(start) && reqnb == Sum(queues[..], SIZE)
    }

    ghost predicate Valid()
      reads this, credit, queues
    {
      WellFormed(weights, Snapshot(false, 0)) && CreditsOk(Snapshot(false, 0)) && reqnb == Sum(queues[..], SIZE)
    }

    /** Queues and credits after `WFQ_init`, with the weights read from its configuration file. */
    constructor (weights: seq<int>)
      requires |weights| >= 1 && forall q :: 0 <= q < |weights| ==> weights[q] > 0
      ensures Valid() && this.weights == weights && forall q :: 0 <= q < queues.Length ==> queues[q] == []
      ensures fresh(credit) && fresh(queues)
    {
      this.weights := weights;
      credit := new int[|weights|](_ => 0);
      queues := new seq<Request>[|weights| + 1](_ => []);
      current, reqnb := 0, 0;
      new;
      SumZero(queues[..], SIZE);
    }

    /** A request arrives: `timeline_add_req` appends it to the list of its queue. */
    method Receive(a: Arrival, ghost start: State, ghost steps: seq<Step>, ghost visiting: bool, ghost amount: int)
      requires Follows(start, steps, visiting, amount) && a.queue < queues.Length && a.request.len >= 0
      modifies queues, this`reqnb
      ensures Follows(start, steps + [Step.Arrive(a.queue, a.request)], visiting, amount)
      ensures reqnb == old(reqnb) + 1 && forall q :: 0 <= q < queues.Length && q != a.queue ==>
              queues[q] == old(queues[q])
      ensures AllSent(weights, start, steps + [Step.Arrive(a.queue, a.request)]) == AllSent(weights, start, steps)
    {
      ghost var before := queues[..];
      queues[a.queue] := queues[a.queue] + [a.request];
      reqnb := reqnb + 1;
      SumUpdate(before, a.queue, queues[a.queue], SIZE);
      assert queues[..] == before[a.queue := queues[a.queue]];
      assert (steps + [Step.Arrive(a.queue, a.request)])[..|steps|] == steps;
    }

    /** The requests of one batch arrive while the scheduler does not hold the lock. */
    method ReceiveAll(batch: seq<Arrival>, ghost start: State, ghost steps: seq<Step>, ghost visiting: bool,
                      ghost amount: int)
      returns (ghost more: seq<Step>)
      requires Follows(start, steps, visiting, amount)
      requires forall a :: a in batch ==> a.queue < |weights| && a.request.len >= 0
      modifies queues, this`reqnb
      ensures queues[|weights|] == old(queues[|weights|])
      ensures Follows(start, more, visiting, amount) && more == steps + ArrivalSteps(batch)
      ensures reqnb == old(reqnb) + |batch|
      ensures batch == [] ==> queues[..] == old(queues[..]) && more == steps
      ensures AllSent(weights, start, more) == AllSent(weights, start, steps)
    {
      more := steps;
      for n := 0 to |batch|
        invariant Follows(start, more, visiting, amount) && more == steps + ArrivalSteps(batch[..n])
        invariant reqnb == old(reqnb) + n && queues[|weights|] == old(queues[|weights|])
        invariant AllSent(weights, start, more) == AllSent(weights, start, steps)
        invariant batch == [] ==> queues[..] == old(queues[..])
      {
        OneMoreArrival(steps, batch, n);
        Receive(batch[n], start, more, visiting, amount);
        more := more + [Step.Arrive(batch[n].queue, batch[n].request)];
      }
      assert batch[..|batch|] == batch;
    }

    /** Sends the first request of the current queue. */
    method SendFirst(amount: int, ghost start: State, ghost steps: seq<Step>) returns (req: Request)
      requires Follows(start, steps, true, amount) && CanServe(Snapshot(true, amount))
      modifies queues, this`reqnb
      ensures Follows(start, steps + [Serve], true, amount - req.len)
      ensures AllSent(weights, start, steps + [Serve]) == AllSent(weights, start, steps) + [Arrival(current, req)]
      ensures req == old(queues[current][0]) && reqnb == old(reqnb) - 1 && queues[|weights|] == old(queues[|weights|])
    {
      ghost var before := queues[..];
      req := queues[current][0];
      queues[current] := queues[current][1..];
      reqnb := reqnb - 1;
      SumUpdate(before, current, queues[current], SIZE);
      assert queues[..] == before[current := queues[current]];
      assert (steps + [Serve])[..|steps|] == steps;
    }

    /** The end of a visit: the credit is updated and the next queue becomes current. */
    method FinishVisit(amount: int, ghost start: State, ghost steps: seq<Step>)
      requires Follows(start, steps, true, amount) && !CanServe(Snapshot(true, amount))
      modifies credit, this`current
      ensures Follows(start, steps + [Finish], false, amount) && queues[..] == old(queues[..]) && reqnb == old(reqnb)
      ensures AllSent(weights, start, steps + [Finish]) == AllSent(weights, start, steps)
    {
      if queues[current] != [] {
        credit[current] := amount;
      } else {
        credit[current] := 0;
      }
      current := (current + 1) % (queues.Length - 1);
      assert (steps + [Finish])[..|steps|] == steps;
    }

    /** Requests in the queues plus those of the batches that are still to arrive. */
    ghost function Remaining(arrivals: seq<seq<Arrival>>, k: nat): int
      requires k <= |arrivals|
      reads this
    {
      reqnb + Sum(arrivals[k..], BATCH)
    }

    ghost predicate ArrivalsOk(arrivals: seq<seq<Arrival>>)
    {
      forall b, a :: b in arrivals && a in b ==> a.queue < |weights| && a.request.len >= 0
    }

    /** While the lock is free the next batch of requests, if any, arrives. */
    method Unlocked(arrivals: seq<seq<Arrival>>, k: nat, ghost start: State, ghost steps: seq<Step>,
                    ghost visiting: bool, ghost amount: int)
      returns (next: nat, ghost more: seq<Step>)
      requires Follows(start, steps, visiting, amount) && ArrivalsOk(arrivals) && k <= |arrivals|
      modifies queues, this`reqnb
      ensures Follows(start, more, visiting, amount) && next == (if k < |arrivals| then k + 1 else k)
      ensures AllSent(weights, start, more) == AllSent(weights, start, steps)
      ensures Remaining(arrivals, next) == old(Remaining(arrivals, k)) && queues[|weights|] == old(queues[|weights|])
      ensures more == steps + (if k < |arrivals| then ArrivalSteps(arrivals[k]) else [])
      ensures k == |arrivals| ==> queues[..] == old(queues[..])
    {
      if k < |arrivals| {
        more := ReceiveAll(arrivals[k], start, steps, visiting, amount);
        next := k + 1;
        assert arrivals[k..][1..] == arrivals[k + 1..];
      } else {
        next, more := k, steps;
      }
    }

    /** Sends the first request of the current queue and calls the user back with the lock released. */
    method SendNext(arrivals: seq<seq<Arrival>>, k: nat, amount: int, ghost start: State, ghost steps: seq<Step>)
      returns (next: nat, req: Request, ghost more: seq<Step>)
      requires Follows(start, steps, true, amount) && CanServe(Snapshot(true, amount))
      requires ArrivalsOk(arrivals) && k <= |arrivals|
      modifies queues, this`reqnb
      ensures Follows(start, more, true, amount - req.len) && next == (if k < |arrivals| then k + 1 else k)
      ensures AllSent(weights, start, more) == AllSent(weights, start, steps) + [Arrival(current, req)]
      ensures Remaining(arrivals, next) == old(Remaining(arrivals, k)) - 1
              && queues[|weights|] == old(queues[|weights|])
    {
      req := SendFirst(amount, start, steps);
      next, more := Unlocked(arrivals, k, start, steps + [Serve], true, amount - req.len);
    }

    lemma RemainingNonNegative(arrivals: seq<seq<Arrival>>, k: nat)
      requires k <= |arrivals| && reqnb == Sum(queues[..], SIZE)
      ensures Remaining(arrivals, k) >= 0 && reqnb >= 0
    {
      SumNonNegative(arrivals[k..], BATCH);
      SumNonNegative(queues[..], SIZE);
    }

    /** The inner loop of a visit: requests are sent as long as the amount covers the first one. */
    method SendCovered(arrivals: seq<seq<Arrival>>, k: nat, budget: int, ghost start: State, ghost steps: seq<Step>)
      returns (next: nat, amount: int, out: seq<Arrival>, ghost more: seq<Step>)
      requires Follows(start, steps, true, budget) && ArrivalsOk(arrivals) && k <= |arrivals|
      modifies queues, this`reqnb
      ensures Follows(start, more, true, amount) && !CanServe(Snapshot(true, amount)) && k <= next <= |arrivals|
      ensures AllSent(weights, start, more) == AllSent(weights, start, steps) + out
      ensures Remaining(arrivals, next) == old(Remaining(arrivals, k)) - |out|
              && queues[|weights|] == old(queues[|weights|])
      ensures out == [] ==> amount == budget && queues[..] == old(queues[..])
    {
      next, amount, out, more := k, budget, [], steps;
      ghost var before := AllSent(weights, start, steps);
      RemainingNonNegative(arrivals, next);
      while queues[current] != []
        invariant Follows(start, more, true, amount) && k <= next <= |arrivals|
        invariant AllSent(weights, start, more) == before + out
        invariant Remaining(arrivals, next) == old(Remaining(arrivals, k)) - |out| >= 0
        invariant queues[|weights|] == old(queues[|weights|])
        invariant out == [] ==> amount == budget && queues[..] == old(queues[..])
        decreases Remaining(arrivals, next)
      {
        if amount - queues[current][0].len >= 0 {
          var req;
          next, req, more := SendNext(arrivals, next, amount, start, more);
          Regroup(before, out, [Arrival(current, req)]);
          amount := amount - req.len;
          out := out + [Arrival(current, req)];
          RemainingNonNegative(arrivals, next);
        } else {
          break;
        }
      }
    }

    lemma BeginFollows(start: State, steps: seq<Step>, last: int)
      requires Follows(start, steps, false, last) && reqnb > 0
      ensures Enabled(weights, Snapshot(false, last), Begin)
      ensures Follows(start, steps + [Begin], true, weights[current] + credit[current])
      ensures AllSent(weights, start, steps + [Begin]) == AllSent(weights, start, steps)
      ensures Snapshot(true, weights[current] + credit[current]) == Next(weights, Snapshot(false, last), Begin)
    {
      SumZero(queues[..], SIZE);
      assert (steps + [Begin])[..|steps|] == steps;
    }

    /** The start of a visit: the budget is fixed before the lock is taken. */
    method StartVisit(arrivals: seq<seq<Arrival>>, k: nat, ghost start: State, ghost steps: seq<Step>, ghost last: int)
      returns (next: nat, budget: int, ghost more: seq<Step>)
      requires Follows(start, steps, false, last) && reqnb > 0 && ArrivalsOk(arrivals) && k <= |arrivals|
      modifies queues, this`reqnb
      ensures Follows(start, more, true, budget) && next == (if k < |arrivals| then k + 1 else k)
      ensures AllSent(weights, start, more) == AllSent(weights, start, steps)
      ensures Remaining(arrivals, next) == old(Remaining(arrivals, k)) && queues[|weights|] == old(queues[|weights|])
      ensures Enabled(weights, old(Snapshot(false, last)), Begin)
      ensures k == |arrivals| ==> Snapshot(true, budget) == Next(weights, old(Snapshot(false, last)), Begin)
    {
      BeginFollows(start, steps, last);
      budget := weights[current] + credit[current];
      next, more := Unlocked(arrivals, k, start, steps + [Begin], true, budget);
    }

    /**
     * One iteration of the outer loop: a visit to the current queue. `arrivals` says what arrives
     * each time the lock is free.
     */
    method Visit(arrivals: seq<seq<Arrival>>, k: nat, ghost start: State, ghost steps: seq<Step>, ghost last: int)
      returns (next: nat, out: seq<Arrival>, ghost more: seq<Step>, ghost left: int)
      requires Follows(start, steps, false, last) && reqnb > 0 && ArrivalsOk(arrivals) && k <= |arrivals|
      modifies credit, queues, this
      ensures Follows(start, more, false, left) && k <= next <= |arrivals|
      ensures AllSent(weights, start, more) == AllSent(weights, start, steps) + out
      ensures Remaining(arrivals, next) == old(Remaining(arrivals, k)) - |out|
              && queues[|weights|] == old(queues[|weights|])
      ensures k < |arrivals| ==> next > k
      ensures k == |arrivals| && out == [] ==>
                var s := old(Snapshot(false, last));
                && Enabled(weights, s, Begin) && !CanServe(Next(weights, s, Begin))
                && Snapshot(false, left) == Next(weights, Next(weights, s, Begin), Finish)
    {
      var budget, amount;
      next, budget, more := StartVisit(arrivals, k, start, steps, last);
      next, amount, out, more := SendCovered(arrivals, next, budget, start, more);
      FinishVisit(amount, start, more);
      more := more + [Finish];
      left := amount;
    }

    /** An idle visit without further arrivals makes the termination measure of the outer loop smaller. */
    lemma IdleProgress(s: State, t: State)
      requires WellFormed(weights, s) && !s.visiting && CreditsOk(s)
      requires Sum(s.queues, SIZE) > 0 && s.queues[|weights|] == []
      requires Enabled(weights, s, Begin) && !CanServe(Next(weights, s, Begin))
      requires t == Next(weights, Next(weights, s, Begin), Finish)
      ensures Deficit(t, |weights|) < Deficit(s, |weights|) ||
              (Deficit(t, |weights|) == Deficit(s, |weights|) &&
               Gap(t.queues, |weights|, t.current, |weights|) < Gap(s.queues, |weights|, s.current, |weights|))
    {
      SumZero(s.queues, SIZE);
      var x :| x in s.queues && x != [];
      var q :| 0 <= q < |s.queues| && s.queues[q] == x;
      IdleVisitProgress(weights, s, q);
    }

    lemma FollowsFacts(start: State, steps: seq<Step>, left: int, arrivals: seq<seq<Arrival>>, k: nat)
      requires Follows(start, steps, false, left) && k <= |arrivals|
      ensures Valid() && WellFormed(weights, Snapshot(false, left)) && CreditsOk(Snapshot(false, left))
      ensures Deficit(Snapshot(false, left), |weights|) >= 0 && Remaining(arrivals, k) >= 0 && reqnb >= 0
    {
      RunKeepsCredits(weights, start, steps);
      DeficitNonNegative(weights, Snapshot(false, left), |weights|);
      RemainingNonNegative(arrivals, k);
      assert forall q :: 0 <= q < |weights| && CreditOk(Snapshot(false, left), q) ==> CreditOk(Snapshot(false, 0), q);
    }

    /**
     * The scheduler: visits the queues in turn until no request is left. Terminates if requests
     * come only to queues that it visits.
     */
    method Run(arrivals: seq<seq<Arrival>>) returns (sent: seq<Arrival>, ghost steps: seq<Step>)
      requires Valid() && ArrivalsOk(arrivals) && queues[|weights|] == []
      modifies credit, queues, this
      ensures Valid() && reqnb == 0 && forall q :: 0 <= q < queues.Length ==> queues[q] == []
      ensures ValidRun(weights, old(Snapshot(false, 0)), steps)
      ensures exists left :: Exec(weights, old(Snapshot(false, 0)), steps) == Snapshot(false, left)
      ensures forall q: nat :: q < |weights| ==>
                OfQueue(sent, q) == old(queues[..])[q] + Arrived(steps, q)
    {
      ghost var start, left := Snapshot(false, 0), 0;
      sent, steps := [], [];
      var next := 0;
      FollowsFacts(start, steps, left, arrivals, next);
      while reqnb > 0
        invariant Follows(start, steps, false, left) && next <= |arrivals|
        invariant sent == AllSent(weights, start, steps)
        invariant queues[|weights|] == [] && reqnb >= 0
        decreases Remaining(arrivals, next), |arrivals| - next, Deficit(Snapshot(false, left), |weights|),
                  Gap(queues[..], |weights|, current, |weights|)
      {
        ghost var s := Snapshot(false, left);
        FollowsFacts(start, steps, left, arrivals, next);
        var out;
        ghost var before := next;
        next, out, steps, left := Visit(arrivals, next, start, steps, left);
        sent := sent + out;
        if out == [] && before == |arrivals| {
          IdleProgress(s, Snapshot(false, left));
        }
        FollowsFacts(start, steps, left, arrivals, next);
      }
      FollowsFacts(start, steps, left, arrivals, next);
      SumZero(queues[..], SIZE);
      assert forall q :: 0 <= q < queues.Length ==> queues[q] in queues[..];
      forall q: nat | q < |weights| ensures OfQueue(sent, q) == old(queues[..])[q] + Arrived(steps, q) {
        SentIsOfQueue(weights, start, steps, q);
        FifoPerQueue(weights, start, steps, q);
      }
    }
  }

  lemma OneMoreArrival(steps: seq<Step>, batch: seq<Arrival>, n: nat)
    requires n < |batch|
    ensures steps + ArrivalSteps(batch[..n + 1]) ==
            (steps + ArrivalSteps(batch[..n])) + [Step.Arrive(batch[n].queue, batch[n].request)]
  {
    assert batch[..n + 1][..n] == batch[..n];
  }

  function ArrivalSteps(batch: seq<Arrival>): seq<Step>
  {
    if batch == [] then [] else
      var n := |batch| - 1;
      ArrivalSteps(batch[..n]) + [Step.Arrive(batch[n].queue, batch[n].request)]
  }
}
