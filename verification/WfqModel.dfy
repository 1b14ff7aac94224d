/**
 * Weighted fair queueing as a transition system: arrivals may come at any moment, between and
 * within the visits of the scheduler to its queues.
 */
module WfqModel {
  import opened Requests
  import opened Sequences
  import opened Aggregation

  /**
   * `queues` has one list more than there are weights: the scheduler never visits the last one.
   * `amount` is what may still be sent in the visit going on.
   */
  datatype State = State(queues: seq<seq<Request>>, credit: seq<int>, current: nat, visiting: bool, amount: int)

  datatype Step = Arrive(queue: nat, request: Request) | Begin | Serve | Finish

  predicate WellFormed(w: seq<int>, s: State)
  {
    && |w| >= 1 && (forall q :: 0 <= q < |w| ==> w[q] > 0)
    && |s.credit| == |w| && |s.queues| == |w| + 1 && s.current < |w|
    && (forall q :: 0 <= q < |s.queues| ==> forall r :: r in s.queues[q] ==> r.len >= 0)
  }

  /** The queue visited now has a first request that the remaining amount covers. */
  predicate CanServe(s: State)
    requires s.current < |s.queues|
  {
    s.queues[s.current] != [] && s.amount - s.queues[s.current][0].len >= 0
  }

  predicate Enabled(w: seq<int>, s: State, step: Step)
    requires WellFormed(w, s)
  {
    match step
    case Arrive(q, r) => q < |s.queues| && r.len >= 0
    case Begin => !s.visiting && exists q :: 0 <= q < |s.queues| && s.queues[q] != []
    case Serve => s.visiting && CanServe(s)
    case Finish => s.visiting && !CanServe(s)
  }

  function Next(w: seq<int>, s: State, step: Step): (t: State)
    requires WellFormed(w, s) && Enabled(w, s, step)
    ensures WellFormed(w, t)
  {
    match step
    case Arrive(q, r) => s.(queues := s.queues[q := s.queues[q] + [r]])
    case Begin => s.(visiting := true, amount := w[s.current] + s.credit[s.current])
    case Serve =>
      s.(queues := s.queues[s.current := s.queues[s.current][1..]], amount := s.amount - s.queues[s.current][0].len)
    case Finish =>
      s.(visiting := false,
         credit := s.credit[s.current := if s.queues[s.current] != [] then s.amount else 0],
         current := (s.current + 1) % |w|)
  }

  // ---------------------------------------------------------------------------------------------
  // Runs
  // ---------------------------------------------------------------------------------------------

  ghost predicate ValidRun(w: seq<int>, s: State, steps: seq<Step>)
    decreases |steps|, 0
  {
    WellFormed(w, s) &&
    (steps != [] ==>
      var n := |steps| - 1;
      ValidRun(w, s, steps[..n]) && Enabled(w, Exec(w, s, steps[..n]), steps[n]))
  }

  ghost function Exec(w: seq<int>, s: State, steps: seq<Step>): (t: State)
    requires ValidRun(w, s, steps)
    ensures WellFormed(w, t)
    decreases |steps|, 1
  {
    if steps == [] then s else
      var n := |steps| - 1;
      Next(w, Exec(w, s, steps[..n]), steps[n])
  }

  /** The requests sent from queue `q`, in order. */
  ghost function Sent(w: seq<int>, s: State, steps: seq<Step>, q: nat): seq<Request>
    requires ValidRun(w, s, steps)
    decreases |steps|
  {
    if steps == [] then [] else
      var n := |steps| - 1;
      var t := Exec(w, s, steps[..n]);
      Sent(w, s, steps[..n], q) + (if steps[n].Serve? && t.current == q then [t.queues[q][0]] else [])
  }

  ghost function Bytes(w: seq<int>, s: State, steps: seq<Step>, q: nat): int
    requires ValidRun(w, s, steps)
  {
    Sum(Sent(w, s, steps, q), LENGTH)
  }

  /** How many visits to queue `q` were completed. */
  ghost function Visits(w: seq<int>, s: State, steps: seq<Step>, q: nat): nat
    requires ValidRun(w, s, steps)
    decreases |steps|
  {
    if steps == [] then 0 else
      var n := |steps| - 1;
      Visits(w, s, steps[..n], q) + (if steps[n].Finish? && Exec(w, s, steps[..n]).current == q then 1 else 0)
  }

  function AllVisits(steps: seq<Step>): nat
  {
    if steps == [] then 0 else
      var n := |steps| - 1;
      AllVisits(steps[..n]) + (if steps[n].Finish? then 1 else 0)
  }

  function Arrived(steps: seq<Step>, q: nat): seq<Request>
  {
    if steps == [] then [] else
      var n := |steps| - 1;
      Arrived(steps[..n], q) + (if steps[n].Arrive? && steps[n].queue == q then [steps[n].request] else [])
  }

  /** Queue `q` is not empty at the end of any visit to it. */
  ghost predicate Backlogged(w: seq<int>, s: State, steps: seq<Step>, q: nat)
    requires ValidRun(w, s, steps)
    decreases |steps|
  {
    steps != [] ==>
      var n := |steps| - 1;
      var t := Exec(w, s, steps[..n]);
      Backlogged(w, s, steps[..n], q) && (steps[n].Finish? && t.current == q ==> q < |t.queues| && t.queues[q] != [])
  }

  // ---------------------------------------------------------------------------------------------
  // Credits
  // ---------------------------------------------------------------------------------------------

  /** A credit is never negative, and a positive one is less than the first request of its queue needs. */
  predicate CreditOk(s: State, q: nat)
    requires q < |s.credit| && q < |s.queues|
  {
    s.credit[q] >= 0 && (s.credit[q] > 0 ==> s.queues[q] != [] && s.credit[q] < s.queues[q][0].len)
  }

  predicate CreditsOk(s: State)
    requires |s.credit| < |s.queues|
  {
    && (forall q :: 0 <= q < |s.credit| && !(s.visiting && q == s.current) ==> CreditOk(s, q))
    && (s.visiting ==> s.amount >= 0)
  }

  lemma StepKeepsCredits(w: seq<int>, s: State, step: Step)
    requires WellFormed(w, s) && Enabled(w, s, step) && CreditsOk(s)
    ensures CreditsOk(Next(w, s, step))
  {
    var t := Next(w, s, step);
    forall q | 0 <= q < |t.credit| && !(t.visiting && q == t.current) ensures CreditOk(t, q) {
      if !(s.visiting && q == s.current) { assert CreditOk(s, q); }
    }
    if step.Begin? { assert CreditOk(s, s.current); }
  }

  lemma {:induction false} RunKeepsCredits(w: seq<int>, s: State, steps: seq<Step>)
    requires ValidRun(w, s, steps) && CreditsOk(s)
    ensures CreditsOk(Exec(w, s, steps))
    decreases |steps|
  {
    if steps == [] {
    } else {
      var n := |steps| - 1;
      RunKeepsCredits(w, s, steps[..n]);
      StepKeepsCredits(w, Exec(w, s, steps[..n]), steps[n]);
    }
  }

  /** What queue `q` may still spend: the amount of the visit going on, or its credit. */
  function Balance(s: State, q: nat): int
    requires q < |s.credit|
  {
    if s.visiting && s.current == q then s.amount else s.credit[q]
  }

  function Started(s: State, q: nat): int
  {
    if s.visiting && s.current == q then 1 else 0
  }

  /** One step changes the two sides of the account of queue `q` by the same amount. */
  lemma StepAccount(w: seq<int>, t: State, step: Step, q: nat)
    requires WellFormed(w, t) && Enabled(w, t, step) && q < |w|
    requires step.Finish? && t.current == q ==> t.queues[q] != []
    ensures var u := Next(w, t, step);
            && Balance(u, q) + (if step.Serve? && t.current == q then t.queues[q][0].len else 0)
               == Balance(t, q) + (if step.Begin? && t.current == q then w[q] else 0)
            && Started(u, q) + (if step.Finish? && t.current == q then 1 else 0)
               == Started(t, q) + (if step.Begin? && t.current == q then 1 else 0)
  {
  }

  lemma Weighted(a: int, b: int, w: int)
    ensures (a + b) * w == a * w + b * w
  {
  }

  lemma Charged(credit: int, w: int, x: int, x': int, v: int, v': int)
    requires x == credit + v * w && ((v' == v && x' == x) || (v' == v + 1 && x' == x + w))
    ensures x' == credit + v' * w
  {
    Weighted(v, v' - v, w);
  }

  /** What queue `q` sent so far and may still spend. */
  ghost function Spent(w: seq<int>, s: State, steps: seq<Step>, q: nat): int
    requires ValidRun(w, s, steps) && q < |w|
  {
    Bytes(w, s, steps, q) + Balance(Exec(w, s, steps), q)
  }

  /** The visits to queue `q` begun so far. */
  ghost function Begun(w: seq<int>, s: State, steps: seq<Step>, q: nat): int
    requires ValidRun(w, s, steps) && q < |w|
  {
    Visits(w, s, steps, q) + Started(Exec(w, s, steps), q)
  }

  /** What queue `q` spent is what it had at first and one weight for each visit begun. */
  ghost predicate Balances(w: seq<int>, s: State, steps: seq<Step>, q: nat)
    requires ValidRun(w, s, steps) && q < |w|
  {
    Spent(w, s, steps, q) == s.credit[q] + Begun(w, s, steps, q) * w[q]
  }

  /** One step of a run changes the account of queue `q` by a weight if it begins a visit to it. */
  lemma AccountGrows(w: seq<int>, s: State, steps: seq<Step>, q: nat)
    requires ValidRun(w, s, steps) && q < |w| && Backlogged(w, s, steps, q) && steps != []
    ensures var past := steps[..|steps| - 1];
            var spent, begun := Spent(w, s, past, q), Begun(w, s, past, q);
            || (Spent(w, s, steps, q) == spent && Begun(w, s, steps, q) == begun)
            || (Spent(w, s, steps, q) == spent + w[q] && Begun(w, s, steps, q) == begun + 1)
  {
    SentGrows(w, s, steps, q);
    StepAccount(w, Exec(w, s, steps[..|steps| - 1]), steps[|steps| - 1], q);
  }

  lemma StepBalances(w: seq<int>, s: State, steps: seq<Step>, q: nat)
    requires ValidRun(w, s, steps) && q < |w| && Backlogged(w, s, steps, q) && steps != []
    requires Balances(w, s, steps[..|steps| - 1], q)
    ensures Balances(w, s, steps, q)
  {
    var past := steps[..|steps| - 1];
    AccountGrows(w, s, steps, q);
    Charged(s.credit[q], w[q], Spent(w, s, past, q), Spent(w, s, steps, q), Begun(w, s, past, q),
            Begun(w, s, steps, q));
  }

  /** A queue that never runs empty sends exactly its weights plus the credit it used up. */
  lemma {:induction false} Account(w: seq<int>, s: State, steps: seq<Step>, q: nat)
    requires ValidRun(w, s, steps) && !s.visiting && q < |w| && Backlogged(w, s, steps, q)
    ensures Balances(w, s, steps, q)
    decreases |steps|
  {
    if steps == [] {
    } else {
      Account(w, s, steps[..|steps| - 1], q);
      StepBalances(w, s, steps, q);
    }
  }

  lemma SentGrows(w: seq<int>, s: State, steps: seq<Step>, q: nat)
    requires ValidRun(w, s, steps) && steps != []
    ensures var n := |steps| - 1;
            var t := Exec(w, s, steps[..n]);
            Bytes(w, s, steps, q) == Bytes(w, s, steps[..n], q) +
              (if steps[n].Serve? && t.current == q then t.queues[q][0].len else 0)
  {
    var n := |steps| - 1;
    var t := Exec(w, s, steps[..n]);
    var sent := if steps[n].Serve? && t.current == q then [t.queues[q][0]] else [];
    SumConcat(Sent(w, s, steps[..n], q), sent, LENGTH);
    if sent != [] { assert sent[1..] == []; }
  }

  // ---------------------------------------------------------------------------------------------
  // Rounds
  // ---------------------------------------------------------------------------------------------

  /** How many visits after queue `from` queue `q` is due, in a round of `n`. */
  function RingDistance(from: nat, q: nat, n: nat): nat
    requires from < n && q < n
  {
    if q >= from then q - from else q + n - from
  }

  lemma NextInRing(c: nat, n: nat)
    requires c < n
    ensures (c + 1) % n == if c + 1 == n then 0 else c + 1
  {
  }

  /** `rounds` whole rounds of visits have been completed, and the next one as far as the current queue. */
  ghost predicate AfterRounds(w: seq<int>, s: State, steps: seq<Step>, rounds: nat)
    requires ValidRun(w, s, steps)
  {
    var d := RingDistance(s.current, Exec(w, s, steps).current, |w|);
    && AllVisits(steps) == rounds * |w| + d
    && forall q :: 0 <= q < |w| ==>
         Visits(w, s, steps, q) == rounds + (if RingDistance(s.current, q, |w|) < d then 1 else 0)
  }

  lemma FinishIsVisit(w: seq<int>, s: State, steps: seq<Step>, q: nat)
    requires ValidRun(w, s, steps) && steps != [] && steps[|steps| - 1].Finish? && q < |w|
    ensures var n := |steps| - 1;
            Visits(w, s, steps, q) ==
                Visits(w, s, steps[..n], q) + (if Exec(w, s, steps[..n]).current == q then 1 else 0)
  {
  }

  lemma FinishAdvancesRound(w: seq<int>, s: State, steps: seq<Step>, rounds: nat)
    requires ValidRun(w, s, steps) && steps != [] && steps[|steps| - 1].Finish?
    requires AfterRounds(w, s, steps[..|steps| - 1], rounds)
    ensures AfterRounds(w, s, steps, rounds) || AfterRounds(w, s, steps, rounds + 1)
  {
    var n, size := |steps| - 1, |w|;
    var c := Exec(w, s, steps[..n]).current;
    NextInRing(c, size);
    Weighted(rounds, 1, size);
    forall q | 0 <= q < size ensures Visits(w, s, steps, q) == Visits(w, s, steps[..n], q) + (if c == q then 1 else 0) {
      FinishIsVisit(w, s, steps, q);
    }
    if RingDistance(s.current, c, size) + 1 == size {
      assert AfterRounds(w, s, steps, rounds + 1);
    }
  }

  /** After whole rounds and part of one, the queues before the current one are one visit ahead. */
  lemma {:induction false} Rounds(w: seq<int>, s: State, steps: seq<Step>) returns (rounds: nat)
    requires ValidRun(w, s, steps) && !s.visiting
    ensures AfterRounds(w, s, steps, rounds)
    decreases |steps|
  {
    if steps == [] {
      rounds := 0;
    } else {
      var n := |steps| - 1;
      rounds := Rounds(w, s, steps[..n]);
      if steps[n].Finish? {
        FinishAdvancesRound(w, s, steps, rounds);
        if !AfterRounds(w, s, steps, rounds) {
          rounds := rounds + 1;
        }
      } else {
        assert forall q :: 0 <= q < |w| ==> Visits(w, s, steps, q) == Visits(w, s, steps[..n], q);
      }
    }
  }

  // ---------------------------------------------------------------------------------------------
  // Fairness
  // ---------------------------------------------------------------------------------------------

  ghost predicate LengthsAtMost(s: State, steps: seq<Step>, bound: int)
  {
    && (forall q, r :: 0 <= q < |s.queues| && r in s.queues[q] ==> r.len <= bound)
    && (forall n :: 0 <= n < |steps| && steps[n].Arrive? ==> steps[n].request.len <= bound)
  }

  lemma {:induction false} QueuedLengthsAtMost(w: seq<int>, s: State, steps: seq<Step>, bound: int)
    requires ValidRun(w, s, steps) && LengthsAtMost(s, steps, bound)
    ensures LengthsAtMost(Exec(w, s, steps), [], bound)
    decreases |steps|
  {
    if steps == [] {
    } else {
      var n := |steps| - 1;
      assert LengthsAtMost(s, steps[..n], bound);
      QueuedLengthsAtMost(w, s, steps[..n], bound);
    }
  }

  lemma CreditBelowBound(s: State, q: nat, bound: int)
    requires q < |s.credit| < |s.queues| && !s.visiting && CreditsOk(s) && LengthsAtMost(s, [], bound) && bound >= 1
    ensures 0 <= s.credit[q] <= bound - 1
  {
    assert CreditOk(s, q);
    if s.credit[q] > 0 { assert s.queues[q][0] in s.queues[q]; }
  }

  lemma Scaled(x: int, bound: int, w: int)
    requires -bound <= x <= bound && w > 0
    ensures -(bound * w) <= x * w <= bound * w
  {
  }

  lemma Expand(vi: int, vj: int, wi: int, wj: int, di: int, dj: int)
    ensures (vi * wi + di) * wj - (vj * wj + dj) * wi == (vi - vj) * (wi * wj) + di * wj - dj * wi
  {
    Weighted(vi * wi, di, wj);
    Weighted(vj * wj, dj, wi);
    assert vi * wi * wj == vi * (wi * wj);
    assert vj * wj * wi == vj * (wi * wj);
    Weighted(vi, -vj, wi * wj);
  }

  lemma Weighing(bi: int, bj: int, vi: int, vj: int, wi: int, wj: int, di: int, dj: int, m: int)
    requires bi == vi * wi + di && bj == vj * wj + dj
    requires -1 <= vi - vj <= 1 && wi > 0 && wj > 0 && -m <= di <= m && -m <= dj <= m
    ensures Abs(bi * wj - bj * wi) <= wi * wj + m * (wi + wj)
  {
    Expand(vi, vj, wi, wj, di, dj);
    Scaled(di, m, wj);
    Scaled(dj, m, wi);
    assert wi * wj > 0;
    Scaled(vi - vj, 1, wi * wj);
    Weighted(wi, wj, m);
  }

  function Abs(x: int): nat { if x < 0 then -x else x }

  /**
   * Fairness: over any stretch of complete visits in which two queues stay backlogged, what they
   * sent is proportional to their weights up to a constant.
   */
  lemma Fairness(w: seq<int>, s: State, steps: seq<Step>, i: nat, j: nat, bound: int)
    requires ValidRun(w, s, steps) && !s.visiting && !Exec(w, s, steps).visiting && CreditsOk(s)
    requires i < |w| && j < |w| && Backlogged(w, s, steps, i) && Backlogged(w, s, steps, j)
    requires LengthsAtMost(s, steps, bound) && bound >= 1
    ensures Abs(Bytes(w, s, steps, i) * w[j] - Bytes(w, s, steps, j) * w[i])
         <= w[i] * w[j] + (bound - 1) * (w[i] + w[j])
  {
    var t := Exec(w, s, steps);
    Account(w, s, steps, i);
    Account(w, s, steps, j);
    var rounds := Rounds(w, s, steps);
    RunKeepsCredits(w, s, steps);
    QueuedLengthsAtMost(w, s, steps, bound);
    CreditBelowBound(s, i, bound);
    CreditBelowBound(s, j, bound);
    CreditBelowBound(t, i, bound);
    CreditBelowBound(t, j, bound);
    Weighing(Bytes(w, s, steps, i), Bytes(w, s, steps, j), Visits(w, s, steps, i), Visits(w, s, steps, j), w[i], w[j],
             s.credit[i] - t.credit[i], s.credit[j] - t.credit[j], bound - 1);
  }

  // ---------------------------------------------------------------------------------------------
  // First in, first out, and no starvation
  // ---------------------------------------------------------------------------------------------

  function SentNow(t: State, step: Step, q: nat): seq<Request>
    requires t.current < |t.queues| && (step.Serve? ==> t.queues[t.current] != [])
  {
    if step.Serve? && t.current == q then [t.queues[q][0]] else []
  }

  function ArrivedNow(step: Step, q: nat): seq<Request>
  {
    if step.Arrive? && step.queue == q then [step.request] else []
  }

  lemma StepFifo(w: seq<int>, t: State, step: Step, q: nat)
    requires WellFormed(w, t) && Enabled(w, t, step) && q < |t.queues|
    ensures SentNow(t, step, q) + Next(w, t, step).queues[q] == t.queues[q] + ArrivedNow(step, q)
  {
  }

  lemma Reassociate<T>(sent: seq<T>, now: seq<T>, left: seq<T>, queue: seq<T>, new': seq<T>, start: seq<T>,
                       arrived: seq<T>)
    requires sent + queue == start + arrived && now + left == queue + new'
    ensures (sent + now) + left == start + (arrived + new')
  {
    assert (sent + now) + left == sent + (now + left);
    assert sent + (queue + new') == (sent + queue) + new';
    assert (start + arrived) + new' == start + (arrived + new');
  }

  /** What was sent from a queue, followed by what is left in it, is what it held and received. */
  lemma {:induction false} FifoPerQueue(w: seq<int>, s: State, steps: seq<Step>, q: nat)
    requires ValidRun(w, s, steps) && q < |s.queues|
    ensures Sent(w, s, steps, q) + Exec(w, s, steps).queues[q] == s.queues[q] + Arrived(steps, q)
    decreases |steps|
  {
    if steps != [] {
      var n := |steps| - 1;
      var t := Exec(w, s, steps[..n]);
      FifoPerQueue(w, s, steps[..n], q);
      StepFifo(w, t, steps[n], q);
      Reassociate(Sent(w, s, steps[..n], q), SentNow(t, steps[n], q), Exec(w, s, steps).queues[q],
              t.queues[q], ArrivedNow(steps[n], q), s.queues[q], Arrived(steps[..n], q));
    } else {
      assert [] + s.queues[q] == s.queues[q] + [];
    }
  }

  /** Nothing is ever sent from the last queue. */
  lemma {:induction false} LastQueueNeverSent(w: seq<int>, s: State, steps: seq<Step>)
    requires ValidRun(w, s, steps)
    ensures Sent(w, s, steps, |w|) == []
    ensures Exec(w, s, steps).queues[|w|] == s.queues[|w|] + Arrived(steps, |w|)
    decreases |steps|
  {
    if steps != [] {
      LastQueueNeverSent(w, s, steps[..|steps| - 1]);
    }
    FifoPerQueue(w, s, steps, |w|);
  }

  /** While request `k` of queue `q` has not been sent, the queue is backlogged. */
  lemma {:induction false} UnsentMeansBacklogged(w: seq<int>, s: State, steps: seq<Step>, q: nat, k: nat)
    requires ValidRun(w, s, steps) && q < |w| && k < |s.queues[q]| && |Sent(w, s, steps, q)| <= k
    ensures Backlogged(w, s, steps, q)
    decreases |steps|
  {
    if steps == [] {
    } else {
      var n := |steps| - 1;
      UnsentMeansBacklogged(w, s, steps[..n], q, k);
      FifoPerQueue(w, s, steps[..n], q);
    }
  }

  /** After a visit that left the queue backlogged, its first request exceeds its credit. */
  lemma {:induction false} VisitedHeadExceedsCredit(w: seq<int>, s: State, steps: seq<Step>, q: nat)
    requires ValidRun(w, s, steps) && !s.visiting && q < |w| && Backlogged(w, s, steps, q)
             && Visits(w, s, steps, q) >= 1
    ensures var t := Exec(w, s, steps);
            !(t.visiting && t.current == q) ==> t.queues[q] != [] && t.queues[q][0].len > t.credit[q]
    decreases |steps|
  {
    var n := |steps| - 1;
    var t := Exec(w, s, steps[..n]);
    if Visits(w, s, steps[..n], q) >= 1 {
      VisitedHeadExceedsCredit(w, s, steps[..n], q);
      StepKeepsHead(w, t, steps[n], q);
    }
  }

  lemma StepKeepsHead(w: seq<int>, t: State, step: Step, q: nat)
    requires WellFormed(w, t) && Enabled(w, t, step) && q < |w|
    requires !(t.visiting && t.current == q) ==> t.queues[q] != [] && t.queues[q][0].len > t.credit[q]
    ensures var u := Next(w, t, step);
            !(u.visiting && u.current == q) && !(t.visiting && t.current == q) ==>
              u.queues[q] != [] && u.queues[q][0].len > u.credit[q]
  {
  }

  lemma PrefixSums(rs: seq<Request>, m: nat, k: nat)
    requires m <= k < |rs| && forall r :: r in rs ==> r.len >= 0
    ensures Sum(rs[..m], LENGTH) + rs[m].len <= Sum(rs[..k + 1], LENGTH)
  {
    var mid, rest := [rs[m]], rs[m + 1..k + 1];
    SumConcat(rs[..m], mid, LENGTH);
    SumConcat(rs[..m] + mid, rest, LENGTH);
    assert rs[..k + 1] == rs[..m] + mid + rest;
    assert mid[1..] == [];
    forall r | r in rest ensures LENGTH(r) >= 0 { assert r in rs; }
    SumNonNegative(rest, LENGTH);
  }

  lemma {:induction false} UnsentMeansFewVisits(w: seq<int>, s: State, steps: seq<Step>, q: nat, k: nat)
    requires ValidRun(w, s, steps) && !s.visiting && q < |w| && k < |s.queues[q]|
    requires var t := Exec(w, s, steps); !(t.visiting && t.current == q)
    requires Visits(w, s, steps, q) >= 1 && |Sent(w, s, steps, q)| <= k
    ensures Visits(w, s, steps, q) * w[q] < Sum(s.queues[q][..k + 1], LENGTH) - s.credit[q]
  {
    var t, sent := Exec(w, s, steps), Sent(w, s, steps, q);
    var m := |sent|;
    FifoPerQueue(w, s, steps, q);
    var all := s.queues[q] + Arrived(steps, q);
    assert sent == all[..m] == s.queues[q][..m] && t.queues[q] == all[m..];
    UnsentMeansBacklogged(w, s, steps, q, k);
    Account(w, s, steps, q);
    VisitedHeadExceedsCredit(w, s, steps, q);
    PrefixSums(s.queues[q], m, k);
    assert t.queues[q][0] == s.queues[q][m];
  }

  /**
   * No starvation: the request at position `k` of queue `q` has been sent once the visits to the
   * queue since then, times its weight, cover the requests up to it minus the credit at hand.
   */
  lemma SentWithinVisits(w: seq<int>, s: State, steps: seq<Step>, q: nat, k: nat)
    requires ValidRun(w, s, steps) && !s.visiting && q < |w| && k < |s.queues[q]|
    requires var t := Exec(w, s, steps); !(t.visiting && t.current == q)
    requires Visits(w, s, steps, q) >= 1
    requires Visits(w, s, steps, q) * w[q] >= Sum(s.queues[q][..k + 1], LENGTH) - s.credit[q]
    ensures k < |Sent(w, s, steps, q)| && Sent(w, s, steps, q)[k] == s.queues[q][k]
  {
    if |Sent(w, s, steps, q)| <= k {
      UnsentMeansFewVisits(w, s, steps, q, k);
    }
    FifoPerQueue(w, s, steps, q);
    var sent := Sent(w, s, steps, q);
    assert sent[k] == (sent + Exec(w, s, steps).queues[q])[k];
  }

  lemma FewRounds(rounds: nat, d: nat, n: nat, visits: nat)
    requires d < n && rounds < visits
    ensures rounds * n + d < visits * n
  {
    Weighted(rounds, 1, n);
    Weighted(rounds + 1, visits - (rounds + 1), n);
    assert (visits - (rounds + 1)) * n >= 0;
  }

  lemma RoundsGiveVisits(rounds: nat, d: nat, n: nat, visits: nat)
    requires d < n && rounds * n + d >= visits * n
    ensures rounds >= visits
  {
    if rounds < visits {
      FewRounds(rounds, d, n, visits);
    }
  }

  lemma VisitsOfRounds(w: seq<int>, s: State, steps: seq<Step>, q: nat, visits: nat)
    requires ValidRun(w, s, steps) && !s.visiting && !Exec(w, s, steps).visiting && q < |w|
    requires AllVisits(steps) >= visits * |w|
    ensures Visits(w, s, steps, q) >= visits
  {
    var rounds := Rounds(w, s, steps);
    RoundsGiveVisits(rounds, RingDistance(s.current, Exec(w, s, steps).current, |w|), |w|, visits);
  }

  lemma MoreVisits(visits: nat, v: nat, weight: nat)
    requires v >= visits
    ensures v * weight >= visits * weight
  {
    Weighted(visits, v - visits, weight);
    assert (v - visits) * weight >= 0;
  }

  /** The same bound in visits of the scheduler to any queue: one round of visits per visit needed. */
  lemma SentWithinRounds(w: seq<int>, s: State, steps: seq<Step>, q: nat, k: nat, visits: nat)
    requires ValidRun(w, s, steps) && !s.visiting && !Exec(w, s, steps).visiting && q < |w| && k < |s.queues[q]|
    requires visits >= 1 && visits * w[q] >= Sum(s.queues[q][..k + 1], LENGTH) - s.credit[q]
    requires AllVisits(steps) >= visits * |w|
    ensures k < |Sent(w, s, steps, q)| && Sent(w, s, steps, q)[k] == s.queues[q][k]
  {
    VisitsOfRounds(w, s, steps, q, visits);
    MoreVisits(visits, Visits(w, s, steps, q), w[q]);
    SentWithinVisits(w, s, steps, q, k);
  }
}
