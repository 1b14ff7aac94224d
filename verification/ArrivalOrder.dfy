/**
 * Whether the order in which requests arrive, and what was dispatched in between, leaves a trace in
 * the queue: exactly when more requests than the size cap allows follow each other without a gap.
 */
module ArrivalOrder {
  import opened Requests
  import opened Sequences
  import opened Aggregation
  import opened Tiling
  import opened NormalForm

  /** Requests of positive length in order of offset that do not overlap. */
  ghost predicate Disjoint(ms: seq<Request>)
  {
    && (forall k :: 0 <= k < |ms| ==> ms[k].len > 0)
    && (forall i, j :: 0 <= i < j < |ms| ==> ms[i].End() <= ms[j].offset)
  }

  /** A run without overlaps after which exactly the requests `ms` are pending. */
  ghost predicate Leaves(evs: seq<Event>, ms: seq<Request>, cap: int)
  {
    NoOverlap([], evs, cap) && multiset(Members(Run([], evs, cap))) == multiset(ms)
  }

  /** All runs that leave these requests pending leave the same queue. */
  ghost predicate OrderIrrelevant(ms: seq<Request>, cap: int)
  {
    forall evs, others :: Leaves(evs, ms, cap) && Leaves(others, ms, cap) ==> Run([], evs, cap) == Run([], others, cap)
  }

  // ---------------------------------------------------------------------------------------------
  // When the order does not matter
  // ---------------------------------------------------------------------------------------------

  lemma DisjointInOrder(ms: seq<Request>)
    requires Disjoint(ms)
    ensures StrictlyIncreasing(ms, OFFSET)
  {
  }

  /** The members of a queue that a run leaves are the pending requests in order. */
  lemma LeftInOrder(evs: seq<Event>, ms: seq<Request>, cap: int)
    requires cap >= 1 && Disjoint(ms) && Leaves(evs, ms, cap)
    ensures var q := Run([], evs, cap); Tiled(q, cap) && QueueOk(q, cap) && Members(q) == ms
  {
    var q := Run([], evs, cap);
    NoOverlapPositive(evs, cap);
    EveryDisjointRunIsTiled(evs, cap);
    EveryRunKeepsQueueOk(evs, cap);
    MembersInOffsetOrder(q, cap);
    DisjointInOrder(ms);
    SortedUnique(Members(q), ms, OFFSET);
  }

  /**
   * Two runs without overlaps that leave the same requests pending leave identical queues, if the cap
   * is one or no more requests than it allows follow each other without a gap.
   */
  lemma ArrivalOrderIrrelevant(evs: seq<Event>, others: seq<Event>, ms: seq<Request>, cap: int)
    requires cap >= 1 && Disjoint(ms) && Leaves(evs, ms, cap) && Leaves(others, ms, cap)
    requires CapDoesNotMatter(ms, cap)
    ensures Run([], evs, cap) == Run([], others, cap)
  {
    LeftInOrder(evs, ms, cap);
    LeftInOrder(others, ms, cap);
    TilingUnique(Run([], evs, cap), Run([], others, cap), cap);
  }

  // ---------------------------------------------------------------------------------------------
  // Arrivals only
  // ---------------------------------------------------------------------------------------------

  function Arriving(rs: seq<Request>): (evs: seq<Event>)
    ensures |evs| == |rs| && forall k :: 0 <= k < |rs| ==> evs[k] == Arrive(rs[k])
  {
    seq(|rs|, k requires 0 <= k < |rs| => Arrive(rs[k]))
  }

  lemma ArrivingSnoc(rs: seq<Request>, n: nat)
    requires n <= |rs|
    ensures Arriving(rs)[..n] == Arriving(rs[..n])
  {
  }

  /** Requests of positive length of which no two overlap, in any order. */
  ghost predicate PairwiseApart(rs: seq<Request>)
  {
    && (forall k :: 0 <= k < |rs| ==> rs[k].len > 0)
    && (forall i, j :: 0 <= i < j < |rs| ==> Apart(rs[i], rs[j]))
  }

  lemma ArrivingStep(rs: seq<Request>, cap: int)
    requires rs != []
    ensures var n := |rs| - 1; Run([], Arriving(rs), cap) == Add(Run([], Arriving(rs[..n]), cap), rs[n], cap)
  {
    ArrivingSnoc(rs, |rs| - 1);
  }

  lemma {:induction false} ArrivingRun(rs: seq<Request>, cap: int)
    ensures multiset(Members(Run([], Arriving(rs), cap))) == multiset(rs)
  {
    if rs == [] {
    } else {
      var n := |rs| - 1;
      ArrivingRun(rs[..n], cap);
      ArrivingStep(rs, cap);
      AddAddsExactly(Run([], Arriving(rs[..n]), cap), rs[n], cap);
      LastInMultiset(rs);
    }
  }

  /** Requests of which no two overlap can arrive in any order. */
  lemma ArrivingLeaves(rs: seq<Request>, cap: int)
    requires PairwiseApart(rs)
    ensures Leaves(Arriving(rs), rs, cap)
  {
    ArrivingRun(rs, cap);
    var evs := Arriving(rs);
    forall n | 0 <= n < |evs| && evs[n].Arrive?
      ensures evs[n].request.len > 0 && ApartFromAll(Run([], evs[..n], cap), evs[n].request)
    {
      ArrivingSnoc(rs, n);
      ArrivingRun(rs[..n], cap);
      forall m | m in Members(Run([], evs[..n], cap)) ensures Apart(m, rs[n]) {
        assert m in multiset(rs[..n]);
        var i :| 0 <= i < n && rs[i] == m;
      }
    }
  }

  // ---------------------------------------------------------------------------------------------
  // When the order matters
  // ---------------------------------------------------------------------------------------------

  /** An addition never changes an entry that is as large as the cap allows. */
  lemma FullEntryStays(q: seq<Entry>, r: Request, cap: int, x: Entry)
    requires x in q && x.Size() == cap
    ensures x in Add(q, r, cap)
  {
    var k := InsertionPoint(q, r);
    var (i, j, e) := Merged(q, k, r, cap);
    var n :| 0 <= n < |q| && q[n] == x;
    var a := Add(q, r, cap);
    if n < i {
      assert a[n] == x;
    } else {
      assert j <= n;
      assert a[n - j + i + 1] == x;
    }
  }

  lemma {:induction false} FullEntryStaysInRun(rs: seq<Request>, n: nat, cap: int, x: Entry)
    requires n <= |rs| && x in Run([], Arriving(rs[..n]), cap) && x.Size() == cap
    ensures x in Run([], Arriving(rs), cap)
    decreases |rs|
  {
    if n == |rs| {
      assert rs[..n] == rs;
    } else {
      var l := |rs| - 1;
      assert rs[..l][..n] == rs[..n];
      FullEntryStaysInRun(rs[..l], n, cap, x);
      ArrivingStep(rs, cap);
      FullEntryStays(Run([], Arriving(rs[..l]), cap), rs[l], cap, x);
    }
  }

  /** `n` of the requests in a row, from position `i`, each beginning where the one before ends. */
  ghost predicate Chain(ms: seq<Request>, i: nat, n: nat)
  {
    i + n <= |ms| && forall k :: i < k < i + n ==> !GapAt(ms, k)
  }

  lemma PartDisjoint(ms: seq<Request>, i: nat, n: nat)
    requires Disjoint(ms) && i + n <= |ms|
    ensures Disjoint(ms[i..i + n])
  {
  }

  lemma DisjointApart(ms: seq<Request>)
    requires Disjoint(ms)
    ensures PairwiseApart(ms)
  {
  }

  /** A queue of requests without gaps that fit in one entry is one entry. */
  lemma ChainIsOneEntry(q: seq<Entry>, rs: seq<Request>, cap: int)
    requires Tiled(q, cap) && Members(q) == rs && 1 <= |rs| <= cap && forall k :: 0 < k < |rs| ==> !GapAt(rs, k)
    ensures q != [] && q[0].members == rs
  {
    FirstEntryIsMaximalPrefix(q, cap);
    var n := q[0].Size();
    assert n < |rs| ==> !GapAt(rs, n);
    assert rs[..|rs|] == rs;
  }

  /** A chain that just fills an entry, arriving alone, becomes one entry. */
  lemma ChainFillsEntry(ms: seq<Request>, i: nat, cap: nat)
    requires cap >= 1 && Disjoint(ms) && Chain(ms, i, cap)
    ensures var q := Run([], Arriving(ms[i..i + cap]), cap); q != [] && q[0].members == ms[i..i + cap]
  {
    var rs := ms[i..i + cap];
    PartDisjoint(ms, i, cap);
    DisjointApart(rs);
    ArrivingLeaves(rs, cap);
    LeftInOrder(Arriving(rs), rs, cap);
    forall k | 0 < k < |rs| ensures !GapAt(rs, k) {
      assert !GapAt(ms, i + k);
    }
    ChainIsOneEntry(Run([], Arriving(rs), cap), rs, cap);
  }

  /** The requests at [i, i + n) first, then all others. */
  function PartFirst(ms: seq<Request>, i: nat, n: nat): seq<Request>
    requires i + n <= |ms|
  {
    ms[i..i + n] + (ms[..i] + ms[i + n..])
  }

  lemma PartFirstSame(ms: seq<Request>, i: nat, n: nat)
    requires i + n <= |ms|
    ensures multiset(PartFirst(ms, i, n)) == multiset(ms) && PartFirst(ms, i, n)[..n] == ms[i..i + n]
  {
    var a, b, c := ms[..i], ms[i..i + n], ms[i + n..];
    assert ms == a + b + c;
  }

  /** Where a request of the rearranged list was before. */
  function Origin(i: nat, n: nat, k: nat): nat
  {
    if k < n then i + k else if k < n + i then k - n else k
  }

  lemma PartFirstAt(ms: seq<Request>, i: nat, n: nat, k: nat)
    requires i + n <= |ms| && k < |ms|
    ensures |PartFirst(ms, i, n)| == |ms| && Origin(i, n, k) < |ms| && PartFirst(ms, i, n)[k] == ms[Origin(i, n, k)]
  {
  }

  lemma PartFirstApart(ms: seq<Request>, i: nat, n: nat)
    requires Disjoint(ms) && i + n <= |ms|
    ensures PairwiseApart(PartFirst(ms, i, n))
  {
    var rs := PartFirst(ms, i, n);
    forall k | 0 <= k < |rs| ensures rs[k].len > 0 {
      PartFirstAt(ms, i, n, k);
    }
    forall k, l | 0 <= k < l < |rs| ensures Apart(rs[k], rs[l]) {
      PartFirstAt(ms, i, n, k);
      PartFirstAt(ms, i, n, l);
      assert Origin(i, n, k) != Origin(i, n, l);
    }
  }

  /** When a chain that fills an entry arrives first, it is still an entry in the end. */
  lemma ChainFirst(ms: seq<Request>, i: nat, cap: nat) returns (x: Entry)
    requires cap >= 1 && Disjoint(ms) && Chain(ms, i, cap)
    ensures Leaves(Arriving(PartFirst(ms, i, cap)), ms, cap)
    ensures x in Run([], Arriving(PartFirst(ms, i, cap)), cap) && x.members == ms[i..i + cap]
  {
    var rs := PartFirst(ms, i, cap);
    PartFirstSame(ms, i, cap);
    PartFirstApart(ms, i, cap);
    ArrivingLeaves(rs, cap);
    ChainFillsEntry(ms, i, cap);
    x := Run([], Arriving(ms[i..i + cap]), cap)[0];
    FullEntryStaysInRun(rs, cap, cap, x);
  }

  /** No request is in two entries. */
  lemma OneEntryOf(q: seq<Entry>, cap: int, x: Entry, y: Entry, m: Request)
    requires Tiled(q, cap) && x in q && y in q && m in x.members && m in y.members
    ensures x == y
  {
    WithinTile(x, cap, m);
    WithinTile(y, cap, m);
    var a :| 0 <= a < |q| && q[a] == x;
    var b :| 0 <= b < |q| && q[b] == y;
  }

  lemma WithinTile(e: Entry, cap: int, m: Request)
    requires TileFits(e, cap) && m in e.members
    ensures e.offset <= m.offset < m.End() <= e.End()
  {
    TileLength(e);
    ContiguousFacts(e.members);
  }

  /** A queue is not divided into entries in two ways. */
  lemma ShiftedPartIsNoEntry(q: seq<Entry>, ms: seq<Request>, i: nat, j: nat, cap: nat, x: Entry, y: Entry)
    requires Tiled(q, cap) && cap >= 2 && Disjoint(ms) && j == i + 1 && j + cap <= |ms| && x in q
    requires x.members == ms[i..i + cap] && y.members == ms[j..j + cap]
    ensures y !in q
  {
    assert x.members[1] == ms[j] && y.members[0] == ms[j] && x.members[0] == ms[i] != ms[j];
    if y in q {
      OneEntryOf(q, cap, x, y, ms[j]);
    }
  }

  lemma ShiftedPartLeftOut(evs: seq<Event>, ms: seq<Request>, i: nat, j: nat, cap: nat, x: Entry, y: Entry)
    requires cap >= 2 && Disjoint(ms) && Leaves(evs, ms, cap) && j == i + 1 && j + cap <= |ms|
    requires x in Run([], evs, cap) && x.members == ms[i..i + cap] && y.members == ms[j..j + cap]
    ensures y !in Run([], evs, cap)
  {
    LeftInOrder(evs, ms, cap);
    ShiftedPartIsNoEntry(Run([], evs, cap), ms, i, j, cap, x, y);
  }

  lemma PartsOfChain(ms: seq<Request>, i: nat, j: nat, n: nat)
    requires Chain(ms, i, n + 1) && j == i + 1
    ensures Chain(ms, i, n) && Chain(ms, j, n)
  {
  }

  /** With a chain longer than the cap, two orders of arrival divide it differently. */
  lemma LongChainDependsOnOrder(ms: seq<Request>, i: nat, j: nat, cap: nat)
    requires cap >= 2 && Disjoint(ms) && Chain(ms, i, cap + 1) && j == i + 1
    ensures var evs, others := Arriving(PartFirst(ms, i, cap)), Arriving(PartFirst(ms, j, cap));
            Leaves(evs, ms, cap) && Leaves(others, ms, cap) && Run([], evs, cap) != Run([], others, cap)
  {
    PartsOfChain(ms, i, j, cap);
    var x := ChainFirst(ms, i, cap);
    var y := ChainFirst(ms, j, cap);
    ShiftedPartLeftOut(Arriving(PartFirst(ms, i, cap)), ms, i, j, cap, x, y);
  }

  /**
   * The order of arrival does not matter if and only if the cap is one, or no more requests than it
   * allows follow each other without a gap.
   */
  lemma OrderIrrelevantIff(ms: seq<Request>, cap: int)
    requires cap >= 1 && Disjoint(ms)
    ensures OrderIrrelevant(ms, cap) <==> CapDoesNotMatter(ms, cap)
  {
    if CapDoesNotMatter(ms, cap) {
      forall evs, others | Leaves(evs, ms, cap) && Leaves(others, ms, cap)
        ensures Run([], evs, cap) == Run([], others, cap) {
        ArrivalOrderIrrelevant(evs, others, ms, cap);
      }
    } else {
      var i :| 0 <= i < |ms| - cap && !GapAfter(ms, i, cap);
      LongChainDependsOnOrder(ms, i, i + 1, cap);
    }
  }
}
