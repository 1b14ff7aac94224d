/**
 * The scheduling loops of TO and SJF: what every iteration keeps while further requests arrive each
 * time the locks are free.
 */
module Serving {
  import opened Requests
  import opened Sequences
  import opened Aggregation
  import opened Lifecycle
  import R = LifecycleRuns
  import opened Sjf
  import TL = Timeline

  function UserIds(rs: seq<Request>): seq<int>
  {
    seq(|rs|, k requires 0 <= k < |rs| => rs[k].userId)
  }

  /** The user ids of each of the groups. */
  ghost function IdsOf(groups: seq<seq<Request>>): (ids: seq<seq<int>>)
    ensures |ids| == |groups| && forall n :: 0 <= n < |ids| ==> ids[n] == UserIds(groups[n])
  {
    seq(|groups|, n requires 0 <= n < |groups| => UserIds(groups[n]))
  }

  lemma IdsOfOneMore(groups: seq<seq<Request>>, gone: seq<Request>)
    ensures IdsOf(groups + [gone]) == IdsOf(groups) + [UserIds(gone)]
  {
  }

  // ---------------------------------------------------------------------------------------------
  // Arrivals
  // ---------------------------------------------------------------------------------------------

  const SAME: seq<Request> -> seq<Request> := (b: seq<Request>) => b

  /** The requests of all batches, one batch after the other. */
  function All(batches: seq<seq<Request>>): seq<Request>
  {
    FlatMap(batches, SAME)
  }

  /** What arrives after iteration `n`. */
  function BatchAt(arrivals: seq<seq<Request>>, n: nat): seq<Request>
  {
    if n < |arrivals| then arrivals[n] else []
  }

  /** What arrived in the first `n` iterations. */
  function Arrived(arrivals: seq<seq<Request>>, n: nat): seq<Request>
  {
    All(if n <= |arrivals| then arrivals[..n] else arrivals)
  }

  /** What is still to arrive after them. */
  function Coming(arrivals: seq<seq<Request>>, n: nat): seq<Request>
  {
    All(if n <= |arrivals| then arrivals[n..] else [])
  }

  /** How many requests are queued or still to come. */
  function Left(c: Contents, arrivals: seq<seq<Request>>, n: nat): int
  {
    c.reqnb + |Coming(arrivals, n)|
  }

  lemma NextBatch(arrivals: seq<seq<Request>>, n: nat)
    ensures Arrived(arrivals, n + 1) == Arrived(arrivals, n) + BatchAt(arrivals, n)
    ensures Coming(arrivals, n) == BatchAt(arrivals, n) + Coming(arrivals, n + 1)
  {
    if n < |arrivals| {
      assert arrivals[..n + 1] == arrivals[..n] + [arrivals[n]];
      FlatMapConcat(arrivals[..n], [arrivals[n]], SAME);
      FlatMapOne(arrivals[n], SAME);
    } else {
      assert n == |arrivals| ==> arrivals[..n] == arrivals && arrivals[n..] == [];
    }
  }

  /** From `c` to `d` just the requests of `batch` were added. */
  ghost predicate Received(c: Contents, d: Contents, mode: Mode, batch: seq<Request>)
  {
    && R.Held(d) == R.Held(c) + multiset(batch)
    && multiset(Pending(d)) == multiset(Pending(c)) + multiset(batch)
    && d.timeline == if mode.needsHashtable then c.timeline else TL.AddAllToTimeline(c.timeline, batch, mode.cap)
  }

  lemma ReceivedNothing(c: Contents, mode: Mode)
    ensures Received(c, c, mode, [])
  {
  }

  lemma AddedToTimeline(h: int -> nat, c: Contents, mode: Mode, r: Request)
    requires h(r.file) < |c.table| == |c.counter|
    ensures R.AddRequest(h, c, mode, r).timeline ==
            if mode.needsHashtable then c.timeline else TL.AddToTimeline(c.timeline, r, mode.cap)
  {
  }

  lemma AddIsReceived(h: int -> nat, c: Contents, mode: Mode, r: Request)
    requires Inv(h, c) && h(r.file) < LINES
    ensures Received(c, R.AddRequest(h, c, mode, r), mode, [r])
  {
    R.AddHeld(h, c, mode, r);
    AddedToTimeline(h, c, mode, r);
    TL.AddAllSnoc(c.timeline, [], r, mode.cap);
  }

  lemma ReceivedOneMore(c: Contents, d: Contents, e: Contents, mode: Mode, batch: seq<Request>, n: nat)
    requires n < |batch| && Received(c, d, mode, batch[..n]) && Received(d, e, mode, [batch[n]])
    ensures Received(c, e, mode, batch[..n + 1])
  {
    assert batch[..n + 1] == batch[..n] + [batch[n]];
    Onward(R.Held(c), R.Held(d), R.Held(e), batch[..n], [batch[n]]);
    Onward(multiset(Pending(c)), multiset(Pending(d)), multiset(Pending(e)), batch[..n], [batch[n]]);
    TL.AddAllSnoc(c.timeline, batch[..n], batch[n], mode.cap);
    TL.AddAllSnoc(d.timeline, [], batch[n], mode.cap);
  }

  /** First `x` came and then `y`. */
  lemma Onward<X>(a: multiset<X>, b: multiset<X>, c: multiset<X>, x: seq<X>, y: seq<X>)
    requires b == a + multiset(x) && c == b + multiset(y)
    ensures c == a + multiset(x + y)
  {
  }

  /** `queued` were queued at first and `arrived` came until `out` were sent; then `gone` were sent and `batch` came. */
  lemma Carried<X>(queued: seq<X>, before: seq<X>, after: seq<X>, out: seq<X>, arrived: seq<X>, gone: seq<X>,
                   batch: seq<X>)
    requires multiset(out) + multiset(before) == multiset(queued) + multiset(arrived)
    requires multiset(after) + multiset(gone) == multiset(before) + multiset(batch)
    ensures multiset(out + gone) + multiset(after) == multiset(queued) + multiset(arrived + batch)
  {
    forall x ensures (multiset(out + gone) + multiset(after))[x] == (multiset(queued) + multiset(arrived + batch))[x] {
      assert (multiset(out) + multiset(before))[x] == (multiset(queued) + multiset(arrived))[x];
      assert (multiset(after) + multiset(gone))[x] == (multiset(before) + multiset(batch))[x];
      assert multiset(out + gone)[x] == multiset(out)[x] + multiset(gone)[x];
      assert multiset(arrived + batch)[x] == multiset(arrived)[x] + multiset(batch)[x];
    }
  }

  lemma ReqnbCountsPending(h: int -> nat, c: Contents)
    requires Inv(h, c)
    ensures c.reqnb == |Pending(c)| >= 0
    ensures OnlyTimeline(c) ==> c.reqnb == |Members(c.timeline)|
    ensures c.reqnb <= 0 ==> Pending(c) == [] && Members(c.timeline) == []
  {
    SumConstant(Pending(c), ONE, 1);
  }

  lemma SameNumber<X>(a: seq<X>, b: seq<X>, c: seq<X>, d: seq<X>)
    requires multiset(a) + multiset(b) == multiset(c) + multiset(d)
    ensures |a| + |b| == |c| + |d|
  {
    assert multiset(a + b) == multiset(c + d);
    assert |multiset(a + b)| == |a + b| && |multiset(c + d)| == |c + d|;
  }

  // ---------------------------------------------------------------------------------------------
  // TO
  // ---------------------------------------------------------------------------------------------

  /** No request is in a queue of the hashtable. */
  predicate OnlyTimeline(c: Contents)
  {
    FlatMap(c.table, OF_LINE) == []
  }

  lemma OldestFacts(h: int -> nat, c: Contents)
    requires Inv(h, c) && OnlyTimeline(c) && c.reqnb > 0
    ensures c.timeline != [] && c.timeline[0].members != []
    ensures Members(c.timeline) == c.timeline[0].members + Members(c.timeline[1..])
  {
    ReqnbCountsPending(h, c);
    assert TimedShape(h, c, c.timeline[0]);
  }

  /** From `c` to `d` the oldest entry, with the requests `gone`, was sent. */
  ghost predicate OldestGone(c: Contents, d: Contents, gone: seq<Request>)
  {
    && c.timeline != [] && gone == c.timeline[0].members != [] && d.timeline == c.timeline[1..]
    && OnlyTimeline(d) && R.Held(d) == R.Held(c)
  }

  /** If the requests in the timeline account for all, none is elsewhere. */
  lemma OnlyTimelineIff(c: Contents)
    ensures OnlyTimeline(c) <==> |Pending(c)| == |Members(c.timeline)|
  {
  }

  lemma OldestLeaves(h: int -> nat, c: Contents)
    requires Inv(h, c) && R.OldestReady(h, c) && OnlyTimeline(c)
    ensures OldestGone(c, R.DispatchOldest(h, c), c.timeline[0].members)
  {
    var d := R.DispatchOldest(h, c);
    assert Members(c.timeline) == c.timeline[0].members + Members(c.timeline[1..]);
    R.DispatchOldestHeld(h, c);
    R.DispatchOldestPending(h, c);
    SameNumber(Pending(d), c.timeline[0].members, Pending(c), []);
    OnlyTimelineIff(c);
    OnlyTimelineIff(d);
  }

  /** From `c` to `e` the oldest entry was sent, and then `batch` arrived. */
  ghost predicate SentOldest(c: Contents, e: Contents, mode: Mode, batch: seq<Request>, gone: seq<Request>)
  {
    exists d :: OldestGone(c, d, gone) && Received(d, e, mode, batch)
  }

  lemma OldestIsSent(c: Contents, e: Contents, mode: Mode, batch: seq<Request>, gone: seq<Request>)
    requires SentOldest(c, e, mode, batch, gone) && !mode.needsHashtable
    ensures c.timeline != [] && gone == c.timeline[0].members != [] && OnlyTimeline(e)
    ensures e.timeline == TL.AddAllToTimeline(c.timeline[1..], batch, mode.cap)
    ensures R.Held(e) == R.Held(c) + multiset(batch)
  {
    var d :| OldestGone(c, d, gone) && Received(d, e, mode, batch);
    TL.AddAllMembers(d.timeline, batch, mode.cap);
    SameNumber(Pending(e), [], Pending(d), batch);
    SameNumber(Members(e.timeline), [], Members(d.timeline), batch);
    OnlyTimelineIff(d);
    OnlyTimelineIff(e);
  }

  /** From `c` to `d` the requests `out` were sent and the requests `arrived` added, first come first served. */
  ghost predicate InTimeOrder(c: Contents, d: Contents, out: seq<Request>, arrived: seq<Request>, cap: int)
  {
    && OnlyTimeline(d) && R.Held(d) == R.Held(c) + multiset(arrived)
    && multiset(out) + multiset(Members(d.timeline)) == multiset(Members(c.timeline)) + multiset(arrived)
    && (cap <= 1 ==> out + Members(d.timeline) == Members(c.timeline) + arrived)
  }

  lemma StillInTimeOrder(c: Contents, d: Contents, e: Contents, mode: Mode, batch: seq<Request>, out: seq<Request>,
                         arrived: seq<Request>, gone: seq<Request>)
    requires InTimeOrder(c, d, out, arrived, mode.cap) && SentOldest(d, e, mode, batch, gone) && !mode.needsHashtable
    ensures InTimeOrder(c, e, out + gone, arrived + batch, mode.cap)
  {
    OldestIsSent(d, e, mode, batch, gone);
    var rest := Members(d.timeline[1..]);
    assert Members(d.timeline) == gone + rest;
    TL.AddAllMembers(d.timeline[1..], batch, mode.cap);
    Carried(Members(c.timeline), Members(d.timeline), Members(e.timeline), out, arrived, gone, batch);
    Onward(R.Held(c), R.Held(d), R.Held(e), arrived, batch);
    if mode.cap <= 1 {
      InOrder(Members(c.timeline), rest, out, arrived, gone, batch);
    }
  }

  lemma InOrder<X>(queued: seq<X>, rest: seq<X>, out: seq<X>, arrived: seq<X>, gone: seq<X>, batch: seq<X>)
    requires out + (gone + rest) == queued + arrived
    ensures (out + gone) + (rest + batch) == queued + (arrived + batch)
  {
    assert (out + gone) + (rest + batch) == (out + (gone + rest)) + batch;
  }

  /**
   * In every iteration, from one of the `states` to the next, the first entry of the timeline was
   * sent, and then the next batch arrived.
   */
  ghost predicate OldestFirst(states: seq<Contents>, c: Contents, d: Contents, mode: Mode, arrivals: seq<seq<Request>>,
                              groups: seq<seq<Request>>)
  {
    && |states| == |groups| + 1 && states[0] == c && states[|groups|] == d
    && forall n :: 0 <= n < |groups| ==> SentOldest(states[n], states[n + 1], mode, BatchAt(arrivals, n), groups[n])
  }

  /** What holds after some iterations of TO. */
  ghost predicate InOrderSoFar(c: Contents, d: Contents, mode: Mode, arrivals: seq<seq<Request>>, states: seq<Contents>,
                               groups: seq<seq<Request>>)
  {
    && OldestFirst(states, c, d, mode, arrivals, groups)
    && InTimeOrder(c, d, All(groups), Arrived(arrivals, |groups|), mode.cap)
  }

  lemma StartInOrder(c: Contents, mode: Mode, arrivals: seq<seq<Request>>)
    requires OnlyTimeline(c)
    ensures InOrderSoFar(c, c, mode, arrivals, [c], [])
  {
    assert Arrived(arrivals, 0) == [] && All([]) == [];
  }

  /** A chain of states in which each leads to the next is longer by one. */
  lemma OneMoreLink<S, G>(states: seq<S>, e: S, groups: seq<G>, gone: G, leads: (S, S, nat, G) -> bool)
    requires |states| == |groups| + 1
    requires forall k :: 0 <= k < |groups| ==> leads(states[k], states[k + 1], k, groups[k])
    requires leads(states[|groups|], e, |groups|, gone)
    ensures var s, g := states + [e], groups + [gone]; forall k :: 0 <= k < |g| ==> leads(s[k], s[k + 1], k, g[k])
  {
  }

  lemma OneMoreServed(states: seq<Contents>, c: Contents, d: Contents, e: Contents, mode: Mode,
                      arrivals: seq<seq<Request>>, n: nat, groups: seq<seq<Request>>, gone: seq<Request>)
    requires OldestFirst(states, c, d, mode, arrivals, groups)
    requires n == |groups| && SentOldest(d, e, mode, BatchAt(arrivals, n), gone)
    ensures OldestFirst(states + [e], c, e, mode, arrivals, groups + [gone])
  {
    OneMoreLink(states, e, groups, gone,
                (x: Contents, y: Contents, k: nat, g: seq<Request>) => SentOldest(x, y, mode, BatchAt(arrivals, k), g));
  }

  lemma FewerToServe(h: int -> nat, d: Contents, e: Contents, mode: Mode, batch: seq<Request>, gone: seq<Request>)
    requires OnlyTimeline(d) && Inv(h, d) && Inv(h, e) && SentOldest(d, e, mode, batch, gone) && !mode.needsHashtable
    ensures e.reqnb < d.reqnb + |batch|
  {
    OldestIsSent(d, e, mode, batch, gone);
    TL.AddAllMembers(d.timeline[1..], batch, mode.cap);
    SameNumber(Members(e.timeline), [], Members(d.timeline[1..]), batch);
    assert Members(d.timeline) == gone + Members(d.timeline[1..]);
    ReqnbCountsPending(h, d);
    ReqnbCountsPending(h, e);
  }

  lemma InOrderAdvances(h: int -> nat, c: Contents, d: Contents, e: Contents, mode: Mode, arrivals: seq<seq<Request>>,
                        states: seq<Contents>, n: nat, groups: seq<seq<Request>>, gone: seq<Request>)
    requires InOrderSoFar(c, d, mode, arrivals, states, groups) && Inv(h, d) && Inv(h, e) && !mode.needsHashtable
    requires n == |groups| && SentOldest(d, e, mode, BatchAt(arrivals, n), gone)
    ensures InOrderSoFar(c, e, mode, arrivals, states + [e], groups + [gone])
    ensures Left(e, arrivals, n + 1) < Left(d, arrivals, n)
  {
    OneMoreServed(states, c, d, e, mode, arrivals, n, groups, gone);
    NextBatch(arrivals, n);
    FlatMapConcat(groups, [gone], SAME);
    FlatMapOne(gone, SAME);
    StillInTimeOrder(c, d, e, mode, BatchAt(arrivals, n), All(groups), Arrived(arrivals, n), gone);
    FewerToServe(h, d, e, mode, BatchAt(arrivals, n), gone);
  }

  lemma AllServed(h: int -> nat, c: Contents, d: Contents, out: seq<Request>, arrived: seq<Request>, cap: int)
    requires Inv(h, d) && d.reqnb <= 0 && InTimeOrder(c, d, out, arrived, cap)
    ensures d.reqnb == 0 && multiset(out) == multiset(Members(c.timeline)) + multiset(arrived)
    ensures cap <= 1 ==> out == Members(c.timeline) + arrived
  {
    ReqnbCountsPending(h, d);
  }

  // The oldest request is always in the group that is sent.

  /** The timeline is in order, and the requests still to come have later and later timestamps. */
  ghost predicate StampedInOrder(t: seq<Entry>, coming: seq<Request>)
  {
    && TL.TimelineOk(t) && StrictlyIncreasing(coming, TIMESTAMP)
    && forall r :: r in coming ==> TL.NewerThanAll(t, r)
  }

  ghost predicate HoldsOldest(c: Contents, gone: seq<Request>)
  {
    exists m :: m in gone && forall x :: x in Pending(c) ==> m.timestamp <= x.timestamp
  }

  ghost predicate OldestAlwaysSent(states: seq<Contents>, groups: seq<seq<Request>>)
    requires |states| == |groups| + 1
  {
    forall n :: 0 <= n < |groups| ==> HoldsOldest(states[n], groups[n])
  }

  lemma AddKeepsStamped(t: seq<Entry>, r: Request, coming: seq<Request>, cap: int)
    requires StampedInOrder(t, [r] + coming)
    ensures StampedInOrder(TL.AddToTimeline(t, r, cap), coming)
  {
    var all := [r] + coming;
    assert all[0] == r && all[1..] == coming;
    TL.AddKeepsTimeOrder(t, r, cap);
    TailIncreasing(all, TIMESTAMP);
    forall x | x in coming ensures TL.NewerThanAll(TL.AddToTimeline(t, r, cap), x) {
      var k :| 0 <= k < |coming| && coming[k] == x;
      assert all[k + 1] == x && TIMESTAMP(all[0]) < TIMESTAMP(all[k + 1]);
      forall m | m in Members(TL.AddToTimeline(t, r, cap)) ensures m.timestamp < x.timestamp {
        assert m in multiset(Members(TL.AddToTimeline(t, r, cap)));
        assert x in all;
      }
    }
  }

  lemma {:induction false} AddAllKeepsStamped(t: seq<Entry>, batch: seq<Request>, coming: seq<Request>, cap: int)
    requires StampedInOrder(t, batch + coming)
    ensures StampedInOrder(TL.AddAllToTimeline(t, batch, cap), coming)
    decreases |batch|
  {
    if batch == [] {
      assert batch + coming == coming;
    } else {
      var n := |batch| - 1;
      assert batch + coming == batch[..n] + ([batch[n]] + coming);
      AddAllKeepsStamped(t, batch[..n], [batch[n]] + coming, cap);
      AddKeepsStamped(TL.AddAllToTimeline(t, batch[..n], cap), batch[n], coming, cap);
    }
  }

  lemma TailStamped(t: seq<Entry>, coming: seq<Request>)
    requires StampedInOrder(t, coming) && t != []
    ensures StampedInOrder(t[1..], coming)
  {
    TL.TailOk(t);
    assert Members(t) == t[0].members + Members(t[1..]);
  }

  lemma HeadIsOldest(c: Contents)
    requires OnlyTimeline(c) && c.timeline != [] && TL.TimelineOk(c.timeline)
    ensures HoldsOldest(c, c.timeline[0].members)
  {
    TL.HeadHoldsOldest(c.timeline);
    assert Pending(c) == Members(c.timeline);
  }

  lemma {:induction false} StatesStamped(states: seq<Contents>, c: Contents, d: Contents, mode: Mode,
                                         arrivals: seq<seq<Request>>, groups: seq<seq<Request>>, n: nat)
    requires OldestFirst(states, c, d, mode, arrivals, groups) && n <= |groups| && !mode.needsHashtable
    requires OnlyTimeline(c) && StampedInOrder(c.timeline, All(arrivals))
    ensures OnlyTimeline(states[n]) && StampedInOrder(states[n].timeline, Coming(arrivals, n))
    decreases n
  {
    if n == 0 {
      assert arrivals[0..] == arrivals;
    } else {
      var m := n - 1;
      StatesStamped(states, c, d, mode, arrivals, groups, m);
      NextBatch(arrivals, m);
      OldestIsSent(states[m], states[n], mode, BatchAt(arrivals, m), groups[m]);
      TailStamped(states[m].timeline, Coming(arrivals, m));
      AddAllKeepsStamped(states[m].timeline[1..], BatchAt(arrivals, m), Coming(arrivals, n), mode.cap);
    }
  }

  /** If requests are stamped in the order of their arrival, each group sent holds the oldest of those queued. */
  lemma OldestIsAlwaysSent(states: seq<Contents>, c: Contents, d: Contents, mode: Mode, arrivals: seq<seq<Request>>,
                           groups: seq<seq<Request>>)
    requires OldestFirst(states, c, d, mode, arrivals, groups) && !mode.needsHashtable
    requires OnlyTimeline(c) && StampedInOrder(c.timeline, All(arrivals))
    ensures OldestAlwaysSent(states, groups)
  {
    forall n | 0 <= n < |groups| ensures HoldsOldest(states[n], groups[n]) {
      StatesStamped(states, c, d, mode, arrivals, groups, n);
      OldestIsSent(states[n], states[n + 1], mode, BatchAt(arrivals, n), groups[n]);
      HeadIsOldest(states[n]);
    }
  }

  // ---------------------------------------------------------------------------------------------
  // SJF
  // ---------------------------------------------------------------------------------------------

  /** All requests, those of `coming` included, have positive lengths that add up to less than LONG_MAX. */
  predicate ToSend(c: Contents, coming: seq<Request>)
  {
    && c.timeline == [] && AllPositive(Pending(c)) && AllPositive(coming)
    && Sum(Pending(c), LENGTH) + Sum(coming, LENGTH) < LONG_MAX
  }

  lemma SizeBelowTotal(h: int -> nat, c: Contents, i: nat, j: nat, k: Kind)
    requires Searchable(h, c) && i < LINES && j < |c.table[i]|
    ensures c.table[i][j].Queue(k).size <= Sum(Pending(c), LENGTH)
  {
    assert LineCounts(c.table[i], Pending(c)) && FileCounts(c.table[i][j], Pending(c));
    SumAtMost(Pending(c), BytesOf(c.table[i][j].id, k), LENGTH);
  }

  lemma {:induction false} SumAtMost(rs: seq<Request>, f: Request -> int, g: Request -> int)
    requires forall r :: r in rs ==> f(r) <= g(r)
    ensures Sum(rs, f) <= Sum(rs, g)
  {
    if rs == [] {
    } else {
      SumAtMost(rs[1..], f, g);
    }
  }

  /** A queued request is in some queue. */
  lemma QueueHolding(c: Contents, r: Request) returns (x: nat, y: nat, k: Kind)
    requires c.timeline == [] && r in Pending(c)
    ensures x < |c.table| && y < |c.table[x]| && c.table[x][y].Queue(k).list != []
  {
    InFlatMap(c.table, r, OF_LINE);
    x :| 0 <= x < |c.table| && r in OF_LINE(c.table[x]);
    InFlatMap(c.table[x], r, OF_FILE);
    y :| 0 <= y < |c.table[x]| && r in OF_FILE(c.table[x][y]);
    k := if r in Members(c.table[x][y].read.list) then Read else Write;
  }

  /** While requests are queued the search finds a queue. */
  lemma SomeQueueChosen(h: int -> nat, c: Contents, coming: seq<Request>, choice: Choice)
    requires Inv(h, c) && ToSend(c, coming) && c.reqnb > 0
    requires choice.NoQueue? ==> Shortest(c, LONG_MAX)
    ensures choice.Chosen?
  {
    ReqnbCountsPending(h, c);
    var x, y, k := QueueHolding(c, Pending(c)[0]);
    SizeBelowTotal(h, c, x, y, k);
    SumNonNegative(coming, LENGTH);
  }

  /** The queue has requests, no queue with requests is shorter, and none before it is as short. */
  ghost predicate ShortestQueue(c: Contents, i: nat, j: nat, k: Kind)
  {
    && i < |c.table| && j < |c.table[i]| && c.table[i][j].Queue(k).list != []
    && Shortest(c, c.table[i][j].Queue(k).size) && EarlierLonger(c, Chosen(i, j, k), c.table[i][j].Queue(k).size)
  }

  ghost predicate GoneFrom(c: Contents, d: Contents, gone: seq<Request>, i: nat, j: nat, k: Kind)
  {
    && ShortestQueue(c, i, j, k) && gone == c.table[i][j].Queue(k).list[0].members
    && i < |c.counter| && d == R.DispatchFromQueue(c, i, j, k, 0)
  }

  /** From `c` to `d` the first entry of a shortest queue, with the requests `gone`, was sent. */
  ghost predicate ShortestGone(c: Contents, d: Contents, gone: seq<Request>)
  {
    exists i, j, k :: GoneFrom(c, d, gone, i, j, k)
  }

  /** From `c` to `e` such an entry was sent, and then `batch` arrived. */
  ghost predicate SentShortest(c: Contents, e: Contents, mode: Mode, batch: seq<Request>, gone: seq<Request>)
  {
    exists d :: ShortestGone(c, d, gone) && Received(d, e, mode, batch)
  }

  lemma GoneFromFacts(h: int -> nat, c: Contents, d: Contents, gone: seq<Request>, i: nat, j: nat, k: Kind)
    requires Shape(h, c) && |c.counter| == LINES && GoneFrom(c, d, gone, i, j, k)
    ensures multiset(Pending(d)) + multiset(gone) == multiset(Pending(c)) && gone != []
    ensures R.Held(d) == R.Held(c) && d.timeline == c.timeline
  {
    R.DispatchHeld(h, c, i, j, k, 0);
    R.DispatchPending(h, c, i, j, k, 0);
    R.QueueHasShape(h, c, i, j, k);
    assert c.table[i][j].Queue(k).list[0] in c.table[i][j].Queue(k).list;
  }

  lemma ShortestLeaves(h: int -> nat, c: Contents, d: Contents, gone: seq<Request>)
    requires Shape(h, c) && |c.counter| == LINES && ShortestGone(c, d, gone)
    ensures multiset(Pending(d)) + multiset(gone) == multiset(Pending(c)) && gone != []
    ensures R.Held(d) == R.Held(c) && d.timeline == c.timeline
  {
    var i, j, k :| GoneFrom(c, d, gone, i, j, k);
    GoneFromFacts(h, c, d, gone, i, j, k);
  }

  lemma SentFacts(h: int -> nat, c: Contents, e: Contents, mode: Mode, batch: seq<Request>, gone: seq<Request>)
    requires Inv(h, c) && SentShortest(c, e, mode, batch, gone)
    ensures multiset(Pending(e)) + multiset(gone) == multiset(Pending(c)) + multiset(batch) && gone != []
    ensures R.Held(e) == R.Held(c) + multiset(batch) && (mode.needsHashtable ==> e.timeline == c.timeline)
  {
    var d :| ShortestGone(c, d, gone) && Received(d, e, mode, batch);
    ShortestLeaves(h, c, d, gone);
    ThenReceived(c, d, e, mode, batch, gone);
  }

  lemma ThenReceived(c: Contents, d: Contents, e: Contents, mode: Mode, batch: seq<Request>, gone: seq<Request>)
    requires multiset(Pending(d)) + multiset(gone) == multiset(Pending(c)) && R.Held(d) == R.Held(c)
             && d.timeline == c.timeline
    requires Received(d, e, mode, batch)
    ensures multiset(Pending(e)) + multiset(gone) == multiset(Pending(c)) + multiset(batch)
    ensures R.Held(e) == R.Held(c) + multiset(batch) && (mode.needsHashtable ==> e.timeline == c.timeline)
  {
  }

  lemma PositiveAfter(after: seq<Request>, gone: seq<Request>, before: seq<Request>, come: seq<Request>)
    requires multiset(after) + multiset(gone) == multiset(before) + multiset(come)
    requires AllPositive(before) && AllPositive(come)
    ensures AllPositive(after) && Sum(after, LENGTH) <= Sum(before, LENGTH) + Sum(come, LENGTH)
  {
    forall r | r in after || r in gone ensures r.len > 0 {
      assert r in multiset(after) + multiset(gone);
      assert r in multiset(before) || r in multiset(come);
    }
    SumBalance(after, gone, before, come, LENGTH);
    SumNonNegative(gone, LENGTH);
  }

  lemma PositiveParts(a: seq<Request>, b: seq<Request>)
    requires AllPositive(a + b)
    ensures AllPositive(a) && AllPositive(b) && Sum(b, LENGTH) >= 0
    ensures Sum(a + b, LENGTH) == Sum(a, LENGTH) + Sum(b, LENGTH)
  {
    forall r | r in a || r in b ensures r in a + b {}
    SumConcat(a, b, LENGTH);
    SumNonNegative(b, LENGTH);
  }

  /** An iteration leaves the total of what is queued and what is to come below the limit. */
  lemma StillToSend(h: int -> nat, c: Contents, e: Contents, mode: Mode, batch: seq<Request>, coming: seq<Request>,
                    gone: seq<Request>)
    requires Inv(h, c) && ToSend(c, batch + coming) && mode.needsHashtable
    requires SentShortest(c, e, mode, batch, gone)
    ensures ToSend(e, coming)
  {
    SentFacts(h, c, e, mode, batch, gone);
    PositiveParts(batch, coming);
    PositiveAfter(Pending(e), gone, Pending(c), batch);
  }

  lemma FewerToSend(h: int -> nat, c: Contents, e: Contents, mode: Mode, batch: seq<Request>, gone: seq<Request>)
    requires Inv(h, c) && Inv(h, e) && SentShortest(c, e, mode, batch, gone)
    ensures e.reqnb < c.reqnb + |batch|
  {
    SentFacts(h, c, e, mode, batch, gone);
    SameNumber(Pending(e), gone, Pending(c), batch);
    ReqnbCountsPending(h, c);
    ReqnbCountsPending(h, e);
  }

  /**
   * In every iteration, from one of the `states` to the next, a first entry of a shortest queue was
   * sent, and then the next batch arrived.
   */
  ghost predicate ShortestFirst(states: seq<Contents>, c: Contents, d: Contents, mode: Mode,
                                arrivals: seq<seq<Request>>, groups: seq<seq<Request>>)
  {
    && |states| == |groups| + 1 && states[0] == c && states[|groups|] == d
    && forall n :: 0 <= n < |groups| ==> SentShortest(states[n], states[n + 1], mode, BatchAt(arrivals, n), groups[n])
  }

  /** What was sent and what is queued is what was queued at first and what arrived. */
  ghost predicate Balance(c: Contents, d: Contents, out: seq<Request>, arrived: seq<Request>)
  {
    && R.Held(d) == R.Held(c) + multiset(arrived)
    && multiset(out) + multiset(Pending(d)) == multiset(Pending(c)) + multiset(arrived)
  }

  lemma BalanceAdvances(h: int -> nat, c: Contents, d: Contents, e: Contents, mode: Mode, out: seq<Request>,
                        arrived: seq<Request>, batch: seq<Request>, gone: seq<Request>)
    requires Balance(c, d, out, arrived) && Inv(h, d) && SentShortest(d, e, mode, batch, gone)
    ensures Balance(c, e, out + gone, arrived + batch)
  {
    SentFacts(h, d, e, mode, batch, gone);
    Carried(Pending(c), Pending(d), Pending(e), out, arrived, gone, batch);
    Onward(R.Held(c), R.Held(d), R.Held(e), arrived, batch);
  }

  /** What holds after some iterations of SJF. */
  ghost predicate Sending(c: Contents, d: Contents, mode: Mode, arrivals: seq<seq<Request>>, states: seq<Contents>,
                          groups: seq<seq<Request>>)
  {
    && ToSend(d, Coming(arrivals, |groups|)) && ShortestFirst(states, c, d, mode, arrivals, groups)
    && Balance(c, d, All(groups), Arrived(arrivals, |groups|))
  }

  lemma StartSending(c: Contents, mode: Mode, arrivals: seq<seq<Request>>)
    requires ToSend(c, All(arrivals))
    ensures Sending(c, c, mode, arrivals, [c], [])
  {
    assert arrivals[0..] == arrivals;
    assert Arrived(arrivals, 0) == [] && All([]) == [];
  }

  lemma OneMoreState(states: seq<Contents>, c: Contents, d: Contents, e: Contents, mode: Mode,
                     arrivals: seq<seq<Request>>, groups: seq<seq<Request>>, gone: seq<Request>)
    requires ShortestFirst(states, c, d, mode, arrivals, groups)
    requires SentShortest(d, e, mode, BatchAt(arrivals, |groups|), gone)
    ensures ShortestFirst(states + [e], c, e, mode, arrivals, groups + [gone])
  {
  }

  lemma SendingAdvances(h: int -> nat, c: Contents, d: Contents, e: Contents, mode: Mode, arrivals: seq<seq<Request>>,
                        states: seq<Contents>, n: nat, groups: seq<seq<Request>>, gone: seq<Request>)
    requires Sending(c, d, mode, arrivals, states, groups) && Inv(h, d) && Inv(h, e) && mode.needsHashtable
    requires n == |groups| && SentShortest(d, e, mode, BatchAt(arrivals, n), gone)
    ensures Sending(c, e, mode, arrivals, states + [e], groups + [gone])
    ensures Left(e, arrivals, n + 1) < Left(d, arrivals, n)
  {
    OneMoreState(states, c, d, e, mode, arrivals, groups, gone);
    NextBatch(arrivals, n);
    FlatMapConcat(groups, [gone], SAME);
    FlatMapOne(gone, SAME);
    BalanceAdvances(h, c, d, e, mode, All(groups), Arrived(arrivals, n), BatchAt(arrivals, n), gone);
    StillToSend(h, d, e, mode, BatchAt(arrivals, n), Coming(arrivals, n + 1), gone);
    FewerToSend(h, d, e, mode, BatchAt(arrivals, n), gone);
  }

  lemma AllSent(h: int -> nat, c: Contents, d: Contents, out: seq<Request>, arrived: seq<Request>)
    requires Inv(h, d) && d.reqnb <= 0 && Balance(c, d, out, arrived)
    ensures d.reqnb == 0 && multiset(out) == multiset(Pending(c)) + multiset(arrived)
  {
    ReqnbCountsPending(h, d);
  }
}
