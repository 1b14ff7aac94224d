/**
 * What holds of an aggregating queue whatever overlaps and whatever was cancelled before: the
 * invariant that additions, dispatches and cancellations all keep, and when an addition leaves the
 * recorded interval exact.
 */
module Overlaps {
  import opened Requests
  import opened Aggregation
  import opened Cancellation

  /** The recorded end is the end of some member, though not always the last one. */
  ghost predicate EndsWithMember(e: Entry)
  {
    exists k :: 0 <= k < |e.members| && END(e.members[k]) == e.End()
  }

  /** Offset, arrival time and timestamp are the least of the members'. */
  ghost predicate SummaryOk(e: Entry)
  {
    && e.members != []
    && IsMinimum(e.offset, e.members, OFFSET)
    && IsMinimum(e.arrival, e.members, ARRIVAL)
    && IsMinimum(e.timestamp, e.members, TIMESTAMP)
    && EndsWithMember(e)
  }

  ghost predicate AllSummaryOk(q: seq<Entry>)
  {
    forall e :: e in q ==> SummaryOk(e)
  }

  ghost predicate WithinCap(q: seq<Entry>, cap: int)
  {
    forall e :: e in q ==> e.Size() <= cap
  }

  // ---------------------------------------------------------------------------------------------
  // One entry
  // ---------------------------------------------------------------------------------------------

  lemma HullIsSummary(e: Entry)
    requires HullOk(e)
    ensures SummaryOk(e)
  {
  }

  lemma SummaryIsSimple(e: Entry)
    requires SummaryOk(e)
    ensures SimpleOk(e)
  {
    if e.Size() == 1 {
      var ms := e.members;
      assert OFFSET(ms[0]) == e.offset && END(ms[0]) == e.End();
      assert ARRIVAL(ms[0]) == e.arrival && TIMESTAMP(ms[0]) == e.timestamp;
    }
  }

  lemma LoneSummary(r: Request)
    ensures SummaryOk(Lone(r)) && HullOk(Lone(r))
  {
    var m := Lone(r).members;
    assert m[0] == r && OFFSET(m[0]) == r.offset && END(m[0]) == r.End();
    assert ARRIVAL(m[0]) == r.arrival && TIMESTAMP(m[0]) == r.timestamp;
  }

  lemma AbsorbKeepsSummary(e: Entry, r: Request)
    requires SummaryOk(e)
    ensures SummaryOk(Absorb(e, r))
  {
    var a := Absorb(e, r);
    MinimumExtends(e.offset, a.offset, e.members, r, OFFSET);
    MinimumExtends(e.arrival, a.arrival, e.members, r, ARRIVAL);
    MinimumExtends(e.timestamp, a.timestamp, e.members, r, TIMESTAMP);
    var k :| 0 <= k < |e.members| && END(e.members[k]) == e.End();
    if r.offset <= e.offset {
      assert a.members[k + 1] == e.members[k];
    } else {
      assert a.members[|e.members|] == r;
    }
  }

  lemma {:induction false} AbsorbAllKeepsSummary(e: Entry, rs: seq<Request>)
    requires SummaryOk(e)
    ensures SummaryOk(AbsorbAll(e, rs)) && AbsorbAll(e, rs).Size() == e.Size() + |rs|
    decreases |rs|
  {
    if rs == [] {
    } else {
      AbsorbKeepsSummary(e, rs[0]);
      AbsorbAllKeepsSummary(Absorb(e, rs[0]), rs[1..]);
    }
  }

  /** The end of the last of `ms` that starts after `offset`, or else `end`. */
  function LastEndBeyond(ms: seq<Request>, offset: int, end: int): int
  {
    if ms == [] then end
    else
      var n := |ms| - 1;
      if ms[n].offset > offset then ms[n].End() else LastEndBeyond(ms[..n], offset, end)
  }

  /** Taking in requests that start no earlier leaves the offset, and the end of the last that starts later. */
  lemma {:induction false} AbsorbAllEnd(e: Entry, ms: seq<Request>)
    requires forall m :: m in ms ==> e.offset <= m.offset
    ensures AbsorbAll(e, ms).offset == e.offset && AbsorbAll(e, ms).End() == LastEndBeyond(ms, e.offset, e.End())
  {
    if ms == [] {
    } else {
      var n := |ms| - 1;
      AbsorbAllEnd(e, ms[..n]);
      AbsorbAllSnoc(e, ms, n);
      assert ms[..n + 1] == ms;
    }
  }

  lemma MembersStartLater(e: Entry, offset: int)
    requires e.members != [] && IsMinimum(e.offset, e.members, OFFSET) && offset <= e.offset
    ensures forall m :: m in e.members ==> offset <= m.offset
  {
    forall m | m in e.members ensures offset <= m.offset {
      var k :| 0 <= k < |e.members| && e.members[k] == m;
      assert e.offset <= OFFSET(e.members[k]);
    }
  }

  // ---------------------------------------------------------------------------------------------
  // One addition
  // ---------------------------------------------------------------------------------------------

  /** The end recorded after two entries were glued together by `r` and what was in the second one. */
  function GluedEnd(prev: Entry, r: Request, next: Entry): int
  {
    LastEndBeyond(next.members, prev.offset, if r.offset == prev.offset then prev.End() else r.End())
  }

  /** Where the entry that takes in `r` is recorded to end, from the neighbours of the insertion point. */
  function RecordedEnd(q: seq<Entry>, k: nat, r: Request, cap: int): int
    requires k <= |q|
  {
    if GluesEntries(q, k, r, cap) then GluedEnd(q[k - 1], r, q[k])
    else if JoinsPrevious(q, k, r, cap) then (if r.offset == q[k - 1].offset then q[k - 1].End() else r.End())
    else if JoinsNext(q, k, r, cap) then q[k].End()
    else r.End()
  }

  lemma GlueSummary(p: Entry, r: Request, n: Entry)
    requires SummaryOk(p) && SummaryOk(n) && p.offset <= r.offset && p.offset <= n.offset
    ensures var e := AbsorbAll(Absorb(p, r), n.members); SummaryOk(e) && e.End() == GluedEnd(p, r, n)
  {
    var a := Absorb(p, r);
    AbsorbKeepsSummary(p, r);
    AbsorbAllKeepsSummary(a, n.members);
    MembersStartLater(n, a.offset);
    AbsorbAllEnd(a, n.members);
  }

  lemma MergedSummary(q: seq<Entry>, k: nat, r: Request, cap: int)
    requires AllSummaryOk(q) && k <= |q|
    ensures SummaryOk(Merged(q, k, r, cap).2)
    ensures cap >= 1 ==> Merged(q, k, r, cap).2.Size() <= cap
  {
    if JoinsPrevious(q, k, r, cap) {
      AbsorbKeepsSummary(q[k - 1], r);
      if GluesEntries(q, k, r, cap) {
        AbsorbAllKeepsSummary(Absorb(q[k - 1], r), q[k].members);
      }
    } else if JoinsNext(q, k, r, cap) {
      AbsorbKeepsSummary(q[k], r);
    } else {
      LoneSummary(r);
    }
  }

  lemma MergedEnd(q: seq<Entry>, r: Request, cap: int)
    requires AllSummaryOk(q)
    ensures var k := InsertionPoint(q, r); Merged(q, k, r, cap).2.End() == RecordedEnd(q, k, r, cap)
  {
    var k := InsertionPoint(q, r);
    if GluesEntries(q, k, r, cap) {
      GlueSummary(q[k - 1], r, q[k]);
    }
  }

  lemma AddKeepsSummaries(q: seq<Entry>, r: Request, cap: int)
    requires AllSummaryOk(q)
    ensures AllSummaryOk(Add(q, r, cap))
    ensures WithinCap(q, cap) && cap >= 1 ==> WithinCap(Add(q, r, cap), cap)
  {
    var k := InsertionPoint(q, r);
    var (i, j, e) := Merged(q, k, r, cap);
    MergedSummary(q, k, r, cap);
    InSplice(q, i, j, e);
  }

  lemma CancelKeepsSummaries(q: seq<Entry>, len: int, offset: int, cap: int)
    requires AllSummaryOk(q)
    ensures AllSummaryOk(Cancel(q, len, offset))
    ensures WithinCap(q, cap) ==> WithinCap(Cancel(q, len, offset), cap)
  {
    var k := FindEntry(q, len, offset);
    if k < |q| && q[k].Size() > 1 {
      var rest := Without(q[k].members, FirstMatch(q[k].members, len, offset));
      RecomputedIsHull(rest);
      HullIsSummary(Recomputed(rest));
    }
  }

  // ---------------------------------------------------------------------------------------------
  // When an addition leaves the recorded interval exact
  // ---------------------------------------------------------------------------------------------

  lemma InAbsorbAll(e: Entry, rs: seq<Request>)
    ensures forall m :: m in AbsorbAll(e, rs).members <==> m in e.members || m in rs
  {
    AbsorbAllMembers(e, rs);
    forall m ensures m in AbsorbAll(e, rs).members <==> m in e.members || m in rs {
      assert m in AbsorbAll(e, rs).members <==> m in multiset(AbsorbAll(e, rs).members);
    }
  }

  ghost predicate EndBy(ms: seq<Request>, x: int)
  {
    forall m :: m in ms ==> m.End() <= x
  }

  lemma EndByAbsorbed(e: Entry, r: Request, x: int)
    ensures EndBy(Absorb(e, r).members, x) <==> EndBy(e.members, x) && r.End() <= x
  {
    assert forall m :: m in Absorb(e, r).members <==> m == r || m in e.members;
  }

  lemma EndByAllAbsorbed(e: Entry, rs: seq<Request>, x: int)
    ensures EndBy(AbsorbAll(e, rs).members, x) <==> EndBy(e.members, x) && EndBy(rs, x)
  {
    InAbsorbAll(e, rs);
  }

  /** A summary is a hull if and only if no member ends after it. */
  lemma HullIffNoneEndsLater(e: Entry)
    requires SummaryOk(e)
    ensures HullOk(e) <==> EndBy(e.members, e.End())
  {
    if EndBy(e.members, e.End()) {
      forall k | 0 <= k < |e.members| ensures END(e.members[k]) <= e.End() {
        assert e.members[k] in e.members;
      }
    } else {
      var m :| m in e.members && m.End() > e.End();
      var k :| 0 <= k < |e.members| && e.members[k] == m;
      assert END(e.members[k]) > e.End();
    }
  }

  lemma EndsBoundMembers(e: Entry, x: int)
    requires HullOk(e)
    ensures e.End() <= x <==> EndBy(e.members, x)
  {
    HullIsSummary(e);
    HullIffNoneEndsLater(e);
    var k :| 0 <= k < |e.members| && END(e.members[k]) == e.End();
    assert e.members[k] in e.members;
  }

  /**
   * Including a request keeps the interval exact if and only if the request does not stick out past
   * the end when it is attached at the front, and reaches the end when it is attached at the back.
   */
  lemma AbsorbKeepsHullIff(e: Entry, r: Request)
    requires HullOk(e)
    ensures HullOk(Absorb(e, r)) <==> if r.offset <= e.offset then r.End() <= e.End() else e.End() <= r.End()
  {
    HullIsSummary(e);
    AbsorbKeepsSummary(e, r);
    var a := Absorb(e, r);
    HullIffNoneEndsLater(a);
    EndByAbsorbed(e, r, a.End());
    EndsBoundMembers(e, a.End());
  }

  /** The condition on the neighbours of the insertion point under which an addition keeps intervals exact. */
  predicate KeepsHulls(q: seq<Entry>, k: nat, r: Request, cap: int)
    requires k <= |q|
  {
    if GluesEntries(q, k, r, cap) then
      var end := GluedEnd(q[k - 1], r, q[k]);
      q[k - 1].End() <= end && r.End() <= end && q[k].End() <= end
    else if JoinsPrevious(q, k, r, cap) then
      if r.offset == q[k - 1].offset then r.len <= q[k - 1].len else q[k - 1].End() <= r.End()
    else if JoinsNext(q, k, r, cap) then r.End() <= q[k].End()
    else true
  }

  lemma GlueKeepsHullIff(p: Entry, r: Request, n: Entry)
    requires HullOk(p) && HullOk(n) && p.offset <= r.offset && p.offset <= n.offset
    ensures var e := AbsorbAll(Absorb(p, r), n.members);
            && e.End() == GluedEnd(p, r, n)
            && (HullOk(e) <==> p.End() <= e.End() && r.End() <= e.End() && n.End() <= e.End())
  {
    var e := AbsorbAll(Absorb(p, r), n.members);
    HullIsSummary(p);
    HullIsSummary(n);
    GlueSummary(p, r, n);
    HullIffNoneEndsLater(e);
    EndByAllAbsorbed(Absorb(p, r), n.members, e.End());
    EndByAbsorbed(p, r, e.End());
    EndsBoundMembers(p, e.End());
    EndsBoundMembers(n, e.End());
  }

  lemma MergedHullIff(q: seq<Entry>, r: Request, cap: int)
    requires AllHullOk(q)
    ensures var k := InsertionPoint(q, r); HullOk(Merged(q, k, r, cap).2) <==> KeepsHulls(q, k, r, cap)
  {
    var k := InsertionPoint(q, r);
    if GluesEntries(q, k, r, cap) {
      GlueKeepsHullIff(q[k - 1], r, q[k]);
    } else if JoinsPrevious(q, k, r, cap) {
      assert HullOk(q[k - 1]) && q[k - 1].offset <= r.offset;
      AbsorbKeepsHullIff(q[k - 1], r);
    } else if JoinsNext(q, k, r, cap) {
      assert HullOk(q[k]) && r.offset <= q[k].offset;
      AbsorbKeepsHullIff(q[k], r);
    } else {
      LoneSummary(r);
    }
  }

  /** An addition keeps all intervals exact if and only if its neighbours meet the condition. */
  lemma AddKeepsHullsIff(q: seq<Entry>, r: Request, cap: int)
    requires AllHullOk(q)
    ensures AllHullOk(Add(q, r, cap)) <==> KeepsHulls(q, InsertionPoint(q, r), r, cap)
  {
    var k := InsertionPoint(q, r);
    var (i, j, e) := Merged(q, k, r, cap);
    MergedHullIff(q, r, cap);
    InSplice(q, i, j, e);
    assert Add(q, r, cap)[i] == e;
  }

  // ---------------------------------------------------------------------------------------------
  // Runs with cancellations
  // ---------------------------------------------------------------------------------------------

  datatype Event = Arrive(request: Request) | Dispatch(index: nat) | Withdraw(len: int, offset: int)

  function Step(q: seq<Entry>, ev: Event, cap: int): seq<Entry>
  {
    match ev
    case Arrive(r) => Add(q, r, cap)
    case Dispatch(k) => if k < |q| then Without(q, k) else q
    case Withdraw(len, offset) => Cancel(q, len, offset)
  }

  /** A run on an empty queue. */
  function Run(evs: seq<Event>, cap: int): seq<Entry>
  {
    if evs == [] then [] else
      var n := |evs| - 1;
      Step(Run(evs[..n], cap), evs[n], cap)
  }

  lemma StepKeepsSummaries(q: seq<Entry>, ev: Event, cap: int)
    requires AllSummaryOk(q) && WithinCap(q, cap) && cap >= 1
    ensures AllSummaryOk(Step(q, ev, cap)) && WithinCap(Step(q, ev, cap), cap)
  {
    match ev
    case Arrive(r) => AddKeepsSummaries(q, r, cap);
    case Dispatch(_) =>
    case Withdraw(len, offset) => CancelKeepsSummaries(q, len, offset, cap);
  }

  /**
   * Every run of additions, dispatches and cancellations, whatever overlaps: entries stay within the
   * cap, with the members' least offset, arrival time and timestamp, and the end of one of them.
   */
  lemma {:induction false} EveryRunKeepsSummaries(evs: seq<Event>, cap: int)
    requires cap >= 1
    ensures AllSummaryOk(Run(evs, cap)) && WithinCap(Run(evs, cap), cap)
  {
    if evs == [] {
    } else {
      var n := |evs| - 1;
      EveryRunKeepsSummaries(evs[..n], cap);
      StepKeepsSummaries(Run(evs[..n], cap), evs[n], cap);
    }
  }

  // ---------------------------------------------------------------------------------------------
  // A nested request
  // ---------------------------------------------------------------------------------------------

  lemma RunSnoc(evs: seq<Event>, ev: Event, cap: int)
    ensures Run(evs + [ev], cap) == Step(Run(evs, cap), ev, cap)
  {
    assert (evs + [ev])[..|evs|] == evs;
  }

  lemma RunOfTwo(a: Event, b: Event, cap: int)
    ensures Run([a, b], cap) == Step(Step([], a, cap), b, cap)
  {
    assert [a][..0] == [] && Run([a], cap) == Step([], a, cap);
    assert [a, b][..1] == [a];
  }

  /** A request nested in the only one queued is recorded as the end of both. */
  lemma NestedRequestShrinksHull(a: Request, r: Request, cap: int)
    requires cap >= 2 && a.offset < r.offset && r.len >= 0 && r.End() < a.End()
    ensures var q := Run([Event.Arrive(a), Event.Arrive(r)], cap);
            |q| == 1 && a in q[0].members && q[0].End() == r.End() < a.End()
  {
    RunOfTwo(Event.Arrive(a), Event.Arrive(r), cap);
    AddToOne(Lone(a), a, cap);
    AddToOne(Lone(a), r, cap);
    var e := Absorb(Lone(a), r);
    assert e.members == [a] + [r] && e.members[0] == a;
    assert Run([Event.Arrive(a), Event.Arrive(r)], cap) == [e];
    assert a in e.members;
  }
}
