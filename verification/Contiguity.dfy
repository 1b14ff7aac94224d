/**
 * The list of requests handed to the user at once is contiguous: the members of an entry leave no
 * point between its start and their ends uncovered, whatever overlaps. Only cancelling can leave a
 * gap, and exactly when it does.
 */
module Contiguity {
  import opened Requests
  import opened Aggregation
  import T = Tiling
  import TL = Timeline
  import opened Cancellation
  import opened Overlaps
  import A = AddThenCancel

  ghost predicate Covered(ms: seq<Request>, x: int)
  {
    exists m :: m in ms && m.offset <= x < m.End()
  }

  ghost predicate StartsBy(ms: seq<Request>, x: int)
  {
    exists m :: m in ms && m.offset <= x
  }

  ghost predicate ReachesPast(ms: seq<Request>, x: int)
  {
    exists m :: m in ms && x < m.End()
  }

  /** From the start of the entry to the end of every member, each point belongs to some member. */
  ghost predicate NoGap(e: Entry)
  {
    forall x :: e.offset <= x && ReachesPast(e.members, x) ==> Covered(e.members, x)
  }

  ghost predicate AllNoGap(q: seq<Entry>)
  {
    forall e :: e in q ==> NoGap(e)
  }

  // ---------------------------------------------------------------------------------------------
  // Additions
  // ---------------------------------------------------------------------------------------------

  lemma LoneNoGap(r: Request)
    ensures NoGap(Lone(r))
  {
    assert r in Lone(r).members;
  }

  lemma AbsorbNoGap(e: Entry, r: Request)
    requires SummaryOk(e) && NoGap(e) && (Touches(e, Lone(r)) || Touches(Lone(r), e))
    ensures NoGap(Absorb(e, r))
  {
    var a := Absorb(e, r);
    assert forall m :: m in a.members <==> m == r || m in e.members;
    var k :| 0 <= k < |e.members| && END(e.members[k]) == e.End();
    assert e.members[k] in e.members;
    forall x | a.offset <= x && ReachesPast(a.members, x) ensures Covered(a.members, x) {
      if e.offset <= x && ReachesPast(e.members, x) {
        assert Covered(e.members, x);
      } else {
        assert r in a.members && r.offset <= x < r.End();
      }
    }
  }

  lemma GlueNoGap(a: Entry, n: Entry)
    requires SummaryOk(a) && NoGap(a) && SummaryOk(n) && NoGap(n) && Touches(a, n)
    ensures NoGap(AbsorbAll(a, n.members))
  {
    var e := AbsorbAll(a, n.members);
    InAbsorbAll(a, n.members);
    MembersStartLater(n, a.offset);
    AbsorbAllEnd(a, n.members);
    var k :| 0 <= k < |a.members| && END(a.members[k]) == a.End();
    assert a.members[k] in a.members;
    forall x | e.offset <= x && ReachesPast(e.members, x) ensures Covered(e.members, x) {
      if ReachesPast(a.members, x) {
        assert Covered(a.members, x);
      } else {
        assert n.offset <= x && ReachesPast(n.members, x);
        assert Covered(n.members, x);
      }
    }
  }

  lemma MergedNoGap(q: seq<Entry>, k: nat, r: Request, cap: int)
    requires AllSummaryOk(q) && AllNoGap(q) && k <= |q|
    ensures NoGap(Merged(q, k, r, cap).2)
  {
    if JoinsPrevious(q, k, r, cap) {
      AbsorbNoGap(q[k - 1], r);
      if GluesEntries(q, k, r, cap) {
        AbsorbKeepsSummary(q[k - 1], r);
        GlueNoGap(Absorb(q[k - 1], r), q[k]);
      }
    } else if JoinsNext(q, k, r, cap) {
      AbsorbNoGap(q[k], r);
    } else {
      LoneNoGap(r);
    }
  }

  /** An addition leaves no gap in any entry, however the requests overlap. */
  lemma AddNoGap(q: seq<Entry>, r: Request, cap: int)
    requires AllSummaryOk(q) && AllNoGap(q)
    ensures AllNoGap(Add(q, r, cap))
  {
    var k := InsertionPoint(q, r);
    var (i, j, e) := Merged(q, k, r, cap);
    MergedNoGap(q, k, r, cap);
    InSplice(q, i, j, e);
  }

  /** Every run of additions and dispatches: the members of every entry are contiguous. */
  lemma {:induction false} EveryRunNoGap(evs: seq<T.Event>, cap: int)
    ensures AllSummaryOk(T.Run([], evs, cap)) && AllNoGap(T.Run([], evs, cap))
  {
    if evs == [] {
    } else {
      var n := |evs| - 1;
      var q := T.Run([], evs[..n], cap);
      EveryRunNoGap(evs[..n], cap);
      match evs[n]
      case Arrive(r) =>
        AddKeepsSummaries(q, r, cap);
        AddNoGap(q, r, cap);
      case Dispatch(_) =>
    }
  }

  lemma TimelineAddNoGap(t: seq<Entry>, r: Request, cap: int)
    requires AllSummaryOk(t) && AllNoGap(t)
    ensures AllSummaryOk(TL.AddToTimeline(t, r, cap)) && AllNoGap(TL.AddToTimeline(t, r, cap))
  {
    var k := TL.AbsorbingIndex(t, r, cap);
    if k < |t| {
      AbsorbKeepsSummary(t[k], r);
      AbsorbNoGap(t[k], r);
    } else {
      LoneSummary(r);
      LoneNoGap(r);
    }
  }

  /** The same for the timeline with aggregation. */
  lemma {:induction false} EveryTimelineRunNoGap(evs: seq<TL.Event>, cap: int)
    ensures AllSummaryOk(TL.Run(evs, cap)) && AllNoGap(TL.Run(evs, cap))
  {
    if evs == [] {
    } else {
      var n := |evs| - 1;
      EveryTimelineRunNoGap(evs[..n], cap);
      match evs[n]
      case Arrive(r) => TimelineAddNoGap(TL.Run(evs[..n], cap), r, cap);
      case Dispatch =>
    }
  }

  // ---------------------------------------------------------------------------------------------
  // Cancellations
  // ---------------------------------------------------------------------------------------------

  /** Each point of `r` between two of the other requests belongs to one of them. */
  ghost predicate NotNeeded(rest: seq<Request>, r: Request)
  {
    forall x :: r.offset <= x < r.End() && StartsBy(rest, x) && ReachesPast(rest, x) ==> Covered(rest, x)
  }

  lemma InWithout(ms: seq<Request>, j: nat)
    requires j < |ms|
    ensures forall m :: m in Without(ms, j) ==> m in ms
    ensures forall m :: m in ms ==> m == ms[j] || m in Without(ms, j)
  {
    forall m | m in ms ensures m == ms[j] || m in Without(ms, j) {
      var i :| 0 <= i < |ms| && ms[i] == m;
      if i < j { assert Without(ms, j)[i] == m; }
      if i > j { assert Without(ms, j)[i - 1] == m; }
    }
  }

  lemma LeastStartsBy(s: Entry, x: int)
    requires SummaryOk(s)
    ensures s.offset <= x <==> StartsBy(s.members, x)
  {
    var k :| 0 <= k < |s.members| && OFFSET(s.members[k]) == s.offset;
    assert s.members[k] in s.members;
    MembersStartLater(s, s.offset);
  }

  /** Taking a member out leaves no gap if and only if the others do without it. */
  lemma RemovalNoGapIff(e: Entry, j: nat)
    requires SummaryOk(e) && NoGap(e) && e.Size() > 1 && j < e.Size()
    ensures NoGap(Recomputed(Without(e.members, j))) <==> NotNeeded(Without(e.members, j), e.members[j])
  {
    var rest, r := Without(e.members, j), e.members[j];
    var s := Recomputed(rest);
    RecomputedIsHull(rest);
    HullIsSummary(s);
    InWithout(e.members, j);
    if NoGap(s) {
      forall x | r.offset <= x < r.End() && StartsBy(rest, x) && ReachesPast(rest, x) ensures Covered(rest, x) {
        LeastStartsBy(s, x);
      }
    }
    if NotNeeded(rest, r) {
      forall x | s.offset <= x && ReachesPast(rest, x) ensures Covered(rest, x) {
        LeastStartsBy(s, x);
        LeastStartsBy(e, x);
        assert StartsBy(e.members, x) && ReachesPast(e.members, x);
        assert Covered(e.members, x);
      }
    }
  }

  /** The condition on the queue under which a cancellation leaves no gap. */
  ghost predicate LeavesNoGap(q: seq<Entry>, len: int, offset: int)
  {
    var k := FindEntry(q, len, offset);
    k < |q| && q[k].Size() > 1 ==>
      var j := FirstMatch(q[k].members, len, offset); NotNeeded(Without(q[k].members, j), q[k].members[j])
  }

  lemma CancelNoGapIff(q: seq<Entry>, len: int, offset: int)
    requires AllSummaryOk(q) && AllNoGap(q)
    ensures AllNoGap(Cancel(q, len, offset)) <==> LeavesNoGap(q, len, offset)
  {
    var k := FindEntry(q, len, offset);
    if k < |q| && q[k].Size() > 1 {
      var j := FirstMatch(q[k].members, len, offset);
      RemovalNoGapIff(q[k], j);
      assert Cancel(q, len, offset)[k] == Recomputed(Without(q[k].members, j));
    }
  }

  /** No cancellation of the run takes out a request that the others of its entry need. */
  ghost predicate HarmlessWithdrawals(evs: seq<Event>, cap: int)
  {
    forall n :: 0 <= n < |evs| && evs[n].Withdraw? ==>
        LeavesNoGap(Overlaps.Run(evs[..n], cap), evs[n].len, evs[n].offset)
  }

  ghost predicate AlwaysNoGap(evs: seq<Event>, cap: int)
  {
    forall n :: 0 <= n <= |evs| ==> AllNoGap(Overlaps.Run(evs[..n], cap))
  }

  lemma StepNoGapIff(q: seq<Entry>, ev: Event, cap: int)
    requires AllSummaryOk(q) && AllNoGap(q)
    ensures AllNoGap(Overlaps.Step(q, ev, cap)) <==> (ev.Withdraw? ==> LeavesNoGap(q, ev.len, ev.offset))
  {
    match ev
    case Arrive(r) => AddNoGap(q, r, cap);
    case Dispatch(_) =>
    case Withdraw(len, offset) => CancelNoGapIff(q, len, offset);
  }

  lemma {:induction false} RunSummaries(evs: seq<Event>, cap: int)
    ensures AllSummaryOk(Overlaps.Run(evs, cap))
  {
    if evs == [] {
    } else {
      var n := |evs| - 1;
      RunSummaries(evs[..n], cap);
      match evs[n]
      case Arrive(r) => AddKeepsSummaries(Overlaps.Run(evs[..n], cap), r, cap);
      case Dispatch(_) =>
      case Withdraw(len, offset) => CancelKeepsSummaries(Overlaps.Run(evs[..n], cap), len, offset, cap);
    }
  }

  lemma PrefixOfPast(evs: seq<Event>, n: nat)
    requires n <= |evs|
    ensures forall i :: 0 <= i <= n ==> evs[..n][..i] == evs[..i]
  {
  }

  lemma AlwaysNoGapSnoc(evs: seq<Event>, cap: int)
    requires evs != []
    ensures var past := evs[..|evs| - 1];
            AlwaysNoGap(evs, cap) <==> AlwaysNoGap(past, cap) && AllNoGap(Overlaps.Run(evs, cap))
  {
    var n := |evs| - 1;
    PrefixOfPast(evs, n);
    assert evs[..n + 1] == evs;
  }

  lemma HarmlessSnoc(evs: seq<Event>, cap: int)
    requires evs != []
    ensures var n := |evs| - 1;
            HarmlessWithdrawals(evs, cap) <==>
              HarmlessWithdrawals(evs[..n], cap) &&
              (evs[n].Withdraw? ==> LeavesNoGap(Overlaps.Run(evs[..n], cap), evs[n].len, evs[n].offset))
  {
    var n := |evs| - 1;
    assert forall i :: 0 <= i < n ==> evs[..n][..i] == evs[..i] && evs[..n][i] == evs[i];
  }

  /**
   * A run with cancellations keeps the members of every entry contiguous throughout if and only if
   * no cancellation takes out a request that the others of its entry need.
   */
  lemma {:induction false} EveryRunNoGapIff(evs: seq<Event>, cap: int)
    ensures AlwaysNoGap(evs, cap) <==> HarmlessWithdrawals(evs, cap)
  {
    if evs == [] {
    } else {
      var n := |evs| - 1;
      EveryRunNoGapIff(evs[..n], cap);
      AlwaysNoGapSnoc(evs, cap);
      HarmlessSnoc(evs, cap);
      if AlwaysNoGap(evs[..n], cap) {
        assert evs[..n][..n] == evs[..n];
        RunSummaries(evs[..n], cap);
        StepNoGapIff(Overlaps.Run(evs[..n], cap), evs[n], cap);
      }
    }
  }

  // ---------------------------------------------------------------------------------------------
  // Requests that do not overlap
  // ---------------------------------------------------------------------------------------------

  lemma TailContiguous(ms: seq<Request>)
    requires T.Contiguous(ms) && |ms| > 1
    ensures T.Contiguous(ms[1..]) && T.Contiguous(ms[..|ms| - 1])
  {
    var t := ms[1..];
    forall k | 0 < k < |t| ensures t[k - 1].End() == t[k].offset { assert ms[k].End() == ms[k + 1].offset; }
  }

  lemma RecomputedTiles(rs: seq<Request>)
    requires T.Contiguous(rs)
    ensures T.Tiles(Recomputed(rs))
  {
    var s := Recomputed(rs);
    RecomputedIsHull(rs);
    T.ContiguousFacts(rs);
    var i :| 0 <= i < |rs| && OFFSET(rs[i]) == s.offset;
    var k :| 0 <= k < |rs| && END(rs[k]) == s.End();
    assert s.offset <= OFFSET(rs[0]) && END(rs[|rs| - 1]) <= s.End();
  }

  /** Of requests in a row only the first and the last can be cancelled without leaving a gap. */
  lemma RemovalTilesIff(e: Entry, j: nat)
    requires T.Tiles(e) && e.Size() > 1 && j < e.Size()
    ensures T.Tiles(Recomputed(Without(e.members, j))) <==> j == 0 || j == e.Size() - 1
  {
    var ms, rest := e.members, Without(e.members, j);
    RecomputedIsHull(rest);
    TailContiguous(ms);
    if j == 0 {
      assert rest == ms[1..];
      RecomputedTiles(rest);
    } else if j == |ms| - 1 {
      assert rest == ms[..|ms| - 1];
      RecomputedTiles(rest);
    } else {
      assert rest[j - 1] == ms[j - 1] && rest[j] == ms[j + 1];
      assert ms[j - 1].End() == ms[j].offset < ms[j].End() == ms[j + 1].offset;
    }
  }

  /** Three requests in a row, of which the second is cancelled, are handed to the user with a gap. */
  lemma CancellationLeavesGap(a: Request, b: Request, c: Request, cap: int)
    requires cap >= 3 && a.len > 0 && b.len > 0 && c.len > 0 && a.End() == b.offset && b.End() == c.offset
    ensures !AllNoGap(Overlaps.Run([Event.Arrive(a), Event.Arrive(b), Event.Arrive(c), Event.Withdraw(b.len, b.offset)],
                                   cap))
  {
    A.DigHole(a, b, c, b, cap);
    A.RecomputedPair(a, c);
    RecomputedMembers([a, c]);
    var e := Recomputed([a, c]);
    assert e.members == [a, c] && e.members[1] == c && e.offset <= b.offset;
    assert ReachesPast(e.members, b.offset) && !Covered(e.members, b.offset) && !NoGap(e);
    assert e in [e];
  }
}
