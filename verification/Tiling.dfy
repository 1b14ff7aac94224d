/**
 * Runs of additions and dispatches on one queue. When queued requests never overlap, entries are
 * tiled by their members and merged as far as the size cap allows.
 */
module Tiling {
  import opened Requests
  import opened Sequences
  import opened Aggregation

  /** Consecutive requests of positive length, each starting where the previous one ends. */
  ghost predicate Contiguous(rs: seq<Request>)
  {
    && rs != []
    && (forall k :: 0 <= k < |rs| ==> rs[k].len > 0)
    && (forall k :: 0 < k < |rs| ==> rs[k - 1].End() == rs[k].offset)
  }

  ghost predicate Tiles(e: Entry)
  {
    && Contiguous(e.members)
    && e.offset == e.members[0].offset
    && e.End() == e.members[|e.members| - 1].End()
  }

  ghost predicate TileFits(e: Entry, cap: int)
  {
    Tiles(e) && e.Size() <= cap
  }

  ghost predicate Separated(q: seq<Entry>)
  {
    forall i, j :: 0 <= i < j < |q| ==> q[i].End() <= q[j].offset
  }

  /** Neighbours that touch are too large to be one entry. */
  ghost predicate MaximallyMerged(q: seq<Entry>, cap: int)
  {
    forall k :: 0 < k < |q| && q[k - 1].End() == q[k].offset ==> q[k - 1].Size() + q[k].Size() > cap
  }

  ghost predicate Tiled(q: seq<Entry>, cap: int)
  {
    (forall e :: e in q ==> TileFits(e, cap)) && Separated(q) && MaximallyMerged(q, cap)
  }

  predicate Apart(a: Request, b: Request)
  {
    a.End() <= b.offset || b.End() <= a.offset
  }

  ghost predicate ApartFromAll(q: seq<Entry>, r: Request)
  {
    forall m :: m in Members(q) ==> Apart(m, r)
  }

  // ---------------------------------------------------------------------------------------------
  // One entry
  // ---------------------------------------------------------------------------------------------

  /** The members lie in order inside the interval, and their lengths add up to it. */
  lemma {:induction false} ContiguousFacts(rs: seq<Request>)
    requires Contiguous(rs)
    ensures forall i, j :: 0 <= i < j < |rs| ==> rs[i].End() <= rs[j].offset
    ensures forall k :: 0 <= k < |rs| ==> rs[0].offset <= rs[k].offset && rs[k].End() <= rs[|rs| - 1].End()
    ensures Sum(rs, LENGTH) == rs[|rs| - 1].End() - rs[0].offset
  {
    if |rs| == 1 {
      assert rs[1..] == [];
    } else {
      var t := rs[1..];
      assert Contiguous(t) by {
        forall k | 0 < k < |t| ensures t[k - 1].End() == t[k].offset { assert rs[k].End() == rs[k + 1].offset; }
      }
      ContiguousFacts(t);
      assert rs[0].End() == rs[1].offset == t[0].offset;
      forall i, j | 0 <= i < j < |rs| ensures rs[i].End() <= rs[j].offset {
        assert rs[j] == t[j - 1];
        if i > 0 { assert rs[i] == t[i - 1]; }
      }
      forall k | 0 <= k < |rs| ensures rs[0].offset <= rs[k].offset && rs[k].End() <= rs[|rs| - 1].End() {
        assert t[|t| - 1] == rs[|rs| - 1];
        if k > 0 { assert rs[k] == t[k - 1]; }
      }
    }
  }

  /** A virtual request's length is the total length of the requests it holds. */
  lemma TileLength(e: Entry)
    requires Tiles(e)
    ensures Sum(e.members, LENGTH) == e.len && e.len > 0
    ensures forall m :: m in e.members ==> e.offset <= m.offset && m.End() <= e.End()
  {
    ContiguousFacts(e.members);
  }

  /** A request apart from every member is apart from the whole interval. */
  lemma {:induction false} ApartFromTile(rs: seq<Request>, r: Request)
    requires Contiguous(rs) && r.len > 0
    requires forall m :: m in rs ==> Apart(m, r)
    ensures rs[|rs| - 1].End() <= r.offset || r.End() <= rs[0].offset
  {
    assert Apart(rs[0], r);
    if |rs| > 1 {
      var t := rs[1..];
      assert Contiguous(t) by {
        forall k | 0 < k < |t| ensures t[k - 1].End() == t[k].offset { assert rs[k].End() == rs[k + 1].offset; }
      }
      ApartFromTile(t, r);
      assert t[|t| - 1] == rs[|rs| - 1] && rs[0].End() == t[0].offset && rs[0] in rs;
    }
  }

  lemma ContiguousConcat(a: seq<Request>, b: seq<Request>)
    requires Contiguous(a) && Contiguous(b) && a[|a| - 1].End() == b[0].offset
    ensures Contiguous(a + b)
  {
    var c := a + b;
    forall k | 0 < k < |c| ensures c[k - 1].End() == c[k].offset {
      if k < |a| { assert c[k - 1] == a[k - 1] && c[k] == a[k]; }
      else if k == |a| { assert c[k - 1] == a[|a| - 1] && c[k] == b[0]; }
      else { assert c[k - 1] == b[k - 1 - |a|] && c[k] == b[k - |a|]; }
    }
  }

  lemma AbsorbTiles(e: Entry, r: Request)
    requires Tiles(e) && r.len > 0 && (e.End() == r.offset || r.End() == e.offset)
    ensures Tiles(Absorb(e, r))
    ensures e.End() == r.offset ==>
              Absorb(e, r).offset == e.offset && Absorb(e, r).End() == r.End()
              && Absorb(e, r).members == e.members + [r]
    ensures r.End() == e.offset ==> Absorb(e, r).offset == r.offset && Absorb(e, r).End() == e.End()
  {
    TileLength(e);
    if e.End() == r.offset {
      ContiguousConcat(e.members, [r]);
    } else {
      ContiguousConcat([r], e.members);
    }
  }

  lemma {:induction false} AbsorbAllTiles(e: Entry, rs: seq<Request>)
    requires Tiles(e) && Contiguous(rs) && e.End() == rs[0].offset
    ensures Tiles(AbsorbAll(e, rs))
    ensures AbsorbAll(e, rs).offset == e.offset && AbsorbAll(e, rs).End() == rs[|rs| - 1].End()
    ensures AbsorbAll(e, rs).members == e.members + rs
    decreases |rs|
  {
    var a := Absorb(e, rs[0]);
    AbsorbTiles(e, rs[0]);
    if |rs| == 1 {
      assert rs == [rs[0]] && rs[1..] == [];
    } else {
      var t := rs[1..];
      forall k | 0 < k < |t| ensures t[k - 1].End() == t[k].offset { assert rs[k].End() == rs[k + 1].offset; }
      AbsorbAllTiles(a, t);
      assert rs == [rs[0]] + t;
    }
  }

  // ---------------------------------------------------------------------------------------------
  // One addition
  // ---------------------------------------------------------------------------------------------

  ghost predicate GluedTooLarge(a: Entry, b: Entry, cap: int)
  {
    a.End() == b.offset ==> a.Size() + b.Size() > cap
  }

  lemma SpliceTiled(q: seq<Entry>, i: nat, j: nat, e: Entry, cap: int)
    requires Tiled(q, cap) && i <= j <= |q| && TileFits(e, cap)
    requires i > 0 ==> q[i - 1].End() <= e.offset && GluedTooLarge(q[i - 1], e, cap)
    requires j < |q| ==> e.End() <= q[j].offset && GluedTooLarge(e, q[j], cap)
    ensures Tiled(q[..i] + [e] + q[j..], cap)
  {
    var s := q[..i] + [e] + q[j..];
    InSplice(q, i, j, e);
    forall x | x in q ensures x.offset < x.End() {
      assert TileFits(x, cap);
      TileLength(x);
    }
    TileLength(e);
    SpliceSeparated(q, i, j, e);
    forall k | 0 < k < |s| && s[k - 1].End() == s[k].offset ensures s[k - 1].Size() + s[k].Size() > cap {
      if k < i { assert s[k - 1] == q[k - 1] && s[k] == q[k]; }
      else if k == i { assert s[k - 1] == q[i - 1] && s[k] == e; }
      else if k == i + 1 { assert s[k - 1] == e && s[k] == q[j]; }
      else { assert s[k - 1] == q[k - 2 - i + j] && s[k] == q[k - 1 - i + j]; }
    }
  }

  lemma SpliceSeparated(q: seq<Entry>, i: nat, j: nat, e: Entry)
    requires Separated(q) && i <= j <= |q|
    requires e.offset < e.End() && forall x :: x in q ==> x.offset < x.End()
    requires i > 0 ==> q[i - 1].End() <= e.offset
    requires j < |q| ==> e.End() <= q[j].offset
    ensures Separated(q[..i] + [e] + q[j..])
  {
    var s := q[..i] + [e] + q[j..];
    forall a, b | 0 <= a < b < |s| ensures s[a].End() <= s[b].offset {
      assert s[a] == if a < i then q[a] else if a == i then e else q[a - i - 1 + j];
      assert s[b] == if b < i then q[b] else if b == i then e else q[b - i - 1 + j];
      if b == i {
        assert a == i - 1 || q[a].End() <= q[i - 1].offset;
        assert q[i - 1] in q;
      } else if a == i {
        assert b == i + 1 || q[j].End() <= q[b - i - 1 + j].offset;
        assert q[j] in q;
      }
    }
  }

  lemma ApartFromEntry(q: seq<Entry>, r: Request, cap: int, x: Entry)
    requires Tiled(q, cap) && r.len > 0 && ApartFromAll(q, r) && x in q
    ensures x.End() <= r.offset || r.End() <= x.offset
  {
    assert TileFits(x, cap);
    var n :| 0 <= n < |q| && q[n] == x;
    forall m | m in x.members ensures Apart(m, r) {
      assert m in q[n].members;
      InMembers(q, m);
    }
    ApartFromTile(x.members, r);
    TileLength(x);
  }

  /** The newcomer falls between the entries before and after its insertion point. */
  lemma InsertionGap(q: seq<Entry>, r: Request, cap: int)
    requires Tiled(q, cap) && r.len > 0 && ApartFromAll(q, r)
    ensures var k := InsertionPoint(q, r);
            && (k > 0 ==> q[k - 1].End() <= r.offset)
            && (k < |q| ==> r.End() <= q[k].offset)
  {
    var k := InsertionPoint(q, r);
    forall x | x in q ensures x.End() <= r.offset || r.End() <= x.offset {
      ApartFromEntry(q, r, cap, x);
    }
    if k > 0 {
      assert q[k - 1] in q && !StopsAt(q[k - 1], r);
    }
    if k < |q| {
      assert q[k] in q && StopsAt(q[k], r) && TileFits(q[k], cap);
      TileLength(q[k]);
    }
  }

  lemma AddNextToPrevious(q: seq<Entry>, k: nat, r: Request, cap: int)
    requires Tiled(q, cap) && r.len > 0 && k <= |q| && JoinsPrevious(q, k, r, cap)
    requires q[k - 1].End() <= r.offset && (k < |q| ==> r.End() <= q[k].offset)
    ensures Tiled(AddAt(q, k, r, cap), cap)
  {
    assert TileFits(q[k - 1], cap);
    var p := Absorb(q[k - 1], r);
    AbsorbTiles(q[k - 1], r);
    assert k > 1 ==> GluedTooLarge(q[k - 2], q[k - 1], cap);
    if ClosesGap(q, k, p, cap) {
      GlueToNext(q, k, p, cap);
    } else {
      SpliceTiled(q, k - 1, k, p, cap);
    }
  }

  /** The entry before grew to `p`, which touches the next entry. */
  lemma GlueToNext(q: seq<Entry>, k: nat, p: Entry, cap: int)
    requires Tiled(q, cap) && 0 < k < |q| && TileFits(p, cap) && ClosesGap(q, k, p, cap) && p.End() <= q[k].offset
    requires k > 1 ==> q[k - 2].End() <= p.offset && GluedTooLarge(q[k - 2], p, cap)
    ensures Tiled(q[..k - 1] + [AbsorbAll(p, q[k].members)] + q[k + 1..], cap)
  {
    assert TileFits(q[k], cap);
    AbsorbAllTiles(p, q[k].members);
    assert k + 1 < |q| ==> GluedTooLarge(q[k], q[k + 1], cap) && q[k].End() <= q[k + 1].offset;
    SpliceTiled(q, k - 1, k + 1, AbsorbAll(p, q[k].members), cap);
  }

  lemma AddElsewhere(q: seq<Entry>, k: nat, r: Request, cap: int)
    requires Tiled(q, cap) && r.len > 0 && cap >= 1 && k <= |q| && !JoinsPrevious(q, k, r, cap)
    requires k > 0 ==> q[k - 1].End() <= r.offset
    requires k < |q| ==> r.End() <= q[k].offset
    ensures Tiled(AddAt(q, k, r, cap), cap)
  {
    if k > 0 {
      assert TileFits(q[k - 1], cap);
      TileLength(q[k - 1]);
    }
    if JoinsNext(q, k, r, cap) {
      assert TileFits(q[k], cap);
      AbsorbTiles(q[k], r);
      assert k + 1 < |q| ==> GluedTooLarge(q[k], q[k + 1], cap) && q[k].End() <= q[k + 1].offset;
      SpliceTiled(q, k, k + 1, Absorb(q[k], r), cap);
    } else {
      SpliceTiled(q, k, k, Lone(r), cap);
    }
  }

  /** Adding a request apart from all queued ones keeps the tiling and the maximal merging. */
  lemma AddKeepsTiled(q: seq<Entry>, r: Request, cap: int)
    requires Tiled(q, cap) && r.len > 0 && ApartFromAll(q, r) && cap >= 1
    ensures Tiled(Add(q, r, cap), cap)
  {
    InsertionGap(q, r, cap);
    var k := InsertionPoint(q, r);
    if JoinsPrevious(q, k, r, cap) {
      AddNextToPrevious(q, k, r, cap);
    } else {
      AddElsewhere(q, k, r, cap);
    }
  }

  /** Taking any entry out leaves no new pair of touching neighbours. */
  lemma RemoveKeepsTiled(q: seq<Entry>, k: nat, cap: int)
    requires Tiled(q, cap) && k < |q|
    ensures Tiled(q[..k] + q[k + 1..], cap)
  {
    var s := q[..k] + q[k + 1..];
    forall x | x in s ensures TileFits(x, cap) { assert x in q; }
    assert forall n :: 0 <= n < |s| ==> s[n] == q[if n < k then n else n + 1];
    forall n | 0 < n < |s| && s[n - 1].End() == s[n].offset ensures s[n - 1].Size() + s[n].Size() > cap {
      if n == k {
        assert q[k - 1].End() <= q[k].offset && q[k].End() <= q[k + 1].offset;
        assert TileFits(q[k], cap);
        TileLength(q[k]);
      } else if n < k {
        assert s[n - 1] == q[n - 1] && s[n] == q[n];
      } else {
        assert s[n - 1] == q[n] && s[n] == q[n + 1];
      }
    }
  }

  // ---------------------------------------------------------------------------------------------
  // Runs
  // ---------------------------------------------------------------------------------------------

  datatype Event = Arrive(request: Request) | Dispatch(index: nat)

  function Step(q: seq<Entry>, ev: Event, cap: int): seq<Entry>
  {
    match ev
    case Arrive(r) => Add(q, r, cap)
    case Dispatch(k) => if k < |q| then q[..k] + q[k + 1..] else q
  }

  /** The requests that leave the queue with an event. */
  function Leaving(q: seq<Entry>, ev: Event): seq<Request>
  {
    if ev.Dispatch? && ev.index < |q| then q[ev.index].members else []
  }

  function Run(q: seq<Entry>, evs: seq<Event>, cap: int): seq<Entry>
  {
    if evs == [] then q else
      var n := |evs| - 1;
      Step(Run(q, evs[..n], cap), evs[n], cap)
  }

  function Dispatched(q: seq<Entry>, evs: seq<Event>, cap: int): seq<Request>
  {
    if evs == [] then [] else
      var n := |evs| - 1;
      Dispatched(q, evs[..n], cap) + Leaving(Run(q, evs[..n], cap), evs[n])
  }

  function Arrivals(evs: seq<Event>): seq<Request>
  {
    if evs == [] then [] else
      var n := |evs| - 1;
      Arrivals(evs[..n]) + (if evs[n].Arrive? then [evs[n].request] else [])
  }

  ghost predicate NonNegativeArrivals(evs: seq<Event>)
  {
    forall ev :: ev in evs && ev.Arrive? ==> ev.request.len >= 0
  }

  /** Every arrival has positive length and overlaps nothing that is queued at that moment. */
  ghost predicate NoOverlap(q: seq<Entry>, evs: seq<Event>, cap: int)
  {
    forall n :: 0 <= n < |evs| && evs[n].Arrive? ==>
      evs[n].request.len > 0 && ApartFromAll(Run(q, evs[..n], cap), evs[n].request)
  }

  lemma RemoveKeepsSummary(q: seq<Entry>, k: nat, cap: int)
    requires QueueOk(q, cap) && k < |q|
    ensures QueueOk(q[..k] + q[k + 1..], cap)
  {
    var s := q[..k] + q[k + 1..];
    forall i, j | 0 <= i < j < |s| ensures s[i].offset <= s[j].offset {
      assert s[i] == q[if i < k then i else i + 1] && s[j] == q[if j < k then j else j + 1];
    }
    assert forall x :: x in s ==> x in q;
  }

  lemma MembersAround(q: seq<Entry>, k: nat)
    requires k < |q|
    ensures Members(q) == (Members(q[..k]) + q[k].members) + Members(q[k + 1..])
  {
    MembersSplice(q, k, k + 1, q[k..k + 1]);
    assert q[k..k + 1] == [q[k]];
    MembersSingle(q[k]);
  }

  lemma RemoveKeepsRequests(q: seq<Entry>, k: nat)
    requires k < |q|
    ensures multiset(Members(q)) == multiset(Members(q[..k] + q[k + 1..])) + multiset(q[k].members)
  {
    MembersAround(q, k);
    MembersConcat(q[..k], q[k + 1..]);
    MiddleOut(Members(q[..k]), q[k].members, Members(q[k + 1..]));
  }

  lemma MiddleOut<X>(a: seq<X>, m: seq<X>, b: seq<X>)
    ensures multiset((a + m) + b) == multiset(a + b) + multiset(m)
  {
  }

  lemma StepKeepsRequests(q: seq<Entry>, ev: Event, cap: int)
    requires QueueOk(q, cap) && cap >= 1 && (ev.Arrive? ==> ev.request.len >= 0)
    ensures QueueOk(Step(q, ev, cap), cap)
    ensures multiset(Members(q)) + multiset(if ev.Arrive? then [ev.request] else [])
         == multiset(Members(Step(q, ev, cap))) + multiset(Leaving(q, ev))
  {
    match ev
    case Arrive(r) => AddKeepsQueueOk(q, r, cap);
    case Dispatch(k) =>
      if k < |q| {
        RemoveKeepsSummary(q, k, cap);
        RemoveKeepsRequests(q, k);
      }
  }

  lemma PrefixNonNegative(evs: seq<Event>, n: nat)
    requires NonNegativeArrivals(evs) && n <= |evs|
    ensures NonNegativeArrivals(evs[..n])
  {
  }

  /** Every run, whatever overlaps: the queue stays sorted and correctly summarised, within the cap. */
  lemma {:induction false} EveryRunKeepsQueueOk(evs: seq<Event>, cap: int)
    requires NonNegativeArrivals(evs) && cap >= 1
    ensures QueueOk(Run([], evs, cap), cap)
  {
    if evs == [] {
    } else {
      var n := |evs| - 1;
      PrefixNonNegative(evs, n);
      EveryRunKeepsQueueOk(evs[..n], cap);
      assert evs[n] in evs;
      StepKeepsRequests(Run([], evs[..n], cap), evs[n], cap);
    }
  }

  /** Every request that arrived in a run is still queued or was dispatched, exactly once. */
  lemma {:induction false} EveryRunKeepsRequests(evs: seq<Event>, cap: int)
    requires NonNegativeArrivals(evs) && cap >= 1
    ensures multiset(Arrivals(evs)) == multiset(Members(Run([], evs, cap))) + multiset(Dispatched([], evs, cap))
    decreases |evs|
  {
    if evs == [] {
    } else {
      var n := |evs| - 1;
      var past := evs[..n];
      PrefixNonNegative(evs, n);
      EveryRunKeepsRequests(past, cap);
      EveryRunKeepsQueueOk(past, cap);
      assert evs[n] in evs;
      var q := Run([], past, cap);
      StepKeepsRequests(q, evs[n], cap);
      OneMoreEvent(Arrivals(past), if evs[n].Arrive? then [evs[n].request] else [], Members(q),
                   Dispatched([], past, cap), Leaving(q, evs[n]), Members(Step(q, evs[n], cap)));
    }
  }

  lemma OneMoreEvent<X>(arrived: seq<X>, arriving: seq<X>, queued: seq<X>, out: seq<X>, leaving: seq<X>, left: seq<X>)
    requires multiset(arrived) == multiset(queued) + multiset(out)
    requires multiset(queued) + multiset(arriving) == multiset(left) + multiset(leaving)
    ensures multiset(arrived + arriving) == multiset(left) + multiset(out + leaving)
  {
    forall x ensures multiset(arrived + arriving)[x] == (multiset(left) + multiset(out + leaving))[x] {
      assert multiset(arrived)[x] == (multiset(queued) + multiset(out))[x];
      assert (multiset(queued) + multiset(arriving))[x] == (multiset(left) + multiset(leaving))[x];
    }
  }

  /** Every run without overlaps: entries are tiled, disjoint, in order, and maximally merged. */
  lemma {:induction false} EveryDisjointRunIsTiled(evs: seq<Event>, cap: int)
    requires NoOverlap([], evs, cap) && cap >= 1
    ensures Tiled(Run([], evs, cap), cap)
  {
    if evs == [] {
    } else {
      var n := |evs| - 1;
      var past := evs[..n];
      forall i | 0 <= i < n && past[i].Arrive?
        ensures past[i].request.len > 0 && ApartFromAll(Run([], past[..i], cap), past[i].request)
      {
        assert past[i] == evs[i] && past[..i] == evs[..i];
      }
      EveryDisjointRunIsTiled(past, cap);
      match evs[n]
      case Arrive(r) => AddKeepsTiled(Run([], past, cap), r, cap);
      case Dispatch(k) => if k < |Run([], past, cap)| { RemoveKeepsTiled(Run([], past, cap), k, cap); }
    }
  }
}
