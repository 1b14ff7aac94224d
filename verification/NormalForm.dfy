/**
 * The entries of a queue without overlaps are determined by the pending requests, where the size cap
 * does not decide how a chain of requests is divided.
 */
module NormalForm {
  import opened Requests
  import opened Sequences
  import opened Aggregation
  import opened Tiling

  lemma MinimumUnique(x: int, y: int, s: seq<Request>, key: Request -> int)
    requires IsMinimum(x, s, key) && IsMinimum(y, s, key)
    ensures x == y
  {
    var i :| 0 <= i < |s| && key(s[i]) == x;
    var j :| 0 <= j < |s| && key(s[j]) == y;
  }

  /** Everything an entry records is determined by its members. */
  lemma MembersDetermineEntry(a: Entry, b: Entry)
    requires EntryOk(a) && EntryOk(b) && a.members == b.members
    ensures a == b
  {
    MinimumUnique(a.arrival, b.arrival, a.members, ARRIVAL);
    MinimumUnique(a.timestamp, b.timestamp, a.members, TIMESTAMP);
  }

  lemma TailTiled(q: seq<Entry>, cap: int)
    requires Tiled(q, cap) && q != []
    ensures Tiled(q[1..], cap)
  {
    RemoveKeepsTiled(q, 0, cap);
    assert q[..0] + q[0 + 1..] == q[1..];
  }

  /** Read from first to last entry, the pending requests come in order of offset. */
  lemma {:induction false} MembersInOffsetOrder(q: seq<Entry>, cap: int)
    requires Tiled(q, cap)
    ensures StrictlyIncreasing(Members(q), OFFSET)
    ensures forall m :: m in Members(q) ==> q != [] && q[0].offset <= m.offset
  {
    if q == [] {
    } else {
      TailTiled(q, cap);
      MembersInOffsetOrder(q[1..], cap);
      assert TileFits(q[0], cap);
      var head, tail := q[0].members, Members(q[1..]);
      ContiguousFacts(head);
      TileLength(q[0]);
      forall m | m in tail ensures q[0].End() <= m.offset {
        assert q[1..][0].offset <= m.offset && q[0].End() <= q[1].offset;
      }
      ConcatIncreasing(head, tail, q[0].End());
    }
  }

  lemma ConcatIncreasing(a: seq<Request>, b: seq<Request>, x: int)
    requires Contiguous(a) && StrictlyIncreasing(b, OFFSET)
    requires forall m :: m in a ==> m.End() <= x
    requires forall m :: m in b ==> x <= m.offset
    ensures StrictlyIncreasing(a + b, OFFSET)
  {
    ContiguousFacts(a);
    var c := a + b;
    forall i, j | 0 <= i < j < |c| ensures OFFSET(c[i]) < OFFSET(c[j]) {
      if j < |a| {
        assert c[i] == a[i] && c[j] == a[j] && a[i].End() <= a[j].offset;
      } else if i < |a| {
        assert c[i] == a[i] && c[j] == b[j - |a|] && a[i] in a && b[j - |a|] in b;
      } else {
        assert c[i] == b[i - |a|] && c[j] == b[j - |a|];
      }
    }
  }

  /** Of `cap` + 1 requests in a row, in order of offset, one does not begin where the one before ends. */
  ghost predicate NoLongChain(ms: seq<Request>, cap: int)
  {
    forall i :: 0 <= i < |ms| - cap ==> GapAfter(ms, i, cap)
  }

  ghost predicate GapAfter(ms: seq<Request>, i: int, cap: int)
  {
    exists k :: i < k <= i + cap && GapAt(ms, k)
  }

  ghost predicate GapAt(ms: seq<Request>, k: int)
  {
    0 < k < |ms| && ms[k - 1].End() != ms[k].offset
  }

  lemma ShortChainsInTail(ms: seq<Request>, n: nat, cap: int)
    requires NoLongChain(ms, cap) && n <= |ms| && cap >= 1
    ensures NoLongChain(ms[n..], cap)
  {
    var tail := ms[n..];
    forall i | 0 <= i < |tail| - cap ensures GapAfter(tail, i, cap) {
      assert GapAfter(ms, i + n, cap);
      var k :| i + n < k <= i + n + cap && GapAt(ms, k);
      assert GapAt(tail, k - n);
    }
  }

  /** Two entries in a row that touch hold together more than `cap` requests without gaps. */
  lemma TouchingEntriesMakeChain(q: seq<Entry>, cap: int)
    requires |q| > 1 && Tiled(q, cap) && q[0].End() == q[1].offset
    ensures var ms := Members(q);
            && cap < q[0].Size() + q[1].Size() <= |ms|
            && (forall k :: 0 < k < q[0].Size() + q[1].Size() ==> !GapAt(ms, k))
            && !NoLongChain(ms, cap)
  {
    var ms, a, b := Members(q), q[0].members, q[1].members;
    assert TileFits(q[0], cap) && TileFits(q[1], cap);
    assert Members(q[1..]) == b + Members(q[1..][1..]) && ms == a + Members(q[1..]);
    forall k | 0 < k < |a| + |b| ensures !GapAt(ms, k) {
      assert ms[k] == if k < |a| then a[k] else b[k - |a|];
      assert ms[k - 1] == if k - 1 < |a| then a[k - 1] else b[k - 1 - |a|];
    }
    assert !GapAfter(ms, 0, cap);
  }

  /**
   * The first entry holds a prefix of the pending requests without gaps, and while the cap does not
   * bind a gap follows it.
   */
  lemma {:induction false} FirstEntryIsMaximalPrefix(q: seq<Entry>, cap: int)
    requires q != [] && Tiled(q, cap) && cap >= 1 && NoLongChain(Members(q), cap)
    ensures var ms, n := Members(q), q[0].Size();
            && 0 < n <= |ms| && ms[..n] == q[0].members && ms[n..] == Members(q[1..])
            && (forall k :: 0 < k < n ==> ms[k - 1].End() == ms[k].offset)
            && (n < |ms| ==> ms[n - 1].End() != ms[n].offset)
  {
    assert TileFits(q[0], cap);
    var ms, n := Members(q), q[0].Size();
    assert ms == q[0].members + Members(q[1..]);
    assert forall k :: 0 <= k < n ==> ms[k] == q[0].members[k];
    if n < |ms| {
      assert q[1..] != [];
      assert TileFits(q[1], cap);
      assert Members(q[1..]) == q[1].members + Members(q[1..][1..]);
      assert ms[n] == q[1].members[0];
      assert ms[n].offset == q[1].offset && ms[n - 1].End() == q[0].End();
      if q[0].End() == q[1].offset {
        TouchingEntriesMakeChain(q, cap);
      }
    }
  }

  /** The size cap does not decide where these requests are divided into entries. */
  ghost predicate CapDoesNotMatter(ms: seq<Request>, cap: int)
  {
    cap == 1 || NoLongChain(ms, cap)
  }

  lemma SameFirstEntry(p: seq<Entry>, q: seq<Entry>, cap: int)
    requires p != [] && q != [] && Tiled(p, cap) && Tiled(q, cap)
    requires Members(p) == Members(q) && cap >= 1 && CapDoesNotMatter(Members(p), cap)
    ensures p[0].members == q[0].members && Members(p[1..]) == Members(q[1..])
  {
    if cap == 1 {
      assert TileFits(p[0], cap) && TileFits(q[0], cap);
      assert p[0].members == [Members(p)[0]] && q[0].members == [Members(q)[0]];
    } else {
      FirstEntryIsMaximalPrefix(p, cap);
      FirstEntryIsMaximalPrefix(q, cap);
      assert p[0].Size() == q[0].Size();
    }
    assert Members(p) == p[0].members + Members(p[1..]) && Members(q) == q[0].members + Members(q[1..]);
    SameRestOf(p[0].members, Members(p[1..]), Members(q[1..]));
  }

  lemma SameRestOf<T>(a: seq<T>, b: seq<T>, c: seq<T>)
    requires a + b == a + c
    ensures b == c
  {
    assert (a + b)[|a|..] == b && (a + c)[|a|..] == c;
  }

  lemma TailOk(q: seq<Entry>, cap: int)
    requires Tiled(q, cap) && QueueOk(q, cap) && q != []
    ensures Tiled(q[1..], cap) && QueueOk(q[1..], cap) && EntryOk(q[0])
  {
    TailTiled(q, cap);
    RemoveKeepsSummary(q, 0, cap);
    assert q[..0] + q[0 + 1..] == q[1..];
    assert EntryFits(q[0], cap);
  }

  lemma NoMembersNoEntries(q: seq<Entry>, cap: int)
    requires Tiled(q, cap)
    ensures Members(q) == [] <==> q == []
  {
    if q != [] { assert TileFits(q[0], cap); }
  }

  lemma CapInTail(q: seq<Entry>, cap: int)
    requires q != [] && cap >= 1 && CapDoesNotMatter(Members(q), cap)
    ensures Members(q)[q[0].Size()..] == Members(q[1..]) && CapDoesNotMatter(Members(q[1..]), cap)
  {
    assert Members(q) == q[0].members + Members(q[1..]);
    if cap > 1 {
      ShortChainsInTail(Members(q), q[0].Size(), cap);
    }
  }

  /** A list of requests has at most one tiling that is maximally merged. */
  lemma {:induction false} TilingUnique(p: seq<Entry>, q: seq<Entry>, cap: int)
    requires Tiled(p, cap) && Tiled(q, cap) && QueueOk(p, cap) && QueueOk(q, cap)
    requires Members(p) == Members(q) && cap >= 1 && CapDoesNotMatter(Members(p), cap)
    ensures p == q
    decreases |p|
  {
    NoMembersNoEntries(p, cap);
    NoMembersNoEntries(q, cap);
    if p == [] {
    } else {
      SameFirstEntry(p, q, cap);
      TailOk(p, cap);
      TailOk(q, cap);
      MembersDetermineEntry(p[0], q[0]);
      CapInTail(p, cap);
      TilingUnique(p[1..], q[1..], cap);
      assert p == [p[0]] + p[1..] && q == [q[0]] + q[1..];
    }
  }

  lemma NoOverlapPositive(evs: seq<Event>, cap: int)
    requires NoOverlap([], evs, cap)
    ensures NonNegativeArrivals(evs)
  {
  }
}
