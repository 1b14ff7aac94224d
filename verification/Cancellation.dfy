/** Cancelling a queued request in an aggregating queue, as functions on values. */
module Cancellation {
  import opened Requests
  import opened Aggregation
  import opened Tiling

  predicate Matches(r: Request, len: int, offset: int)
  {
    r.len == len && r.offset == offset
  }

  /** The index of the first member that matches, or the number of members. */
  function FirstMatch(rs: seq<Request>, len: int, offset: int): (k: nat)
    ensures k <= |rs|
    ensures forall j :: 0 <= j < k ==> !Matches(rs[j], len, offset)
    ensures k < |rs| ==> Matches(rs[k], len, offset)
  {
    if rs == [] || Matches(rs[0], len, offset) then 0 else 1 + FirstMatch(rs[1..], len, offset)
  }

  /** Whether the search finds the request in `e`; it skips virtual requests whose interval excludes it. */
  predicate FoundIn(e: Entry, len: int, offset: int)
  {
    if e.Size() == 1 then e.len == len && e.offset == offset
    else e.offset <= offset && e.End() >= offset + len && FirstMatch(e.members, len, offset) < |e.members|
  }

  function FindEntry(q: seq<Entry>, len: int, offset: int): (k: nat)
    ensures k <= |q|
    ensures forall j :: 0 <= j < k ==> !FoundIn(q[j], len, offset)
    ensures k < |q| ==> FoundIn(q[k], len, offset)
  {
    if q == [] || FoundIn(q[0], len, offset) then 0 else 1 + FindEntry(q[1..], len, offset)
  }

  /** One step of the recomputation: the interval and minima of `e` extended by `r`. */
  function Extended(e: Entry, r: Request): Entry
  {
    var lo := Min(e.offset, r.offset);
    var end := if r.End() > e.End() then r.End() else e.End();
    Entry(lo, end - lo, Min(e.arrival, r.arrival), Min(e.timestamp, r.timestamp), e.members + [r])
  }

  /** The entry recomputed by going over all its remaining members. */
  function Recomputed(rs: seq<Request>): Entry
    requires rs != []
  {
    if |rs| == 1 then Lone(rs[0]) else Extended(Recomputed(rs[..|rs| - 1]), rs[|rs| - 1])
  }

  function Without<T>(s: seq<T>, k: nat): seq<T>
    requires k < |s|
  {
    s[..k] + s[k + 1..]
  }

  function Cancel(q: seq<Entry>, len: int, offset: int): seq<Entry>
  {
    var k := FindEntry(q, len, offset);
    if k == |q| then q
    else if q[k].Size() == 1 then Without(q, k)
    else
      var rest := Without(q[k].members, FirstMatch(q[k].members, len, offset));
      q[k := Recomputed(rest)]
  }

  // ---------------------------------------------------------------------------------------------
  // The interval of an entry is the hull of its members
  // ---------------------------------------------------------------------------------------------

  ghost predicate IsMaximum(x: int, s: seq<Request>, key: Request -> int)
  {
    (exists k :: 0 <= k < |s| && key(s[k]) == x) && forall k :: 0 <= k < |s| ==> key(s[k]) <= x
  }

  const END: Request -> int := (r: Request) => r.End()

  ghost predicate HullOk(e: Entry)
  {
    && e.members != []
    && IsMinimum(e.offset, e.members, OFFSET)
    && IsMaximum(e.End(), e.members, END)
    && IsMinimum(e.arrival, e.members, ARRIVAL)
    && IsMinimum(e.timestamp, e.members, TIMESTAMP)
  }

  ghost predicate AllHullOk(q: seq<Entry>)
  {
    forall e :: e in q ==> HullOk(e)
  }

  lemma MaximumExtends(x: int, y: int, s: seq<Request>, r: Request, key: Request -> int)
    requires IsMaximum(x, s, key) && y == if key(r) > x then key(r) else x
    ensures IsMaximum(y, s + [r], key)
  {
    var k :| 0 <= k < |s| && key(s[k]) == x;
    var b := s + [r];
    assert b[k] == s[k] && b[|s|] == r;
    forall i | 0 <= i < |b| ensures key(b[i]) <= y {
      assert b[i] == if i == |s| then r else s[i];
    }
    assert key(b[k]) == y || key(b[|s|]) == y;
  }

  /** The recomputed entry has exactly the hull and the minima of the members. */
  lemma {:induction false} RecomputedIsHull(rs: seq<Request>)
    requires rs != []
    ensures HullOk(Recomputed(rs)) && Recomputed(rs).members == rs
  {
    if |rs| == 1 {
      var m := Lone(rs[0]).members;
      assert m[0] == rs[0] && rs == m;
      assert OFFSET(m[0]) == rs[0].offset && END(m[0]) == rs[0].End();
      assert ARRIVAL(m[0]) == rs[0].arrival && TIMESTAMP(m[0]) == rs[0].timestamp;
    } else {
      var init, r := rs[..|rs| - 1], rs[|rs| - 1];
      RecomputedIsHull(init);
      var e := Recomputed(init);
      assert rs == init + [r];
      MinimumExtends(e.offset, Min(e.offset, r.offset), init, r, OFFSET);
      MaximumExtends(e.End(), Extended(e, r).End(), init, r, END);
      MinimumExtends(e.arrival, Min(e.arrival, r.arrival), init, r, ARRIVAL);
      MinimumExtends(e.timestamp, Min(e.timestamp, r.timestamp), init, r, TIMESTAMP);
    }
  }

  lemma RecomputedMembers(rs: seq<Request>)
    requires rs != []
    ensures Recomputed(rs).members == rs
  {
    RecomputedIsHull(rs);
  }

  /** A matching request is queued in an entry of its own, or inside the recorded interval of its entry. */
  ghost predicate Cancellable(q: seq<Entry>, len: int, offset: int)
  {
    exists n, m :: 0 <= n < |q| && m in q[n].members && Matches(m, len, offset)
                   && (q[n].Size() == 1 || (q[n].offset <= offset && offset + len <= q[n].End()))
  }

  lemma FoundIsMember(e: Entry, len: int, offset: int) returns (m: Request)
    requires SimpleOk(e) && FoundIn(e, len, offset)
    ensures m in e.members && Matches(m, len, offset)
    ensures e.Size() == 1 || (e.offset <= offset && offset + len <= e.End())
  {
    m := if e.Size() == 1 then e.members[0] else e.members[FirstMatch(e.members, len, offset)];
  }

  /** Whatever was added and cancelled before, the search succeeds exactly for such a request. */
  lemma FindsIffCancellable(q: seq<Entry>, len: int, offset: int)
    requires forall e :: e in q ==> SimpleOk(e)
    ensures FindEntry(q, len, offset) < |q| <==> Cancellable(q, len, offset)
  {
    var k := FindEntry(q, len, offset);
    if k < |q| {
      var m := FoundIsMember(q[k], len, offset);
    }
    if Cancellable(q, len, offset) {
      var n, m :| 0 <= n < |q| && m in q[n].members && Matches(m, len, offset)
                  && (q[n].Size() == 1 || (q[n].offset <= offset && offset + len <= q[n].End()));
      assert SimpleOk(q[n]);
      assert FirstMatch(q[n].members, len, offset) < |q[n].members|;
      assert FoundIn(q[n], len, offset);
    }
  }

  /** With exact hulls the interval test never hides a match. */
  lemma FoundIffMember(e: Entry, len: int, offset: int)
    requires HullOk(e)
    ensures FoundIn(e, len, offset) <==> exists m :: m in e.members && Matches(m, len, offset)
  {
    var ms := e.members;
    var k := FirstMatch(ms, len, offset);
    if m :| m in ms && Matches(m, len, offset) {
      var i :| 0 <= i < |ms| && ms[i] == m;
      assert e.offset <= OFFSET(ms[i]) && END(ms[i]) <= e.End();
      assert k < |ms|;
    }
    if e.Size() == 1 {
      assert OFFSET(ms[0]) == e.offset && END(ms[0]) == e.End();
    } else if k < |ms| {
      assert ms[k] in ms;
    }
  }

  lemma WithoutOne<T>(s: seq<T>, k: nat)
    requires k < |s|
    ensures multiset(s) == multiset(Without(s, k)) + multiset{s[k]}
  {
    assert s == s[..k] + [s[k]] + s[k + 1..];
  }

  lemma ReplaceMembers(q: seq<Entry>, k: nat, e: Entry)
    requires k < |q|
    ensures multiset(Members(q[k := e])) + multiset(q[k].members) == multiset(Members(q)) + multiset(e.members)
  {
    assert q[k := e] == q[..k] + [e] + q[k + 1..];
    MembersSplice(q, k, k + 1, [e]);
    assert q[k..k + 1] == [q[k]];
    MembersSingle(q[k]);
    MembersSingle(e);
  }

  /** The request that a cancellation takes out of the queue. */
  function Cancelled(q: seq<Entry>, len: int, offset: int): Request
    requires FindEntry(q, len, offset) < |q|
  {
    var e := q[FindEntry(q, len, offset)];
    if e.Size() == 1 then e.members[0] else e.members[FirstMatch(e.members, len, offset)]
  }

  /** Entries of one request are that request. */
  predicate SimpleOk(e: Entry)
  {
    e.members != [] && (e.Size() == 1 ==> e == Lone(e.members[0]))
  }

  lemma CancelledMatches(q: seq<Entry>, len: int, offset: int)
    requires FindEntry(q, len, offset) < |q| && forall e :: e in q ==> SimpleOk(e)
    ensures Matches(Cancelled(q, len, offset), len, offset)
  {
    assert SimpleOk(q[FindEntry(q, len, offset)]);
  }

  lemma CancelKeepsSimpleOk(q: seq<Entry>, len: int, offset: int)
    requires forall e :: e in q ==> SimpleOk(e)
    ensures forall e :: e in Cancel(q, len, offset) ==> SimpleOk(e)
  {
    var k := FindEntry(q, len, offset);
    if k < |q| && q[k].Size() != 1 {
      RecomputedIsHull(Without(q[k].members, FirstMatch(q[k].members, len, offset)));
    }
  }

  lemma HullIsSimpleOk(e: Entry)
    requires HullOk(e)
    ensures SimpleOk(e)
  {
    if e.Size() == 1 {
      var ms := e.members;
      assert OFFSET(ms[0]) == e.offset && END(ms[0]) == e.End();
      assert ARRIVAL(ms[0]) == e.arrival && TIMESTAMP(ms[0]) == e.timestamp;
    }
  }

  lemma SwapParts<T>(now: multiset<T>, before: multiset<T>, whole: multiset<T>, rest: multiset<T>, one: multiset<T>)
    requires now + whole == before + rest && whole == rest + one
    ensures before == now + one
  {
    forall x ensures before[x] == (now + one)[x] {
      assert (now + whole)[x] == (before + rest)[x];
    }
  }

  lemma ShrinkTakesOne(q: seq<Entry>, k: nat, j: nat)
    requires k < |q| && q[k].Size() > 1 && j < q[k].Size()
    ensures multiset(Members(q))
         == multiset(Members(q[k := Recomputed(Without(q[k].members, j))])) + multiset{q[k].members[j]}
  {
    var ms := q[k].members;
    var rest := Without(ms, j);
    WithoutOne(ms, j);
    RecomputedMembers(rest);
    ReplaceMembers(q, k, Recomputed(rest));
    SwapParts(multiset(Members(q[k := Recomputed(rest)])), multiset(Members(q)), multiset(ms), multiset(rest),
              multiset{ms[j]});
  }

  lemma RemoveTakesOne(q: seq<Entry>, k: nat)
    requires k < |q| && q[k].Size() == 1
    ensures multiset(Members(q)) == multiset(Members(Without(q, k))) + multiset{q[k].members[0]}
  {
    RemoveKeepsRequests(q, k);
    assert q[k].members == [q[k].members[0]];
  }

  lemma CancelTakesOne(q: seq<Entry>, len: int, offset: int)
    requires FindEntry(q, len, offset) < |q|
    ensures multiset(Members(q)) == multiset(Members(Cancel(q, len, offset))) + multiset{Cancelled(q, len, offset)}
  {
    var k := FindEntry(q, len, offset);
    if q[k].Size() == 1 {
      RemoveTakesOne(q, k);
    } else {
      ShrinkTakesOne(q, k, FirstMatch(q[k].members, len, offset));
    }
  }

  lemma CancelKeepsHulls(q: seq<Entry>, len: int, offset: int)
    requires AllHullOk(q)
    ensures AllHullOk(Cancel(q, len, offset))
  {
    var k := FindEntry(q, len, offset);
    if k < |q| && q[k].Size() > 1 {
      RecomputedIsHull(Without(q[k].members, FirstMatch(q[k].members, len, offset)));
    }
  }

  /**
   * Cancelling a (len, offset): if some queued request matches, exactly one such request leaves the
   * queue; otherwise the queue stays as it is. Exact hulls stay exact.
   */
  lemma CancelRemovesExactlyOneMatch(q: seq<Entry>, len: int, offset: int)
    requires AllHullOk(q)
    ensures AllHullOk(Cancel(q, len, offset))
    ensures (exists m :: m in Members(q) && Matches(m, len, offset)) ==>
              FindEntry(q, len, offset) < |q| && Matches(Cancelled(q, len, offset), len, offset)
              && multiset(Members(q)) == multiset(Members(Cancel(q, len, offset))) + multiset{Cancelled(q, len, offset)}
    ensures !(exists m :: m in Members(q) && Matches(m, len, offset)) ==> Cancel(q, len, offset) == q
  {
    CancelKeepsHulls(q, len, offset);
    var k := FindEntry(q, len, offset);
    if m :| m in Members(q) && Matches(m, len, offset) {
      InMembers(q, m);
      var n :| 0 <= n < |q| && m in q[n].members;
      assert HullOk(q[n]);
      FoundIffMember(q[n], len, offset);
      CancelTakesOne(q, len, offset);
      forall e | e in q ensures SimpleOk(e) { HullIsSimpleOk(e); }
      CancelledMatches(q, len, offset);
    } else if k < |q| {
      assert HullOk(q[k]);
      FoundIffMember(q[k], len, offset);
      var m :| m in q[k].members && Matches(m, len, offset);
      InMembers(q, m);
    }
  }

  lemma FewerHaveLargerMinimum(x: int, y: int, s: seq<Request>, t: seq<Request>, key: Request -> int)
    requires IsMinimum(x, s, key) && IsMinimum(y, t, key)
    requires forall r :: r in t ==> r in s
    ensures x <= y
  {
    var i :| 0 <= i < |t| && key(t[i]) == y;
    assert t[i] in s;
  }

  lemma FewerHaveSmallerMaximum(x: int, y: int, s: seq<Request>, t: seq<Request>, key: Request -> int)
    requires IsMaximum(x, s, key) && IsMaximum(y, t, key)
    requires forall r :: r in t ==> r in s
    ensures y <= x
  {
    var i :| 0 <= i < |t| && key(t[i]) == y;
    assert t[i] in s;
  }

  lemma WithoutIsWithin(s: seq<Request>, j: nat)
    requires j < |s|
    ensures forall r :: r in Without(s, j) ==> r in s
  {
  }

  lemma ShrunkHull(e: Entry, j: nat)
    requires HullOk(e) && e.Size() > 1 && j < e.Size()
    ensures var s := Recomputed(Without(e.members, j)); e.offset <= s.offset && s.End() <= e.End()
  {
    var rest := Without(e.members, j);
    RecomputedIsHull(rest);
    var s := Recomputed(rest);
    WithoutIsWithin(e.members, j);
    FewerHaveLargerMinimum(e.offset, s.offset, e.members, rest, OFFSET);
    FewerHaveSmallerMaximum(e.End(), s.End(), e.members, rest, END);
  }

  /**
   * Only the entry found changes: a simple request leaves, a virtual one shrinks in its place, and
   * one of two members leaves the other as a simple request at the same position of the queue.
   */
  lemma CancelKeepsPositions(q: seq<Entry>, len: int, offset: int)
    requires AllHullOk(q) && FindEntry(q, len, offset) < |q|
    ensures var k := FindEntry(q, len, offset);
            var c := Cancel(q, len, offset);
            if q[k].Size() == 1 then c == q[..k] + q[k + 1..]
            else |c| == |q| && c == q[k := c[k]]
                 && HullOk(c[k]) && q[k].offset <= c[k].offset && c[k].End() <= q[k].End()
                 && (q[k].Size() == 2 ==> exists m :: m in q[k].members && c[k] == Lone(m))
  {
    var k := FindEntry(q, len, offset);
    assert HullOk(q[k]);
    if q[k].Size() > 1 {
      var j := FirstMatch(q[k].members, len, offset);
      ShrunkHull(q[k], j);
      RecomputedIsHull(Without(q[k].members, j));
      if q[k].Size() == 2 {
        assert q[k].members[1 - j] in q[k].members;
        assert Without(q[k].members, j) == [q[k].members[1 - j]];
      }
    }
  }
}
