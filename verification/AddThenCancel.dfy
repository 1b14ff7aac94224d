/**
 * Cancelling a request that was just added: exactly when it takes the request out again, and
 * exactly when it restores the whole queue, for any queue that additions, dispatches and
 * cancellations can produce.
 */
module AddThenCancel {
  import opened Requests
  import opened Sequences
  import opened Aggregation
  import T = Tiling
  import opened Cancellation
  import opened Overlaps

  /** The condition on the neighbours of the insertion point under which the newcomer ends inside its entry. */
  predicate NewcomerInside(q: seq<Entry>, k: nat, r: Request, cap: int)
    requires k <= |q|
  {
    if GluesEntries(q, k, r, cap) then r.End() <= GluedEnd(q[k - 1], r, q[k])
    else if JoinsPrevious(q, k, r, cap) then r.offset == q[k - 1].offset ==> r.len <= q[k - 1].len
    else if JoinsNext(q, k, r, cap) then r.End() <= q[k].End()
    else true
  }

  predicate HasMatch(ms: seq<Request>, len: int, offset: int)
  {
    FirstMatch(ms, len, offset) < |ms|
  }

  /**
   * The condition on the same neighbours under which no request of the newcomer's length and offset
   * stands before it in its entry.
   */
  predicate StandsFirst(q: seq<Entry>, k: nat, r: Request, cap: int)
    requires k <= |q|
  {
    JoinsPrevious(q, k, r, cap) ==>
      && (r.offset == q[k - 1].offset || !HasMatch(q[k - 1].members, r.len, r.offset))
      && (GluesEntries(q, k, r, cap) && r.offset == q[k - 1].offset ==> !HasMatch(q[k].members, r.len, r.offset))
  }

  /** No entry before that of the newcomer stops the search for it. */
  predicate NothingFoundBefore(q: seq<Entry>, k: nat, r: Request, cap: int)
    requires k <= |q|
  {
    forall x :: 0 <= x < (if JoinsPrevious(q, k, r, cap) then k - 1 else k) ==> !FoundIn(q[x], r.len, r.offset)
  }

  /** The condition on the queue before the addition under which the search ends at the newcomer. */
  predicate NewcomerFound(q: seq<Entry>, k: nat, r: Request, cap: int)
    requires k <= |q|
  {
    NewcomerInside(q, k, r, cap) && NothingFoundBefore(q, k, r, cap) && StandsFirst(q, k, r, cap)
  }

  // ---------------------------------------------------------------------------------------------
  // Whether the newcomer is found
  // ---------------------------------------------------------------------------------------------

  lemma NewcomerInMerged(q: seq<Entry>, k: nat, r: Request, cap: int)
    requires k <= |q|
    ensures r in Merged(q, k, r, cap).2.members
  {
    MergedMembers(q, k, r, cap);
    assert r in multiset(Merged(q, k, r, cap).2.members);
  }

  /** In an entry that holds it, a request is found if and only if it ends by the recorded end. */
  lemma MemberFoundIff(e: Entry, r: Request)
    requires SummaryOk(e) && r in e.members
    ensures FoundIn(e, r.len, r.offset) <==> r.End() <= e.End()
  {
    SummaryIsSimple(e);
    assert Matches(r, r.len, r.offset);
    var k :| 0 <= k < |e.members| && e.members[k] == r;
    assert e.offset <= OFFSET(e.members[k]);
  }

  lemma MergedFoundIff(q: seq<Entry>, r: Request, cap: int)
    requires AllSummaryOk(q)
    ensures var k := InsertionPoint(q, r);
            FoundIn(Merged(q, k, r, cap).2, r.len, r.offset) <==> NewcomerInside(q, k, r, cap)
  {
    var k := InsertionPoint(q, r);
    NewcomerInMerged(q, k, r, cap);
    MergedSummary(q, k, r, cap);
    MemberFoundIff(Merged(q, k, r, cap).2, r);
    MergedEnd(q, r, cap);
  }

  /** An entry outside the range that the addition replaces. */
  predicate Elsewhere(q: seq<Entry>, r: Request, cap: int, x: int)
  {
    var (i, j, _) := Merged(q, InsertionPoint(q, r), r, cap);
    0 <= x < i || j <= x < |q|
  }

  lemma ElsewhereStays(q: seq<Entry>, r: Request, cap: int, x: int)
    requires Elsewhere(q, r, cap, x)
    ensures var (i, j, _) := Merged(q, InsertionPoint(q, r), r, cap);
            var y := if x < i then x else x - j + i + 1;
            0 <= y < |Add(q, r, cap)| && y != i && Add(q, r, cap)[y] == q[x]
  {
    var (i, j, e) := Merged(q, InsertionPoint(q, r), r, cap);
    assert Add(q, r, cap) == (q[..i] + [e]) + q[j..] && |q[..i] + [e]| == i + 1;
    assert x >= j ==> q[j..][x - j] == q[x];
  }

  /** Every entry after the addition but the newcomer's was there before. */
  lemma AddedFrom(q: seq<Entry>, r: Request, cap: int, n: nat) returns (y: nat)
    requires n < |Add(q, r, cap)| && n != Merged(q, InsertionPoint(q, r), r, cap).0
    ensures y < |q| && Elsewhere(q, r, cap, y) && Add(q, r, cap)[n] == q[y]
  {
    var (i, j, e) := Merged(q, InsertionPoint(q, r), r, cap);
    assert Add(q, r, cap) == (q[..i] + [e]) + q[j..] && |q[..i] + [e]| == i + 1;
    y := if n < i then n else n - i - 1 + j;
    assert n > i ==> q[j..][n - i - 1] == q[y];
  }

  /** The newcomer ends inside its entry, or an entry that does not change holds a match. */
  predicate SomethingFound(q: seq<Entry>, r: Request, cap: int)
  {
    NewcomerInside(q, InsertionPoint(q, r), r, cap) ||
    exists x :: 0 <= x < |q| && Elsewhere(q, r, cap, x) && FoundIn(q[x], r.len, r.offset)
  }

  /** After an addition some request of the newcomer's length and offset can be cancelled exactly then. */
  lemma FindsAfterAddIff(q: seq<Entry>, r: Request, cap: int)
    requires AllSummaryOk(q)
    ensures FindEntry(Add(q, r, cap), r.len, r.offset) < |Add(q, r, cap)| <==> SomethingFound(q, r, cap)
  {
    var k := InsertionPoint(q, r);
    var (i, j, e) := Merged(q, k, r, cap);
    var a := Add(q, r, cap);
    MergedFoundIff(q, r, cap);
    assert a[i] == e;
    var n := FindEntry(a, r.len, r.offset);
    if n < |a| && n != i {
      var x := AddedFrom(q, r, cap, n);
    }
    if x :| 0 <= x < |q| && Elsewhere(q, r, cap, x) && FoundIn(q[x], r.len, r.offset) {
      ElsewhereStays(q, r, cap, x);
    }
  }

  /** The search reaches the newcomer's entry, and stops there, if and only if no entry before stops it. */
  lemma StopsAtNewcomerIff(q: seq<Entry>, r: Request, cap: int)
    requires AllSummaryOk(q)
    ensures var k := InsertionPoint(q, r);
            FindEntry(Add(q, r, cap), r.len, r.offset) == Merged(q, k, r, cap).0 <==>
              NewcomerInside(q, k, r, cap) && NothingFoundBefore(q, k, r, cap)
  {
    var a, k := Add(q, r, cap), InsertionPoint(q, r);
    var (i, j, e) := Merged(q, k, r, cap);
    MergedFoundIff(q, r, cap);
    assert a[i] == e && forall x :: 0 <= x < i ==> a[x] == q[x];
  }

  // ---------------------------------------------------------------------------------------------
  // Which of several matches is found in the newcomer's entry
  // ---------------------------------------------------------------------------------------------

  /** The member that the search among `ms` finds. */
  function Picked(ms: seq<Request>, len: int, offset: int): Request
    requires HasMatch(ms, len, offset)
  {
    ms[FirstMatch(ms, len, offset)]
  }

  lemma {:induction false} FirstMatchConcat(a: seq<Request>, b: seq<Request>, len: int, offset: int)
    ensures FirstMatch(a + b, len, offset) ==
            if HasMatch(a, len, offset) then FirstMatch(a, len, offset) else |a| + FirstMatch(b, len, offset)
    decreases |a|
  {
    if a == [] {
      assert a + b == b;
    } else {
      assert (a + b)[0] == a[0] && (a + b)[1..] == a[1..] + b;
      FirstMatchConcat(a[1..], b, len, offset);
    }
  }

  lemma AbsorbPicks(e: Entry, m: Request, len: int, offset: int)
    ensures var ms := Absorb(e, m).members;
            && (HasMatch(ms, len, offset) <==> HasMatch(e.members, len, offset) || Matches(m, len, offset))
            && (HasMatch(ms, len, offset) ==>
                  Picked(ms, len, offset) ==
                  if Matches(m, len, offset) && (m.offset <= e.offset || !HasMatch(e.members, len, offset)) then m
                  else Picked(e.members, len, offset))
  {
    FirstMatchConcat([m], e.members, len, offset);
    FirstMatchConcat(e.members, [m], len, offset);
    assert FirstMatch([m], len, offset) == if Matches(m, len, offset) then 0 else 1;
  }

  /**
   * When the members of the next entry are included one by one, those that start where the entry does
   * are put in front of its own members, and all others behind.
   */
  lemma {:induction false} AbsorbAllPicks(e: Entry, ms: seq<Request>, len: int, offset: int)
    requires HasMatch(e.members, len, offset) && e.offset <= offset && forall m :: m in ms ==> e.offset <= m.offset
    ensures var all := AbsorbAll(e, ms).members;
            && HasMatch(all, len, offset)
            && if offset == e.offset && HasMatch(ms, len, offset) then Picked(all, len, offset) in ms
               else Picked(all, len, offset) == Picked(e.members, len, offset)
    decreases |ms|
  {
    if ms == [] {
    } else {
      AbsorbPicks(e, ms[0], len, offset);
      AbsorbAllPicks(Absorb(e, ms[0]), ms[1..], len, offset);
    }
  }

  /** In the newcomer's entry the newcomer is found, or a request of one of the entries that it joined. */
  lemma MergedPicks(q: seq<Entry>, r: Request, cap: int)
    requires AllSummaryOk(q)
    ensures var k := InsertionPoint(q, r);
            var ms := Merged(q, k, r, cap).2.members;
            && HasMatch(ms, r.len, r.offset)
            && if StandsFirst(q, k, r, cap) then Picked(ms, r.len, r.offset) == r
               else Picked(ms, r.len, r.offset) in q[k - 1].members ||
                    (GluesEntries(q, k, r, cap) && Picked(ms, r.len, r.offset) in q[k].members)
  {
    var k := InsertionPoint(q, r);
    if JoinsPrevious(q, k, r, cap) {
      var p := q[k - 1];
      AbsorbPicks(p, r, r.len, r.offset);
      if GluesEntries(q, k, r, cap) {
        assert SummaryOk(q[k]);
        MembersStartLater(q[k], p.offset);
        AbsorbAllPicks(Absorb(p, r), q[k].members, r.len, r.offset);
      }
    } else if JoinsNext(q, k, r, cap) {
      AbsorbPicks(q[k], r, r.len, r.offset);
    }
  }

  // ---------------------------------------------------------------------------------------------
  // The pending requests are restored
  // ---------------------------------------------------------------------------------------------

  lemma MemberIsQueued(q: seq<Entry>, n: nat, m: Request)
    requires n < |q| && m in q[n].members
    ensures m in Members(q)
  {
    InMembers(q, m);
  }

  lemma CancelledIsPicked(a: seq<Entry>, len: int, offset: int)
    requires FindEntry(a, len, offset) < |a| && SummaryOk(a[FindEntry(a, len, offset)])
    ensures var ms := a[FindEntry(a, len, offset)].members;
            HasMatch(ms, len, offset) && Cancelled(a, len, offset) == Picked(ms, len, offset)
            && Cancelled(a, len, offset) in ms
  {
    SummaryIsSimple(a[FindEntry(a, len, offset)]);
  }

  lemma MergedStands(q: seq<Entry>, r: Request, cap: int)
    ensures var (i, j, e) := Merged(q, InsertionPoint(q, r), r, cap); i < |Add(q, r, cap)| && Add(q, r, cap)[i] == e
  {
  }

  /** The cancellation takes out the newcomer or a request that was queued before. */
  lemma CancelledWhere(q: seq<Entry>, r: Request, cap: int)
    requires AllSummaryOk(q) && FindEntry(Add(q, r, cap), r.len, r.offset) < |Add(q, r, cap)|
    ensures var x := Cancelled(Add(q, r, cap), r.len, r.offset);
            Matches(x, r.len, r.offset) && if NewcomerFound(q, InsertionPoint(q, r), r, cap) then x == r
              else x in Members(q)
  {
    var a, k := Add(q, r, cap), InsertionPoint(q, r);
    var (i, j, e) := Merged(q, k, r, cap);
    var n := FindEntry(a, r.len, r.offset);
    AddKeepsSummaries(q, r, cap);
    CancelledIsPicked(a, r.len, r.offset);
    StopsAtNewcomerIff(q, r, cap);
    var x := Cancelled(a, r.len, r.offset);
    if n == i {
      MergedStands(q, r, cap);
      MergedPicks(q, r, cap);
      if !StandsFirst(q, k, r, cap) {
        MemberIsQueued(q, if x in q[k - 1].members then k - 1 else k, x);
      }
    } else {
      var y := AddedFrom(q, r, cap, n);
      MemberIsQueued(q, y, x);
    }
  }

  /** Instead of the newcomer `r` another request like it left the queue, which is `b` then. */
  ghost predicate AnotherLeft(q: seq<Entry>, b: seq<Entry>, r: Request)
  {
    exists x :: x in Members(q) && x != r && Matches(x, r.len, r.offset)
                && multiset(Members(b)) + multiset{x} == multiset(Members(q)) + multiset{r}
  }

  /**
   * Cancelling the request just added restores the pending requests if and only if the request ends
   * inside the entry that took it in, and no request of the same length and offset is found before it.
   * If none is found, the cancellation changes nothing; if another is found, that one leaves instead.
   */
  lemma CancelUndoesAddIff(q: seq<Entry>, r: Request, cap: int)
    requires AllSummaryOk(q) && r !in Members(q)
    ensures var a, k := Add(q, r, cap), InsertionPoint(q, r);
            var b := Cancel(a, r.len, r.offset);
            && (multiset(Members(b)) == multiset(Members(q)) <==> NewcomerFound(q, k, r, cap))
            && (!SomethingFound(q, r, cap) ==> b == a)
            && (SomethingFound(q, r, cap) && !NewcomerFound(q, k, r, cap) ==> AnotherLeft(q, b, r))
  {
    var a := Add(q, r, cap);
    FindsAfterAddIff(q, r, cap);
    AddAddsExactly(q, r, cap);
    if SomethingFound(q, r, cap) {
      CancelledWhere(q, r, cap);
      CancelTakesOne(a, r.len, r.offset);
      OneForAnother(multiset(Members(a)), multiset(Members(q)), multiset(Members(Cancel(a, r.len, r.offset))), r,
                    Cancelled(a, r.len, r.offset));
    } else {
      assert multiset(Members(a))[r] == multiset(Members(q))[r] + 1;
    }
  }

  lemma OneForAnother<X>(whole: multiset<X>, a: multiset<X>, b: multiset<X>, r: X, x: X)
    requires whole == a + multiset{r} && whole == b + multiset{x}
    ensures a == b <==> x == r
  {
    if x == r {
      SameRest(whole, a, b, r);
    } else {
      assert whole[r] == a[r] + 1 && whole[r] == b[r];
    }
  }

  ghost predicate NoMatch(q: seq<Entry>, len: int, offset: int)
  {
    forall m :: m in Members(q) ==> !Matches(m, len, offset)
  }

  /** When no other request of this length and offset is queued, only the interval decides. */
  lemma FoundIfUnique(q: seq<Entry>, r: Request, cap: int)
    requires AllSummaryOk(q) && NoMatch(q, r.len, r.offset)
    ensures r !in Members(q)
    ensures var k := InsertionPoint(q, r); NewcomerFound(q, k, r, cap) <==> NewcomerInside(q, k, r, cap)
    ensures SomethingFound(q, r, cap) <==> NewcomerInside(q, InsertionPoint(q, r), r, cap)
  {
    forall x | 0 <= x < |q| ensures !FoundIn(q[x], r.len, r.offset) && !HasMatch(q[x].members, r.len, r.offset) {
      NotFoundWithoutMatch(q, x, r.len, r.offset);
    }
  }

  lemma NotFoundWithoutMatch(q: seq<Entry>, x: nat, len: int, offset: int)
    requires AllSummaryOk(q) && NoMatch(q, len, offset) && x < |q|
    ensures !FoundIn(q[x], len, offset) && !HasMatch(q[x].members, len, offset)
  {
    var ms := q[x].members;
    SummaryIsSimple(q[x]);
    forall m | m in ms ensures !Matches(m, len, offset) {
      MemberIsQueued(q, x, m);
    }
    assert ms[0] in ms && (HasMatch(ms, len, offset) ==> Picked(ms, len, offset) in ms);
  }

  /**
   * A request for the same block as the only one queued is put behind it if aggregation is not
   * allowed, and then the older one is cancelled instead.
   */
  lemma DuplicateIsCancelledInstead(d: Request, r: Request, cap: int)
    requires cap <= 1 && Matches(d, r.len, r.offset)
    ensures var q := Overlaps.Run([Event.Arrive(d)], cap);
            && q == [Lone(d)] && Cancel(Add(q, r, cap), r.len, r.offset) == [Lone(r)]
            && NewcomerInside(q, InsertionPoint(q, r), r, cap) && HolderExact(q, InsertionPoint(q, r), r, cap)
            && !GluesEntries(q, InsertionPoint(q, r), r, cap)
  {
    RunSnoc([], Event.Arrive(d), cap);
    assert [] + [Event.Arrive(d)] == [Event.Arrive(d)];
    AddToOne(Lone(d), d, cap);
    AddToOne(Lone(d), r, cap);
    assert InsertionPoint([Lone(d)], r) == 1;
    assert FindEntry([Lone(d), Lone(r)], r.len, r.offset) == 0;
  }

  lemma CancelInOne(e: Entry, len: int, offset: int)
    ensures Cancel([e], len, offset) ==
            (if !FoundIn(e, len, offset) then [e]
             else if e.Size() == 1 then []
             else [Recomputed(Without(e.members, FirstMatch(e.members, len, offset)))])
  {
    assert FindEntry([e], len, offset) == if FoundIn(e, len, offset) then 0 else 1;
  }

  /**
   * A request that covers the only one queued and starts no later is attached at its front, the
   * recorded end stays, and the request can never be cancelled.
   */
  lemma CoveringRequestCannotBeCancelled(n: Request, r: Request, cap: int)
    requires cap >= 2 && n.len >= 0 && r.offset <= n.offset && n.End() < r.End()
    ensures var q := Overlaps.Run([Event.Arrive(n), Event.Arrive(r)], cap);
            r in Members(q) && Cancel(q, r.len, r.offset) == q
  {
    RunOfTwo(Event.Arrive(n), Event.Arrive(r), cap);
    AddToOne(Lone(n), n, cap);
    AddToOne(Lone(n), r, cap);
    var e := Absorb(Lone(n), r);
    MembersSingle(e);
    assert e.members[0] == r && e.Size() == 2 && e.End() == n.End();
    CancelInOne(e, r.len, r.offset);
  }

  // ---------------------------------------------------------------------------------------------
  // The whole queue is restored
  // ---------------------------------------------------------------------------------------------

  lemma HullUnique(a: Entry, b: Entry)
    requires HullOk(a) && HullOk(b) && a.members == b.members
    ensures a == b
  {
    FewerHaveLargerMinimum(a.offset, b.offset, a.members, b.members, OFFSET);
    FewerHaveLargerMinimum(b.offset, a.offset, b.members, a.members, OFFSET);
    FewerHaveSmallerMaximum(a.End(), b.End(), a.members, b.members, END);
    FewerHaveSmallerMaximum(b.End(), a.End(), b.members, a.members, END);
    FewerHaveLargerMinimum(a.arrival, b.arrival, a.members, b.members, ARRIVAL);
    FewerHaveLargerMinimum(b.arrival, a.arrival, b.members, a.members, ARRIVAL);
    FewerHaveLargerMinimum(a.timestamp, b.timestamp, a.members, b.members, TIMESTAMP);
    FewerHaveLargerMinimum(b.timestamp, a.timestamp, b.members, a.members, TIMESTAMP);
  }

  /** The recomputation gives an entry back if and only if its interval is exact. */
  lemma RecomputedSameIff(e: Entry)
    requires SummaryOk(e)
    ensures Recomputed(e.members) == e <==> HullOk(e)
  {
    RecomputedIsHull(e.members);
    if HullOk(e) {
      HullUnique(Recomputed(e.members), e);
    }
  }

  /** Taking `r` out of the entry that consists of `e` and `r` leaves what is recomputed from `e`. */
  lemma ShrinkUndoesAbsorb(e: Entry, r: Request)
    requires r.offset <= e.offset || !HasMatch(e.members, r.len, r.offset)
    ensures var ms := Absorb(e, r).members;
            var j := FirstMatch(ms, r.len, r.offset);
            j < |ms| && Without(ms, j) == e.members
  {
    FirstMatchConcat([r], e.members, r.len, r.offset);
    FirstMatchConcat(e.members, [r], r.len, r.offset);
    assert FirstMatch([r], r.len, r.offset) == 0;
  }

  /** The entry that takes in the newcomer, when no entries are glued together, is exact before. */
  ghost predicate HolderExact(q: seq<Entry>, k: nat, r: Request, cap: int)
    requires k <= |q|
  {
    if JoinsPrevious(q, k, r, cap) then HullOk(q[k - 1])
    else if JoinsNext(q, k, r, cap) then HullOk(q[k])
    else true
  }

  lemma UpdateSameIff<T>(s: seq<T>, n: nat, x: T, y: T)
    requires n < |s|
    ensures s[n := x][n := y] == s <==> y == s[n]
  {
    assert s[n := x][n := y][n] == y;
  }

  lemma CancelFoundVirtual(a: seq<Entry>, n: nat, len: int, offset: int, rest: seq<Request>)
    requires n < |a| && FindEntry(a, len, offset) == n && a[n].Size() > 1 && rest != []
    requires FirstMatch(a[n].members, len, offset) < a[n].Size()
    requires Without(a[n].members, FirstMatch(a[n].members, len, offset)) == rest
    ensures Cancel(a, len, offset) == a[n := Recomputed(rest)]
  {
  }

  /** The newcomer was absorbed by the entry at `n`, where it is found, and nothing else changed. */
  lemma CancelAbsorbed(q: seq<Entry>, n: nat, r: Request)
    requires n < |q| && SummaryOk(q[n]) && (r.offset <= q[n].offset || !HasMatch(q[n].members, r.len, r.offset))
    requires FindEntry(q[n := Absorb(q[n], r)], r.len, r.offset) == n
    ensures Cancel(q[n := Absorb(q[n], r)], r.len, r.offset) == q <==> HullOk(q[n])
  {
    var e := q[n];
    ShrinkUndoesAbsorb(e, r);
    CancelFoundVirtual(q[n := Absorb(e, r)], n, r.len, r.offset, e.members);
    UpdateSameIff(q, n, Absorb(e, r), Recomputed(e.members));
    RecomputedSameIff(e);
  }

  lemma CancelInserted(q: seq<Entry>, k: nat, r: Request)
    requires k <= |q| && FindEntry(q[..k] + [Lone(r)] + q[k..], r.len, r.offset) == k
    ensures Cancel(q[..k] + [Lone(r)] + q[k..], r.len, r.offset) == q
  {
    var a := q[..k] + [Lone(r)] + q[k..];
    assert a[k] == Lone(r) && Without(a, k) == q;
  }

  lemma CancelNeverGrows(q: seq<Entry>, len: int, offset: int)
    ensures |Cancel(q, len, offset)| <= |q|
  {
  }

  lemma AddUnglued(q: seq<Entry>, k: nat, r: Request, cap: int)
    requires k <= |q| && !GluesEntries(q, k, r, cap)
    ensures JoinsPrevious(q, k, r, cap) ==>
              AddAt(q, k, r, cap) == q[k - 1 := Absorb(q[k - 1], r)] && Merged(q, k, r, cap).0 == k - 1
    ensures !JoinsPrevious(q, k, r, cap) && JoinsNext(q, k, r, cap) ==>
              AddAt(q, k, r, cap) == q[k := Absorb(q[k], r)] && Merged(q, k, r, cap).0 == k
    ensures !JoinsPrevious(q, k, r, cap) && !JoinsNext(q, k, r, cap) ==>
              AddAt(q, k, r, cap) == q[..k] + [Lone(r)] + q[k..] && Merged(q, k, r, cap).0 == k
  {
  }

  lemma CancelRestoresUnglued(q: seq<Entry>, k: nat, r: Request, cap: int)
    requires AllSummaryOk(q) && k <= |q| && !GluesEntries(q, k, r, cap) && StandsFirst(q, k, r, cap)
    requires FindEntry(AddAt(q, k, r, cap), r.len, r.offset) == Merged(q, k, r, cap).0
    ensures Cancel(AddAt(q, k, r, cap), r.len, r.offset) == q <==> HolderExact(q, k, r, cap)
  {
    AddUnglued(q, k, r, cap);
    if JoinsPrevious(q, k, r, cap) {
      CancelAbsorbed(q, k - 1, r);
    } else if JoinsNext(q, k, r, cap) {
      CancelAbsorbed(q, k, r);
    } else {
      CancelInserted(q, k, r);
    }
  }

  /**
   * Cancelling the request just added restores the whole queue if and only if that request is the one
   * found, the entry that took it in had an exact interval before, and no two entries were glued
   * together.
   */
  lemma CancelRestoresQueueIff(q: seq<Entry>, r: Request, cap: int)
    requires AllSummaryOk(q) && r !in Members(q)
    ensures var k := InsertionPoint(q, r);
            Cancel(Add(q, r, cap), r.len, r.offset) == q <==>
              NewcomerFound(q, k, r, cap) && HolderExact(q, k, r, cap) && !GluesEntries(q, k, r, cap)
  {
    var k := InsertionPoint(q, r);
    CancelUndoesAddIff(q, r, cap);
    if GluesEntries(q, k, r, cap) {
      CancelNeverGrows(Add(q, r, cap), r.len, r.offset);
    } else if NewcomerFound(q, k, r, cap) {
      StopsAtNewcomerIff(q, r, cap);
      CancelRestoresUnglued(q, k, r, cap);
    }
  }

  // ---------------------------------------------------------------------------------------------
  // Requests that do not overlap
  // ---------------------------------------------------------------------------------------------

  lemma TileHull(e: Entry)
    requires T.Tiles(e) && EntryOk(e)
    ensures HullOk(e)
  {
    T.TileLength(e);
    var ms := e.members;
    assert END(ms[|ms| - 1]) == e.End();
    forall k | 0 <= k < |ms| ensures END(ms[k]) <= e.End() {
      assert ms[k] in ms;
    }
  }

  lemma TiledHulls(q: seq<Entry>, cap: int)
    requires T.Tiled(q, cap) && QueueOk(q, cap)
    ensures AllHullOk(q)
  {
    forall e | e in q ensures HullOk(e) {
      assert T.TileFits(e, cap) && EntryFits(e, cap);
      TileHull(e);
    }
  }

  /** A newcomer that overlaps nothing queued ends inside its entry, and intervals stay exact. */
  lemma ApartIsInside(q: seq<Entry>, r: Request, cap: int)
    requires T.Tiled(q, cap) && QueueOk(q, cap) && cap >= 1 && r.len > 0 && T.ApartFromAll(q, r)
    ensures AllHullOk(q) && AllSummaryOk(q) && NoMatch(q, r.len, r.offset)
    ensures NewcomerInside(q, InsertionPoint(q, r), r, cap)
  {
    TiledHulls(q, cap);
    forall e | e in q ensures SummaryOk(e) { HullIsSummary(e); }
    forall m | m in Members(q) ensures !Matches(m, r.len, r.offset) { assert T.Apart(m, r); }
    T.AddKeepsTiled(q, r, cap);
    AddKeepsQueueOk(q, r, cap);
    TiledHulls(Add(q, r, cap), cap);
    var k := InsertionPoint(q, r);
    NewcomerInMerged(q, k, r, cap);
    var (i, j, e) := Merged(q, k, r, cap);
    assert Add(q, r, cap)[i] == e;
    EndsBoundMembers(e, e.End());
    MergedEnd(q, r, cap);
  }

  /** Without overlaps a cancellation of the request just added always restores the pending requests. */
  lemma CancelUndoesAdd(q: seq<Entry>, r: Request, cap: int)
    requires T.Tiled(q, cap) && QueueOk(q, cap) && cap >= 1 && r.len > 0 && T.ApartFromAll(q, r)
    ensures multiset(Members(Cancel(Add(q, r, cap), r.len, r.offset))) == multiset(Members(q))
    ensures Cancel(Add(q, r, cap), r.len, r.offset) == q <==> !GluesEntries(q, InsertionPoint(q, r), r, cap)
  {
    ApartIsInside(q, r, cap);
    FoundIfUnique(q, r, cap);
    CancelUndoesAddIff(q, r, cap);
    CancelRestoresQueueIff(q, r, cap);
  }

  // ---------------------------------------------------------------------------------------------
  // After a cancellation has left a hole
  // ---------------------------------------------------------------------------------------------

  /** Three requests, each of which starts where the one before it ends, and one that fits the place of the second. */
  predicate HoleAndFiller(a: Request, b: Request, c: Request, f: Request)
  {
    && a.len > 0 && b.len > 0 && c.len > 0 && f.len > 0
    && a.End() == b.offset && b.End() == c.offset && b.offset <= f.offset && f.End() <= b.End()
  }

  lemma RunOfFour(w: Event, x: Event, y: Event, z: Event, cap: int)
    ensures Overlaps.Run([w, x, y, z], cap) == Overlaps.Step(Overlaps.Step(Overlaps.Run([w, x], cap), y, cap), z, cap)
  {
    RunSnoc([w, x], y, cap);
    RunSnoc([w, x] + [y], z, cap);
    assert [w, x] + [y] + [z] == [w, x, y, z];
  }

  /** The three requests are aggregated in the order of their offsets. */
  lemma ThreeInOne(a: Request, b: Request, c: Request, f: Request, cap: int)
    requires cap >= 3 && HoleAndFiller(a, b, c, f)
    ensures Add(Overlaps.Run([Event.Arrive(a), Event.Arrive(b)], cap), c, cap) == [Absorb(Absorb(Lone(a), b), c)]
  {
    RunOfTwo(Event.Arrive(a), Event.Arrive(b), cap);
    AddToOne(Lone(a), a, cap);
    AddToOne(Lone(a), b, cap);
    AddToOne(Absorb(Lone(a), b), c, cap);
  }

  lemma CancelSecondOfThree(e: Entry, len: int, offset: int)
    requires e.Size() == 3 && !Matches(e.members[0], len, offset) && Matches(e.members[1], len, offset)
    requires e.offset <= offset && e.End() >= offset + len
    ensures Cancel([e], len, offset) == [Recomputed([e.members[0], e.members[2]])]
  {
    assert FirstMatch(e.members, len, offset) == 1;
    CancelInOne(e, len, offset);
    assert Without(e.members, 1) == [e.members[0], e.members[2]];
  }

  lemma RecomputedPair(a: Request, c: Request)
    ensures Recomputed([a, c]) == Extended(Lone(a), c)
  {
    assert [a, c][..1] == [a];
  }

  /** The queue after the second of them was cancelled. */
  lemma DigHole(a: Request, b: Request, c: Request, f: Request, cap: int)
    requires cap >= 3 && HoleAndFiller(a, b, c, f)
    ensures Overlaps.Run([Event.Arrive(a), Event.Arrive(b), Event.Arrive(c), Event.Withdraw(b.len, b.offset)], cap)
            == [Recomputed([a, c])]
  {
    RunOfFour(Event.Arrive(a), Event.Arrive(b), Event.Arrive(c), Event.Withdraw(b.len, b.offset), cap);
    ThreeInOne(a, b, c, f, cap);
    var e := Absorb(Absorb(Lone(a), b), c);
    assert e.members == [a, b, c];
    CancelSecondOfThree(e, b.len, b.offset);
  }

  /**
   * With a hole left by a cancellation, a later addition can be absorbed inside the interval and
   * shrink it, so that a queued request falls outside and can no longer be cancelled, although no
   * two requests overlap.
   */
  lemma HoleCanHideRequest(a: Request, b: Request, c: Request, f: Request, cap: int)
    requires cap >= 3 && HoleAndFiller(a, b, c, f)
    ensures var q := Overlaps.Run([Event.Arrive(a), Event.Arrive(b), Event.Arrive(c), Event.Withdraw(b.len, b.offset)],
                                  cap);
            && AllHullOk(q) && T.ApartFromAll(q, f)
            && c in Members(Add(q, f, cap)) && Cancel(Add(q, f, cap), c.len, c.offset) == Add(q, f, cap)
  {
    DigHole(a, b, c, f, cap);
    var e := Recomputed([a, c]);
    RecomputedIsHull([a, c]);
    RecomputedPair(a, c);
    MembersSingle(e);
    AddToOne(e, f, cap);
    var g := Absorb(e, f);
    MembersSingle(g);
    assert g.members[1] == c;
    CancelInOne(g, c.len, c.offset);
  }
}
