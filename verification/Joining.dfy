/**
 * What an addition joins, in offsets, lengths and numbers of requests, for requests that overlap in
 * any way: exactly when the newcomer shares an entry with others, and with which.
 */
module Joining {
  import opened Requests
  import opened Aggregation
  import O = Overlaps

  /**
   * The newcomer belongs at `k`: after entries that start earlier, or at the same offset and are not
   * longer, and before one that starts later, or at the same offset and is longer.
   */
  predicate BelongsAt(q: seq<Entry>, r: Request, k: nat)
  {
    && k <= |q|
    && (forall x :: 0 <= x < k ==> q[x].offset < r.offset || (q[x].offset == r.offset && q[x].len <= r.len))
    && (k < |q| ==> r.offset < q[k].offset || (r.offset == q[k].offset && r.len < q[k].len))
  }

  lemma BelongsAtInsertionPoint(q: seq<Entry>, r: Request, k: nat)
    ensures BelongsAt(q, r, k) <==> k == InsertionPoint(q, r)
  {
    if BelongsAt(q, r, k) {
      OnePlace(q, r, k, InsertionPoint(q, r));
    }
  }

  lemma OnePlace(q: seq<Entry>, r: Request, k: nat, i: nat)
    requires BelongsAt(q, r, k) && BelongsAt(q, r, i)
    ensures k == i
  {
  }

  /** The entry before has room, and the newcomer starts inside it or where it ends. */
  predicate PreviousTakes(q: seq<Entry>, k: nat, r: Request, cap: int)
    requires k <= |q|
  {
    k > 0 && |q[k - 1].members| < cap && q[k - 1].offset <= r.offset <= q[k - 1].offset + q[k - 1].len
  }

  /** The entry after has room, and it starts inside the newcomer or where the newcomer ends. */
  predicate NextTakes(q: seq<Entry>, k: nat, r: Request, cap: int)
    requires k <= |q|
  {
    k < |q| && |q[k].members| < cap && r.offset <= q[k].offset <= r.offset + r.len
  }

  /** Where the entry before ends once it has taken the newcomer in. */
  function EndWith(p: Entry, r: Request): int
  {
    if r.offset == p.offset then p.offset + p.len else r.offset + r.len
  }

  /** The entry before takes the newcomer in and then reaches the entry after, and both fit in one. */
  predicate Bridges(q: seq<Entry>, k: nat, r: Request, cap: int)
    requires k <= |q|
  {
    && PreviousTakes(q, k, r, cap) && k < |q| && |q[k - 1].members| + 1 + |q[k].members| <= cap
    && q[k - 1].offset <= q[k].offset <= EndWith(q[k - 1], r)
  }

  lemma JoinsAre(q: seq<Entry>, k: nat, r: Request, cap: int)
    requires k <= |q|
    ensures JoinsPrevious(q, k, r, cap) <==> PreviousTakes(q, k, r, cap)
    ensures JoinsNext(q, k, r, cap) <==> NextTakes(q, k, r, cap)
    ensures GluesEntries(q, k, r, cap) <==> Bridges(q, k, r, cap)
  {
  }

  /** The requests with which the newcomer shares its entry. */
  function Company(q: seq<Entry>, k: nat, r: Request, cap: int): multiset<Request>
    requires k <= |q|
  {
    if Bridges(q, k, r, cap) then multiset(q[k - 1].members) + multiset(q[k].members)
    else if PreviousTakes(q, k, r, cap) then multiset(q[k - 1].members)
    else if NextTakes(q, k, r, cap) then multiset(q[k].members)
    else multiset{}
  }

  /** The entries [i, j) that the newcomer joins. */
  function JoinedFrom(q: seq<Entry>, k: nat, r: Request, cap: int): (i: nat)
    requires k <= |q|
    ensures i <= k
  {
    if PreviousTakes(q, k, r, cap) then k - 1 else k
  }

  function JoinedTo(q: seq<Entry>, k: nat, r: Request, cap: int): (j: nat)
    requires k <= |q|
    ensures k <= j <= |q|
  {
    if Bridges(q, k, r, cap) || (!PreviousTakes(q, k, r, cap) && NextTakes(q, k, r, cap)) then k + 1 else k
  }

  /** Where the entry with the newcomer starts and ends. */
  function JoinedStart(q: seq<Entry>, k: nat, r: Request, cap: int): int
    requires k <= |q|
  {
    if PreviousTakes(q, k, r, cap) then q[k - 1].offset else r.offset
  }

  function JoinedEnd(q: seq<Entry>, k: nat, r: Request, cap: int): int
    requires k <= |q|
  {
    if Bridges(q, k, r, cap) then O.LastEndBeyond(q[k].members, q[k - 1].offset, EndWith(q[k - 1], r))
    else if PreviousTakes(q, k, r, cap) then EndWith(q[k - 1], r)
    else if NextTakes(q, k, r, cap) then q[k].offset + q[k].len
    else r.offset + r.len
  }

  /**
   * One entry holds the newcomer and its company and takes the place of those joined, with the
   * interval they determine; all other entries stay as they are, in their order.
   */
  lemma AdditionJoins(q: seq<Entry>, k: nat, r: Request, cap: int)
    requires O.AllSummaryOk(q) && BelongsAt(q, r, k)
    ensures var a, i, j := Add(q, r, cap), JoinedFrom(q, k, r, cap), JoinedTo(q, k, r, cap);
            && i < |a| && a[..i] == q[..i] && a[i + 1..] == q[j..]
            && multiset(a[i].members) == Company(q, k, r, cap) + multiset{r}
            && a[i].offset == JoinedStart(q, k, r, cap) && a[i].offset + a[i].len == JoinedEnd(q, k, r, cap)
  {
    BelongsAtInsertionPoint(q, r, k);
    JoinedEntry(q, k, r, cap);
    var (i, j, e) := Merged(q, k, r, cap);
    SplicedIn(Add(q, r, cap), q, i, j, e);
  }

  lemma SplicedIn(a: seq<Entry>, q: seq<Entry>, i: nat, j: nat, e: Entry)
    requires i <= j <= |q| && a == q[..i] + [e] + q[j..]
    ensures i < |a| && a[..i] == q[..i] && a[i] == e && a[i + 1..] == q[j..]
  {
  }

  lemma JoinedEntry(q: seq<Entry>, k: nat, r: Request, cap: int)
    requires O.AllSummaryOk(q) && k == InsertionPoint(q, r)
    ensures var (i, j, e) := Merged(q, k, r, cap);
            && i == JoinedFrom(q, k, r, cap) && j == JoinedTo(q, k, r, cap)
            && multiset(e.members) == Company(q, k, r, cap) + multiset{r}
            && e.offset == JoinedStart(q, k, r, cap) && e.offset + e.len == JoinedEnd(q, k, r, cap)
  {
    JoinsAre(q, k, r, cap);
    O.MergedEnd(q, r, cap);
    JoinedMembers(q, k, r, cap);
    JoinedOffset(q, k, r, cap);
  }

  lemma JoinedMembers(q: seq<Entry>, k: nat, r: Request, cap: int)
    requires k <= |q|
    ensures multiset(Merged(q, k, r, cap).2.members) == Company(q, k, r, cap) + multiset{r}
  {
    JoinsAre(q, k, r, cap);
    if Bridges(q, k, r, cap) {
      AbsorbMembers(q[k - 1], r);
      AbsorbAllMembers(Absorb(q[k - 1], r), q[k].members);
      Swapped(multiset(q[k - 1].members), multiset{r}, multiset(q[k].members));
    } else if PreviousTakes(q, k, r, cap) {
      AbsorbMembers(q[k - 1], r);
    } else if NextTakes(q, k, r, cap) {
      AbsorbMembers(q[k], r);
    }
  }

  lemma AbsorbMembers(e: Entry, r: Request)
    ensures multiset(Absorb(e, r).members) == multiset(e.members) + multiset{r}
  {
  }

  lemma Swapped<T>(a: multiset<T>, b: multiset<T>, c: multiset<T>)
    ensures (a + b) + c == (a + c) + b
  {
  }

  lemma JoinedOffset(q: seq<Entry>, k: nat, r: Request, cap: int)
    requires O.AllSummaryOk(q) && k <= |q|
    ensures Merged(q, k, r, cap).2.offset == JoinedStart(q, k, r, cap)
  {
    if Bridges(q, k, r, cap) {
      assert O.SummaryOk(q[k]);
      O.MembersStartLater(q[k], q[k - 1].offset);
      AbsorbAllOffset(Absorb(q[k - 1], r), q[k].members);
    }
  }

  lemma {:induction false} AbsorbAllOffset(e: Entry, rs: seq<Request>)
    requires forall m :: m in rs ==> e.offset <= m.offset
    ensures AbsorbAll(e, rs).offset == e.offset
    decreases |rs|
  {
    if rs == [] {
    } else {
      AbsorbAllOffset(Absorb(e, rs[0]), rs[1..]);
    }
  }

  // ---------------------------------------------------------------------------------------------
  // Who shares an entry with the newcomer
  // ---------------------------------------------------------------------------------------------

  predicate Together(a: seq<Entry>, r: Request, m: Request)
  {
    exists e :: e in a && r in e.members && m in e.members
  }

  lemma OnlyOneHolds(q: seq<Entry>, a: seq<Entry>, i: nat, j: nat, r: Request)
    requires i <= j <= |q| && i < |a| && a[..i] == q[..i] && a[i + 1..] == q[j..] && r !in Members(q)
    ensures forall e :: e in a && r in e.members ==> e == a[i]
  {
    forall e | e in a && r in e.members ensures e == a[i] {
      var n :| 0 <= n < |a| && a[n] == e;
      if n != i {
        assert a[n] == if n < i then a[..i][n] else a[i + 1..][n - i - 1];
        assert e in q;
        var x :| 0 <= x < |q| && q[x] == e;
        InMembers(q, r);
      }
    }
  }

  lemma SameElements(ms: seq<Request>, all: multiset<Request>)
    requires multiset(ms) == all
    ensures forall m :: m in ms <==> m in all
  {
    forall m ensures m in ms <==> m in all {
      assert m in ms <==> m in multiset(ms);
    }
  }

  /** Exactly its company shares the entry of the newcomer. */
  lemma TogetherIff(q: seq<Entry>, k: nat, r: Request, cap: int, m: Request)
    requires O.AllSummaryOk(q) && BelongsAt(q, r, k) && r !in Members(q)
    ensures Together(Add(q, r, cap), r, m) <==> m == r || m in Company(q, k, r, cap)
  {
    var a, i := Add(q, r, cap), JoinedFrom(q, k, r, cap);
    AdditionJoins(q, k, r, cap);
    OnlyOneHolds(q, a, i, JoinedTo(q, k, r, cap), r);
    SameElements(a[i].members, Company(q, k, r, cap) + multiset{r});
  }

  /**
   * Whatever overlaps: the newcomer shares an entry with another request if and only if the entry
   * before its place has room and the newcomer starts inside it or where it ends, or the entry after
   * has room and starts inside the newcomer or where it ends.
   */
  lemma SharesIff(q: seq<Entry>, k: nat, r: Request, cap: int)
    requires O.AllSummaryOk(q) && BelongsAt(q, r, k) && r !in Members(q)
    ensures (exists m :: m != r && Together(Add(q, r, cap), r, m)) <==>
              (k > 0 && |q[k - 1].members| < cap && q[k - 1].offset <= r.offset <= q[k - 1].offset + q[k - 1].len) ||
              (k < |q| && |q[k].members| < cap && r.offset <= q[k].offset <= r.offset + r.len)
  {
    if PreviousTakes(q, k, r, cap) || NextTakes(q, k, r, cap) {
      var n := if PreviousTakes(q, k, r, cap) then k - 1 else k;
      assert O.SummaryOk(q[n]);
      var m := q[n].members[0];
      InMembers(q, m);
      assert m in multiset(q[n].members);
      TogetherIff(q, k, r, cap, m);
    } else {
      forall m | m != r ensures !Together(Add(q, r, cap), r, m) {
        TogetherIff(q, k, r, cap, m);
      }
    }
  }
}
