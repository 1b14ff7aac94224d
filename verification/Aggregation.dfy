/**
 * The aggregating, offset-ordered queue as functions on values: what `hashtable_add_req` and the
 * functions it calls compute, and what every run of additions and dispatches keeps.
 */
module Aggregation {
  import opened Requests

  function Min(a: int, b: int): int { if a < b then a else b }

  /** CHECK_AGGREGATE: `b` starts inside `a` or exactly where `a` ends. */
  predicate Touches(a: Entry, b: Entry)
  {
    a.offset <= b.offset && a.End() >= b.offset
  }

  /** The entry after `r` was included in `e`. */
  function Absorb(e: Entry, r: Request): Entry
  {
    if r.offset <= e.offset then
      Entry(r.offset, e.len + (e.offset - r.offset), Min(e.arrival, r.arrival), Min(e.timestamp, r.timestamp),
            [r] + e.members)
    else
      Entry(e.offset, e.len + (r.End() - e.End()), Min(e.arrival, r.arrival), Min(e.timestamp, r.timestamp),
            e.members + [r])
  }

  /** Including the requests `rs` one after the other. */
  function AbsorbAll(e: Entry, rs: seq<Request>): Entry
    decreases |rs|
  {
    if rs == [] then e else AbsorbAll(Absorb(e, rs[0]), rs[1..])
  }

  /** Whether the search for an insertion point stops at `e`. */
  predicate StopsAt(e: Entry, r: Request)
  {
    e.offset > r.offset || (e.offset == r.offset && e.len > r.len)
  }

  function InsertionPoint(q: seq<Entry>, r: Request): (i: nat)
    ensures i <= |q|
    ensures forall k :: 0 <= k < i ==> !StopsAt(q[k], r)
    ensures i < |q| ==> StopsAt(q[i], r)
  {
    if q == [] || StopsAt(q[0], r) then 0 else 1 + InsertionPoint(q[1..], r)
  }

  predicate JoinsPrevious(q: seq<Entry>, i: nat, r: Request, cap: int)
    requires i <= |q|
  {
    i > 0 && Touches(q[i - 1], Lone(r)) && q[i - 1].Size() + 1 <= cap
  }

  predicate JoinsNext(q: seq<Entry>, i: nat, r: Request, cap: int)
    requires i <= |q|
  {
    i < |q| && Touches(Lone(r), q[i]) && q[i].Size() + 1 <= cap
  }

  /** The previous entry has become `p`; whether it is now glued to the entry at `i`. */
  predicate ClosesGap(q: seq<Entry>, i: nat, p: Entry, cap: int)
    requires i <= |q|
  {
    i < |q| && Touches(p, q[i]) && q[i].Size() + p.Size() <= cap
  }

  /** Adding `r` at `k` makes one entry out of two queued ones. */
  predicate GluesEntries(q: seq<Entry>, k: nat, r: Request, cap: int)
    requires k <= |q|
  {
    JoinsPrevious(q, k, r, cap) && ClosesGap(q, k, Absorb(q[k - 1], r), cap)
  }

  function AddAt(q: seq<Entry>, i: nat, r: Request, cap: int): seq<Entry>
    requires i <= |q|
  {
    if JoinsPrevious(q, i, r, cap) then
      var p := Absorb(q[i - 1], r);
      if ClosesGap(q, i, p, cap) then q[..i - 1] + [AbsorbAll(p, q[i].members)] + q[i + 1..]
      else q[..i - 1] + [p] + q[i..]
    else if JoinsNext(q, i, r, cap) then
      q[..i] + [Absorb(q[i], r)] + q[i + 1..]
    else
      q[..i] + [Lone(r)] + q[i..]
  }

  function Add(q: seq<Entry>, r: Request, cap: int): seq<Entry>
  {
    AddAt(q, InsertionPoint(q, r), r, cap)
  }

  // ---------------------------------------------------------------------------------------------
  // What holds for arbitrary overlaps
  // ---------------------------------------------------------------------------------------------

  ghost predicate IsMinimum(x: int, s: seq<Request>, key: Request -> int)
  {
    (exists k :: 0 <= k < |s| && key(s[k]) == x) && forall k :: 0 <= k < |s| ==> x <= key(s[k])
  }

  const OFFSET: Request -> int := (r: Request) => r.offset
  const LENGTH: Request -> int := (r: Request) => r.len
  const ARRIVAL: Request -> int := (r: Request) => r.arrival
  const TIMESTAMP: Request -> int := (r: Request) => r.timestamp

  /**
   * An entry summarises its members: its offset is that of its first member and the least of all,
   * it ends where its last member ends, and its arrival time and timestamp are the members' least.
   */
  ghost predicate EntryOk(e: Entry)
  {
    && e.members != []
    && e.offset == e.members[0].offset
    && IsMinimum(e.offset, e.members, OFFSET)
    && e.End() == e.members[|e.members| - 1].End()
    && IsMinimum(e.arrival, e.members, ARRIVAL)
    && IsMinimum(e.timestamp, e.members, TIMESTAMP)
    && forall m :: m in e.members ==> m.len >= 0
  }

  ghost predicate SortedByOffset(q: seq<Entry>)
  {
    forall i, j :: 0 <= i < j < |q| ==> q[i].offset <= q[j].offset
  }

  ghost predicate QueueOk(q: seq<Entry>, cap: int)
  {
    SortedByOffset(q) && forall e :: e in q ==> EntryFits(e, cap)
  }

  ghost predicate EntryFits(e: Entry, cap: int)
  {
    EntryOk(e) && e.Size() <= cap
  }

  lemma MinimumExtends(x: int, y: int, s: seq<Request>, r: Request, key: Request -> int)
    requires IsMinimum(x, s, key) && y == Min(x, key(r))
    ensures IsMinimum(y, [r] + s, key) && IsMinimum(y, s + [r], key)
  {
    var k :| 0 <= k < |s| && key(s[k]) == x;
    var a, b := [r] + s, s + [r];
    assert a[k + 1] == s[k] && a[0] == r && b[k] == s[k] && b[|s|] == r;
    forall i | 0 <= i < |a| ensures y <= key(a[i]) && y <= key(b[i]) {
      assert a[i] == if i == 0 then r else s[i - 1];
      assert b[i] == if i == |s| then r else s[i];
    }
    if x < key(r) {
      assert key(a[k + 1]) == y && key(b[k]) == y;
    } else {
      assert key(a[0]) == y && key(b[|s|]) == y;
    }
  }

  lemma AbsorbKeepsMinimum(x: int, y: int, e: Entry, r: Request, key: Request -> int)
    requires IsMinimum(x, e.members, key) && y == Min(x, key(r))
    ensures IsMinimum(y, Absorb(e, r).members, key)
  {
    MinimumExtends(x, y, e.members, r, key);
  }

  lemma AbsorbOk(e: Entry, r: Request)
    requires EntryOk(e) && r.len >= 0
    ensures EntryOk(Absorb(e, r))
    ensures Absorb(e, r).offset == Min(e.offset, r.offset)
    ensures Absorb(e, r).Size() == e.Size() + 1
  {
    var a := Absorb(e, r);
    assert a.members == [r] + e.members || a.members == e.members + [r];
    AbsorbKeepsMinimum(e.offset, a.offset, e, r, OFFSET);
    AbsorbKeepsMinimum(e.arrival, a.arrival, e, r, ARRIVAL);
    AbsorbKeepsMinimum(e.timestamp, a.timestamp, e, r, TIMESTAMP);
  }

  lemma {:induction false} AbsorbAllOk(e: Entry, rs: seq<Request>)
    requires EntryOk(e)
    requires forall m :: m in rs ==> m.len >= 0 && e.offset <= m.offset
    ensures EntryOk(AbsorbAll(e, rs))
    ensures AbsorbAll(e, rs).offset == e.offset
    ensures AbsorbAll(e, rs).Size() == e.Size() + |rs|
    decreases |rs|
  {
    if rs == [] {
    } else {
      AbsorbOk(e, rs[0]);
      AbsorbAllOk(Absorb(e, rs[0]), rs[1..]);
    }
  }

  lemma LoneOk(r: Request)
    requires r.len >= 0
    ensures EntryOk(Lone(r))
  {
    var m := Lone(r).members;
    assert m[0] == r;
    assert OFFSET(m[0]) == r.offset && ARRIVAL(m[0]) == r.arrival && TIMESTAMP(m[0]) == r.timestamp;
  }

  /** The glued entry of the double merge, whose members are those of all three parts. */
  lemma GluedOk(p: Entry, n: Entry)
    requires EntryOk(p) && EntryOk(n) && p.offset <= n.offset
    ensures EntryOk(AbsorbAll(p, n.members))
    ensures AbsorbAll(p, n.members).offset == p.offset
    ensures AbsorbAll(p, n.members).Size() == p.Size() + n.Size()
  {
    forall m | m in n.members ensures m.len >= 0 && p.offset <= m.offset {
      var k :| 0 <= k < |n.members| && n.members[k] == m;
      assert n.offset <= OFFSET(n.members[k]);
    }
    AbsorbAllOk(p, n.members);
  }

  /** Replacing the entries [i..j) by one entry that holds their members and `r`. */
  lemma SpliceAddsRequest(q: seq<Entry>, i: nat, j: nat, e: Entry, r: Request)
    requires i <= j <= |q|
    requires multiset(e.members) == multiset(Members(q[i..j])) + multiset{r}
    ensures multiset(Members(q[..i] + [e] + q[j..])) == multiset(Members(q)) + multiset{r}
  {
    MembersSplice(q, i, j, [e]);
    MembersSingle(e);
  }

  lemma SpliceSorted(q: seq<Entry>, i: nat, j: nat, e: Entry)
    requires SortedByOffset(q) && i <= j <= |q|
    requires i > 0 ==> q[i - 1].offset <= e.offset
    requires j < |q| ==> e.offset <= q[j].offset
    ensures SortedByOffset(q[..i] + [e] + q[j..])
  {
    var s := q[..i] + [e] + q[j..];
    forall a, b | 0 <= a < b < |s| ensures s[a].offset <= s[b].offset {
      assert s[a] == if a < i then q[a] else if a == i then e else q[a - i - 1 + j];
      assert s[b] == if b < i then q[b] else if b == i then e else q[b - i - 1 + j];
      if b == i { assert q[a].offset <= q[i - 1].offset; }
      if a == i { assert q[j].offset <= q[b - i - 1 + j].offset; }
      if a < i < b { assert q[a].offset <= q[b - i - 1 + j].offset; }
    }
  }

  /** What the added request turns into: the replaced range of entries and the entry in its place. */
  function Merged(q: seq<Entry>, k: nat, r: Request, cap: int): (m: (nat, nat, Entry))
    requires k <= |q|
    ensures m.0 <= m.1 <= |q|
    ensures AddAt(q, k, r, cap) == q[..m.0] + [m.2] + q[m.1..]
  {
    if JoinsPrevious(q, k, r, cap) then
      var p := Absorb(q[k - 1], r);
      if ClosesGap(q, k, p, cap) then (k - 1, k + 1, AbsorbAll(p, q[k].members)) else (k - 1, k, p)
    else if JoinsNext(q, k, r, cap) then (k, k + 1, Absorb(q[k], r))
    else (k, k, Lone(r))
  }

  lemma {:induction false} AbsorbAllMembers(e: Entry, rs: seq<Request>)
    ensures multiset(AbsorbAll(e, rs).members) == multiset(e.members) + multiset(rs)
    decreases |rs|
  {
    if rs == [] {
    } else {
      AbsorbAllMembers(Absorb(e, rs[0]), rs[1..]);
      assert multiset(Absorb(e, rs[0]).members) == multiset(e.members) + multiset{rs[0]};
      assert rs == [rs[0]] + rs[1..];
      assert multiset(rs) == multiset{rs[0]} + multiset(rs[1..]);
    }
  }

  lemma {:induction false} AbsorbAllSnoc(e: Entry, ms: seq<Request>, n: nat)
    requires n < |ms|
    ensures AbsorbAll(e, ms[..n + 1]) == Absorb(AbsorbAll(e, ms[..n]), ms[n])
    decreases n
  {
    if n > 0 {
      AbsorbAllSnoc(Absorb(e, ms[0]), ms[1..], n - 1);
      assert ms[..n + 1][1..] == ms[1..][..n] && ms[..n][1..] == ms[1..][..n - 1];
    } else {
      assert ms[..1] == [ms[0]] && ms[..0] == [];
    }
  }

  lemma MembersOfPair(q: seq<Entry>, k: nat)
    requires 0 < k < |q|
    ensures Members(q[k - 1..k + 1]) == q[k - 1].members + q[k].members
  {
    assert q[k - 1..k + 1] == [q[k - 1]] + [q[k]];
    MembersConcat([q[k - 1]], [q[k]]);
    MembersSingle(q[k - 1]);
    MembersSingle(q[k]);
  }

  /** The entry that an addition leaves holds the requests of the entries it replaces and the new one. */
  lemma MergedMembers(q: seq<Entry>, k: nat, r: Request, cap: int)
    requires k <= |q|
    ensures var (i, j, e) := Merged(q, k, r, cap); multiset(e.members) == multiset(Members(q[i..j])) + multiset{r}
  {
    if JoinsPrevious(q, k, r, cap) {
      var p := Absorb(q[k - 1], r);
      MembersSingle(q[k - 1]);
      assert q[k - 1..k] == [q[k - 1]];
      if ClosesGap(q, k, p, cap) {
        AbsorbAllMembers(p, q[k].members);
        MembersOfPair(q, k);
      }
    } else if JoinsNext(q, k, r, cap) {
      MembersSingle(q[k]);
      assert q[k..k + 1] == [q[k]];
    } else {
      assert q[k..k] == [];
    }
  }

  /** Whatever the queue looks like, an addition adds exactly the new request. */
  lemma AddAddsExactly(q: seq<Entry>, r: Request, cap: int)
    ensures multiset(Members(Add(q, r, cap))) == multiset(Members(q)) + multiset{r}
  {
    var k := InsertionPoint(q, r);
    var (i, j, e) := Merged(q, k, r, cap);
    MergedMembers(q, k, r, cap);
    SpliceAddsRequest(q, i, j, e, r);
  }

  ghost predicate Fits(q: seq<Entry>, i: nat, j: nat, e: Entry, cap: int)
    requires i <= j <= |q|
  {
    && EntryFits(e, cap)
    && (i > 0 ==> q[i - 1].offset <= e.offset)
    && (j < |q| ==> e.offset <= q[j].offset)
  }

  lemma PreviousFits(q: seq<Entry>, k: nat, r: Request, cap: int)
    requires QueueOk(q, cap) && r.len >= 0 && k <= |q| && JoinsPrevious(q, k, r, cap)
    requires k < |q| ==> r.offset <= q[k].offset
    ensures var (i, j, e) := Merged(q, k, r, cap); Fits(q, i, j, e, cap)
  {
    var p := Absorb(q[k - 1], r);
    assert EntryFits(q[k - 1], cap);
    AbsorbOk(q[k - 1], r);
    if ClosesGap(q, k, p, cap) {
      assert EntryFits(q[k], cap);
      GluedOk(p, q[k]);
    }
  }

  lemma MergedFits(q: seq<Entry>, k: nat, r: Request, cap: int)
    requires QueueOk(q, cap) && r.len >= 0 && cap >= 1 && k <= |q|
    requires k > 0 ==> q[k - 1].offset <= r.offset
    requires k < |q| ==> r.offset <= q[k].offset
    ensures var (i, j, e) := Merged(q, k, r, cap); Fits(q, i, j, e, cap)
  {
    if JoinsPrevious(q, k, r, cap) {
      PreviousFits(q, k, r, cap);
    } else if JoinsNext(q, k, r, cap) {
      assert EntryFits(q[k], cap);
      AbsorbOk(q[k], r);
    } else {
      LoneOk(r);
    }
  }

  lemma InSplice<T>(q: seq<T>, i: nat, j: nat, e: T)
    requires i <= j <= |q|
    ensures forall x :: x in q[..i] + [e] + q[j..] ==> x in q || x == e
  {
  }

  lemma FittingKeepsQueueOk(q: seq<Entry>, i: nat, j: nat, e: Entry, cap: int)
    requires QueueOk(q, cap) && i <= j <= |q| && Fits(q, i, j, e, cap)
    ensures QueueOk(q[..i] + [e] + q[j..], cap)
  {
    SpliceSorted(q, i, j, e);
    InSplice(q, i, j, e);
  }

  /**
   * For any overlap of requests: adding one keeps the queue sorted, keeps every entry a correct
   * summary of at most `cap` members, and adds exactly the new request.
   */
  lemma AddKeepsQueueOk(q: seq<Entry>, r: Request, cap: int)
    requires QueueOk(q, cap) && r.len >= 0 && cap >= 1
    ensures QueueOk(Add(q, r, cap), cap)
    ensures multiset(Members(Add(q, r, cap))) == multiset(Members(q)) + multiset{r}
  {
    var k := InsertionPoint(q, r);
    MergedFits(q, k, r, cap);
    var (i, j, e) := Merged(q, k, r, cap);
    FittingKeepsQueueOk(q, i, j, e, cap);
    AddAddsExactly(q, r, cap);
  }

  /** Adding to a queue with one entry. */
  lemma AddToOne(e: Entry, r: Request, cap: int)
    ensures Add([], r, cap) == [Lone(r)]
    ensures var joins := (if StopsAt(e, r) then Touches(Lone(r), e) else Touches(e, Lone(r))) && e.Size() + 1 <= cap;
            Add([e], r, cap) ==
            (if joins then [Absorb(e, r)] else if StopsAt(e, r) then [Lone(r), e] else [e, Lone(r)])
  {
    assert InsertionPoint([e], r) == if StopsAt(e, r) then 0 else 1;
  }
}
