/**
 * The timeline: requests in order of arrival, with aggregation in place under TO-agg, and its
 * reconstruction from offset-ordered queues when the scheduling algorithm changes to TO.
 */
module Timeline {
  import opened Requests
  import opened Sequences
  import opened Aggregation

  // ---------------------------------------------------------------------------------------------
  // Additions
  // ---------------------------------------------------------------------------------------------

  /** Whether `r` is aggregated into `e`: same queue, room for one more, and contiguous. */
  predicate Absorbs(e: Entry, r: Request, cap: int)
  {
    && e.members != [] && e.members[0].file == r.file && e.members[0].kind == r.kind
    && e.Size() < cap
    && (Touches(Lone(r), e) || Touches(e, Lone(r)))
  }

  /**
   * What the search looks for, in offsets and lengths: an entry of the same file and kind with room
   * that starts inside the newcomer or where it ends, or inside or at the end of which it starts.
   */
  predicate TakesIn(e: Entry, r: Request, cap: int)
  {
    && 0 < |e.members| < cap && e.members[0].file == r.file && e.members[0].kind == r.kind
    && (r.offset <= e.offset <= r.offset + r.len || e.offset <= r.offset <= e.offset + e.len)
  }

  function AbsorbingIndex(t: seq<Entry>, r: Request, cap: int): (k: nat)
    ensures k <= |t|
    ensures forall j :: 0 <= j < k ==> !Absorbs(t[j], r, cap) && !TakesIn(t[j], r, cap)
    ensures k < |t| ==> Absorbs(t[k], r, cap) && TakesIn(t[k], r, cap)
  {
    if t == [] || Absorbs(t[0], r, cap) then 0 else 1 + AbsorbingIndex(t[1..], r, cap)
  }

  /** A new request under TO (cap 1) or TO-agg: aggregated where possible, else appended. */
  function AddToTimeline(t: seq<Entry>, r: Request, cap: int): seq<Entry>
  {
    var k := AbsorbingIndex(t, r, cap);
    if k < |t| then t[k := Absorb(t[k], r)] else t + [Lone(r)]
  }

  /** `e` with the newcomer: the interval from the earlier start, to the end of the one that starts later. */
  predicate TookIn(a: Entry, e: Entry, r: Request)
  {
    && multiset(a.members) == multiset(e.members) + multiset{r}
    && a.offset == (if r.offset <= e.offset then r.offset else e.offset)
    && a.offset + a.len == (if r.offset <= e.offset then e.offset + e.len else r.offset + r.len)
  }

  /** The first entry that can take the newcomer in does so at its place; if there is none, the newcomer is last. */
  lemma FirstTakesIn(t: seq<Entry>, r: Request, cap: int, k: nat)
    requires k <= |t| && (forall j :: 0 <= j < k ==> !TakesIn(t[j], r, cap)) && (k < |t| ==> TakesIn(t[k], r, cap))
    ensures var a := AddToTimeline(t, r, cap);
            if k < |t| then |a| == |t| && (forall j :: 0 <= j < |t| && j != k ==> a[j] == t[j]) && TookIn(a[k], t[k], r)
            else a == t + [Lone(r)]
  {
    SameFirst(t, r, cap, k, AbsorbingIndex(t, r, cap));
  }

  lemma SameFirst(t: seq<Entry>, r: Request, cap: int, k: nat, i: nat)
    requires k <= |t| && (forall j :: 0 <= j < k ==> !TakesIn(t[j], r, cap)) && (k < |t| ==> TakesIn(t[k], r, cap))
    requires i <= |t| && (forall j :: 0 <= j < i ==> !TakesIn(t[j], r, cap)) && (i < |t| ==> TakesIn(t[i], r, cap))
    ensures k == i
  {
  }

  /** Several new requests, one after the other. */
  function AddAllToTimeline(t: seq<Entry>, rs: seq<Request>, cap: int): seq<Entry>
  {
    if rs == [] then t else AddToTimeline(AddAllToTimeline(t, rs[..|rs| - 1], cap), rs[|rs| - 1], cap)
  }

  ghost predicate SortedByTime(t: seq<Entry>)
  {
    forall i, j :: 0 <= i < j < |t| ==> t[i].timestamp < t[j].timestamp
  }

  ghost predicate StampOk(e: Entry)
  {
    IsMinimum(e.timestamp, e.members, TIMESTAMP)
  }

  ghost predicate TimelineOk(t: seq<Entry>)
  {
    SortedByTime(t) && forall e :: e in t ==> StampOk(e)
  }

  ghost predicate NewerThanAll(t: seq<Entry>, r: Request)
  {
    forall m :: m in Members(t) ==> m.timestamp < r.timestamp
  }

  lemma EntryOlder(t: seq<Entry>, k: nat, r: Request)
    requires k < |t| && StampOk(t[k]) && NewerThanAll(t, r)
    ensures t[k].timestamp < r.timestamp
  {
    var ms := t[k].members;
    var i :| 0 <= i < |ms| && TIMESTAMP(ms[i]) == t[k].timestamp;
    assert ms[i] in t[k].members;
    InMembers(t, ms[i]);
  }

  lemma AddKeepsTimelineMembers(t: seq<Entry>, r: Request, cap: int)
    ensures multiset(Members(AddToTimeline(t, r, cap))) == multiset(Members(t)) + multiset{r}
  {
    var k := AbsorbingIndex(t, r, cap);
    MembersSingle(Lone(r));
    if k < |t| {
      var a := Absorb(t[k], r);
      assert t[k := a] == t[..k] + [a] + t[k + 1..] && t[k..k + 1] == [t[k]];
      MembersSingle(t[k]);
      assert multiset(a.members) == multiset(t[k].members) + multiset{r};
      SpliceAddsRequest(t, k, k + 1, a, r);
    } else {
      MembersConcat(t, [Lone(r)]);
    }
  }

  /** They are all in the timeline then; without aggregation they stand at its end in the order of arrival. */
  lemma {:induction false} AddAllMembers(t: seq<Entry>, rs: seq<Request>, cap: int)
    ensures multiset(Members(AddAllToTimeline(t, rs, cap))) == multiset(Members(t)) + multiset(rs)
    ensures cap <= 1 ==> Members(AddAllToTimeline(t, rs, cap)) == Members(t) + rs
    decreases |rs|
  {
    if rs == [] {
    } else {
      var n := |rs| - 1;
      var a := AddAllToTimeline(t, rs[..n], cap);
      AddAllMembers(t, rs[..n], cap);
      AddOneMoreMember(a, rs[n], cap, Members(t), rs[..n]);
      LastAdded(t, rs, n, cap);
    }
  }

  lemma LastAdded(t: seq<Entry>, rs: seq<Request>, n: nat, cap: int)
    requires |rs| == n + 1
    ensures rs == rs[..n] + [rs[n]]
    ensures AddAllToTimeline(t, rs, cap) == AddToTimeline(AddAllToTimeline(t, rs[..n], cap), rs[n], cap)
  {
  }

  lemma AddOneMoreMember(t: seq<Entry>, r: Request, cap: int, before: seq<Request>, rs: seq<Request>)
    requires multiset(Members(t)) == multiset(before) + multiset(rs) && (cap <= 1 ==> Members(t) == before + rs)
    ensures multiset(Members(AddToTimeline(t, r, cap))) == multiset(before) + multiset(rs + [r])
    ensures cap <= 1 ==> Members(AddToTimeline(t, r, cap)) == before + (rs + [r])
  {
    AddKeepsTimelineMembers(t, r, cap);
    if cap <= 1 {
      AppendedWithoutAggregation(t, r, cap);
      Regroup(before, rs, [r]);
    }
  }

  lemma AppendedWithoutAggregation(t: seq<Entry>, r: Request, cap: int)
    requires cap <= 1
    ensures Members(AddToTimeline(t, r, cap)) == Members(t) + [r]
  {
    assert AbsorbingIndex(t, r, cap) == |t|;
    MembersConcat(t, [Lone(r)]);
    MembersSingle(Lone(r));
  }

  lemma AddAllSnoc(t: seq<Entry>, rs: seq<Request>, r: Request, cap: int)
    ensures AddAllToTimeline(t, rs + [r], cap) == AddToTimeline(AddAllToTimeline(t, rs, cap), r, cap)
  {
    assert (rs + [r])[..|rs|] == rs;
  }

  /** The newest request joins or follows the others without disturbing the order of arrival. */
  lemma AddKeepsTimeOrder(t: seq<Entry>, r: Request, cap: int)
    requires TimelineOk(t) && NewerThanAll(t, r)
    ensures TimelineOk(AddToTimeline(t, r, cap))
    ensures multiset(Members(AddToTimeline(t, r, cap))) == multiset(Members(t)) + multiset{r}
  {
    AddKeepsTimelineMembers(t, r, cap);
    var k := AbsorbingIndex(t, r, cap);
    if k < |t| {
      AbsorbKeepsStamp(t, k, r);
      ReplaceSameStamp(t, k, Absorb(t[k], r));
    } else {
      AppendNewest(t, r);
    }
  }

  lemma AbsorbKeepsStamp(t: seq<Entry>, k: nat, r: Request)
    requires TimelineOk(t) && NewerThanAll(t, r) && k < |t|
    ensures StampOk(Absorb(t[k], r)) && Absorb(t[k], r).timestamp == t[k].timestamp
  {
    assert t[k] in t;
    EntryOlder(t, k, r);
    MinimumExtends(t[k].timestamp, t[k].timestamp, t[k].members, r, TIMESTAMP);
  }

  lemma ReplaceSameStamp(t: seq<Entry>, k: nat, e: Entry)
    requires TimelineOk(t) && k < |t| && StampOk(e) && e.timestamp == t[k].timestamp
    ensures TimelineOk(t[k := e])
  {
  }

  lemma AppendNewest(t: seq<Entry>, r: Request)
    requires TimelineOk(t) && NewerThanAll(t, r)
    ensures TimelineOk(t + [Lone(r)])
  {
    forall j | 0 <= j < |t| ensures t[j].timestamp < r.timestamp {
      assert t[j] in t;
      EntryOlder(t, j, r);
    }
    assert TIMESTAMP(Lone(r).members[0]) == r.timestamp;
    assert StampOk(Lone(r));
  }

  /** The first entry holds the oldest request of the whole timeline. */
  lemma HeadHoldsOldest(t: seq<Entry>)
    requires TimelineOk(t) && t != []
    ensures exists m :: m in t[0].members && forall x :: x in Members(t) ==> m.timestamp <= x.timestamp
  {
    assert t[0] in t;
    var ms := t[0].members;
    var i :| 0 <= i < |ms| && TIMESTAMP(ms[i]) == t[0].timestamp;
    assert ms[i] in ms;
    forall x | x in Members(t) ensures ms[i].timestamp <= x.timestamp {
      InMembers(t, x);
      var k :| 0 <= k < |t| && x in t[k].members;
      assert t[k] in t;
      var n :| 0 <= n < |t[k].members| && t[k].members[n] == x;
      assert t[k].timestamp <= TIMESTAMP(t[k].members[n]);
    }
  }

  // ---------------------------------------------------------------------------------------------
  // Runs of the time order schedulers
  // ---------------------------------------------------------------------------------------------

  datatype Event = Arrive(request: Request) | Dispatch

  function Step(t: seq<Entry>, ev: Event, cap: int): seq<Entry>
  {
    match ev
    case Arrive(r) => AddToTimeline(t, r, cap)
    case Dispatch => if t == [] then t else t[1..]
  }

  function Run(evs: seq<Event>, cap: int): seq<Entry>
  {
    if evs == [] then [] else
      var n := |evs| - 1;
      Step(Run(evs[..n], cap), evs[n], cap)
  }

  /** Everything dispatched so far, in order. */
  function Dispatched(evs: seq<Event>, cap: int): seq<Request>
  {
    if evs == [] then [] else
      var n := |evs| - 1;
      var t := Run(evs[..n], cap);
      Dispatched(evs[..n], cap) + (if evs[n].Dispatch? && t != [] then t[0].members else [])
  }

  function Arrivals(evs: seq<Event>): seq<Request>
  {
    if evs == [] then [] else
      var n := |evs| - 1;
      Arrivals(evs[..n]) + (if evs[n].Arrive? then [evs[n].request] else [])
  }

  lemma TailOk(t: seq<Entry>)
    requires TimelineOk(t) && t != []
    ensures TimelineOk(t[1..])
  {
    forall i, j | 0 <= i < j < |t[1..]| ensures t[1..][i].timestamp < t[1..][j].timestamp {
      assert t[i + 1].timestamp < t[j + 1].timestamp;
    }
  }

  lemma LastIsNewest(past: seq<Request>, r: Request)
    requires StrictlyIncreasing(past + [r], TIMESTAMP)
    ensures forall x :: x in past ==> x.timestamp < r.timestamp
  {
    var all := past + [r];
    forall x | x in past ensures x.timestamp < r.timestamp {
      var i :| 0 <= i < |past| && past[i] == x;
      assert TIMESTAMP(all[i]) < TIMESTAMP(all[|past|]);
    }
  }

  lemma ArrivalsPrefix(evs: seq<Event>)
    requires evs != [] && StrictlyIncreasing(Arrivals(evs), TIMESTAMP)
    ensures StrictlyIncreasing(Arrivals(evs[..|evs| - 1]), TIMESTAMP)
  {
    var past, all := Arrivals(evs[..|evs| - 1]), Arrivals(evs);
    assert past <= all;
    forall i, j | 0 <= i < j < |past| ensures TIMESTAMP(past[i]) < TIMESTAMP(past[j]) {
      assert past[i] == all[i] && past[j] == all[j];
    }
  }

  lemma {:induction false} PendingArrived(evs: seq<Event>, cap: int)
    ensures forall m :: m in Members(Run(evs, cap)) ==> m in Arrivals(evs)
  {
    if evs == [] {
    } else {
      var n := |evs| - 1;
      PendingArrived(evs[..n], cap);
      var t := Run(evs[..n], cap);
      match evs[n]
      case Arrive(r) =>
        AddKeepsTimelineMembers(t, r, cap);
        forall m | m in Members(AddToTimeline(t, r, cap)) ensures m == r || m in Members(t) {
          assert m in multiset(Members(AddToTimeline(t, r, cap)));
        }
      case Dispatch =>
        if t != [] { assert Members(t) == t[0].members + Members(t[1..]); }
    }
  }

  /**
   * With and without aggregation, whatever the order of additions and dispatches, the entries stay
   * in the order of their oldest members.
   */
  lemma {:induction false} EveryRunKeepsTimeOrder(evs: seq<Event>, cap: int)
    requires StrictlyIncreasing(Arrivals(evs), TIMESTAMP)
    ensures TimelineOk(Run(evs, cap))
  {
    if evs == [] {
    } else {
      var n := |evs| - 1;
      ArrivalsPrefix(evs);
      EveryRunKeepsTimeOrder(evs[..n], cap);
      var t := Run(evs[..n], cap);
      match evs[n]
      case Arrive(r) =>
        assert Arrivals(evs) == Arrivals(evs[..n]) + [r];
        LastIsNewest(Arrivals(evs[..n]), r);
        PendingArrived(evs[..n], cap);
        AddKeepsTimeOrder(t, r, cap);
      case Dispatch => if t != [] { TailOk(t); }
    }
  }

  /** Without aggregation the requests are dispatched exactly in the order in which they arrived. */
  lemma {:induction false} TimeOrderIsFifo(evs: seq<Event>)
    ensures Dispatched(evs, 1) + Members(Run(evs, 1)) == Arrivals(evs)
    ensures forall e :: e in Run(evs, 1) ==> e.members != []
    decreases |evs|
  {
    if evs == [] {
    } else {
      var n := |evs| - 1;
      TimeOrderIsFifo(evs[..n]);
      StepIsFifo(Run(evs[..n], 1), evs[n], 1, Dispatched(evs[..n], 1), Arrivals(evs[..n]));
    }
  }

  lemma StepIsFifo(t: seq<Entry>, ev: Event, cap: int, out: seq<Request>, arrived: seq<Request>)
    requires cap <= 1 && out + Members(t) == arrived && forall e :: e in t ==> e.members != []
    ensures out + (if ev.Dispatch? && t != [] then t[0].members else []) + Members(Step(t, ev, cap))
            == arrived + (if ev.Arrive? then [ev.request] else [])
    ensures forall e :: e in Step(t, ev, cap) ==> e.members != []
  {
    match ev
    case Arrive(r) =>
      assert AbsorbingIndex(t, r, cap) == |t|;
      AppendedWithoutAggregation(t, r, cap);
    case Dispatch =>
      if t != [] { Regroup(out, t[0].members, Members(t[1..])); }
  }

  // ---------------------------------------------------------------------------------------------
  // Rebuilding the timeline from the hashtable
  // ---------------------------------------------------------------------------------------------

  function TimePoint(t: seq<Entry>, e: Entry): (k: nat)
    ensures k <= |t|
    ensures forall j :: 0 <= j < k ==> t[j].timestamp <= e.timestamp
    ensures k < |t| ==> t[k].timestamp > e.timestamp
  {
    if t == [] || t[0].timestamp > e.timestamp then 0 else 1 + TimePoint(t[1..], e)
  }

  /** `__timeline_add_req` during a migration to TO. */
  function InsertByTime(t: seq<Entry>, e: Entry): seq<Entry>
  {
    var k := TimePoint(t, e);
    t[..k] + [e] + t[k..]
  }

  function InsertAll(t: seq<Entry>, rs: seq<Request>): seq<Entry>
  {
    if rs == [] then t else
      var n := |rs| - 1;
      InsertByTime(InsertAll(t, rs[..n]), Lone(rs[n]))
  }

  /** Requests in order of time, none of them virtual. */
  ghost predicate PlainTimeline(t: seq<Entry>)
  {
    && (forall i, j :: 0 <= i < j < |t| ==> t[i].timestamp <= t[j].timestamp)
    && (forall e :: e in t ==> e.members != [] && e == Lone(e.members[0]))
  }

  lemma InsertAddsRequest(t: seq<Entry>, r: Request)
    ensures multiset(Members(InsertByTime(t, Lone(r)))) == multiset(Members(t)) + multiset{r}
  {
    var k := TimePoint(t, Lone(r));
    MembersSplice(t, k, k, [Lone(r)]);
    MembersSingle(Lone(r));
    assert t[k..k] == [];
  }

  lemma InsertKeepsPlain(t: seq<Entry>, r: Request)
    requires PlainTimeline(t)
    ensures PlainTimeline(InsertByTime(t, Lone(r)))
  {
    var e := Lone(r);
    var k := TimePoint(t, e);
    InsertKeepsOrder(t, k, e);
    InSplice(t, k, k, e);
  }

  lemma InsertKeepsOrder(t: seq<Entry>, k: nat, e: Entry)
    requires forall i, j :: 0 <= i < j < |t| ==> t[i].timestamp <= t[j].timestamp
    requires k <= |t| && (forall j :: 0 <= j < k ==> t[j].timestamp <= e.timestamp)
             && (k < |t| ==> t[k].timestamp > e.timestamp)
    ensures forall i, j :: 0 <= i < j < |t[..k] + [e] + t[k..]| ==>
              (t[..k] + [e] + t[k..])[i].timestamp <= (t[..k] + [e] + t[k..])[j].timestamp
  {
    var s := t[..k] + [e] + t[k..];
    forall i, j | 0 <= i < j < |s| ensures s[i].timestamp <= s[j].timestamp {
      assert s[i] == if i < k then t[i] else if i == k then e else t[i - 1];
      assert s[j] == if j < k then t[j] else if j == k then e else t[j - 1];
      if i == k { assert j == k + 1 || t[k].timestamp <= t[j - 1].timestamp; }
    }
  }

  /** Rebuilding loses and adds no request, and makes every one an entry of its own. */
  lemma {:induction false} InsertAllKeepsRequests(t: seq<Entry>, rs: seq<Request>)
    ensures multiset(Members(InsertAll(t, rs))) == multiset(Members(t)) + multiset(rs)
    ensures forall e :: e in InsertAll(t, rs) ==> e in t || exists r :: r in rs && e == Lone(r)
  {
    if rs == [] {
    } else {
      var n := |rs| - 1;
      var before := InsertAll(t, rs[..n]);
      InsertAllKeepsRequests(t, rs[..n]);
      InsertAddsRequest(before, rs[n]);
      LastInMultiset(rs);
      var k := TimePoint(before, Lone(rs[n]));
      InSplice(before, k, k, Lone(rs[n]));
      assert rs[n] in rs;
    }
  }

  lemma {:induction false} InsertAllSorts(t: seq<Entry>, rs: seq<Request>)
    requires PlainTimeline(t)
    ensures PlainTimeline(InsertAll(t, rs))
  {
    if rs == [] {
    } else {
      var n := |rs| - 1;
      InsertAllSorts(t, rs[..n]);
      InsertKeepsPlain(InsertAll(t, rs[..n]), rs[n]);
    }
  }

  lemma {:induction false} InsertAllConcat(t: seq<Entry>, a: seq<Request>, b: seq<Request>)
    ensures InsertAll(t, a + b) == InsertAll(InsertAll(t, a), b)
    decreases |b|
  {
    if b == [] {
      assert a + b == a;
    } else {
      var n := |b| - 1;
      InsertAllConcat(t, a, b[..n]);
      assert (a + b)[..|a + b| - 1] == a + b[..n];
    }
  }

  lemma {:induction false} PlainMembers(t: seq<Entry>)
    requires PlainTimeline(t)
    ensures |Members(t)| == |t| && forall k :: 0 <= k < |t| ==> t[k] == Lone(Members(t)[k])
  {
    if t == [] {
    } else {
      assert t[0] in t;
      assert PlainTimeline(t[1..]) by {
        forall i, j | 0 <= i < j < |t[1..]| ensures t[1..][i].timestamp <= t[1..][j].timestamp {
          assert t[i + 1].timestamp <= t[j + 1].timestamp;
        }
      }
      PlainMembers(t[1..]);
      var head := t[0].members;
      assert head == [head[0]];
      assert Members(t) == head + Members(t[1..]);
      forall k | 0 <= k < |t| ensures t[k] == Lone(Members(t)[k]) {
        if k > 0 { assert t[k] == t[1..][k - 1]; }
      }
    }
  }

  lemma PlainIncreasing(t: seq<Entry>, arrived: seq<Request>)
    requires PlainTimeline(t) && multiset(Members(t)) == multiset(arrived) && StrictlyIncreasing(arrived, TIMESTAMP)
    ensures StrictlyIncreasing(Members(t), TIMESTAMP)
  {
    PlainMembers(t);
    var ms := Members(t);
    assert |ms| == |multiset(ms)| == |arrived|;
    forall i, j | 0 <= i < j < |ms| ensures TIMESTAMP(ms[i]) < TIMESTAMP(ms[j]) {
      assert t[i].timestamp <= t[j].timestamp;
      if ms[i].timestamp == ms[j].timestamp {
        SameStampSameRequest(ms, arrived, i, j);
      }
    }
  }

  /** With distinct timestamps two positions cannot carry the same one. */
  lemma SameStampSameRequest(ms: seq<Request>, arrived: seq<Request>, i: nat, j: nat)
    requires i < j < |ms| && multiset(ms) == multiset(arrived) && StrictlyIncreasing(arrived, TIMESTAMP)
    ensures ms[i].timestamp != ms[j].timestamp
  {
    assert ms[i] in multiset(arrived) && ms[j] in multiset(arrived);
    var a :| 0 <= a < |arrived| && arrived[a] == ms[i];
    var b :| 0 <= b < |arrived| && arrived[b] == ms[j];
    assert a < b ==> TIMESTAMP(arrived[a]) < TIMESTAMP(arrived[b]);
    assert b < a ==> TIMESTAMP(arrived[b]) < TIMESTAMP(arrived[a]);
    if a == b {
      TwiceInMultiset(ms, i, j);
      OnceInMultiset(arrived, a);
    }
  }

  lemma TwiceInMultiset(ms: seq<Request>, i: nat, j: nat)
    requires i < j < |ms| && ms[i] == ms[j]
    ensures multiset(ms)[ms[i]] >= 2
  {
    assert ms == ms[..j] + [ms[j]] + ms[j + 1..];
    assert ms[i] in ms[..j];
  }

  lemma OnceInMultiset(arrived: seq<Request>, a: nat)
    requires a < |arrived| && StrictlyIncreasing(arrived, TIMESTAMP)
    ensures multiset(arrived)[arrived[a]] == 1
  {
    var x := arrived[a];
    assert arrived == arrived[..a] + [x] + arrived[a + 1..];
    assert forall k :: 0 <= k < a ==> TIMESTAMP(arrived[k]) < TIMESTAMP(arrived[a]);
    assert forall k :: a < k < |arrived| ==> TIMESTAMP(arrived[a]) < TIMESTAMP(arrived[k]);
    assert x !in arrived[..a] && x !in arrived[a + 1..];
  }

  /**
   * Rebuilding forgets the scheduler used before: whatever the order in which the pending requests
   * come out of the queues, the result is the timeline of the same requests in order of arrival.
   */
  lemma RebuildIsArrivalOrder(pending: seq<Request>, arrived: seq<Request>)
    requires multiset(pending) == multiset(arrived) && StrictlyIncreasing(arrived, TIMESTAMP)
    ensures InsertAll([], pending) == seq(|arrived|, k requires 0 <= k < |arrived| => Lone(arrived[k]))
  {
    var t := InsertAll([], pending);
    InsertAllSorts([], pending);
    InsertAllKeepsRequests([], pending);
    PlainIncreasing(t, arrived);
    SortedUnique(Members(t), arrived, TIMESTAMP);
    PlainMembers(t);
  }
}
