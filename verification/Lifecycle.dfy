/**
 * The life of requests in the library: added, queued in the hashtable or in the timeline,
 * dispatched, released or cancelled. The counters kept beside the queues are proved to agree with
 * the queued requests.
 */
module Lifecycle {
  import opened Requests
  import opened Sequences
  import opened Aggregation
  import opened Cancellation

  const LINES: nat := 64

  /** A queue of a file: `list` and `dispatch` with the recorded total length of what is queued. */
  datatype QueueRec = QueueRec(list: seq<Entry>, dispatch: seq<Request>, size: int)

  /** What the library keeps about a file; `reqnb` is the recorded number of queued requests. */
  datatype FileRec = FileRec(id: int, reqnb: int, read: QueueRec, write: QueueRec)
  {
    function Queue(k: Kind): QueueRec { if k.Read? then read else write }

    function With(k: Kind, q: QueueRec): FileRec { if k.Read? then this.(read := q) else this.(write := q) }
  }

  /** A file of which nothing is queued or in flight. */
  function NewFile(id: int): FileRec
  {
    FileRec(id, 0, QueueRec([], [], 0), QueueRec([], [], 0))
  }

  /**
   * All data structures: the lines of the hashtable, the timeline, `counter` (requests per line),
   * `reqnb` (queued requests) and `filenb` (files with queued requests).
   */
  datatype Contents = Contents(table: seq<seq<FileRec>>, timeline: seq<Entry>, counter: seq<int>, reqnb: int,
                               filenb: int)

  /** The part of the current scheduling algorithm that decides where requests go. */
  datatype Mode = Mode(needsHashtable: bool, cap: int)

  // ---------------------------------------------------------------------------------------------
  // What is queued
  // ---------------------------------------------------------------------------------------------

  function FlatMap<X>(s: seq<X>, g: X -> seq<Request>): seq<Request>
  {
    if s == [] then [] else g(s[0]) + FlatMap(s[1..], g)
  }

  const OF_FILE: FileRec -> seq<Request> := (f: FileRec) => Members(f.read.list) + Members(f.write.list)
  const OF_LINE: seq<FileRec> -> seq<Request> := (line: seq<FileRec>) => FlatMap(line, OF_FILE)

  /** Every queued request, in the order of the data structures. */
  function Pending(c: Contents): seq<Request>
  {
    FlatMap(c.table, OF_LINE) + Members(c.timeline)
  }

  const DISPATCHED_OF_FILE: FileRec -> seq<Request> := (f: FileRec) => f.read.dispatch + f.write.dispatch
  const DISPATCHED_OF_LINE: seq<FileRec> -> seq<Request> := (line: seq<FileRec>) => FlatMap(line, DISPATCHED_OF_FILE)

  /** Every request dispatched and not released yet. */
  function InFlight(c: Contents): seq<Request>
  {
    FlatMap(c.table, DISPATCHED_OF_LINE)
  }

  lemma {:induction false} FlatMapConcat<X>(a: seq<X>, b: seq<X>, g: X -> seq<Request>)
    ensures FlatMap(a + b, g) == FlatMap(a, g) + FlatMap(b, g)
  {
    if a == [] {
      assert a + b == b;
    } else {
      assert (a + b)[0] == a[0] && (a + b)[1..] == a[1..] + b;
      FlatMapConcat(a[1..], b, g);
      assert g(a[0]) + (FlatMap(a[1..], g) + FlatMap(b, g)) == (g(a[0]) + FlatMap(a[1..], g)) + FlatMap(b, g);
    }
  }

  lemma {:induction false} FlatMapAt<X>(s: seq<X>, k: nat, g: X -> seq<Request>)
    requires k < |s|
    ensures FlatMap(s, g) == FlatMap(s[..k], g) + g(s[k]) + FlatMap(s[k + 1..], g)
  {
    assert s == s[..k] + ([s[k]] + s[k + 1..]);
    FlatMapConcat(s[..k], [s[k]] + s[k + 1..], g);
    assert ([s[k]] + s[k + 1..])[1..] == s[k + 1..];
  }

  /** Replacing one element exchanges its requests. */
  lemma FlatMapUpdate<X>(s: seq<X>, k: nat, x: X, g: X -> seq<Request>)
    requires k < |s|
    ensures multiset(FlatMap(s[k := x], g)) + multiset(g(s[k])) == multiset(FlatMap(s, g)) + multiset(g(x))
  {
    FlatMapAt(s, k, g);
    FlatMapAt(s[k := x], k, g);
    assert s[k := x][..k] == s[..k] && s[k := x][k + 1..] == s[k + 1..];
  }

  lemma FlatMapInsertEmpty<X>(s: seq<X>, k: nat, x: X, g: X -> seq<Request>)
    requires k <= |s| && g(x) == []
    ensures FlatMap(s[..k] + [x] + s[k..], g) == FlatMap(s, g)
  {
    var front, back := s[..k], s[k..];
    FlatMapConcat(front + [x], back, g);
    FlatMapConcat(front, [x], g);
    FlatMapConcat(front, back, g);
    FlatMapOne(x, g);
    assert FlatMap(front, g) + [] == FlatMap(front, g);
    assert FlatMap(s, g) == FlatMap(front, g) + FlatMap(back, g) by {
      assert front + back == s;
    }
  }

  lemma FlatMapOne<X>(x: X, g: X -> seq<Request>)
    ensures FlatMap([x], g) == g(x)
  {
    assert [x][1..] == [];
  }

  lemma {:induction false} InFlatMap<X>(s: seq<X>, r: Request, g: X -> seq<Request>)
    ensures r in FlatMap(s, g) <==> exists k :: 0 <= k < |s| && r in g(s[k])
  {
    if s == [] {
    } else {
      InFlatMap(s[1..], r, g);
      if r in FlatMap(s[1..], g) {
        var k :| 0 <= k < |s[1..]| && r in g(s[1..][k]);
        assert r in g(s[k + 1]);
      }
      if k :| 0 <= k < |s| && r in g(s[k]) {
        if k > 0 { assert r in g(s[1..][k - 1]); }
      }
    }
  }

  /** A sum does not depend on the order. */
  lemma {:induction false} SumOfMultiset<X>(a: seq<X>, b: seq<X>, f: X -> int)
    requires multiset(a) == multiset(b)
    ensures Sum(a, f) == Sum(b, f)
  {
    assert |a| == |multiset(a)| && |b| == |multiset(b)|;
    if a == [] {
    } else {
      assert a[0] in multiset(b);
      var k :| 0 <= k < |b| && b[k] == a[0];
      assert a == [a[0]] + a[1..];
      WithoutOne(b, k);
      SameRest(multiset(a), multiset(a[1..]), multiset(Without(b, k)), a[0]);
      SumOfMultiset(a[1..], Without(b, k), f);
      SumRemove(b, k, f);
    }
  }

  /** Requests that came and went account for the change of every sum. */
  lemma SumBalance<X>(after: seq<X>, gone: seq<X>, before: seq<X>, come: seq<X>, f: X -> int)
    requires multiset(after) + multiset(gone) == multiset(before) + multiset(come)
    ensures Sum(after, f) + Sum(gone, f) == Sum(before, f) + Sum(come, f)
  {
    SumOfMultiset(after + gone, before + come, f);
    SumConcat(after, gone, f);
    SumConcat(before, come, f);
  }

  // ---------------------------------------------------------------------------------------------
  // The counters agree with what is queued
  // ---------------------------------------------------------------------------------------------

  function OfFile(id: int): Request -> int { (r: Request) => if r.file == id then 1 else 0 }

  function BytesOf(id: int, k: Kind): Request -> int
  {
    (r: Request) => if r.file == id && r.kind == k then r.len else 0
  }

  function OnLine(h: int -> nat, i: nat): Request -> int { (r: Request) => if h(r.file) == i then 1 else 0 }

  const ONE: Request -> int := (r: Request) => 1

  const ACTIVE: FileRec -> int := (f: FileRec) => if f.reqnb == 0 then 0 else 1
  const ACTIVE_IN_LINE: seq<FileRec> -> int := (line: seq<FileRec>) => Sum(line, ACTIVE)

  predicate FileCounts(f: FileRec, pending: seq<Request>)
  {
    && f.reqnb == Sum(pending, OfFile(f.id))
    && f.read.size == Sum(pending, BytesOf(f.id, Read))
    && f.write.size == Sum(pending, BytesOf(f.id, Write))
  }

  predicate LineCounts(line: seq<FileRec>, pending: seq<Request>)
  {
    forall j :: 0 <= j < |line| ==> FileCounts(line[j], pending)
  }

  /** Each counter is the count or the sum over the queued requests that it stands for. */
  predicate CountersOk(h: int -> nat, c: Contents)
  {
    && |c.table| == LINES == |c.counter|
    && c.reqnb == Sum(Pending(c), ONE)
    && (forall i :: 0 <= i < LINES ==> c.counter[i] == Sum(Pending(c), OnLine(h, i)))
    && (forall i :: 0 <= i < LINES ==> LineCounts(c.table[i], Pending(c)))
    && c.filenb == Sum(c.table, ACTIVE_IN_LINE)
  }

  const ID: FileRec -> int := (f: FileRec) => f.id

  predicate Belongs(r: Request, id: int, k: Kind) { r.file == id && r.kind == k }

  ghost predicate QueueShape(q: QueueRec, id: int, k: Kind)
  {
    && (forall e :: e in q.list ==> SimpleOk(e) && forall m :: m in e.members ==> Belongs(m, id, k))
    && (forall m :: m in q.dispatch ==> Belongs(m, id, k))
  }

  ghost predicate FileShape(f: FileRec)
  {
    QueueShape(f.read, f.id, Read) && QueueShape(f.write, f.id, Write)
  }

  lemma FileHoldsOwn(f: FileRec, r: Request)
    requires FileShape(f) && r in OF_FILE(f)
    ensures r.file == f.id && r in Members(f.Queue(r.kind).list)
  {
    InMembers(f.read.list, r);
    InMembers(f.write.list, r);
  }

  /** A line lists its files in order of their handles, each file on the line of its hash. */
  ghost predicate LineShape(h: int -> nat, line: seq<FileRec>, i: nat)
  {
    StrictlyIncreasing(line, ID) && forall j :: 0 <= j < |line| ==> h(line[j].id) == i && FileShape(line[j])
  }

  ghost predicate Known(h: int -> nat, c: Contents, id: int)
  {
    h(id) < |c.table| && exists j :: 0 <= j < |c.table[h(id)]| && c.table[h(id)][j].id == id
  }

  /** All members of a timeline entry belong to the same queue, of a file the hashtable knows. */
  ghost predicate TimedShape(h: int -> nat, c: Contents, e: Entry)
  {
    && SimpleOk(e) && Known(h, c, e.members[0].file)
    && forall m :: m in e.members ==> Belongs(m, e.members[0].file, e.members[0].kind)
  }

  ghost predicate Shape(h: int -> nat, c: Contents)
  {
    && |c.table| == LINES
    && (forall i :: 0 <= i < LINES ==> LineShape(h, c.table[i], i))
    && (forall e :: e in c.timeline ==> TimedShape(h, c, e))
  }

  ghost predicate Inv(h: int -> nat, c: Contents)
  {
    Shape(h, c) && CountersOk(h, c)
  }

  /** Replaces file `j` of line `i`. */
  function Put(c: Contents, i: nat, j: nat, f: FileRec): Contents
    requires i < |c.table| && j < |c.table[i]|
  {
    c.(table := c.table[i := c.table[i][j := f]])
  }

  lemma PutPending(c: Contents, i: nat, j: nat, f: FileRec, timeline: seq<Entry>)
    requires i < |c.table| && j < |c.table[i]|
    ensures multiset(Pending(Put(c, i, j, f).(timeline := timeline))) + multiset(OF_FILE(c.table[i][j]))
            + multiset(Members(c.timeline))
         == multiset(Pending(c)) + multiset(OF_FILE(f)) + multiset(Members(timeline))
  {
    var line := c.table[i];
    FlatMapUpdate(line, j, f, OF_FILE);
    FlatMapUpdate(c.table, i, line[j := f], OF_LINE);
    var a, b := multiset(FlatMap(c.table[i := line[j := f]], OF_LINE)), multiset(FlatMap(c.table, OF_LINE));
    Exchange(a, b, multiset(OF_LINE(line)), multiset(OF_LINE(line[j := f])), multiset(OF_FILE(line[j])),
             multiset(OF_FILE(f)));
  }

  lemma Exchange<X>(a: multiset<X>, b: multiset<X>, x: multiset<X>, y: multiset<X>, u: multiset<X>, v: multiset<X>)
    requires a + x == b + y && y + u == x + v
    ensures a + u == b + v
  {
    forall z ensures (a + u)[z] == (b + v)[z] {
      assert (a + x)[z] == (b + y)[z] && (y + u)[z] == (x + v)[z];
    }
  }

  lemma PutInFlight(c: Contents, i: nat, j: nat, f: FileRec)
    requires i < |c.table| && j < |c.table[i]|
    ensures multiset(InFlight(Put(c, i, j, f))) + multiset(DISPATCHED_OF_FILE(c.table[i][j]))
         == multiset(InFlight(c)) + multiset(DISPATCHED_OF_FILE(f))
  {
    var line := c.table[i];
    FlatMapUpdate(line, j, f, DISPATCHED_OF_FILE);
    FlatMapUpdate(c.table, i, line[j := f], DISPATCHED_OF_LINE);
    Exchange(multiset(InFlight(Put(c, i, j, f))), multiset(InFlight(c)), multiset(DISPATCHED_OF_LINE(line)),
             multiset(DISPATCHED_OF_LINE(line[j := f])), multiset(DISPATCHED_OF_FILE(line[j])),
             multiset(DISPATCHED_OF_FILE(f)));
  }

  // ---------------------------------------------------------------------------------------------
  // Changing one queue
  // ---------------------------------------------------------------------------------------------

  lemma {:induction false} SumConstant(rs: seq<Request>, w: Request -> int, v: int)
    requires forall r :: r in rs ==> w(r) == v
    requires v == 0 || v == 1
    ensures Sum(rs, w) == if v == 0 then 0 else |rs|
  {
    if rs == [] {
    } else {
      SumConstant(rs[1..], w, v);
    }
  }

  /** All of `rs` belong to queue `k` of file `id`; what they add to each kind of counter. */
  lemma SumsOfOneQueue(rs: seq<Request>, id: int, k: Kind, h: int -> nat)
    requires forall r :: r in rs ==> Belongs(r, id, k)
    ensures Sum(rs, ONE) == |rs|
    ensures forall i: nat :: Sum(rs, OnLine(h, i)) == if h(id) == i then |rs| else 0
    ensures forall x :: Sum(rs, OfFile(x)) == if x == id then |rs| else 0
    ensures forall x, y :: Sum(rs, BytesOf(x, y)) == if x == id && y == k then Sum(rs, LENGTH) else 0
  {
    SumConstant(rs, ONE, 1);
    forall i: nat ensures Sum(rs, OnLine(h, i)) == if h(id) == i then |rs| else 0 {
      SumConstant(rs, OnLine(h, i), if h(id) == i then 1 else 0);
    }
    forall x ensures Sum(rs, OfFile(x)) == if x == id then |rs| else 0 {
      SumConstant(rs, OfFile(x), if x == id then 1 else 0);
    }
    forall x, y ensures Sum(rs, BytesOf(x, y)) == if x == id && y == k then Sum(rs, LENGTH) else 0 {
      if x == id && y == k {
        SumCongruent(rs, BytesOf(x, y), LENGTH);
      } else {
        SumConstant(rs, BytesOf(x, y), 0);
      }
    }
  }

  /**
   * File `f` when its queue `k` gets new lists; `come` requests arrive and `gone` leave, and the
   * total grows and shrinks.
   */
  function RecountedFile(f: FileRec, k: Kind, list: seq<Entry>, dispatch: seq<Request>, come: int, gone: int,
                         grown: int, shrunk: int): FileRec
  {
    f.With(k, QueueRec(list, dispatch, f.Queue(k).size + grown - shrunk)).(reqnb := f.reqnb + come - gone)
  }

  /** The contents after that change, with all counters updated. */
  function Recounted(c: Contents, i: nat, j: nat, k: Kind, list: seq<Entry>, dispatch: seq<Request>,
                     timeline: seq<Entry>, come: int, gone: int, grown: int, shrunk: int): Contents
    requires i < |c.table| && j < |c.table[i]| && i < |c.counter|
  {
    var f := c.table[i][j];
    var g := RecountedFile(f, k, list, dispatch, come, gone, grown, shrunk);
    Contents(Put(c, i, j, g).table, timeline, c.counter[i := c.counter[i] + come - gone], c.reqnb + come - gone,
             c.filenb - ACTIVE(f) + ACTIVE(g))
  }

  /** The same when `come` arrived and `gone` left. */
  function ChangedFile(f: FileRec, k: Kind, list: seq<Entry>, dispatch: seq<Request>, come: seq<Request>,
                       gone: seq<Request>): FileRec
  {
    RecountedFile(f, k, list, dispatch, |come|, |gone|, Sum(come, LENGTH), Sum(gone, LENGTH))
  }

  function Changed(c: Contents, i: nat, j: nat, k: Kind, list: seq<Entry>, dispatch: seq<Request>, timeline: seq<Entry>,
                   come: seq<Request>, gone: seq<Request>): Contents
    requires i < |c.table| && j < |c.table[i]| && i < |c.counter|
  {
    Recounted(c, i, j, k, list, dispatch, timeline, |come|, |gone|, Sum(come, LENGTH), Sum(gone, LENGTH))
  }

  lemma LengthOfOne(r: Request)
    ensures Sum([r], LENGTH) == r.len
  {
    assert [r][1..] == [];
  }

  lemma OneCame(c: Contents, i: nat, j: nat, k: Kind, list: seq<Entry>, dispatch: seq<Request>, timeline: seq<Entry>,
                r: Request, none: seq<Request>)
    requires i < |c.table| && j < |c.table[i]| && i < |c.counter| && none == []
    ensures Recounted(c, i, j, k, list, dispatch, timeline, 1, 0, r.len, 0) ==
            Changed(c, i, j, k, list, dispatch, timeline, [r], none)
  {
    LengthOfOne(r);
  }

  lemma SomeLeft(c: Contents, i: nat, j: nat, k: Kind, list: seq<Entry>, dispatch: seq<Request>, timeline: seq<Entry>,
                 none: seq<Request>, ms: seq<Request>)
    requires i < |c.table| && j < |c.table[i]| && i < |c.counter| && none == []
    ensures Recounted(c, i, j, k, list, dispatch, timeline, 0, |ms|, 0, Sum(ms, LENGTH)) ==
            Changed(c, i, j, k, list, dispatch, timeline, none, ms)
  {
  }

  /** The requests in queue and timeline together change by `come` and `gone`. */
  ghost predicate Balanced(c: Contents, i: nat, j: nat, k: Kind, list: seq<Entry>, timeline: seq<Entry>,
                           come: seq<Request>, gone: seq<Request>)
    requires i < |c.table| && j < |c.table[i]|
  {
    var f := c.table[i][j];
    && (forall r :: r in come ==> Belongs(r, f.id, k)) && (forall r :: r in gone ==> Belongs(r, f.id, k))
    && multiset(Members(list)) + multiset(Members(timeline)) + multiset(gone)
       == multiset(Members(f.Queue(k).list)) + multiset(Members(c.timeline)) + multiset(come)
  }

  lemma ChangedPending(c: Contents, i: nat, j: nat, k: Kind, list: seq<Entry>, dispatch: seq<Request>,
                       timeline: seq<Entry>, come: seq<Request>, gone: seq<Request>)
    requires i < |c.table| && j < |c.table[i]| && i < |c.counter| && Balanced(c, i, j, k, list, timeline, come, gone)
    ensures multiset(Pending(Changed(c, i, j, k, list, dispatch, timeline, come, gone))) + multiset(gone)
         == multiset(Pending(c)) + multiset(come)
  {
    var f := c.table[i][j];
    var g := ChangedFile(f, k, list, dispatch, come, gone);
    PutPending(c, i, j, g, timeline);
    var d := Changed(c, i, j, k, list, dispatch, timeline, come, gone);
    assert Pending(d) == Pending(Put(c, i, j, g).(timeline := timeline));
    Settle(multiset(Pending(d)), multiset(Pending(c)), multiset(OF_FILE(f)), multiset(OF_FILE(g)),
           multiset(Members(f.Queue(k).list)), multiset(Members(list)), multiset(Members(c.timeline)),
           multiset(Members(timeline)),
           multiset(come), multiset(gone), multiset(Members(f.Queue(Other(k)).list)));
  }

  function Other(k: Kind): Kind { if k.Read? then Write else Read }

  lemma Settle<X>(after: multiset<X>, before: multiset<X>, f: multiset<X>, g: multiset<X>, l: multiset<X>,
                  l': multiset<X>, t: multiset<X>, t': multiset<X>, come: multiset<X>, gone: multiset<X>,
                  other: multiset<X>)
    requires after + f + t == before + g + t' && f == l + other && g == l' + other && l' + t' + gone == l + t + come
    ensures after + gone == before + come
  {
    forall x ensures (after + gone)[x] == (before + come)[x] {
      assert (after + f + t)[x] == (before + g + t')[x] && f[x] == l[x] + other[x] && g[x] == l'[x] + other[x];
      assert (l' + t' + gone)[x] == (l + t + come)[x];
    }
  }

  lemma SumsAfterChange(c: Contents, d: Contents, come: seq<Request>, gone: seq<Request>, w: Request -> int)
    requires multiset(Pending(d)) + multiset(gone) == multiset(Pending(c)) + multiset(come)
    ensures Sum(Pending(d), w) == Sum(Pending(c), w) + Sum(come, w) - Sum(gone, w)
  {
    SumBalance(Pending(d), gone, Pending(c), come, w);
  }

  /** Different places of the hashtable hold files with different handles. */
  lemma FilesDiffer(h: int -> nat, c: Contents, i: nat, j: nat, x: nat, y: nat)
    requires Shape(h, c) && i < LINES && j < |c.table[i]| && x < LINES && y < |c.table[x]|
    ensures c.table[x][y].id == c.table[i][j].id <==> x == i && y == j
  {
    assert LineShape(h, c.table[i], i) && LineShape(h, c.table[x], x);
    if x == i {
      assert y < j ==> ID(c.table[i][y]) < ID(c.table[i][j]);
      assert j < y ==> ID(c.table[i][j]) < ID(c.table[i][y]);
    }
  }

  /** What the change does to the sums that the counters of file `id` stand for. */
  lemma SumsOfFile(h: int -> nat, c: Contents, d: Contents, come: seq<Request>, gone: seq<Request>, own: int, k: Kind,
                   id: int)
    requires multiset(Pending(d)) + multiset(gone) == multiset(Pending(c)) + multiset(come)
    requires (forall r :: r in come ==> Belongs(r, own, k)) && forall r :: r in gone ==> Belongs(r, own, k)
    ensures Sum(Pending(d), OfFile(id)) == Sum(Pending(c), OfFile(id)) + (if id == own then |come| - |gone| else 0)
    ensures forall l :: Sum(Pending(d), BytesOf(id, l)) ==
                        Sum(Pending(c), BytesOf(id, l))
                        + (if id == own && l == k then Sum(come, LENGTH) - Sum(gone, LENGTH) else 0)
  {
    SumsOfOneQueue(come, own, k, h);
    SumsOfOneQueue(gone, own, k, h);
    SumsAfterChange(c, d, come, gone, OfFile(id));
    forall l ensures Sum(Pending(d), BytesOf(id, l)) ==
                     Sum(Pending(c), BytesOf(id, l))
                     + (if id == own && l == k then Sum(come, LENGTH) - Sum(gone, LENGTH) else 0) {
      SumsAfterChange(c, d, come, gone, BytesOf(id, l));
    }
  }

  /** The change updates the counters of its own file and leaves all others right. */
  lemma CountsFollow(h: int -> nat, c: Contents, d: Contents, k: Kind, list: seq<Entry>, dispatch: seq<Request>,
                     come: seq<Request>, gone: seq<Request>, own: int, f: FileRec)
    requires multiset(Pending(d)) + multiset(gone) == multiset(Pending(c)) + multiset(come)
    requires (forall r :: r in come ==> Belongs(r, own, k)) && forall r :: r in gone ==> Belongs(r, own, k)
    requires FileCounts(f, Pending(c))
    ensures FileCounts(if f.id == own then ChangedFile(f, k, list, dispatch, come, gone) else f, Pending(d))
  {
    SumsOfFile(h, c, d, come, gone, own, k, f.id);
  }

  lemma ChangedFilesCount(h: int -> nat, c: Contents, i: nat, j: nat, k: Kind, list: seq<Entry>, dispatch: seq<Request>,
                          timeline: seq<Entry>, come: seq<Request>, gone: seq<Request>, x: nat, y: nat)
    requires Inv(h, c) && i < LINES && j < |c.table[i]| && Balanced(c, i, j, k, list, timeline, come, gone)
    requires x < LINES && y < |c.table[x]|
    ensures var d := Changed(c, i, j, k, list, dispatch, timeline, come, gone);
            FileCounts(d.table[x][y], Pending(d))
  {
    var d := Changed(c, i, j, k, list, dispatch, timeline, come, gone);
    assert FileCounts(c.table[x][y], Pending(c)) by {
      assert LineCounts(c.table[x], Pending(c));
    }
    ChangedPending(c, i, j, k, list, dispatch, timeline, come, gone);
    CountsFollow(h, c, d, k, list, dispatch, come, gone, c.table[i][j].id, c.table[x][y]);
    FilesDiffer(h, c, i, j, x, y);
  }

  lemma ChangedLineCounts(h: int -> nat, c: Contents, i: nat, j: nat, k: Kind, list: seq<Entry>, dispatch: seq<Request>,
                          timeline: seq<Entry>, come: seq<Request>, gone: seq<Request>, x: nat)
    requires Inv(h, c) && i < LINES && j < |c.table[i]| && Balanced(c, i, j, k, list, timeline, come, gone) && x < LINES
    ensures var d := Changed(c, i, j, k, list, dispatch, timeline, come, gone); LineCounts(d.table[x], Pending(d))
  {
    var d := Changed(c, i, j, k, list, dispatch, timeline, come, gone);
    forall y | 0 <= y < |d.table[x]| ensures FileCounts(d.table[x][y], Pending(d)) {
      ChangedFilesCount(h, c, i, j, k, list, dispatch, timeline, come, gone, x, y);
    }
  }

  lemma ChangedLineTotals(h: int -> nat, c: Contents, i: nat, j: nat, k: Kind, list: seq<Entry>, dispatch: seq<Request>,
                          timeline: seq<Entry>, come: seq<Request>, gone: seq<Request>)
    requires Inv(h, c) && i < LINES && j < |c.table[i]| && Balanced(c, i, j, k, list, timeline, come, gone)
    ensures var d := Changed(c, i, j, k, list, dispatch, timeline, come, gone);
            forall x :: 0 <= x < LINES ==> d.counter[x] == Sum(Pending(d), OnLine(h, x))
  {
    var d := Changed(c, i, j, k, list, dispatch, timeline, come, gone);
    var f := c.table[i][j];
    assert LineShape(h, c.table[i], i);
    ChangedPending(c, i, j, k, list, dispatch, timeline, come, gone);
    SumsOfOneQueue(come, f.id, k, h);
    SumsOfOneQueue(gone, f.id, k, h);
    forall x | 0 <= x < LINES ensures d.counter[x] == Sum(Pending(d), OnLine(h, x)) {
      SumsAfterChange(c, d, come, gone, OnLine(h, x));
    }
  }

  lemma ChangedTotals(c: Contents, i: nat, j: nat, k: Kind, list: seq<Entry>, dispatch: seq<Request>,
                      timeline: seq<Entry>, come: seq<Request>, gone: seq<Request>)
    requires i < |c.table| && j < |c.table[i]| && i < |c.counter| && Balanced(c, i, j, k, list, timeline, come, gone)
    requires c.reqnb == Sum(Pending(c), ONE) && c.filenb == Sum(c.table, ACTIVE_IN_LINE)
    ensures var d := Changed(c, i, j, k, list, dispatch, timeline, come, gone);
            d.reqnb == Sum(Pending(d), ONE) && d.filenb == Sum(d.table, ACTIVE_IN_LINE)
  {
    var d := Changed(c, i, j, k, list, dispatch, timeline, come, gone);
    ChangedPending(c, i, j, k, list, dispatch, timeline, come, gone);
    SumConstant(come, ONE, 1);
    SumConstant(gone, ONE, 1);
    SumsAfterChange(c, d, come, gone, ONE);
    SumUpdate(c.table, i, d.table[i], ACTIVE_IN_LINE);
    SumUpdate(c.table[i], j, d.table[i][j], ACTIVE);
  }

  /** Updating the counters as the library does keeps all of them correct. */
  lemma ChangeKeepsCounters(h: int -> nat, c: Contents, i: nat, j: nat, k: Kind, list: seq<Entry>,
                            dispatch: seq<Request>, timeline: seq<Entry>, come: seq<Request>, gone: seq<Request>)
    requires Inv(h, c) && i < LINES && j < |c.table[i]| && Balanced(c, i, j, k, list, timeline, come, gone)
    ensures CountersOk(h, Changed(c, i, j, k, list, dispatch, timeline, come, gone))
  {
    var d := Changed(c, i, j, k, list, dispatch, timeline, come, gone);
    ChangedTotals(c, i, j, k, list, dispatch, timeline, come, gone);
    ChangedLineTotals(h, c, i, j, k, list, dispatch, timeline, come, gone);
    forall x | 0 <= x < LINES ensures LineCounts(d.table[x], Pending(d)) {
      ChangedLineCounts(h, c, i, j, k, list, dispatch, timeline, come, gone, x);
    }
  }

  /** The change keeps the shape if its new lists have it. */
  lemma ChangeKeepsShape(h: int -> nat, c: Contents, i: nat, j: nat, k: Kind, list: seq<Entry>, dispatch: seq<Request>,
                         timeline: seq<Entry>, come: seq<Request>, gone: seq<Request>)
    requires Shape(h, c) && |c.counter| == LINES && i < LINES && j < |c.table[i]|
    requires QueueShape(QueueRec(list, dispatch, 0), c.table[i][j].id, k)
    requires forall e :: e in timeline ==> TimedShape(h, c, e)
    ensures Shape(h, Changed(c, i, j, k, list, dispatch, timeline, come, gone))
  {
    var d := Changed(c, i, j, k, list, dispatch, timeline, come, gone);
    forall x | 0 <= x < LINES ensures LineShape(h, d.table[x], x) {
      assert LineShape(h, c.table[x], x);
      if x == i {
        assert forall y :: 0 <= y < |d.table[i]| ==> ID(d.table[i][y]) == ID(c.table[i][y]);
        forall y | 0 <= y < |d.table[i]| ensures h(d.table[i][y].id) == i && FileShape(d.table[i][y]) {
          assert FileShape(c.table[i][y]);
        }
      }
    }
    forall id | Known(h, c, id) ensures Known(h, d, id) {
      var y :| 0 <= y < |c.table[h(id)]| && c.table[h(id)][y].id == id;
      assert d.table[h(id)][y].id == id;
    }
    KnownStays(h, c, d);
  }

  lemma KnownStays(h: int -> nat, c: Contents, d: Contents)
    requires |c.table| == |d.table| == LINES
    requires forall id :: Known(h, c, id) ==> Known(h, d, id)
    ensures forall e :: TimedShape(h, c, e) ==> TimedShape(h, d, e)
  {
  }
}
