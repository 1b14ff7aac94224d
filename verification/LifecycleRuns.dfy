/**
 * The operations of the library on its data structures, as functions on values, and what every run
 * of them keeps: correct counters, and every request queued, in flight, released or cancelled once.
 */
module LifecycleRuns {
  import opened Requests
  import opened Sequences
  import opened Aggregation
  import opened Cancellation
  import opened Lifecycle
  import T = Tiling
  import TL = Timeline

  // ---------------------------------------------------------------------------------------------
  // Finding files
  // ---------------------------------------------------------------------------------------------

  /** The first file of the line whose handle is not below `id`. */
  function Position(line: seq<FileRec>, id: int): (j: nat)
    ensures j <= |line|
    ensures forall x :: 0 <= x < j ==> line[x].id < id
    ensures j < |line| ==> line[j].id >= id
  {
    if line == [] || line[0].id >= id then 0 else 1 + Position(line[1..], id)
  }

  predicate HasFile(line: seq<FileRec>, id: int)
  {
    var j := Position(line, id); j < |line| && line[j].id == id
  }

  /** In an ordered line a file is found at its position. */
  lemma PositionOf(line: seq<FileRec>, j: nat)
    requires j < |line| && StrictlyIncreasing(line, ID)
    ensures Position(line, line[j].id) == j
  {
    var p := Position(line, line[j].id);
    assert p <= j && ID(line[p]) <= ID(line[j]);
  }

  /** `find_req_file` without the file counter: the file is on its line afterwards. */
  function EnsureFile(c: Contents, i: nat, id: int): (d: Contents)
    requires i < |c.table|
    ensures |d.table| == |c.table| && HasFile(d.table[i], id) && d.counter == c.counter
  {
    var line := c.table[i];
    var j := Position(line, id);
    if HasFile(line, id) then c
    else
      var line' := line[..j] + [NewFile(id)] + line[j..];
      assert line'[j].id == id && forall x :: 0 <= x < j ==> line'[x].id < id;
      c.(table := c.table[i := line'])
  }

  lemma KnownIffHasFile(h: int -> nat, c: Contents, id: int)
    requires Shape(h, c) && h(id) < LINES
    ensures Known(h, c, id) <==> HasFile(c.table[h(id)], id)
  {
    var line := c.table[h(id)];
    assert LineShape(h, line, h(id));
    var j := Position(line, id);
    if y :| 0 <= y < |line| && line[y].id == id {
      assert j <= y && ID(line[j]) <= ID(line[y]);
    }
  }

  lemma TableIsKnown(h: int -> nat, c: Contents, r: Request)
    requires Shape(h, c) && r in FlatMap(c.table, OF_LINE)
    ensures Known(h, c, r.file)
  {
    InFlatMap(c.table, r, OF_LINE);
    var i :| 0 <= i < |c.table| && r in OF_LINE(c.table[i]);
    InFlatMap(c.table[i], r, OF_FILE);
    var j :| 0 <= j < |c.table[i]| && r in OF_FILE(c.table[i][j]);
    assert LineShape(h, c.table[i], i);
    FileHoldsOwn(c.table[i][j], r);
  }

  lemma PendingIsKnown(h: int -> nat, c: Contents, r: Request)
    requires Shape(h, c) && r in Pending(c)
    ensures Known(h, c, r.file)
  {
    if r in FlatMap(c.table, OF_LINE) {
      TableIsKnown(h, c, r);
    } else {
      InMembers(c.timeline, r);
      var k :| 0 <= k < |c.timeline| && r in c.timeline[k].members;
      assert TimedShape(h, c, c.timeline[k]);
    }
  }

  lemma InsertKeepsLineShape(h: int -> nat, line: seq<FileRec>, i: nat, f: FileRec)
    requires LineShape(h, line, i) && !HasFile(line, f.id) && h(f.id) == i && FileShape(f)
    ensures var j := Position(line, f.id); LineShape(h, line[..j] + [f] + line[j..], i)
  {
    var j := Position(line, f.id);
    InsertKeepsIncreasing(line, j, f, ID);
    var s := line[..j] + [f] + line[j..];
    forall b | 0 <= b < |s| ensures h(s[b].id) == i && FileShape(s[b]) {
      assert s[b] == if b < j then line[b] else if b == j then f else line[b - 1];
    }
  }

  /** A request-free new file changes nothing that is counted. */
  lemma EnsureKeepsPending(c: Contents, i: nat, id: int)
    requires i < |c.table|
    ensures Pending(EnsureFile(c, i, id)) == Pending(c) && InFlight(EnsureFile(c, i, id)) == InFlight(c)
  {
    var line, f := c.table[i], NewFile(id);
    var j := Position(line, id);
    if !HasFile(line, id) {
      var line' := line[..j] + [f] + line[j..];
      FlatMapInsertEmpty(line, j, f, OF_FILE);
      FlatMapInsertEmpty(line, j, f, DISPATCHED_OF_FILE);
      SameLineSameFlatMap(c.table, i, line', OF_LINE);
      SameLineSameFlatMap(c.table, i, line', DISPATCHED_OF_LINE);
    }
  }

  lemma SameLineSameFlatMap(table: seq<seq<FileRec>>, i: nat, line: seq<FileRec>, g: seq<FileRec> -> seq<Request>)
    requires i < |table| && g(line) == g(table[i])
    ensures FlatMap(table[i := line], g) == FlatMap(table, g)
  {
    FlatMapAt(table, i, g);
    FlatMapAt(table[i := line], i, g);
    assert table[i := line][..i] == table[..i] && table[i := line][i + 1..] == table[i + 1..];
  }

  lemma NewFileCounts(h: int -> nat, c: Contents, id: int)
    requires Inv(h, c) && h(id) < LINES && !Known(h, c, id)
    ensures FileCounts(NewFile(id), Pending(c))
  {
    forall r | r in Pending(c) ensures r.file != id { PendingIsKnown(h, c, r); }
    SumConstant(Pending(c), OfFile(id), 0);
    SumConstant(Pending(c), BytesOf(id, Read), 0);
    SumConstant(Pending(c), BytesOf(id, Write), 0);
  }

  lemma InsertKeepsKnown(h: int -> nat, c: Contents, i: nat, j: nat, g: FileRec)
    requires |c.table| == LINES && i < LINES && j <= |c.table[i]|
    ensures var d := c.(table := c.table[i := c.table[i][..j] + [g] + c.table[i][j..]]);
            forall e :: TimedShape(h, c, e) ==> TimedShape(h, d, e)
  {
    var d := c.(table := c.table[i := c.table[i][..j] + [g] + c.table[i][j..]]);
    forall f | Known(h, c, f) ensures Known(h, d, f) {
      var y :| 0 <= y < |c.table[h(f)]| && c.table[h(f)][y].id == f;
      assert d.table[h(f)][if h(f) == i && y >= j then y + 1 else y].id == f;
    }
    KnownStays(h, c, d);
  }

  lemma EnsureKeepsShape(h: int -> nat, c: Contents, id: int)
    requires Shape(h, c) && h(id) < LINES
    ensures Shape(h, EnsureFile(c, h(id), id))
  {
    var i := h(id);
    var line := c.table[i];
    var d := EnsureFile(c, i, id);
    if !HasFile(line, id) {
      assert LineShape(h, line, i);
      InsertKeepsLineShape(h, line, i, NewFile(id));
      var j := Position(line, id);
      forall x | 0 <= x < LINES ensures LineShape(h, d.table[x], x) {
        assert LineShape(h, c.table[x], x);
      }
      InsertKeepsKnown(h, c, i, j, NewFile(id));
    }
  }

  lemma EnsureKeepsFilenb(c: Contents, i: nat, id: int)
    requires i < |c.table|
    ensures Sum(EnsureFile(c, i, id).table, ACTIVE_IN_LINE) == Sum(c.table, ACTIVE_IN_LINE)
  {
    var line, d := c.table[i], EnsureFile(c, i, id);
    if !HasFile(line, id) {
      SumInsert(line, Position(line, id), NewFile(id), ACTIVE);
      SumUpdate(c.table, i, d.table[i], ACTIVE_IN_LINE);
    }
  }

  lemma EnsureKeepsLineCounts(h: int -> nat, c: Contents, id: int, x: nat)
    requires Inv(h, c) && h(id) < LINES && x < LINES
    ensures LineCounts(EnsureFile(c, h(id), id).table[x], Pending(c))
  {
    var line := c.table[h(id)];
    assert LineCounts(c.table[x], Pending(c));
    if x == h(id) && !HasFile(line, id) {
      KnownIffHasFile(h, c, id);
      NewFileCounts(h, c, id);
      InsertKeepsLineCounts(line, Position(line, id), NewFile(id), Pending(c));
    }
  }

  lemma InsertKeepsLineCounts(line: seq<FileRec>, j: nat, f: FileRec, pending: seq<Request>)
    requires j <= |line| && LineCounts(line, pending) && FileCounts(f, pending)
    ensures LineCounts(line[..j] + [f] + line[j..], pending)
  {
    var s := line[..j] + [f] + line[j..];
    forall y | 0 <= y < |s| ensures FileCounts(s[y], pending) {
      assert s[y] == if y < j then line[y] else if y == j then f else line[y - 1];
    }
  }

  lemma EnsureKeepsInv(h: int -> nat, c: Contents, id: int)
    requires Inv(h, c) && h(id) < LINES
    ensures Inv(h, EnsureFile(c, h(id), id))
  {
    EnsureKeepsShape(h, c, id);
    EnsureKeepsPending(c, h(id), id);
    EnsureKeepsFilenb(c, h(id), id);
    forall x | 0 <= x < LINES ensures LineCounts(EnsureFile(c, h(id), id).table[x], Pending(c)) {
      EnsureKeepsLineCounts(h, c, id, x);
    }
  }

  // ---------------------------------------------------------------------------------------------
  // The operations
  // ---------------------------------------------------------------------------------------------

  /** `agios_add_request` once the file is there: into its queue, or into the timeline. */
  function Enqueue(c: Contents, mode: Mode, i: nat, j: nat, r: Request): Contents
    requires i < |c.table| && j < |c.table[i]| && i < |c.counter|
  {
    var q := c.table[i][j].Queue(r.kind);
    if mode.needsHashtable then
      Recounted(c, i, j, r.kind, Add(q.list, r, mode.cap), q.dispatch, c.timeline, 1, 0, r.len, 0)
    else
      Recounted(c, i, j, r.kind, q.list, q.dispatch, TL.AddToTimeline(c.timeline, r, mode.cap), 1, 0, r.len, 0)
  }

  function AddRequest(h: int -> nat, c: Contents, mode: Mode, r: Request): Contents
    requires h(r.file) < |c.table| && |c.table| == |c.counter|
  {
    var i := h(r.file);
    var d := EnsureFile(c, i, r.file);
    Enqueue(d, mode, i, Position(d.table[i], r.file), r)
  }

  /** `process_requests_step1` for entry `n` of a queue. */
  function DispatchFromQueue(c: Contents, i: nat, j: nat, k: Kind, n: nat): Contents
    requires i < |c.table| && j < |c.table[i]| && i < |c.counter| && n < |c.table[i][j].Queue(k).list|
  {
    var q := c.table[i][j].Queue(k);
    var ms := q.list[n].members;
    Recounted(c, i, j, k, Without(q.list, n), q.dispatch + ms, c.timeline, 0, |ms|, 0, Sum(ms, LENGTH))
  }

  /** `process_requests_step1` for the first entry of the timeline. */
  function DispatchOldest(h: int -> nat, c: Contents): Contents
    requires c.timeline != [] && c.timeline[0].members != [] && |c.table| == |c.counter|
    requires var id := c.timeline[0].members[0].file; h(id) < |c.table| && HasFile(c.table[h(id)], id)
  {
    var e := c.timeline[0];
    var i := h(e.members[0].file);
    var j := Position(c.table[i], e.members[0].file);
    var q := c.table[i][j].Queue(e.members[0].kind);
    Recounted(c, i, j, e.members[0].kind, q.list, q.dispatch + e.members, c.timeline[1..], 0, |e.members|, 0,
              Sum(e.members, LENGTH))
  }

  /** `agios_release_request`: the first matching request in flight is forgotten. */
  function Release(c: Contents, i: nat, j: nat, k: Kind, len: int, offset: int): Contents
    requires i < |c.table| && j < |c.table[i]|
  {
    var q := c.table[i][j].Queue(k);
    var n := FirstMatch(q.dispatch, len, offset);
    if n == |q.dispatch| then c else Put(c, i, j, c.table[i][j].With(k, q.(dispatch := Without(q.dispatch, n))))
  }

  /** `agios_cancel_request` with the hashtable in use. */
  function CancelQueued(c: Contents, i: nat, j: nat, k: Kind, len: int, offset: int): Contents
    requires i < |c.table| && j < |c.table[i]| && i < |c.counter|
  {
    var q := c.table[i][j].Queue(k);
    if FindEntry(q.list, len, offset) == |q.list| then c
    else Recounted(c, i, j, k, Cancel(q.list, len, offset), q.dispatch, c.timeline, 0, 1, 0,
                   Cancelled(q.list, len, offset).len)
  }

  function Emptied(f: FileRec): FileRec
  {
    f.(read := f.read.(list := []), write := f.write.(list := []))
  }

  function EmptiedLine(line: seq<FileRec>): seq<FileRec>
  {
    seq(|line|, j requires 0 <= j < |line| => Emptied(line[j]))
  }

  /** `migrate_from_hashtable_to_timeline` for the change to TO. */
  function MigrateToTimeline(c: Contents): Contents
  {
    c.(table := seq(|c.table|, i requires 0 <= i < |c.table| => EmptiedLine(c.table[i])),
       timeline := TL.InsertAll(c.timeline, FlatMap(c.table, OF_LINE)))
  }

  // ---------------------------------------------------------------------------------------------
  // Each operation keeps the counters and accounts for every request
  // ---------------------------------------------------------------------------------------------

  /** The requests the library holds: queued or in flight. */
  function Held(c: Contents): multiset<Request>
  {
    multiset(Pending(c)) + multiset(InFlight(c))
  }

  lemma ChangedInFlight(c: Contents, i: nat, j: nat, k: Kind, list: seq<Entry>, dispatch: seq<Request>,
                        timeline: seq<Entry>, come: seq<Request>, gone: seq<Request>)
    requires i < |c.table| && j < |c.table[i]| && i < |c.counter|
    ensures multiset(InFlight(Changed(c, i, j, k, list, dispatch, timeline, come, gone)))
            + multiset(c.table[i][j].Queue(k).dispatch)
         == multiset(InFlight(c)) + multiset(dispatch)
  {
    var f := c.table[i][j];
    var g := ChangedFile(f, k, list, dispatch, come, gone);
    PutInFlight(c, i, j, g);
    var d := Changed(c, i, j, k, list, dispatch, timeline, come, gone);
    assert InFlight(d) == InFlight(Put(c, i, j, g));
    var o := multiset(f.Queue(Other(k)).dispatch);
    CancelCommon(multiset(InFlight(d)), multiset(InFlight(c)), multiset(f.Queue(k).dispatch), multiset(dispatch), o,
                 multiset(DISPATCHED_OF_FILE(f)), multiset(DISPATCHED_OF_FILE(g)));
  }

  lemma CancelCommon<X>(a: multiset<X>, b: multiset<X>, x: multiset<X>, y: multiset<X>, o: multiset<X>, f: multiset<X>,
                        g: multiset<X>)
    requires a + f == b + g && f == x + o && g == y + o
    ensures a + x == b + y
  {
    forall z ensures (a + x)[z] == (b + y)[z] {
      assert (a + f)[z] == (b + g)[z] && f[z] == x[z] + o[z] && g[z] == y[z] + o[z];
    }
  }

  /** The new lists of a change have the right shape and account for the requests. */
  ghost predicate SoundChange(h: int -> nat, c: Contents, i: nat, j: nat, k: Kind, list: seq<Entry>,
                              dispatch: seq<Request>, timeline: seq<Entry>, come: seq<Request>, gone: seq<Request>)
    requires i < |c.table| && j < |c.table[i]|
  {
    && Balanced(c, i, j, k, list, timeline, come, gone)
    && QueueShape(QueueRec(list, dispatch, 0), c.table[i][j].id, k)
    && (forall e :: e in timeline ==> TimedShape(h, c, e))
  }

  lemma ChangeKeepsInv(h: int -> nat, c: Contents, i: nat, j: nat, k: Kind, list: seq<Entry>, dispatch: seq<Request>,
                       timeline: seq<Entry>, come: seq<Request>, gone: seq<Request>)
    requires Inv(h, c) && i < LINES && j < |c.table[i]|
    requires SoundChange(h, c, i, j, k, list, dispatch, timeline, come, gone)
    ensures Inv(h, Changed(c, i, j, k, list, dispatch, timeline, come, gone))
  {
    ChangeKeepsCounters(h, c, i, j, k, list, dispatch, timeline, come, gone);
    ChangeKeepsShape(h, c, i, j, k, list, dispatch, timeline, come, gone);
  }

  lemma ChangedHeld(c: Contents, i: nat, j: nat, k: Kind, list: seq<Entry>, dispatch: seq<Request>,
                    timeline: seq<Entry>, come: seq<Request>, gone: seq<Request>)
    requires i < |c.table| && j < |c.table[i]| && i < |c.counter| && Balanced(c, i, j, k, list, timeline, come, gone)
    ensures Held(Changed(c, i, j, k, list, dispatch, timeline, come, gone)) + multiset(gone)
            + multiset(c.table[i][j].Queue(k).dispatch)
         == Held(c) + multiset(come) + multiset(dispatch)
  {
    var d := Changed(c, i, j, k, list, dispatch, timeline, come, gone);
    ChangedPending(c, i, j, k, list, dispatch, timeline, come, gone);
    ChangedInFlight(c, i, j, k, list, dispatch, timeline, come, gone);
    AddBalances(multiset(Pending(d)), multiset(gone), multiset(Pending(c)), multiset(come),
                multiset(InFlight(d)), multiset(c.table[i][j].Queue(k).dispatch), multiset(InFlight(c)),
                multiset(dispatch));
  }

  // A request that arrives, and requests that leave; `none` is the empty list.

  lemma ArrivalKeepsInv(h: int -> nat, c: Contents, i: nat, j: nat, k: Kind, list: seq<Entry>, dispatch: seq<Request>,
                        timeline: seq<Entry>, r: Request, none: seq<Request>)
    requires Inv(h, c) && i < LINES && j < |c.table[i]| && none == []
    requires SoundChange(h, c, i, j, k, list, dispatch, timeline, [r], none)
    ensures Inv(h, Recounted(c, i, j, k, list, dispatch, timeline, 1, 0, r.len, 0))
  {
    OneCame(c, i, j, k, list, dispatch, timeline, r, none);
    ChangeKeepsInv(h, c, i, j, k, list, dispatch, timeline, [r], none);
  }

  lemma ArrivalHeld(c: Contents, i: nat, j: nat, k: Kind, list: seq<Entry>, timeline: seq<Entry>, r: Request,
                    none: seq<Request>)
    requires i < |c.table| && j < |c.table[i]| && i < |c.counter| && none == []
    requires Balanced(c, i, j, k, list, timeline, [r], none)
    ensures var d := Recounted(c, i, j, k, list, c.table[i][j].Queue(k).dispatch, timeline, 1, 0, r.len, 0);
            Held(d) == Held(c) + multiset{r} && multiset(Pending(d)) == multiset(Pending(c)) + multiset{r}
  {
    var dispatch := c.table[i][j].Queue(k).dispatch;
    OneCame(c, i, j, k, list, dispatch, timeline, r, none);
    ChangedHeld(c, i, j, k, list, dispatch, timeline, [r], none);
    ChangedPending(c, i, j, k, list, dispatch, timeline, [r], none);
    DropCommon(Held(Changed(c, i, j, k, list, dispatch, timeline, [r], none)), Held(c) + multiset{r},
               multiset(dispatch));
  }

  lemma DepartureKeepsInv(h: int -> nat, c: Contents, i: nat, j: nat, k: Kind, list: seq<Entry>, dispatch: seq<Request>,
                          timeline: seq<Entry>, none: seq<Request>, ms: seq<Request>)
    requires Inv(h, c) && i < LINES && j < |c.table[i]| && none == []
    requires SoundChange(h, c, i, j, k, list, dispatch, timeline, none, ms)
    ensures Inv(h, Recounted(c, i, j, k, list, dispatch, timeline, 0, |ms|, 0, Sum(ms, LENGTH)))
  {
    SomeLeft(c, i, j, k, list, dispatch, timeline, none, ms);
    ChangeKeepsInv(h, c, i, j, k, list, dispatch, timeline, none, ms);
  }

  lemma DeparturePending(c: Contents, i: nat, j: nat, k: Kind, list: seq<Entry>, dispatch: seq<Request>,
                         timeline: seq<Entry>, none: seq<Request>, ms: seq<Request>)
    requires i < |c.table| && j < |c.table[i]| && i < |c.counter| && none == []
    requires Balanced(c, i, j, k, list, timeline, none, ms)
    ensures var d := Recounted(c, i, j, k, list, dispatch, timeline, 0, |ms|, 0, Sum(ms, LENGTH));
            multiset(Pending(d)) + multiset(ms) == multiset(Pending(c))
  {
    SomeLeft(c, i, j, k, list, dispatch, timeline, none, ms);
    ChangedPending(c, i, j, k, list, dispatch, timeline, none, ms);
  }

  lemma DepartureHeld(c: Contents, i: nat, j: nat, k: Kind, list: seq<Entry>, dispatch: seq<Request>,
                      timeline: seq<Entry>, none: seq<Request>, ms: seq<Request>)
    requires i < |c.table| && j < |c.table[i]| && i < |c.counter| && none == []
    requires Balanced(c, i, j, k, list, timeline, none, ms)
    ensures var d := Recounted(c, i, j, k, list, dispatch, timeline, 0, |ms|, 0, Sum(ms, LENGTH));
            Held(d) + multiset(ms) + multiset(c.table[i][j].Queue(k).dispatch) == Held(c) + multiset(dispatch)
  {
    SomeLeft(c, i, j, k, list, dispatch, timeline, none, ms);
    ChangedHeld(c, i, j, k, list, dispatch, timeline, none, ms);
  }

  lemma AddBalances<X>(a: multiset<X>, x: multiset<X>, b: multiset<X>, y: multiset<X>,
                       a': multiset<X>, x': multiset<X>, b': multiset<X>, y': multiset<X>)
    requires a + x == b + y && a' + x' == b' + y'
    ensures (a + a') + x + x' == (b + b') + y + y'
  {
    forall z ensures ((a + a') + x + x')[z] == ((b + b') + y + y')[z] {
      assert (a + x)[z] == (b + y)[z] && (a' + x')[z] == (b' + y')[z];
    }
  }

  lemma QueueHasShape(h: int -> nat, c: Contents, i: nat, j: nat, k: Kind)
    requires Shape(h, c) && i < LINES && j < |c.table[i]|
    ensures QueueShape(c.table[i][j].Queue(k), c.table[i][j].id, k) && h(c.table[i][j].id) == i
  {
    assert LineShape(h, c.table[i], i);
    assert FileShape(c.table[i][j]);
  }

  /** Additions keep simple entries simple and all members in the same queue. */
  lemma AddKeepsShape(q: seq<Entry>, r: Request, cap: int)
    requires forall e :: e in q ==> SimpleOk(e) && forall m :: m in e.members ==> Belongs(m, r.file, r.kind)
    ensures forall e :: e in Add(q, r, cap) ==> SimpleOk(e) && forall m :: m in e.members ==> Belongs(m, r.file, r.kind)
  {
    var k := InsertionPoint(q, r);
    var (i, j, e) := Merged(q, k, r, cap);
    MergedMembers(q, k, r, cap);
    MergedSimple(q, k, r, cap);
    InSplice(q, i, j, e);
    forall m | m in e.members ensures Belongs(m, r.file, r.kind) {
      assert m in multiset(e.members);
      if m != r {
        MemberOfPart(q, i, j, m);
      }
    }
  }

  lemma MemberOfPart(q: seq<Entry>, i: nat, j: nat, m: Request)
    requires i <= j <= |q| && m in Members(q[i..j])
    ensures exists e :: e in q && m in e.members
  {
    InMembers(q[i..j], m);
    var n :| 0 <= n < |q[i..j]| && m in q[i..j][n].members;
    assert q[i..j][n] == q[i + n];
  }

  lemma {:induction false} AbsorbAllLarger(e: Entry, rs: seq<Request>)
    ensures AbsorbAll(e, rs).Size() == e.Size() + |rs|
    decreases |rs|
  {
    if rs == [] {
    } else {
      AbsorbAllLarger(Absorb(e, rs[0]), rs[1..]);
    }
  }

  lemma MergedSimple(q: seq<Entry>, k: nat, r: Request, cap: int)
    requires k <= |q| && forall e :: e in q ==> e.members != []
    ensures SimpleOk(Merged(q, k, r, cap).2)
  {
    if JoinsPrevious(q, k, r, cap) {
      assert q[k - 1] in q;
      var p := Absorb(q[k - 1], r);
      if ClosesGap(q, k, p, cap) {
        AbsorbAllLarger(p, q[k].members);
      }
    } else if JoinsNext(q, k, r, cap) {
      assert q[k] in q;
    }
  }

  lemma TimelineAddKeepsShape(h: int -> nat, c: Contents, r: Request, cap: int)
    requires (forall e :: e in c.timeline ==> TimedShape(h, c, e)) && Known(h, c, r.file)
    ensures forall e :: e in TL.AddToTimeline(c.timeline, r, cap) ==> TimedShape(h, c, e)
  {
    var t := c.timeline;
    var k := TL.AbsorbingIndex(t, r, cap);
    if k < |t| {
      assert TimedShape(h, c, t[k]);
      assert TimedShape(h, c, Absorb(t[k], r));
    } else {
      assert TimedShape(h, c, Lone(r));
    }
  }

  lemma QueueAddIsSound(h: int -> nat, c: Contents, cap: int, i: nat, j: nat, r: Request)
    requires Shape(h, c) && i < LINES && j < |c.table[i]| && c.table[i][j].id == r.file
    ensures var q := c.table[i][j].Queue(r.kind);
            SoundChange(h, c, i, j, r.kind, Add(q.list, r, cap), q.dispatch, c.timeline, [r], [])
  {
    var q := c.table[i][j].Queue(r.kind);
    QueueHasShape(h, c, i, j, r.kind);
    AddAddsExactly(q.list, r, cap);
    AddKeepsShape(q.list, r, cap);
    assert Balanced(c, i, j, r.kind, Add(q.list, r, cap), c.timeline, [r], []);
  }

  lemma TimelineAddIsSound(h: int -> nat, c: Contents, cap: int, j: nat, r: Request)
    requires Shape(h, c) && h(r.file) < LINES && j < |c.table[h(r.file)]| && c.table[h(r.file)][j].id == r.file
    ensures var q := c.table[h(r.file)][j].Queue(r.kind);
            SoundChange(h, c, h(r.file), j, r.kind, q.list, q.dispatch, TL.AddToTimeline(c.timeline, r, cap), [r], [])
  {
    QueueHasShape(h, c, h(r.file), j, r.kind);
    TL.AddKeepsTimelineMembers(c.timeline, r, cap);
    TimelineAddKeepsShape(h, c, r, cap);
    var q := c.table[h(r.file)][j].Queue(r.kind);
    assert Balanced(c, h(r.file), j, r.kind, q.list, TL.AddToTimeline(c.timeline, r, cap), [r], []);
  }

  lemma EnqueueKeepsInv(h: int -> nat, c: Contents, mode: Mode, j: nat, r: Request)
    requires Inv(h, c) && h(r.file) < LINES && j < |c.table[h(r.file)]| && c.table[h(r.file)][j].id == r.file
    ensures Inv(h, Enqueue(c, mode, h(r.file), j, r))
  {
    var q := c.table[h(r.file)][j].Queue(r.kind);
    if mode.needsHashtable {
      QueueAddIsSound(h, c, mode.cap, h(r.file), j, r);
      ArrivalKeepsInv(h, c, h(r.file), j, r.kind, Add(q.list, r, mode.cap), q.dispatch, c.timeline, r, []);
    } else {
      TimelineAddIsSound(h, c, mode.cap, j, r);
      ArrivalKeepsInv(h, c, h(r.file), j, r.kind, q.list, q.dispatch, TL.AddToTimeline(c.timeline, r, mode.cap), r, []);
    }
  }

  lemma EnqueueHeld(h: int -> nat, c: Contents, mode: Mode, j: nat, r: Request)
    requires Shape(h, c) && |c.counter| == LINES
    requires h(r.file) < LINES && j < |c.table[h(r.file)]| && c.table[h(r.file)][j].id == r.file
    ensures var d := Enqueue(c, mode, h(r.file), j, r);
            Held(d) == Held(c) + multiset{r} && multiset(Pending(d)) == multiset(Pending(c)) + multiset{r}
  {
    var q := c.table[h(r.file)][j].Queue(r.kind);
    if mode.needsHashtable {
      QueueAddIsSound(h, c, mode.cap, h(r.file), j, r);
      ArrivalHeld(c, h(r.file), j, r.kind, Add(q.list, r, mode.cap), c.timeline, r, []);
    } else {
      TimelineAddIsSound(h, c, mode.cap, j, r);
      ArrivalHeld(c, h(r.file), j, r.kind, q.list, TL.AddToTimeline(c.timeline, r, mode.cap), r, []);
    }
  }

  lemma DropCommon<X>(a: multiset<X>, b: multiset<X>, x: multiset<X>)
    requires a + x == b + x
    ensures a == b
  {
    forall z ensures a[z] == b[z] { assert (a + x)[z] == (b + x)[z]; }
  }

  lemma AddKeepsInv(h: int -> nat, c: Contents, mode: Mode, r: Request)
    requires Inv(h, c) && h(r.file) < LINES
    ensures Inv(h, AddRequest(h, c, mode, r))
    ensures Held(AddRequest(h, c, mode, r)) == Held(c) + multiset{r}
  {
    EnsureKeepsInv(h, c, r.file);
    var d := EnsureFile(c, h(r.file), r.file);
    EnqueueKeepsInv(h, d, mode, Position(d.table[h(r.file)], r.file), r);
    AddHeld(h, c, mode, r);
  }

  /** An addition adds its request to those held and to those queued. */
  lemma AddHeld(h: int -> nat, c: Contents, mode: Mode, r: Request)
    requires Inv(h, c) && h(r.file) < LINES
    ensures var d := AddRequest(h, c, mode, r);
            Held(d) == Held(c) + multiset{r} && multiset(Pending(d)) == multiset(Pending(c)) + multiset{r}
  {
    EnsureKeepsShape(h, c, r.file);
    EnsureKeepsPending(c, h(r.file), r.file);
    var d := EnsureFile(c, h(r.file), r.file);
    EnqueueHeld(h, d, mode, Position(d.table[h(r.file)], r.file), r);
  }

  lemma DispatchIsSound(h: int -> nat, c: Contents, i: nat, j: nat, k: Kind, n: nat)
    requires Shape(h, c) && i < LINES && j < |c.table[i]| && n < |c.table[i][j].Queue(k).list|
    ensures var q := c.table[i][j].Queue(k);
            SoundChange(h, c, i, j, k, Without(q.list, n), q.dispatch + q.list[n].members, c.timeline, [],
                        q.list[n].members)
  {
    var q := c.table[i][j].Queue(k);
    QueueHasShape(h, c, i, j, k);
    var e := q.list[n];
    assert e in q.list;
    assert Balanced(c, i, j, k, Without(q.list, n), c.timeline, [], e.members) by {
      T.RemoveKeepsRequests(q.list, n);
    }
    assert QueueShape(QueueRec(Without(q.list, n), q.dispatch + e.members, 0), c.table[i][j].id, k) by {
      assert forall x :: x in Without(q.list, n) ==> x in q.list;
    }
  }

  lemma DispatchHeld(h: int -> nat, c: Contents, i: nat, j: nat, k: Kind, n: nat)
    requires Shape(h, c) && |c.counter| == LINES && i < LINES && j < |c.table[i]| && n < |c.table[i][j].Queue(k).list|
    ensures Held(DispatchFromQueue(c, i, j, k, n)) == Held(c)
  {
    var q := c.table[i][j].Queue(k);
    var ms := q.list[n].members;
    DispatchIsSound(h, c, i, j, k, n);
    DepartureHeld(c, i, j, k, Without(q.list, n), q.dispatch + ms, c.timeline, [], ms);
    MovedWithin(Held(DispatchFromQueue(c, i, j, k, n)), Held(c), ms, q.dispatch);
  }

  lemma MovedWithin<X>(a: multiset<X>, b: multiset<X>, gone: seq<X>, dispatch: seq<X>)
    requires a + multiset(gone) + multiset(dispatch) == b + multiset(dispatch + gone)
    ensures a == b
  {
    assert multiset(dispatch + gone) == multiset(dispatch) + multiset(gone);
    forall z ensures a[z] == b[z] {
      assert (a + multiset(gone) + multiset(dispatch))[z] == (b + multiset(dispatch + gone))[z];
    }
  }

  lemma DispatchPending(h: int -> nat, c: Contents, i: nat, j: nat, k: Kind, n: nat)
    requires Shape(h, c) && |c.counter| == LINES && i < LINES && j < |c.table[i]| && n < |c.table[i][j].Queue(k).list|
    ensures multiset(Pending(DispatchFromQueue(c, i, j, k, n))) + multiset(c.table[i][j].Queue(k).list[n].members) ==
            multiset(Pending(c))
  {
    var q := c.table[i][j].Queue(k);
    DispatchIsSound(h, c, i, j, k, n);
    DeparturePending(c, i, j, k, Without(q.list, n), q.dispatch + q.list[n].members, c.timeline, [], q.list[n].members);
  }

  /** Dispatching moves requests from queued to in flight. */
  lemma DispatchKeepsInv(h: int -> nat, c: Contents, i: nat, j: nat, k: Kind, n: nat)
    requires Inv(h, c) && i < LINES && j < |c.table[i]| && n < |c.table[i][j].Queue(k).list|
    ensures Inv(h, DispatchFromQueue(c, i, j, k, n)) && Held(DispatchFromQueue(c, i, j, k, n)) == Held(c)
  {
    var q := c.table[i][j].Queue(k);
    var ms := q.list[n].members;
    DispatchIsSound(h, c, i, j, k, n);
    DepartureKeepsInv(h, c, i, j, k, Without(q.list, n), q.dispatch + ms, c.timeline, [], ms);
    DispatchHeld(h, c, i, j, k, n);
  }

  lemma OldestHasFile(h: int -> nat, c: Contents)
    requires Shape(h, c) && c.timeline != [] && forall id :: h(id) < LINES
    ensures c.timeline[0].members != []
    ensures var id := c.timeline[0].members[0].file; HasFile(c.table[h(id)], id)
  {
    assert TimedShape(h, c, c.timeline[0]);
    KnownIffHasFile(h, c, c.timeline[0].members[0].file);
  }

  lemma DispatchOldestIsSound(h: int -> nat, c: Contents, j: nat)
    requires Shape(h, c) && c.timeline != [] && c.timeline[0].members != []
    requires var m := c.timeline[0].members[0];
             h(m.file) < LINES && j < |c.table[h(m.file)]| && c.table[h(m.file)][j].id == m.file
    ensures var e := c.timeline[0];
            var m := e.members[0];
            var q := c.table[h(m.file)][j].Queue(m.kind);
            SoundChange(h, c, h(m.file), j, m.kind, q.list, q.dispatch + e.members, c.timeline[1..], [], e.members)
  {
    var e := c.timeline[0];
    assert TimedShape(h, c, e);
    QueueHasShape(h, c, h(e.members[0].file), j, e.members[0].kind);
    assert Members(c.timeline) == e.members + Members(c.timeline[1..]);
  }

  ghost predicate OldestReady(h: int -> nat, c: Contents)
  {
    && c.timeline != [] && c.timeline[0].members != [] && |c.table| == LINES == |c.counter|
    && h(c.timeline[0].members[0].file) < LINES
    && HasFile(c.table[h(c.timeline[0].members[0].file)], c.timeline[0].members[0].file)
  }

  lemma DispatchOldestHeld(h: int -> nat, c: Contents)
    requires Shape(h, c) && OldestReady(h, c)
    ensures Held(DispatchOldest(h, c)) == Held(c)
  {
    var e := c.timeline[0];
    var i, k := h(e.members[0].file), e.members[0].kind;
    var j := Position(c.table[i], e.members[0].file);
    var q := c.table[i][j].Queue(k);
    DispatchOldestIsSound(h, c, j);
    DepartureHeld(c, i, j, k, q.list, q.dispatch + e.members, c.timeline[1..], [], e.members);
    MovedWithin(Held(DispatchOldest(h, c)), Held(c), e.members, q.dispatch);
  }

  lemma DispatchOldestPending(h: int -> nat, c: Contents)
    requires Shape(h, c) && OldestReady(h, c)
    ensures multiset(Pending(DispatchOldest(h, c))) + multiset(c.timeline[0].members) == multiset(Pending(c))
  {
    var e := c.timeline[0];
    var i, k := h(e.members[0].file), e.members[0].kind;
    var j := Position(c.table[i], e.members[0].file);
    var q := c.table[i][j].Queue(k);
    DispatchOldestIsSound(h, c, j);
    DeparturePending(c, i, j, k, q.list, q.dispatch + e.members, c.timeline[1..], [], e.members);
  }

  lemma DispatchOldestKeepsInv(h: int -> nat, c: Contents)
    requires Inv(h, c) && OldestReady(h, c)
    ensures Inv(h, DispatchOldest(h, c)) && Held(DispatchOldest(h, c)) == Held(c)
  {
    var e := c.timeline[0];
    var i, k := h(e.members[0].file), e.members[0].kind;
    var j := Position(c.table[i], e.members[0].file);
    var q := c.table[i][j].Queue(k);
    DispatchOldestIsSound(h, c, j);
    DepartureKeepsInv(h, c, i, j, k, q.list, q.dispatch + e.members, c.timeline[1..], [], e.members);
    DispatchOldestHeld(h, c);
  }

  lemma CancelIsSound(h: int -> nat, c: Contents, i: nat, j: nat, k: Kind, len: int, offset: int)
    requires Shape(h, c) && i < LINES && j < |c.table[i]|
    requires FindEntry(c.table[i][j].Queue(k).list, len, offset) < |c.table[i][j].Queue(k).list|
    ensures var q := c.table[i][j].Queue(k);
            var x := Cancelled(q.list, len, offset);
            Matches(x, len, offset)
            && SoundChange(h, c, i, j, k, Cancel(q.list, len, offset), q.dispatch, c.timeline, [], [x])
  {
    var q := c.table[i][j].Queue(k);
    var list, x := Cancel(q.list, len, offset), Cancelled(q.list, len, offset);
    QueueHasShape(h, c, i, j, k);
    CancelledMatches(q.list, len, offset);
    CancelKeepsBelongs(q.list, len, offset, c.table[i][j].id, k);
    assert Balanced(c, i, j, k, list, c.timeline, [], [x]) by {
      CancelTakesOne(q.list, len, offset);
    }
    assert QueueShape(QueueRec(list, q.dispatch, 0), c.table[i][j].id, k) by {
      CancelKeepsSimpleOk(q.list, len, offset);
    }
  }

  lemma CancelHeld(h: int -> nat, c: Contents, i: nat, j: nat, k: Kind, len: int, offset: int)
    requires Shape(h, c) && |c.counter| == LINES && i < LINES && j < |c.table[i]|
    requires FindEntry(c.table[i][j].Queue(k).list, len, offset) < |c.table[i][j].Queue(k).list|
    ensures Held(c) == Held(CancelQueued(c, i, j, k, len, offset))
            + multiset{Cancelled(c.table[i][j].Queue(k).list, len, offset)}
  {
    var q := c.table[i][j].Queue(k);
    var x := Cancelled(q.list, len, offset);
    CancelIsSound(h, c, i, j, k, len, offset);
    LengthOfOne(x);
    DepartureHeld(c, i, j, k, Cancel(q.list, len, offset), q.dispatch, c.timeline, [], [x]);
    DropCommon(Held(CancelQueued(c, i, j, k, len, offset)) + multiset{x}, Held(c), multiset(q.dispatch));
  }

  /** A cancellation takes one matching request out of the library. */
  lemma CancelKeepsInv(h: int -> nat, c: Contents, i: nat, j: nat, k: Kind, len: int, offset: int)
    requires Inv(h, c) && i < LINES && j < |c.table[i]|
    requires FindEntry(c.table[i][j].Queue(k).list, len, offset) < |c.table[i][j].Queue(k).list|
    ensures var x := Cancelled(c.table[i][j].Queue(k).list, len, offset);
            && Inv(h, CancelQueued(c, i, j, k, len, offset)) && Matches(x, len, offset)
            && Held(c) == Held(CancelQueued(c, i, j, k, len, offset)) + multiset{x}
  {
    var q := c.table[i][j].Queue(k);
    CancelIsSound(h, c, i, j, k, len, offset);
    LengthOfOne(Cancelled(q.list, len, offset));
    DepartureKeepsInv(h, c, i, j, k, Cancel(q.list, len, offset), q.dispatch, c.timeline, [],
                      [Cancelled(q.list, len, offset)]);
    CancelHeld(h, c, i, j, k, len, offset);
  }

  lemma CancelKeepsBelongs(q: seq<Entry>, len: int, offset: int, id: int, k: Kind)
    requires FindEntry(q, len, offset) < |q| && forall e, m :: e in q && m in e.members ==> Belongs(m, id, k)
    ensures Belongs(Cancelled(q, len, offset), id, k)
    ensures forall e, m :: e in Cancel(q, len, offset) && m in e.members ==> Belongs(m, id, k)
  {
    CancelTakesOne(q, len, offset);
    var c := Cancel(q, len, offset);
    forall m | m in Members(q) ensures Belongs(m, id, k) { InMembers(q, m); }
    assert Cancelled(q, len, offset) in multiset(Members(q));
    forall e, m | e in c && m in e.members ensures Belongs(m, id, k) {
      var n :| 0 <= n < |c| && c[n] == e;
      InMembers(c, m);
      assert m in multiset(Members(c));
      assert m in multiset(Members(q));
    }
  }

  lemma ReleaseIsSound(h: int -> nat, c: Contents, i: nat, j: nat, k: Kind, n: nat)
    requires Shape(h, c) && i < LINES && j < |c.table[i]| && n < |c.table[i][j].Queue(k).dispatch|
    ensures var q := c.table[i][j].Queue(k);
            SoundChange(h, c, i, j, k, q.list, Without(q.dispatch, n), c.timeline, [], [])
  {
    var q := c.table[i][j].Queue(k);
    QueueHasShape(h, c, i, j, k);
    assert forall m :: m in Without(q.dispatch, n) ==> m in q.dispatch;
  }

  lemma ReleaseIsChange(c: Contents, i: nat, j: nat, k: Kind, len: int, offset: int)
    requires i < |c.table| && j < |c.table[i]| && i < |c.counter|
    requires FirstMatch(c.table[i][j].Queue(k).dispatch, len, offset) < |c.table[i][j].Queue(k).dispatch|
    ensures var q := c.table[i][j].Queue(k);
            Release(c, i, j, k, len, offset) ==
            Changed(c, i, j, k, q.list, Without(q.dispatch, FirstMatch(q.dispatch, len, offset)), c.timeline, [], [])
  {
    assert c.counter[i := c.counter[i]] == c.counter;
  }

  lemma ReleaseHeld(h: int -> nat, c: Contents, i: nat, j: nat, k: Kind, n: nat)
    requires Shape(h, c) && |c.counter| == LINES && i < LINES && j < |c.table[i]|
             && n < |c.table[i][j].Queue(k).dispatch|
    ensures var q := c.table[i][j].Queue(k);
            Held(c) == Held(Changed(c, i, j, k, q.list, Without(q.dispatch, n), c.timeline, [], []))
            + multiset{q.dispatch[n]}
  {
    var q := c.table[i][j].Queue(k);
    var rest := Without(q.dispatch, n);
    ReleaseIsSound(h, c, i, j, k, n);
    ChangedHeld(c, i, j, k, q.list, rest, c.timeline, [], []);
    WithoutOne(q.dispatch, n);
    LeavesOne(Held(Changed(c, i, j, k, q.list, rest, c.timeline, [], [])), Held(c), multiset(q.dispatch),
              multiset(rest),
              q.dispatch[n]);
  }

  lemma LeavesOne<X>(a: multiset<X>, b: multiset<X>, whole: multiset<X>, rest: multiset<X>, x: X)
    requires a + multiset([]) + whole == b + multiset([]) + rest && whole == rest + multiset{x}
    ensures b == a + multiset{x}
  {
    forall z ensures b[z] == (a + multiset{x})[z] {
      assert (a + multiset([]) + whole)[z] == (b + multiset([]) + rest)[z] && whole[z] == (rest + multiset{x})[z];
    }
  }

  /** A release takes one matching request in flight out of the library. */
  lemma ReleaseKeepsInv(h: int -> nat, c: Contents, i: nat, j: nat, k: Kind, len: int, offset: int)
    requires Inv(h, c) && i < LINES && j < |c.table[i]|
    requires FirstMatch(c.table[i][j].Queue(k).dispatch, len, offset) < |c.table[i][j].Queue(k).dispatch|
    ensures var q := c.table[i][j].Queue(k);
            && Inv(h, Release(c, i, j, k, len, offset))
            && Held(c) == Held(Release(c, i, j, k, len, offset))
               + multiset{q.dispatch[FirstMatch(q.dispatch, len, offset)]}
  {
    var q := c.table[i][j].Queue(k);
    var n := FirstMatch(q.dispatch, len, offset);
    ReleaseIsSound(h, c, i, j, k, n);
    ReleaseIsChange(c, i, j, k, len, offset);
    ChangeKeepsInv(h, c, i, j, k, q.list, Without(q.dispatch, n), c.timeline, [], []);
    ReleaseHeld(h, c, i, j, k, n);
  }

  // ---------------------------------------------------------------------------------------------
  // Migration to the timeline
  // ---------------------------------------------------------------------------------------------

  lemma {:induction false} FlatMapSameValues<X>(s: seq<X>, t: seq<X>, f: X -> seq<Request>)
    requires |s| == |t| && forall i :: 0 <= i < |s| ==> f(s[i]) == f(t[i])
    ensures FlatMap(s, f) == FlatMap(t, f)
  {
    if s == [] {
    } else {
      assert forall i :: 0 <= i < |s[1..]| ==> f(s[1..][i]) == f(s[i + 1]) && f(t[1..][i]) == f(t[i + 1]);
      FlatMapSameValues(s[1..], t[1..], f);
    }
  }

  lemma {:induction false} FlatMapNothing<X>(s: seq<X>, f: X -> seq<Request>)
    requires forall i :: 0 <= i < |s| ==> f(s[i]) == []
    ensures FlatMap(s, f) == []
  {
    if s == [] {
    } else {
      assert forall i :: 0 <= i < |s[1..]| ==> f(s[1..][i]) == f(s[i + 1]);
      FlatMapNothing(s[1..], f);
    }
  }

  lemma MigrationEmptiesQueues(c: Contents)
    ensures FlatMap(MigrateToTimeline(c).table, OF_LINE) == []
    ensures InFlight(MigrateToTimeline(c)) == InFlight(c)
    ensures Sum(MigrateToTimeline(c).table, ACTIVE_IN_LINE) == Sum(c.table, ACTIVE_IN_LINE)
  {
    var d := MigrateToTimeline(c);
    forall i | 0 <= i < |c.table|
      ensures OF_LINE(d.table[i]) == [] && DISPATCHED_OF_LINE(d.table[i]) == DISPATCHED_OF_LINE(c.table[i])
      ensures ACTIVE_IN_LINE(d.table[i]) == ACTIVE_IN_LINE(c.table[i])
    {
      FlatMapNothing(d.table[i], OF_FILE);
      FlatMapSameValues(d.table[i], c.table[i], DISPATCHED_OF_FILE);
      SumSameValues(d.table[i], c.table[i], ACTIVE);
    }
    FlatMapNothing(d.table, OF_LINE);
    FlatMapSameValues(d.table, c.table, DISPATCHED_OF_LINE);
    SumSameValues(d.table, c.table, ACTIVE_IN_LINE);
  }

  lemma MigrationKeepsPending(c: Contents)
    ensures multiset(Pending(MigrateToTimeline(c))) == multiset(Pending(c))
  {
    var d := MigrateToTimeline(c);
    MigrationEmptiesQueues(c);
    TL.InsertAllKeepsRequests(c.timeline, FlatMap(c.table, OF_LINE));
    assert Pending(d) == Members(d.timeline);
  }

  lemma MigrationKeepsShape(h: int -> nat, c: Contents)
    requires Shape(h, c)
    ensures Shape(h, MigrateToTimeline(c))
  {
    var d := MigrateToTimeline(c);
    forall i | 0 <= i < LINES ensures LineShape(h, d.table[i], i) {
      assert LineShape(h, c.table[i], i);
      assert forall j :: 0 <= j < |d.table[i]| ==> ID(d.table[i][j]) == ID(c.table[i][j]);
      forall j | 0 <= j < |d.table[i]| ensures FileShape(d.table[i][j]) {
        assert FileShape(c.table[i][j]);
      }
    }
    forall id | Known(h, c, id) ensures Known(h, d, id) {
      var j :| 0 <= j < |c.table[h(id)]| && c.table[h(id)][j].id == id;
      assert d.table[h(id)][j].id == id;
    }
    KnownStays(h, c, d);
    var queued := FlatMap(c.table, OF_LINE);
    TL.InsertAllKeepsRequests(c.timeline, queued);
    forall e | e in d.timeline ensures TimedShape(h, d, e) {
      if e in c.timeline {
        assert TimedShape(h, c, e);
      } else {
        var r :| r in queued && e == Lone(r);
        PendingIsKnown(h, c, r);
      }
    }
  }

  lemma MigrationKeepsFileCounts(c: Contents, i: nat, j: nat)
    requires i < |c.table| && j < |c.table[i]| && FileCounts(c.table[i][j], Pending(c))
    ensures FileCounts(MigrateToTimeline(c).table[i][j], Pending(MigrateToTimeline(c)))
  {
    var d := MigrateToTimeline(c);
    MigrationKeepsPending(c);
    SumOfMultiset(Pending(d), Pending(c), OfFile(c.table[i][j].id));
    SumOfMultiset(Pending(d), Pending(c), BytesOf(c.table[i][j].id, Read));
    SumOfMultiset(Pending(d), Pending(c), BytesOf(c.table[i][j].id, Write));
  }

  lemma MigrationKeepsLineCounts(h: int -> nat, c: Contents, i: nat)
    requires CountersOk(h, c) && i < LINES
    ensures var d := MigrateToTimeline(c);
            d.counter[i] == Sum(Pending(d), OnLine(h, i)) && LineCounts(d.table[i], Pending(d))
  {
    var d := MigrateToTimeline(c);
    MigrationKeepsPending(c);
    SumOfMultiset(Pending(d), Pending(c), OnLine(h, i));
    assert LineCounts(c.table[i], Pending(c));
    forall j | 0 <= j < |d.table[i]| ensures FileCounts(d.table[i][j], Pending(d)) {
      MigrationKeepsFileCounts(c, i, j);
    }
  }

  lemma MigrationKeepsCounters(h: int -> nat, c: Contents)
    requires CountersOk(h, c)
    ensures CountersOk(h, MigrateToTimeline(c))
  {
    var d := MigrateToTimeline(c);
    MigrationKeepsPending(c);
    SumOfMultiset(Pending(d), Pending(c), ONE);
    MigrationEmptiesQueues(c);
    forall i | 0 <= i < LINES
      ensures d.counter[i] == Sum(Pending(d), OnLine(h, i)) && LineCounts(d.table[i], Pending(d)) {
      MigrationKeepsLineCounts(h, c, i);
    }
  }

  /** Every queue is empty, every counter is unchanged and still correct, no request is lost. */
  lemma MigrationKeepsInv(h: int -> nat, c: Contents)
    requires Inv(h, c)
    ensures Inv(h, MigrateToTimeline(c)) && Held(MigrateToTimeline(c)) == Held(c)
    ensures FlatMap(MigrateToTimeline(c).table, OF_LINE) == []
  {
    MigrationKeepsShape(h, c);
    MigrationKeepsCounters(h, c);
    MigrationKeepsPending(c);
    MigrationEmptiesQueues(c);
  }

  /**
   * The migration gives the timeline that the pending requests would have formed under TO from the
   * start: one entry each, in the order in which they arrived.
   */
  lemma MigrationRestoresArrivalOrder(c: Contents, arrived: seq<Request>)
    requires c.timeline == [] && multiset(Pending(c)) == multiset(arrived) && StrictlyIncreasing(arrived, TIMESTAMP)
    ensures MigrateToTimeline(c).timeline == seq(|arrived|, k requires 0 <= k < |arrived| => Lone(arrived[k]))
  {
    assert Pending(c) == FlatMap(c.table, OF_LINE);
    TL.RebuildIsArrivalOrder(FlatMap(c.table, OF_LINE), arrived);
  }

  // ---------------------------------------------------------------------------------------------
  // Runs
  // ---------------------------------------------------------------------------------------------

  datatype Event =
    | Added(request: Request)
    | Processed(file: int, kind: Kind, index: nat)
    | ProcessedOldest
    | Released(file: int, kind: Kind, len: int, offset: int)
    | Cancelled'(file: int, kind: Kind, len: int, offset: int)
    | Migrated

  datatype Library = Library(contents: Contents, mode: Mode)

  /** The queue of a file, if the library knows the file. */
  predicate HasQueue(h: int -> nat, c: Contents, id: int)
  {
    h(id) < |c.table| && HasFile(c.table[h(id)], id)
  }

  function QueueOf(h: int -> nat, c: Contents, id: int, k: Kind): QueueRec
  {
    if HasQueue(h, c, id) then c.table[h(id)][Position(c.table[h(id)], id)].Queue(k) else NewFile(id).Queue(k)
  }

  ghost predicate Applies(h: int -> nat, s: Library, ev: Event)
  {
    var c := s.contents;
    match ev
    case Added(r) => h(r.file) < LINES
    case Processed(id, k, n) => s.mode.needsHashtable && HasQueue(h, c, id) && n < |QueueOf(h, c, id, k).list|
    case ProcessedOldest => !s.mode.needsHashtable && OldestReady(h, c)
    case Released(id, k, len, offset) =>
      HasQueue(h, c, id) && FirstMatch(QueueOf(h, c, id, k).dispatch, len, offset) < |QueueOf(h, c, id, k).dispatch|
    case Cancelled'(id, k, len, offset) =>
      s.mode.needsHashtable && HasQueue(h, c, id)
      && FindEntry(QueueOf(h, c, id, k).list, len, offset) < |QueueOf(h, c, id, k).list|
    case Migrated => s.mode.needsHashtable
  }

  /** What an event does; an operation that finds nothing to work on leaves everything as it is. */
  ghost function Step(h: int -> nat, s: Library, ev: Event): Library
    requires Inv(h, s.contents)
  {
    var c := s.contents;
    if !Applies(h, s, ev) then s else
    match ev
    case Added(r) => s.(contents := AddRequest(h, c, s.mode, r))
    case Processed(id, k, n) => s.(contents := DispatchFromQueue(c, h(id), Position(c.table[h(id)], id), k, n))
    case ProcessedOldest => s.(contents := DispatchOldest(h, c))
    case Released(id, k, len, offset) => s.(contents := Release(c, h(id), Position(c.table[h(id)], id), k, len, offset))
    case Cancelled'(id, k, len, offset) =>
      s.(contents := CancelQueued(c, h(id), Position(c.table[h(id)], id), k, len, offset))
    case Migrated => Library(MigrateToTimeline(c), Mode(false, 1))
  }

  /** The requests that enter and that leave the library with an event. */
  ghost function Entering(h: int -> nat, s: Library, ev: Event): seq<Request>
  {
    if Applies(h, s, ev) && ev.Added? then [ev.request] else []
  }

  ghost function Leaving(h: int -> nat, s: Library, ev: Event): seq<Request>
  {
    if !Applies(h, s, ev) then []
    else if ev.Released? then
      var q := QueueOf(h, s.contents, ev.file, ev.kind); [q.dispatch[FirstMatch(q.dispatch, ev.len, ev.offset)]]
    else if ev.Cancelled'? then [Cancelled(QueueOf(h, s.contents, ev.file, ev.kind).list, ev.len, ev.offset)]
    else []
  }

  ghost predicate StepOk(h: int -> nat, s: Library, ev: Event)
    requires Inv(h, s.contents)
  {
    var t := Step(h, s, ev).contents;
    Inv(h, t) && Held(s.contents) + multiset(Entering(h, s, ev)) == Held(t) + multiset(Leaving(h, s, ev))
  }

  lemma ProcessedIsOk(h: int -> nat, s: Library, id: int, k: Kind, n: nat)
    requires Inv(h, s.contents) && Applies(h, s, Processed(id, k, n))
    ensures StepOk(h, s, Processed(id, k, n))
  {
    var c, j := s.contents, Position(s.contents.table[h(id)], id);
    DispatchKeepsInv(h, c, h(id), j, k, n);
    assert Step(h, s, Processed(id, k, n)).contents == DispatchFromQueue(c, h(id), j, k, n);
  }

  lemma ReleasedIsOk(h: int -> nat, s: Library, id: int, k: Kind, len: int, offset: int)
    requires Inv(h, s.contents) && Applies(h, s, Released(id, k, len, offset))
    ensures StepOk(h, s, Released(id, k, len, offset))
  {
    var c, j := s.contents, Position(s.contents.table[h(id)], id);
    ReleaseKeepsInv(h, c, h(id), j, k, len, offset);
    assert Step(h, s, Released(id, k, len, offset)).contents == Release(c, h(id), j, k, len, offset);
  }

  lemma CancelledIsOk(h: int -> nat, s: Library, id: int, k: Kind, len: int, offset: int)
    requires Inv(h, s.contents) && Applies(h, s, Cancelled'(id, k, len, offset))
    ensures StepOk(h, s, Cancelled'(id, k, len, offset))
  {
    var c, j := s.contents, Position(s.contents.table[h(id)], id);
    CancelKeepsInv(h, c, h(id), j, k, len, offset);
    assert Step(h, s, Cancelled'(id, k, len, offset)).contents == CancelQueued(c, h(id), j, k, len, offset);
  }

  lemma MigratedIsOk(h: int -> nat, s: Library, ev: Event)
    requires Inv(h, s.contents) && ev.Migrated? && Applies(h, s, ev)
    ensures StepOk(h, s, ev)
  {
    MigrationKeepsInv(h, s.contents);
    assert Step(h, s, ev).contents == MigrateToTimeline(s.contents);
  }

  lemma StepKeepsInv(h: int -> nat, s: Library, ev: Event)
    requires Inv(h, s.contents)
    ensures StepOk(h, s, ev)
  {
    if Applies(h, s, ev) {
      match ev
      case Added(r) =>
        AddKeepsInv(h, s.contents, s.mode, r);
        assert Step(h, s, ev).contents == AddRequest(h, s.contents, s.mode, r);
      case Processed(id, k, n) => ProcessedIsOk(h, s, id, k, n);
      case ProcessedOldest =>
        DispatchOldestKeepsInv(h, s.contents);
        assert Step(h, s, ev).contents == DispatchOldest(h, s.contents);
      case Released(id, k, len, offset) => ReleasedIsOk(h, s, id, k, len, offset);
      case Cancelled'(id, k, len, offset) => CancelledIsOk(h, s, id, k, len, offset);
      case Migrated => MigratedIsOk(h, s, ev);
    }
  }

  /** A library with that many lines and without requests. */
  function Empty(lines: nat): Contents
  {
    Contents(seq(lines, _ => []), [], seq(lines, _ => 0), 0, 0)
  }

  lemma EmptyInv(h: int -> nat)
    ensures Inv(h, Empty(LINES))
  {
    EmptyShape(h);
    EmptyCounters(h);
  }

  lemma EmptyShape(h: int -> nat)
    ensures Shape(h, Empty(LINES))
  {
    forall i | 0 <= i < LINES ensures LineShape(h, Empty(LINES).table[i], i) {
    }
  }

  lemma EmptyCounters(h: int -> nat)
    ensures CountersOk(h, Empty(LINES))
  {
    EmptyHoldsNothing();
    EmptyFilenb();
    EmptyFields();
    NothingCounted(h, Empty(LINES));
  }

  lemma EmptyFields()
    ensures var c := Empty(LINES);
            && |c.table| == LINES == |c.counter| && c.reqnb == 0 && c.filenb == 0
            && forall i :: 0 <= i < LINES ==> c.table[i] == [] && c.counter[i] == 0
  {
  }

  lemma NothingCounted(h: int -> nat, c: Contents)
    requires Pending(c) == [] && |c.table| == LINES == |c.counter|
    requires forall i :: 0 <= i < LINES ==> c.table[i] == [] && c.counter[i] == 0
    requires c.reqnb == 0 && c.filenb == Sum(c.table, ACTIVE_IN_LINE)
    ensures CountersOk(h, c)
  {
  }

  lemma EmptyFilenb()
    ensures Sum(Empty(LINES).table, ACTIVE_IN_LINE) == 0
  {
    SumZero(Empty(LINES).table, ACTIVE_IN_LINE);
  }

  lemma EmptyHoldsNothing()
    ensures Pending(Empty(LINES)) == [] && InFlight(Empty(LINES)) == []
  {
    FlatMapNothing(Empty(LINES).table, OF_LINE);
    FlatMapNothing(Empty(LINES).table, DISPATCHED_OF_LINE);
  }

  ghost function Run(h: int -> nat, mode: Mode, evs: seq<Event>): (s: Library)
    ensures Inv(h, s.contents)
    decreases |evs|
  {
    if evs == [] then
      EmptyInv(h);
      Library(Empty(LINES), mode)
    else
      var n := |evs| - 1;
      var s := Run(h, mode, evs[..n]);
      StepKeepsInv(h, s, evs[n]);
      Step(h, s, evs[n])
  }

  ghost function AllEntered(h: int -> nat, mode: Mode, evs: seq<Event>): seq<Request>
    decreases |evs|
  {
    if evs == [] then [] else
      var n := |evs| - 1;
      AllEntered(h, mode, evs[..n]) + Entering(h, Run(h, mode, evs[..n]), evs[n])
  }

  ghost function AllLeft(h: int -> nat, mode: Mode, evs: seq<Event>): seq<Request>
    decreases |evs|
  {
    if evs == [] then [] else
      var n := |evs| - 1;
      AllLeft(h, mode, evs[..n]) + Leaving(h, Run(h, mode, evs[..n]), evs[n])
  }

  /**
   * Every run of additions, dispatches, releases, cancellations and migrations: every request that
   * was added is queued, in flight, released or cancelled, exactly once, and every counter equals
   * what it counts.
   */
  lemma {:induction false} EveryRunConservesRequests(h: int -> nat, mode: Mode, evs: seq<Event>)
    ensures Inv(h, Run(h, mode, evs).contents)
    ensures multiset(AllEntered(h, mode, evs)) == Held(Run(h, mode, evs).contents) + multiset(AllLeft(h, mode, evs))
    decreases |evs|
  {
    if evs == [] {
      EmptyHoldsNothing();
    } else {
      var n := |evs| - 1;
      var s := Run(h, mode, evs[..n]);
      EveryRunConservesRequests(h, mode, evs[..n]);
      StepKeepsInv(h, s, evs[n]);
      var before, now := AllEntered(h, mode, evs[..n]), Entering(h, s, evs[n]);
      var left, leaving := AllLeft(h, mode, evs[..n]), Leaving(h, s, evs[n]);
      Ledger(before, now, left, leaving, Held(s.contents), Held(Step(h, s, evs[n]).contents));
    }
  }

  lemma Ledger<X>(before: seq<X>, now: seq<X>, left: seq<X>, leaving: seq<X>, held: multiset<X>, held': multiset<X>)
    requires multiset(before) == held + multiset(left) && held + multiset(now) == held' + multiset(leaving)
    ensures multiset(before + now) == held' + multiset(left + leaving)
  {
    assert multiset(before + now) == multiset(before) + multiset(now);
    assert multiset(left + leaving) == multiset(left) + multiset(leaving);
    forall x ensures multiset(before + now)[x] == (held' + multiset(left + leaving))[x] {
      assert multiset(before)[x] == (held + multiset(left))[x];
      assert (held + multiset(now))[x] == (held' + multiset(leaving))[x];
    }
  }
}
