/**
 * Which request a release frees: of the requests of a queue that are alike, always the one that was
 * given to the user first, in every run of the library.
 */
module ReleaseOrder {
  import opened Requests
  import opened Sequences
  import opened Aggregation
  import opened Cancellation
  import opened Lifecycle
  import R = LifecycleRuns

  /** The requests of `rs` with that length and offset. */
  function Alike(rs: seq<Request>, len: int, offset: int): seq<Request>
  {
    if rs == [] then []
    else (if Matches(rs[0], len, offset) then [rs[0]] else []) + Alike(rs[1..], len, offset)
  }

  lemma {:induction false} AlikeConcat(a: seq<Request>, b: seq<Request>, len: int, offset: int)
    ensures Alike(a + b, len, offset) == Alike(a, len, offset) + Alike(b, len, offset)
  {
    if a == [] {
      assert a + b == b;
    } else {
      assert (a + b)[0] == a[0] && (a + b)[1..] == a[1..] + b;
      AlikeConcat(a[1..], b, len, offset);
      Regroup(if Matches(a[0], len, offset) then [a[0]] else [], Alike(a[1..], len, offset), Alike(b, len, offset));
    }
  }

  lemma Regroup<T>(a: seq<T>, b: seq<T>, c: seq<T>)
    ensures (a + b) + c == a + (b + c)
  {
  }

  lemma AlikeAt(rs: seq<Request>, n: nat, len: int, offset: int)
    requires n < |rs|
    ensures Alike(rs, len, offset) ==
            Alike(rs[..n], len, offset) + Alike([rs[n]], len, offset) + Alike(rs[n + 1..], len, offset)
    ensures Alike(Without(rs, n), len, offset) == Alike(rs[..n], len, offset) + Alike(rs[n + 1..], len, offset)
  {
    assert rs == (rs[..n] + [rs[n]]) + rs[n + 1..];
    AlikeConcat(rs[..n], [rs[n]], len, offset);
    AlikeConcat(rs[..n] + [rs[n]], rs[n + 1..], len, offset);
    AlikeConcat(rs[..n], rs[n + 1..], len, offset);
  }

  lemma AlikeOne(r: Request, len: int, offset: int)
    ensures Alike([r], len, offset) == if Matches(r, len, offset) then [r] else []
  {
    assert [r][1..] == [];
  }

  lemma {:induction false} NoneAlike(rs: seq<Request>, len: int, offset: int)
    requires forall x :: 0 <= x < |rs| ==> !Matches(rs[x], len, offset)
    ensures Alike(rs, len, offset) == []
  {
    if rs == [] {
    } else {
      NoneAlike(rs[1..], len, offset);
    }
  }

  /** Taking out the first match of its kind takes the first of those alike; the others keep their order. */
  lemma AlikeWithout(rs: seq<Request>, n: nat, len: int, offset: int)
    requires n < |rs| && n == FirstMatch(rs, rs[n].len, rs[n].offset)
    ensures Alike(rs, len, offset) == Alike([rs[n]], len, offset) + Alike(Without(rs, n), len, offset)
  {
    AlikeAt(rs, n, len, offset);
    AlikeOne(rs[n], len, offset);
    if Matches(rs[n], len, offset) {
      NoneAlike(rs[..n], len, offset);
    }
  }

  lemma {:induction false} AlikeIffMatch(rs: seq<Request>, len: int, offset: int)
    ensures Alike(rs, len, offset) != [] <==> FirstMatch(rs, len, offset) < |rs|
  {
    if rs == [] {
    } else {
      AlikeIffMatch(rs[1..], len, offset);
    }
  }

  // ---------------------------------------------------------------------------------------------
  // The requests in flight of one queue
  // ---------------------------------------------------------------------------------------------

  function Flying(h: int -> nat, c: Contents, id: int, k: Kind): seq<Request>
  {
    R.QueueOf(h, c, id, k).dispatch
  }

  lemma PlaceIs(line: seq<FileRec>, id: int, n: nat)
    requires n <= |line| && (forall x :: 0 <= x < n ==> line[x].id < id) && (n < |line| ==> line[n].id >= id)
    ensures R.Position(line, id) == n
  {
  }

  lemma SameIdsSamePlace(a: seq<FileRec>, b: seq<FileRec>, id: int)
    requires |a| == |b| && forall x :: 0 <= x < |a| ==> a[x].id == b[x].id
    ensures R.Position(a, id) == R.Position(b, id) && R.HasFile(a, id) == R.HasFile(b, id)
  {
    PlaceIs(b, id, R.Position(a, id));
  }

  /** A change of one queue gives that queue its new list of requests in flight, and no other. */
  lemma ChangeFlying(h: int -> nat, c: Contents, d: Contents, i: nat, j: nat, f: FileRec, id: int, k: Kind)
    requires i < |c.table| && j < |c.table[i]| && f.id == c.table[i][j].id && i == h(f.id)
    requires StrictlyIncreasing(c.table[i], ID) && d.table == Put(c, i, j, f).table
    ensures Flying(h, d, id, k) == if id == f.id then f.Queue(k).dispatch else Flying(h, c, id, k)
  {
    if h(id) < |c.table| {
      SameIdsSamePlace(c.table[h(id)], d.table[h(id)], id);
      R.PositionOf(c.table[i], j);
    }
  }

  /** A file inserted at its place shows the queues of all others as before, and has none of its own yet. */
  lemma InsertedPlace(line: seq<FileRec>, own: int, id: int)
    requires !R.HasFile(line, own)
    ensures var j, p := R.Position(line, own), R.Position(line, id);
            R.Position(line[..j] + [NewFile(own)] + line[j..], id) == if id <= own then p else p + 1
  {
    var j, p := R.Position(line, own), R.Position(line, id);
    var wide := line[..j] + [NewFile(own)] + line[j..];
    assert id <= own ==> p <= j;
    assert id > own ==> j <= p;
    PlaceIs(wide, id, if id <= own then p else p + 1);
  }

  lemma InsertedQueue(line: seq<FileRec>, own: int, id: int)
    requires !R.HasFile(line, own)
    ensures var j := R.Position(line, own);
            var wide := line[..j] + [NewFile(own)] + line[j..];
            R.HasFile(wide, id) == (id == own || R.HasFile(line, id))
            && (R.HasFile(wide, id) ==>
                  wide[R.Position(wide, id)] == if id == own then NewFile(own) else line[R.Position(line, id)])
  {
    InsertedPlace(line, own, id);
  }

  lemma EnsureFlying(h: int -> nat, c: Contents, own: int, id: int, k: Kind)
    requires h(own) < |c.table|
    ensures Flying(h, R.EnsureFile(c, h(own), own), id, k) == Flying(h, c, id, k)
  {
    var line := c.table[h(own)];
    if h(id) == h(own) && !R.HasFile(line, own) {
      InsertedQueue(line, own, id);
    }
  }

  lemma MigrationFlying(h: int -> nat, c: Contents, id: int, k: Kind)
    ensures Flying(h, R.MigrateToTimeline(c), id, k) == Flying(h, c, id, k)
  {
    if h(id) < |c.table| {
      SameIdsSamePlace(c.table[h(id)], R.MigrateToTimeline(c).table[h(id)], id);
    }
  }

  // ---------------------------------------------------------------------------------------------
  // Runs
  // ---------------------------------------------------------------------------------------------

  /** The requests of that queue that an event gives to the user, in the order of the list it is given. */
  ghost function Sent(h: int -> nat, s: R.Library, ev: R.Event, id: int, k: Kind): seq<Request>
    requires Inv(h, s.contents)
  {
    var c := s.contents;
    if !R.Applies(h, s, ev) then []
    else if ev.Processed? && ev.file == id && ev.kind == k then R.QueueOf(h, c, id, k).list[ev.index].members
    else if ev.ProcessedOldest? && Belongs(c.timeline[0].members[0], id, k) then c.timeline[0].members
    else []
  }

  /** The requests of that queue that it frees. */
  ghost function Freed(h: int -> nat, s: R.Library, ev: R.Event, id: int, k: Kind): seq<Request>
  {
    if ev.Released? && ev.file == id && ev.kind == k then R.Leaving(h, s, ev) else []
  }

  /** The requests in flight are followed by those sent, or lose the one that is freed. */
  ghost predicate Follows(h: int -> nat, s: R.Library, ev: R.Event, id: int, k: Kind)
    requires Inv(h, s.contents)
  {
    var before, after := Flying(h, s.contents, id, k), Flying(h, R.Step(h, s, ev).contents, id, k);
    if Freed(h, s, ev, id, k) == [] then after == before + Sent(h, s, ev, id, k)
    else
      var n := FirstMatch(before, ev.len, ev.offset);
      n < |before| && Freed(h, s, ev, id, k) == [before[n]] && after == Without(before, n)
  }

  lemma EnqueueFlying(h: int -> nat, c: Contents, mode: Mode, r: Request, id: int, k: Kind)
    requires h(r.file) < |c.table| == |c.counter| && R.HasFile(c.table[h(r.file)], r.file)
    requires StrictlyIncreasing(c.table[h(r.file)], ID)
    ensures var i := h(r.file);
            Flying(h, R.Enqueue(c, mode, i, R.Position(c.table[i], r.file), r), id, k) == Flying(h, c, id, k)
  {
    var i := h(r.file);
    var j := R.Position(c.table[i], r.file);
    var d := R.Enqueue(c, mode, i, j, r);
    ChangeFlying(h, c, d, i, j, d.table[i][j], id, k);
  }

  lemma AddedFlying(h: int -> nat, c: Contents, mode: Mode, r: Request, id: int, k: Kind)
    requires Inv(h, c) && h(r.file) < LINES
    ensures Flying(h, R.AddRequest(h, c, mode, r), id, k) == Flying(h, c, id, k)
  {
    var d := R.EnsureFile(c, h(r.file), r.file);
    R.EnsureKeepsShape(h, c, r.file);
    assert LineShape(h, d.table[h(r.file)], h(r.file));
    EnsureFlying(h, c, r.file, id, k);
    EnqueueFlying(h, d, mode, r, id, k);
  }

  /** Queue `l` of file `own` gets new lists; what is in flight elsewhere stays. */
  lemma RecountedFlying(h: int -> nat, c: Contents, own: int, l: Kind, list: seq<Entry>, dispatch: seq<Request>,
                        timeline: seq<Entry>, gone: int, shrunk: int, id: int, k: Kind)
    requires Inv(h, c) && R.HasQueue(h, c, own)
    ensures var i, j := h(own), R.Position(c.table[h(own)], own);
            Flying(h, Recounted(c, i, j, l, list, dispatch, timeline, 0, gone, 0, shrunk), id, k) ==
            if id == own && k == l then dispatch else Flying(h, c, id, k)
  {
    var i, j := h(own), R.Position(c.table[h(own)], own);
    assert LineShape(h, c.table[i], i);
    var d := Recounted(c, i, j, l, list, dispatch, timeline, 0, gone, 0, shrunk);
    ChangeFlying(h, c, d, i, j, d.table[i][j], id, k);
  }

  lemma StaysFollows(h: int -> nat, s: R.Library, ev: R.Event, id: int, k: Kind)
    requires Inv(h, s.contents) && Freed(h, s, ev, id, k) == [] && Sent(h, s, ev, id, k) == []
    requires Flying(h, R.Step(h, s, ev).contents, id, k) == Flying(h, s.contents, id, k)
    ensures Follows(h, s, ev, id, k)
  {
    var before := Flying(h, s.contents, id, k);
    assert before + Sent(h, s, ev, id, k) == before;
  }

  lemma ProcessedFollows(h: int -> nat, s: R.Library, ev: R.Event, id: int, k: Kind)
    requires Inv(h, s.contents) && ev.Processed? && R.Applies(h, s, ev)
    ensures Follows(h, s, ev, id, k)
  {
    var q := R.QueueOf(h, s.contents, ev.file, ev.kind);
    var ms := q.list[ev.index].members;
    RecountedFlying(h, s.contents, ev.file, ev.kind, Without(q.list, ev.index), q.dispatch + ms, s.contents.timeline,
                    |ms|, Sum(ms, LENGTH), id, k);
  }

  lemma OldestFollows(h: int -> nat, s: R.Library, ev: R.Event, id: int, k: Kind)
    requires Inv(h, s.contents) && ev.ProcessedOldest? && R.Applies(h, s, ev)
    ensures Follows(h, s, ev, id, k)
  {
    var c := s.contents;
    var ms := c.timeline[0].members;
    var q := R.QueueOf(h, c, ms[0].file, ms[0].kind);
    RecountedFlying(h, c, ms[0].file, ms[0].kind, q.list, q.dispatch + ms, c.timeline[1..], |ms|, Sum(ms, LENGTH),
                    id, k);
  }

  lemma ReleasedFlying(h: int -> nat, c: Contents, own: int, l: Kind, len: int, offset: int, id: int, k: Kind)
    requires Inv(h, c) && R.HasQueue(h, c, own)
    requires FirstMatch(Flying(h, c, own, l), len, offset) < |Flying(h, c, own, l)|
    ensures var before := Flying(h, c, own, l);
            Flying(h, R.Release(c, h(own), R.Position(c.table[h(own)], own), l, len, offset), id, k) ==
            if id == own && k == l then Without(before, FirstMatch(before, len, offset)) else Flying(h, c, id, k)
  {
    var i, j := h(own), R.Position(c.table[h(own)], own);
    assert LineShape(h, c.table[i], i);
    var q := c.table[i][j].Queue(l);
    var f := c.table[i][j].With(l, q.(dispatch := Without(q.dispatch, FirstMatch(q.dispatch, len, offset))));
    ChangeFlying(h, c, Put(c, i, j, f), i, j, f, id, k);
  }

  lemma ReleasedFollows(h: int -> nat, s: R.Library, ev: R.Event, id: int, k: Kind)
    requires Inv(h, s.contents) && ev.Released? && R.Applies(h, s, ev)
    ensures Follows(h, s, ev, id, k)
  {
    ReleasedFlying(h, s.contents, ev.file, ev.kind, ev.len, ev.offset, id, k);
    if ev.file != id || ev.kind != k {
      StaysFollows(h, s, ev, id, k);
    }
  }

  lemma CancelledFollows(h: int -> nat, s: R.Library, ev: R.Event, id: int, k: Kind)
    requires Inv(h, s.contents) && ev.Cancelled'? && R.Applies(h, s, ev)
    ensures Follows(h, s, ev, id, k)
  {
    var q := R.QueueOf(h, s.contents, ev.file, ev.kind);
    RecountedFlying(h, s.contents, ev.file, ev.kind, Cancel(q.list, ev.len, ev.offset), q.dispatch,
                    s.contents.timeline, 1, Cancelled(q.list, ev.len, ev.offset).len, id, k);
  }

  lemma NothingMoves(h: int -> nat, s: R.Library, ev: R.Event, id: int, k: Kind)
    requires Inv(h, s.contents) && (R.Applies(h, s, ev) ==> ev.Added? || ev.Migrated?)
    ensures Freed(h, s, ev, id, k) == [] && Sent(h, s, ev, id, k) == []
  {
  }

  lemma FlyingStays(h: int -> nat, s: R.Library, ev: R.Event, id: int, k: Kind)
    requires Inv(h, s.contents) && (R.Applies(h, s, ev) ==> ev.Added? || ev.Migrated?)
    ensures Flying(h, R.Step(h, s, ev).contents, id, k) == Flying(h, s.contents, id, k)
  {
    if R.Applies(h, s, ev) {
      if ev.Added? {
        AddedFlying(h, s.contents, s.mode, ev.request, id, k);
        assert R.Step(h, s, ev).contents == R.AddRequest(h, s.contents, s.mode, ev.request);
      } else {
        MigrationFlying(h, s.contents, id, k);
        assert R.Step(h, s, ev).contents == R.MigrateToTimeline(s.contents);
      }
    }
  }

  lemma StepFollows(h: int -> nat, s: R.Library, ev: R.Event, id: int, k: Kind)
    requires Inv(h, s.contents)
    ensures Follows(h, s, ev, id, k)
  {
    if R.Applies(h, s, ev) && ev.Processed? {
      ProcessedFollows(h, s, ev, id, k);
    } else if R.Applies(h, s, ev) && ev.ProcessedOldest? {
      OldestFollows(h, s, ev, id, k);
    } else if R.Applies(h, s, ev) && ev.Released? {
      ReleasedFollows(h, s, ev, id, k);
    } else if R.Applies(h, s, ev) && ev.Cancelled'? {
      CancelledFollows(h, s, ev, id, k);
    } else {
      NothingMoves(h, s, ev, id, k);
      FlyingStays(h, s, ev, id, k);
      StaysFollows(h, s, ev, id, k);
    }
  }

  ghost function AllSent(h: int -> nat, mode: Mode, evs: seq<R.Event>, id: int, k: Kind): seq<Request>
    decreases |evs|
  {
    if evs == [] then [] else
      var n := |evs| - 1;
      AllSent(h, mode, evs[..n], id, k) + Sent(h, R.Run(h, mode, evs[..n]), evs[n], id, k)
  }

  ghost function AllFreed(h: int -> nat, mode: Mode, evs: seq<R.Event>, id: int, k: Kind): seq<Request>
    decreases |evs|
  {
    if evs == [] then [] else
      var n := |evs| - 1;
      AllFreed(h, mode, evs[..n], id, k) + Freed(h, R.Run(h, mode, evs[..n]), evs[n], id, k)
  }

  lemma StepKeepsOrder(h: int -> nat, s: R.Library, ev: R.Event, id: int, k: Kind, len: int, offset: int)
    requires Inv(h, s.contents)
    ensures Alike(Flying(h, s.contents, id, k), len, offset) + Alike(Sent(h, s, ev, id, k), len, offset) ==
            Alike(Freed(h, s, ev, id, k), len, offset)
            + Alike(Flying(h, R.Step(h, s, ev).contents, id, k), len, offset)
  {
    StepFollows(h, s, ev, id, k);
    var before := Flying(h, s.contents, id, k);
    if Freed(h, s, ev, id, k) == [] {
      AlikeConcat(before, Sent(h, s, ev, id, k), len, offset);
    } else {
      AlikeWithout(before, FirstMatch(before, ev.len, ev.offset), len, offset);
    }
  }

  lemma NothingFlying(h: int -> nat, id: int, k: Kind)
    ensures Flying(h, R.Empty(LINES), id, k) == []
  {
    assert h(id) < LINES ==> R.Empty(LINES).table[h(id)] == [];
  }

  /**
   * In every run, for each file, kind, length and offset: the requests freed so far are the first
   * ones that were given to the user, in the same order, and the others are still in flight.
   */
  lemma {:induction false} FreedInOrderSent(h: int -> nat, mode: Mode, evs: seq<R.Event>, id: int, k: Kind, len: int,
                                            offset: int)
    ensures Alike(AllSent(h, mode, evs, id, k), len, offset) ==
            Alike(AllFreed(h, mode, evs, id, k), len, offset)
            + Alike(Flying(h, R.Run(h, mode, evs).contents, id, k), len, offset)
    decreases |evs|
  {
    if evs == [] {
      NothingFlying(h, id, k);
    } else {
      var n := |evs| - 1;
      var s := R.Run(h, mode, evs[..n]);
      FreedInOrderSent(h, mode, evs[..n], id, k, len, offset);
      StepKeepsOrder(h, s, evs[n], id, k, len, offset);
      AlikeConcat(AllSent(h, mode, evs[..n], id, k), Sent(h, s, evs[n], id, k), len, offset);
      AlikeConcat(AllFreed(h, mode, evs[..n], id, k), Freed(h, s, evs[n], id, k), len, offset);
      Passed(Alike(AllSent(h, mode, evs[..n], id, k), len, offset), Alike(Sent(h, s, evs[n], id, k), len, offset),
             Alike(AllFreed(h, mode, evs[..n], id, k), len, offset), Alike(Freed(h, s, evs[n], id, k), len, offset),
             Alike(Flying(h, s.contents, id, k), len, offset),
             Alike(Flying(h, R.Step(h, s, evs[n]).contents, id, k), len, offset));
    }
  }

  lemma Passed<T>(sent: seq<T>, now: seq<T>, freed: seq<T>, gone: seq<T>, before: seq<T>, after: seq<T>)
    requires sent == freed + before && before + now == gone + after
    ensures sent + now == freed + gone + after
  {
    assert sent + now == freed + (before + now);
  }

  lemma AppliesIffAlike(h: int -> nat, s: R.Library, id: int, k: Kind, len: int, offset: int)
    ensures R.Applies(h, s, R.Released(id, k, len, offset)) <==> Alike(Flying(h, s.contents, id, k), len, offset) != []
  {
    AlikeIffMatch(Flying(h, s.contents, id, k), len, offset);
  }

  /** A release finds a request if and only if more requests like that were given to the user than freed. */
  lemma ReleaseFindsIff(h: int -> nat, mode: Mode, evs: seq<R.Event>, id: int, k: Kind, len: int, offset: int)
    ensures R.Applies(h, R.Run(h, mode, evs), R.Released(id, k, len, offset)) <==>
              |Alike(AllSent(h, mode, evs, id, k), len, offset)| > |Alike(AllFreed(h, mode, evs, id, k), len, offset)|
  {
    FreedInOrderSent(h, mode, evs, id, k, len, offset);
    AppliesIffAlike(h, R.Run(h, mode, evs), id, k, len, offset);
  }
}
