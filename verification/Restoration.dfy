/**
 * Adding a request to the library and cancelling it again: what every run keeps about the entries of
 * all queues, and when the two operations together leave files, queues and counters as they were.
 */
module Restoration {
  import opened Requests
  import opened Sequences
  import opened Aggregation
  import opened Cancellation
  import opened Lifecycle
  import O = Overlaps
  import A = AddThenCancel
  import R = LifecycleRuns

  /** The entries of every queue of the hashtable summarise their members. */
  ghost predicate QueuesOk(c: Contents)
  {
    forall i, j, k :: 0 <= i < |c.table| && 0 <= j < |c.table[i]| ==> O.AllSummaryOk(c.table[i][j].Queue(k).list)
  }

  lemma PutKeepsQueuesOk(c: Contents, d: Contents, i: nat, j: nat, f: FileRec)
    requires QueuesOk(c) && i < |c.table| && j < |c.table[i]| && d.table == Put(c, i, j, f).table
    requires forall k :: O.AllSummaryOk(f.Queue(k).list)
    ensures QueuesOk(d)
  {
    forall x, y, k | 0 <= x < |d.table| && 0 <= y < |d.table[x]| ensures O.AllSummaryOk(d.table[x][y].Queue(k).list) {
      assert d.table[x][y] == if x == i && y == j then f else c.table[x][y];
    }
  }

  lemma RecountKeepsQueuesOk(c: Contents, i: nat, j: nat, k: Kind, list: seq<Entry>, dispatch: seq<Request>,
                             timeline: seq<Entry>, come: int, gone: int, grown: int, shrunk: int)
    requires QueuesOk(c) && i < |c.table| && j < |c.table[i]| && i < |c.counter| && O.AllSummaryOk(list)
    ensures QueuesOk(Recounted(c, i, j, k, list, dispatch, timeline, come, gone, grown, shrunk))
  {
    var f := c.table[i][j];
    var g := RecountedFile(f, k, list, dispatch, come, gone, grown, shrunk);
    forall l ensures O.AllSummaryOk(g.Queue(l).list) {
      assert g.Queue(l).list == if l == k then list else f.Queue(l).list;
    }
    PutKeepsQueuesOk(c, Recounted(c, i, j, k, list, dispatch, timeline, come, gone, grown, shrunk), i, j, g);
  }

  lemma EnsureKeepsQueuesOk(c: Contents, i: nat, id: int)
    requires QueuesOk(c) && i < |c.table|
    ensures QueuesOk(R.EnsureFile(c, i, id))
  {
    var d, line, j := R.EnsureFile(c, i, id), c.table[i], R.Position(c.table[i], id);
    if !R.HasFile(line, id) {
      forall x, y, k | 0 <= x < |d.table| && 0 <= y < |d.table[x]| ensures O.AllSummaryOk(d.table[x][y].Queue(k).list) {
        assert d.table[x] == if x == i then line[..j] + [NewFile(id)] + line[j..] else c.table[x];
        if x == i && y != j {
          assert d.table[x][y] == c.table[i][if y < j then y else y - 1];
        }
      }
    }
  }

  lemma AddKeepsQueuesOk(h: int -> nat, c: Contents, mode: Mode, r: Request)
    requires QueuesOk(c) && h(r.file) < |c.table| == |c.counter|
    ensures QueuesOk(R.AddRequest(h, c, mode, r))
  {
    var i := h(r.file);
    var d := R.EnsureFile(c, i, r.file);
    EnsureKeepsQueuesOk(c, i, r.file);
    var j := R.Position(d.table[i], r.file);
    var q := d.table[i][j].Queue(r.kind);
    assert O.AllSummaryOk(q.list);
    O.AddKeepsSummaries(q.list, r, mode.cap);
    if mode.needsHashtable {
      RecountKeepsQueuesOk(d, i, j, r.kind, Add(q.list, r, mode.cap), q.dispatch, d.timeline, 1, 0, r.len, 0);
    } else {
      RecountKeepsQueuesOk(d, i, j, r.kind, q.list, q.dispatch, R.TL.AddToTimeline(d.timeline, r, mode.cap), 1, 0,
                           r.len, 0);
    }
  }

  lemma MigrationKeepsQueuesOk(c: Contents)
    ensures QueuesOk(R.MigrateToTimeline(c))
  {
  }

  lemma DispatchKeepsQueuesOk(c: Contents, i: nat, j: nat, k: Kind, n: nat)
    requires QueuesOk(c) && i < |c.table| && j < |c.table[i]| && i < |c.counter| && n < |c.table[i][j].Queue(k).list|
    ensures QueuesOk(R.DispatchFromQueue(c, i, j, k, n))
  {
    var q := c.table[i][j].Queue(k);
    assert O.AllSummaryOk(q.list);
    RecountKeepsQueuesOk(c, i, j, k, Without(q.list, n), q.dispatch + q.list[n].members, c.timeline, 0,
                         |q.list[n].members|, 0, Sum(q.list[n].members, LENGTH));
  }

  lemma OldestKeepsQueuesOk(h: int -> nat, c: Contents)
    requires QueuesOk(c) && |c.table| == |c.counter| && R.OldestReady(h, c)
    ensures QueuesOk(R.DispatchOldest(h, c))
  {
    var e := c.timeline[0];
    var i, k := h(e.members[0].file), e.members[0].kind;
    var j := R.Position(c.table[i], e.members[0].file);
    var q := c.table[i][j].Queue(k);
    RecountKeepsQueuesOk(c, i, j, k, q.list, q.dispatch + e.members, c.timeline[1..], 0, |e.members|, 0,
                         Sum(e.members, LENGTH));
  }

  lemma ReleaseKeepsQueuesOk(c: Contents, i: nat, j: nat, k: Kind, len: int, offset: int)
    requires QueuesOk(c) && i < |c.table| && j < |c.table[i]|
    ensures QueuesOk(R.Release(c, i, j, k, len, offset))
  {
    var f := c.table[i][j];
    var n := FirstMatch(f.Queue(k).dispatch, len, offset);
    if n < |f.Queue(k).dispatch| {
      var g := f.With(k, f.Queue(k).(dispatch := Without(f.Queue(k).dispatch, n)));
      forall l ensures O.AllSummaryOk(g.Queue(l).list) {
        assert g.Queue(l).list == f.Queue(l).list;
      }
      PutKeepsQueuesOk(c, R.Release(c, i, j, k, len, offset), i, j, g);
    }
  }

  lemma CancelKeepsQueuesOk(c: Contents, i: nat, j: nat, k: Kind, len: int, offset: int)
    requires QueuesOk(c) && i < |c.table| && j < |c.table[i]| && i < |c.counter|
    ensures QueuesOk(R.CancelQueued(c, i, j, k, len, offset))
  {
    var q := c.table[i][j].Queue(k);
    assert O.AllSummaryOk(q.list);
    O.CancelKeepsSummaries(q.list, len, offset, 1);
    if FindEntry(q.list, len, offset) < |q.list| {
      RecountKeepsQueuesOk(c, i, j, k, Cancel(q.list, len, offset), q.dispatch, c.timeline, 0, 1, 0,
                           Cancelled(q.list, len, offset).len);
    }
  }

  lemma StepKeepsQueuesOk(h: int -> nat, s: R.Library, ev: R.Event)
    requires Inv(h, s.contents) && QueuesOk(s.contents)
    ensures QueuesOk(R.Step(h, s, ev).contents)
  {
    var c := s.contents;
    if R.Applies(h, s, ev) {
      match ev
      case Added(r) => AddKeepsQueuesOk(h, c, s.mode, r);
      case Processed(id, k, n) => DispatchKeepsQueuesOk(c, h(id), R.Position(c.table[h(id)], id), k, n);
      case ProcessedOldest => OldestKeepsQueuesOk(h, c);
      case Released(id, k, len, offset) =>
        ReleaseKeepsQueuesOk(c, h(id), R.Position(c.table[h(id)], id), k, len, offset);
      case Cancelled'(id, k, len, offset) =>
        CancelKeepsQueuesOk(c, h(id), R.Position(c.table[h(id)], id), k, len, offset);
      case Migrated => MigrationKeepsQueuesOk(c);
    }
  }

  /** After every run, cancellations included, all queued entries summarise their members. */
  lemma {:induction false} EveryRunKeepsQueuesOk(h: int -> nat, mode: Mode, evs: seq<R.Event>)
    ensures QueuesOk(R.Run(h, mode, evs).contents)
    decreases |evs|
  {
    if evs == [] {
    } else {
      var n := |evs| - 1;
      EveryRunKeepsQueuesOk(h, mode, evs[..n]);
      StepKeepsQueuesOk(h, R.Run(h, mode, evs[..n]), evs[n]);
    }
  }

  // ---------------------------------------------------------------------------------------------
  // An addition and a cancellation
  // ---------------------------------------------------------------------------------------------

  /** The contents with the file of `r`, its position, and its queue for requests of this kind. */
  function WithFile(h: int -> nat, c: Contents, r: Request): Contents
    requires h(r.file) < |c.table|
  {
    R.EnsureFile(c, h(r.file), r.file)
  }

  function Place(h: int -> nat, c: Contents, r: Request): (j: nat)
    requires h(r.file) < |c.table|
    ensures j < |WithFile(h, c, r).table[h(r.file)]|
  {
    R.Position(WithFile(h, c, r).table[h(r.file)], r.file)
  }

  function QueueFor(h: int -> nat, c: Contents, r: Request): QueueRec
    requires h(r.file) < |c.table|
  {
    WithFile(h, c, r).table[h(r.file)][Place(h, c, r)].Queue(r.kind)
  }

  /** The queue of `r` with other entries; everything else, the counters included, as before. */
  function WithEntries(h: int -> nat, c: Contents, r: Request, list: seq<Entry>): Contents
    requires h(r.file) < |c.table|
  {
    var d, i, j := WithFile(h, c, r), h(r.file), Place(h, c, r);
    Put(d, i, j, d.table[i][j].With(r.kind, QueueFor(h, c, r).(list := list)))
  }

  /** One request more and one of the same length less leave the counters as they were. */
  lemma ThereAndBack(c: Contents, i: nat, j: nat, k: Kind, bytes: int, more: seq<Entry>, back: seq<Entry>)
    requires i < |c.table| && j < |c.table[i]| && i < |c.counter|
    ensures var q := c.table[i][j].Queue(k);
            var d := Recounted(c, i, j, k, more, q.dispatch, c.timeline, 1, 0, bytes, 0);
            Recounted(d, i, j, k, back, q.dispatch, c.timeline, 0, 1, 0, bytes) ==
            Put(c, i, j, c.table[i][j].With(k, q.(list := back)))
  {
    var q := c.table[i][j].Queue(k);
    var d := Recounted(c, i, j, k, more, q.dispatch, c.timeline, 1, 0, bytes, 0);
    var g := c.table[i][j].With(k, q.(list := back));
    assert RecountedFile(d.table[i][j], k, back, q.dispatch, 0, 1, 0, bytes) == g;
    assert d.table[i][j := g] == c.table[i][j := g]
      by { assert d.table[i][j := g] == c.table[i][j := d.table[i][j]][j := g]; }
  }

  lemma AddedQueue(h: int -> nat, c: Contents, mode: Mode, r: Request)
    requires h(r.file) < |c.table| == |c.counter| && mode.needsHashtable
    ensures var d, i, j := R.AddRequest(h, c, mode, r), h(r.file), Place(h, c, r);
            && i < |d.table| && j < |d.table[i]| && d.table[i][j].id == r.file
            && d.table[i][j].Queue(r.kind).list == Add(QueueFor(h, c, r).list, r, mode.cap)
  {
  }

  lemma AddedRequest(h: int -> nat, c: Contents, mode: Mode, r: Request)
    requires Inv(h, c) && h(r.file) < LINES && mode.needsHashtable
    ensures var d, i, j := R.AddRequest(h, c, mode, r), h(r.file), Place(h, c, r);
            && Inv(h, d) && R.HasQueue(h, d, r.file) && R.Position(d.table[i], r.file) == j && j < |d.table[i]|
            && d.table[i][j].Queue(r.kind).list == Add(QueueFor(h, c, r).list, r, mode.cap)
            && R.Held(d) == R.Held(c) + multiset{r}
  {
    var d, i, j := R.AddRequest(h, c, mode, r), h(r.file), Place(h, c, r);
    R.AddKeepsInv(h, c, mode, r);
    AddedQueue(h, c, mode, r);
    assert LineShape(h, d.table[i], i);
    R.PositionOf(d.table[i], j);
  }

  /**
   * If the cancellation finds a request, the counters, the timeline and the records of all files are
   * as they were before the addition, but for the entries of the queue.
   */
  lemma CancelGoesBack(h: int -> nat, c: Contents, mode: Mode, r: Request)
    requires Inv(h, c) && h(r.file) < LINES && mode.needsHashtable
    requires var list := Add(QueueFor(h, c, r).list, r, mode.cap); FindEntry(list, r.len, r.offset) < |list|
    ensures var list := Cancel(Add(QueueFor(h, c, r).list, r, mode.cap), r.len, r.offset);
            R.CancelQueued(R.AddRequest(h, c, mode, r), h(r.file), Place(h, c, r), r.kind, r.len, r.offset)
            == WithEntries(h, c, r, list)
  {
    var d, i, j := R.AddRequest(h, c, mode, r), h(r.file), Place(h, c, r);
    AddedRequest(h, c, mode, r);
    var list := Add(QueueFor(h, c, r).list, r, mode.cap);
    R.CancelKeepsInv(h, d, i, j, r.kind, r.len, r.offset);
    ThereAndBack(WithFile(h, c, r), i, j, r.kind, r.len, list, Cancel(list, r.len, r.offset));
  }

  /** The library after a request was added and a request like it cancelled. */
  ghost function AddedAndCancelled(h: int -> nat, s: R.Library, r: Request): Contents
    requires Inv(h, s.contents)
  {
    R.StepKeepsInv(h, s, R.Added(r));
    R.Step(h, R.Step(h, s, R.Added(r)), R.Cancelled'(r.file, r.kind, r.len, r.offset)).contents
  }

  lemma CancelAppliesIff(h: int -> nat, s: R.Library, i: nat, j: nat, id: int, k: Kind, len: int, offset: int)
    requires s.mode.needsHashtable && R.HasQueue(h, s.contents, id)
    requires i == h(id) && j == R.Position(s.contents.table[i], id)
    ensures var list := s.contents.table[i][j].Queue(k).list;
            R.Applies(h, s, R.Cancelled'(id, k, len, offset)) <==> FindEntry(list, len, offset) < |list|
  {
  }

  lemma CancelTakesEffect(h: int -> nat, s: R.Library, i: nat, j: nat, id: int, k: Kind, len: int, offset: int)
    requires Inv(h, s.contents) && s.mode.needsHashtable && R.HasQueue(h, s.contents, id)
    requires i == h(id) && j == R.Position(s.contents.table[i], id) && i < |s.contents.counter|
    requires var list := s.contents.table[i][j].Queue(k).list; FindEntry(list, len, offset) < |list|
    ensures R.Step(h, s, R.Cancelled'(id, k, len, offset)).contents == R.CancelQueued(s.contents, i, j, k, len, offset)
  {
    CancelAppliesIff(h, s, i, j, id, k, len, offset);
  }

  lemma CancelFindsNothing(h: int -> nat, s: R.Library, i: nat, j: nat, id: int, k: Kind, len: int, offset: int)
    requires Inv(h, s.contents) && s.mode.needsHashtable && R.HasQueue(h, s.contents, id)
    requires i == h(id) && j == R.Position(s.contents.table[i], id) && i < |s.contents.counter|
    requires var list := s.contents.table[i][j].Queue(k).list; FindEntry(list, len, offset) == |list|
    ensures R.Step(h, s, R.Cancelled'(id, k, len, offset)) == s
  {
    CancelAppliesIff(h, s, i, j, id, k, len, offset);
  }

  lemma AddedAndCancelledIs(h: int -> nat, s: R.Library, r: Request)
    requires Inv(h, s.contents) && h(r.file) < LINES && s.mode.needsHashtable
    ensures var list := Add(QueueFor(h, s.contents, r).list, r, s.mode.cap);
            var d := R.AddRequest(h, s.contents, s.mode, r);
            AddedAndCancelled(h, s, r) ==
            (if FindEntry(list, r.len, r.offset) < |list|
             then WithEntries(h, s.contents, r, Cancel(list, r.len, r.offset)) else d)
  {
    var t := R.Library(R.AddRequest(h, s.contents, s.mode, r), s.mode);
    AddedRequest(h, s.contents, s.mode, r);
    assert R.Step(h, s, R.Added(r)) == t;
    var list := Add(QueueFor(h, s.contents, r).list, r, s.mode.cap);
    if FindEntry(list, r.len, r.offset) == |list| {
      CancelFindsNothing(h, t, h(r.file), Place(h, s.contents, r), r.file, r.kind, r.len, r.offset);
    } else {
      CancelTakesEffect(h, t, h(r.file), Place(h, s.contents, r), r.file, r.kind, r.len, r.offset);
      CancelGoesBack(h, s.contents, s.mode, r);
    }
  }

  /** What is left: the former contents but for the entries of the queue, or the contents after the addition. */
  lemma OutcomeOf(h: int -> nat, s: R.Library, r: Request)
    requires Inv(h, s.contents) && QueuesOk(s.contents) && h(r.file) < LINES && s.mode.needsHashtable
    ensures var q := QueueFor(h, s.contents, r).list;
            && O.AllSummaryOk(q)
            && AddedAndCancelled(h, s, r) ==
               (if A.SomethingFound(q, r, s.mode.cap)
                then WithEntries(h, s.contents, r, Cancel(Add(q, r, s.mode.cap), r.len, r.offset))
                else R.AddRequest(h, s.contents, s.mode, r))
  {
    var q := QueueFor(h, s.contents, r).list;
    EnsureKeepsQueuesOk(s.contents, h(r.file), r.file);
    assert O.AllSummaryOk(q);
    A.FindsAfterAddIff(q, r, s.mode.cap);
    AddedAndCancelledIs(h, s, r);
  }

  /** Instead of `r` another queued request like it is not held any more. */
  ghost predicate AnotherLeft(h: int -> nat, c: Contents, t: Contents, r: Request)
    requires h(r.file) < |c.table|
  {
    exists x :: x in Members(QueueFor(h, c, r).list) && x != r && Matches(x, r.len, r.offset)
                && R.Held(t) + multiset{x} == R.Held(c) + multiset{r}
  }

  /** The held requests are restored if and only if the newcomer is the request that is found. */
  lemma HeldRestoredIff(h: int -> nat, s: R.Library, r: Request)
    requires Inv(h, s.contents) && QueuesOk(s.contents) && h(r.file) < LINES && s.mode.needsHashtable
    requires r !in Members(QueueFor(h, s.contents, r).list)
    ensures var q, t := QueueFor(h, s.contents, r).list, AddedAndCancelled(h, s, r);
            && (R.Held(t) == R.Held(s.contents) <==> A.NewcomerFound(q, InsertionPoint(q, r), r, s.mode.cap))
            && (A.SomethingFound(q, r, s.mode.cap) && !A.NewcomerFound(q, InsertionPoint(q, r), r, s.mode.cap) ==>
                  AnotherLeft(h, s.contents, t, r))
  {
    var q := QueueFor(h, s.contents, r).list;
    OutcomeOf(h, s, r);
    AddedRequest(h, s.contents, s.mode, r);
    A.FindsAfterAddIff(q, r, s.mode.cap);
    if A.SomethingFound(q, r, s.mode.cap) {
      HeldGoesBack(h, s.contents, s.mode, r);
      A.CancelledWhere(q, r, s.mode.cap);
      A.OneForAnother(R.Held(R.AddRequest(h, s.contents, s.mode, r)), R.Held(s.contents),
                      R.Held(AddedAndCancelled(h, s, r)),
                      r, Cancelled(Add(q, r, s.mode.cap), r.len, r.offset));
    } else {
      assert R.Held(R.AddRequest(h, s.contents, s.mode, r))[r] == R.Held(s.contents)[r] + 1;
    }
  }

  /** The request that is found is not held any more. */
  lemma HeldGoesBack(h: int -> nat, c: Contents, mode: Mode, r: Request)
    requires Inv(h, c) && h(r.file) < LINES && mode.needsHashtable
    requires var list := Add(QueueFor(h, c, r).list, r, mode.cap); FindEntry(list, r.len, r.offset) < |list|
    ensures var list := Add(QueueFor(h, c, r).list, r, mode.cap);
            R.Held(R.AddRequest(h, c, mode, r)) ==
            R.Held(WithEntries(h, c, r, Cancel(list, r.len, r.offset))) + multiset{Cancelled(list, r.len, r.offset)}
  {
    var d := R.AddRequest(h, c, mode, r);
    AddedRequest(h, c, mode, r);
    R.CancelKeepsInv(h, d, h(r.file), Place(h, c, r), r.kind, r.len, r.offset);
    CancelGoesBack(h, c, mode, r);
  }

  /** Everything is restored if and only if moreover the entry was exact and no two entries were glued. */
  lemma ContentsRestoredIff(h: int -> nat, s: R.Library, r: Request)
    requires Inv(h, s.contents) && QueuesOk(s.contents) && h(r.file) < LINES && s.mode.needsHashtable
    requires r !in Members(QueueFor(h, s.contents, r).list)
    ensures var q, k := QueueFor(h, s.contents, r).list, InsertionPoint(QueueFor(h, s.contents, r).list, r);
            AddedAndCancelled(h, s, r) == WithFile(h, s.contents, r) <==>
            A.NewcomerFound(q, k, r, s.mode.cap) && A.HolderExact(q, k, r, s.mode.cap)
            && !GluesEntries(q, k, r, s.mode.cap)
  {
    var q := QueueFor(h, s.contents, r).list;
    OutcomeOf(h, s, r);
    A.CancelRestoresQueueIff(q, r, s.mode.cap);
    EntriesRestoredIff(h, s.contents, r, Cancel(Add(q, r, s.mode.cap), r.len, r.offset));
    AdditionCounts(h, s.contents, s.mode, r);
  }

  lemma AdditionCounts(h: int -> nat, c: Contents, mode: Mode, r: Request)
    requires h(r.file) < |c.table| == |c.counter|
    ensures R.AddRequest(h, c, mode, r).reqnb == c.reqnb + 1 && WithFile(h, c, r).reqnb == c.reqnb
  {
  }

  lemma SameCounters(h: int -> nat, c: Contents, r: Request, list: seq<Entry>)
    requires h(r.file) < |c.table|
    ensures var t := WithEntries(h, c, r, list);
            t.reqnb == c.reqnb && t.counter == c.counter && t.filenb == c.filenb && t.timeline == c.timeline
  {
  }

  lemma EntriesRestoredIff(h: int -> nat, c: Contents, r: Request, list: seq<Entry>)
    requires h(r.file) < |c.table|
    ensures WithEntries(h, c, r, list) == WithFile(h, c, r) <==> list == QueueFor(h, c, r).list
  {
    var d, i, j := WithFile(h, c, r), h(r.file), Place(h, c, r);
    assert WithEntries(h, c, r, list).table[i][j].Queue(r.kind).list == list;
    if list == QueueFor(h, c, r).list {
      assert d.table[i][j := d.table[i][j]] == d.table[i];
    }
  }

  /** The records of all files, the timeline and all counters are as in `c`, but for the entries of the queue of `r`. */
  ghost predicate OnlyEntriesDiffer(h: int -> nat, c: Contents, t: Contents, r: Request)
    requires h(r.file) < |c.table|
  {
    && t.reqnb == c.reqnb && t.counter == c.counter && t.filenb == c.filenb && t.timeline == c.timeline
    && exists list :: t == WithEntries(h, c, r, list)
  }

  /**
   * In every run: adding a request and cancelling it restores all counters and the records of all
   * files if and only if the cancellation finds a request, otherwise it changes nothing; it restores
   * the requests held if and only if the newcomer is the one found, otherwise another one leaves; and
   * everything is restored if and only if moreover the entry of the newcomer had an exact interval
   * and no two entries were glued together. The file record that the addition may create stays.
   */
  lemma CancelRestoresLibraryIff(h: int -> nat, mode: Mode, evs: seq<R.Event>, r: Request)
    requires h(r.file) < LINES && R.Run(h, mode, evs).mode.needsHashtable
    requires r !in Members(QueueFor(h, R.Run(h, mode, evs).contents, r).list)
    ensures var s := R.Run(h, mode, evs);
            var c, t := s.contents, AddedAndCancelled(h, s, r);
            var q, k := QueueFor(h, c, r).list, InsertionPoint(QueueFor(h, c, r).list, r);
            && (A.SomethingFound(q, r, s.mode.cap) <==> OnlyEntriesDiffer(h, c, t, r))
            && (!A.SomethingFound(q, r, s.mode.cap) ==> t == R.AddRequest(h, c, s.mode, r))
            && (R.Held(t) == R.Held(c) <==> A.NewcomerFound(q, k, r, s.mode.cap))
            && (A.SomethingFound(q, r, s.mode.cap) && !A.NewcomerFound(q, k, r, s.mode.cap) ==> AnotherLeft(h, c, t, r))
            && (t == WithFile(h, c, r) <==>
                  A.NewcomerFound(q, k, r, s.mode.cap) && A.HolderExact(q, k, r, s.mode.cap)
                  && !GluesEntries(q, k, r, s.mode.cap))
  {
    var s := R.Run(h, mode, evs);
    EveryRunKeepsQueuesOk(h, mode, evs);
    OutcomeOf(h, s, r);
    HeldRestoredIff(h, s, r);
    ContentsRestoredIff(h, s, r);
    SameCounters(h, s.contents, r, Cancel(Add(QueueFor(h, s.contents, r).list, r, s.mode.cap), r.len, r.offset));
    AdditionCounts(h, s.contents, s.mode, r);
  }
}
