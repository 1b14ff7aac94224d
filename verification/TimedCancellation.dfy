/**
 * Cancelling while the timeline is in use: the search compares only length and offset, across all
 * files, and the counter of a line that goes down is that of the file named by the caller.
 */
module TimedCancellation {
  import opened Requests
  import opened Sequences
  import opened Cancellation
  import opened Lifecycle
  import R = LifecycleRuns
  import TL = Timeline

  /** The file of the request that the search finds, if any, is known. */
  predicate Ready(h: int -> nat, c: Contents, id: int, len: int, offset: int)
  {
    && |c.table| == LINES == |c.counter| && h(id) < LINES
    && (FindEntry(c.timeline, len, offset) < |c.timeline| ==>
          R.HasQueue(h, c, Cancelled(c.timeline, len, offset).file))
  }

  /** The contents without `x`, whose entries were in the timeline, as if its own line had been named. */
  function WithoutTimed(h: int -> nat, c: Contents, x: Request, timeline: seq<Entry>): Contents
    requires |c.table| == |c.counter| && R.HasQueue(h, c, x.file)
  {
    var i, j := h(x.file), R.Position(c.table[h(x.file)], x.file);
    var q := c.table[i][j].Queue(x.kind);
    Recounted(c, i, j, x.kind, q.list, q.dispatch, timeline, 0, 1, 0, x.len)
  }

  /** `agios_cancel_request` for file `id` with the timeline in use. */
  function CancelTimed(h: int -> nat, c: Contents, id: int, len: int, offset: int): Contents
    requires Ready(h, c, id, len, offset)
  {
    if FindEntry(c.timeline, len, offset) == |c.timeline| then c else
      var x := Cancelled(c.timeline, len, offset);
      WithoutTimed(h, c, x, Cancel(c.timeline, len, offset)).(counter := c.counter[h(id) := c.counter[h(id)] - 1])
  }

  // ---------------------------------------------------------------------------------------------
  // What is kept
  // ---------------------------------------------------------------------------------------------

  /** The request taken out belongs to the file of its entry. */
  lemma CancelledIsTimed(h: int -> nat, c: Contents, len: int, offset: int)
    requires Shape(h, c) && FindEntry(c.timeline, len, offset) < |c.timeline|
    ensures var x := Cancelled(c.timeline, len, offset); Matches(x, len, offset) && Known(h, c, x.file)
  {
    var e := c.timeline[FindEntry(c.timeline, len, offset)];
    assert TimedShape(h, c, e);
    assert Cancelled(c.timeline, len, offset) in e.members;
  }

  lemma IsReady(h: int -> nat, c: Contents, id: int, len: int, offset: int)
    requires Inv(h, c) && forall f :: h(f) < LINES
    ensures Ready(h, c, id, len, offset)
  {
    if FindEntry(c.timeline, len, offset) < |c.timeline| {
      CancelledIsTimed(h, c, len, offset);
      R.KnownIffHasFile(h, c, Cancelled(c.timeline, len, offset).file);
    }
  }

  lemma ShrunkIsTimed(h: int -> nat, c: Contents, e: Entry, j: nat)
    requires TimedShape(h, c, e) && e.Size() > 1 && j < e.Size()
    ensures TimedShape(h, c, Recomputed(Without(e.members, j)))
  {
    var rest := Without(e.members, j);
    RecomputedIsHull(rest);
    HullIsSimpleOk(Recomputed(rest));
    WithoutIsWithin(e.members, j);
    assert rest[0] in rest;
  }

  lemma CancelKeepsTimed(h: int -> nat, c: Contents, len: int, offset: int)
    requires Shape(h, c)
    ensures forall e :: e in Cancel(c.timeline, len, offset) ==> TimedShape(h, c, e)
  {
    var t := c.timeline;
    var k := FindEntry(t, len, offset);
    if k < |t| && t[k].Size() != 1 {
      assert TimedShape(h, c, t[k]);
      ShrunkIsTimed(h, c, t[k], FirstMatch(t[k].members, len, offset));
    }
  }

  lemma TimedCancelIsSound(h: int -> nat, c: Contents, j: nat, len: int, offset: int)
    requires Shape(h, c) && FindEntry(c.timeline, len, offset) < |c.timeline|
    requires var x := Cancelled(c.timeline, len, offset);
             h(x.file) < LINES && j < |c.table[h(x.file)]| && c.table[h(x.file)][j].id == x.file
    ensures var x := Cancelled(c.timeline, len, offset);
            var q := c.table[h(x.file)][j].Queue(x.kind);
            R.SoundChange(h, c, h(x.file), j, x.kind, q.list, q.dispatch, Cancel(c.timeline, len, offset), [], [x])
  {
    var x := Cancelled(c.timeline, len, offset);
    R.QueueHasShape(h, c, h(x.file), j, x.kind);
    CancelKeepsTimed(h, c, len, offset);
    assert Balanced(c, h(x.file), j, x.kind, c.table[h(x.file)][j].Queue(x.kind).list, Cancel(c.timeline, len, offset),
                    [], [x]) by {
      CancelTakesOne(c.timeline, len, offset);
    }
  }

  /** Were the line of the request itself counted down, all counters would stay right. */
  lemma WithoutTimedKeepsInv(h: int -> nat, c: Contents, len: int, offset: int)
    requires Inv(h, c) && FindEntry(c.timeline, len, offset) < |c.timeline|
    requires R.HasQueue(h, c, Cancelled(c.timeline, len, offset).file)
    ensures var x := Cancelled(c.timeline, len, offset);
            var d := WithoutTimed(h, c, x, Cancel(c.timeline, len, offset));
            Inv(h, d) && R.Held(c) == R.Held(d) + multiset{x}
  {
    var x, t := Cancelled(c.timeline, len, offset), Cancel(c.timeline, len, offset);
    var i, j := h(x.file), R.Position(c.table[h(x.file)], x.file);
    var q := c.table[i][j].Queue(x.kind);
    TimedCancelIsSound(h, c, j, len, offset);
    LengthOfOne(x);
    R.DepartureKeepsInv(h, c, i, j, x.kind, q.list, q.dispatch, t, [], [x]);
    R.DepartureHeld(c, i, j, x.kind, q.list, q.dispatch, t, [], [x]);
    R.DropCommon(R.Held(WithoutTimed(h, c, x, t)) + multiset{x}, R.Held(c), multiset(q.dispatch));
  }

  lemma LineCounted(h: int -> nat, c: Contents, good: Contents, d: Contents, i: nat, k: nat)
    requires Inv(h, good) && |c.counter| == LINES && i < LINES && k < LINES
    requires good.counter == c.counter[i := c.counter[i] - 1]
    requires d == good.(counter := c.counter[k := c.counter[k] - 1])
    ensures (Inv(h, d) <==> i == k) && R.Held(d) == R.Held(good)
  {
    assert Pending(d) == Pending(good) && InFlight(d) == InFlight(good);
    if i != k {
      assert good.counter[k] == Sum(Pending(good), OnLine(h, k)) && d.counter[k] == good.counter[k] - 1;
    } else {
      assert d == good;
    }
  }

  /** `x` is found in the timeline of `c`; `d` is what the cancellation leaves, `good` what it should leave. */
  ghost predicate Outcome(h: int -> nat, c: Contents, id: int, len: int, offset: int, x: Request, d: Contents,
                          good: Contents)
  {
    && Ready(h, c, id, len, offset) && FindEntry(c.timeline, len, offset) < |c.timeline|
    && x == Cancelled(c.timeline, len, offset) && d == CancelTimed(h, c, id, len, offset)
    && good == WithoutTimed(h, c, x, Cancel(c.timeline, len, offset))
  }

  /** Only the counters of lines tell the two apart. */
  lemma OnlyLinesDiffer(h: int -> nat, c: Contents, id: int, len: int, offset: int, x: Request, d: Contents,
                        good: Contents)
    requires Outcome(h, c, id, len, offset, x, d, good)
    ensures |c.counter| == LINES && h(x.file) < LINES && h(id) < LINES
    ensures good.counter == c.counter[h(x.file) := c.counter[h(x.file)] - 1]
    ensures d == good.(counter := c.counter[h(id) := c.counter[h(id)] - 1])
  {
  }

  /** Were the line of the request itself counted down, all counters would be right. */
  lemma GoodOutcome(h: int -> nat, c: Contents, id: int, len: int, offset: int, x: Request, d: Contents, good: Contents)
    requires Outcome(h, c, id, len, offset, x, d, good) && Inv(h, c)
    ensures Matches(x, len, offset) && Inv(h, good) && R.Held(c) == R.Held(good) + multiset{x}
  {
    CancelledIsTimed(h, c, len, offset);
    WithoutTimedKeepsInv(h, c, len, offset);
  }

  lemma LinesDecide(h: int -> nat, c: Contents, id: int, len: int, offset: int, x: Request, d: Contents, good: Contents)
    requires Outcome(h, c, id, len, offset, x, d, good) && Inv(h, good)
    ensures (Inv(h, d) <==> h(x.file) == h(id)) && R.Held(d) == R.Held(good) && d == good.(counter := d.counter)
  {
    OnlyLinesDiffer(h, c, id, len, offset, x, d, good);
    LineCounted(h, c, good, d, h(x.file), h(id));
  }

  /** A cancellation in the timeline takes out a request of this length and offset, of whatever file and kind. */
  lemma TimedCancelTakesOne(h: int -> nat, c: Contents, id: int, len: int, offset: int, x: Request, d: Contents,
                            good: Contents)
    requires Outcome(h, c, id, len, offset, x, d, good) && Inv(h, c)
    ensures Matches(x, len, offset) && R.Held(c) == R.Held(d) + multiset{x} && d == good.(counter := d.counter)
  {
    GoodOutcome(h, c, id, len, offset, x, d, good);
    LinesDecide(h, c, id, len, offset, x, d, good);
  }

  /**
   * The counters stay right if and only if the file of that request is on the line of the file named
   * by the caller. The counters of lines are the only ones that can go wrong.
   */
  lemma TimedCancelKeepsInvIff(h: int -> nat, c: Contents, id: int, len: int, offset: int, x: Request, d: Contents,
                               good: Contents)
    requires Outcome(h, c, id, len, offset, x, d, good) && Inv(h, c)
    ensures Inv(h, d) <==> h(x.file) == h(id)
  {
    GoodOutcome(h, c, id, len, offset, x, d, good);
    LinesDecide(h, c, id, len, offset, x, d, good);
  }

  // ---------------------------------------------------------------------------------------------
  // Two files
  // ---------------------------------------------------------------------------------------------

  lemma TimedAddition(h: int -> nat, c: Contents, r: Request)
    requires Inv(h, c) && h(r.file) < LINES
    ensures var d := R.AddRequest(h, c, Mode(false, 1), r);
            Inv(h, d) && R.Held(d) == R.Held(c) + multiset{r} && d.timeline == c.timeline + [Lone(r)]
  {
    R.AddKeepsInv(h, c, Mode(false, 1), r);
    assert TL.AbsorbingIndex(c.timeline, r, 1) == |c.timeline|;
  }

  lemma RunWithAddition(h: int -> nat, mode: Mode, evs: seq<R.Event>, r: Request)
    requires h(r.file) < LINES && R.Run(h, mode, evs).mode == Mode(false, 1)
    ensures var c, t := R.Run(h, mode, evs).contents, R.Run(h, mode, evs + [R.Added(r)]);
            && t.mode == Mode(false, 1) && R.Held(t.contents) == R.Held(c) + multiset{r}
            && t.contents.timeline == c.timeline + [Lone(r)]
  {
    assert (evs + [R.Added(r)])[..|evs|] == evs;
    TimedAddition(h, R.Run(h, mode, evs).contents, r);
  }

  lemma FirstOfTwo(a: Request, b: Request)
    requires Matches(a, b.len, b.offset)
    ensures var t := [Lone(a)] + [Lone(b)]; FindEntry(t, b.len, b.offset) == 0 && Cancelled(t, b.len, b.offset) == a
  {
  }

  lemma OtherFileIsTaken(h: int -> nat, c: Contents, a: Request, b: Request, held: multiset<Request>, d: Contents)
    requires Inv(h, c) && c.timeline == [Lone(a)] + [Lone(b)] && R.Held(c) == held + multiset{a} + multiset{b}
    requires Matches(a, b.len, b.offset) && Ready(h, c, b.file, b.len, b.offset)
    requires d == CancelTimed(h, c, b.file, b.len, b.offset)
    ensures R.Held(d) == held + multiset{b} && (Inv(h, d) <==> h(a.file) == h(b.file))
  {
    var good := FirstIsOutcome(h, c, a, b, d);
    TimedCancelTakesOne(h, c, b.file, b.len, b.offset, a, d, good);
    TimedCancelKeepsInvIff(h, c, b.file, b.len, b.offset, a, d, good);
    SameRest(R.Held(c), held + multiset{b}, R.Held(d), a);
  }

  lemma FirstIsOutcome(h: int -> nat, c: Contents, a: Request, b: Request, d: Contents) returns (good: Contents)
    requires c.timeline == [Lone(a)] + [Lone(b)] && Matches(a, b.len, b.offset)
    requires Ready(h, c, b.file, b.len, b.offset) && d == CancelTimed(h, c, b.file, b.len, b.offset)
    ensures Outcome(h, c, b.file, b.len, b.offset, a, d, good)
  {
    FirstOfTwo(a, b);
    good := WithoutTimed(h, c, a, Cancel(c.timeline, b.len, b.offset));
  }

  lemma RunWithTwo(h: int -> nat, mode: Mode, evs: seq<R.Event>, a: Request, b: Request)
    requires h(a.file) < LINES && h(b.file) < LINES
    requires R.Run(h, mode, evs).mode == Mode(false, 1) && |R.Run(h, mode, evs).contents.timeline| == 0
    ensures var c, d := R.Run(h, mode, evs).contents, R.Run(h, mode, evs + [R.Added(a)] + [R.Added(b)]).contents;
            d.timeline == [Lone(a)] + [Lone(b)] && R.Held(d) == R.Held(c) + multiset{a} + multiset{b}
  {
    RunWithAddition(h, mode, evs, a);
    var more := evs + [R.Added(a)];
    RunWithAddition(h, mode, more, b);
    AfterNothing(R.Run(h, mode, evs).contents.timeline, Lone(a));
  }

  lemma AfterNothing(t: seq<Entry>, e: Entry)
    requires |t| == 0
    ensures t + [e] == [e]
  {
  }

  /**
   * After any run that leaves nothing in the timeline, two requests of the same length and offset are
   * added, of two files: cancelling the second takes out the first, and leaves wrong counters if the
   * files are on different lines.
   */
  lemma OtherFileIsCancelled(h: int -> nat, mode: Mode, evs: seq<R.Event>, a: Request, b: Request)
    requires (forall f :: h(f) < LINES) && Matches(a, b.len, b.offset) && a.file != b.file
    requires R.Run(h, mode, evs).mode == Mode(false, 1) && |R.Run(h, mode, evs).contents.timeline| == 0
    ensures var c := R.Run(h, mode, evs + [R.Added(a)] + [R.Added(b)]).contents;
            && Ready(h, c, b.file, b.len, b.offset)
            && R.Held(CancelTimed(h, c, b.file, b.len, b.offset)) == R.Held(R.Run(h, mode, evs).contents) + multiset{b}
            && (Inv(h, CancelTimed(h, c, b.file, b.len, b.offset)) <==> h(a.file) == h(b.file))
  {
    RunWithTwo(h, mode, evs, a, b);
    var held, c := R.Held(R.Run(h, mode, evs).contents), R.Run(h, mode, evs + [R.Added(a)] + [R.Added(b)]).contents;
    IsReady(h, c, b.file, b.len, b.offset);
    OtherFileIsTaken(h, c, a, b, held, CancelTimed(h, c, b.file, b.len, b.offset));
  }
}
