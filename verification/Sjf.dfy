/**
 * Shortest job first: the search for the shortest queue may stop as soon as it has seen as many
 * files with requests as the file counter says there are.
 */
module Sjf {
  import opened Requests
  import opened Sequences
  import opened Lifecycle

  const LONG_MAX := 0x7FFF_FFFF_FFFF_FFFF

  datatype Choice = NoQueue | Chosen(line: nat, file: nat, kind: Kind)

  predicate AllPositive(rs: seq<Request>)
  {
    forall r :: r in rs ==> r.len > 0
  }

  /** All requests are in the hashtable and every one has a positive length. */
  ghost predicate Searchable(h: int -> nat, c: Contents)
  {
    Inv(h, c) && c.timeline == [] && AllPositive(Pending(c))
  }

  // ---------------------------------------------------------------------------------------------
  // What the counters say about single files
  // ---------------------------------------------------------------------------------------------

  /** A pending request of file `f` and kind `k` is in that very queue. */
  lemma PendingIsInItsQueue(h: int -> nat, c: Contents, i: nat, j: nat, r: Request)
    requires Shape(h, c) && c.timeline == [] && i < LINES && j < |c.table[i]|
    requires r in Pending(c) && r.file == c.table[i][j].id
    ensures r in Members(c.table[i][j].Queue(r.kind).list)
  {
    InFlatMap(c.table, r, OF_LINE);
    var x :| 0 <= x < |c.table| && r in OF_LINE(c.table[x]);
    InFlatMap(c.table[x], r, OF_FILE);
    var y :| 0 <= y < |c.table[x]| && r in OF_FILE(c.table[x][y]);
    var f := c.table[x][y];
    assert LineShape(h, c.table[x], x) && FileShape(f);
    FileHoldsOwn(f, r);
    FilesDiffer(h, c, i, j, x, y);
  }

  lemma QueuedIsPending(c: Contents, i: nat, j: nat, k: Kind, r: Request)
    requires i < |c.table| && j < |c.table[i]| && r in Members(c.table[i][j].Queue(k).list)
    ensures r in Pending(c)
  {
    assert r in OF_FILE(c.table[i][j]);
    InFlatMap(c.table[i], r, OF_FILE);
    assert r in OF_LINE(c.table[i]);
    InFlatMap(c.table, r, OF_LINE);
  }

  lemma FirstMemberOf(h: int -> nat, c: Contents, i: nat, j: nat, k: Kind) returns (r: Request)
    requires Shape(h, c) && i < LINES && j < |c.table[i]| && c.table[i][j].Queue(k).list != []
    ensures r in Pending(c) && Belongs(r, c.table[i][j].id, k)
  {
    var q := c.table[i][j].Queue(k);
    assert LineShape(h, c.table[i], i) && FileShape(c.table[i][j]);
    assert q.list[0] in q.list;
    r := q.list[0].members[0];
    assert r in q.list[0].members;
    InMembers(q.list, r);
    QueuedIsPending(c, i, j, k, r);
  }

  /** The recorded size of a queue tells whether it holds requests. */
  lemma SizeTellsQueue(h: int -> nat, c: Contents, i: nat, j: nat, k: Kind)
    requires Searchable(h, c) && i < LINES && j < |c.table[i]|
    ensures c.table[i][j].Queue(k).size >= 0
    ensures c.table[i][j].Queue(k).size > 0 <==> c.table[i][j].Queue(k).list != []
  {
    var f := c.table[i][j];
    assert LineCounts(c.table[i], Pending(c)) && FileCounts(f, Pending(c));
    SumNonNegative(Pending(c), BytesOf(f.id, k));
    if f.Queue(k).list != [] {
      var r := FirstMemberOf(h, c, i, j, k);
      assert BytesOf(f.id, k)(r) == r.len;
    } else {
      forall r | r in Pending(c) ensures BytesOf(f.id, k)(r) == 0 {
        if r.file == f.id { PendingIsInItsQueue(h, c, i, j, r); }
      }
      SumConstant(Pending(c), BytesOf(f.id, k), 0);
    }
  }

  /** The recorded number of requests of a file tells whether one of its queues holds requests. */
  lemma ReqnbTellsFile(h: int -> nat, c: Contents, i: nat, j: nat)
    requires Searchable(h, c) && i < LINES && j < |c.table[i]|
    ensures ACTIVE(c.table[i][j]) == 0 <==> c.table[i][j].read.list == [] && c.table[i][j].write.list == []
  {
    var f := c.table[i][j];
    assert LineCounts(c.table[i], Pending(c)) && FileCounts(f, Pending(c));
    SumNonNegative(Pending(c), OfFile(f.id));
    if f.read.list != [] || f.write.list != [] {
      var r := FirstMemberOf(h, c, i, j, if f.read.list != [] then Read else Write);
      assert OfFile(f.id)(r) == 1;
    } else {
      forall r | r in Pending(c) ensures OfFile(f.id)(r) == 0 {
        if r.file == f.id { PendingIsInItsQueue(h, c, i, j, r); }
      }
      SumConstant(Pending(c), OfFile(f.id), 0);
    }
  }

  /** What the search relies on for one file: its counters tell which of its queues hold requests. */
  predicate FileSane(f: FileRec)
  {
    && (f.read.size > 0 <==> f.read.list != []) && (f.write.size > 0 <==> f.write.list != [])
    && (ACTIVE(f) == 0 <==> f.read.list == [] && f.write.list == [])
  }

  predicate LineSane(line: seq<FileRec>)
  {
    forall j :: 0 <= j < |line| ==> FileSane(line[j])
  }

  /** The counters of all files can be relied on, and the number of files with requests is right. */
  predicate Sane(c: Contents)
  {
    && |c.table| == LINES && c.filenb == Sum(c.table, ACTIVE_IN_LINE)
    && forall i :: 0 <= i < LINES ==> LineSane(c.table[i])
  }

  /** The invariant of the library provides what the search relies on. */
  lemma SearchableIsSane(h: int -> nat, c: Contents)
    requires Searchable(h, c)
    ensures Sane(c)
  {
    forall i | 0 <= i < LINES ensures LineSane(c.table[i]) {
      forall j | 0 <= j < |c.table[i]| ensures FileSane(c.table[i][j]) {
        ReqnbTellsFile(h, c, i, j);
        SizeTellsQueue(h, c, i, j, Read);
        SizeTellsQueue(h, c, i, j, Write);
      }
    }
  }

  // ---------------------------------------------------------------------------------------------
  // The search
  // ---------------------------------------------------------------------------------------------

  /** `SJF_check_queue` */
  predicate CheckQueue(q: QueueRec, minSize: int)
  {
    if q.size <= 0 then false else q.size < minSize
  }

  /**
   * The search can choose a queue if and only if one of its requests has a positive length: a queue
   * of requests of length zero is taken for an empty one.
   */
  lemma CanBeChosenIff(h: int -> nat, c: Contents, i: nat, j: nat, k: Kind)
    requires Inv(h, c) && i < LINES && j < |c.table[i]| && forall r :: r in Pending(c) ==> r.len >= 0
    ensures (exists minSize :: CheckQueue(c.table[i][j].Queue(k), minSize)) <==>
              exists r :: r in Pending(c) && Belongs(r, c.table[i][j].id, k) && r.len > 0
  {
    var f := c.table[i][j];
    assert LineCounts(c.table[i], Pending(c)) && FileCounts(f, Pending(c));
    SumNonNegative(Pending(c), BytesOf(f.id, k));
    SumZero(Pending(c), BytesOf(f.id, k));
    if f.Queue(k).size > 0 {
      assert CheckQueue(f.Queue(k), f.Queue(k).size + 1);
      var r :| r in Pending(c) && BytesOf(f.id, k)(r) != 0;
      assert Belongs(r, f.id, k);
    }
  }

  /** No queue of file `f` has requests and is shorter than `minSize`. */
  predicate NotShorter(f: FileRec, minSize: int)
  {
    !CheckQueue(f.read, minSize) && !CheckQueue(f.write, minSize)
  }

  predicate LineDone(line: seq<FileRec>, minSize: int)
  {
    forall j :: 0 <= j < |line| ==> NotShorter(line[j], minSize)
  }

  /** The choice made so far belongs to `minSize`: nothing yet, or a queue of that size. */
  predicate ChoiceOk(c: Contents, choice: Choice, minSize: int)
  {
    match choice
    case NoQueue => minSize == LONG_MAX
    case Chosen(x, y, k) =>
      x < |c.table| && y < |c.table[x]| && 0 < minSize < LONG_MAX && c.table[x][y].Queue(k).size == minSize
  }

  lemma SumSnoc<X>(s: seq<X>, n: nat, f: X -> int)
    requires n < |s|
    ensures Sum(s[..n + 1], f) == Sum(s[..n], f) + f(s[n])
  {
    SumConcat(s[..n], [s[n]], f);
    assert s[..n + 1] == s[..n] + [s[n]] && [s[n]][1..] == [];
  }

  lemma InactiveLineDone(line: seq<FileRec>, minSize: int)
    requires LineSane(line) && Sum(line, ACTIVE) == 0
    ensures LineDone(line, minSize)
  {
    SumZero(line, ACTIVE);
    forall j | 0 <= j < |line| ensures NotShorter(line[j], minSize) {
      assert line[j] in line;
    }
  }

  /** The files before line `i` account for the whole counter, so that no file beyond is active. */
  lemma NothingBeyond(c: Contents, i: nat, minSize: int)
    requires Sane(c) && i <= LINES && Sum(c.table[..i], ACTIVE_IN_LINE) >= c.filenb
    ensures forall x :: i <= x < LINES ==> LineDone(c.table[x], minSize)
  {
    var rest := c.table[i..];
    assert c.table[..i] + rest == c.table;
    SumConcat(c.table[..i], rest, ACTIVE_IN_LINE);
    forall line | line in rest ensures ACTIVE_IN_LINE(line) >= 0 { SumNonNegative(line, ACTIVE); }
    SumNonNegative(rest, ACTIVE_IN_LINE);
    SumZero(rest, ACTIVE_IN_LINE);
    forall x | i <= x < LINES ensures LineDone(c.table[x], minSize) {
      assert c.table[x] == rest[x - i] && rest[x - i] in rest;
      InactiveLineDone(c.table[x], minSize);
    }
  }

  /** Whether the search comes to queue (x, y, k) before the queue that it chose. */
  predicate ComesBefore(x: nat, y: nat, k: Kind, choice: Choice)
  {
    && choice.Chosen? && x <= choice.line && (x == choice.line ==> y <= choice.file)
    && (x == choice.line && y == choice.file ==> k.Read? && choice.kind.Write?)
  }

  /** Every queue with requests before the chosen one is longer. */
  ghost predicate EarlierLonger(c: Contents, choice: Choice, size: int)
  {
    forall x, y, k ::
      0 <= x < |c.table| && 0 <= y < |c.table[x]| && ComesBefore(x, y, k, choice) && c.table[x][y].Queue(k).size > 0 ==>
        c.table[x][y].Queue(k).size > size
  }

  /** The search has been past the lines before `i` and the files before `j`. */
  ghost predicate PassedDone(c: Contents, i: nat, j: nat, minSize: int)
    requires i < |c.table| && j <= |c.table[i]|
  {
    && (forall x :: 0 <= x < i ==> LineDone(c.table[x], minSize))
    && (forall y :: 0 <= y < j ==> NotShorter(c.table[i][y], minSize))
  }

  lemma ReadIsFirstShortest(c: Contents, i: nat, j: nat, minSize: int, size: int)
    requires i < |c.table| && j < |c.table[i]| && PassedDone(c, i, j, minSize) && size < minSize
    ensures EarlierLonger(c, Chosen(i, j, Read), size)
  {
    forall x, y, k | 0 <= x < |c.table| && 0 <= y < |c.table[x]| && ComesBefore(x, y, k, Chosen(i, j, Read))
      && c.table[x][y].Queue(k).size > 0 ensures c.table[x][y].Queue(k).size > size {
      assert x < i ==> LineDone(c.table[x], minSize);
      assert NotShorter(c.table[x][y], minSize);
    }
  }

  lemma WriteIsFirstShortest(c: Contents, i: nat, j: nat, minSize: int, size: int)
    requires i < |c.table| && j < |c.table[i]| && PassedDone(c, i, j, minSize) && size < minSize
    requires !CheckQueue(c.table[i][j].read, minSize)
    ensures EarlierLonger(c, Chosen(i, j, Write), size)
  {
    forall x, y, k | 0 <= x < |c.table| && 0 <= y < |c.table[x]| && ComesBefore(x, y, k, Chosen(i, j, Write))
      && c.table[x][y].Queue(k).size > 0 ensures c.table[x][y].Queue(k).size > size {
      assert x < i ==> LineDone(c.table[x], minSize);
      assert !(x == i && y == j) ==> NotShorter(c.table[x][y], minSize);
    }
  }

  lemma StillPassed(c: Contents, i: nat, j: nat, minSize: int, less: int)
    requires i < |c.table| && j <= |c.table[i]| && PassedDone(c, i, j, minSize) && less <= minSize
    ensures PassedDone(c, i, j, less)
  {
    forall x | 0 <= x < i ensures LineDone(c.table[x], less) {
      assert LineDone(c.table[x], minSize);
    }
  }

  /** Compares the two queues of a file with the shortest one so far. */
  method CheckFile(c: Contents, i: nat, j: nat, choice0: Choice, minSize0: int) returns (choice: Choice, minSize: int)
    requires i < |c.table| && j < |c.table[i]| && ChoiceOk(c, choice0, minSize0)
    requires PassedDone(c, i, j, minSize0) && EarlierLonger(c, choice0, minSize0)
    ensures ChoiceOk(c, choice, minSize) && minSize <= minSize0
    ensures PassedDone(c, i, j + 1, minSize) && EarlierLonger(c, choice, minSize)
  {
    choice, minSize := choice0, minSize0;
    var f := c.table[i][j];
    if CheckQueue(f.read, minSize) {
      ReadIsFirstShortest(c, i, j, minSize, f.read.size);
      StillPassed(c, i, j, minSize, f.read.size);
      minSize := f.read.size;
      choice := Chosen(i, j, Read);
    }
    if CheckQueue(f.write, minSize) {
      WriteIsFirstShortest(c, i, j, minSize, f.write.size);
      StillPassed(c, i, j, minSize, f.write.size);
      minSize := f.write.size;
      choice := Chosen(i, j, Write);
    }
  }

  /** The loop over one line: files that have requests are counted and compared. */
  method SearchLine(c: Contents, i: nat, choice0: Choice, minSize0: int)
    returns (choice: Choice, minSize: int, evaluated: int)
    requires i < |c.table| && LineSane(c.table[i]) && ChoiceOk(c, choice0, minSize0)
    requires (forall x :: 0 <= x < i ==> LineDone(c.table[x], minSize0)) && EarlierLonger(c, choice0, minSize0)
    ensures ChoiceOk(c, choice, minSize) && minSize <= minSize0 && EarlierLonger(c, choice, minSize)
    ensures forall x :: 0 <= x <= i ==> LineDone(c.table[x], minSize)
    ensures evaluated == Sum(c.table[i], ACTIVE)
  {
    var line := c.table[i];
    choice, minSize, evaluated := choice0, minSize0, 0;
    var j := 0;
    while j < |line|
      invariant j <= |line| && ChoiceOk(c, choice, minSize) && minSize <= minSize0
      invariant PassedDone(c, i, j, minSize) && EarlierLonger(c, choice, minSize)
      invariant evaluated == Sum(line[..j], ACTIVE)
    {
      assert FileSane(line[j]);
      SumSnoc(line, j, ACTIVE);
      if line[j].write.list != [] || line[j].read.list != [] {
        assert line[j].read.size > 0 || line[j].write.size > 0;
        evaluated := evaluated + 1;
        choice, minSize := CheckFile(c, i, j, choice, minSize);
      }
      j := j + 1;
    }
    assert line[..j] == line && LineDone(line, minSize);
  }

  /** No queue with requests anywhere in the hashtable is shorter than `size`. */
  ghost predicate Shortest(c: Contents, size: int)
  {
    forall x, y, k :: 0 <= x < |c.table| && 0 <= y < |c.table[x]| && c.table[x][y].Queue(k).list != [] ==>
      size <= c.table[x][y].Queue(k).size
  }

  lemma AllLinesDone(c: Contents, minSize: int)
    requires Sane(c) && forall x :: 0 <= x < LINES ==> LineDone(c.table[x], minSize)
    ensures Shortest(c, minSize)
  {
    forall x, y, k | 0 <= x < LINES && 0 <= y < |c.table[x]| && c.table[x][y].Queue(k).list != []
      ensures minSize <= c.table[x][y].Queue(k).size
    {
      assert LineDone(c.table[x], minSize) && LineSane(c.table[x]);
      assert NotShorter(c.table[x][y], minSize) && FileSane(c.table[x][y]);
    }
  }

  lemma ChosenHasRequests(c: Contents, choice: Choice, minSize: int)
    requires Sane(c) && ChoiceOk(c, choice, minSize) && choice.Chosen?
    ensures c.table[choice.line][choice.file].Queue(choice.kind).list != []
  {
    assert LineSane(c.table[choice.line]) && FileSane(c.table[choice.line][choice.file]);
  }

  /**
   * Although the search stops early, the queue returned is a shortest one with requests in the
   * whole hashtable, and the first of these in the order of the search; if none is returned then no
   * queue has requests (shorter than LONG_MAX).
   */
  method GetShortestJob(c: Contents) returns (choice: Choice)
    requires Sane(c)
    ensures choice.Chosen? ==>
              && choice.line < LINES && choice.file < |c.table[choice.line]|
              && c.table[choice.line][choice.file].Queue(choice.kind).list != []
              && Shortest(c, c.table[choice.line][choice.file].Queue(choice.kind).size)
              && EarlierLonger(c, choice, c.table[choice.line][choice.file].Queue(choice.kind).size)
    ensures choice.NoQueue? <==> Shortest(c, LONG_MAX)
  {
    choice := NoQueue;
    var minSize, evaluated, i := LONG_MAX, 0, 0;
    while i < LINES
      invariant i <= LINES && ChoiceOk(c, choice, minSize) && evaluated == Sum(c.table[..i], ACTIVE_IN_LINE)
      invariant (forall x :: 0 <= x < i ==> LineDone(c.table[x], minSize)) && EarlierLonger(c, choice, minSize)
    {
      var n;
      choice, minSize, n := SearchLine(c, i, choice, minSize);
      SumSnoc(c.table, i, ACTIVE_IN_LINE);
      evaluated := evaluated + n;
      if evaluated >= c.filenb {
        NothingBeyond(c, i + 1, minSize);
        break;
      }
      i := i + 1;
    }
    AllLinesDone(c, minSize);
    if choice.Chosen? {
      ChosenHasRequests(c, choice, minSize);
    }
  }
}
