/**
 * The operations of the library, statement by statement on the tables and counters of one object.
 * Every operation is proved to compute the corresponding function of `LifecycleRuns` on the contents,
 * and so keeps all counters correct. The entries of a queue are values here, changed by the functions
 * that `RequestQueue` computes in place.
 */
module Library {
  import opened Requests
  import opened Sequences
  import opened Aggregation
  import opened Cancellation
  import opened Lifecycle
  import R = LifecycleRuns
  import opened Serving
  import opened Sjf
  import opened TimedCancellation
  import TL = Timeline

  class Agios {
    const hash: int -> nat
    var table: seq<seq<FileRec>>
    var timeline: seq<Entry>
    const counter: array<int>
    var reqnb: int
    var filenb: int
    var mode: Mode

    ghost function Snapshot(): Contents
      reads this, counter
    {
      Contents(table, timeline, counter[..], reqnb, filenb)
    }

    ghost predicate Valid()
      reads this, counter
    {
      (forall id :: hash(id) < LINES) && Inv(hash, Snapshot())
    }

    lemma EmptyIsValid()
      requires Snapshot() == R.Empty(LINES) && forall id :: hash(id) < LINES
      ensures Valid()
    {
      R.EmptyInv(hash);
    }

    /** `allocate_data_structures`, with the scheduling algorithm selected. */
    constructor (hash: int -> nat, mode: Mode)
      requires forall id :: hash(id) < LINES
      ensures Valid() && Snapshot() == R.Empty(LINES) && this.mode == mode && this.hash == hash && fresh(counter)
    {
      this.hash, this.mode := hash, mode;
      table, timeline := seq(LINES, _ => []), [];
      counter := new int[LINES](_ => 0);
      reqnb, filenb := 0, 0;
      new;
      assert counter[..] == R.Empty(LINES).counter;
      assert table == R.Empty(LINES).table;
      EmptyIsValid();
    }

    /** `find_req_file`: finds or creates the file, and counts it if nothing of it is queued yet. */
    method FindReqFile(i: nat, id: int) returns (j: nat)
      requires i < |table|
      modifies this`table, this`filenb
      ensures table == R.EnsureFile(old(Snapshot()), i, id).table && j == R.Position(table[i], id)
      ensures j < |table[i]| && table[i][j].id == id
      ensures filenb == old(filenb) + (if table[i][j].reqnb == 0 then 1 else 0)
    {
      j := 0;
      while j < |table[i]| && table[i][j].id < id
        invariant j <= |table[i]| && forall x :: 0 <= x < j ==> table[i][x].id < id
      {
        j := j + 1;
      }
      assert j == R.Position(table[i], id);
      if !(j < |table[i]| && table[i][j].id == id) {
        ghost var line := table[i];
        table := table[i := table[i][..j] + [NewFile(id)] + table[i][j..]];
        assert table[i][j].id == id && forall x :: 0 <= x < j ==> table[i][x] == line[x];
      }
      if table[i][j].reqnb == 0 {
        filenb := filenb + 1;
      }
    }

    /** The counter of a line and the counter of all requests move together. */
    method Count(i: nat, n: int)
      requires i < counter.Length
      modifies this`reqnb, counter
      ensures reqnb == old(reqnb) + n && counter[..] == old(counter[..])[i := old(counter[i]) + n]
    {
      reqnb := reqnb + n;
      counter[i] := counter[i] + n;
    }

    /** The part of `agios_add_request` done once the file is found: queue or timeline, then counters. */
    method Enqueue(i: nat, j: nat, r: Request)
      requires i < |table| && j < |table[i]| && i < counter.Length
      modifies this`table, this`timeline, this`reqnb, counter
      ensures Snapshot() == EnqueueResult(old(Snapshot()), mode, i, j, r, filenb)
    {
      var f := table[i][j];
      var q := f.Queue(r.kind);
      if mode.needsHashtable {
        q := q.(list := Add(q.list, r, mode.cap));
      } else {
        timeline := TL.AddToTimeline(timeline, r, mode.cap);
      }
      q := q.(size := q.size + r.len);
      table := table[i := table[i][j := f.With(r.kind, q).(reqnb := f.reqnb + 1)]];
      Count(i, 1);
    }

    method FindAndEnqueue(i: nat, r: Request)
      requires i < |table| && i < counter.Length
      modifies this`table, this`timeline, this`reqnb, this`filenb, counter
      ensures Snapshot() == AddResult(old(Snapshot()), mode, i, r)
    {
      var j := FindReqFile(i, r.file);
      ghost var d, s := R.EnsureFile(old(Snapshot()), i, r.file), Snapshot();
      assert s == d.(filenb := s.filenb);
      Enqueue(i, j, r);
      OnlyFilenbDiffers(d, s, mode, i, j, r);
    }

    /** `agios_add_request` from the moment the lock is held. */
    method AddRequest(r: Request)
      requires Valid()
      modifies this`table, this`timeline, this`reqnb, this`filenb, counter
      ensures Valid() && Snapshot() == R.AddRequest(hash, old(Snapshot()), mode, r)
    {
      R.AddKeepsInv(hash, Snapshot(), mode, r);
      AddStored(hash, Snapshot(), mode, r);
      FindAndEnqueue(hash(r.file), r);
    }

    /** `put_this_request_in_dispatch` */
    method PutInDispatch(r: Request, i: nat, j: nat, k: Kind)
      requires i < |table| && j < |table[i]|
      modifies this`table
      ensures table == PutFile(old(table), i, j, Dispatching(old(table[i][j]), k, [r]))
    {
      var f := table[i][j];
      var q := f.Queue(k);
      q := q.(dispatch := q.dispatch + [r], size := q.size - r.len);
      table := table[i := table[i][j := f.With(k, q).(reqnb := f.reqnb - 1)]];
      DispatchingOne(f, k, r);
    }

    /** The loop of `process_requests_step1` over the members, one step behind its iterator. */
    method DispatchMembers(ms: seq<Request>, i: nat, j: nat, k: Kind) returns (ids: array<int>)
      requires i < |table| && j < |table[i]| && ms != []
      modifies this`table
      ensures fresh(ids) && ids[..] == UserIds(ms)
      ensures table == PutFile(old(table), i, j, Dispatching(old(table[i][j]), k, ms))
    {
      ids := new int[|ms|];
      var n := 0;
      var aux := ms[0];
      var next := 1;
      ghost var f := table[i][j];
      DispatchingNothing(f, k);
      PutSame(table, i, j);
      assert ms[..0] == [];
      while next < |ms|
        invariant n + 1 == next <= |ms| && aux == ms[n] && i < |table| && j < |table[i]|
        invariant ids[..n] == UserIds(ms[..n])
        invariant table == PutFile(old(table), i, j, Dispatching(f, k, ms[..n]))
      {
        PutTwice(old(table), i, j, Dispatching(f, k, ms[..n]), Dispatching(f, k, ms[..n + 1]));
        PutInDispatch(aux, i, j, k);
        ids[n] := aux.userId;
        DispatchingSnoc(f, k, ms, n);
        n := n + 1;
        aux := ms[next];
        next := next + 1;
      }
      PutTwice(old(table), i, j, Dispatching(f, k, ms[..n]), Dispatching(f, k, ms[..n + 1]));
      PutInDispatch(aux, i, j, k);
      ids[n] := aux.userId;
      DispatchingSnoc(f, k, ms, n);
      assert ms[..n + 1] == ms;
    }

    /** `process_requests_step1`: the members of an entry taken from its list go back to the user. */
    method Step1(e: Entry, i: nat, j: nat, k: Kind) returns (ids: array<int>)
      requires i < |table| && j < |table[i]| && i < counter.Length && e.members != []
      modifies this`table, this`reqnb, this`filenb, counter
      ensures fresh(ids) && ids[..] == UserIds(e.members)
      ensures Snapshot() == DispatchResult(old(Snapshot()), i, j, k, e.members)
    {
      ids := DispatchMembers(e.members, i, j, k);
      if table[i][j].reqnb == 0 {
        filenb := filenb - 1;
      }
      var count: int := e.Size();
      Count(i, -count);
    }

    /** Takes entry `n` out of a queue and sends it back to the user. */
    method DispatchFromQueue(i: nat, j: nat, k: Kind, n: nat) returns (ids: array<int>)
      requires Valid() && i < LINES && j < |table[i]| && n < |table[i][j].Queue(k).list|
      modifies this`table, this`reqnb, this`filenb, counter
      ensures Valid() && Snapshot() == R.DispatchFromQueue(old(Snapshot()), i, j, k, n)
      ensures R.Held(Snapshot()) == R.Held(old(Snapshot()))
      ensures fresh(ids) && ids[..] == UserIds(old(table[i][j].Queue(k).list[n].members))
    {
      R.DispatchKeepsInv(hash, Snapshot(), i, j, k, n);
      DispatchStored(hash, Snapshot(), i, j, k, n);
      ids := UnlinkAndDispatch(i, j, k, n);
    }

    method UnlinkAndDispatch(i: nat, j: nat, k: Kind, n: nat) returns (ids: array<int>)
      requires i < |table| && j < |table[i]| && i < counter.Length && n < |table[i][j].Queue(k).list|
      requires table[i][j].Queue(k).list[n].members != []
      modifies this`table, this`reqnb, this`filenb, counter
      ensures fresh(ids) && ids[..] == UserIds(old(table[i][j].Queue(k).list[n].members))
      ensures Snapshot() ==
              DispatchResult(Unlinked(old(Snapshot()), i, j, k, n), i, j, k, old(table[i][j].Queue(k).list[n].members))
    {
      var f := table[i][j];
      var e := f.Queue(k).list[n];
      table := table[i := table[i][j := f.With(k, f.Queue(k).(list := Without(f.Queue(k).list, n)))]];
      ids := Step1(e, i, j, k);
    }

    /** `timeline_oldest_req` followed by `process_requests_step1`. */
    method DispatchOldest() returns (ids: array<int>)
      requires Valid() && timeline != []
      modifies this`table, this`timeline, this`reqnb, this`filenb, counter
      ensures Valid() && R.OldestReady(hash, old(Snapshot())) && Snapshot() == R.DispatchOldest(hash, old(Snapshot()))
      ensures R.Held(Snapshot()) == R.Held(old(Snapshot()))
      ensures fresh(ids) && ids[..] == UserIds(old(timeline)[0].members)
    {
      R.OldestHasFile(hash, Snapshot());
      R.DispatchOldestKeepsInv(hash, Snapshot());
      OldestStored(hash, Snapshot());
      ids := UnlinkOldest(hash(timeline[0].members[0].file));
    }

    method UnlinkOldest(i: nat) returns (ids: array<int>)
      requires timeline != [] && timeline[0].members != [] && i < |table| && i < counter.Length
      requires R.HasFile(table[i], timeline[0].members[0].file)
      modifies this`table, this`timeline, this`reqnb, this`filenb, counter
      ensures fresh(ids) && ids[..] == UserIds(old(timeline)[0].members)
      ensures var c := old(Snapshot());
              var m := c.timeline[0].members[0];
              Snapshot() == DispatchResult(c.(timeline := c.timeline[1..]), i, R.Position(c.table[i], m.file), m.kind,
                                           c.timeline[0].members)
    {
      var e := timeline[0];
      timeline := timeline[1..];
      var j := R.Position(table[i], e.members[0].file);
      ids := Step1(e, i, j, e.members[0].kind);
    }

    /** The search for the file structure in `agios_release_request` and `agios_cancel_request`. */
    method FindKnownFile(i: nat, id: int) returns (found: bool, j: nat)
      requires i < |table| && StrictlyIncreasing(table[i], ID)
      ensures found <==> R.HasFile(table[i], id)
      ensures found ==> j == R.Position(table[i], id) && j < |table[i]|
    {
      found, j := false, 0;
      while j < |table[i]|
        invariant j <= |table[i]| && !found && forall x :: 0 <= x < j ==> table[i][x].id != id
      {
        if table[i][j].id == id {
          found := true;
          R.PositionOf(table[i], j);
          return;
        }
        j := j + 1;
      }
    }

    /** The search for a request in flight. */
    method FindDispatched(dispatch: seq<Request>, len: int, offset: int) returns (n: nat)
      ensures n == FirstMatch(dispatch, len, offset)
      ensures n < |dispatch| <==> exists r :: r in dispatch && Matches(r, len, offset)
    {
      n := 0;
      while n < |dispatch|
        invariant n <= |dispatch| && forall x :: 0 <= x < n ==> !Matches(dispatch[x], len, offset)
      {
        if dispatch[n].len == len && dispatch[n].offset == offset {
          break;
        }
        n := n + 1;
      }
      assert n < |dispatch| ==> dispatch[n] in dispatch;
    }

    /** `agios_release_request`, from the moment the lock is held. */
    method ReleaseRequest(id: int, k: Kind, len: int, offset: int) returns (ret: bool)
      requires Valid()
      modifies this`table
      ensures Valid() && Snapshot() == ReleaseResult(hash, old(Snapshot()), id, k, len, offset)
      ensures ret <==> exists r :: r in R.QueueOf(hash, old(Snapshot()), id, k).dispatch && Matches(r, len, offset)
    {
      var i := hash(id);
      assert LineShape(hash, table[i], i);
      var found, j := FindKnownFile(i, id);
      ret := false;
      if found {
        ret := ReleaseFound(i, j, k, len, offset);
      }
    }

    method ReleaseFound(i: nat, j: nat, k: Kind, len: int, offset: int) returns (ret: bool)
      requires Valid() && i < LINES && j < |table[i]|
      modifies this`table
      ensures Valid() && Snapshot() == R.Release(old(Snapshot()), i, j, k, len, offset)
      ensures ret <==> exists r :: r in old(table[i][j].Queue(k).dispatch) && Matches(r, len, offset)
    {
      var q := table[i][j].Queue(k);
      var n := FindDispatched(q.dispatch, len, offset);
      ret := n < |q.dispatch|;
      if ret {
        R.ReleaseKeepsInv(hash, Snapshot(), i, j, k, len, offset);
        Forget(i, j, k, n);
        assert Snapshot() == R.Release(old(Snapshot()), i, j, k, len, offset);
      }
    }

    /** `generic_cleanup`: the request leaves the list of requests in flight. */
    method Forget(i: nat, j: nat, k: Kind, n: nat)
      requires i < |table| && j < |table[i]| && n < |table[i][j].Queue(k).dispatch|
      modifies this`table
      ensures var f := old(table[i][j]);
              table == PutFile(old(table), i, j, f.With(k, f.Queue(k).(dispatch := Without(f.Queue(k).dispatch, n))))
    {
      var f := table[i][j];
      table := table[i := table[i][j := f.With(k, f.Queue(k).(dispatch := Without(f.Queue(k).dispatch, n)))]];
    }

    /**
     * `agios_cancel_request`, from the moment the lock is held. With the hashtable in use a match leaves
     * if it is in an entry of its own or inside the interval of its entry. With the timeline in use
     * the first match of any file leaves, and the counters may be wrong afterwards.
     */
    method CancelRequest(id: int, k: Kind, len: int, offset: int) returns (known: bool)
      requires Valid()
      modifies this`table, this`timeline, this`reqnb, this`filenb, counter
      ensures known <==> R.HasQueue(hash, old(Snapshot()), id)
      ensures mode.needsHashtable ==> Valid() && CancelledInQueue(hash, old(Snapshot()), Snapshot(), id, k, len, offset)
      ensures !mode.needsHashtable ==> CancelledInTimeline(hash, old(Snapshot()), Snapshot(), id, len, offset)
    {
      if mode.needsHashtable {
        known := CancelWithHashtable(id, k, len, offset);
      } else {
        known := CancelWithTimeline(id, len, offset);
      }
    }

    method CancelWithHashtable(id: int, k: Kind, len: int, offset: int) returns (known: bool)
      requires Valid()
      modifies this`table, this`reqnb, this`filenb, counter
      ensures Valid() && CancelledInQueue(hash, old(Snapshot()), Snapshot(), id, k, len, offset)
      ensures known <==> R.HasQueue(hash, old(Snapshot()), id)
    {
      assert LineShape(hash, table[hash(id)], hash(id));
      var j;
      known, j := FindKnownFile(hash(id), id);
      if known {
        CancelQueuedKnown(id, hash(id), j, k, len, offset);
      } else {
        NothingToCancel(hash, Snapshot(), id, k, len, offset);
      }
    }

    method CancelWithTimeline(id: int, len: int, offset: int) returns (known: bool)
      requires Valid()
      modifies this`table, this`timeline, this`reqnb, this`filenb, counter
      ensures CancelledInTimeline(hash, old(Snapshot()), Snapshot(), id, len, offset)
      ensures known <==> R.HasQueue(hash, old(Snapshot()), id)
    {
      assert LineShape(hash, table[hash(id)], hash(id));
      var j;
      known, j := FindKnownFile(hash(id), id);
      if known {
        CancelTimedKnown(id, len, offset);
      }
    }

    method CancelQueuedKnown(id: int, i: nat, j: nat, k: Kind, len: int, offset: int)
      requires Valid() && R.HasQueue(hash, Snapshot(), id) && i == hash(id) && j == R.Position(table[i], id)
      modifies this`table, this`reqnb, this`filenb, counter
      ensures Valid() && CancelledInQueue(hash, old(Snapshot()), Snapshot(), id, k, len, offset)
    {
      ghost var c := Snapshot();
      CancelKnown(i, j, k, len, offset);
      KnownIsCancelled(hash, c, Snapshot(), id, i, j, k, len, offset);
    }

    method CancelTimedKnown(id: int, len: int, offset: int)
      requires Valid() && R.HasQueue(hash, Snapshot(), id)
      modifies this`table, this`timeline, this`reqnb, this`filenb, counter
      ensures CancelledInTimeline(hash, old(Snapshot()), Snapshot(), id, len, offset)
    {
      TimedCancelEffect(hash, Snapshot(), id, len, offset);
      if FindEntry(timeline, len, offset) < |timeline| {
        CancelTimedFound(id, len, offset);
      }
    }

    /** The counters of the file of the request go down, and that of the line of the file named. */
    method CancelTimedFound(id: int, len: int, offset: int)
      requires Ready(hash, Snapshot(), id, len, offset) && FindEntry(timeline, len, offset) < |timeline|
      modifies this`table, this`timeline, this`reqnb, this`filenb, counter
      ensures Snapshot() == TimedStores(hash, old(Snapshot()), id, len, offset)
    {
      var x := Cancelled(timeline, len, offset);
      var i, j := hash(x.file), R.Position(table[hash(x.file)], x.file);
      var f := table[i][j];
      var q := f.Queue(x.kind);
      var g := f.With(x.kind, q.(size := q.size - x.len)).(reqnb := f.reqnb - 1);
      timeline := Cancel(timeline, len, offset);
      table := table[i := table[i][j := g]];
      if g.reqnb == 0 {
        filenb := filenb - 1;
      }
      Count(hash(id), -1);
    }

    method CancelKnown(i: nat, j: nat, k: Kind, len: int, offset: int)
      requires Valid() && i < LINES && j < |table[i]|
      modifies this`table, this`reqnb, this`filenb, counter
      ensures Valid() && Snapshot() == R.CancelQueued(old(Snapshot()), i, j, k, len, offset)
      ensures var c := old(Snapshot());
              if Cancellable(c.table[i][j].Queue(k).list, len, offset)
                then OneMatchLeft(c, Snapshot(), c.table[i][j].id, k, len, offset)
              else Snapshot() == c
    {
      ghost var c := Snapshot();
      CancelEffect(hash, c, i, j, k, len, offset);
      var q := table[i][j].Queue(k);
      if FindEntry(q.list, len, offset) < |q.list| {
        CancelFound(i, j, k, len, offset);
      }
    }

    method CancelFound(i: nat, j: nat, k: Kind, len: int, offset: int)
      requires i < |table| && j < |table[i]| && i < counter.Length
      requires FindEntry(table[i][j].Queue(k).list, len, offset) < |table[i][j].Queue(k).list|
      modifies this`table, this`reqnb, this`filenb, counter
      ensures Snapshot() == CancelStores(old(Snapshot()), i, j, k, len, offset)
    {
      var f := table[i][j];
      var q := f.Queue(k);
      var x := Cancelled(q.list, len, offset);
      var g := f.With(k, QueueRec(Cancel(q.list, len, offset), q.dispatch, q.size - x.len)).(reqnb := f.reqnb - 1);
      table := table[i := table[i][j := g]];
      if g.reqnb == 0 {
        filenb := filenb - 1;
      }
      Count(i, -1);
    }

    // -------------------------------------------------------------------------------------------
    // Scheduling loops
    // -------------------------------------------------------------------------------------------

    /** The requests of `batch` are added one after the other while the lock is free. */
    method AddBatch(batch: seq<Request>)
      requires Valid()
      modifies this`table, this`timeline, this`reqnb, this`filenb, counter
      ensures Valid() && Received(old(Snapshot()), Snapshot(), mode, batch)
    {
      ReceivedNothing(Snapshot(), mode);
      for n := 0 to |batch|
        invariant Valid() && Received(old(Snapshot()), Snapshot(), mode, batch[..n])
      {
        ghost var d := Snapshot();
        AddIsReceived(hash, d, mode, batch[n]);
        AddRequest(batch[n]);
        ReceivedOneMore(old(Snapshot()), d, Snapshot(), mode, batch, n);
      }
      assert batch[..|batch|] == batch;
    }

    method SendOldest() returns (ids: seq<int>, ghost gone: seq<Request>)
      requires Valid() && OnlyTimeline(Snapshot()) && reqnb > 0
      modifies this`table, this`timeline, this`reqnb, this`filenb, counter
      ensures Valid() && OldestGone(old(Snapshot()), Snapshot(), gone) && ids == UserIds(gone)
    {
      ghost var c := Snapshot();
      OldestFacts(hash, c);
      gone := timeline[0].members;
      var info := DispatchOldest();
      ids := info[..];
      OldestLeaves(hash, c);
    }

    /** One iteration of `timeorder`; `batch` arrives when the lock is free again. */
    method TimeOrderStep(batch: seq<Request>) returns (ids: seq<int>, ghost gone: seq<Request>)
      requires Valid() && OnlyTimeline(Snapshot()) && !mode.needsHashtable && reqnb > 0
      modifies this`table, this`timeline, this`reqnb, this`filenb, counter
      ensures Valid() && SentOldest(old(Snapshot()), Snapshot(), mode, batch, gone)
      ensures ids == UserIds(gone)
    {
      ids, gone := SendOldest();
      AddBatch(batch);
    }

    method TimeOrderRound(arrivals: seq<seq<Request>>, n: nat, ghost c: Contents, ghost states: seq<Contents>,
                          ghost groups: seq<seq<Request>>)
      returns (ids: seq<int>, ghost gone: seq<Request>)
      requires Valid() && !mode.needsHashtable && reqnb > 0
      requires InOrderSoFar(c, Snapshot(), mode, arrivals, states, groups) && n == |groups|
      modifies this`table, this`timeline, this`reqnb, this`filenb, counter
      ensures Valid() && InOrderSoFar(c, Snapshot(), mode, arrivals, states + [Snapshot()], groups + [gone])
      ensures Left(Snapshot(), arrivals, n + 1) < Left(old(Snapshot()), arrivals, n) && ids == UserIds(gone)
    {
      ghost var d := Snapshot();
      ids, gone := TimeOrderStep(BatchAt(arrivals, n));
      InOrderAdvances(hash, c, d, Snapshot(), mode, arrivals, states, n, groups, gone);
    }

    /**
     * `timeorder`: the oldest entry goes first, until nothing is queued. `arrivals` says what arrives
     * each time the lock is free. Every request is in exactly one of the `groups` sent, and each group
     * holds the oldest of the requests queued then, if requests are stamped in order of arrival;
     * without aggregation they are sent in that order.
     */
    method TimeOrder(arrivals: seq<seq<Request>>)
      returns (sent: seq<seq<int>>, ghost groups: seq<seq<Request>>, ghost states: seq<Contents>)
      requires Valid() && OnlyTimeline(Snapshot()) && !mode.needsHashtable
      modifies this`table, this`timeline, this`reqnb, this`filenb, counter
      ensures Valid() && reqnb == 0 && sent == IdsOf(groups)
      ensures OldestFirst(states, old(Snapshot()), Snapshot(), mode, arrivals, groups)
      ensures StampedInOrder(old(timeline), All(arrivals)) ==> OldestAlwaysSent(states, groups)
      ensures R.Held(Snapshot()) == R.Held(old(Snapshot())) + multiset(Arrived(arrivals, |groups|))
      ensures multiset(All(groups)) == multiset(Members(old(timeline))) + multiset(Arrived(arrivals, |groups|))
      ensures mode.cap <= 1 ==> All(groups) == Members(old(timeline)) + Arrived(arrivals, |groups|)
    {
      sent, groups, states := [], [], [Snapshot()];
      ghost var c := Snapshot();
      StartInOrder(c, mode, arrivals);
      while reqnb > 0
        invariant Valid() && InOrderSoFar(c, Snapshot(), mode, arrivals, states, groups) && sent == IdsOf(groups)
        decreases Left(Snapshot(), arrivals, |groups|)
      {
        var ids; ghost var gone;
        ids, gone := TimeOrderRound(arrivals, |sent|, c, states, groups);
        IdsOfOneMore(groups, gone);
        sent, groups, states := sent + [ids], groups + [gone], states + [Snapshot()];
      }
      AllServed(hash, c, Snapshot(), All(groups), Arrived(arrivals, |groups|), mode.cap);
      if StampedInOrder(c.timeline, All(arrivals)) {
        OldestIsAlwaysSent(states, c, Snapshot(), mode, arrivals, groups);
      }
    }

    method ChooseShortest(ghost coming: seq<Request>) returns (i: nat, j: nat, k: Kind)
      requires Valid() && ToSend(Snapshot(), coming) && reqnb > 0
      ensures i < LINES && ShortestQueue(Snapshot(), i, j, k)
    {
      ghost var c := Snapshot();
      SearchableIsSane(hash, c);
      var choice := GetShortestJob(Contents(table, timeline, [], reqnb, filenb));
      SomeQueueChosen(hash, c, coming, choice);
      i, j, k := choice.line, choice.file, choice.kind;
    }

    method SendShortest(ghost coming: seq<Request>) returns (ids: seq<int>, ghost gone: seq<Request>)
      requires Valid() && ToSend(Snapshot(), coming) && reqnb > 0
      modifies this`table, this`reqnb, this`filenb, counter
      ensures Valid() && ShortestGone(old(Snapshot()), Snapshot(), gone) && ids == UserIds(gone)
    {
      var i, j, k := ChooseShortest(coming);
      gone := table[i][j].Queue(k).list[0].members;
      var info := DispatchFromQueue(i, j, k, 0);
      ids := info[..];
      assert GoneFrom(old(Snapshot()), Snapshot(), gone, i, j, k);
    }

    /** One iteration of `SJF`; `batch` arrives when no lock is held any more. */
    method ShortestJobStep(batch: seq<Request>, ghost coming: seq<Request>)
      returns (ids: seq<int>, ghost gone: seq<Request>)
      requires Valid() && ToSend(Snapshot(), coming) && reqnb > 0
      modifies this`table, this`timeline, this`reqnb, this`filenb, counter
      ensures Valid() && SentShortest(old(Snapshot()), Snapshot(), mode, batch, gone)
      ensures ids == UserIds(gone)
    {
      ids, gone := SendShortest(coming);
      AddBatch(batch);
    }

    method ShortestJobRound(arrivals: seq<seq<Request>>, n: nat, ghost c: Contents, ghost states: seq<Contents>,
                            ghost groups: seq<seq<Request>>)
      returns (ids: seq<int>, ghost gone: seq<Request>)
      requires Valid() && mode.needsHashtable && reqnb > 0
      requires Sending(c, Snapshot(), mode, arrivals, states, groups) && n == |groups|
      modifies this`table, this`timeline, this`reqnb, this`filenb, counter
      ensures Valid() && Sending(c, Snapshot(), mode, arrivals, states + [Snapshot()], groups + [gone])
      ensures Left(Snapshot(), arrivals, n + 1) < Left(old(Snapshot()), arrivals, n) && ids == UserIds(gone)
    {
      ghost var d := Snapshot();
      ids, gone := ShortestJobStep(BatchAt(arrivals, n), Coming(arrivals, n));
      SendingAdvances(hash, c, d, Snapshot(), mode, arrivals, states, n, groups, gone);
    }

    /**
     * `SJF`: the first entry of a shortest queue goes first, until nothing is queued. `arrivals` says
     * what arrives after each iteration. In every iteration one of the `groups` was the first entry of
     * a shortest queue of the whole hashtable, and every request is in exactly one group.
     */
    method ShortestJobFirst(arrivals: seq<seq<Request>>)
      returns (sent: seq<seq<int>>, ghost groups: seq<seq<Request>>, ghost states: seq<Contents>)
      requires Valid() && mode.needsHashtable && ToSend(Snapshot(), All(arrivals))
      modifies this`table, this`timeline, this`reqnb, this`filenb, counter
      ensures Valid() && reqnb == 0 && sent == IdsOf(groups)
      ensures ShortestFirst(states, old(Snapshot()), Snapshot(), mode, arrivals, groups)
      ensures R.Held(Snapshot()) == R.Held(old(Snapshot())) + multiset(Arrived(arrivals, |groups|))
      ensures multiset(All(groups)) == multiset(Pending(old(Snapshot()))) + multiset(Arrived(arrivals, |groups|))
    {
      sent, groups, states := [], [], [Snapshot()];
      ghost var c := Snapshot();
      StartSending(c, mode, arrivals);
      while reqnb > 0
        invariant Valid() && Sending(c, Snapshot(), mode, arrivals, states, groups) && sent == IdsOf(groups)
        decreases Left(Snapshot(), arrivals, |groups|)
      {
        var ids; ghost var gone;
        ids, gone := ShortestJobRound(arrivals, |sent|, c, states, groups);
        IdsOfOneMore(groups, gone);
        sent, groups, states := sent + [ids], groups + [gone], states + [Snapshot()];
      }
      AllSent(hash, c, Snapshot(), All(groups), Arrived(arrivals, |groups|));
    }

    // -------------------------------------------------------------------------------------------
    // Migration
    // -------------------------------------------------------------------------------------------

    /** `put_this_request_in_timeline` for a scheduling algorithm without aggregation. */
    method PutThisRequestInTimeline(e: Entry)
      requires SimpleOk(e) && mode.cap <= 1
      modifies this`timeline
      ensures timeline == TL.InsertAll(old(timeline), e.members)
      decreases if e.Size() > 1 then 2 else 0
    {
      if e.Size() > 1 && mode.cap <= 1 {
        LoneMembers(e.members);
        PutAllRequestsInTimeline(Parts(e.members));
      } else {
        timeline := TL.InsertByTime(timeline, e);
        InsertOne(old(timeline), e);
      }
    }

    /** `put_all_requests_in_timeline`: each request is moved after the iterator has gone past it. */
    method PutAllRequestsInTimeline(list: seq<Entry>)
      requires (forall e :: e in list ==> SimpleOk(e)) && mode.cap <= 1
      modifies this`timeline
      ensures timeline == TL.InsertAll(old(timeline), Members(list))
      decreases if HasVirtual(list) then 3 else 1
    {
      if list == [] {
        return;
      }
      var aux := list[0];
      var next := 1;
      ghost var n := 0;
      while next < |list|
        invariant n + 1 == next <= |list| && aux == list[n]
        invariant timeline == TL.InsertAll(old(timeline), Members(list[..n]))
      {
        PutThisRequestInTimeline(aux);
        InsertNext(old(timeline), list, n);
        aux, n := list[next], n + 1;
        next := next + 1;
      }
      PutThisRequestInTimeline(aux);
      InsertNext(old(timeline), list, n);
      assert list[..n + 1] == list;
    }

    /** The body of the loop over the files of a line: both queues of the file are moved. */
    method MigrateFile(i: nat, j: nat)
      requires i < |table| && j < |table[i]| && mode.cap <= 1 && FileSimple(table[i][j])
      modifies this`table, this`timeline
      ensures timeline == TL.InsertAll(old(timeline), OF_FILE(old(table[i][j])))
      ensures table == PutFile(old(table), i, j, R.Emptied(old(table[i][j])))
    {
      var f := table[i][j];
      PutAllRequestsInTimeline(f.read.list);
      PutAllRequestsInTimeline(f.write.list);
      TL.InsertAllConcat(old(timeline), Members(f.read.list), Members(f.write.list));
      table := table[i := table[i][j := R.Emptied(f)]];
    }

    /** The loop over the files of one line of the hashtable. */
    method MigrateLine(i: nat)
      requires i < |table| && mode.cap <= 1 && LineSimple(table[i])
      modifies this`table, this`timeline
      ensures timeline == TL.InsertAll(old(timeline), OF_LINE(old(table[i])))
      ensures table == old(table)[i := R.EmptiedLine(old(table[i]))]
    {
      ghost var line := table[i];
      var j := 0;
      while j < |table[i]|
        invariant |table| == |old(table)| && |table[i]| == |line| && j <= |line|
        invariant table == old(table)[i := table[i]]
        invariant forall x :: 0 <= x < |line| ==> table[i][x] == if x < j then R.Emptied(line[x]) else line[x]
        invariant timeline == TL.InsertAll(old(timeline), FlatMap(line[..j], OF_FILE))
      {
        assert line[j] in line;
        MigrateFile(i, j);
        NextPart(old(timeline), line, j, OF_FILE);
        j := j + 1;
      }
      assert line[..j] == line && table[i] == R.EmptiedLine(line);
    }

    /** `migrate_from_hashtable_to_timeline` */
    method MigrateFromHashtable()
      requires |table| == LINES && mode.cap <= 1 && forall x :: 0 <= x < |table| ==> LineSimple(table[x])
      modifies this`table, this`timeline
      ensures Snapshot() == R.MigrateToTimeline(old(Snapshot()))
    {
      ghost var lines := table;
      for i := 0 to LINES
        invariant |table| == LINES
        invariant forall x :: 0 <= x < LINES ==> table[x] == if x < i then R.EmptiedLine(lines[x]) else lines[x]
        invariant timeline == TL.InsertAll(old(timeline), FlatMap(lines[..i], OF_LINE))
      {
        MigrateLine(i);
        NextPart(old(timeline), lines, i, OF_LINE);
      }
      assert lines[..LINES] == lines;
      MigratedIs(old(Snapshot()), Snapshot());
    }

    /** `change_selected_alg` from an algorithm that uses the hashtable to TO, with all locks held. */
    method ChangeToTimeOrder()
      requires Valid() && mode.needsHashtable
      modifies this`mode, this`table, this`timeline
      ensures Valid() && mode == Mode(false, 1) && Snapshot() == R.MigrateToTimeline(old(Snapshot()))
      ensures OnlyTimeline(Snapshot()) && R.Held(Snapshot()) == R.Held(old(Snapshot()))
    {
      R.MigrationKeepsInv(hash, Snapshot());
      SwitchStructure();
    }

    method SwitchStructure()
      requires |table| == LINES && Shape(hash, Snapshot())
      modifies this`mode, this`table, this`timeline
      ensures mode == Mode(false, 1) && Snapshot() == R.MigrateToTimeline(old(Snapshot()))
    {
      AllSimple(hash, Snapshot());
      mode := Mode(false, 1);
      MigrateFromHashtable();
    }
  }

  // What the operations store, field by field.

  lemma FileCountsNonNegative(h: int -> nat, c: Contents, i: nat, j: nat)
    requires Inv(h, c) && i < LINES && j < |c.table[i]|
    ensures c.table[i][j].reqnb >= 0
  {
    assert LineCounts(c.table[i], Pending(c)) && FileCounts(c.table[i][j], Pending(c));
    SumNonNegative(Pending(c), OfFile(c.table[i][j].id));
  }

  function PutFile(table: seq<seq<FileRec>>, i: nat, j: nat, f: FileRec): seq<seq<FileRec>>
    requires i < |table| && j < |table[i]|
  {
    table[i := table[i][j := f]]
  }

  lemma PutTwice(table: seq<seq<FileRec>>, i: nat, j: nat, f: FileRec, g: FileRec)
    requires i < |table| && j < |table[i]|
    ensures PutFile(PutFile(table, i, j, f), i, j, g) == PutFile(table, i, j, g)
  {
    assert table[i][j := f][j := g] == table[i][j := g];
  }

  lemma PutSame(table: seq<seq<FileRec>>, i: nat, j: nat)
    requires i < |table| && j < |table[i]|
    ensures PutFile(table, i, j, table[i][j]) == table
  {
    assert table[i][j := table[i][j]] == table[i];
  }

  /** The contents with file (i, j) replaced and the counters moved by `n` requests. */
  function Stored(c: Contents, i: nat, j: nat, f: FileRec, timeline: seq<Entry>, n: int, filenb: int): Contents
    requires i < |c.table| && j < |c.table[i]| && i < |c.counter|
  {
    Contents(PutFile(c.table, i, j, f), timeline, c.counter[i := c.counter[i] + n], c.reqnb + n, filenb)
  }

  function EnqueueResult(c: Contents, mode: Mode, i: nat, j: nat, r: Request, filenb: int): Contents
    requires i < |c.table| && j < |c.table[i]| && i < |c.counter|
  {
    var f := c.table[i][j];
    var q := f.Queue(r.kind);
    var list := if mode.needsHashtable then Add(q.list, r, mode.cap) else q.list;
    var timeline := if mode.needsHashtable then c.timeline else TL.AddToTimeline(c.timeline, r, mode.cap);
    Stored(c, i, j, f.With(r.kind, QueueRec(list, q.dispatch, q.size + r.len)).(reqnb := f.reqnb + 1), timeline, 1,
           filenb)
  }

  lemma EnqueueStored(c: Contents, mode: Mode, i: nat, j: nat, r: Request)
    requires i < |c.table| && j < |c.table[i]| && i < |c.counter| && c.table[i][j].reqnb >= 0
    ensures R.Enqueue(c, mode, i, j, r) ==
            EnqueueResult(c, mode, i, j, r, c.filenb + (if c.table[i][j].reqnb == 0 then 1 else 0))
  {
  }

  function AddResult(c: Contents, mode: Mode, i: nat, r: Request): Contents
    requires i < |c.table| && i < |c.counter|
  {
    var d := R.EnsureFile(c, i, r.file);
    var j := R.Position(d.table[i], r.file);
    EnqueueResult(d, mode, i, j, r, d.filenb + (if d.table[i][j].reqnb == 0 then 1 else 0))
  }

  lemma OnlyFilenbDiffers(d: Contents, s: Contents, mode: Mode, i: nat, j: nat, r: Request)
    requires i < |d.table| && j < |d.table[i]| && i < |d.counter| && s == d.(filenb := s.filenb)
    ensures EnqueueResult(s, mode, i, j, r, s.filenb) == EnqueueResult(d, mode, i, j, r, s.filenb)
  {
  }

  lemma AddStored(h: int -> nat, c: Contents, mode: Mode, r: Request)
    requires Inv(h, c) && h(r.file) < LINES
    ensures R.AddRequest(h, c, mode, r) == AddResult(c, mode, h(r.file), r)
  {
    var i := h(r.file);
    var d := R.EnsureFile(c, i, r.file);
    R.EnsureKeepsInv(h, c, r.file);
    FileCountsNonNegative(h, d, i, R.Position(d.table[i], r.file));
    EnqueueStored(d, mode, i, R.Position(d.table[i], r.file), r);
  }

  /** File `f` after the requests `ms` of its queue `k` went into dispatch. */
  function Dispatching(f: FileRec, k: Kind, ms: seq<Request>): FileRec
  {
    var q := f.Queue(k);
    f.With(k, q.(dispatch := q.dispatch + ms, size := q.size - Sum(ms, LENGTH))).(reqnb := f.reqnb - |ms|)
  }

  lemma DispatchingNothing(f: FileRec, k: Kind)
    ensures Dispatching(f, k, []) == f
  {
    assert f.Queue(k).dispatch + [] == f.Queue(k).dispatch;
  }

  lemma DispatchingOne(f: FileRec, k: Kind, r: Request)
    ensures Dispatching(f, k, [r]) ==
            f.With(k, QueueRec(f.Queue(k).list, f.Queue(k).dispatch + [r], f.Queue(k).size - r.len))
             .(reqnb := f.reqnb - 1)
  {
    assert Sum([r], LENGTH) == r.len by { assert [r][1..] == []; }
  }

  lemma DispatchingSnoc(f: FileRec, k: Kind, ms: seq<Request>, n: nat)
    requires n < |ms|
    ensures Dispatching(Dispatching(f, k, ms[..n]), k, [ms[n]]) == Dispatching(f, k, ms[..n + 1])
    ensures UserIds(ms[..n]) + [ms[n].userId] == UserIds(ms[..n + 1])
  {
    SumSnoc(ms, n, LENGTH);
    var q := f.Queue(k);
    assert Sum([ms[n]], LENGTH) == ms[n].len by { assert [ms[n]][1..] == []; }
    assert (q.dispatch + ms[..n]) + [ms[n]] == q.dispatch + ms[..n + 1];
  }

  function Unlinked(c: Contents, i: nat, j: nat, k: Kind, n: nat): Contents
    requires i < |c.table| && j < |c.table[i]| && n < |c.table[i][j].Queue(k).list|
  {
    var q := c.table[i][j].Queue(k);
    Put(c, i, j, c.table[i][j].With(k, q.(list := Without(q.list, n))))
  }

  function DispatchResult(c: Contents, i: nat, j: nat, k: Kind, ms: seq<Request>): Contents
    requires i < |c.table| && j < |c.table[i]| && i < |c.counter|
  {
    var g := Dispatching(c.table[i][j], k, ms);
    Stored(c, i, j, g, c.timeline, -|ms|, c.filenb - (if g.reqnb == 0 then 1 else 0))
  }

  lemma DispatchStored(h: int -> nat, c: Contents, i: nat, j: nat, k: Kind, n: nat)
    requires Inv(h, c) && i < LINES && j < |c.table[i]| && n < |c.table[i][j].Queue(k).list|
    requires Inv(h, R.DispatchFromQueue(c, i, j, k, n))
    ensures c.table[i][j].Queue(k).list[n].members != []
    ensures R.DispatchFromQueue(c, i, j, k, n) ==
            DispatchResult(Unlinked(c, i, j, k, n), i, j, k, c.table[i][j].Queue(k).list[n].members)
  {
    var q := c.table[i][j].Queue(k);
    R.QueueHasShape(h, c, i, j, k);
    assert q.list[n] in q.list;
    FileCountsNonNegative(h, R.DispatchFromQueue(c, i, j, k, n), i, j);
    DispatchedExplicitly(c, i, j, k, Without(q.list, n), c.timeline, q.list[n].members);
  }

  /** Taking out at least one request: the file counter goes down exactly when none is left. */
  lemma DispatchedExplicitly(c: Contents, i: nat, j: nat, k: Kind, list: seq<Entry>, timeline: seq<Entry>,
                             ms: seq<Request>)
    requires i < |c.table| && j < |c.table[i]| && i < |c.counter| && ms != []
    requires c.table[i][j].reqnb - |ms| >= 0
    ensures var f := c.table[i][j];
            var q := f.Queue(k);
            Recounted(c, i, j, k, list, q.dispatch + ms, timeline, 0, |ms|, 0, Sum(ms, LENGTH)) ==
            DispatchResult(Put(c, i, j, f.With(k, q.(list := list))).(timeline := timeline), i, j, k, ms)
  {
    var f := c.table[i][j];
    var g := RecountedFile(f, k, list, f.Queue(k).dispatch + ms, 0, |ms|, 0, Sum(ms, LENGTH));
    var unlinked := f.With(k, f.Queue(k).(list := list));
    assert g == Dispatching(unlinked, k, ms);
    PutTwice(c.table, i, j, unlinked, g);
  }

  lemma OldestStored(h: int -> nat, c: Contents)
    requires Inv(h, c) && R.OldestReady(h, c) && Inv(h, R.DispatchOldest(h, c))
    ensures var m := c.timeline[0].members[0];
            R.DispatchOldest(h, c) ==
            DispatchResult(c.(timeline := c.timeline[1..]), h(m.file), R.Position(c.table[h(m.file)], m.file), m.kind,
                           c.timeline[0].members)
  {
    var m := c.timeline[0].members[0];
    var i, j := h(m.file), R.Position(c.table[h(m.file)], m.file);
    FileCountsNonNegative(h, R.DispatchOldest(h, c), i, j);
    var f := c.table[i][j];
    DispatchedExplicitly(c, i, j, m.kind, f.Queue(m.kind).list, c.timeline[1..], c.timeline[0].members);
    assert f.With(m.kind, f.Queue(m.kind).(list := f.Queue(m.kind).list)) == f;
    PutSame(c.table, i, j);
  }

  function ReleaseResult(h: int -> nat, c: Contents, id: int, k: Kind, len: int, offset: int): Contents
  {
    if R.HasQueue(h, c, id) then R.Release(c, h(id), R.Position(c.table[h(id)], id), k, len, offset) else c
  }

  function CancelResult(h: int -> nat, c: Contents, id: int, k: Kind, len: int, offset: int): Contents
    requires |c.table| <= |c.counter|
  {
    if R.HasQueue(h, c, id) then R.CancelQueued(c, h(id), R.Position(c.table[h(id)], id), k, len, offset) else c
  }

  /** One request of this queue with this length and offset is not held any more. */
  ghost predicate OneMatchLeft(c: Contents, d: Contents, id: int, k: Kind, len: int, offset: int)
  {
    exists x :: Matches(x, len, offset) && Belongs(x, id, k) && R.Held(c) == R.Held(d) + multiset{x}
  }

  lemma CancelEffect(h: int -> nat, c: Contents, i: nat, j: nat, k: Kind, len: int, offset: int)
    requires Inv(h, c) && i < LINES && j < |c.table[i]|
    ensures var list := c.table[i][j].Queue(k).list;
            && (Cancellable(list, len, offset) <==> FindEntry(list, len, offset) < |list|)
            && (Cancellable(list, len, offset) ==>
                  && Inv(h, R.CancelQueued(c, i, j, k, len, offset))
                  && R.CancelQueued(c, i, j, k, len, offset) == CancelStores(c, i, j, k, len, offset)
                  && OneMatchLeft(c, R.CancelQueued(c, i, j, k, len, offset), c.table[i][j].id, k, len, offset))
  {
    var list := c.table[i][j].Queue(k).list;
    R.QueueHasShape(h, c, i, j, k);
    FindsIffCancellable(list, len, offset);
    if FindEntry(list, len, offset) < |list| {
      R.CancelKeepsInv(h, c, i, j, k, len, offset);
      CancelStored(h, c, i, j, k, len, offset);
      R.CancelKeepsBelongs(list, len, offset, c.table[i][j].id, k);
    }
  }

  /** What a cancellation does with the hashtable in use. */
  ghost predicate CancelledInQueue(h: int -> nat, c: Contents, d: Contents, id: int, k: Kind, len: int, offset: int)
    requires |c.table| <= |c.counter|
  {
    && d == CancelResult(h, c, id, k, len, offset)
    && if Cancellable(R.QueueOf(h, c, id, k).list, len, offset) then OneMatchLeft(c, d, id, k, len, offset) else d == c
  }

  lemma NothingToCancel(h: int -> nat, c: Contents, id: int, k: Kind, len: int, offset: int)
    requires |c.table| <= |c.counter| && !R.HasQueue(h, c, id)
    ensures CancelledInQueue(h, c, c, id, k, len, offset) && CancelledInTimeline(h, c, c, id, len, offset)
  {
  }

  lemma KnownIsCancelled(h: int -> nat, c: Contents, d: Contents, id: int, i: nat, j: nat, k: Kind, len: int,
                         offset: int)
    requires |c.table| <= |c.counter| && R.HasQueue(h, c, id) && i == h(id) && j == R.Position(c.table[i], id)
    requires d == R.CancelQueued(c, i, j, k, len, offset)
    requires if Cancellable(c.table[i][j].Queue(k).list, len, offset) then OneMatchLeft(c, d, id, k, len, offset)
      else d == c
    ensures CancelledInQueue(h, c, d, id, k, len, offset)
  {
  }

  /** What it does with the timeline in use, if the file named is known. */
  ghost predicate CancelledInTimeline(h: int -> nat, c: Contents, d: Contents, id: int, len: int, offset: int)
  {
    if R.HasQueue(h, c, id) && Cancellable(c.timeline, len, offset) then
      && Ready(h, c, id, len, offset) && d == CancelTimed(h, c, id, len, offset)
      && exists x :: MatchLeft(h, c, d, id, len, offset, x)
    else d == c
  }

  /** The match `x` is not held any more; the counters are right exactly if it was on the line of `id`. */
  ghost predicate MatchLeft(h: int -> nat, c: Contents, d: Contents, id: int, len: int, offset: int, x: Request)
  {
    Matches(x, len, offset) && R.Held(c) == R.Held(d) + multiset{x} && (Inv(h, d) <==> h(x.file) == h(id))
  }

  function TimedStores(h: int -> nat, c: Contents, id: int, len: int, offset: int): Contents
    requires Ready(h, c, id, len, offset) && FindEntry(c.timeline, len, offset) < |c.timeline|
  {
    var x := Cancelled(c.timeline, len, offset);
    var i, j := h(x.file), R.Position(c.table[h(x.file)], x.file);
    var f := c.table[i][j];
    var q := f.Queue(x.kind);
    var g := f.With(x.kind, q.(size := q.size - x.len)).(reqnb := f.reqnb - 1);
    Contents(PutFile(c.table, i, j, g), Cancel(c.timeline, len, offset), c.counter[h(id) := c.counter[h(id)] - 1],
             c.reqnb - 1, c.filenb - (if g.reqnb == 0 then 1 else 0))
  }

  lemma TimedExplicitly(h: int -> nat, c: Contents, id: int, len: int, offset: int, x: Request)
    requires Ready(h, c, id, len, offset) && FindEntry(c.timeline, len, offset) < |c.timeline|
    requires x == Cancelled(c.timeline, len, offset)
    requires c.table[h(x.file)][R.Position(c.table[h(x.file)], x.file)].reqnb >= 1
    ensures CancelTimed(h, c, id, len, offset) == TimedStores(h, c, id, len, offset)
  {
  }

  /** A file that loses a request held one. */
  lemma CountedBefore(h: int -> nat, c: Contents, x: Request, t: seq<Entry>)
    requires |c.table| == LINES == |c.counter| && R.HasQueue(h, c, x.file) && Inv(h, WithoutTimed(h, c, x, t))
    ensures c.table[h(x.file)][R.Position(c.table[h(x.file)], x.file)].reqnb >= 1
  {
    FileCountsNonNegative(h, WithoutTimed(h, c, x, t), h(x.file), R.Position(c.table[h(x.file)], x.file));
  }

  lemma TimedCancelFound(h: int -> nat, c: Contents, id: int, len: int, offset: int, x: Request, d: Contents,
                         good: Contents)
    requires Outcome(h, c, id, len, offset, x, d, good) && Inv(h, c)
    ensures d == TimedStores(h, c, id, len, offset) && MatchLeft(h, c, d, id, len, offset, x)
  {
    TimedCancelTakesOne(h, c, id, len, offset, x, d, good);
    TimedCancelKeepsInvIff(h, c, id, len, offset, x, d, good);
    GoodOutcome(h, c, id, len, offset, x, d, good);
    CountedBefore(h, c, x, Cancel(c.timeline, len, offset));
    TimedExplicitly(h, c, id, len, offset, x);
  }

  lemma TimedCancelEffect(h: int -> nat, c: Contents, id: int, len: int, offset: int)
    requires Inv(h, c) && forall f :: h(f) < LINES
    ensures Ready(h, c, id, len, offset)
    ensures Cancellable(c.timeline, len, offset) <==> FindEntry(c.timeline, len, offset) < |c.timeline|
    ensures Cancellable(c.timeline, len, offset) ==>
              CancelTimed(h, c, id, len, offset) == TimedStores(h, c, id, len, offset)
              && exists x :: MatchLeft(h, c, CancelTimed(h, c, id, len, offset), id, len, offset, x)
  {
    IsReady(h, c, id, len, offset);
    forall e | e in c.timeline ensures SimpleOk(e) {
      assert TimedShape(h, c, e);
    }
    FindsIffCancellable(c.timeline, len, offset);
    if FindEntry(c.timeline, len, offset) < |c.timeline| {
      var x := Cancelled(c.timeline, len, offset);
      TimedCancelFound(h, c, id, len, offset, x, CancelTimed(h, c, id, len, offset),
                       WithoutTimed(h, c, x, Cancel(c.timeline, len, offset)));
    }
  }

  function CancelStores(c: Contents, i: nat, j: nat, k: Kind, len: int, offset: int): Contents
    requires i < |c.table| && j < |c.table[i]| && i < |c.counter|
    requires FindEntry(c.table[i][j].Queue(k).list, len, offset) < |c.table[i][j].Queue(k).list|
  {
    var f := c.table[i][j];
    var q := f.Queue(k);
    var x := Cancelled(q.list, len, offset);
    var g := f.With(k, QueueRec(Cancel(q.list, len, offset), q.dispatch, q.size - x.len)).(reqnb := f.reqnb - 1);
    Stored(c, i, j, g, c.timeline, -1, c.filenb - (if g.reqnb == 0 then 1 else 0))
  }

  lemma CancelStored(h: int -> nat, c: Contents, i: nat, j: nat, k: Kind, len: int, offset: int)
    requires Inv(h, c) && i < LINES && j < |c.table[i]|
    requires FindEntry(c.table[i][j].Queue(k).list, len, offset) < |c.table[i][j].Queue(k).list|
    requires Inv(h, R.CancelQueued(c, i, j, k, len, offset))
    ensures R.CancelQueued(c, i, j, k, len, offset) == CancelStores(c, i, j, k, len, offset)
  {
    FileCountsNonNegative(h, R.CancelQueued(c, i, j, k, len, offset), i, j);
    CancelExplicitly(c, i, j, k, len, offset);
  }

  lemma CancelExplicitly(c: Contents, i: nat, j: nat, k: Kind, len: int, offset: int)
    requires i < |c.table| && j < |c.table[i]| && i < |c.counter| && c.table[i][j].reqnb >= 1
    requires FindEntry(c.table[i][j].Queue(k).list, len, offset) < |c.table[i][j].Queue(k).list|
    ensures R.CancelQueued(c, i, j, k, len, offset) == CancelStores(c, i, j, k, len, offset)
  {
  }

  // Facts for the migration.

  lemma MigratedIs(c: Contents, d: Contents)
    requires |c.table| == |d.table| && forall x :: 0 <= x < |c.table| ==> d.table[x] == R.EmptiedLine(c.table[x])
    requires d == c.(table := d.table, timeline := TL.InsertAll(c.timeline, FlatMap(c.table, OF_LINE)))
    ensures d == R.MigrateToTimeline(c)
  {
  }

  lemma InsertOne(t: seq<Entry>, e: Entry)
    requires SimpleOk(e) && e.Size() == 1
    ensures TL.InsertByTime(t, e) == TL.InsertAll(t, e.members)
  {
    assert e.members[..0] == [];
  }

  predicate HasVirtual(list: seq<Entry>)
  {
    exists e :: e in list && e.Size() > 1
  }

  /** The sub-requests of a virtual request as a list of their own. */
  function Parts(rs: seq<Request>): seq<Entry>
  {
    seq(|rs|, k requires 0 <= k < |rs| => Lone(rs[k]))
  }

  lemma {:induction false} LoneMembers(rs: seq<Request>)
    ensures Members(Parts(rs)) == rs
    ensures forall e :: e in Parts(rs) ==> SimpleOk(e) && e.Size() == 1
    decreases |rs|
  {
    if rs == [] {
    } else {
      LoneMembers(rs[1..]);
      assert Parts(rs)[1..] == Parts(rs[1..]);
      assert rs == [rs[0]] + rs[1..];
    }
  }

  lemma InsertNext(t: seq<Entry>, list: seq<Entry>, n: nat)
    requires n < |list|
    ensures TL.InsertAll(TL.InsertAll(t, Members(list[..n])), list[n].members) ==
            TL.InsertAll(t, Members(list[..n + 1]))
  {
    TL.InsertAllConcat(t, Members(list[..n]), list[n].members);
    assert list[..n + 1] == list[..n] + [list[n]];
    MembersConcat(list[..n], [list[n]]);
    MembersSingle(list[n]);
  }

  ghost predicate LineSimple(line: seq<FileRec>)
  {
    forall f :: f in line ==> FileSimple(f)
  }

  ghost predicate FileSimple(f: FileRec)
  {
    (forall e :: e in f.read.list ==> SimpleOk(e)) && (forall e :: e in f.write.list ==> SimpleOk(e))
  }

  lemma AllSimple(h: int -> nat, c: Contents)
    requires Shape(h, c)
    ensures forall x :: 0 <= x < |c.table| ==> LineSimple(c.table[x])
  {
    forall x, f | 0 <= x < LINES && f in c.table[x] ensures FileSimple(f) {
      var j :| 0 <= j < |c.table[x]| && c.table[x][j] == f;
      assert LineShape(h, c.table[x], x) && FileShape(c.table[x][j]);
    }
  }

  lemma NextPart<X>(t: seq<Entry>, s: seq<X>, n: nat, g: X -> seq<Request>)
    requires n < |s|
    ensures TL.InsertAll(TL.InsertAll(t, FlatMap(s[..n], g)), g(s[n])) == TL.InsertAll(t, FlatMap(s[..n + 1], g))
  {
    TL.InsertAllConcat(t, FlatMap(s[..n], g), g(s[n]));
    assert s[..n + 1] == s[..n] + [s[n]];
    FlatMapConcat(s[..n], [s[n]], g);
    FlatMapOne(s[n], g);
  }
}
