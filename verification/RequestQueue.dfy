/**
 * The aggregating queue with its request structures updated in place. Each operation is proved to
 * compute the corresponding function of `Aggregation` or `Cancellation` on the queue's contents.
 */
module RequestQueue {
  import opened Requests
  import opened Aggregation
  import opened Cancellation

  /** A list of distinct simple requests with the values `ms`. */
  ghost predicate ListHolds(cells: seq<RequestCell>, ms: seq<Request>)
    reads cells
  {
    && |cells| == |ms|
    && (forall k :: 0 <= k < |cells| ==> cells[k].IsSimple() && cells[k].Value() == ms[k])
    && (forall j, k :: 0 <= j < k < |cells| ==> cells[j] != cells[k])
  }

  lemma ListGrows(cells: seq<RequestCell>, ms: seq<Request>, c: RequestCell)
    requires ListHolds(cells, ms) && c !in cells && c.IsSimple()
    ensures ListHolds([c] + cells, [c.Value()] + ms)
    ensures ListHolds(cells + [c], ms + [c.Value()])
  {
  }

  /** The request structure: a simple request, or a virtual one with a list of sub-requests. */
  class RequestCell {
    const userId: int
    const file: int
    const kind: Kind
    var offset: int
    var len: int
    var arrival: int
    var timestamp: int
    var reqnb: int
    var subRequests: seq<RequestCell>
    var aggHead: RequestCell?
    /** The virtual request whose list holds this one, if any. */
    ghost var owner: RequestCell?

    constructor (userId: int, file: int, kind: Kind, offset: int, len: int, arrival: int, timestamp: int)
      ensures IsSimple() && Value() == Request(userId, file, kind, offset, len, arrival, timestamp)
      ensures aggHead == null && owner == null
    {
      this.userId, this.file, this.kind := userId, file, kind;
      this.offset, this.len, this.arrival, this.timestamp := offset, len, arrival, timestamp;
      reqnb, subRequests, aggHead, owner := 1, [], null, null;
    }

    function Value(): Request
      reads this
    {
      Request(userId, file, kind, offset, len, arrival, timestamp)
    }

    predicate IsSimple()
      reads this
    {
      reqnb == 1 && subRequests == []
    }

    /** The list of sub-requests holds exactly the members of `e`, and the other fields summarise it. */
    ghost predicate Holds(e: Entry)
      reads this, subRequests
    {
      && e.offset == offset && e.len == len && e.arrival == arrival && e.timestamp == timestamp
      && reqnb == |e.members| && ListHolds(subRequests, e.members)
    }

    /** `e` is what this request contributes to a queue. */
    ghost predicate Represents(e: Entry)
      reads this, subRequests
    {
      if reqnb == 1 then subRequests == [] && e == Lone(Value())
      else reqnb > 1 && Holds(e)
    }

    /** The second half of `include_in_aggregation`: this request is virtual and takes in `req`. */
    method Attach(req: RequestCell, ghost e: Entry)
      requires Holds(e) && req.IsSimple() && req != this && req !in subRequests
      requires this !in subRequests && e.members != []
      modifies this, req`aggHead, req`owner
      ensures Holds(Absorb(e, req.Value())) && reqnb > 1
      ensures subRequests == if req.offset <= e.offset then [req] + old(subRequests) else old(subRequests) + [req]
      ensures req.aggHead == this && req.owner == this && owner == old(owner)
    {
      if req.offset <= offset {
        subRequests := [req] + subRequests;
        len := len + (offset - req.offset);
        offset := req.offset;
      } else {
        subRequests := subRequests + [req];
        len := len + ((req.offset + req.len) - (offset + len));
      }
      reqnb := reqnb + 1;
      if arrival > req.arrival {
        arrival := req.arrival;
      }
      if timestamp > req.timestamp {
        timestamp := req.timestamp;
      }
      req.aggHead := this;
      req.owner := this;
      ListGrows(old(subRequests), e.members, req);
    }

    /** Widens the interval to `tmp` and updates the minima. */
    method Extend(tmp: RequestCell, ghost e: Entry)
      requires offset == e.offset && len == e.len && arrival == e.arrival && timestamp == e.timestamp && tmp != this
      modifies this`offset, this`len, this`arrival, this`timestamp
      ensures var x := Extended(e, tmp.Value());
              offset == x.offset && len == x.len && arrival == x.arrival && timestamp == x.timestamp
    {
      if tmp.offset < offset {
        len := len + (offset - tmp.offset);
        offset := tmp.offset;
      }
      if tmp.offset + tmp.len > offset + len {
        len := len + ((tmp.offset + tmp.len) - (offset + len));
      }
      if tmp.arrival < arrival {
        arrival := tmp.arrival;
      }
      if tmp.timestamp < timestamp {
        timestamp := tmp.timestamp;
      }
    }

    /** Recomputes the interval and the minima from all sub-requests. */
    method Recompute(ghost ms: seq<Request>)
      requires ListHolds(subRequests, ms) && ms != [] && this !in subRequests
      modifies this`offset, this`len, this`arrival, this`timestamp
      ensures ListHolds(subRequests, ms)
      ensures var e := Recomputed(ms);
              offset == e.offset && len == e.len && arrival == e.arrival && timestamp == e.timestamp
    {
      var first := true;
      var n := 0;
      while n < |subRequests|
        invariant n <= |subRequests| && ListHolds(subRequests, ms) && first == (n == 0)
        invariant n > 0 ==> var e := Recomputed(ms[..n]);
                    offset == e.offset && len == e.len && arrival == e.arrival && timestamp == e.timestamp
      {
        var tmp := subRequests[n];
        if first {
          first := false;
          offset, len, arrival, timestamp := tmp.offset, tmp.len, tmp.arrival, tmp.timestamp;
        } else {
          Extend(tmp, Recomputed(ms[..n]));
        }
        assert ms[..n + 1][..n] == ms[..n] && ms[..n + 1][n] == ms[n];
        n := n + 1;
      }
      assert ms[..n] == ms;
    }

    /** Takes sub-request `j` out of this virtual request. */
    method Drop(j: nat, ghost e: Entry)
      requires Holds(e) && |e.members| > 1 && j < |subRequests| && this !in subRequests
      modifies this`subRequests, this`offset, this`len, this`arrival, this`timestamp, this`reqnb
      ensures Holds(Recomputed(Without(e.members, j)))
      ensures subRequests == Without(old(subRequests), j)
    {
      ghost var ms := Without(e.members, j);
      ListShrinks(subRequests, e.members, j);
      RecomputedMembers(ms);
      subRequests := Without(subRequests, j);
      Recompute(ms);
      reqnb := reqnb - 1;
    }
  }

  lemma ListShrinks(cells: seq<RequestCell>, ms: seq<Request>, j: nat)
    requires ListHolds(cells, ms) && j < |cells|
    ensures ListHolds(Without(cells, j), Without(ms, j))
  {
  }

  /** Taking out the next entry and replacing the one before it. */
  lemma JoinedView(view: seq<Entry>, i: nat, e: Entry)
    requires i + 1 < |view|
    ensures Without(view, i + 1)[i := e] == view[..i] + [e] + view[i + 2..]
  {
  }

  lemma AbsorbOnly(e: Entry, r: Request, ms: seq<Request>)
    requires ms == [r]
    ensures AbsorbAll(e, ms) == Absorb(e, r)
  {
    AbsorbAllSnoc(e, ms, 0);
    assert ms[..0] == [];
  }

  class OffsetQueue {
    var list: seq<RequestCell>
    /** The largest number of requests in one virtual request. */
    const cap: int
    /** The contents of the queue, and every request structure reachable from it. */
    ghost var view: seq<Entry>
    ghost var repr: set<RequestCell>

    ghost predicate Valid()
      reads this, repr
    {
      && |view| == |list|
      && (forall j, k :: 0 <= j < k < |list| ==> list[j] != list[k])
      && (forall k :: 0 <= k < |list| ==> list[k] in repr && EntryValid(list[k], view[k]))
    }

    ghost predicate Owns(c: RequestCell)
      requires c in repr
      reads this, repr
    {
      c.owner == null && forall m :: m in c.subRequests ==> m in repr && m.owner == c && m.aggHead == c
    }

    ghost predicate EntryValid(c: RequestCell, e: Entry)
      requires c in repr
      reads this, repr
    {
      Owns(c) && c.Represents(e)
    }

    /** Valid, except that the entry at `i` is a virtual request that may hold a single request. */
    ghost predicate Opened(i: nat)
      reads this, repr
    {
      && |view| == |list| && i < |list|
      && (forall j, k :: 0 <= j < k < |list| ==> list[j] != list[k])
      && (forall k :: 0 <= k < |list| ==> list[k] in repr && Owns(list[k]))
      && (forall k :: 0 <= k < |list| && k != i ==> list[k].Represents(view[k]))
      && list[i].Holds(view[i])
    }

    constructor (cap: int)
      ensures Valid() && view == [] && repr == {} && this.cap == cap
    {
      this.cap := cap;
      list, view, repr := [], [], {};
    }

    /** Replaces the simple request at position `i` by a new virtual request that holds only it. */
    method MakeVirtualRequest(i: nat) returns (virtual: RequestCell)
      requires Valid() && i < |list| && list[i].reqnb == 1
      modifies this`list, list[i]
      ensures fresh(virtual) && list == old(list)[i := virtual] && virtual.owner == null && virtual.aggHead == null
      ensures old(list[i]).owner == virtual && old(list[i]).aggHead == virtual
      ensures old(list[i]).Value() == old(list[i].Value()) && old(list[i]).IsSimple()
      ensures virtual.subRequests == [old(list[i])] && virtual.reqnb == 1
      ensures virtual.offset == view[i].offset && virtual.len == view[i].len
      ensures virtual.arrival == view[i].arrival && virtual.timestamp == view[i].timestamp
    {
      var head := list[i];
      virtual := new RequestCell(0, head.file, head.kind, head.offset, head.len, head.arrival, head.timestamp);
      list := list[i := virtual];
      head.aggHead := virtual;
      head.owner := virtual;
      virtual.subRequests := [head];
    }

    /** The first half of `include_in_aggregation`: the entry at `i` is virtual afterwards. */
    method PrepareAggregation(i: nat)
      requires Valid() && i < |list|
      modifies this, list[i]
      ensures Opened(i) && view == old(view)
      ensures list == old(list)[i := list[i]] && old(repr) <= repr && fresh(repr - old(repr))
      ensures list[i] in old(repr) ==> list[i] == old(list[i])
    {
      if list[i].reqnb == 1 {
        var virtual := MakeVirtualRequest(i);
        repr := repr + {virtual};
      }
    }

    method AttachAt(req: RequestCell, i: nat)
      requires Opened(i) && req !in repr && req.IsSimple() && view[i].members != []
      modifies this`view, this`repr, list[i], req`aggHead, req`owner
      ensures Valid() && view == old(view)[i := Absorb(old(view)[i], req.Value())]
      ensures repr == old(repr) + {req}
    {
      list[i].Attach(req, view[i]);
      repr := repr + {req};
      view := view[i := Absorb(view[i], req.Value())];
      forall k | 0 <= k < |list| && k != i ensures EntryValid(list[k], view[k]) {
        assert unchanged(list[k]);
        assert forall m :: m in list[k].subRequests ==> m != list[i] && m != req;
      }
    }

    /** Includes the simple request `req`, which is not in the queue, in the entry at position `i`. */
    method IncludeInAggregation(req: RequestCell, i: nat)
      requires Valid() && i < |list| && req !in repr && req.IsSimple()
      modifies this, repr, req
      ensures Valid() && view == old(view)[i := Absorb(old(view)[i], old(req.Value()))]
      ensures list == old(list)[i := list[i]]
      ensures req in repr && fresh(repr - old(repr) - {req}) && old(repr) <= repr
    {
      PrepareAggregation(i);
      AttachAt(req, i);
    }

    /** Takes the entry at position `k` out of the queue. */
    method DelReq(k: nat) returns (c: RequestCell)
      requires Valid() && k < |list|
      modifies this`list, this`view, this`repr
      ensures Valid() && view == Without(old(view), k) && list == Without(old(list), k)
      ensures c == old(list[k]) && c.Represents(old(view[k]))
      ensures repr == old(repr) - {c} - set m | m in c.subRequests
    {
      c := list[k];
      list := Without(list, k);
      view := Without(view, k);
      repr := repr - {c} - set m | m in c.subRequests;
      forall j | 0 <= j < |list| ensures list[j] in repr && EntryValid(list[j], view[j]) {
        assert list[j] == old(list)[if j < k then j else j + 1];
        assert view[j] == old(view)[if j < k then j else j + 1];
      }
    }

    /** The first `n` of the sub-requests `cells` of `tail` have moved to the entry at `i` of `base`. */
    ghost predicate Transferring(tail: RequestCell, cells: seq<RequestCell>, ms: seq<Request>, n: nat, i: nat,
                                 base: seq<Entry>)
      reads this, repr, tail, cells
    {
      && Valid() && i < |list| == |base| && tail !in repr
      && n <= |cells| == |ms| && tail.subRequests == cells[n..] && tail !in cells
      && view == base[i := AbsorbAll(base[i], ms[..n])]
      && (forall k :: n <= k < |cells| ==> cells[k] !in repr && cells[k].IsSimple() && cells[k].Value() == ms[k])
      && (forall j, k :: 0 <= j < k < |cells| ==> cells[j] != cells[k])
    }

    method TransferOne(tail: RequestCell, aux: RequestCell, i: nat,
                       ghost cells: seq<RequestCell>, ghost ms: seq<Request>, ghost n: nat, ghost base: seq<Entry>)
      requires Transferring(tail, cells, ms, n, i, base) && n < |cells| && aux == cells[n]
      modifies this, repr, tail, aux
      ensures Transferring(tail, cells, ms, n + 1, i, base)
      ensures list == old(list)[i := list[i]]
      ensures forall c :: c in repr ==> c in old(repr) || c == aux || fresh(c)
    {
      tail.subRequests := tail.subRequests[1..];
      IncludeInAggregation(aux, i);
      AbsorbAllSnoc(base[i], ms, n);
    }

    /** Moves the requests of the virtual request `tail`, already unlinked, to the entry at `i`. */
    method TransferAll(tail: RequestCell, i: nat, ghost e: Entry)
      requires Valid() && i < |list| && tail !in repr && tail.reqnb > 1 && tail.Holds(e)
      requires forall m :: m in tail.subRequests ==> m !in repr && m != tail
      modifies this, repr, tail, tail.subRequests
      ensures Valid() && view == old(view)[i := AbsorbAll(old(view)[i], e.members)]
      ensures list == old(list)[i := list[i]]
      ensures forall c :: c in repr ==> c in old(repr) || c in old(tail.subRequests) || fresh(c)
    {
      ghost var cells, ms, base, n := tail.subRequests, e.members, view, 0;
      var aux: RequestCell? := null;
      var todo := tail.subRequests;
      while todo != []
        invariant Transferring(tail, cells, ms, n, i, base) && list == old(list)[i := list[i]]
        invariant if aux == null then n == 0 && todo == cells
          else n < |cells| && aux == cells[n] && todo == cells[n + 1..]
        invariant forall c :: c in repr ==> c in old(repr) || c in cells || fresh(c)
        decreases |todo|
      {
        var req := todo[0];
        if aux != null {
          TransferOne(tail, aux, i, cells, ms, n, base);
          n := n + 1;
        }
        aux := req;
        todo := todo[1..];
      }
      if aux != null {
        TransferOne(tail, aux, i, cells, ms, n, base);
        assert ms[..n + 1] == ms;
      }
    }

    /** Makes one entry of those at positions `i` and `i + 1`. */
    method JoinAggregations(i: nat)
      requires Valid() && i + 1 < |list|
      modifies this, repr
      ensures Valid()
      ensures view == old(view)[..i] + [AbsorbAll(old(view)[i], old(view)[i + 1].members)] + old(view)[i + 2..]
      ensures forall c :: c in repr ==> c in old(repr) || fresh(c)
    {
      ghost var e := view[i + 1];
      assert EntryValid(list[i + 1], e);
      JoinedView(view, i, AbsorbAll(view[i], e.members));
      var tail := DelReq(i + 1);
      if tail.reqnb == 1 {
        AbsorbOnly(view[i], tail.Value(), e.members);
        IncludeInAggregation(tail, i);
      } else {
        TransferAll(tail, i, e);
      }
    }

    /** CHECK_AGGREGATE */
    static predicate CheckAggregate(a: RequestCell, b: RequestCell)
      reads a, b
    {
      a.offset <= b.offset && a.offset + a.len >= b.offset
    }

    /** The previous entry absorbs `req`; then it may be contiguous to the next one as well. */
    method AggregateWithPrevious(req: RequestCell, place: nat)
      requires Valid() && place <= |list| && req !in repr && req.IsSimple()
      requires JoinsPrevious(view, place, req.Value(), cap)
      modifies this, repr, req
      ensures Valid() && forall c :: c in repr ==> c in old(repr) || c == req || fresh(c)
      ensures view == AddAt(old(view), place, old(req.Value()), cap)
    {
      IncludeInAggregation(req, place - 1);
      if place < |list| {
        assert EntryValid(list[place - 1], view[place - 1]) && EntryValid(list[place], view[place]);
        if CheckAggregate(list[place - 1], list[place]) && list[place].reqnb + list[place - 1].reqnb <= cap {
          JoinAggregations(place - 1);
        }
      }
    }

    /**
     * Tries to aggregate `req`, whose place is right before position `place`, with its neighbours.
     * If it returns false the request still has to be inserted.
     */
    method InsertAggregations(req: RequestCell, place: nat) returns (aggregated: bool)
      requires Valid() && place <= |list| && req !in repr && req.IsSimple()
      modifies this, repr, req
      ensures Valid() && forall c :: c in repr ==> c in old(repr) || c == req || fresh(c)
      ensures aggregated ==> view == AddAt(old(view), place, old(req.Value()), cap)
      ensures !aggregated ==> view == old(view) && list == old(list) && unchanged(req) && req !in repr
      ensures aggregated <==>
              var v, r := old(view), old(req.Value());
              || (place > 0 && |v[place - 1].members| < cap
                  && v[place - 1].offset <= r.offset <= v[place - 1].offset + v[place - 1].len)
              || (place < |v| && |v[place].members| < cap && r.offset <= v[place].offset <= r.offset + r.len)
    {
      aggregated := false;
      if |list| == 0 {
        return;
      }
      if place > 0 {
        assert EntryValid(list[place - 1], view[place - 1]);
        if CheckAggregate(list[place - 1], req) && list[place - 1].reqnb + req.reqnb <= cap {
          AggregateWithPrevious(req, place);
          aggregated := true;
        }
      }
      if !aggregated && place < |list| {
        assert EntryValid(list[place], view[place]);
        if CheckAggregate(req, list[place]) && list[place].reqnb + req.reqnb <= cap {
          IncludeInAggregation(req, place);
          aggregated := true;
        }
      }
    }

    /** Inserts `req`, which nothing could absorb, before position `place`. */
    method Insert(req: RequestCell, place: nat)
      requires Valid() && place <= |list| && req !in repr && req.IsSimple() && req.owner == null
      modifies this`list, this`view, this`repr
      ensures Valid() && view == old(view)[..place] + [Lone(req.Value())] + old(view)[place..]
      ensures repr == old(repr) + {req}
    {
      list := list[..place] + [req] + list[place..];
      view := view[..place] + [Lone(req.Value())] + view[place..];
      repr := repr + {req};
      forall j | 0 <= j < |list| ensures list[j] in repr && EntryValid(list[j], view[j]) {
        if j != place {
          assert list[j] == old(list)[if j < place then j else j - 1];
          assert view[j] == old(view)[if j < place then j else j - 1];
        }
      }
    }

    /** Adds a new request to the queue: `hashtable_add_req` from the search for its place on. */
    method AddRequest(req: RequestCell)
      requires Valid() && req !in repr && req.IsSimple() && req.owner == null
      modifies this, repr, req
      ensures Valid() && view == Add(old(view), old(req.Value()), cap)
      ensures forall c :: c in repr ==> c in old(repr) || c == req || fresh(c)
    {
      ghost var r := req.Value();
      var place := |list|;
      var i := 0;
      while i < |list|
        invariant i <= |list| && place == |list|
        invariant forall k :: 0 <= k < i ==> !StopsAt(view[k], r)
      {
        var tmp := list[i];
        assert EntryValid(list[i], view[i]);
        if tmp.offset > req.offset || (tmp.offset == req.offset && tmp.len > req.len) {
          place := i;
          break;
        }
        i := i + 1;
      }
      assert place == InsertionPoint(view, r);
      var aggregated := InsertAggregations(req, place);
      if !aggregated {
        Insert(req, place);
      }
    }

    /** Takes sub-request `j` out of the virtual request at position `k` and recomputes the rest. */
    method RemoveMember(k: nat, j: nat)
      requires Valid() && k < |list| && list[k].reqnb > 1 && j < |list[k].subRequests|
      modifies this`view, list[k]
      ensures Opened(k) && list[k].subRequests == Without(old(list[k].subRequests), j)
      ensures view == old(view)[k := Recomputed(Without(old(view)[k].members, j))]
    {
      var req := list[k];
      ghost var e := view[k];
      assert EntryValid(req, e);
      req.Drop(j, e);
      view := view[k := Recomputed(Without(e.members, j))];
      forall i | 0 <= i < |list| && i != k ensures Owns(list[i]) && list[i].Represents(view[i]) {
        assert unchanged(list[i]);
        assert forall m :: m in list[i].subRequests ==> m != req;
      }
    }

    /** Puts the only sub-request of a virtual request back in its place. */
    method Unwrap(k: nat)
      requires Opened(k) && list[k].reqnb == 1 && view[k] == Lone(view[k].members[0])
      modifies this`list, this`repr, list[k].subRequests
      ensures Valid() && repr <= old(repr)
    {
      var tmp := list[k].subRequests[0];
      repr := repr - {list[k]};
      list := list[k := tmp];
      tmp.owner := null;
    }

    method CancelMember(k: nat, j: nat)
      requires Valid() && k < |list| && list[k].reqnb > 1 && j < |list[k].subRequests|
      modifies this, list[k], list[k].subRequests
      ensures Valid() && repr <= old(repr)
      ensures view == old(view)[k := Recomputed(Without(old(view)[k].members, j))]
    {
      RemoveMember(k, j);
      if list[k].reqnb == 1 {
        Unwrap(k);
      }
    }

    /** The search through the sub-requests of a virtual request. */
    method FindMember(k: nat, len: int, offset: int) returns (j: nat)
      requires Valid() && k < |list| && list[k].reqnb > 1
      ensures j == FirstMatch(view[k].members, len, offset) <= |list[k].subRequests| == |view[k].members|
    {
      var req := list[k];
      assert EntryValid(req, view[k]);
      j := 0;
      while j < |req.subRequests| && !(req.subRequests[j].len == len && req.subRequests[j].offset == offset)
        invariant j <= |req.subRequests|
        invariant forall i :: 0 <= i < j ==> !Matches(view[k].members[i], len, offset)
      {
        j := j + 1;
      }
    }

    /** Cancels the first queued request that the search finds for `len` and `offset`. */
    method CancelRequest(len: int, offset: int) returns (found: bool)
      requires Valid()
      modifies this, repr
      ensures Valid() && repr <= old(repr)
      ensures view == Cancel(old(view), len, offset)
      ensures found <==> FindEntry(old(view), len, offset) < |old(view)|
    {
      found := false;
      var k := 0;
      while k < |list|
        invariant k <= |list| && view == old(view) && list == old(list) && Valid() && repr == old(repr)
        invariant forall i :: 0 <= i < k ==> !FoundIn(view[i], len, offset)
      {
        var req := list[k];
        assert EntryValid(req, view[k]);
        if req.reqnb == 1 {
          if req.len == len && req.offset == offset {
            FoundAt(view, k, len, offset);
            var _ := DelReq(k);
            return true;
          }
        } else if req.offset <= offset && req.offset + req.len >= offset + len {
          var j := FindMember(k, len, offset);
          if j < |req.subRequests| {
            FoundAt(view, k, len, offset);
            CancelMember(k, j);
            return true;
          }
        }
        k := k + 1;
      }
      FoundAt(view, k, len, offset);
    }
  }

  /** The search ends where the first entry is that holds a match. */
  lemma FoundAt(q: seq<Entry>, k: nat, len: int, offset: int)
    requires k <= |q| && (forall i :: 0 <= i < k ==> !FoundIn(q[i], len, offset))
    requires k < |q| ==> FoundIn(q[k], len, offset)
    ensures k == FindEntry(q, len, offset)
  {
  }
}
