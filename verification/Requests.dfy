/** Requests and the entries of request queues, as values. */
module Requests {
  import opened Sequences

  datatype Kind = Read | Write

  /** One request of the user. `file` stands for the file handle. */
  datatype Request = Request(userId: int, file: int, kind: Kind, offset: int, len: int, arrival: int, timestamp: int)
  {
    function End(): int { offset + len }
  }

  /**
   * An entry of a queue: a simple request (one member, the request itself), or a virtual request
   * with the list of the requests aggregated into it.
   */
  datatype Entry = Entry(offset: int, len: int, arrival: int, timestamp: int, members: seq<Request>)
  {
    function End(): int { offset + len }
    function Size(): nat { |members| }
  }

  function Lone(r: Request): Entry
  {
    Entry(r.offset, r.len, r.arrival, r.timestamp, [r])
  }

  /** All requests held by a queue, in queue order and member order. */
  function Members(q: seq<Entry>): seq<Request>
  {
    if q == [] then [] else q[0].members + Members(q[1..])
  }

  lemma {:induction false} MembersConcat(a: seq<Entry>, b: seq<Entry>)
    ensures Members(a + b) == Members(a) + Members(b)
  {
    if a == [] {
      assert a + b == b;
    } else {
      assert (a + b)[1..] == a[1..] + b;
      MembersConcat(a[1..], b);
      Regroup(a[0].members, Members(a[1..]), Members(b));
    }
  }

  lemma MembersSingle(e: Entry)
    ensures Members([e]) == e.members
  {
    assert [e][1..] == [];
    assert Members([e]) == e.members + Members([]);
  }

  /** Replacing the entries [i..j) of a queue by `mid`, in terms of its requests. */
  lemma MembersSplice(q: seq<Entry>, i: nat, j: nat, mid: seq<Entry>)
    requires i <= j <= |q|
    ensures Members(q) == Members(q[..i]) + Members(q[i..j]) + Members(q[j..])
    ensures Members(q[..i] + mid + q[j..]) == Members(q[..i]) + Members(mid) + Members(q[j..])
  {
    MembersConcat(q[..i] + mid, q[j..]);
    MembersConcat(q[..i], mid);
    assert q == q[..i] + q[i..j] + q[j..];
    MembersConcat(q[..i] + q[i..j], q[j..]);
    MembersConcat(q[..i], q[i..j]);
  }

  lemma {:induction false} InMembers(q: seq<Entry>, r: Request)
    ensures r in Members(q) <==> exists k :: 0 <= k < |q| && r in q[k].members
  {
    if q == [] {
    } else {
      InMembers(q[1..], r);
      if r in Members(q[1..]) {
        var k :| 0 <= k < |q[1..]| && r in q[1..][k].members;
        assert r in q[k + 1].members;
      }
      if k :| 0 <= k < |q| && r in q[k].members {
        if k > 0 { assert r in q[1..][k - 1].members; }
      }
    }
  }

  /** A request that arrives at, or is sent from, one of several queues. */
  datatype Arrival = Arrival(queue: nat, request: Request)

  const BATCH: seq<Arrival> -> int := (b: seq<Arrival>) => |b|

  const SIZE: seq<Request> -> int := (q: seq<Request>) => |q|
}
