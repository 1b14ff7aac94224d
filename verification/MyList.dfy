/**
 * The intrusive circular doubly linked list with a sentinel. The pointer operations are proved to
 * insert into and remove from the sequence of linked nodes, and the loops that stay one step behind
 * their iterator to visit every node once although each visited node is linked elsewhere.
 */
module MyList {

  class ListHead {
    var prev: ListHead
    var next: ListHead

    /** `init_agios_list_head` */
    constructor ()
      ensures Ring([this])
    {
      prev, next := this, this;
    }
  }

  /** The node after position `k` of a ring. */
  function After(c: seq<ListHead>, k: nat): ListHead
    requires k < |c|
  {
    if k + 1 == |c| then c[0] else c[k + 1]
  }

  ghost predicate Linked(a: ListHead, b: ListHead)
    reads a, b
  {
    a.next == b && b.prev == a
  }

  ghost predicate Distinct(c: seq<ListHead>)
  {
    forall i, j :: 0 <= i < j < |c| ==> c[i] != c[j]
  }

  /** `c` lists the nodes of a circular list, the sentinel first. */
  ghost predicate Ring(c: seq<ListHead>)
    reads c
  {
    && c != []
    && Distinct(c)
    && (forall k :: 0 <= k < |c| ==> Linked(c[k], After(c, k)))
  }

  /** The links determine the sequence, position by position. */
  lemma {:induction false} SamePrefix(c: seq<ListHead>, d: seq<ListHead>, n: nat)
    requires Ring(c) && Ring(d) && c[0] == d[0] && n < |c|
    ensures n < |d| && c[n] == d[n]
  {
    if n == 0 {
    } else {
      SamePrefix(c, d, n - 1);
      assert Linked(c[n - 1], After(c, n - 1)) && Linked(d[n - 1], After(d, n - 1));
      assert c[n] != c[0];
    }
  }

  /** Two descriptions of a list with the same sentinel are the same: the links determine the sequence. */
  lemma LinksDetermineSequence(c: seq<ListHead>, d: seq<ListHead>)
    requires Ring(c) && Ring(d) && c[0] == d[0]
    ensures c == d
  {
    SamePrefix(c, d, |c| - 1);
    SamePrefix(d, c, |d| - 1);
    forall k | 0 <= k < |c| ensures c[k] == d[k] {
      SamePrefix(c, d, k);
    }
  }

  /** No two nodes have the same successor. */
  lemma AfterInjective(c: seq<ListHead>, j: nat, k: nat)
    requires Distinct(c) && j < |c| && k < |c| && j != k
    ensures After(c, j) != After(c, k)
  {
  }

  lemma AddedRing(c: seq<ListHead>, k: nat, node: ListHead)
    requires Distinct(c) && k < |c| && node !in c
    requires forall j :: 0 <= j < |c| && j != k ==> Linked(c[j], After(c, j))
    requires Linked(c[k], node) && Linked(node, After(c, k))
    ensures Ring(c[..k + 1] + [node] + c[k + 1..])
  {
    var d := c[..k + 1] + [node] + c[k + 1..];
    assert forall i :: 0 <= i < |d| ==> d[i] == if i <= k then c[i] else if i == k + 1 then node else c[i - 1];
    forall i | 0 <= i < |d| ensures Linked(d[i], After(d, i)) {
      if i < k {
        assert After(d, i) == After(c, i);
      } else if i == k {
        assert After(d, i) == node;
      } else if i == k + 1 {
        assert After(d, i) == After(c, k);
      } else {
        assert After(d, i) == After(c, i - 1);
      }
    }
  }

  /** `__agios_list_add` */
  method AddBetween(node: ListHead, prev: ListHead, next: ListHead, ghost c: seq<ListHead>, ghost k: nat)
    requires Ring(c) && k < |c| && prev == c[k] && next == After(c, k) && node !in c
    modifies node, prev, next
    ensures Ring(c[..k + 1] + [node] + c[k + 1..])
  {
    next.prev := node;
    node.next := next;
    node.prev := prev;
    prev.next := node;
    forall j | 0 <= j < |c| && j != k ensures Linked(c[j], After(c, j)) {
      AfterInjective(c, j, k);
    }
    AddedRing(c, k, node);
  }

  /** `agios_list_add`: right after the sentinel. */
  method Add(node: ListHead, head: ListHead, ghost c: seq<ListHead>)
    requires Ring(c) && head == c[0] && node !in c
    modifies node, head, head.next
    ensures Ring([head, node] + c[1..])
  {
    AddBetween(node, head, head.next, c, 0);
    assert c[..1] + [node] + c[1..] == [head, node] + c[1..];
  }

  /** `agios_list_add_tail`: right before the sentinel. */
  method AddTail(node: ListHead, head: ListHead, ghost c: seq<ListHead>)
    requires Ring(c) && head == c[0] && node !in c
    modifies node, head, head.prev
    ensures Ring(c + [node])
  {
    assert head.prev == c[|c| - 1] by { assert After(c, |c| - 1) == c[0]; }
    AddBetween(node, head.prev, head, c, |c| - 1);
    assert c[..|c|] + [node] + c[|c|..] == c + [node];
  }

  lemma RemovedRing(c: seq<ListHead>, k: nat)
    requires Distinct(c) && 0 < k < |c|
    requires forall j :: 0 <= j < |c| && j != k - 1 && j != k ==> Linked(c[j], After(c, j))
    requires Linked(c[k - 1], After(c, k))
    ensures Ring(c[..k] + c[k + 1..])
  {
    var d := c[..k] + c[k + 1..];
    assert forall i :: 0 <= i < |d| ==> d[i] == if i < k then c[i] else c[i + 1];
    forall i | 0 <= i < |d| ensures Linked(d[i], After(d, i)) {
      if i < k - 1 {
        assert After(d, i) == After(c, i);
      } else if i == k - 1 {
        assert After(d, i) == After(c, k);
      } else {
        assert After(d, i) == After(c, i + 1);
      }
    }
  }

  /** `agios_list_del`: the node is unlinked and becomes a list of its own. */
  method Del(entry: ListHead, ghost c: seq<ListHead>, ghost k: nat)
    requires Ring(c) && 0 < k < |c| && entry == c[k]
    modifies entry, entry.prev, entry.next
    ensures Ring(c[..k] + c[k + 1..]) && Ring([entry])
  {
    assert Linked(c[k - 1], After(c, k - 1)) && Linked(c[k], After(c, k));
    var prev, next := entry.prev, entry.next;
    next.prev := prev;
    prev.next := next;
    entry.next := entry;
    entry.prev := entry;
    forall j | 0 <= j < |c| && j != k - 1 && j != k ensures Linked(c[j], After(c, j)) {
      AfterInjective(c, j, k - 1);
      AfterInjective(c, j, k);
    }
    RemovedRing(c, k);
  }

  /** `agios_list_empty` */
  method Empty(head: ListHead, ghost c: seq<ListHead>) returns (empty: bool)
    requires Ring(c) && head == c[0]
    ensures empty <==> c == [head]
  {
    assert Linked(c[0], After(c, 0));
    empty := head.next == head;
  }

  /** The two lists have no node in common. */
  ghost predicate Separate(c: seq<ListHead>, d: seq<ListHead>)
  {
    forall i, j :: 0 <= i < |c| && 0 <= j < |d| ==> c[i] != d[j]
  }

  method DelFirst(node: ListHead, ghost c: seq<ListHead>)
    requires Ring(c) && |c| > 1 && node == c[1]
    modifies c
    ensures Ring([c[0]] + c[2..]) && node !in [c[0]] + c[2..]
  {
    assert Linked(c[0], After(c, 0)) && Linked(c[1], After(c, 1));
    assert node.prev in c && node.next in c;
    Del(node, c, 1);
    assert c[..1] + c[2..] == [c[0]] + c[2..];
  }

  method Append(node: ListHead, head: ListHead, ghost c: seq<ListHead>)
    requires Ring(c) && head == c[0] && node !in c
    modifies node, c
    ensures Ring(c + [node])
  {
    assert Linked(c[|c| - 1], After(c, |c| - 1));
    assert head.prev in c;
    AddTail(node, head, c);
  }

  ghost predicate Within(c: seq<ListHead>, d: seq<ListHead>, e: seq<ListHead>)
  {
    forall i :: 0 <= i < |c| ==> c[i] in d || c[i] in e
  }

  // ---------------------------------------------------------------------------------------------
  // Moving all nodes to another list
  // ---------------------------------------------------------------------------------------------

  /** The sequence `d` with `node` after at most `k` nodes behind the sentinel. */
  function Inserted(d: seq<ListHead>, node: ListHead, k: nat): seq<ListHead>
  {
    if k + 1 < |d| then d[..k + 1] + [node] + d[k + 1..] else d + [node]
  }

  /** `nodes` inserted one after the other, the one at index `n` at the place `places(n)`. */
  function Relinked(d: seq<ListHead>, nodes: seq<ListHead>, places: nat -> nat): seq<ListHead>
  {
    if nodes == [] then d else
      var n := |nodes| - 1;
      Inserted(Relinked(d, nodes[..n], places), nodes[n], places(n))
  }

  /** Wherever the nodes go, the sentinel stays the first and every node is there once. */
  lemma {:induction false} RelinkedKeepsNodes(d: seq<ListHead>, nodes: seq<ListHead>, places: nat -> nat)
    requires d != []
    ensures var r := Relinked(d, nodes, places);
            |r| == |d| + |nodes| && r[0] == d[0] && multiset(r) == multiset(d) + multiset(nodes)
    decreases |nodes|
  {
    if nodes == [] {
    } else {
      var n := |nodes| - 1;
      RelinkedKeepsNodes(d, nodes[..n], places);
      InsertedKeepsNodes(Relinked(d, nodes[..n], places), nodes[n], places(n));
      assert nodes == nodes[..n] + [nodes[n]];
    }
  }

  lemma InsertedKeepsNodes(d: seq<ListHead>, node: ListHead, k: nat)
    requires d != []
    ensures var r := Inserted(d, node, k); |r| == |d| + 1 && r[0] == d[0] && multiset(r) == multiset(d) + multiset{node}
  {
    assert k + 1 < |d| ==> d == d[..k + 1] + d[k + 1..];
  }

  /** Nodes that always go to the end are appended in their order. */
  lemma {:induction false} RelinkedAtEnd(d: seq<ListHead>, nodes: seq<ListHead>, places: nat -> nat)
    requires d != [] && forall n :: 0 <= n < |nodes| ==> places(n) + 1 >= |d| + n
    ensures Relinked(d, nodes, places) == d + nodes
    decreases |nodes|
  {
    if nodes == [] {
    } else {
      var n := |nodes| - 1;
      RelinkedAtEnd(d, nodes[..n], places);
      assert d + nodes == (d + nodes[..n]) + [nodes[n]];
    }
  }

  /** Goes past at most `k` nodes and inserts the node there, as the search for a place by timestamp does. */
  method InsertAt(node: ListHead, head: ListHead, k: nat, ghost d: seq<ListHead>)
    requires Ring(d) && head == d[0] && node !in d
    modifies node, d
    ensures Ring(Inserted(d, node, k))
  {
    var prev, n := head, 0;
    assert Linked(d[0], After(d, 0));
    while n < k && prev.next != head
      invariant n <= k && n < |d| && prev == d[n]
    {
      assert Linked(d[n], After(d, n));
      prev := prev.next;
      n := n + 1;
    }
    assert Linked(d[n], After(d, n)) && prev.next in d;
    assert n < k ==> n + 1 == |d|;
    AddBetween(node, prev, prev.next, d, n);
    assert n + 1 == |d| ==> d[..n + 1] + [node] + d[n + 1..] == d + [node];
  }

  /** Unlinks the first node of one list and inserts it in the other; all nodes are of `cs` and `cd`. */
  method MoveFirst(aux: ListHead, dst: ListHead, k: nat, ghost rest: seq<ListHead>, ghost done: seq<ListHead>,
                   ghost cs: seq<ListHead>, ghost cd: seq<ListHead>)
    requires Ring(rest) && Ring(done) && Separate(rest, done) && |rest| > 1 && aux == rest[1] && dst == done[0]
    requires Within(rest, cs, cd) && Within(done, cs, cd)
    modifies cs, cd
    ensures Ring([rest[0]] + rest[2..]) && Ring(Inserted(done, aux, k))
  {
    DelFirst(aux, rest);
    InsertAt(aux, dst, k, done);
  }

  /** What the moved nodes and those still to be moved amount to. */
  ghost predicate Moved(cs: seq<ListHead>, cd: seq<ListHead>, places: nat -> nat, visited: seq<ListHead>,
                        rest: seq<ListHead>)
    reads rest, Relinked(cd, visited, places)
  {
    && cs != [] && Ring(rest) && Ring(Relinked(cd, visited, places)) && Separate(rest, Relinked(cd, visited, places))
    && rest[0] == cs[0] && cs[1..] == visited + rest[1..]
  }

  lemma MovedWithin(cs: seq<ListHead>, cd: seq<ListHead>, places: nat -> nat, visited: seq<ListHead>,
                    rest: seq<ListHead>)
    requires Moved(cs, cd, places, visited, rest) && cd != []
    ensures Within(rest, cs, cd) && Within(Relinked(cd, visited, places), cs, cd)
  {
    forall i | 0 <= i < |rest| ensures rest[i] in cs {
      if i > 0 {
        assert rest[i] == cs[1..][|visited| + i - 1];
      }
    }
    RelinkedKeepsNodes(cd, visited, places);
    var done := Relinked(cd, visited, places);
    forall i | 0 <= i < |done| ensures done[i] in cs || done[i] in cd {
      assert done[i] in multiset(done);
      if done[i] in visited {
        var k :| 0 <= k < |visited| && visited[k] == done[i];
        assert cs[1..][k] == done[i];
      }
    }
  }

  lemma NextMoved(node: ListHead, cd: seq<ListHead>, places: nat -> nat, visited: seq<ListHead>, rest: seq<ListHead>)
    requires |rest| > 1 && node == rest[1]
    ensures Relinked(cd, visited + [node], places) == Inserted(Relinked(cd, visited, places), node, places(|visited|))
    ensures visited + rest[1..] == visited + [node] + ([rest[0]] + rest[2..])[1..]
  {
    assert (visited + [node])[..|visited|] == visited;
  }

  lemma StillSeparate(rest: seq<ListHead>, done: seq<ListHead>, k: nat)
    requires Distinct(rest) && Separate(rest, done) && |rest| > 1 && done != []
    ensures Separate([rest[0]] + rest[2..], Inserted(done, rest[1], k))
  {
    var left, more := [rest[0]] + rest[2..], Inserted(done, rest[1], k);
    InsertedKeepsNodes(done, rest[1], k);
    forall i, j | 0 <= i < |left| && 0 <= j < |more| ensures left[i] != more[j] {
      assert left[i] == rest[if i == 0 then 0 else i + 1];
      assert more[j] in multiset(more);
      if more[j] in done {
        var m :| 0 <= m < |done| && done[m] == more[j];
      }
    }
  }

  method MoveNext(node: ListHead, dst: ListHead, places: nat -> nat, ghost cs: seq<ListHead>, ghost cd: seq<ListHead>,
                  visited: seq<ListHead>, ghost rest: seq<ListHead>)
    requires cd != [] && dst == cd[0] && Moved(cs, cd, places, visited, rest) && |rest| > 1 && node == rest[1]
    modifies cs, cd
    ensures Moved(cs, cd, places, visited + [node], [rest[0]] + rest[2..])
  {
    ghost var done := Relinked(cd, visited, places);
    MovedWithin(cs, cd, places, visited, rest);
    RelinkedKeepsNodes(cd, visited, places);
    NextMoved(node, cd, places, visited, rest);
    StillSeparate(rest, done, places(|visited|));
    MoveFirst(node, dst, places(|visited|), rest, done, cs, cd);
  }

  /**
   * The loop of `join_aggregations` and of the migrations: each node is unlinked from the list of
   * `src`, and inserted in that of `dst` at any place, after the iterator has moved past it.
   */
  method MoveAll(src: ListHead, dst: ListHead, places: nat -> nat, ghost cs: seq<ListHead>, ghost cd: seq<ListHead>)
    returns (visited: seq<ListHead>)
    requires Ring(cs) && Ring(cd) && src == cs[0] && dst == cd[0] && Separate(cs, cd)
    modifies cs, cd
    ensures visited == cs[1..] && Ring([src]) && Ring(Relinked(cd, cs[1..], places))
  {
    visited := [];
    ghost var rest := cs;
    assert Linked(cs[0], After(cs, 0));
    var req := src.next;
    var aux: ListHead? := null;
    while req != src
      invariant Moved(cs, cd, places, visited, rest)
      invariant if aux == null then req == After(rest, 0) else |rest| > 1 && aux == rest[1] && req == After(rest, 1)
      decreases |rest|, aux == null
    {
      if aux != null {
        var node: ListHead := aux;
        MoveNext(node, dst, places, cs, cd, visited, rest);
        rest := [rest[0]] + rest[2..];
        visited := visited + [node];
      }
      aux := req;
      assert Linked(rest[1], After(rest, 1));
      req := req.next;
    }
    if aux != null {
      var node: ListHead := aux;
      MoveNext(node, dst, places, cs, cd, visited, rest);
      rest := [rest[0]] + rest[2..];
      visited := visited + [node];
    }
    assert rest == [src];
  }

  /**
   * The loop of `process_requests_step1`: a node is appended to the dispatch list without being
   * unlinked, which overwrites its links only after the iterator has read them.
   */
  method DispatchAll(src: ListHead, dst: ListHead, ghost cs: seq<ListHead>, ghost cd: seq<ListHead>)
    returns (visited: seq<ListHead>)
    requires Ring(cs) && Ring(cd) && src == cs[0] && dst == cd[0] && Separate(cs, cd)
    modifies cs[1..], cd
    ensures visited == cs[1..] && Ring(cd + cs[1..])
  {
    visited := [];
    assert Linked(cs[0], After(cs, 0)) && cd + visited == cd;
    var req := src.next;
    var aux: ListHead? := null;
    ghost var n := 0;
    while req != src
      invariant 0 <= n < |cs| && req == After(cs, n) && aux == (if n == 0 then null else cs[n])
      invariant visited == (if n == 0 then [] else cs[1..n]) && Ring(cd + visited)
      invariant forall j :: n < j < |cs| ==> cs[j].next == After(cs, j)
      decreases |cs| - n
    {
      if aux != null {
        var node: ListHead := aux;
        DispatchNode(node, dst, cs, cd, n);
        visited := visited + [node];
      }
      aux := req;
      req := req.next;
      n := n + 1;
    }
    if aux != null {
      var node: ListHead := aux;
      DispatchNode(node, dst, cs, cd, n);
      visited := visited + [node];
    }
  }

  method DispatchNode(node: ListHead, dst: ListHead, ghost cs: seq<ListHead>, ghost cd: seq<ListHead>, ghost n: nat)
    requires Distinct(cs) && cd != [] && dst == cd[0] && Separate(cs, cd)
    requires 0 < n < |cs| && node == cs[n] && Ring(cd + cs[1..n])
    requires forall j :: n < j < |cs| ==> cs[j].next == After(cs, j)
    modifies cs[1..], cd
    ensures cs[1..n] + [node] == cs[1..n + 1] && Ring(cd + cs[1..n + 1])
    ensures forall j :: n < j < |cs| ==> cs[j].next == After(cs, j)
  {
    assert forall i :: 1 <= i < |cs| ==> cs[i] in cs[1..];
    NotMovedYet(cs, cd, n);
    Append(node, dst, cd + cs[1..n]);
  }

  lemma NotMovedYet(cs: seq<ListHead>, cd: seq<ListHead>, n: nat)
    requires Distinct(cs) && Separate(cs, cd) && 0 < n < |cs|
    ensures forall j :: n <= j < |cs| ==> cs[j] !in cd + cs[1..n]
    ensures cs[1..n] + [cs[n]] == cs[1..n + 1] && cd + cs[1..n] + [cs[n]] == cd + cs[1..n + 1]
  {
    var done := cd + cs[1..n];
    assert forall i :: 0 <= i < |done| ==> done[i] == if i < |cd| then cd[i] else cs[1 + i - |cd|];
  }
}
