/** The intrusive circular doubly linked list that holds every collection of the port
    mapper, and its consistency checker. */
module CcanLists {
  import opened Seqs

  class ListNode {
    var next: ListNode?
    var prev: ListNode?

    /** list_node_init, and list_head_init. */
    constructor ()
      ensures Ring([this])
    {
      next, prev := this, this;
    }
  }

  ghost predicate Distinct(r: seq<ListNode>) {
    forall i, j :: 0 <= i < j < |r| ==> r[i] != r[j]
  }

  /** Each node is linked to the one after it, and it back. */
  ghost predicate Linked(r: seq<ListNode>)
    reads r
  {
    && (forall i {:trigger r[i].next} :: 0 <= i < |r| - 1 ==> r[i].next == r[i + 1])
    && (forall i {:trigger r[i].prev} :: 1 <= i < |r| ==> r[i].prev == r[i - 1])
  }

  /** A well-formed ring, written from any of its nodes. */
  ghost predicate Ring(r: seq<ListNode>)
    reads r
  {
    |r| > 0 && Distinct(r) && Linked(r) && r[|r| - 1].next == r[0] && r[0].prev == r[|r| - 1]
  }

  /** The list with head `h` and elements `s`. */
  ghost predicate IsList(h: ListNode, s: seq<ListNode>)
    reads h, s
  {
    Ring([h] + s)
  }

  // ------------------------------------------------------------ the checker

  datatype Check = Consistent | Corrupt(node: ListNode, count: nat)

  /** Every link leads to a node of `heap`. */
  ghost predicate Closed(heap: set<ListNode>)
    reads heap
  {
    forall n :: n in heap ==> n.next != null && n.next in heap
  }

  /** list_check_node without an abort string. The walk stops on every finite heap, even one
      whose links run into a loop that misses the start: a node met twice has its true
      predecessor in `prev` and fails the test. It succeeds exactly on a well-formed ring. */
  method ListCheckNode(node: ListNode, ghost heap: set<ListNode>) returns (c: Check)
    requires node in heap && Closed(heap)
    ensures c == Consistent <==> exists r: seq<ListNode> :: |r| > 0 && r[0] == node && Ring(r)
    ensures c.Corrupt? ==> c.node in heap && (c.node == node <==> c.count == 0)
  {
    var p: ListNode, n: ListNode := node, node.next;
    var count := 0;
    ghost var path: seq<ListNode> := [node];
    while n != node
      invariant |path| > 0 && path[0] == node && path[|path| - 1] == p && p.next == n && n in heap && p in heap
      invariant Distinct(path) && Linked(path) && |path| == count + 1
      invariant forall x :: x in path ==> x in heap
      decreases |heap| - |path|
    {
      count := count + 1;
      if n.prev != p {
        NotOnRing(path, n);
        return Corrupt(n, count);
      }
      assert n !in path;
      path := path + [n];
      DistinctFits(path, heap);
      p, n := n, n.next;
    }
    if node.prev != p {
      NotOnRing(path, n);
      return Corrupt(node, 0);
    }
    assert Ring(path);
    return Consistent;
  }

  /** The walk from a node of a ring follows the ring. */
  lemma {:induction false} WalkFollowsRing(path: seq<ListNode>, r: seq<ListNode>, k: nat)
    requires Ring(r) && |path| > 0 && path[0] == r[0] && Linked(path) && k < |path|
    requires forall i :: 1 <= i < |path| ==> path[i] != path[0]
    ensures k < |r| && path[k] == r[k]
  {
    if k > 0 {
      WalkFollowsRing(path, r, k - 1);
      assert path[k - 1].next == path[k];
    }
  }

  /** A failed test on the next node shows the start is on no ring. */
  lemma NotOnRing(path: seq<ListNode>, n: ListNode)
    requires |path| > 0 && Distinct(path) && Linked(path)
    requires path[|path| - 1].next == n && n.prev != path[|path| - 1]
    ensures !exists r: seq<ListNode> :: |r| > 0 && r[0] == path[0] && Ring(r)
  {
    forall r: seq<ListNode> | |r| > 0 && r[0] == path[0] ensures !Ring(r) {
      if Ring(r) {
        WalkFollowsRing(path, r, |path| - 1);
      }
    }
  }

  // ------------------------------------------------------------ operations

  /** list_add_after_. */
  method ListAddAfter(p: ListNode, n: ListNode, ghost r: seq<ListNode>, ghost k: nat)
    requires Ring(r) && k < |r| && r[k] == p && n !in r
    modifies n, p, p.next
    ensures Ring(r[..k + 1] + [n] + r[k + 1..])
  {
    n.next := p.next;
    n.prev := p;
    p.next.prev := n;
    p.next := n;
  }

  /** list_add_before_: before the head means at the end. */
  method ListAddBefore(p: ListNode, n: ListNode, ghost r: seq<ListNode>, ghost k: nat)
    requires Ring(r) && k < |r| && r[k] == p && n !in r
    modifies n, p, p.prev
    ensures k == 0 ==> Ring(r + [n])
    ensures k > 0 ==> Ring(r[..k] + [n] + r[k..])
  {
    n.next := p;
    n.prev := p.prev;
    p.prev.next := n;
    p.prev := n;
  }

  /** list_add: at the start of the list. */
  method ListAdd(h: ListNode, n: ListNode, ghost s: seq<ListNode>)
    requires IsList(h, s) && n != h && n !in s
    modifies n, h, h.next
    ensures IsList(h, [n] + s)
  {
    ListAddAfter(h, n, [h] + s, 0);
    assert ([h] + s)[..1] + [n] + ([h] + s)[1..] == [h] + ([n] + s);
  }

  /** list_add_tail: at the end of the list. */
  method ListAddTail(h: ListNode, n: ListNode, ghost s: seq<ListNode>)
    requires IsList(h, s) && n != h && n !in s
    modifies n, h, h.prev
    ensures IsList(h, s + [n])
  {
    ListAddBefore(h, n, [h] + s, 0);
    assert [h] + s + [n] == [h] + (s + [n]);
  }

  /** list_del_: takes a node off its ring; a node alone on its ring stays there. */
  method ListDel(n: ListNode, ghost r: seq<ListNode>, ghost k: nat)
    requires Ring(r) && k < |r| && r[k] == n
    modifies n.next, n.prev
    ensures |r| > 1 ==> Ring(r[..k] + r[k + 1..]) && n.next == old(n.next) && n.prev == old(n.prev)
    ensures |r| == 1 ==> Ring(r)
  {
    n.next.prev := n.prev;
    n.prev.next := n.next;
  }

  /** list_empty. */
  method ListEmpty(h: ListNode, ghost s: seq<ListNode>) returns (b: bool)
    requires IsList(h, s)
    ensures b <==> s == []
  {
    assert ([h] + s)[0] == h;
    b := h.next == h;
  }

  /** list_swap_: `n` takes the place of `o`, which must not be alone on its ring; if it is, as no
      element of a list with a head is, the two end up on one ring together. */
  method ListSwap(o: ListNode, n: ListNode, ghost r: seq<ListNode>, ghost k: nat)
    requires Ring(r) && k < |r| && r[k] == o && n !in r
    modifies n, o, o.next, o.prev
    ensures |r| > 1 ==> Ring(r[k := n])
    ensures |r| == 1 ==> Ring([n, o])
  {
    n.next, n.prev := o.next, o.prev;
    n.next.prev := n;
    n.prev.next := n;
  }

  /** list_pop: the first element, taken off the list, or nothing. */
  method ListPop(h: ListNode, ghost s: seq<ListNode>) returns (n: ListNode?)
    requires IsList(h, s)
    modifies h, s
    ensures s == [] ==> n == null && IsList(h, [])
    ensures s != [] ==> n == s[0] && IsList(h, s[1..])
  {
    var empty := ListEmpty(h, s);
    if empty { return null; }
    assert ([h] + s)[0] == h && ([h] + s)[1] == s[0];
    n := h.next;
    ListDel(n, [h] + s, 1);
    assert ([h] + s)[..1] + ([h] + s)[2..] == [h] + s[1..];
  }

  lemma DisjointAt(a: seq<ListNode>, b: seq<ListNode>)
    requires forall x :: x in a ==> x !in b
    ensures forall i, j :: 0 <= i < |a| && 0 <= j < |b| ==> a[i] != b[j]
  {
    forall i, j | 0 <= i < |a| && 0 <= j < |b| ensures a[i] != b[j] {
      assert a[i] in a && b[j] in b;
    }
  }

  lemma ConcatDistinct(a: seq<ListNode>, b: seq<ListNode>)
    requires Distinct(a) && Distinct(b) && forall x :: x in a ==> x !in b
    ensures Distinct(a + b)
  {
    forall i, j | 0 <= i < j < |a + b| ensures (a + b)[i] != (a + b)[j] {
      if i < |a| <= j { assert a[i] in a && b[j - |a|] in b; }
    }
  }

  /** Two chains joined by one link each way. */
  lemma ConcatLinked(a: seq<ListNode>, b: seq<ListNode>)
    requires Linked(a) && Linked(b)
    requires a != [] && b != [] ==> a[|a| - 1].next == b[0] && b[0].prev == a[|a| - 1]
    ensures Linked(a + b)
  {
  }

  /** The first half of list_append_list_: the whole ring of `from` sewn in before `to`. */
  method SewBefore(to: ListNode, from: ListNode, ghost rt: seq<ListNode>, ghost rf: seq<ListNode>)
    requires Ring(rt) && Ring(rf) && rt[0] == to && rf[0] == from && forall x :: x in rt ==> x !in rf
    modifies to, from, to.prev, from.prev
    ensures Ring(rt + rf)
  {
    DisjointAt(rt, rf);
    var fromTail, toTail := from.prev, to.prev;
    to.prev := fromTail;
    fromTail.next := to;
    toTail.next := from;
    from.prev := toTail;
    assert Linked(rt) && Linked(rf);
    ConcatDistinct(rt, rf);
    ConcatLinked(rt, rf);
  }

  lemma WithoutMiddle(to: ListNode, from: ListNode, f: seq<ListNode>, t: seq<ListNode>)
    ensures var all := [to] + t + ([from] + f); all[..1 + |t|] + all[2 + |t|..] == [to] + (t + f)
  {
  }

  /** list_append_list_: all of `from` moves to the end of `to`, either may be empty. */
  method ListAppendList(to: ListNode, from: ListNode, ghost t: seq<ListNode>, ghost f: seq<ListNode>)
    requires IsList(to, t) && IsList(from, f)
    requires forall x :: x in [to] + t ==> x !in [from] + f
    modifies to, from, t, f
    ensures IsList(to, t + f) && IsList(from, [])
  {
    SewBefore(to, from, [to] + t, [from] + f);
    RemoveHead(from, [to] + t + ([from] + f), 1 + |t|);
    WithoutMiddle(to, from, f, t);
    assert [from] + [] == [from];
  }

  /** The second half of both: the head leaves the ring and is an empty list again. */
  method RemoveHead(from: ListNode, ghost all: seq<ListNode>, ghost k: nat)
    requires Ring(all) && 0 < k < |all| && all[k] == from
    modifies all
    ensures Ring(all[..k] + all[k + 1..]) && Ring([from])
  {
    ListDel(from, all, k);
    assert from !in all[..k] + all[k + 1..];
    from.next, from.prev := from, from;
  }

  /** The first half of list_prepend_list_: the whole ring of `from` sewn in after `to`. */
  method SewAfter(to: ListNode, from: ListNode, ghost t: seq<ListNode>, ghost rf: seq<ListNode>)
    requires Ring([to] + t) && Ring(rf) && rf[0] == from && forall x :: x in [to] + t ==> x !in rf
    modifies to, from, to.next, from.prev
    ensures Ring([to] + rf + t)
  {
    ghost var rt := [to] + t;
    assert rt[0] == to;
    DisjointAt(rt, rf);
    var fromTail, toHead := from.prev, to.next;
    to.next := from;
    from.prev := to;
    toHead.prev := fromTail;
    fromTail.next := toHead;
    assert forall i :: 0 <= i < |t| ==> t[i] == rt[i + 1];
    assert Linked(rf) && Linked(t) && Distinct(t) && to !in t;
    ConcatDistinct([to], rf);
    ConcatDistinct([to] + rf, t);
    ConcatLinked([to], rf);
    ConcatLinked([to] + rf, t);
  }

  lemma WithoutSecond(to: ListNode, from: ListNode, f: seq<ListNode>, t: seq<ListNode>)
    ensures var all := [to] + ([from] + f) + t; all[..1] + all[2..] == [to] + (f + t)
  {
  }

  /** list_prepend_list_: all of `from` moves to the start of `to`. */
  method ListPrependList(to: ListNode, from: ListNode, ghost t: seq<ListNode>, ghost f: seq<ListNode>)
    requires IsList(to, t) && IsList(from, f)
    requires forall x :: x in [to] + t ==> x !in [from] + f
    modifies to, from, t, f
    ensures IsList(to, f + t) && IsList(from, [])
  {
    SewAfter(to, from, t, [from] + f);
    RemoveHead(from, [to] + ([from] + f) + t, 1);
    WithoutSecond(to, from, f, t);
    assert [from] + [] == [from];
  }

  // ------------------------------------------------------------ iteration

  ghost function Without(s: seq<ListNode>, gone: set<ListNode>): seq<ListNode> {
    if s == [] then [] else
    Without(s[..|s| - 1], gone) + if s[|s| - 1] in gone then [] else [s[|s| - 1]]
  }

  ghost predicate Within(s: seq<ListNode>, nodes: set<ListNode>) {
    forall x :: x in s ==> x in nodes
  }

  /** One round of the loop, at element `at` of the list `now`, which may be deleted. `nxt`
      is what the loop saved before. */
  method VisitOne(h: ListNode, i: ListNode, delete: bool, ghost now: seq<ListNode>, ghost at: nat,
                  ghost nodes: set<ListNode>)
    returns (nxt: ListNode)
    requires IsList(h, now) && at < |now| && now[at] == i && h in nodes && Within(now, nodes)
    modifies nodes
    ensures nxt == if at + 1 < |now| then now[at + 1] else h
    ensures IsList(h, if delete then now[..at] + now[at + 1..] else now)
  {
    ghost var ring := [h] + now;
    assert ring[0] == h && ring[at + 1] == i && (at + 1 < |now| ==> ring[at + 2] == now[at + 1]);
    assert Within(ring, nodes);
    nxt := i.next;
    if delete {
      ListDel(i, ring, at + 1);
      assert ring[..at + 1] + ring[at + 2..] == [h] + (now[..at] + now[at + 1..]);
    }
  }

  /** Where the loop stands: `visited` is done with, `now` is what is left of the list, and
      the next element is at position `at` of it. */
  ghost predicate Progress(s: seq<ListNode>, doomed: set<ListNode>, visited: seq<ListNode>, now: seq<ListNode>,
                           at: nat)
  {
    && visited <= s && at <= |now| && |s| - |visited| == |now| - at
    && now[..at] == Without(visited, doomed) && now[at..] == s[|visited|..]
  }

  lemma ProgressNext(s: seq<ListNode>, doomed: set<ListNode>, visited: seq<ListNode>, now: seq<ListNode>, at: nat)
    requires Progress(s, doomed, visited, now, at) && at < |now|
    ensures now[at] == s[|visited|]
    ensures now[at] in doomed ==> Progress(s, doomed, visited + [now[at]], now[..at] + now[at + 1..], at)
    ensures now[at] !in doomed ==> Progress(s, doomed, visited + [now[at]], now, at + 1)
  {
  }

  lemma DropWithin(now: seq<ListNode>, at: nat, nodes: set<ListNode>)
    requires at < |now| && Within(now, nodes)
    ensures Within(now[..at] + now[at + 1..], nodes)
  {
  }

  lemma HeadApart(h: ListNode, now: seq<ListNode>, at: nat)
    requires IsList(h, now) && at < |now|
    ensures now[at] != h
  {
    assert ([h] + now)[0] == h && ([h] + now)[at + 1] == now[at];
  }

  /** list_for_each_safe with a body that deletes the current node when it is in `doomed`:
      every element of the original list is visited once and in order, and the others stay. */
  method ForEachSafe(h: ListNode, doomed: set<ListNode>, ghost s: seq<ListNode>, ghost nodes: set<ListNode>)
    returns (visited: seq<ListNode>)
    requires IsList(h, s) && h in nodes && Within(s, nodes)
    modifies nodes
    ensures visited == s && IsList(h, Without(s, doomed))
  {
    visited := [];
    ghost var now, at := s, 0;
    var i := First(h, s);
    while i != h
      invariant Progress(s, doomed, visited, now, at) && IsList(h, now) && Within(now, nodes)
      invariant i == if at < |now| then now[at] else h
      decreases |now| - at
    {
      ProgressNext(s, doomed, visited, now, at);
      DropWithin(now, at, nodes);
      var nxt := VisitOne(h, i, i in doomed, now, at, nodes);
      visited := visited + [i];
      if i in doomed { now := now[..at] + now[at + 1..]; } else { at := at + 1; }
      i := nxt;
    }
    if at < |now| { HeadApart(h, now, at); }
    assert visited == s && now[..at] == now;
  }

  /** The node after the head: the first element, or the head itself. */
  method First(h: ListNode, ghost s: seq<ListNode>) returns (i: ListNode)
    requires IsList(h, s)
    ensures i == if s != [] then s[0] else h
  {
    assert ([h] + s)[0] == h && (s != [] ==> ([h] + s)[1] == s[0]);
    i := h.next;
  }

}
