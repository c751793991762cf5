/** The circular doubly linked list that threads all buffers through `bcache.head`.
    Links are indices; index NBUF stands for the list head. */
module LruRing {
  const NBUF: nat := 30
  const HEAD: nat := NBUF

  /** The node at position k of the list, where every position outside it is the head. */
  function Node(order: seq<nat>, k: int): nat {
    if 0 <= k < |order| then order[k] else HEAD
  }

  /** The nodes at positions k and k + 1 point at each other. */
  ghost predicate LinkAt(prev: seq<nat>, next: seq<nat>, order: seq<nat>, k: int)
    requires |prev| == |next| == NBUF + 1
  {
    && Node(order, k) <= HEAD && Node(order, k + 1) <= HEAD
    && next[Node(order, k)] == Node(order, k + 1)
    && prev[Node(order, k + 1)] == Node(order, k)
  }

  ghost predicate Distinct(order: seq<nat>) {
    && (forall k :: 0 <= k < |order| ==> order[k] < NBUF)
    && (forall j, k :: 0 <= j < k < |order| ==> order[j] != order[k])
  }

  /** `prev` and `next` form one cycle: the head, then `order` from most to least recent. */
  ghost predicate Linked(prev: seq<nat>, next: seq<nat>, order: seq<nat>) {
    && |prev| == |next| == NBUF + 1
    && Distinct(order)
    && (forall k {:trigger LinkAt(prev, next, order, k)} :: -1 <= k < |order| ==> LinkAt(prev, next, order, k))
  }

  function Without(order: seq<nat>, k: nat): seq<nat>
    requires k < |order|
  {
    order[..k] + order[k + 1..]
  }

  /** Position i of the shortened list is position i or i + 1 of the old one. */
  function Skip(k: nat, i: int): int {
    if i < k then i else i + 1
  }

  lemma NodeWithout(order: seq<nat>, k: nat, i: int)
    requires k < |order|
    ensures Node(Without(order, k), i) == Node(order, Skip(k, i))
  {
  }

  /** Different positions of the cycle (the head counted once) are different nodes. */
  lemma NodesApart(order: seq<nat>, i: int, j: int)
    requires Distinct(order)
    requires -1 <= i <= |order| && -1 <= j <= |order|
    ensures Node(order, i) == Node(order, j) <==>
            (i == j || (i in {-1, |order|} && j in {-1, |order|}))
    ensures Node(order, i) <= HEAD
  {
  }

  lemma UnlinkedAt(prev: seq<nat>, next: seq<nat>, order: seq<nat>, k: nat, i: int)
    requires Linked(prev, next, order)
    requires k < |order| && -1 <= i < |order| - 1
    ensures prev[order[k]] <= HEAD && next[order[k]] <= HEAD
    ensures var b := order[k];
            LinkAt(prev[next[b] := prev[b]], next[prev[b] := next[b]], Without(order, k), i)
  {
    assert LinkAt(prev, next, order, k - 1) && LinkAt(prev, next, order, k);
    assert i != k - 1 ==> LinkAt(prev, next, order, Skip(k, i));
    NodeWithout(order, k, i);
    NodeWithout(order, k, i + 1);
    NodesApart(order, Skip(k, i), k - 1);
    NodesApart(order, Skip(k, i + 1), k + 1);
  }

  lemma WithoutDistinct(order: seq<nat>, k: nat)
    requires Distinct(order) && k < |order|
    ensures Distinct(Without(order, k)) && order[k] !in Without(order, k)
  {
    var rest := Without(order, k);
    assert forall i :: 0 <= i < |rest| ==> rest[i] == order[Skip(k, i)];
  }

  /** Splicing a node out of the cycle leaves the other nodes in one cycle, in order. */
  lemma UnlinkKeepsCycle(prev: seq<nat>, next: seq<nat>, order: seq<nat>, k: nat)
    requires Linked(prev, next, order)
    requires k < |order|
    ensures prev[order[k]] <= HEAD && next[order[k]] <= HEAD
    ensures var b := order[k];
            Linked(prev[next[b] := prev[b]], next[prev[b] := next[b]], Without(order, k))
    ensures order[k] !in Without(order, k)
  {
    UnlinkedAt(prev, next, order, k, -1);
    WithoutDistinct(order, k);
    var b, rest := order[k], Without(order, k);
    var prev', next' := prev[next[b] := prev[b]], next[prev[b] := next[b]];
    forall i | -1 <= i < |rest| ensures LinkAt(prev', next', rest, i)
    {
      UnlinkedAt(prev, next, order, k, i);
    }
  }

  lemma PushedAt(prev: seq<nat>, next: seq<nat>, order: seq<nat>, b: nat, i: int)
    requires Linked(prev, next, order)
    requires b < NBUF && b !in order
    requires -1 <= i <= |order|
    ensures next[HEAD] <= HEAD
    ensures LinkAt(prev[b := HEAD][next[HEAD] := b], next[b := next[HEAD]][HEAD := b], [b] + order, i)
  {
    var order' := [b] + order;
    assert LinkAt(prev, next, order, -1);
    assert Node(order', i) == if i == 0 then b else Node(order, i - 1);
    assert Node(order', i + 1) == if i + 1 == 0 then b else Node(order, i);
    if i > 0 {
      assert LinkAt(prev, next, order, i - 1);
      NodesApart(order, i, 0);
    }
  }

  /** Linking a new node in right behind the head puts it at the front of the order. */
  lemma PushKeepsCycle(prev: seq<nat>, next: seq<nat>, order: seq<nat>, b: nat)
    requires Linked(prev, next, order)
    requires b < NBUF && b !in order
    ensures next[HEAD] <= HEAD
    ensures Linked(prev[b := HEAD][next[HEAD] := b], next[b := next[HEAD]][HEAD := b], [b] + order)
  {
    PushedAt(prev, next, order, b, -1);
    var order' := [b] + order;
    var prev', next' := prev[b := HEAD][next[HEAD] := b], next[b := next[HEAD]][HEAD := b];
    assert Distinct(order');
    forall i | -1 <= i < |order'| ensures LinkAt(prev', next', order', i)
    {
      PushedAt(prev, next, order, b, i);
    }
  }

  /** Every buffer is on the list. */
  ghost predicate Full(order: seq<nat>) {
    |order| == NBUF && forall b :: 0 <= b < NBUF ==> b in order
  }

  /** The list runs from the latest stamp to the earliest. */
  ghost predicate Recent(order: seq<nat>, stamp: seq<nat>, clock: nat) {
    && |stamp| == NBUF
    && (forall b :: 0 <= b < NBUF ==> stamp[b] <= clock)
    && (forall k :: 0 <= k < |order| ==> order[k] < NBUF)
    && (forall j, k :: 0 <= j < k < |order| ==> stamp[order[j]] > stamp[order[k]])
  }

  /** Moving a buffer to the front, stamped now, keeps all buffers listed in recency order. */
  lemma MoveToFrontKeeps(order: seq<nat>, stamp: seq<nat>, clock: nat, k: nat)
    requires Full(order) && Recent(order, stamp, clock)
    requires k < |order|
    requires order[k] !in Without(order, k)
    ensures var b := order[k];
            Full([b] + Without(order, k)) && Recent([b] + Without(order, k), stamp[b := clock + 1], clock + 1)
  {
    var b := order[k];
    var rest := Without(order, k);
    var order' := [b] + rest;
    forall c | 0 <= c < NBUF ensures c in order' {
      assert c in order;
      var i :| 0 <= i < |order| && order[i] == c;
      assert order'[if i < k then i + 1 else if i > k then i else 0] == c;
    }
    forall i | 0 <= i < |rest|
      ensures rest[i] == order[Skip(k, i)] && rest[i] != b
    {
      assert rest[i] in rest;
    }
  }
}
