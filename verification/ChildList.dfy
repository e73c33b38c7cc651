/** The intrusive list of a cancelCtx: linked nodes in creation order plus a map to find them. */
module ChildList {
  import opened ContextTree

  class ChildNode {
    const child: nat
    var prev: ChildNode?
    var next: ChildNode?

    constructor (child: nat, prev: ChildNode?)
      ensures this.child == child && this.prev == prev && next == null
    {
      this.child := child;
      this.prev := prev;
      next := null;
    }
  }

  ghost function Children(order: seq<ChildNode>): seq<nat> {
    seq(|order|, i requires 0 <= i < |order| => order[i].child)
  }

  ghost function Neighbour(order: seq<ChildNode>, i: int): ChildNode? {
    if 0 <= i < |order| then order[i] else null
  }

  /** The links of a node lead to its neighbours. */
  ghost predicate LinkedAt(order: seq<ChildNode>, i: nat)
    requires i < |order|
    reads order[i]
  {
    order[i].prev == Neighbour(order, i - 1) && order[i].next == Neighbour(order, i + 1)
  }

  ghost predicate Chain(order: seq<ChildNode>)
    reads order
  {
    forall i: nat | i < |order| :: LinkedAt(order, i)
  }

  /** The map finds exactly the nodes of the list, one per child. */
  ghost predicate Mapped(order: seq<ChildNode>, nodes: map<nat, ChildNode>) {
    && (forall i | 0 <= i < |order| :: order[i].child in nodes && nodes[order[i].child] == order[i])
    && (forall i, j | 0 <= i < j < |order| :: order[i].child != order[j].child)
    && (forall k | k in nodes :: k in Children(order))
  }

  lemma MappedAppend(order: seq<ChildNode>, nodes: map<nat, ChildNode>, node: ChildNode)
    requires Mapped(order, nodes) && node.child !in nodes
    ensures Mapped(order + [node], nodes[node.child := node])
    ensures Children(order + [node]) == Children(order) + [node.child]
    ensures node !in order
  {
    assert Children(order + [node]) == Children(order) + [node.child];
  }

  ghost function Drop(order: seq<ChildNode>, i: nat): seq<ChildNode>
    requires i < |order|
  {
    order[..i] + order[i + 1..]
  }

  lemma ChildrenDrop(order: seq<ChildNode>, nodes: map<nat, ChildNode>, i: nat)
    requires Mapped(order, nodes) && i < |order|
    ensures Children(Drop(order, i)) == Without(Children(order), order[i].child)
  {
    var c := Children(order);
    assert Children(Drop(order, i)) == c[..i] + c[i + 1..];
    WithoutAt(c, i);
  }

  lemma MappedDrop(order: seq<ChildNode>, nodes: map<nat, ChildNode>, i: nat)
    requires Mapped(order, nodes) && i < |order|
    ensures Mapped(Drop(order, i), nodes - {order[i].child})
  {
    var rest := Drop(order, i);
    forall j | 0 <= j < |rest| ensures rest[j] == order[if j < i then j else j + 1] {}
    forall k | k in nodes && k != order[i].child ensures k in Children(rest) {
      assert k in Children(order);
      var j :| 0 <= j < |order| && Children(order)[j] == k;
      assert Children(rest)[if j < i then j else j - 1] == k;
    }
  }

  lemma {:induction false} WithoutAbsent(s: seq<nat>, x: nat)
    requires x !in s
    ensures Without(s, x) == s
  {
    if s != [] {
      WithoutAbsent(s[1..], x);
    }
  }

  lemma {:induction false} WithoutAt(s: seq<nat>, i: nat)
    requires i < |s| && s[i] !in s[..i]
    ensures Without(s, s[i]) == s[..i] + s[i + 1..]
  {
    if i != 0 {
      assert s[0] in s[..i];
      assert s[1..][..i - 1] == s[..i][1..];
      WithoutAt(s[1..], i - 1);
    }
  }

  class ChildList {
    var nodes: map<nat, ChildNode>
    var first: ChildNode?
    var last: ChildNode?
    ghost var order: seq<ChildNode>

    ghost predicate Valid()
      reads this, order
    {
      && Chain(order) && Mapped(order, nodes)
      && first == Neighbour(order, 0) && last == Neighbour(order, |order| - 1)
    }

    constructor ()
      ensures Valid() && order == []
    {
      nodes, first, last, order := map[], null, null, [];
    }

    method Add(child: nat)
      requires Valid()
      modifies this, order
      ensures Valid() && forall n | n in order :: n in old(order) || fresh(n)
      ensures child in old(Children(order)) ==> order == old(order)
      ensures child !in old(Children(order)) ==> Children(order) == old(Children(order)) + [child]
    {
      if child in nodes {
        assert child in Children(order);
        return;
      }
      var node := new ChildNode(child, last);
      MappedAppend(order, nodes, node);
      nodes := nodes[child := node];
      Link(node);
    }

    /** Puts a new node at the end of the chain. */
    method Link(node: ChildNode)
      requires Chain(order) && node !in order && node.prev == last && node.next == null
      requires forall i, j | 0 <= i < j < |order| :: order[i] != order[j]
      requires first == Neighbour(order, 0) && last == Neighbour(order, |order| - 1)
      modifies this`first, this`last, this`order, order
      ensures order == old(order) + [node] && Chain(order)
      ensures first == Neighbour(order, 0) && last == Neighbour(order, |order| - 1)
    {
      if last == null {
        first := node;
      } else {
        last.next := node;
      }
      last := node;
      order := order + [node];
      forall i: nat | i < |order| ensures LinkedAt(order, i) {
        assert i < |old(order)| ==> old(LinkedAt(order, i));
      }
    }

    method Remove(child: nat)
      requires Valid()
      modifies this, order
      ensures Valid() && forall n | n in order :: n in old(order)
      ensures Children(order) == Without(old(Children(order)), child)
    {
      if child !in nodes {
        WithoutAbsent(Children(order), child);
        return;
      }
      var node := nodes[child];
      assert child in Children(order);
      ghost var i: nat :| i < |order| && Children(order)[i] == child;
      ChildrenDrop(order, nodes, i);
      MappedDrop(order, nodes, i);
      nodes := nodes - {child};
      Unlink(node, i);
    }

    /** Takes the `i`-th node out of the chain. */
    method Unlink(node: ChildNode, ghost i: nat)
      requires i < |order| && order[i] == node && Chain(order)
      requires forall i, j | 0 <= i < j < |order| :: order[i] != order[j]
      requires first == Neighbour(order, 0) && last == Neighbour(order, |order| - 1)
      modifies this`first, this`last, this`order, order
      ensures order == Drop(old(order), i) && Chain(order)
      ensures first == Neighbour(order, 0) && last == Neighbour(order, |order| - 1)
    {
      assert LinkedAt(order, i);
      if node.prev == null {
        first := node.next;
      } else {
        node.prev.next := node.next;
      }
      if node.next == null {
        last := node.prev;
      } else {
        node.next.prev := node.prev;
      }
      node.prev := null;
      node.next := null;
      order := Drop(order, i);
      forall k: nat | k < |order| ensures LinkedAt(order, k) {
        assert old(LinkedAt(order, if k < i then k else k + 1));
      }
    }

    /** A copy of the fields, sharing the nodes. */
    constructor Copy(nodes: map<nat, ChildNode>, first: ChildNode?, last: ChildNode?, ghost order: seq<ChildNode>)
      ensures this.nodes == nodes && this.first == first && this.last == last && this.order == order
    {
      this.nodes, this.first, this.last, this.order := nodes, first, last, order;
    }

    /** Takes the whole list away; the owner starts over with an empty one. */
    method Detach() returns (taken: ChildList)
      requires Valid()
      modifies this
      ensures fresh(taken) && taken.Valid() && taken.order == old(order)
      ensures Valid() && order == []
    {
      taken := new ChildList.Copy(nodes, first, last, order);
      nodes, first, last, order := map[], null, null, [];
    }
  }

  /** Late removals from a list that was taken away. */
  method RemoveEach(owner: ChildList, gone: seq<nat>)
    requires owner.Valid() && owner.order == []
    modifies owner
    ensures owner.Valid() && owner.order == []
  {
    for j := 0 to |gone|
      invariant owner.Valid() && owner.order == []
    {
      owner.Remove(gone[j]);
      assert |owner.order| == |Children(owner.order)|;
    }
  }

  /** The walk along `order` stands at `node`, after `i` nodes. */
  ghost predicate Walking(order: seq<ChildNode>, node: ChildNode?, i: nat, visited: seq<nat>) {
    i <= |order| && node == Neighbour(order, i) && visited == Children(order)[..i]
  }

  lemma WalkOn(order: seq<ChildNode>, node: ChildNode, i: nat, visited: seq<nat>)
    requires Walking(order, node, i, visited) && Chain(order)
    ensures i < |order| && Walking(order, node.next, i + 1, visited + [node.child])
  {
    assert LinkedAt(order, i);
  }

  /** `cancel` walking the children: each visited child may remove children from the owner's list
      meanwhile, and the walk still visits exactly the children there were, in creation order. */
  method DetachAndWalk(owner: ChildList, removals: nat -> seq<nat>) returns (visited: seq<nat>)
    requires owner.Valid()
    modifies owner
    ensures owner.Valid() && owner.order == []
    ensures visited == old(Children(owner.order))
  {
    var taken := owner.Detach();
    visited := [];
    var node := taken.first;
    ghost var order, i := taken.order, 0;
    while node != null
      invariant owner.Valid() && owner.order == []
      invariant Chain(order) && Walking(order, node, i, visited)
      decreases |order| - i
    {
      WalkOn(order, node, i, visited);
      visited := visited + [node.child];
      RemoveEach(owner, removals(node.child));
      node := node.next;
      i := i + 1;
    }
  }
}
