/** The intrusive doubly linked list. A node is embedded in a `task_t` and carries no payload of its own; several
    lists share one heap of nodes, and nothing at run time records which list a node is on. */
module Lists {
  /** `list_node_t`. `container` is the address of the struct that embeds the node, what `CONTAINER_OF` recovers. */
  class Node {
    var pre: Node?
    var next: Node?
    const container: nat
    ghost var list: List?

    constructor (container: nat)
      ensures pre == null && next == null && list == null && this.container == container
    {
      pre, next := null, null;
      this.container := container;
      list := null;
    }

    /** `list_node_init`; on a node that is on a list it would break that list. */
    method Init()
      requires list == null
      modifies `pre, `next
      ensures pre == null && next == null
      ensures forall l: List :: old(allocated(l)) && old(l.Valid()) ==> l.Valid() && l.nodes == old(l.nodes)
    {
      pre, next := null, null;
    }
  }

  /** `list_t`. The ghost `nodes` is the sequence the list stands for. */
  class List {
    var first: Node?
    var last: Node?
    var count: int
    ghost var nodes: seq<Node>
    /** Tells the lists of one kernel apart in proofs, as their addresses would. */
    ghost const id: int

    /** The header and the links of this list spell out `q`. */
    ghost predicate Spells(q: seq<Node>)
      reads `first, `last, `count, q
    {
      && count == |q|
      && first == (if q == [] then null else q[0])
      && last == (if q == [] then null else q[|q| - 1])
      && (forall i {:trigger q[i].next} :: 0 <= i < |q| ==> q[i].next == if i == |q| - 1 then null else q[i + 1])
      && (forall i {:trigger q[i].pre} :: 0 <= i < |q| ==> q[i].pre == if i == 0 then null else q[i - 1])
      && (forall i {:trigger q[i].list} {:trigger q[i].next} {:trigger q[i].pre} :: 0 <= i < |q| ==> q[i].list == this)
    }

    ghost predicate Valid()
      reads this, nodes
    {
      Spells(nodes)
    }

    lemma Members()
      requires Valid()
      ensures forall i :: 0 <= i < |nodes| ==> nodes[i].list == this
    {
    }

    /** The links alone keep a node from standing on the list twice. */
    lemma {:induction false} NodesDiffer(i: nat, j: nat)
      requires Valid() && i < j < |nodes|
      ensures nodes[i] != nodes[j]
      decreases i
    {
      assert nodes[j].pre == nodes[j - 1];
      if i > 0 {
        NodesDiffer(i - 1, j - 1);
        assert nodes[i].pre == nodes[i - 1];
      } else {
        assert nodes[0].pre == null;
      }
    }

    /** Lists share no nodes. */
    lemma Apart()
      requires Valid()
      ensures forall other: List, i {:trigger other.nodes[i]} ::
                other != this && other.Valid() && 0 <= i < |other.nodes| ==> other.nodes[i] !in nodes
    {
      Members();
      forall other: List, i | other != this && other.Valid() && 0 <= i < |other.nodes|
        ensures other.nodes[i] !in nodes
      {
        assert other.nodes[i].list == other;
      }
    }

    lemma OnlyAt(k: int)
      requires Valid() && 0 <= k < |nodes|
      ensures forall i :: 0 <= i < |nodes| && i != k ==> nodes[i] != nodes[k]
    {
      forall i | 0 <= i < |nodes| && i != k
        ensures nodes[i] != nodes[k]
      {
        if i < k { NodesDiffer(i, k); } else { NodesDiffer(k, i); }
      }
    }

    /** The node at `k` and its two neighbours are three different nodes, found nowhere else on the list. */
    lemma Around(k: int)
      requires Valid() && 0 <= k < |nodes|
      ensures nodes[k].pre == (if k == 0 then null else nodes[k - 1])
      ensures nodes[k].next == (if k == |nodes| - 1 then null else nodes[k + 1])
      ensures forall i :: 0 <= i < |nodes| && i != k ==> nodes[i] != nodes[k]
      ensures forall i :: 0 <= i < |nodes| && i != k - 1 ==> nodes[i] != nodes[k].pre
      ensures forall i :: 0 <= i < |nodes| && i != k + 1 ==> nodes[i] != nodes[k].next
    {
      OnlyAt(k);
      if k > 0 { OnlyAt(k - 1); }
      if k < |nodes| - 1 { OnlyAt(k + 1); }
    }

    /** `list_init` */
    constructor (ghost id: int)
      ensures Valid() && nodes == [] && this.id == id
    {
      this.id := id;
      first, last, count := null, null, 0;
      nodes := [];
    }

    method InsertFirst(n: Node)
      requires Valid() && n.list == null
      modifies this, nodes`pre, nodes`next, n
      ensures Valid() && nodes == [n] + old(nodes) && n.list == this
      ensures forall other: List :: other != this && old(allocated(other)) && old(other.Valid()) ==>
                other.Valid() && other.nodes == old(other.nodes)
    {
      if count > 0 { OnlyAt(0); }
      n.next := first;
      n.pre := null;
      if count == 0 {
        first, last := n, n;
      } else {
        first.pre := n;
        first := n;
      }
      count := count + 1;
      n.list := this;
      nodes := [n] + nodes;
    }

    method InsertLast(n: Node)
      requires Valid() && n.list == null
      modifies this, nodes`pre, nodes`next, n
      ensures Valid() && nodes == old(nodes) + [n] && n.list == this
      ensures forall other: List :: other != this && old(allocated(other)) && old(other.Valid()) ==>
                other.Valid() && other.nodes == old(other.nodes)
    {
      if count > 0 { OnlyAt(count - 1); }
      n.pre := last;
      n.next := null;
      if count == 0 {
        first, last := n, n;
      } else {
        last.next := n;
        last := n;
      }
      count := count + 1;
      n.list := this;
      nodes := nodes + [n];
    }

    method PopFirst() returns (n: Node?)
      requires Valid()
      modifies this, nodes`pre, nodes`next, nodes[..if nodes == [] then 0 else 1]
      ensures Valid()
      ensures if old(nodes) == [] then n == null && nodes == []
              else n == old(nodes)[0] && nodes == old(nodes)[1..] && n.pre == null && n.next == null && n.list == null
      ensures forall other: List :: other != this && old(allocated(other)) && old(other.Valid()) ==>
                other.Valid() && other.nodes == old(other.nodes)
    {
      if count == 0 {
        return null;
      }
      n := first;
      Around(0);
      first := n.next;
      if first == null {
        last := null;
      } else {
        n.next.pre := null;
      }
      n.pre, n.next := null, null;
      count := count - 1;
      n.list := null;
      nodes := nodes[1..];
    }

    method PopLast() returns (n: Node?)
      requires Valid()
      modifies this, nodes`pre, nodes`next, nodes[if nodes == [] then 0 else |nodes| - 1..]
      ensures Valid()
      ensures if old(nodes) == [] then n == null && nodes == []
              else n == old(nodes)[|old(nodes)| - 1] && nodes == old(nodes)[..|old(nodes)| - 1]
                   && n.pre == null && n.next == null && n.list == null
      ensures forall other: List :: other != this && old(allocated(other)) && old(other.Valid()) ==>
                other.Valid() && other.nodes == old(other.nodes)
    {
      if count == 0 {
        return null;
      }
      n := last;
      Around(count - 1);
      last := n.pre;
      if last == null {
        first := null;
      } else {
        n.pre.next := null;
      }
      n.pre, n.next := null, null;
      count := count - 1;
      n.list := null;
      nodes := nodes[..|nodes| - 1];
    }

    /** Bypassing the node at `k` leaves links that spell out the rest. */
    lemma Bypassed(q: seq<Node>, k: int)
      requires 0 <= k < |q| && count == |q| - 1
      requires first == (if |q| == 1 then null else if k == 0 then q[1] else q[0])
      requires last == (if |q| == 1 then null else if k == |q| - 1 then q[k - 1] else q[|q| - 1])
      requires forall i: int :: 0 <= i < |q| && i != k ==> q[i].list == this
      requires forall i: int {:trigger q[i].next} :: 0 <= i < |q| && i != k ==>
        var j := if i == k - 1 then k + 1 else i + 1; q[i].next == if j >= |q| then null else q[j]
      requires forall i: int {:trigger q[i].pre} :: 0 <= i < |q| && i != k ==>
        var j := if i == k + 1 then k - 1 else i - 1; q[i].pre == if j < 0 then null else q[j]
      ensures Spells(q[..k] + q[k + 1..])
    {
      var r := q[..k] + q[k + 1..];
      assert forall i: int :: 0 <= i < |r| ==> r[i] == q[if i < k then i else i + 1];
    }

    /** `list_pop`: unlinks a given node. The code does not check that the node is on this list; the precondition
        does. */
    method Pop(n: Node)
      requires Valid() && n in nodes
      modifies this, nodes`pre, nodes`next, n
      ensures Valid()
      ensures forall k :: 0 <= k < |old(nodes)| && old(nodes)[k] == n ==> nodes == old(nodes)[..k] + old(nodes)[k + 1..]
      ensures n.pre == null && n.next == null && n.list == null
      ensures forall other: List :: other != this && old(allocated(other)) && old(other.Valid()) ==>
                other.Valid() && other.nodes == old(other.nodes)
    {
      ghost var k: int :| 0 <= k < |nodes| && nodes[k] == n;
      Apart();
      Around(k);
      if n == first {
        first := n.next;
      }
      if n == last {
        last := n.pre;
      }
      if n.pre != null {
        n.pre.next := n.next;
      }
      if n.next != null {
        n.next.pre := n.pre;
      }
      n.pre, n.next := null, null;
      count := count - 1;
      n.list := null;
      assert Spells(nodes[..k] + nodes[k + 1..]) by { Bypassed(nodes, k); }
      nodes := nodes[..k] + nodes[k + 1..];
    }
  }
}
