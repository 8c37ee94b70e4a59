/**
 The C runtime's intrusive doubly linked list: the links are fields of the nodes themselves.
 A ghost sequence says which nodes are in the list, and every operation is proved against it.
 */
module IntrusiveList {
  import opened Sequences

  class Node {
    var prev: Node?
    var next: Node?

    constructor ()
      ensures prev == null && next == null
    {
      prev, next := null, null;
    }
  }

  /** The nodes a walk visits: up to and including the first one whose callback returns 0. */
  function Visited(s: seq<Node>, callback: Node -> int): seq<Node> {
    if s == [] then [] else if callback(s[0]) == 0 then [s[0]] else [s[0]] + Visited(s[1..], callback)
  }

  /** Visiting stops at the first refusal and nowhere else. */
  lemma {:induction false} VisitedIsPrefix(s: seq<Node>, callback: Node -> int)
    ensures var n := |Visited(s, callback)|;
      && n <= |s| && Visited(s, callback) == s[..n]
      && (forall k :: 0 <= k < n - 1 ==> callback(s[k]) != 0)
      && (n < |s| ==> n > 0 && callback(s[n - 1]) == 0)
  {
    if s == [] || callback(s[0]) == 0 {
    } else {
      VisitedIsPrefix(s[1..], callback);
      var n := |Visited(s[1..], callback)|;
      assert s[..n + 1] == [s[0]] + s[1..][..n];
      forall k | 0 <= k < n ensures callback(s[k]) != 0 {
        if k > 0 { assert s[k] == s[1..][k - 1]; }
      }
    }
  }

  lemma VisitedFrom(s: seq<Node>, i: nat, callback: Node -> int, visited: seq<Node>)
    requires i < |s|
    ensures visited + Visited(s[i..], callback) ==
      visited + [s[i]] + if callback(s[i]) == 0 then [] else Visited(s[i + 1..], callback)
  {
    assert s[i..][1..] == s[i + 1..];
  }

  class List {
    var head: Node?
    var tail: Node?
    ghost var nodes: seq<Node>

    /** The pointers spell the node sequence, forwards and backwards. */
    ghost predicate Valid()
      reads this, nodes
    {
      && NoRepeat(nodes)
      && head == (if nodes == [] then null else nodes[0])
      && tail == (if nodes == [] then null else nodes[|nodes| - 1])
      && (forall i {:trigger nodes[i].next} :: 0 <= i < |nodes| ==>
        nodes[i].next == if i + 1 < |nodes| then nodes[i + 1] else null)
      && (forall i {:trigger nodes[i].prev} :: 0 <= i < |nodes| ==>
        nodes[i].prev == if i > 0 then nodes[i - 1] else null)
    }

    /** `list_init` */
    constructor ()
      ensures Valid() && nodes == []
    {
      head, tail, nodes := null, null, [];
    }

    method Add(node: Node)
      requires Valid() && node !in nodes
      modifies this, nodes, node
      ensures Valid() && nodes == old(nodes) + [node]
    {
      node.next := null;
      node.prev := null;
      if tail == null {
        tail := node;
        head := node;
      } else {
        tail.next := node;
        node.prev := tail;
        tail := node;
      }
      nodes := nodes + [node];
    }

    /** Unlinks a member; its own links are cleared. */
    method Remove(node: Node, ghost k: nat)
      requires Valid() && k < |nodes| && nodes[k] == node
      modifies this, nodes
      ensures Valid() && nodes == RemoveAt(old(nodes), k)
      ensures node !in nodes && node.prev == null && node.next == null
    {
      ghost var was := nodes;
      RemoveAtMembers(was, k);
      assert was[k].prev == node.prev && was[k].next == node.next;
      if node.prev != null {
        node.prev.next := node.next;
      } else {
        head := node.next;
      }
      if node.next != null {
        node.next.prev := node.prev;
      } else {
        tail := node.prev;
      }
      node.prev := null;
      node.next := null;
      nodes := RemoveAt(was, k);
      forall i {:trigger nodes[i].next} {:trigger nodes[i].prev} | 0 <= i < |nodes|
        ensures nodes[i].next == if i + 1 < |nodes| then nodes[i + 1] else null
        ensures nodes[i].prev == if i > 0 then nodes[i - 1] else null
      {
        var old_i := if i < k then i else i + 1;
        assert nodes[i] == was[old_i];
        assert old(was[old_i].next) == if old_i + 1 < |was| then was[old_i + 1] else null;
        assert old(was[old_i].prev) == if old_i > 0 then was[old_i - 1] else null;
      }
    }

    method Foreach(callback: Node -> int) returns (visited: seq<Node>)
      requires Valid()
      ensures visited == Visited(nodes, callback)
    {
      visited := [];
      var node := head;
      ghost var i := 0;
      assert nodes[0..] == nodes;
      while node != null
        invariant 0 <= i <= |nodes|
        invariant node == if i < |nodes| then nodes[i] else null
        invariant Visited(nodes, callback) == visited + Visited(nodes[i..], callback)
        decreases |nodes| - i
      {
        VisitedFrom(nodes, i, callback, visited);
        visited := visited + [node];
        if callback(node) == 0 {
          assert visited + [] == visited;
          return;
        }
        assert nodes[i].next == node.next;
        node := node.next;
        i := i + 1;
      }
    }

    method IsEmpty() returns (empty: bool)
      requires Valid()
      ensures empty <==> nodes == []
    {
      empty := head == null;
    }

    method Count() returns (count: nat)
      requires Valid()
      ensures count == |nodes|
    {
      count := 0;
      var node := head;
      while node != null
        invariant count <= |nodes|
        invariant node == if count < |nodes| then nodes[count] else null
        decreases |nodes| - count
      {
        assert nodes[count].next == node.next;
        node := node.next;
        count := count + 1;
      }
    }

    method RemoveHead() returns (node: Node)
      requires Valid() && nodes != []
      modifies this, nodes
      ensures Valid() && node == old(nodes)[0] && nodes == old(nodes)[1..]
      ensures node !in nodes && node.prev == null && node.next == null
    {
      node := head;
      Remove(node, 0);
    }

    /** Unlinks the head until nothing is left and frees each node after it is unlinked. */
    method Clear() returns (freed: seq<Node>)
      requires Valid()
      modifies this, nodes
      ensures Valid() && nodes == []
      ensures freed == old(nodes)
      ensures forall k {:trigger freed[k]} :: 0 <= k < |freed| ==> freed[k].prev == null && freed[k].next == null
    {
      freed := [];
      while head != null
        invariant Valid() && |freed| + |nodes| == |old(nodes)|
        invariant freed == old(nodes)[..|freed|] && nodes == old(nodes)[|freed|..]
        invariant forall k {:trigger freed[k]} :: 0 <= k < |freed| ==>
          freed[k] !in nodes && freed[k].prev == null && freed[k].next == null
        decreases |nodes|
      {
        var node := RemoveHead();
        freed := freed + [node];
      }
    }
  }
}
