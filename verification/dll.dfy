/** The circular doubly linked list with a dummy node. */
module LinkedList {

  class Node<T> {
    var data: T
    var next: Node<T>
    var prev: Node<T>

    /** A node that is linked to itself, as the dummy node of an empty list. */
    constructor (data: T)
      ensures this.data == data && next == this && prev == this
    {
      this.data := data;
      next := this;
      prev := this;
    }
  }

  class Dll<T> {
    var head: Node<T>
    var tail: Node<T>

    /** The nodes from the dummy on in the order of `next`, and their data without it. */
    ghost var spine: seq<Node<T>>
    ghost var items: seq<T>

    ghost predicate Valid()
      reads this, spine
    {
      var n := |spine|;
      && n == |items| + 1
      && (forall i, j | 0 <= i < j < n :: spine[i] != spine[j])
      && head == spine[0] && tail == spine[n - 1] && head.prev == tail && tail.next == head
      && (forall i {:trigger spine[i].next} | 0 <= i < n - 1 :: spine[i].next == spine[i + 1])
      && (forall i {:trigger spine[i].prev} | 1 <= i < n :: spine[i].prev == spine[i - 1])
      && (forall i {:trigger spine[i].data} | 1 <= i < n :: spine[i].data == items[i - 1])
    }

    /** init_dll */
    constructor (dummy: T)
      ensures Valid() && items == [] && fresh(spine)
    {
      var node := new Node(dummy);
      head := node;
      tail := node;
      spine := [node];
      items := [];
    }

    method Append(data: T)
      requires Valid()
      modifies this, spine
      ensures Valid() && items == old(items) + [data]
      ensures spine == old(spine) + [tail] && fresh(tail) && head == old(head)
    {
      var node := new Node(data);
      node.next := head;
      node.prev := tail;
      head.prev := node;
      tail.next := node;
      tail := node;
      spine := spine + [node];
      items := items + [data];
    }

    /** Unlinks a node other than the dummy; `k` is the place it had. */
    method Del(node: Node<T>, ghost k: nat)
      requires Valid() && k < |items| && node == spine[k + 1]
      modifies this, spine
      ensures Valid() && head == old(head)
      ensures items == old(items)[..k] + old(items)[k + 1..]
      ensures spine == old(spine)[..k + 1] + old(spine)[k + 2..]
    {
      assert node.prev == spine[k];
      assert node.next == if k + 2 < |spine| then spine[k + 2] else spine[0];
      node.prev.next := node.next;
      node.next.prev := node.prev;
      if node == tail {
        tail := node.prev;
      }
      spine := spine[..k + 1] + spine[k + 2..];
      items := items[..k] + items[k + 1..];
    }

    /** deinit_dll: unlinks the data nodes from the front until none is left. */
    method Deinit()
      requires Valid()
      modifies this, spine
      ensures Valid() && items == [] && spine == [old(head)]
    {
      var node := head.next;
      while node != head
        invariant Valid() && head == old(head)
        invariant node == if items == [] then head else spine[1]
        invariant forall i | 0 <= i < |spine| :: spine[i] in old(spine)
        decreases |items|
      {
        var next := node.next;
        Del(node, 0);
        node := next;
      }
    }

    /** Following `next` from the head visits every data node once, in order. */
    method Forward() returns (seen: seq<T>)
      requires Valid()
      ensures seen == items
    {
      seen := [];
      var node := head.next;
      while node != head
        invariant |seen| <= |items| && seen == items[..|seen|]
        invariant node == if |seen| < |items| then spine[|seen| + 1] else head
        decreases |items| - |seen|
      {
        seen := seen + [node.data];
        node := node.next;
      }
    }

    /** Following `prev` from the tail visits the same nodes in the opposite order. */
    method Backward() returns (seen: seq<T>)
      requires Valid()
      ensures |seen| == |items| && forall i | 0 <= i < |items| :: seen[i] == items[|items| - 1 - i]
    {
      seen := [];
      var node := tail;
      while node != head
        invariant |seen| <= |items|
        invariant node == spine[|items| - |seen|]
        invariant forall i | 0 <= i < |seen| :: seen[i] == items[|items| - 1 - i]
        decreases |items| - |seen|
      {
        seen := seen + [node.data];
        node := node.prev;
      }
    }
  }
}
