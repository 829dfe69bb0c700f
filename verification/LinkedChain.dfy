/** Singly linked, null-terminated chains: the representation shared by the packet queues, the port buffer
    lists and the list of audio buffers in use. */
module LinkedChain {
  import opened Sequences

  class Node<T> {
    var data: T
    var next: Node?<T>

    constructor (data: T)
      ensures this.data == data && this.next == null
    {
      this.data, this.next := data, null;
    }
  }

  /** The node at position `i`, or null one past the end. */
  ghost function At<T>(s: seq<Node<T>>, i: nat): Node?<T> {
    if i < |s| then s[i] else null
  }

  /** Following `next` from `head` visits exactly the nodes of `s`, each once, and ends in null. */
  ghost predicate Chain<T>(head: Node?<T>, s: seq<Node<T>>)
    reads s
  {
    && head == At(s, 0)
    && (forall i {:trigger s[i].next} :: 0 <= i < |s| ==> s[i].next == At(s, i + 1))
    && NoDup(s)
  }

  /** What the chain stores, in order. */
  ghost function Data<T>(s: seq<Node<T>>): (r: seq<T>)
    reads s
  {
    seq(|s|, i requires 0 <= i < |s| reads s => s[i].data)
  }

  /** Puts a node in front of a chain. */
  method Push<T>(head: Node?<T>, node: Node<T>, ghost s: seq<Node<T>>)
    requires Chain(head, s) && node !in s
    modifies node`next
    ensures Chain(node, [node] + s)
  {
    node.next := head;
  }

  /** Takes the node at position `k`, whose predecessor is `prev`, out of a chain. */
  method Unlink<T>(head: Node?<T>, prev: Node?<T>, node: Node<T>, ghost s: seq<Node<T>>, ghost k: nat)
    returns (rest: Node?<T>)
    requires Chain(head, s) && k < |s| && node == s[k]
    requires prev == if k == 0 then null else s[k-1]
    modifies (if prev == null then {} else {prev})`next
    ensures Chain(rest, Without(s, k)) && node.next == old(node.next)
  {
    if prev == null {
      rest := node.next;
    } else {
      prev.next := node.next;
      rest := head;
    }
    ghost var t := Without(s, k);
    assert forall i {:trigger t[i]} :: 0 <= i < |t| ==> t[i] == s[if i < k then i else i + 1];
  }
}
