/** The packet queue: a linked list with a head, a tail and a 32-bit length. */
module SxQueue {
  import opened LinkedChain
  import opened Options
  import opened Words

  datatype Op<T> = Push(data: T) | Pull

  function Pushed<T>(ops: seq<Op<T>>): seq<T> {
    if ops == [] then []
    else
      var o := ops[|ops|-1];
      Pushed(ops[..|ops|-1]) + if o.Push? then [o.data] else []
  }

  /** What a queue has handed out after these operations, and what it holds. */
  function After<T>(ops: seq<Op<T>>): (r: (seq<T>, seq<T>)) {
    if ops == [] then ([], [])
    else
      var (pulled, contents) := After(ops[..|ops|-1]);
      match ops[|ops|-1]
      case Push(data) => (pulled, contents + [data])
      case Pull => if contents == [] then (pulled, contents) else (pulled + [contents[0]], contents[1..])
  }

  /** In every order of pushes and pulls, whatever thread makes them, the packets come out in the order in
      which they went in; none is lost or repeated. */
  lemma {:induction false} OutThenIn<T>(ops: seq<Op<T>>)
    ensures After(ops).0 + After(ops).1 == Pushed(ops)
  {
    if ops != [] {
      OutThenIn(ops[..|ops|-1]);
    }
  }

  lemma AfterPush<T>(ops: seq<Op<T>>, data: T)
    ensures After(ops + [Push(data)]) == (After(ops).0, After(ops).1 + [data])
  {
    assert (ops + [Push(data)])[..|ops|] == ops;
  }

  lemma AfterPull<T>(ops: seq<Op<T>>)
    ensures After(ops + [Pull]) ==
      var (out, contents) := After(ops);
      if contents == [] then (out, []) else (out + [contents[0]], contents[1..])
  {
    assert (ops + [Pull])[..|ops|] == ops;
  }

  /** A count in an unsigned 32-bit word. */
  function Counter(n: nat): nat { n % WORD }

  lemma CounterSteps(n: nat)
    ensures (Counter(n) + 1) % WORD == Counter(n + 1)
    ensures n > 0 ==> (Counter(n) + WORD - 1) % WORD == Counter(n - 1)
  {}

  class Queue<T> {
    var head: Node?<T>
    var tail: Node?<T>
    var len: nat
    ghost var nodes: seq<Node<T>>
    /** The pushes and pulls so far, by any thread, in the order in which they took the lock. */
    ghost var ops: seq<Op<T>>

    ghost predicate Valid()
      reads this, nodes
    {
      && Chain(head, nodes)
      && tail == (if nodes == [] then null else nodes[|nodes|-1])
      && len == Counter(|nodes|)
      && After(ops).1 == Data(nodes)
    }

    ghost function Contents(): seq<T>
      reads this, nodes
    {
      Data(nodes)
    }

    constructor ()
      ensures Valid() && Contents() == [] && ops == []
    {
      head, tail, len, nodes, ops := null, null, 0, [], [];
    }

    method Push(data: T)
      requires Valid()
      modifies this, tail
      ensures Valid() && Contents() == old(Contents()) + [data] && ops == old(ops) + [Op.Push(data)]
      ensures fresh(set n | n in nodes && n !in old(nodes))
    {
      hide After, Counter;
      AfterPush(ops, data);
      CounterSteps(|nodes|);
      ops := ops + [Op.Push(data)];
      var node := new Node<T>(data);
      if head == null {
        head, tail := node, node;
      } else {
        tail.next := node;
        tail := node;
      }
      len := (len + 1) % WORD;
      nodes := nodes + [node];
    }

    /** The assertions of the source hold: an empty queue has no tail, and the only node no successor. */
    method Pull() returns (data: Option<T>)
      requires Valid()
      modifies this
      ensures Valid() && ops == old(ops) + [Op.Pull]
      ensures old(Contents()) == [] ==> data == None && Contents() == []
      ensures old(Contents()) != [] ==> data == Some(old(Contents())[0]) && Contents() == old(Contents())[1..]
      ensures forall n <- nodes :: n in old(nodes)
    {
      hide After, Counter;
      AfterPull(ops);
      CounterSteps(|nodes|);
      ops := ops + [Op.Pull];
      if head == null {
        assert tail == null;
        data := None;
      } else if head == tail {
        assert head.next == null && tail.next == null;
        data := Some(head.data);
        head, tail := null, null;
        nodes := nodes[1..];
      } else {
        data := Some(head.data);
        head := head.next;
        nodes := nodes[1..];
      }
      if data.Some? {
        len := (len + WORD - 1) % WORD;
      }
    }

    /** What the queue has handed out so far, followed by what it holds, is what has been pushed. */
    lemma FirstInFirstOut()
      requires Valid()
      ensures After(ops).0 + Contents() == Pushed(ops)
    {
      OutThenIn(ops);
    }

    /** Exact as long as the queue holds less than 2^32 packets. */
    method LenGet() returns (r: nat)
      requires Valid()
      ensures r < WORD && (|Contents()| < WORD ==> r == |Contents()|)
    {
      r := len;
    }
  }
}
