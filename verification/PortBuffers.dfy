/** The buffers of a component's ports: one linked list of idle buffers shared by all input ports (the
    output ports have a list of the same kind), the component, and the threads of the client. */
module PortBuffers {
  import opened LinkedChain
  import opened Sequences

  datatype Buffer = Buffer(id: nat, port: nat)

  // ---------- one attempt to take a buffer ----------

  /** Position of the first buffer on `port`, or the number of buffers. */
  function FirstOn(s: seq<Buffer>, port: nat): (k: nat)
    ensures k <= |s|
    ensures forall j :: 0 <= j < k ==> s[j].port != port
    ensures k < |s| ==> s[k].port == port
  {
    if s == [] || s[0].port == port then 0 else 1 + FirstOn(s[1..], port)
  }

  lemma FirstOnIs(s: seq<Buffer>, port: nat, k: nat)
    requires k <= |s| && (k < |s| ==> s[k].port == port)
    requires forall j :: 0 <= j < k ==> s[j].port != port
    ensures FirstOn(s, port) == k
  {}

  /** A retry takes the buffer at the head of the list although an earlier attempt left a predecessor behind. */
  predicate StaleTake(s: seq<Buffer>, port: nat, stale: bool) {
    stale && FirstOn(s, port) == 0 < |s|
  }

  /** What an attempt leaves in the list. */
  function Left(s: seq<Buffer>, port: nat, stale: bool): seq<Buffer> {
    var k := FirstOn(s, port);
    if k == |s| then s
    else if StaleTake(s, port, stale) then [s[0]]
    else Without(s, k)
  }

  /** Whether a failed attempt leaves a predecessor behind. */
  function StaleAfter(s: seq<Buffer>, stale: bool): bool { stale || s != [] }

  // ---------- the list on the heap ----------

  class IdleList {
    var head: Node?<Buffer>
    ghost var nodes: seq<Node<Buffer>>

    ghost predicate Valid()
      reads this, nodes
    {
      Chain(head, nodes)
    }

    constructor ()
      ensures Valid() && nodes == []
    {
      head, nodes := null, [];
    }

    /** The component has emptied a buffer: it goes to the end of the list. */
    method EmptyBufferDone(buf: Node<Buffer>)
      requires Valid() && buf !in nodes
      modifies this, nodes, buf
      ensures Valid() && nodes == old(nodes) + [buf]
      ensures forall n <- nodes :: n.data == old(n.data)
    {
      var list := head;
      ghost var i: nat := 0;
      while list != null && list.next != null
        invariant i <= |nodes| && list == At(nodes, i)
        invariant i == |nodes| ==> i == 0
        decreases |nodes| - i
      {
        list, i := list.next, i + 1;
      }
      if list == null {
        head := buf;
      } else {
        list.next := buf;
      }
      buf.next := null;
      nodes := nodes + [buf];
    }

    /** Searches the list for the first buffer on `port`. */
    method Walk(port: nat, prev: Node?<Buffer>) returns (ret: Node?<Buffer>, prev': Node?<Buffer>, ghost k: nat)
      requires Valid()
      ensures k == FirstOn(Data(nodes), port) <= |nodes|
      ensures ret == At(nodes, k) && prev' == if k == 0 then prev else nodes[k-1]
    {
      ghost var s := Data(nodes);
      k, ret, prev' := 0, head, prev;
      while ret != null && ret.data.port != port
        invariant k <= |nodes| && ret == At(nodes, k)
        invariant prev' == if k == 0 then prev else nodes[k-1]
        invariant forall j :: 0 <= j < k ==> s[j].port != port
        decreases |nodes| - k
      {
        prev', ret, k := ret, ret.next, k + 1;
      }
      FirstOnIs(s, port, k);
    }

    /** Unlinks `ret` behind `prev`, which is its predecessor or, if `stale`, left over from an earlier
        pass: then everything behind `ret` is lost. */
    method Detach(ret: Node<Buffer>, prev: Node?<Buffer>, ghost k: nat, ghost stale: bool)
      requires Valid() && k < |nodes| && ret == nodes[k]
      requires if stale then k == 0 && prev != null && prev != ret else prev == if k == 0 then null else nodes[k-1]
      modifies this, ret`next, (if prev == null then {} else {prev})`next
      ensures Valid() && ret.next == null
      ensures nodes == if stale then [ret] else Without(old(nodes), k)
    {
      ghost var t := Without(nodes, k);
      assert forall i {:trigger t[i]} :: 0 <= i < |t| ==> t[i] == nodes[if i < k then i else i + 1] && t[i] != ret;
      if prev == null {
        head := ret.next;
      } else {
        prev.next := ret.next;
      }
      ret.next := null;
      nodes := if stale then [ret] else t;
    }

    /** One pass of the loop that takes a buffer; `prev` is null in the first pass and keeps its value
        from pass to pass. */
    method Attempt(port: nat, prev: Node?<Buffer>) returns (ret: Node?<Buffer>, prev': Node?<Buffer>)
      requires Valid() && (prev != null ==> prev.data.port != port)
      modifies this, nodes`next, (if prev == null then {} else {prev})`next
      ensures Valid()
      ensures var s, k := old(Data(nodes)), FirstOn(old(Data(nodes)), port);
              && Data(nodes) == Left(s, port, prev != null)
              && (k == |s| ==> ret == null && nodes == old(nodes)
                               && prev' == (if s == [] then prev else old(nodes)[|s|-1]))
              && (k < |s| ==> ret == old(nodes)[k] && ret.next == null && forall n <- nodes :: n in old(nodes))
      ensures ret == null ==> (prev' != null) == StaleAfter(Data(nodes), prev != null)
    {
      hide Chain;
      ghost var s := Data(nodes);
      ghost var k;
      ret, prev', k := Walk(port, prev);
      if ret != null {
        assert ret.data == s[k];
        Detach(ret, prev', k, k == 0 && prev != null);
        assert Data(nodes) == Left(s, port, prev != null);
      }
    }

    /** Not blocking: a single attempt. */
    method GetInputBuffer(port: nat) returns (ret: Node?<Buffer>)
      requires Valid()
      modifies this, nodes`next
      ensures Valid() && Data(nodes) == Left(old(Data(nodes)), port, false)
      ensures var k := FirstOn(old(Data(nodes)), port);
              if k == |old(nodes)| then ret == null && nodes == old(nodes)
              else ret == old(nodes)[k]
    {
      var prev;
      ret, prev := Attempt(port, null);
    }

    /** Allocates buffers until one is refused; `granted` are obtained before that. */
    static method Allocate(port: nat, count: nat, granted: nat)
      returns (list: Node?<Buffer>, end: Node?<Buffer>, i: nat, ghost s: seq<Node<Buffer>>)
      requires granted <= count
      ensures i == granted == |s| && Chain(list, s) && end == (if s == [] then null else s[|s|-1])
      ensures forall j :: 0 <= j < |s| ==> fresh(s[j]) && s[j].data == Buffer(j, port)
    {
      list, end, i, s := null, null, 0, [];
      while i != count && i != granted
        invariant i <= granted && |s| == i
        invariant Chain(list, s) && end == (if i == 0 then null else s[i-1])
        invariant forall j :: 0 <= j < i ==> fresh(s[j]) && s[j].data == Buffer(j, port)
        decreases granted - i
      {
        var buf := new Node<Buffer>(Buffer(i, port));
        if end == null {
          list := buf;
        } else {
          end.next := buf;
        }
        end, s, i := buf, s + [buf], i + 1;
      }
    }

    /** Allocates the buffers of a port and puts them in front of the list, in the order of their
        allocation; `granted` of the `count` buffers are obtained before the first failure. */
    method EnablePortBuffers(port: nat, count: nat, granted: nat) returns (ok: bool)
      requires Valid() && granted <= count
      modifies this
      ensures Valid() && ok == (granted == count)
      ensures |nodes| == granted + |old(nodes)| && nodes[granted..] == old(nodes)
      ensures forall i :: 0 <= i < granted ==> fresh(nodes[i]) && nodes[i].data == Buffer(i, port)
    {
      var list, end, i, s := Allocate(port, count, granted);
      ghost var t := s + nodes;
      assert forall j {:trigger t[j]} :: 0 <= j < |t| ==> t[j] == if j < |s| then s[j] else nodes[j-|s|];
      if end == null {
        list := head;
      } else {
        end.next := head;
      }
      head, nodes := list, t;
      ok := i == count;
    }
  }

  // ---------- all threads ----------

  /** Who has which buffer.  `waiting` are the threads inside a blocking get: their port, and whether
      earlier attempts left a predecessor behind.  `arrived` and `got` are the buffers put on the list and
      taken from it so far. */
  datatype State = State(idle: seq<Buffer>, client: set<Buffer>, component: set<Buffer>,
                         waiting: map<nat, (nat, bool)>, enabled: set<Buffer>,
                         arrived: seq<Buffer>, got: seq<Buffer>)

  datatype Step =
    | Enable(port: nat, buffers: seq<Buffer>)
    | Get(port: nat)
    | Block(thread: nat, port: nat)
    | Try(thread: nat)
    | EmptyThisBuffer(buf: Buffer)
    | Done(buf: Buffer)

  const START: State := State([], {}, {}, map[], {}, [], [])

  /** A successful or failed attempt to take a buffer. */
  function Taken(s: State, port: nat, stale: bool): State {
    var k := FirstOn(s.idle, port);
    if k == |s.idle| then s
    else s.(idle := Left(s.idle, port, stale), client := s.client + {s.idle[k]}, got := s.got + [s.idle[k]])
  }

  ghost predicate Enabled(s: State, step: Step) {
    match step
    case Enable(port, buffers) =>
      NoDup(buffers) && (forall b <- buffers :: b.port == port) && (forall b <- s.enabled :: b.port != port)
    case Get(port) => true
    case Block(thread, port) => thread !in s.waiting
    case Try(thread) => thread in s.waiting
    case EmptyThisBuffer(buf) => buf in s.client
    case Done(buf) => buf in s.component
  }

  function Next(s: State, step: Step): State
    requires Enabled(s, step)
  {
    match step
    case Enable(port, buffers) =>
      s.(idle := buffers + s.idle, enabled := s.enabled + (set b | b in buffers), arrived := s.arrived + buffers)
    case Get(port) => Taken(s, port, false)
    case Block(thread, port) => s.(waiting := s.waiting[thread := (port, false)])
    case Try(thread) =>
      var (port, stale) := s.waiting[thread];
      if FirstOn(s.idle, port) == |s.idle|
      then s.(waiting := s.waiting[thread := (port, StaleAfter(s.idle, stale))])
      else Taken(s, port, stale).(waiting := s.waiting - {thread})
    case EmptyThisBuffer(buf) => s.(client := s.client - {buf}, component := s.component + {buf})
    case Done(buf) =>
      s.(component := s.component - {buf}, idle := s.idle + [buf], arrived := s.arrived + [buf])
  }

  ghost predicate IsRun(run: seq<State>, steps: seq<Step>) {
    && |run| == |steps| + 1 && run[0] == START
    && forall i :: 0 <= i < |steps| ==> Enabled(run[i], steps[i]) && run[i+1] == Next(run[i], steps[i])
  }

  /** The step is a retry that takes the head of the list with a predecessor left over. */
  ghost predicate Stale(s: State, step: Step) {
    && step.Try? && step.thread in s.waiting
    && StaleTake(s.idle, s.waiting[step.thread].0, s.waiting[step.thread].1)
  }

  /** Every enabled buffer is in exactly one place. */
  ghost predicate Owned(s: State) {
    && NoDup(s.idle)
    && (forall b <- s.idle :: b !in s.client && b !in s.component)
    && s.client !! s.component
    && (forall b :: b in s.enabled <==> b in s.idle || b in s.client || b in s.component)
  }

  function OnPort(s: seq<Buffer>, port: nat): (r: seq<Buffer>) {
    if s == [] then [] else (if s[0].port == port then [s[0]] else []) + OnPort(s[1..], port)
  }

  /** On every port the buffers leave the list in the order in which they came to it. */
  ghost predicate Fifo(s: State) {
    forall p :: OnPort(s.arrived, p) == OnPort(s.got, p) + OnPort(s.idle, p)
  }

  /** The buffers on a port are those of the list with this port, in order: see `OnPortJoin` for longer lists. */
  lemma OnPortOne(b: Buffer, port: nat)
    ensures OnPort([], port) == [] && OnPort([b], port) == if b.port == port then [b] else []
  {}

  lemma OnPortFirst(b: Buffer, s: seq<Buffer>, port: nat)
    ensures OnPort([b] + s, port) == (if b.port == port then [b] else []) + OnPort(s, port)
  {
    assert ([b] + s)[1..] == s;
  }

  lemma {:induction false} OnPortJoin(a: seq<Buffer>, b: seq<Buffer>, port: nat)
    ensures OnPort(a + b, port) == OnPort(a, port) + OnPort(b, port)
  {
    if a == [] {
      assert a + b == b && OnPort(a, port) == [];
      hide OnPort;
    } else {
      hide OnPort;
      var x, rest := a[0], a[1..];
      OnPortJoin(rest, b, port);
      OnPortFirst(x, rest + b, port);
      OnPortFirst(x, rest, port);
      assert [x] + rest == a;
      Assoc([x], rest, b);
      Assoc(if x.port == port then [x] else [], OnPort(rest, port), OnPort(b, port));
    }
  }

  lemma {:induction false} NoneOnPort(s: seq<Buffer>, port: nat)
    requires forall b <- s :: b.port != port
    ensures OnPort(s, port) == []
  {
    if s != [] {
      NoneOnPort(s[1..], port);
    }
  }

  /** Taking the first buffer on `port` out of the list takes it out of that port's queue only. */
  lemma TakenOnPort(s: seq<Buffer>, port: nat, p: nat)
    requires FirstOn(s, port) < |s|
    ensures var k := FirstOn(s, port);
            OnPort([s[k]], p) + OnPort(Without(s, k), p) == OnPort(s, p)
  {
    var k := FirstOn(s, port);
    var before, behind := s[..k], s[k+1..];
    assert s == before + ([s[k]] + behind);
    OnPortJoin(before, [s[k]] + behind, p);
    OnPortJoin([s[k]], behind, p);
    OnPortJoin(before, behind, p);
    if p == port {
      NoneOnPort(before, p);
    } else {
      NoneOnPort([s[k]], p);
    }
  }

  lemma FifoTaken(s: State, port: nat)
    requires Fifo(s)
    ensures Fifo(Taken(s, port, false))
  {
    var k := FirstOn(s.idle, port);
    if k < |s.idle| {
      forall p ensures OnPort(s.arrived, p) == OnPort(s.got + [s.idle[k]], p) + OnPort(Without(s.idle, k), p) {
        TakenOnPort(s.idle, port, p);
        OnPortJoin(s.got, [s.idle[k]], p);
      }
    }
  }

  lemma FifoEnable(s: State, port: nat, buffers: seq<Buffer>)
    requires Owned(s) && Fifo(s) && Enabled(s, Enable(port, buffers))
    ensures Fifo(Next(s, Enable(port, buffers)))
  {
    hide OnPort;
    forall p ensures OnPort(s.arrived + buffers, p) == OnPort(s.got, p) + OnPort(buffers + s.idle, p) {
      OnPortJoin(s.arrived, buffers, p);
      OnPortJoin(buffers, s.idle, p);
      if p == port {
        NoneOnPort(s.idle, p);
      } else {
        NoneOnPort(buffers, p);
      }
    }
  }

  lemma FifoDone(s: State, buf: Buffer)
    requires Fifo(s) && Enabled(s, Done(buf))
    ensures Fifo(Next(s, Done(buf)))
  {
    forall p ensures OnPort(s.arrived + [buf], p) == OnPort(s.got, p) + OnPort(s.idle + [buf], p) {
      OnPortJoin(s.arrived, [buf], p);
      OnPortJoin(s.idle, [buf], p);
    }
  }

  lemma OwnedEnable(s: State, port: nat, buffers: seq<Buffer>)
    requires Owned(s) && Enabled(s, Enable(port, buffers))
    ensures Owned(Next(s, Enable(port, buffers)))
  {
    assert forall b <- buffers :: b !in s.enabled;
  }

  lemma OwnedDone(s: State, buf: Buffer)
    requires Owned(s) && Enabled(s, Done(buf))
    ensures Owned(Next(s, Done(buf)))
  {}

  lemma OwnedTaken(s: State, port: nat)
    requires Owned(s)
    ensures Owned(Taken(s, port, false))
  {
    var k := FirstOn(s.idle, port);
    if k < |s.idle| {
      WithoutMembers(s.idle, k);
    }
  }

  /** A step keeps every buffer in exactly one place, unless it is a stale take, which always breaks it. */
  lemma OwnedExactlyUnlessStale(s: State, step: Step)
    requires Owned(s) && Enabled(s, step)
    ensures Owned(Next(s, step)) <==> !Stale(s, step)
  {
    match step
    case Enable(port, buffers) => OwnedEnable(s, port, buffers);
    case Get(port) => OwnedTaken(s, port);
    case Block(thread, port) =>
    case Try(thread) =>
      OwnedTaken(s, s.waiting[thread].0);
      if Stale(s, step) {
        var t := Next(s, step);
        assert t.idle[0] == s.idle[0] && s.idle[0] in t.client;
      }
    case EmptyThisBuffer(buf) =>
    case Done(buf) => OwnedDone(s, buf);
  }

  lemma FifoStep(s: State, step: Step)
    requires Owned(s) && Fifo(s) && Enabled(s, step) && !Stale(s, step)
    ensures Fifo(Next(s, step))
  {
    match step
    case Enable(port, buffers) => FifoEnable(s, port, buffers);
    case Get(port) => FifoTaken(s, port);
    case Block(thread, port) =>
    case Try(thread) =>
      FifoTaken(s, s.waiting[thread].0);
      assert Left(s.idle, s.waiting[thread].0, s.waiting[thread].1) == Left(s.idle, s.waiting[thread].0, false);
    case EmptyThisBuffer(buf) =>
    case Done(buf) => FifoDone(s, buf);
  }

  /** In every run without a stale take each buffer is always in exactly one place, and on each port the
      buffers are handed out in the order in which they came back. */
  lemma {:induction false} OwnershipAndOrder(run: seq<State>, steps: seq<Step>, n: nat)
    requires IsRun(run, steps) && n <= |steps|
    requires forall i :: 0 <= i < n ==> !Stale(run[i], steps[i])
    ensures Owned(run[n]) && Fifo(run[n])
  {
    if n > 0 {
      OwnershipAndOrder(run, steps, n - 1);
      OwnedExactlyUnlessStale(run[n-1], steps[n-1]);
      FifoStep(run[n-1], steps[n-1]);
    }
  }

  /** What a get and a retry do, buffer by buffer: `k` is the position of the first buffer on the port asked for.
      A retry with a predecessor left over that finds its buffer at the head leaves that buffer on the list and
      drops the others. */
  lemma AttemptMeans(s: State, port: nat, thread: nat, stale: bool, k: nat)
    requires k <= |s.idle| && (forall j :: 0 <= j < k ==> s.idle[j].port != port)
    requires k < |s.idle| ==> s.idle[k].port == port
    requires thread in s.waiting && s.waiting[thread] == (port, stale)
    ensures k < |s.idle| ==>
              var b := s.idle[k];
              var t := s.(idle := s.idle[..k] + s.idle[k+1..], client := s.client + {b}, got := s.got + [b]);
              && Next(s, Get(port)) == t
              && Next(s, Try(thread)) == t.(waiting := s.waiting - {thread},
                                            idle := if stale && k == 0 then [b] else t.idle)
    ensures k == |s.idle| ==>
              && Next(s, Get(port)) == s
              && Next(s, Try(thread)) == s.(waiting := s.waiting[thread := (port, stale || s.idle != [])])
  {
    FirstOnIs(s.idle, port, k);
  }

  /** All list traffic concerns one port. */
  ghost predicate OnePort(steps: seq<Step>, port: nat) {
    forall st <- steps :: (st.Enable? || st.Get? || st.Block?) ==> st.port == port
  }

  ghost predicate NeverStale(s: State, port: nat) {
    && (forall b <- s.enabled :: b.port == port)
    && (forall t <- s.waiting :: s.waiting[t] == (port, false))
  }

  /** A component whose list serves a single port, as both uses of the list in the program do, never
      makes a stale take, however many threads wait. */
  lemma {:induction false} OnePortIsSafe(run: seq<State>, steps: seq<Step>, port: nat, n: nat)
    requires IsRun(run, steps) && OnePort(steps, port) && n <= |steps|
    ensures Owned(run[n]) && Fifo(run[n]) && NeverStale(run[n], port)
    ensures n < |steps| ==> !Stale(run[n], steps[n])
  {
    if n > 0 {
      OnePortIsSafe(run, steps, port, n - 1);
      var s, step := run[n-1], steps[n-1];
      assert step in steps;
      OwnedExactlyUnlessStale(s, step);
      FifoStep(s, step);
      if step.Try? && s.idle != [] {
        assert s.idle[0] in s.enabled;
        FirstOnIs(s.idle, port, 0);
      }
    }
  }

  lemma Extend(run: seq<State>, steps: seq<Step>, step: Step, t: State)
    returns (run': seq<State>, steps': seq<Step>)
    requires IsRun(run, steps) && Enabled(run[|steps|], step) && t == Next(run[|steps|], step)
    ensures IsRun(run', steps') && |run'| == |steps'| + 1 && run'[|steps'|] == t
  {
    run', steps' := run + [t], steps + [step];
  }

  /** With two ports on the list, a thread that waits for port 1 while a buffer of port 2 is idle ends up
      with a buffer that is also still on the list. */
  lemma TwoPortsLoseABuffer() returns (run: seq<State>, steps: seq<Step>)
    ensures IsRun(run, steps) && Buffer(0, 1) in run[|steps|].idle && Buffer(0, 1) in run[|steps|].client
  {
    hide FirstOn, IsRun;
    var a, b := Buffer(0, 1), Buffer(0, 2);
    var s;
    run, steps, s := WaitingBehind(a, b);
    FirstOnIs([b], 2, 0);
    FirstOnIs([a], 1, 0);
    assert Without([b], 0) == [] && [] + [a] == [a];
    var s1 := s.(idle := [], client := {b}, got := [a, b]);
    run, steps := Extend(run, steps, Get(2), s1);
    var s2 := s1.(component := {}, idle := [a], arrived := s1.arrived + [a]);
    run, steps := Extend(run, steps, Done(a), s2);
    run, steps := Extend(run, steps, Try(7), s2.(client := {b, a}, got := s2.got + [a], waiting := map[]));
  }

  lemma WaitingBehind(a: Buffer, b: Buffer) returns (run: seq<State>, steps: seq<Step>, s: State)
    requires a.port == 1 && b.port == 2
    ensures IsRun(run, steps) && |run| == |steps| + 1 && run[|steps|] == s
    ensures s == State([b], {}, {a}, map[7 := (1, true)], {b, a}, [b, a], [a])
  {
    hide FirstOn, IsRun;
    FirstOnIs([a, b], 1, 0);
    FirstOnIs([b], 1, 1);
    assert Without([a, b], 0) == [b];
    run, steps := BothEnabled(a, b);
    var s1 := State([b], {a}, {}, map[], {b, a}, [b, a], [a]);
    run, steps := Extend(run, steps, Get(1), s1);
    var s2 := s1.(client := {}, component := {a});
    run, steps := Extend(run, steps, EmptyThisBuffer(a), s2);
    var s3 := s2.(waiting := map[7 := (1, false)]);
    run, steps := Extend(run, steps, Block(7, 1), s3);
    s := s3.(waiting := map[7 := (1, true)]);
    run, steps := Extend(run, steps, Try(7), s);
  }

  lemma BothEnabled(a: Buffer, b: Buffer) returns (run: seq<State>, steps: seq<Step>)
    requires a.port == 1 && b.port == 2
    ensures IsRun(run, steps) && |run| == |steps| + 1
    ensures run[|steps|] == START.(idle := [a, b], enabled := {b, a}, arrived := [b, a])
  {
    hide IsRun;
    assert [a] + [b] == [a, b];
    run, steps := Begin();
    var s1 := START.(idle := [b], enabled := {b}, arrived := [b]);
    run, steps := Extend(run, steps, Enable(2, [b]), s1);
    run, steps := Extend(run, steps, Enable(1, [a]), s1.(idle := [a, b], enabled := {b, a}, arrived := [b, a]));
  }

  lemma Begin() returns (run: seq<State>, steps: seq<Step>)
    ensures IsRun(run, steps) && |run| == |steps| + 1 && run[|steps|] == START
  {
    run, steps := [START], [];
  }
}
