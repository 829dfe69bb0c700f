/** The video path as a concurrent system: demultiplexer, decoder, packing and presenting threads over
    their queues, and the hardware component that returns buffers.  Each step is one queue operation,
    one buffer operation or one thread-local computation; any interleaving is allowed. */
module VideoPipeline {
  import opened Clocks
  import opened TsPacket
  import opened Demux
  import opened VideoDecoder
  import opened SlicePacking
  import opened Sequences

  const READY_MAX: nat := 10

  /** A packed slice: its time stamp and its hardware buffers, by number. */
  datatype ReadySlice = ReadySlice(timestamp: nat, bufs: seq<nat>)

  datatype Packer =
    | Resting
    | Pulling(todo: nat)
    | Opening(todo: nat, slice: Slice)
    | Copying(todo: nat, slice: Slice, rest: seq<seq<Byte>>, full: seq<nat>, cur: nat)

  datatype Presenter = Waiting | Holding(r: ReadySlice) | Submitting(left: seq<nat>)

  datatype State = State(
    // queues
    packets: seq<Packet>, video: seq<Packet>, slices: seq<Slice>, ready: seq<ReadySlice>,
    // threads; a thread's hand holds at most one packet
    demuxHand: seq<Packet>, decoderHand: seq<Packet>, decoder: Decoder, packer: Packer, presenter: Presenter,
    // hardware buffers
    contents: map<nat, seq<Byte>>, idle: seq<nat>, component: seq<nat>,
    // history
    arrived: seq<Packet>, decoded: seq<Packet>, packed: seq<Slice>, submitted: seq<seq<Byte>>)

  datatype Step =
    | Arrive(p: Packet)
    | DemuxTake
    | DemuxRoute
    | DecoderTake
    | DecoderProcess
    | PackSample
    | PackTake
    | PackOpen
    | PackCopy
    | PackNextBuffer
    | PackPut
    | PresentTake
    | PresentStart(time: nat)
    | PresentSubmit
    | ReturnBuffer(i: nat)

  predicate Enabled(s: State, step: Step) {
    match step
    case Arrive(p) => PacketOk(p)
    case DemuxTake => s.demuxHand == [] && s.packets != []
    case DemuxRoute => s.demuxHand != []
    case DecoderTake => s.decoderHand == [] && s.video != []
    case DecoderProcess => s.decoderHand != [] && VideoPacket(s.decoderHand[0])
    case PackSample => s.packer.Resting?
    case PackTake => s.packer.Pulling?
    case PackOpen => s.packer.Opening? && s.idle != []            // asserted by the source
                     && VideoPackets(s.packer.slice.packets)
    case PackCopy => s.packer.Copying? && s.packer.rest != [] && s.packer.cur in s.contents
                     && |s.contents[s.packer.cur]| + |s.packer.rest[0]| <= HW_MAX
    case PackNextBuffer => s.packer.Copying? && s.packer.rest != [] && s.packer.cur in s.contents
                           && |s.contents[s.packer.cur]| + |s.packer.rest[0]| > HW_MAX
                           && s.idle != []                        // asserted by the source
    case PackPut => s.packer.Copying? && s.packer.rest == []
    case PresentTake => s.presenter.Waiting? && s.ready != []
    case PresentStart(time) => s.presenter.Holding? && time > s.presenter.r.timestamp
    case PresentSubmit => s.presenter.Submitting? && (s.presenter.left != [] ==> s.presenter.left[0] in s.contents)
    case ReturnBuffer(i) => i < |s.component|
  }

  function Chunks(slice: Slice): seq<seq<Byte>>
    requires VideoPackets(slice.packets)
  {
    Payloads(slice.packets)
  }

  function Apply(s: State, step: Step): State
    requires Enabled(s, step)
  {
    match step
    case Arrive(p) => s.(packets := s.packets + [p], arrived := s.arrived + [p])
    case DemuxTake => s.(demuxHand := [s.packets[0]], packets := s.packets[1..])
    case DemuxRoute =>
      s.(demuxHand := s.demuxHand[1..],
         video := s.video + if TypeOf(s.demuxHand[0].ts) == VideoPkt then [s.demuxHand[0]] else [])
    case DecoderTake => s.(decoderHand := [s.video[0]], video := s.video[1..])
    case DecoderProcess =>
      var p := s.decoderHand[0];
      var d := VideoDecoder.Step(s.decoder, p);
      s.(decoderHand := s.decoderHand[1..], decoder := d, decoded := s.decoded + [p],
         slices := s.slices + if |d.emitted| > |s.decoder.emitted| then [d.emitted[|d.emitted|-1]] else [])
    case PackSample =>
      s.(packer := if |s.ready| >= READY_MAX then Resting else Pulling(READY_MAX - |s.ready|))
    case PackTake =>
      if s.slices == [] then s.(packer := Resting)
      else s.(packer := Opening(s.packer.todo, s.slices[0]), slices := s.slices[1..])
    case PackOpen =>
      s.(packer := Copying(s.packer.todo, s.packer.slice, Chunks(s.packer.slice), [], s.idle[0]),
         idle := s.idle[1..], contents := s.contents[s.idle[0] := []])
    case PackCopy =>
      var k := s.packer;
      s.(packer := k.(rest := k.rest[1..]), contents := s.contents[k.cur := s.contents[k.cur] + k.rest[0]])
    case PackNextBuffer =>
      var k := s.packer;
      s.(packer := k.(full := k.full + [k.cur], cur := s.idle[0]),
         idle := s.idle[1..], contents := s.contents[s.idle[0] := []])
    case PackPut =>
      var k := s.packer;
      s.(packer := if k.todo > 1 then Pulling(k.todo - 1) else Resting,
         packed := s.packed + [k.slice],
         ready := s.ready + [ReadySlice(k.slice.timestamp, k.full + [k.cur])])
    case PresentTake => s.(presenter := Holding(s.ready[0]), ready := s.ready[1..])
    case PresentStart(_) => s.(presenter := Submitting(s.presenter.r.bufs))
    case PresentSubmit =>
      var left := s.presenter.left;
      if left == [] then s.(presenter := Waiting)
      else s.(presenter := Submitting(left[1..]),
              submitted := s.submitted + [s.contents[left[0]]],
              component := s.component + [left[0]])
    case ReturnBuffer(i) =>
      s.(component := Without(s.component, i), idle := s.idle + [s.component[i]])
  }

  /** All enabled buffers are idle and nothing has arrived. */
  predicate Initial(s: State, bufs: seq<nat>) {
    && s == State([], [], [], [], [], [], START, Resting, Waiting, s.contents, bufs, [], [], [], [], [])
    && (forall b :: b in bufs ==> b in s.contents)
    && (forall i, j :: 0 <= i < j < |bufs| ==> bufs[i] != bufs[j])
  }

  // ---------- what is in flight ----------

  function FlatBufs(ready: seq<ReadySlice>): seq<nat> {
    if ready == [] then [] else ready[0].bufs + FlatBufs(ready[1..])
  }

  function PresenterBufs(p: Presenter): seq<nat> {
    match p
    case Waiting => []
    case Holding(r) => r.bufs
    case Submitting(left) => left
  }

  /** The packed buffers not yet submitted, in order. */
  function Line(s: State): seq<nat> {
    PresenterBufs(s.presenter) + FlatBufs(s.ready)
  }

  function PackerBufs(p: Packer): seq<nat> {
    if p.Copying? then p.full + [p.cur] else []
  }

  /** Every buffer with its current holder: idle list, component, packed line or packing thread. */
  function Held(s: State): multiset<nat> {
    multiset(s.idle) + multiset(s.component) + multiset(Line(s)) + multiset(PackerBufs(s.packer))
  }

  function ContentsOf(contents: map<nat, seq<Byte>>, bufs: seq<nat>): (r: seq<seq<Byte>>)
    requires forall b :: b in bufs ==> b in contents
    ensures |r| == |bufs|
  {
    if bufs == [] then []
    else
      assert bufs == bufs[..|bufs|-1] + [bufs[|bufs|-1]];
      ContentsOf(contents, bufs[..|bufs|-1]) + [contents[bufs[|bufs|-1]]]
  }

  predicate VideoSlices(ss: seq<Slice>) {
    forall i :: 0 <= i < |ss| ==> VideoPackets(ss[i].packets)
  }

  function PackAll(ss: seq<Slice>): seq<seq<Byte>>
    requires VideoSlices(ss)
  {
    if ss == [] then [] else PackAll(ss[..|ss|-1]) + Pack(Chunks(ss[|ss|-1]), [])
  }

  function SliceInHand(p: Packer): seq<Slice> {
    match p
    case Opening(_, slice) => [slice]
    case Copying(_, slice, _, _, _) => [slice]
    case _ => []
  }

  // ---------- invariants ----------

  /** The decoder has processed a prefix of the arrived video packets, in order. */
  ghost predicate PacketInv(s: State) {
    && (forall i :: 0 <= i < |s.arrived| ==> PacketOk(s.arrived[i]))
    && s.decoded + s.decoderHand + s.video + Select(s.demuxHand, VideoPkt) + Select(s.packets, VideoPkt)
       == Select(s.arrived, VideoPkt)
    && VideoPackets(Select(s.arrived, VideoPkt))
    && VideoPackets(s.decoded) && s.decoder == Decode(s.decoded)
    && |s.decoderHand| <= 1 && |s.demuxHand| <= 1
  }

  /** Emitted slices are packed, in the packing thread's hand or on the slice queue, in order. */
  ghost predicate SliceInv(s: State) {
    && s.decoder.emitted == s.packed + SliceInHand(s.packer) + s.slices
    && VideoSlices(s.decoder.emitted)
  }

  /** Each buffer is enabled and in exactly one place. */
  ghost predicate BufferInv(s: State, bufs: seq<nat>) {
    && Held(s) == multiset(bufs)
    && (forall b :: b in bufs ==> b in s.contents)
    && (forall b :: multiset(bufs)[b] <= 1)
  }

  /** What has been submitted and what waits in line are the packed slices, buffer by buffer. */
  ghost predicate LineInv(s: State) {
    && (forall b :: b in Line(s) ==> b in s.contents)
    && VideoSlices(s.packed)
    && s.submitted + ContentsOf(s.contents, Line(s)) == PackAll(s.packed)
  }

  /** The buffers filled so far and the payloads left to copy make up the packed slice. */
  ghost predicate CopyInv(s: State) {
    s.packer.Copying? ==>
      var k := s.packer;
      && VideoPackets(k.slice.packets)
      && (forall i :: 0 <= i < |k.rest| ==> |k.rest[i]| <= TS_PAYLOAD)
      && k.cur in s.contents && |s.contents[k.cur]| <= HW_MAX
      && (forall b :: b in k.full ==> b in s.contents)
      && ContentsOf(s.contents, k.full) + Pack(k.rest, s.contents[k.cur]) == Pack(Chunks(k.slice), [])
  }

  ghost predicate ReadyInv(s: State) {
    && |s.ready| <= READY_MAX
    && (!s.packer.Resting? ==> s.packer.todo > 0 && |s.ready| + s.packer.todo <= READY_MAX)
  }

  lemma {:induction false} SelectedAreVideo(ps: seq<Packet>)
    requires forall i :: 0 <= i < |ps| ==> PacketOk(ps[i])
    ensures VideoPackets(Select(ps, VideoPkt))
  {
    if ps != [] {
      SelectedAreVideo(ps[1..]);
      if TypeOf(ps[0].ts) == VideoPkt {
        VideoIsRouted(ps[0].ts);
      }
    }
  }

  lemma ArrivalKept(s: State, p: Packet)
    requires PacketInv(s) && PacketOk(p)
    ensures PacketInv(Apply(s, Arrive(p)))
  {
    hide PacketOk, Routed, TypeOf, Select, Decode;
    SelectAppend(s.packets, [p], VideoPkt);
    SelectAppend(s.arrived, [p], VideoPkt);
    SelectedAreVideo(s.arrived + [p]);
  }

  lemma SelectHead(ps: seq<Packet>)
    requires ps != []
    ensures Select(ps, VideoPkt) == Select([ps[0]], VideoPkt) + Select(ps[1..], VideoPkt)
  {
    assert ps == [ps[0]] + ps[1..];
    SelectAppend([ps[0]], ps[1..], VideoPkt);
  }

  lemma SelectOne(p: Packet)
    ensures Select([], VideoPkt) == []
    ensures Select([p], VideoPkt) == if TypeOf(p.ts) == VideoPkt then [p] else []
  {}

  lemma DemuxTakeKept(s: State)
    requires PacketInv(s) && Enabled(s, DemuxTake)
    ensures PacketInv(Apply(s, DemuxTake))
  {
    SelectHead(s.packets);
    SelectOne(s.packets[0]);
    hide PacketOk, Routed, TypeOf, Select, VideoPackets, Decode;
    var x := s.decoded + s.decoderHand + s.video;
    Assoc(x, Select([s.packets[0]], VideoPkt), Select(s.packets[1..], VideoPkt));
    assert x + [] == x;
  }

  lemma Regroup<T>(x: seq<T>, v: seq<T>, a: seq<T>, b: seq<T>)
    ensures x + (v + a) + [] + b == x + v + a + b
  {}

  lemma DemuxRouteKept(s: State)
    requires PacketInv(s) && Enabled(s, DemuxRoute)
    ensures PacketInv(Apply(s, DemuxRoute))
  {
    SelectOne(s.demuxHand[0]);
    hide PacketOk, Routed, TypeOf, Select, VideoPackets, Decode;
    assert s.demuxHand == [s.demuxHand[0]] && s.demuxHand[1..] == [];
    Regroup(s.decoded + s.decoderHand, s.video, Select(s.demuxHand, VideoPkt), Select(s.packets, VideoPkt));
  }

  lemma DecoderKept(s: State, step: Step)
    requires PacketInv(s) && Enabled(s, step) && (step.DecoderTake? || step.DecoderProcess?)
    ensures PacketInv(Apply(s, step))
  {
    hide PacketOk, Routed, TypeOf, Select, VideoDecoder.Step, Decode;
    if step.DecoderTake? {
      assert s.video == [s.video[0]] + s.video[1..];
    } else {
      assert s.decoderHand == [s.decoderHand[0]] && s.decoderHand[1..] == [];
      DecodeStep(s.decoded, s.decoderHand[0]);
    }
  }

  lemma PacketKept(s: State, step: Step)
    requires PacketInv(s) && Enabled(s, step)
    ensures PacketInv(Apply(s, step))
  {
    match step {
      case Arrive(p) => ArrivalKept(s, p);
      case DemuxTake => DemuxTakeKept(s);
      case DemuxRoute => DemuxRouteKept(s);
      case DecoderTake => DecoderKept(s, step);
      case DecoderProcess => DecoderKept(s, step);
      case _ =>
        hide PacketOk, Routed, TypeOf, Select, VideoDecoder.Step, Decode, VideoPackets;
    }
  }

  lemma EmittedAreVideo(ps: seq<Packet>)
    requires VideoPackets(ps)
    ensures VideoSlices(Decode(ps).emitted)
  {
    hide Decode, Log;
    EveryEmissionLogged(ps);
    forall i | 0 <= i < |Decode(ps).emitted| ensures VideoPackets(Decode(ps).emitted[i].packets) {
      assert Describes(ps, Log(ps)[i], Decode(ps).emitted[i]);
    }
  }

  lemma DecoderAppends(ps: seq<Packet>, p: Packet)
    requires VideoPackets(ps) && VideoPacket(p)
    ensures var d, e := Decode(ps), VideoDecoder.Step(Decode(ps), p);
            e.emitted == d.emitted + if |e.emitted| > |d.emitted| then [e.emitted[|e.emitted|-1]] else []
    ensures VideoSlices(VideoDecoder.Step(Decode(ps), p).emitted)
  {
    Assembly(ps);
    StepEmits(Decode(ps), p);
    DecodeStep(ps, p);
    EmittedAreVideo(ps + [p]);
  }

  lemma SliceKept(s: State, step: Step)
    requires PacketInv(s) && SliceInv(s) && Enabled(s, step)
    ensures SliceInv(Apply(s, step))
  {
    hide PacketOk, Routed, VideoTs, TypeOf, VideoDecoder.Step, Decode, VideoSlices;
    match step {
      case DecoderProcess => DecoderAppends(s.decoded, s.decoderHand[0]);
      case _ =>
    }
  }

  lemma {:induction false} FlatAppend(a: seq<ReadySlice>, r: ReadySlice)
    ensures FlatBufs(a + [r]) == FlatBufs(a) + r.bufs
  {
    if a == [] {
      assert [r][1..] == [];
    } else {
      assert (a + [r])[1..] == a[1..] + [r];
      FlatAppend(a[1..], r);
    }
  }

  /** How the queue of packed buffers moves in one step. */
  lemma LineMoves(s: State, step: Step)
    requires Enabled(s, step)
    ensures var t := Apply(s, step);
            Line(t) ==
              if step.PackPut? then Line(s) + PackerBufs(s.packer)
              else if step.PresentSubmit? && s.presenter.left != [] then Line(s)[1..]
              else Line(s)
  {
    if step.PackPut? {
      FlatAppend(s.ready, ReadySlice(s.packer.slice.timestamp, s.packer.full + [s.packer.cur]));
    }
  }

  lemma MoveHead(a: seq<nat>)
    requires a != []
    ensures multiset(a) == multiset{a[0]} + multiset(a[1..])
  {
    assert a == [a[0]] + a[1..];
  }

  lemma TakeFirst(idle: seq<nat>, component: multiset<nat>, line: multiset<nat>, own: seq<nat>)
    requires idle != []
    ensures multiset(idle) + component + line + multiset(own)
         == multiset(idle[1..]) + component + line + multiset(own + [idle[0]])
  {
    MoveHead(idle);
  }

  lemma TakeMoves(s: State, step: Step)
    requires Enabled(s, step) && (step.PackOpen? || step.PackNextBuffer?)
    ensures var t := Apply(s, step);
            && s.idle != [] && t.idle == s.idle[1..] && t.component == s.component
            && PackerBufs(t.packer) == PackerBufs(s.packer) + [s.idle[0]]
  {
    hide Chunks;
  }

  lemma HeldKeptByTake(s: State, step: Step)
    requires Enabled(s, step) && (step.PackOpen? || step.PackNextBuffer?)
    ensures Held(Apply(s, step)) == Held(s)
  {
    hide FlatBufs, Line, Chunks, Apply, Enabled, PackerBufs;
    LineMoves(s, step);
    TakeMoves(s, step);
    TakeFirst(s.idle, multiset(s.component), multiset(Line(s)), PackerBufs(s.packer));
  }

  lemma HeldKeptByPut(s: State)
    requires Enabled(s, PackPut)
    ensures Held(Apply(s, PackPut)) == Held(s)
  {
    LineMoves(s, PackPut);
    hide FlatBufs, Line, Chunks;
    var t := Apply(s, PackPut);
    assert multiset(Line(t)) == multiset(Line(s)) + multiset(PackerBufs(s.packer));
    assert PackerBufs(t.packer) == [];
  }

  lemma MoveAt(a: seq<nat>, i: nat)
    requires i < |a|
    ensures multiset(a) == multiset{a[i]} + multiset(Without(a, i))
  {
    assert a == a[..i] + [a[i]] + a[i+1..];
  }

  lemma HeldKeptBySubmit(s: State)
    requires Enabled(s, PresentSubmit)
    ensures Held(Apply(s, PresentSubmit)) == Held(s)
  {
    LineMoves(s, PresentSubmit);
    LineStarts(s);
    hide FlatBufs, Line;
    if s.presenter.left != [] {
      MoveHead(Line(s));
    }
  }

  lemma GiveBack(idle: seq<nat>, component: seq<nat>, i: nat, line: multiset<nat>, own: multiset<nat>)
    requires i < |component|
    ensures multiset(idle) + multiset(component) + line + own
         == multiset(idle + [component[i]]) + multiset(Without(component, i)) + line + own
  {
    MoveAt(component, i);
  }

  lemma HeldKeptByReturn(s: State, i: nat)
    requires Enabled(s, ReturnBuffer(i))
    ensures Held(Apply(s, ReturnBuffer(i))) == Held(s)
  {
    hide FlatBufs, Line, Without, PackerBufs;
    LineMoves(s, ReturnBuffer(i));
    GiveBack(s.idle, s.component, i, multiset(Line(s)), multiset(PackerBufs(s.packer)));
  }

  /** No step duplicates or loses a buffer. */
  lemma HeldKept(s: State, step: Step)
    requires Enabled(s, step)
    ensures Held(Apply(s, step)) == Held(s)
  {
    match step {
      case PackOpen => HeldKeptByTake(s, step);
      case PackNextBuffer => HeldKeptByTake(s, step);
      case PackPut => HeldKeptByPut(s);
      case PresentSubmit => HeldKeptBySubmit(s);
      case ReturnBuffer(i) => HeldKeptByReturn(s, i);
      case _ =>
        LineMoves(s, step);
        hide FlatBufs, Line, Chunks, VideoDecoder.Step;
        assert PackerBufs(Apply(s, step).packer) == PackerBufs(s.packer);
    }
  }

  lemma BufferKept(s: State, step: Step, bufs: seq<nat>)
    requires BufferInv(s, bufs) && Enabled(s, step)
    ensures BufferInv(Apply(s, step), bufs)
  {
    hide Held, VideoDecoder.Step;
    HeldKept(s, step);
  }

  lemma LineStarts(s: State)
    ensures s.presenter.Submitting? && s.presenter.left != [] ==>
      Line(s) != [] && Line(s)[0] == s.presenter.left[0]
  {}

  // ---------- the byte stream ----------

  lemma {:induction false} ContentsAppend(contents: map<nat, seq<Byte>>, a: seq<nat>, b: seq<nat>)
    requires forall x :: x in a || x in b ==> x in contents
    ensures ContentsOf(contents, a + b) == ContentsOf(contents, a) + ContentsOf(contents, b)
  {
    if b == [] {
      assert a + b == a;
    } else {
      var n := |b| - 1;
      assert b == b[..n] + [b[n]];
      assert (a + b)[..|a + b| - 1] == a + b[..n];
      ContentsAppend(contents, a, b[..n]);
    }
  }

  lemma {:induction false} ContentsSame(c: map<nat, seq<Byte>>, d: map<nat, seq<Byte>>, a: seq<nat>)
    requires forall x :: x in a ==> x in c && x in d && c[x] == d[x]
    ensures ContentsOf(c, a) == ContentsOf(d, a)
  {
    if a != [] {
      var n := |a| - 1;
      assert a == a[..n] + [a[n]];
      ContentsSame(c, d, a[..n]);
    }
  }

  lemma ContentsOne(contents: map<nat, seq<Byte>>, b: nat)
    requires b in contents
    ensures ContentsOf(contents, [b]) == [contents[b]]
  {
    assert [b][..0] == [];
  }

  lemma AtMostOnce(i: multiset<nat>, c: multiset<nat>, l: multiset<nat>, p: multiset<nat>, all: multiset<nat>)
    requires i + c + l + p == all && forall b :: all[b] <= 1
    ensures forall b :: b in i ==> b !in l && b !in p
    ensures forall b :: b in p ==> b !in l
    ensures forall b :: p[b] <= 1
    ensures forall b :: b in i || b in l || b in p ==> b in all
  {
    forall b ensures i[b] + c[b] + l[b] + p[b] == all[b] {
      assert (i + c + l + p)[b] == all[b];
    }
  }

  /** No buffer is in two places. */
  lemma Apart(s: State, bufs: seq<nat>)
    requires BufferInv(s, bufs)
    ensures forall b :: b in s.idle || b in Line(s) || b in PackerBufs(s.packer) ==> b in s.contents
    ensures forall b :: b in s.idle ==> b !in Line(s) && b !in PackerBufs(s.packer)
    ensures forall b :: b in PackerBufs(s.packer) ==> b !in Line(s)
    ensures forall b :: multiset(PackerBufs(s.packer))[b] <= 1
  {
    hide Line, FlatBufs, PackerBufs;
    AtMostOnce(multiset(s.idle), multiset(s.component), multiset(Line(s)), multiset(PackerBufs(s.packer)),
               multiset(bufs));
    assert forall b :: b in multiset(bufs) ==> b in bufs;
    assert forall b :: b in s.idle ==> b in multiset(s.idle);
    assert forall b :: b in Line(s) ==> b in multiset(Line(s));
    assert forall b :: b in PackerBufs(s.packer) ==> b in multiset(PackerBufs(s.packer));
  }

  /** The buffer being filled is not among those the slice has filled already. */
  lemma CurrentApart(k: Packer)
    requires k.Copying? && forall b :: multiset(PackerBufs(k))[b] <= 1
    ensures k.cur !in k.full && k.cur in PackerBufs(k)
    ensures forall b :: b in k.full ==> b in PackerBufs(k)
  {
    assert PackerBufs(k) == k.full + [k.cur];
    assert multiset(PackerBufs(k))[k.cur] == multiset(k.full)[k.cur] + 1;
  }

  /** No buffer that waits in line is written to. */
  lemma NoOverwrite(s: State, step: Step, bufs: seq<nat>)
    requires BufferInv(s, bufs) && Enabled(s, step)
    ensures forall b :: b in Line(s) ==> b in s.contents && b in Apply(s, step).contents
    ensures forall b :: b in Line(s) ==> Apply(s, step).contents[b] == s.contents[b]
  {
    Apart(s, bufs);
    if s.packer.Copying? {
      CurrentApart(s.packer);
    }
    hide Line, BufferInv, PackerBufs, Chunks, VideoDecoder.Step;
  }

  lemma HistoryMoves(s: State, step: Step)
    requires Enabled(s, step)
    ensures Apply(s, step).packed == s.packed + if step.PackPut? then [s.packer.slice] else []
    ensures Apply(s, step).submitted == s.submitted +
      if step.PresentSubmit? && s.presenter.left != [] then [s.contents[s.presenter.left[0]]] else []
  {
    hide Chunks, VideoDecoder.Step, PackerBufs;
  }

  lemma PutStream(contents: map<nat, seq<Byte>>, line: seq<nat>, own: seq<nat>, submitted: seq<seq<Byte>>,
                  packed: seq<Slice>, slice: Slice)
    requires forall b :: b in line || b in own ==> b in contents
    requires VideoPackets(slice.packets)
    requires VideoSlices(packed)
    requires submitted + ContentsOf(contents, line) == PackAll(packed)
    requires ContentsOf(contents, own) == Pack(Chunks(slice), [])
    ensures VideoSlices(packed + [slice])
    ensures submitted + ContentsOf(contents, line + own) == PackAll(packed + [slice])
  {
    PackAllAppend(packed, slice);
    ContentsAppend(contents, line, own);
    hide *;
    Assoc(submitted, ContentsOf(contents, line), ContentsOf(contents, own));
  }

  lemma PackAllAppend(packed: seq<Slice>, slice: Slice)
    requires VideoSlices(packed) && VideoPackets(slice.packets)
    ensures VideoSlices(packed + [slice])
    ensures PackAll(packed + [slice]) == PackAll(packed) + Pack(Chunks(slice), [])
  {
    assert (packed + [slice])[..|packed|] == packed;
  }

  lemma SubmitStream(contents: map<nat, seq<Byte>>, line: seq<nat>, submitted: seq<seq<Byte>>)
    requires line != [] && forall b :: b in line ==> b in contents
    ensures submitted + [contents[line[0]]] + ContentsOf(contents, line[1..]) == submitted + ContentsOf(contents, line)
  {
    assert line == [line[0]] + line[1..];
    ContentsAppend(contents, [line[0]], line[1..]);
    ContentsOne(contents, line[0]);
  }

  lemma PutKeepsLine(s: State, bufs: seq<nat>)
    requires BufferInv(s, bufs) && LineInv(s) && CopyInv(s) && Enabled(s, PackPut)
    ensures LineInv(Apply(s, PackPut))
  {
    LineMoves(s, PackPut);
    HistoryMoves(s, PackPut);
    PackerMoves(s, PackPut);
    PutPacks(s, bufs);
    hide Line, BufferInv, PackerBufs, Chunks, CopyInv, Pack, Apply, PackAll, ContentsOf, VideoPackets, VideoSlices,
         Enabled;
    PutStream(s.contents, Line(s), PackerBufs(s.packer), s.submitted, s.packed, s.packer.slice);
  }

  lemma PutPacks(s: State, bufs: seq<nat>)
    requires BufferInv(s, bufs) && CopyInv(s) && Enabled(s, PackPut)
    ensures VideoPackets(s.packer.slice.packets)
    ensures forall b :: b in PackerBufs(s.packer) ==> b in s.contents
    ensures ContentsOf(s.contents, PackerBufs(s.packer)) == Pack(Chunks(s.packer.slice), [])
  {
    var k := s.packer;
    hide BufferInv, Chunks;
    ContentsAppend(s.contents, k.full, [k.cur]);
    ContentsOne(s.contents, k.cur);
  }

  lemma SubmitKeepsLine(s: State)
    requires LineInv(s) && Enabled(s, PresentSubmit)
    ensures LineInv(Apply(s, PresentSubmit))
  {
    LineMoves(s, PresentSubmit);
    HistoryMoves(s, PresentSubmit);
    PackerMoves(s, PresentSubmit);
    LineStarts(s);
    hide Line, PackAll, Apply, ContentsOf, VideoSlices, Enabled;
    if s.presenter.left != [] {
      SubmitStream(s.contents, Line(s), s.submitted);
    }
  }

  /** The same buffers in line with the same contents, and the same history. */
  lemma SameLine(s: State, t: State)
    requires LineInv(s) && Line(t) == Line(s) && t.packed == s.packed && t.submitted == s.submitted
    requires forall b :: b in Line(s) ==> b in t.contents && t.contents[b] == s.contents[b]
    ensures LineInv(t)
  {
    ContentsSame(s.contents, t.contents, Line(s));
    hide Line, PackAll, VideoSlices, ContentsOf;
  }

  lemma LineKept(s: State, step: Step, bufs: seq<nat>)
    requires BufferInv(s, bufs) && LineInv(s) && CopyInv(s) && Enabled(s, step)
    ensures LineInv(Apply(s, step))
  {
    hide Line, BufferInv, CopyInv, LineInv, Enabled, Apply;
    if step.PackPut? {
      PutKeepsLine(s, bufs);
    } else if step.PresentSubmit? {
      SubmitKeepsLine(s);
    } else {
      NoOverwrite(s, step, bufs);
      LineMoves(s, step);
      HistoryMoves(s, step);
      assert s.packed + [] == s.packed && s.submitted + [] == s.submitted;
      SameLine(s, Apply(s, step));
    }
  }

  lemma OpenKept(s: State)
    requires Enabled(s, PackOpen)
    ensures CopyInv(Apply(s, PackOpen))
  {
    var t := Apply(s, PackOpen);
    assert ContentsOf(t.contents, []) == [];
    hide Payloads, Pack, VideoPacket;
  }

  lemma CopyKept(s: State)
    requires Enabled(s, PackCopy) && CopyInv(s) && s.packer.cur !in s.packer.full
    ensures CopyInv(Apply(s, PackCopy))
  {
    var k := s.packer;
    var c := s.contents[k.cur := s.contents[k.cur] + k.rest[0]];
    ContentsSame(s.contents, c, k.full);
    PackStep(k.rest[0], k.rest[1..], ContentsOf(s.contents, k.full), s.contents[k.cur]);
    assert [k.rest[0]] + k.rest[1..] == k.rest;
    hide Chunks, Pack, VideoPackets, ContentsOf;
  }

  lemma NextBufferKept(s: State)
    requires Enabled(s, PackNextBuffer) && CopyInv(s)
    requires s.idle[0] != s.packer.cur && s.idle[0] !in s.packer.full
    ensures CopyInv(Apply(s, PackNextBuffer))
  {
    var k, b := s.packer, s.idle[0];
    var c := s.contents[b := []];
    ContentsSame(s.contents, c, k.full);
    ContentsAppend(c, k.full, [k.cur]);
    ContentsOne(c, k.cur);
    assert [k.rest[0]] + k.rest[1..] == k.rest && [] + k.rest[0] == k.rest[0];
    PackStep(k.rest[0], k.rest[1..], ContentsOf(s.contents, k.full), s.contents[k.cur]);
    PackStep(k.rest[0], k.rest[1..], ContentsOf(c, k.full + [k.cur]), []);
    hide Chunks, Pack, VideoPackets, ContentsOf;
  }

  lemma PackerMoves(s: State, step: Step)
    requires Enabled(s, step)
    requires !step.PackOpen? && !step.PackCopy? && !step.PackNextBuffer?
    ensures Apply(s, step).packer.Copying? ==> Apply(s, step).packer == s.packer
    ensures Apply(s, step).contents == s.contents
  {
    hide VideoDecoder.Step, TypeOf, VideoPacket, PacketOk, Chunks, Without, VideoPackets;
  }

  lemma CopyingKept(s: State, step: Step, bufs: seq<nat>)
    requires BufferInv(s, bufs) && CopyInv(s) && Enabled(s, step)
    ensures CopyInv(Apply(s, step))
  {
    if step.PackOpen? {
      OpenKept(s);
    } else if step.PackCopy? {
      Apart(s, bufs);
      CurrentApart(s.packer);
      hide CopyInv, BufferInv;
      CopyKept(s);
    } else if step.PackNextBuffer? {
      Apart(s, bufs);
      CurrentApart(s.packer);
      hide CopyInv, BufferInv, PackerBufs, Line;
      NextBufferKept(s);
    } else {
      PackerMoves(s, step);
      hide Apply, Enabled, Chunks, Pack, VideoPackets, ContentsOf, BufferInv;
    }
  }

  lemma ReadyKept(s: State, step: Step)
    requires ReadyInv(s) && Enabled(s, step)
    ensures ReadyInv(Apply(s, step))
  {
    hide VideoDecoder.Step, Chunks;
  }

  // ---------- whole runs ----------

  /** Every step of `steps` is enabled where it is taken, starting from `s`. */
  predicate Runs(s: State, steps: seq<Step>)
    decreases |steps|, 0
  {
    steps == [] ||
    var n := |steps| - 1;
    Runs(s, steps[..n]) && Enabled(After(s, steps[..n]), steps[n])
  }

  function After(s: State, steps: seq<Step>): State
    requires Runs(s, steps)
    decreases |steps|, 1
  {
    if steps == [] then s
    else Apply(After(s, steps[..|steps|-1]), steps[|steps|-1])
  }

  ghost predicate Inv(s: State, bufs: seq<nat>) {
    PacketInv(s) && SliceInv(s) && BufferInv(s, bufs) && LineInv(s) && CopyInv(s) && ReadyInv(s)
  }

  lemma InitialInv(s: State, bufs: seq<nat>)
    requires Initial(s, bufs)
    ensures Inv(s, bufs)
  {
    assert Line(s) == [];
    DistinctOnce(bufs);
  }

  lemma {:induction false} DistinctOnce(bufs: seq<nat>)
    requires forall i, j :: 0 <= i < j < |bufs| ==> bufs[i] != bufs[j]
    ensures forall b :: multiset(bufs)[b] <= 1
  {
    if bufs != [] {
      var n := |bufs| - 1;
      DistinctOnce(bufs[..n]);
      assert bufs == bufs[..n] + [bufs[n]];
      assert bufs[n] !in bufs[..n];
    }
  }

  lemma {:induction false} RunKeepsInv(init: State, steps: seq<Step>, bufs: seq<nat>)
    requires Initial(init, bufs) && Runs(init, steps)
    ensures Inv(After(init, steps), bufs)
  {
    if steps == [] {
      InitialInv(init, bufs);
    } else {
      var n := |steps| - 1;
      RunKeepsInv(init, steps[..n], bufs);
      hide PacketInv, SliceInv, BufferInv, LineInv, CopyInv, ReadyInv, Apply, Enabled;
      var s, step := After(init, steps[..n]), steps[n];
      PacketKept(s, step);
      SliceKept(s, step);
      BufferKept(s, step, bufs);
      LineKept(s, step, bufs);
      CopyingKept(s, step, bufs);
      ReadyKept(s, step);
    }
  }

  lemma {:induction false} DecodeGrows(xs: seq<Packet>, ys: seq<Packet>)
    requires VideoPackets(xs + ys) && VideoPackets(xs)
    ensures Decode(xs).emitted <= Decode(xs + ys).emitted
    decreases |ys|
  {
    hide PacketOk, Routed, Decode, VideoDecoder.Step;
    if ys == [] {
      assert xs + ys == xs;
    } else {
      var n := |ys| - 1;
      var zs := xs + ys[..n];
      assert xs + ys == zs + [ys[n]];
      assert forall i :: 0 <= i < |zs| ==> zs[i] == (xs + ys)[i];
      assert ys[n] == (xs + ys)[|zs|];
      DecodeGrows(xs, ys[..n]);
      DecodeStep(zs, ys[n]);
      DecoderAppends(zs, ys[n]);
    }
  }

  lemma {:induction false} PackAllGrows(ss: seq<Slice>, tt: seq<Slice>)
    requires VideoSlices(tt) && ss <= tt
    ensures VideoSlices(ss) && PackAll(ss) <= PackAll(tt)
    decreases |tt|
  {
    if ss != tt {
      PackAllGrows(ss, tt[..|tt|-1]);
    }
  }

  lemma DecodedSoFar(s: State)
    requires PacketInv(s)
    ensures VideoPackets(Select(s.arrived, VideoPkt)) && VideoSlices(Decode(Select(s.arrived, VideoPkt)).emitted)
    ensures s.decoder.emitted <= Decode(Select(s.arrived, VideoPkt)).emitted
  {
    hide Decode, Select, VideoPackets, VideoSlices, PacketOk;
    var video := Select(s.arrived, VideoPkt);
    var rest := s.decoderHand + s.video + Select(s.demuxHand, VideoPkt) + Select(s.packets, VideoPkt);
    assert s.decoded + rest == video;
    EmittedAreVideo(video);
    DecodeGrows(s.decoded, rest);
  }

  lemma SubmittedSoFar(s: State, emitted: seq<Slice>)
    requires SliceInv(s) && LineInv(s) && s.decoder.emitted <= emitted && VideoSlices(emitted)
    ensures s.submitted <= PackAll(emitted)
  {
    hide PackAll, VideoSlices, ContentsOf, Line, SliceInHand;
    assert s.packed <= s.decoder.emitted;
    PackAllGrows(s.packed, emitted);
    assert s.submitted <= s.submitted + ContentsOf(s.contents, Line(s));
  }

  /** End to end.  Under every interleaving, the buffers submitted to the hardware are, in order, a prefix
      of the packed slices that decoding all arrived video packets one after the other would emit. */
  lemma EndToEnd(init: State, steps: seq<Step>, bufs: seq<nat>)
    requires Initial(init, bufs) && Runs(init, steps)
    ensures var s := After(init, steps);
            var video := Select(s.arrived, VideoPkt);
            && VideoPackets(video) && VideoSlices(Decode(video).emitted)
            && s.submitted <= PackAll(Decode(video).emitted)
  {
    RunKeepsInv(init, steps, bufs);
    hide PacketInv, SliceInv, BufferInv, LineInv, CopyInv, ReadyInv, Decode, Select, PackAll, VideoPackets, VideoSlices;
    var s := After(init, steps);
    DecodedSoFar(s);
    SubmittedSoFar(s, Decode(Select(s.arrived, VideoPkt)).emitted);
  }

  /** Nothing is held back: when all queues and hands are empty, everything emitted has been submitted. */
  lemma NothingHeldBack(init: State, steps: seq<Step>, bufs: seq<nat>)
    requires Initial(init, bufs) && Runs(init, steps)
    requires var s := After(init, steps);
             && s.packets == [] && s.demuxHand == [] && s.video == [] && s.decoderHand == [] && s.slices == []
             && SliceInHand(s.packer) == [] && s.ready == [] && PresenterBufs(s.presenter) == []
    ensures var s := After(init, steps);
            var video := Select(s.arrived, VideoPkt);
            && VideoPackets(video) && VideoSlices(Decode(video).emitted)
            && s.submitted == PackAll(Decode(video).emitted)
  {
    var s := After(init, steps);
    RunKeepsInv(init, steps, bufs);
    EmittedAreVideo(s.decoded);
    assert s.decoded == Select(s.arrived, VideoPkt);
    assert s.packed == s.decoder.emitted;
    assert Line(s) == [] && ContentsOf(s.contents, []) == [];
  }

  /** The concatenated elementary streams of the slices. */
  function Streams(ss: seq<Slice>): seq<Byte>
    requires VideoSlices(ss)
  {
    if ss == [] then [] else Streams(ss[..|ss|-1]) + ElementaryStream(ss[|ss|-1].packets)
  }

  lemma {:induction false} FlattenAppend(a: seq<seq<Byte>>, b: seq<seq<Byte>>)
    ensures Flatten(a + b) == Flatten(a) + Flatten(b)
  {
    if a == [] {
      assert a + b == b;
    } else {
      assert (a + b)[1..] == a[1..] + b;
      FlattenAppend(a[1..], b);
    }
  }

  lemma FlattenNothing()
    ensures Flatten([]) == []
  {}

  lemma {:induction false} PackedBytes(ss: seq<Slice>)
    requires VideoSlices(ss)
    ensures Flatten(PackAll(ss)) == Streams(ss)
  {
    hide Pack, Payloads, Flatten, VideoPackets;
    if ss == [] {
      FlattenNothing();
    } else {
      var n := |ss| - 1;
      PackedBytes(ss[..n]);
      FlattenAppend(PackAll(ss[..n]), Pack(Chunks(ss[n]), []));
      PackLossless(Chunks(ss[n]), []);
    }
  }

  /** The bytes that reach the hardware decoder are a prefix of the elementary streams of the emitted
      slices, and each submitted buffer fits the hardware. */
  lemma EndToEndBytes(init: State, steps: seq<Step>, bufs: seq<nat>)
    requires Initial(init, bufs) && Runs(init, steps)
    ensures var s := After(init, steps);
            var video := Select(s.arrived, VideoPkt);
            && VideoPackets(video) && VideoSlices(Decode(video).emitted)
            && Flatten(s.submitted) <= Streams(Decode(video).emitted)
            && forall i :: 0 <= i < |s.submitted| ==> |s.submitted[i]| <= HW_MAX
  {
    EndToEnd(init, steps, bufs);
    hide Runs, After, Decode, Select, Initial, PackAll, Streams, Flatten, VideoPackets, VideoSlices;
    var s := After(init, steps);
    var emitted := Decode(Select(s.arrived, VideoPkt)).emitted;
    PackedBytes(emitted);
    PrefixBytes(s.submitted, PackAll(emitted));
    PackAllFits(emitted);
  }

  lemma PrefixBytes(a: seq<seq<Byte>>, b: seq<seq<Byte>>)
    requires a <= b
    ensures Flatten(a) <= Flatten(b)
  {
    FlattenAppend(a, b[|a|..]);
    assert b == a + b[|a|..];
  }

  lemma {:induction false} PackAllFits(ss: seq<Slice>)
    requires VideoSlices(ss)
    ensures forall i :: 0 <= i < |PackAll(ss)| ==> |PackAll(ss)[i]| <= HW_MAX
  {
    if ss != [] {
      PackAllFits(ss[..|ss|-1]);
      PackBounds(Chunks(ss[|ss|-1]), []);
    }
  }

  /** In every reachable state each enabled hardware buffer is in exactly one place: idle, with the
      component, waiting in line, or with the packing thread. */
  lemma EachBufferHeldOnce(init: State, steps: seq<Step>, bufs: seq<nat>)
    requires Initial(init, bufs) && Runs(init, steps)
    ensures var s := After(init, steps);
            Held(s) == multiset(bufs) && forall b :: b in bufs ==> Held(s)[b] == 1
  {
    RunKeepsInv(init, steps, bufs);
    hide Held;
    assert forall b :: b in bufs ==> multiset(bufs)[b] >= 1;
  }

  /** The ready queue never holds more than ten slices, although its length is sampled once for several
      slices and the presenter runs concurrently. */
  lemma ReadyQueueBounded(init: State, steps: seq<Step>, bufs: seq<nat>)
    requires Initial(init, bufs) && Runs(init, steps)
    ensures |After(init, steps).ready| <= READY_MAX
  {
    RunKeepsInv(init, steps, bufs);
  }

  /** No step of any thread writes to a buffer between its slice becoming ready and its submission. */
  lemma WaitingBuffersUntouched(init: State, steps: seq<Step>, bufs: seq<nat>, step: Step)
    requires Initial(init, bufs) && Runs(init, steps) && Enabled(After(init, steps), step)
    ensures var s := After(init, steps);
            forall b :: b in Line(s) ==>
              b in s.contents && b in Apply(s, step).contents && Apply(s, step).contents[b] == s.contents[b]
  {
    RunKeepsInv(init, steps, bufs);
    NoOverwrite(After(init, steps), step, bufs);
  }

  // ---------- presentation times ----------

  /** How many slices the presenter has taken. */
  ghost function Taken(steps: seq<Step>): nat
    decreases |steps|
  {
    if steps == [] then 0
    else Taken(steps[..|steps|-1]) + if steps[|steps|-1].PresentTake? then 1 else 0
  }

  /** The source time at the last start of a presentation; 0 if there was none. */
  ghost function LastStart(steps: seq<Step>): nat
    decreases |steps|
  {
    if steps == [] then 0
    else if steps[|steps|-1].PresentStart? then steps[|steps|-1].time
    else LastStart(steps[..|steps|-1])
  }

  /** `r` is a packed slice with its time stamp and a buffer for each part. */
  ghost predicate Stands(r: ReadySlice, slice: Slice) {
    && VideoPackets(slice.packets)
    && r.timestamp == slice.timestamp && |r.bufs| == |Pack(Chunks(slice), [])|
  }

  /** The ready queue holds the packed slices behind the first `k`. */
  ghost predicate QueueInv(s: State, k: nat) {
    && VideoSlices(s.packed) && k + |s.ready| == |s.packed|
    && forall i :: 0 <= i < |s.ready| ==> Stands(s.ready[i], s.packed[k + i])
  }

  /** What the presenter is doing with packed slice `k` - 1; `time` is the source time at its last start. */
  ghost predicate PresentInv(s: State, k: nat, time: nat)
    requires VideoSlices(s.packed) && k <= |s.packed|
  {
    match s.presenter
    case Waiting => |s.submitted| == |PackAll(s.packed[..k])|
    case Holding(r) => k > 0 && Stands(r, s.packed[k-1]) && |s.submitted| == |PackAll(s.packed[..k-1])|
    case Submitting(left) =>
      && k > 0 && time > s.packed[k-1].timestamp
      && |PackAll(s.packed[..k-1])| <= |s.submitted| && |s.submitted| + |left| == |PackAll(s.packed[..k])|
  }

  lemma PackAllLast(ss: seq<Slice>, k: nat)
    requires VideoSlices(ss) && 0 < k <= |ss|
    ensures VideoPackets(ss[k-1].packets)
    ensures |PackAll(ss[..k])| == |PackAll(ss[..k-1])| + |Pack(Chunks(ss[k-1]), [])|
  {
    hide Pack, Chunks, VideoPackets;
    assert ss[..k][..k-1] == ss[..k-1];
  }

  /** Steps that concern neither the packed slices nor the presenter. */
  lemma OthersKeepTimes(s: State, step: Step, k: nat, time: nat)
    requires QueueInv(s, k) && PresentInv(s, k, time) && Enabled(s, step)
    requires !step.PackPut? && !step.PresentTake? && !step.PresentStart? && !step.PresentSubmit?
    ensures QueueInv(Apply(s, step), k) && PresentInv(Apply(s, step), k, time)
  {
    hide PackAll, Pack, Chunks, VideoPackets, VideoDecoder.Step, TypeOf, VideoSlices, Stands;
  }

  lemma PutKeepsTimes(s: State, bufs: seq<nat>, k: nat, time: nat)
    requires QueueInv(s, k) && PresentInv(s, k, time) && Enabled(s, PackPut) && BufferInv(s, bufs) && CopyInv(s)
    ensures QueueInv(Apply(s, PackPut), k) && PresentInv(Apply(s, PackPut), k, time)
  {
    hide BufferInv, CopyInv, PackAll, Pack, Chunks, VideoPackets;
    PutPacks(s, bufs);
    var t := Apply(s, PackPut);
    assert t.packed[..k] == s.packed[..k];
    assert k > 0 ==> t.packed[..k-1] == s.packed[..k-1];
  }

  lemma PresentKeepsTimes(s: State, step: Step, k: nat, time: nat)
    requires QueueInv(s, k) && PresentInv(s, k, time) && Enabled(s, step)
    requires step.PresentTake? || step.PresentStart? || step.PresentSubmit?
    ensures QueueInv(Apply(s, step), if step.PresentTake? then k + 1 else k)
    ensures PresentInv(Apply(s, step), if step.PresentTake? then k + 1 else k,
                       if step.PresentStart? then step.time else time)
  {
    hide PackAll, Pack, Chunks, VideoPackets;
    if step.PresentStart? {
      PackAllLast(s.packed, k);
    }
  }

  lemma {:induction false} RunKeepsTimes(init: State, steps: seq<Step>, bufs: seq<nat>)
    requires Initial(init, bufs) && Runs(init, steps)
    ensures var s := After(init, steps);
            QueueInv(s, Taken(steps)) && PresentInv(s, Taken(steps), LastStart(steps))
  {
    hide QueueInv, PresentInv, Apply, Enabled, PackAll, BufferInv, CopyInv, PacketInv, SliceInv, LineInv, ReadyInv;
    if steps == [] {
      NothingPacked(init, bufs);
    } else {
      var n := |steps| - 1;
      RunKeepsTimes(init, steps[..n], bufs);
      RunKeepsInv(init, steps[..n], bufs);
      var s, step, k, time := After(init, steps[..n]), steps[n], Taken(steps[..n]), LastStart(steps[..n]);
      if step.PackPut? {
        PutKeepsTimes(s, bufs, k, time);
      } else if step.PresentTake? || step.PresentStart? || step.PresentSubmit? {
        PresentKeepsTimes(s, step, k, time);
      } else {
        OthersKeepTimes(s, step, k, time);
      }
    }
  }

  lemma NothingPacked(init: State, bufs: seq<nat>)
    requires Initial(init, bufs)
    ensures QueueInv(init, 0) && PresentInv(init, 0, 0)
  {}

  /** Nothing is presented early.  Whenever a buffer is submitted, the source time at the start of the presentation lay
      behind the time stamp of the slice to which the buffer belongs. */
  lemma PresentedOnTime(init: State, steps: seq<Step>, bufs: seq<nat>) returns (i: nat)
    requires Initial(init, bufs) && Runs(init, steps)
    requires After(init, steps).presenter.Submitting? && After(init, steps).presenter.left != []
    ensures var s := After(init, steps);
            && i < |s.packed| && VideoSlices(s.packed)
            && |PackAll(s.packed[..i])| <= |s.submitted| < |PackAll(s.packed[..i+1])|
            && LastStart(steps) > s.packed[i].timestamp
  {
    RunKeepsTimes(init, steps, bufs);
    i := Taken(steps) - 1;
  }

  // ---------- progress of the packing thread ----------

  /** The packing thread does not rest before the end of the run. */
  ghost predicate Passing(s: State, steps: seq<Step>)
    requires Runs(s, steps)
    decreases |steps|
  {
    steps == [] ||
    var n := |steps| - 1;
    Passing(s, steps[..n]) && !After(s, steps[..n]).packer.Resting?
  }

  lemma PackerSteps(s: State, step: Step)
    requires Enabled(s, step) && !s.packer.Resting? && s.packer.todo > 0
    ensures var t := Apply(s, step);
            if step.PackPut? then
              && |t.packed| == |s.packed| + 1
              && t.packer == if s.packer.todo == 1 then Resting else Pulling(s.packer.todo - 1)
            else
              && |t.packed| == |s.packed|
              && if t.packer.Resting? then t.slices == [] else t.packer.todo == s.packer.todo
  {
    hide Chunks, VideoDecoder.Step, TypeOf, VideoPackets, VideoPacket, PacketOk;
  }

  /** A pass of the packing thread over `todo` slices, whatever the other threads do meanwhile, ends when it has packed
      them all, or earlier if the slice queue is empty. */
  lemma {:induction false} PassPacks(s: State, steps: seq<Step>)
    requires s.packer.Pulling? && s.packer.todo > 0 && Runs(s, steps) && Passing(s, steps)
    ensures var t := After(s, steps);
            && |s.packed| <= |t.packed|
            && (if t.packer.Resting? then t.slices == [] || |t.packed| - |s.packed| == s.packer.todo
                else t.packer.todo > 0 && |t.packed| - |s.packed| == s.packer.todo - t.packer.todo)
    decreases |steps|
  {
    hide Apply, Enabled;
    if steps != [] {
      var n := |steps| - 1;
      PassPacks(s, steps[..n]);
      PackerSteps(After(s, steps[..n]), steps[n]);
    }
  }

  /** A pass begins with as many slices to pack as are missing to ten, if any are. */
  lemma PassBegins(s: State)
    requires Enabled(s, PackSample)
    ensures Apply(s, PackSample).packer == if |s.ready| < 10 then Pulling(10 - |s.ready|) else Resting
  {}

  /** A step of the packing thread within a pass. */
  predicate OfPacker(step: Step) {
    step.PackTake? || step.PackOpen? || step.PackCopy? || step.PackNextBuffer? || step.PackPut?
  }

  /** The packing thread is about to take a hardware buffer: for a new slice, or for a payload that does not fit. */
  predicate NeedsBuffer(s: State) {
    || s.packer.Opening?
    || (s.packer.Copying? && s.packer.rest != [] && s.packer.cur in s.contents
        && |s.contents[s.packer.cur]| + |s.packer.rest[0]| > HW_MAX)
  }

  lemma NextOfPacker(s: State) returns (step: Step)
    requires SliceInv(s) && CopyInv(s) && !s.packer.Resting? && (NeedsBuffer(s) ==> s.idle != [])
    ensures OfPacker(step) && Enabled(s, step)
  {
    hide VideoPackets, Pack, Chunks, ContentsOf, SliceInv;
    match s.packer
    case Pulling(_) => step := PackTake;
    case Opening(_, slice) =>
      InHandIsVideo(s);
      step := PackOpen;
    case Copying(_, _, rest, _, cur) =>
      step := if rest == [] then PackPut
              else if |s.contents[cur]| + |rest[0]| <= HW_MAX then PackCopy else PackNextBuffer;
  }

  /** Within a pass the thread can go on, unless it needs a buffer and none is idle. */
  lemma PackerGoesOn(init: State, steps: seq<Step>, bufs: seq<nat>) returns (step: Step)
    requires Initial(init, bufs) && Runs(init, steps)
    requires !After(init, steps).packer.Resting?
    requires NeedsBuffer(After(init, steps)) ==> After(init, steps).idle != []
    ensures OfPacker(step) && Enabled(After(init, steps), step)
  {
    RunKeepsInv(init, steps, bufs);
    hide PacketInv, BufferInv, LineInv, ReadyInv, SliceInv, CopyInv, OfPacker, Enabled, NeedsBuffer;
    step := NextOfPacker(After(init, steps));
  }

  /** A thread with something in hand, or in front of it, can go on. */
  lemma OthersGoOn(s: State)
    requires PacketInv(s) && LineInv(s)
    ensures s.packets != [] || s.demuxHand != [] ==> Enabled(s, DemuxTake) || Enabled(s, DemuxRoute)
    ensures s.video != [] || s.decoderHand != [] ==> Enabled(s, DecoderTake) || Enabled(s, DecoderProcess)
    ensures s.presenter.Waiting? && s.ready != [] ==> Enabled(s, PresentTake)
    ensures s.presenter.Holding? ==> Enabled(s, PresentStart(s.presenter.r.timestamp + 1))
    ensures s.presenter.Submitting? ==> Enabled(s, PresentSubmit)
  {
    hide PackAll, ContentsOf, VideoSlices, VideoPacket, Select, Decode, PacketOk, FlatBufs;
    var rest := s.video + Select(s.demuxHand, VideoPkt) + Select(s.packets, VideoPkt);
    var video := Select(s.arrived, VideoPkt);
    if s.decoderHand != [] {
      assert video == s.decoded + (s.decoderHand + rest);
      assert video[|s.decoded|] == s.decoderHand[0];
    }
    if s.presenter.Submitting? && s.presenter.left != [] {
      assert s.presenter.left[0] in Line(s);
    }
  }

  /** Only what the environment does, and looking at the ready queue, is left to do. */
  ghost predicate AtRest(s: State) {
    forall step :: Enabled(s, step) ==> step.Arrive? || step.ReturnBuffer? || step.PackSample?
  }

  lemma RestMeansEmpty(s: State)
    requires PacketInv(s) && LineInv(s) && SliceInv(s) && CopyInv(s) && AtRest(s) && s.idle != []
    ensures s.packets == [] && s.demuxHand == [] && s.video == [] && s.decoderHand == []
    ensures s.packer.Resting? && s.ready == [] && s.presenter.Waiting?
  {
    hide PacketInv, LineInv, SliceInv, CopyInv, Enabled, NeedsBuffer;
    OthersGoOn(s);
    if !s.packer.Resting? {
      var step := NextOfPacker(s);
    }
  }

  /** The threads come to rest, with a buffer idle and no slice queued, only when every slice that decoding the arrived
      packets one after the other would emit has been submitted. */
  lemma RestMeansSubmitted(init: State, steps: seq<Step>, bufs: seq<nat>)
    requires Initial(init, bufs) && Runs(init, steps)
    requires AtRest(After(init, steps)) && After(init, steps).idle != [] && After(init, steps).slices == []
    ensures var s := After(init, steps);
            var video := Select(s.arrived, VideoPkt);
            && VideoPackets(video) && VideoSlices(Decode(video).emitted)
            && s.submitted == PackAll(Decode(video).emitted)
  {
    RunKeepsInv(init, steps, bufs);
    hide PacketInv, BufferInv, LineInv, ReadyInv, SliceInv, CopyInv, AtRest, Decode, Select, PackAll, VideoPackets,
         VideoSlices, Runs, After;
    RestMeansEmpty(After(init, steps));
    NothingHeldBack(init, steps, bufs);
  }

  lemma InHandIsVideo(s: State)
    requires SliceInv(s) && s.packer.Opening?
    ensures VideoPackets(s.packer.slice.packets)
  {
    hide VideoPackets;
    assert s.decoder.emitted[|s.packed|] == s.packer.slice;
  }

  /** The work left in a pass: slices, what has to be done with the current one, and payloads to copy; a payload that
      does not fit needs one step more. */
  function Slices(s: State): nat { if s.packer.Resting? then 0 else s.packer.todo }

  function Phase(s: State): nat {
    match s.packer
    case Resting => 0
    case Pulling(_) => 2
    case Opening(_, _) => 1
    case Copying(_, _, _, _, _) => 0
  }

  function Copies(s: State): nat {
    if !s.packer.Copying? || s.packer.rest == [] then 0
    else
      var fits := s.packer.cur in s.contents && |s.contents[s.packer.cur]| + |s.packer.rest[0]| <= HW_MAX;
      2 * |s.packer.rest| + if fits then 0 else 1
  }

  /** Every step of the packing thread within a pass leaves less work, and no step of another thread leaves more. */
  lemma PassesEnd(s: State, step: Step)
    requires ReadyInv(s) && CopyInv(s) && Enabled(s, step) && !s.packer.Resting?
    ensures var t := Apply(s, step);
            OfPacker(step) ==>
              || Slices(t) < Slices(s)
              || (Slices(t) == Slices(s) && Phase(t) < Phase(s))
              || (Slices(t) == Slices(s) && Phase(t) == Phase(s) && Copies(t) < Copies(s))
    ensures !OfPacker(step) ==>
              Apply(s, step).packer == s.packer && Copies(Apply(s, step)) == Copies(s)
  {
    hide Pack, Chunks, VideoPackets, VideoDecoder.Step, TypeOf, PacketOk, VideoPacket, ContentsOf;
    if step.PackCopy? && |s.packer.rest| > 1 {
      assert s.packer.rest[1..][0] == s.packer.rest[1];
    }
  }
}
