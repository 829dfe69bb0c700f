/** The video decoder thread: assembles slices from the packets of the video queue and drops a slice
    when the continuity counters show a loss. */
module VideoDecoder {
  import opened Clocks
  import opened TsPacket

  /** What is put on the slice queue: a header time stamp and a chain of packets. */
  datatype Slice = Slice(timestamp: nat, packets: seq<Packet>)

  /** The decoder's control block and all the slices it has put on the slice queue. */
  datatype Decoder = Decoder(
    looking: bool, pktCount: nat, lastCc: nat, ptsMs: nat, sliceCount: nat, chain: seq<Packet>, emitted: seq<Slice>)

  const START := Decoder(true, 0, 0, 0, 0, [], [])

  /** A packet as the demultiplexer delivers it to the video queue. */
  predicate VideoPacket(p: Packet) { PacketOk(p) && Routed(p) }

  predicate VideoPackets(ps: seq<Packet>) {
    forall i :: 0 <= i < |ps| ==> VideoPacket(ps[i])
  }

  function PacketPts(p: Packet): nat
    requires PacketOk(p) && HasStart(p)
  {
    StartPts(p.ts[FirstStart(p.ts, 0)])
  }

  predicate Follows(lastCc: nat, p: Packet)
    requires Routed(p)
  {
    (lastCc + 1) % 16 == CcStart(p)
  }

  predicate Skips(d: Decoder, p: Packet) { d.looking && !HasStart(p) }

  predicate Emits(d: Decoder, p: Packet) { HasStart(p) && d.pktCount > 0 }

  predicate Drops(d: Decoder, p: Packet)
    requires Routed(p)
  {
    !Skips(d, p) && !HasStart(p) && d.pktCount > 0 && !Follows(d.lastCc, p)
  }

  /** A slice start completes the chain collected so far. */
  function Begin(d: Decoder, pts: nat): Decoder {
    var stamp := if d.sliceCount == 0 then pts else d.ptsMs;
    if d.pktCount > 0 then
      d.(emitted := d.emitted + [Slice(stamp, d.chain)], chain := [], pktCount := 0, ptsMs := pts,
         sliceCount := d.sliceCount + 1)
    else
      d.(ptsMs := stamp, sliceCount := d.sliceCount + 1)
  }

  function Add(d: Decoder, p: Packet): Decoder
    requires Routed(p)
  {
    if d.pktCount == 0 || Follows(d.lastCc, p) then
      d.(lastCc := CcEnd(p), chain := d.chain + [p], pktCount := d.pktCount + 1)
    else
      d.(chain := [], looking := true, pktCount := 0)
  }

  /** One packet through the thread's loop body. */
  function Step(d: Decoder, p: Packet): Decoder
    requires VideoPacket(p)
  {
    if Skips(d, p) then d
    else
      var d' := d.(looking := false);
      Add(if HasStart(p) then Begin(d', PacketPts(p)) else d', p)
  }

  function Decode(ps: seq<Packet>): Decoder
    requires VideoPackets(ps)
  {
    if ps == [] then START else Step(Decode(ps[..|ps|-1]), ps[|ps|-1])
  }

  // ---------- slices are runs of the received packets ----------

  /** A chain starts with its only slice start and its continuity counters are consecutive. */
  ghost predicate Assembled(c: seq<Packet>) {
    && c != [] && VideoPackets(c)
    && HasStart(c[0])
    && (forall i :: 0 < i < |c| ==> !HasStart(c[i]))
    && (forall i {:trigger c[i+1]} :: 0 <= i < |c| - 1 ==> Follows(CcEnd(c[i]), c[i+1]))
  }

  /** Where a slice was emitted: while packet `at` was processed, starting with packet `first`. */
  datatype Emission = Emission(first: nat, at: nat)

  ghost function Log(ps: seq<Packet>): seq<Emission>
    requires VideoPackets(ps)
  {
    if ps == [] then []
    else
      var n := |ps| - 1;
      var d := Decode(ps[..n]);
      Log(ps[..n]) + if Emits(d, ps[n]) && |d.chain| <= n then [Emission(n - |d.chain|, n)] else []
  }

  /** The packet that triggered the last emission, or the first packet of all. */
  ghost function Since(log: seq<Emission>): nat {
    if log == [] then 0 else log[|log|-1].at
  }

  /** The first packet with a slice start at or after `a`. */
  ghost function NextStart(ps: seq<Packet>, a: nat): (k: nat)
    requires a <= |ps|
    ensures a <= k <= |ps|
    ensures forall j :: a <= j < k ==> !HasStart(ps[j])
    ensures k < |ps| ==> HasStart(ps[k])
    decreases |ps| - a
  {
    if a == |ps| || HasStart(ps[a]) then a else NextStart(ps, a + 1)
  }

  lemma {:induction false} NextStartIs(ps: seq<Packet>, a: nat, k: nat)
    requires a <= k <= |ps|
    requires forall j :: a <= j < k ==> !HasStart(ps[j])
    requires k < |ps| ==> HasStart(ps[k])
    ensures NextStart(ps, a) == k
    decreases k - a
  {
    if a < k {
      NextStartIs(ps, a + 1, k);
    }
  }

  /** No packet from `a` up to `b` was dropped for a loss. */
  ghost predicate DropFree(ps: seq<Packet>, a: nat, b: nat)
    requires VideoPackets(ps) && b <= |ps|
  {
    forall i {:trigger ps[i]} :: a <= i < b ==> !Drops(Decode(ps[..i]), ps[i])
  }

  /** What holds of the chain being assembled, between any two packets. */
  ghost predicate ChainInv(d: Decoder, ps: seq<Packet>) {
    && d.pktCount == |d.chain| <= |ps|
    && (d.looking <==> d.chain == [])
    && d.chain == ps[|ps| - |d.chain|..]
    && (d.chain != [] ==> Assembled(d.chain) && d.lastCc == CcEnd(d.chain[|d.chain|-1]))
  }

  /** Emission `e` put `s` on the queue. */
  ghost predicate Describes(ps: seq<Packet>, e: Emission, s: Slice) {
    && e.first < e.at < |ps|
    && s.packets == ps[e.first..e.at] && Assembled(s.packets)
    && HasStart(ps[e.at])
  }

  lemma AssembledAppend(c: seq<Packet>, p: Packet)
    requires Assembled(c) && VideoPacket(p) && !HasStart(p) && Follows(CcEnd(c[|c|-1]), p)
    ensures Assembled(c + [p])
  {
    hide HasStart, Routed, PacketOk, CcStart, CcEnd;
    var e := c + [p];
    forall i | 0 <= i < |e| - 1 ensures Follows(CcEnd(e[i]), e[i+1]) {
      if i < |c| - 1 {
        assert Follows(CcEnd(c[i]), c[i+1]);
      }
    }
  }

  /** What a step does to the chain. */
  lemma ChainMoves(d: Decoder, p: Packet)
    requires VideoPacket(p) && d.pktCount == |d.chain| && (d.looking <==> d.chain == [])
    ensures var c := Step(d, p).chain;
            && (Skips(d, p) || Drops(d, p) ==> c == [])
            && (!Skips(d, p) && HasStart(p) ==> c == [p])
            && (!Skips(d, p) && !HasStart(p) && !Drops(d, p) ==>
                  d.chain != [] && c == d.chain + [p] && Follows(d.lastCc, p))
    ensures var e := Step(d, p);
            && e.pktCount == |e.chain| && (e.looking <==> e.chain == [])
            && (e.chain != [] ==> e.lastCc == CcEnd(p))
  {
    hide HasStart, Routed, PacketOk, CcStart, CcEnd, PacketPts;
  }

  lemma ChainStep(d: Decoder, ps: seq<Packet>, p: Packet)
    requires ChainInv(d, ps) && VideoPacket(p)
    ensures ChainInv(Step(d, p), ps + [p])
  {
    hide HasStart, Routed, PacketOk, CcStart, CcEnd, PacketPts, Assembled, Step, Drops, Skips, Follows;
    ChainMoves(d, p);
    var c, qs := Step(d, p).chain, ps + [p];
    if c == [] {
      assert qs[|qs|..] == [];
    } else if c == [p] && HasStart(p) {
      AssembledAlone(p);
    } else {
      AssembledAppend(d.chain, p);
      assert c == qs[|qs| - |c|..];
    }
  }

  lemma AssembledAlone(p: Packet)
    requires VideoPacket(p) && HasStart(p)
    ensures Assembled([p])
  {}

  /** A step emits the chain collected so far, or nothing. */
  lemma StepEmits(d: Decoder, p: Packet)
    requires VideoPacket(p) && (d.looking ==> d.pktCount == 0)
    ensures Step(d, p).emitted == d.emitted +
      if Emits(d, p) then [Slice(if d.sliceCount == 0 then PacketPts(p) else d.ptsMs, d.chain)] else []
  {
    hide HasStart, Routed, PacketOk, CcStart, CcEnd, PacketPts;
  }

  /** The assembly invariant, for every sequence of packets. */
  lemma {:induction false} Assembly(ps: seq<Packet>)
    requires VideoPackets(ps)
    ensures ChainInv(Decode(ps), ps)
  {
    hide HasStart, Routed, PacketOk, CcStart, CcEnd, PacketPts, Step, Assembled;
    if ps != [] {
      var n := |ps| - 1;
      Assembly(ps[..n]);
      ChainStep(Decode(ps[..n]), ps[..n], ps[n]);
      assert ps == ps[..n] + [ps[n]];
    }
  }

  /** Every slice on the queue is a contiguous run of received packets, well assembled, and ended by
      the next slice start. */
  lemma {:induction false} EveryEmissionLogged(ps: seq<Packet>)
    requires VideoPackets(ps)
    ensures |Log(ps)| == |Decode(ps).emitted|
    ensures forall k :: 0 <= k < |Log(ps)| ==> Describes(ps, Log(ps)[k], Decode(ps).emitted[k])
    ensures forall j, k :: 0 <= j < k < |Log(ps)| ==> Log(ps)[j].at <= Log(ps)[k].first
  {
    hide HasStart, Routed, PacketOk, CcStart, CcEnd, PacketPts, Step, Assembled;
    if ps != [] {
      var n := |ps| - 1;
      var qs, p := ps[..n], ps[n];
      var d := Decode(qs);
      EveryEmissionLogged(qs);
      Assembly(qs);
      StepEmits(d, p);
      forall k | 0 <= k < |Log(qs)| ensures Describes(ps, Log(qs)[k], d.emitted[k]) {
        var e := Log(qs)[k];
        assert Describes(qs, e, d.emitted[k]);
        assert qs[e.first..e.at] == ps[e.first..e.at];
      }
      if Emits(d, p) {
        assert d.chain == qs[n - |d.chain|..] == ps[n - |d.chain|..n];
        LogBeforeChain(qs);
      }
    }
  }

  /** The chain being assembled lies behind everything emitted. */
  lemma {:induction false} LogBeforeChain(ps: seq<Packet>)
    requires VideoPackets(ps)
    ensures |Decode(ps).chain| <= |ps|
    ensures Decode(ps).chain != [] ==>
      forall k :: 0 <= k < |Log(ps)| ==> Log(ps)[k].at <= |ps| - |Decode(ps).chain|
    ensures forall k :: 0 <= k < |Log(ps)| ==> Log(ps)[k].at < |ps|
  {
    hide HasStart, Routed, PacketOk, CcStart, CcEnd, PacketPts, Step, Assembled;
    Assembly(ps);
    if ps != [] {
      LogBeforeChain(ps[..|ps|-1]);
      Assembly(ps[..|ps|-1]);
      ChainMoves(Decode(ps[..|ps|-1]), ps[|ps|-1]);
    }
  }

  // ---------- time stamps ----------

  /** What the stored time stamp means between any two packets. */
  ghost predicate StampInv(d: Decoder, ps: seq<Packet>, a: nat)
    requires VideoPackets(ps) && a <= |ps|
  {
    var k := NextStart(ps, a);
    && (k == |ps| ==> d.sliceCount == 0 && d.chain == [] && DropFree(ps, a, |ps|))
    && (k < |ps| ==> d.sliceCount > 0 && PacketOk(ps[k]) && d.ptsMs == PacketPts(ps[k]))
    && (k < |ps| && d.chain == [] ==> !DropFree(ps, a, |ps|))
    && |d.chain| <= |ps|
    && (d.chain != [] ==> (|ps| - |d.chain| == k <==> DropFree(ps, a, |ps|)))
  }

  lemma NextStartExtends(ps: seq<Packet>, p: Packet, a: nat)
    requires a <= |ps|
    ensures NextStart(ps + [p], a) ==
      if NextStart(ps, a) < |ps| then NextStart(ps, a) else if HasStart(p) then |ps| else |ps| + 1
  {
    var qs := ps + [p];
    var k := NextStart(ps, a);
    NextStartIs(qs, a, if k < |ps| then k else if HasStart(p) then |ps| else |ps| + 1);
  }

  lemma DropFreeExtends(ps: seq<Packet>, p: Packet, a: nat)
    requires VideoPackets(ps) && VideoPacket(p) && a <= |ps|
    ensures DropFree(ps + [p], a, |ps| + 1) <==> DropFree(ps, a, |ps|) && !Drops(Decode(ps), p)
  {
    var qs := ps + [p];
    assert qs[..|ps|] == ps && qs[|ps|] == p;
    assert forall i :: 0 <= i < |ps| ==> qs[..i] == ps[..i] && qs[i] == ps[i];
  }

  lemma DropFreePrefix(ps: seq<Packet>, p: Packet, a: nat, b: nat)
    requires VideoPackets(ps) && VideoPacket(p) && b <= |ps|
    ensures DropFree(ps + [p], a, b) <==> DropFree(ps, a, b)
  {
    var qs := ps + [p];
    assert forall i :: 0 <= i < |ps| ==> qs[..i] == ps[..i] && qs[i] == ps[i];
  }

  lemma StampStep(d: Decoder, ps: seq<Packet>, p: Packet, a: nat)
    requires VideoPackets(ps) && VideoPacket(p) && a <= |ps|
    requires d == Decode(ps) && ChainInv(d, ps) && StampInv(d, ps, a)
    ensures StampInv(Step(d, p), ps + [p], if Emits(d, p) then |ps| else a)
  {
    hide HasStart, Routed, PacketOk, CcStart, CcEnd, PacketPts, Decode, Assembled, DropFree, NextStart;
    var qs, b := ps + [p], if Emits(d, p) then |ps| else a;
    NextStartExtends(ps, p, a);
    DropFreeExtends(ps, p, a);
    if Emits(d, p) {
      NextStartIs(qs, b, |ps|);
      NewRunDropFree(ps, p);
    }
  }

  lemma NewRunDropFree(ps: seq<Packet>, p: Packet)
    requires VideoPackets(ps) && VideoPacket(p) && HasStart(p)
    ensures DropFree(ps + [p], |ps|, |ps| + 1)
  {
    assert (ps + [p])[..|ps|] == ps;
  }

  lemma LogStep(qs: seq<Packet>, p: Packet)
    requires VideoPackets(qs) && VideoPacket(p)
    ensures VideoPackets(qs + [p]) && Decode(qs + [p]) == Step(Decode(qs), p)
    ensures var d := Decode(qs);
            && |d.chain| <= |qs|
            && Log(qs + [p]) == Log(qs) + if Emits(d, p) then [Emission(|qs| - |d.chain|, |qs|)] else []
  {
    Assembly(qs);
    hide HasStart, Routed, PacketOk, CcStart, CcEnd, PacketPts, Step, Assembled;
    assert (qs + [p])[..|qs|] == qs;
  }

  lemma NoneYet()
    ensures StampInv(Decode([]), [], 0)
  {}

  lemma {:induction false} StampsMeanNextStart(ps: seq<Packet>)
    requires VideoPackets(ps)
    ensures Since(Log(ps)) <= |ps| && StampInv(Decode(ps), ps, Since(Log(ps)))
  {
    hide HasStart, Routed, PacketOk, CcStart, CcEnd, PacketPts, Step, Assembled, DropFree, ChainInv, Decode;
    if ps == [] {
      NoneYet();
    } else {
      var n := |ps| - 1;
      assert ps == ps[..n] + [ps[n]];
      StampsMeanNextStart(ps[..n]);
      Assembly(ps[..n]);
      LogStep(ps[..n], ps[n]);
      StampStep(Decode(ps[..n]), ps[..n], ps[n], Since(Log(ps[..n])));
    }
  }

  /** The emission before the `k`-th, or the beginning. */
  ghost function Previous(log: seq<Emission>, k: nat): nat
    requires k < |log|
  {
    if k == 0 then 0 else log[k-1].at
  }

  ghost predicate StampedBy(ps: seq<Packet>, prev: nat, e: Emission, s: Slice)
    requires VideoPackets(ps)
  {
    && prev <= e.at < |ps|
    && (var k := NextStart(ps, prev);
        && k < |ps| && PacketOk(ps[k]) && s.timestamp == PacketPts(ps[k])
        && (k == e.first <==> DropFree(ps, prev, e.at)))
  }

  lemma StampedByExtends(ps: seq<Packet>, p: Packet, prev: nat, e: Emission, s: Slice)
    requires VideoPackets(ps) && VideoPacket(p) && StampedBy(ps, prev, e, s)
    ensures StampedBy(ps + [p], prev, e, s)
  {
    var qs := ps + [p];
    NextStartExtends(ps, p, prev);
    DropFreePrefix(ps, p, prev, e.at);
    hide HasStart, PacketOk, Routed, PacketPts, DropFree, NextStart;
  }

  /** In every run the header of a slice carries the time stamp of the first slice start seen since the
      previous emission, counting the packet that triggered it.  That is the slice's own start if and
      only if no packet was dropped in between. */
  lemma {:induction false} TimeStamps(ps: seq<Packet>)
    requires VideoPackets(ps)
    ensures |Log(ps)| == |Decode(ps).emitted|
    ensures forall k :: 0 <= k < |Log(ps)| ==> StampedBy(ps, Previous(Log(ps), k), Log(ps)[k], Decode(ps).emitted[k])
  {
    hide HasStart, Routed, PacketOk, CcStart, CcEnd, PacketPts, Step, Assembled, DropFree, StampedBy, Log, Decode;
    if ps == [] {
      EveryEmissionLogged(ps);
      NothingLogged();
    } else {
      var n := |ps| - 1;
      var qs, p := ps[..n], ps[n];
      assert ps == qs + [p];
      TimeStamps(qs);
      Assembly(qs);
      LogStep(qs, p);
      StepEmits(Decode(qs), p);
      forall k | 0 <= k < |Log(qs)|
        ensures StampedBy(ps, Previous(Log(ps), k), Log(ps)[k], Decode(ps).emitted[k])
      {
        StampedByExtends(qs, p, Previous(Log(qs), k), Log(qs)[k], Decode(qs).emitted[k]);
      }
      if Emits(Decode(qs), p) {
        NewStamp(qs, p);
      }
    }
  }

  lemma NothingLogged()
    ensures Log([]) == []
  {}

  lemma NewStamp(qs: seq<Packet>, p: Packet)
    requires VideoPackets(qs) && VideoPacket(p) && Emits(Decode(qs), p)
    ensures var d := Decode(qs);
            && |d.chain| <= |qs|
            && StampedBy(qs + [p], Since(Log(qs)), Emission(|qs| - |d.chain|, |qs|),
                         Slice(if d.sliceCount == 0 then PacketPts(p) else d.ptsMs, d.chain))
  {
    hide HasStart, Routed, PacketOk, CcStart, CcEnd, PacketPts, Decode, Assembled, Log, Step, DropFree, NextStart;
    var ps, d, a := qs + [p], Decode(qs), Since(Log(qs));
    Assembly(qs);
    StampsMeanNextStart(qs);
    NextStartExtends(qs, p, a);
    DropFreePrefix(qs, p, a, |qs|);
  }

  // ---------- nothing is lost silently ----------

  function Packets(ss: seq<Slice>): seq<Packet> {
    if ss == [] then [] else Packets(ss[..|ss|-1]) + ss[|ss|-1].packets
  }

  lemma DecodeStep(ps: seq<Packet>, p: Packet)
    requires VideoPackets(ps) && VideoPacket(p)
    ensures VideoPackets(ps + [p]) && Decode(ps + [p]) == Step(Decode(ps), p)
    ensures Skips(Decode(ps), p) ==> Decode(ps + [p]) == Decode(ps) && !HasStart(p)
  {
    hide HasStart, Routed, PacketOk, CcStart, CcEnd, PacketPts;
    assert (ps + [p])[..|ps|] == ps;
  }

  lemma PacketsKept(d: Decoder, p: Packet)
    requires VideoPacket(p) && d.pktCount == |d.chain| && (d.looking <==> d.chain == [])
    requires !Skips(d, p) && !Drops(d, p)
    ensures var e := Step(d, p);
            !e.looking && Packets(e.emitted) + e.chain == (Packets(d.emitted) + d.chain) + [p]
  {
    hide HasStart, Routed, PacketOk, CcStart, CcEnd, PacketPts;
    StepEmits(d, p);
    var e := Step(d, p);
    if Emits(d, p) {
      assert e.emitted[..|d.emitted|] == d.emitted;
    }
  }

  /** Without drops, the emitted slices and the chain under assembly are all the packets from the first
      slice start on, in order. */
  lemma {:induction false} NothingLostWithoutDrops(ps: seq<Packet>)
    requires VideoPackets(ps) && DropFree(ps, 0, |ps|)
    ensures Packets(Decode(ps).emitted) + Decode(ps).chain == ps[NextStart(ps, 0)..]
    ensures Decode(ps).looking ==> NextStart(ps, 0) == |ps|
  {
    hide HasStart, Routed, PacketOk, CcStart, CcEnd, PacketPts, DropFree, Assembled, Drops, Step, NextStart;
    if ps == [] {
      NoneYet();
    } else {
      hide Decode, Packets;
      var n := |ps| - 1;
      var qs, p := ps[..n], ps[n];
      assert ps == qs + [p];
      DropFreeExtends(qs, p, 0);
      NothingLostWithoutDrops(qs);
      NextStartExtends(qs, p, 0);
      Assembly(qs);
      DecodeStep(qs, p);
      if Skips(Decode(qs), p) {
        assert ps[NextStart(ps, 0)..] == [];
      } else {
        PacketsKept(Decode(qs), p);
        assert ps[NextStart(ps, 0)..] == qs[NextStart(qs, 0)..] + [p];
      }
    }
  }

  /** The packets freed with the chains dropped. */
  function Freed(ps: seq<Packet>): seq<Packet>
    requires VideoPackets(ps)
  {
    if ps == [] then []
    else
      var d, p := Decode(ps[..|ps|-1]), ps[|ps|-1];
      Freed(ps[..|ps|-1]) + if Drops(d, p) then d.chain else []
  }

  /** The packets that are neither kept nor freed: those skipped, and those that made a chain drop. */
  function Leaked(ps: seq<Packet>): seq<Packet>
    requires VideoPackets(ps)
  {
    if ps == [] then []
    else
      var d, p := Decode(ps[..|ps|-1]), ps[|ps|-1];
      Leaked(ps[..|ps|-1]) + if Skips(d, p) || Drops(d, p) then [p] else []
  }

  /** Where the packets of decoder `d` are. */
  ghost function Held(d: Decoder, freed: seq<Packet>, leaked: seq<Packet>): multiset<Packet> {
    multiset(Packets(d.emitted) + d.chain) + multiset(freed) + multiset(leaked)
  }

  lemma StepConserves(d: Decoder, p: Packet, freed: seq<Packet>, leaked: seq<Packet>)
    requires VideoPacket(p) && d.pktCount == |d.chain| && (d.looking <==> d.chain == [])
    ensures Held(Step(d, p), freed + if Drops(d, p) then d.chain else [],
                 leaked + if Skips(d, p) || Drops(d, p) then [p] else [])
         == Held(d, freed, leaked) + multiset{p}
  {
    hide HasStart, Routed, PacketOk, CcStart, CcEnd, PacketPts, Packets;
    assert freed + [] == freed && leaked + [] == leaked;
    if Drops(d, p) {
      assert Step(d, p) == d.(looking := true, chain := [], pktCount := 0);
      assert Packets(d.emitted) + [] == Packets(d.emitted);
    } else if !Skips(d, p) {
      PacketsKept(d, p);
    }
  }

  /** Every packet taken from the video queue is in exactly one place: in an emitted slice, in the chain, freed
      with a dropped chain, or leaked. */
  lemma {:induction false} PacketsConserved(ps: seq<Packet>)
    requires VideoPackets(ps)
    ensures multiset(ps) == Held(Decode(ps), Freed(ps), Leaked(ps))
  {
    hide HasStart, Routed, PacketOk, CcStart, CcEnd, PacketPts, Step, Skips, Drops, Held;
    if ps == [] {
      NothingHeld();
    } else {
      var n := |ps| - 1;
      PacketsConserved(ps[..n]);
      Assembly(ps[..n]);
      StepConserves(Decode(ps[..n]), ps[n], Freed(ps[..n]), Leaked(ps[..n]));
      assert ps == ps[..n] + [ps[n]];
    }
  }

  lemma NothingHeld()
    ensures Held(START, [], []) == multiset{}
  {}

  // ---------- loss detection ----------

  /** Video transport stream packets in the first `k` packets of the source. */
  function VideoCount(src: seq<Packet>, k: nat): nat
    requires k <= |src|
  {
    if k == 0 then 0 else VideoCount(src, k - 1) + |VideoTs(src[k-1].ts)|
  }

  /** The source counts its video transport stream packets modulo 16, from `c0` on (ISO/IEC 13818-1,
      section 2.4.3.3). */
  ghost predicate Numbered(src: seq<Packet>, c0: nat) {
    && VideoPackets(src)
    && forall k, i {:trigger VideoTs(src[k].ts)[i]} ::
         0 <= k < |src| && 0 <= i < |VideoTs(src[k].ts)| ==>
           VideoTs(src[k].ts)[i].cc == (c0 + VideoCount(src, k) + i) % 16
  }

  /** What is received: some of the source's packets, in order. */
  ghost predicate Received(src: seq<Packet>, idx: seq<nat>, ps: seq<Packet>) {
    && |ps| == |idx|
    && (forall m :: 0 <= m < |idx| ==> idx[m] < |src| && ps[m] == src[idx[m]])
    && (forall m :: 0 <= m < |idx| - 1 ==> idx[m] < idx[m+1])
  }

  /** Video transport stream packets lost between the source packets `i` and `j`. */
  function Gap(src: seq<Packet>, i: nat, j: nat): int
    requires i < j < |src|
  {
    VideoCount(src, j) - VideoCount(src, i + 1)
  }

  lemma VideoCountGrows(src: seq<Packet>, i: nat, j: nat)
    requires VideoPackets(src) && i <= j <= |src|
    ensures VideoCount(src, i) + (j - i) <= VideoCount(src, j)
    decreases j - i
  {
    if i < j {
      VideoCountGrows(src, i, j - 1);
      assert VideoPacket(src[j-1]);
    }
  }

  /** The continuity test accepts two source packets as consecutive if and only if the number of video
      transport stream packets lost between them is a multiple of 16. */
  lemma ContinuityTest(src: seq<Packet>, c0: nat, i: nat, j: nat)
    requires Numbered(src, c0) && i < j < |src|
    ensures Gap(src, i, j) >= 0
    ensures Follows(CcEnd(src[i]), src[j]) <==> Gap(src, i, j) % 16 == 0
  {
    VideoCountGrows(src, i + 1, j);
    assert VideoPacket(src[i]) && VideoPacket(src[j]);
    var v, w := VideoTs(src[i].ts), VideoTs(src[j].ts);
    assert v[|v|-1].cc == (c0 + VideoCount(src, i) + (|v| - 1)) % 16;
    assert w[0].cc == (c0 + VideoCount(src, j) + 0) % 16;
    var a, b := c0 + VideoCount(src, i + 1) - 1, c0 + VideoCount(src, j);
    assert Gap(src, i, j) == b - (a + 1);
    Modulo16(a, b);
  }

  lemma Modulo16(a: nat, b: nat)
    ensures (a % 16 + 1) % 16 == b % 16 <==> (b - (a + 1)) % 16 == 0
  {}

  lemma GapOfOneSlice(src: seq<Packet>, c0: nat, idx: seq<nat>, ps: seq<Packet>, k: nat, m: nat)
    requires Numbered(src, c0) && Received(src, idx, ps) && VideoPackets(ps)
    requires k < |Log(ps)| && Log(ps)[k].first <= m && m + 1 < Log(ps)[k].at
    ensures Log(ps)[k].at < |ps| && Gap(src, idx[m], idx[m+1]) % 16 == 0
  {
    hide HasStart, Routed, PacketOk, CcStart, CcEnd, PacketPts, Decode, Log, Numbered, Follows, Gap;
    EveryEmissionLogged(ps);
    var e, s := Log(ps)[k], Decode(ps).emitted[k];
    assert Describes(ps, e, s);
    var c := s.packets;
    var i: nat := m - e.first;
    assert c[i] == ps[m] && c[i+1] == ps[m+1];
    assert Follows(CcEnd(c[i]), c[i+1]);
    ContinuityTest(src, c0, idx[m], idx[m+1]);
  }

  /** If fewer than 16 video transport stream packets are lost between any two received packets, every
      slice on the queue is a contiguous run of the source's packets. */
  lemma SlicesAreSourceRuns(src: seq<Packet>, c0: nat, idx: seq<nat>, ps: seq<Packet>, k: nat)
    requires Numbered(src, c0) && Received(src, idx, ps) && VideoPackets(ps) && k < |Log(ps)|
    requires forall m :: 0 <= m < |idx| - 1 ==> Gap(src, idx[m], idx[m+1]) < 16
    ensures |Decode(ps).emitted| == |Log(ps)|
    ensures var e, s := Log(ps)[k], Decode(ps).emitted[k];
            && e.first < e.at < |idx| && idx[e.first] + |s.packets| <= |src|
            && s.packets == src[idx[e.first]..idx[e.first] + |s.packets|]
  {
    hide HasStart, Routed, PacketOk, CcStart, CcEnd, PacketPts, Decode, Log, Numbered, Follows, Gap, Assembled;
    EveryEmissionLogged(ps);
    var e, s := Log(ps)[k], Decode(ps).emitted[k];
    assert Describes(ps, e, s);
    ContiguousFrom(src, c0, idx, ps, k, e.at - 1);
    var a := idx[e.first];
    forall i | 0 <= i < |s.packets| ensures a + i < |src| && s.packets[i] == src[a + i] {
      ContiguousFrom(src, c0, idx, ps, k, e.first + i);
      assert s.packets[i] == ps[e.first + i];
    }
  }

  lemma EmissionBounds(ps: seq<Packet>, k: nat)
    requires VideoPackets(ps) && k < |Log(ps)|
    ensures Log(ps)[k].first < Log(ps)[k].at < |ps|
  {
    EveryEmissionLogged(ps);
    assert Describes(ps, Log(ps)[k], Decode(ps).emitted[k]);
  }

  lemma {:induction false} ContiguousFrom(
    src: seq<Packet>, c0: nat, idx: seq<nat>, ps: seq<Packet>, k: nat, m: nat)
    requires Numbered(src, c0) && Received(src, idx, ps) && VideoPackets(ps) && k < |Log(ps)|
    requires forall j :: 0 <= j < |idx| - 1 ==> Gap(src, idx[j], idx[j+1]) < 16
    requires Log(ps)[k].first <= m < Log(ps)[k].at
    ensures m < |idx| && idx[m] == idx[Log(ps)[k].first] + (m - Log(ps)[k].first)
    decreases m
  {
    hide HasStart, Routed, PacketOk, CcStart, CcEnd, PacketPts, Decode, Log, Follows, Assembled;
    EmissionBounds(ps, k);
    if m > Log(ps)[k].first {
      ContiguousFrom(src, c0, idx, ps, k, m - 1);
      GapOfOneSlice(src, c0, idx, ps, k, m - 1);
      NoGap(src, c0, idx[m-1], idx[m]);
    }
  }

  lemma NoGap(src: seq<Packet>, c0: nat, i: nat, j: nat)
    requires Numbered(src, c0) && i < j < |src| && Gap(src, i, j) < 16 && Gap(src, i, j) % 16 == 0
    ensures j == i + 1
  {
    ContinuityTest(src, c0, i, j);
    VideoCountGrows(src, i + 1, j);
  }

  /** A packet drops the chain exactly when it starts no slice and the loss in front of it is not a multiple of
      16: a loss in front of a slice start never drops anything. */
  lemma LossDropsChain(src: seq<Packet>, c0: nat, idx: seq<nat>, ps: seq<Packet>, m: nat)
    requires Numbered(src, c0) && Received(src, idx, ps) && VideoPackets(ps) && 0 < m < |ps|
    requires Decode(ps[..m]).chain != []
    ensures Drops(Decode(ps[..m]), ps[m]) <==> !HasStart(ps[m]) && Gap(src, idx[m-1], idx[m]) % 16 != 0
    ensures Drops(Decode(ps[..m]), ps[m]) ==> Decode(ps[..m+1]).chain == []
  {
    Assembly(ps[..m]);
    var d := Decode(ps[..m]);
    assert d.chain[|d.chain|-1] == ps[m-1];
    ContinuityTest(src, c0, idx[m-1], idx[m]);
    assert ps[..m+1][..m] == ps[..m];
  }

  /** The source's packets from `a` up to `b` are a slice: `a` starts it and `b` is the next to start one. */
  ghost predicate SourceSlice(src: seq<Packet>, a: nat, b: nat) {
    a < b < |src| && HasStart(src[a]) && HasStart(src[b]) && forall j :: a < j < b ==> !HasStart(src[j])
  }

  /** Where a slice ends in the source. */
  lemma SliceInSource(src: seq<Packet>, c0: nat, idx: seq<nat>, ps: seq<Packet>, k: nat)
    requires Numbered(src, c0) && Received(src, idx, ps) && VideoPackets(ps) && k < |Log(ps)|
    requires forall m :: 0 <= m < |idx| - 1 ==> Gap(src, idx[m], idx[m+1]) < 16
    ensures var e := Log(ps)[k];
            && e.first < e.at < |idx| && idx[e.at-1] == idx[e.first] + (e.at - 1 - e.first)
            && idx[e.at-1] < idx[e.at] < |src| && src[idx[e.at]] == ps[e.at] && HasStart(ps[e.at])
            && Assembled(ps[e.first..e.at])
  {
    hide HasStart, Routed, PacketOk, CcStart, CcEnd, PacketPts, Decode, Log, Numbered, Follows, Gap, Assembled;
    EveryEmissionLogged(ps);
    var e := Log(ps)[k];
    assert Describes(ps, e, Decode(ps).emitted[k]);
    ContiguousFrom(src, c0, idx, ps, k, e.at - 1);
    assert ps[e.at-1+1] == ps[e.at];
  }

  /** The slice is what the source has from its first to its last packet; it is a whole slice of the source exactly
      when the packet behind its last one starts a slice, and always when no packet is lost in front of the
      one that ended it. */
  ghost predicate WholeExactlyWhenStartFollows(src: seq<Packet>, idx: seq<nat>, e: Emission, s: Slice) {
    && e.first < e.at < |idx| && idx[e.first] <= idx[e.at-1] < idx[e.at] < |src|
    && (var a, b := idx[e.first], idx[e.at-1] + 1;
        && s.packets == src[a..b]
        && (SourceSlice(src, a, b) <==> HasStart(src[b]))
        && (idx[e.at] == b ==> SourceSlice(src, a, b)))
  }

  /** If fewer than 16 video transport stream packets are lost between any two received packets, every emitted
      slice is a whole slice of the source exactly when a slice start follows it there. */
  lemma SlicesAreWhole(src: seq<Packet>, c0: nat, idx: seq<nat>, ps: seq<Packet>, k: nat)
    requires Numbered(src, c0) && Received(src, idx, ps) && VideoPackets(ps) && k < |Log(ps)|
    requires forall m :: 0 <= m < |idx| - 1 ==> Gap(src, idx[m], idx[m+1]) < 16
    ensures |Decode(ps).emitted| == |Log(ps)|
    ensures WholeExactlyWhenStartFollows(src, idx, Log(ps)[k], Decode(ps).emitted[k])
  {
    hide HasStart, Routed, PacketOk, CcStart, CcEnd, PacketPts, Decode, Log, Follows, Numbered, Gap, Assembled;
    EveryEmissionLogged(ps);
    SlicesAreSourceRuns(src, c0, idx, ps, k);
    SliceInSource(src, c0, idx, ps, k);
    assert Describes(ps, Log(ps)[k], Decode(ps).emitted[k]);
    WholeFrom(src, idx, ps, Log(ps)[k], Decode(ps).emitted[k]);
  }

  lemma WholeFrom(src: seq<Packet>, idx: seq<nat>, ps: seq<Packet>, e: Emission, s: Slice)
    requires e.first < e.at < |idx| == |ps| && idx[e.at-1] == idx[e.first] + (e.at - 1 - e.first)
    requires idx[e.at-1] < idx[e.at] < |src| && src[idx[e.at]] == ps[e.at]
    requires Describes(ps, e, s) && idx[e.first] + |s.packets| <= |src|
    requires s.packets == src[idx[e.first]..idx[e.first] + |s.packets|]
    ensures WholeExactlyWhenStartFollows(src, idx, e, s)
  {
    hide HasStart, Routed, PacketOk, CcStart, CcEnd, Follows;
    var a, n := idx[e.first], |s.packets|;
    assert n == e.at - e.first && a + n == idx[e.at-1] + 1;
    forall j | a < j < a + n ensures !HasStart(src[j]) {
      assert src[j] == s.packets[j - a];
    }
    assert src[a] == s.packets[0];
  }

  // ---------- a stale time stamp ----------

  /** After a drop the next slice keeps the time stamp of the dropped one. */
  lemma StaleAfterDrop(p0: Packet, p1: Packet, p2: Packet, p3: Packet)
    requires VideoPacket(p0) && VideoPacket(p1) && VideoPacket(p2) && VideoPacket(p3)
    requires HasStart(p0) && !HasStart(p1) && HasStart(p2) && HasStart(p3) && !Follows(CcEnd(p0), p1)
    ensures Decode([p0, p1, p2, p3]).emitted == [Slice(PacketPts(p0), [p2])]
  {
    hide HasStart, Routed, PacketOk, CcStart, CcEnd, PacketPts, Follows;
    DecodeStep([], p0);
    DecodeStep([p0], p1);
    DecodeStep([p0, p1], p2);
    DecodeStep([p0, p1, p2], p3);
    assert [] + [p0] == [p0] && [p0] + [p1] == [p0, p1];
    assert [p0, p1] + [p2] == [p0, p1, p2] && [p0, p1, p2] + [p3] == [p0, p1, p2, p3];
    var d1 := Step(START, p0);
    assert d1.chain == [p0] && d1.ptsMs == PacketPts(p0);
    var d2 := Step(d1, p1);
    assert d2.chain == [] && d2.looking;
    var d3 := Step(d2, p2);
    assert d3.chain == [p2] && d3.ptsMs == PacketPts(p0) && d3.emitted == [];
  }

  /** A packet of one video transport stream packet without adaptation field. */
  function SamplePacket(start: bool, cc: nat, pts: bv64): (p: Packet)
    requires cc < 16
  {
    Packet(0, [Ts(VIDEO_PID, start, 1, cc,
                  seq(9, i => 0 as Byte) + EncodePts(pts, 2, 1, 1, 1) + seq(170, i => 0 as Byte))])
  }

  lemma SampleReads(start: bool, cc: nat, pts: bv64)
    requires cc < 16 && pts < 0x2_0000_0000
    ensures var p := SamplePacket(start, cc, pts);
            && VideoPacket(p) && HasStart(p) == start && CcStart(p) == CcEnd(p) == cc && |VideoTs(p.ts)| == 1
            && (start ==> PacketPts(p) == (pts as nat) / 90)
  {
    var p := SamplePacket(start, cc, pts);
    var t := p.ts[0];
    assert p.ts[..0] == [] && VideoTs(p.ts) == [t];
    assert t.payload[9..14] == EncodePts(pts, 2, 1, 1, 1);
    PtsRoundTrip(pts, 2, 1, 1, 1);
  }

  /** A concrete run whose only slice, presented at 30 ms by its own header, is put on the queue with
      the 10 ms of the slice dropped before it. */
  lemma StaleTimeStampWitness()
    ensures var ps := [SamplePacket(true, 0, 900), SamplePacket(false, 2, 0),
                       SamplePacket(true, 3, 2700), SamplePacket(true, 4, 3600)];
            && VideoPackets(ps) && PacketPts(ps[2]) == 30
            && Decode(ps).emitted == [Slice(10, [ps[2]])]
  {
    hide SamplePacket, HasStart, Routed, PacketOk, CcStart, CcEnd, PacketPts, Decode;
    var p0, p1, p2, p3 := SamplePacket(true, 0, 900), SamplePacket(false, 2, 0),
                          SamplePacket(true, 3, 2700), SamplePacket(true, 4, 3600);
    SampleReads(true, 0, 900);
    SampleReads(false, 2, 0);
    SampleReads(true, 3, 2700);
    SampleReads(true, 4, 3600);
    assert PacketPts(p0) == 10 && PacketPts(p2) == 30;
    StaleAfterDrop(p0, p1, p2, p3);
  }

  /** A source of packets with one video transport stream packet each; slices start at 0 and at `next`. */
  function SampleSource(n: nat, next: nat): (src: seq<Packet>)
    ensures |src| == n
  {
    seq(n, k requires 0 <= k < n => SamplePacket(k == 0 || k == next, k % 16, 0))
  }

  lemma {:induction false} SampleCount(n: nat, next: nat, k: nat)
    requires k <= n
    ensures VideoCount(SampleSource(n, next), k) == k
  {
    if k > 0 {
      SampleCount(n, next, k - 1);
      SampleReads(k == 1 || k - 1 == next, (k - 1) % 16, 0);
    }
  }

  lemma SampleAt(n: nat, next: nat, k: nat)
    requires k < n
    ensures var p := SampleSource(n, next)[k];
            && VideoPacket(p) && HasStart(p) == (k == 0 || k == next) && CcStart(p) == CcEnd(p) == k % 16
            && |VideoTs(p.ts)| == 1 && VideoTs(p.ts)[0].cc == k % 16
  {
    SampleReads(k == 0 || k == next, k % 16, 0);
    hide SamplePacket, VideoTs, PacketOk, HasStart, PacketPts;
  }

  lemma SampleIsNumbered(n: nat, next: nat)
    ensures Numbered(SampleSource(n, next), 0)
  {
    hide SamplePacket, SampleSource, VideoPacket, VideoTs, VideoCount, HasStart, CcStart, CcEnd;
    var src := SampleSource(n, next);
    forall k | 0 <= k < n
      ensures VideoPacket(src[k]) && |VideoTs(src[k].ts)| == 1 && VideoTs(src[k].ts)[0].cc == k % 16
      ensures VideoCount(src, k) == k
    {
      SampleAt(n, next, k);
      SampleCount(n, next, k);
    }
  }

  lemma TwoAccepted(p: Packet, q: Packet)
    requires VideoPacket(p) && VideoPacket(q) && HasStart(p) && !HasStart(q) && Follows(CcEnd(p), q)
    ensures VideoPackets([p, q]) && Decode([p, q]).chain == [p, q] && !Decode([p, q]).looking
    ensures Decode([p, q]).pktCount == 2 && Decode([p, q]).emitted == []
  {
    hide PacketOk, HasStart, Routed, CcStart, CcEnd, PacketPts;
    assert [p, q][..1] == [p] && [p][..0] == [];
    assert Decode([p]) == Step(START, p) && Decode([p, q]) == Step(Decode([p]), q);
  }

  /** The loss of 16 video transport stream packets in the middle of a slice goes unnoticed: the slice goes on
      without them. */
  lemma SixteenLostUnnoticed()
    ensures var src, idx := SampleSource(18, 18), [0, 17];
            var ps := [src[0], src[17]];
            && Numbered(src, 0) && Received(src, idx, ps) && VideoPackets(ps) && Gap(src, 0, 17) == 16
            && Decode(ps).chain == ps && !Decode(ps).looking
  {
    hide SamplePacket, SampleSource, VideoPacket, VideoTs, HasStart, CcStart, CcEnd, VideoCount, Decode, Numbered;
    var src := SampleSource(18, 18);
    SampleIsNumbered(18, 18);
    SampleCount(18, 18, 17);
    SampleCount(18, 18, 1);
    SampleAt(18, 18, 0);
    SampleAt(18, 18, 17);
    TwoAccepted(src[0], src[17]);
  }

  /** With nothing but packet 2 of the source lost, the decoder emits packets 0 and 1 as a slice. */
  ghost predicate Truncates(src: seq<Packet>, idx: seq<nat>, ps: seq<Packet>) {
    && Numbered(src, 0) && idx == [0, 1, 3] && |src| == 4 && Received(src, idx, ps) && VideoPackets(ps)
    && Gap(src, 0, 1) == 0 && Gap(src, 1, 3) == 1 && SourceSlice(src, 0, 3)
    && |Decode(ps).emitted| == 1 && Decode(ps).emitted[0].packets == src[..2]
  }

  lemma ThirdLost(src: seq<Packet>)
    requires |src| == 4 && Numbered(src, 0)
    requires VideoCount(src, 1) == 1 && VideoCount(src, 2) == 2 && VideoCount(src, 3) == 3
    requires HasStart(src[0]) && !HasStart(src[1]) && !HasStart(src[2]) && HasStart(src[3])
    requires VideoPacket(src[1]) && Follows(CcEnd(src[0]), src[1])
    ensures Truncates(src, [0, 1, 3], [src[0], src[1], src[3]])
  {
    hide PacketOk, Routed, HasStart, CcStart, CcEnd, VideoCount, Decode, VideoTs;
    TwoAccepted(src[0], src[1]);
    StartEmits([src[0], src[1]], src[3]);
    assert [src[0], src[1]] + [src[3]] == [src[0], src[1], src[3]] && src[..2] == [src[0], src[1]];
  }

  /** The loss of the last packet of a slice goes unnoticed: of the slice of packets 0, 1 and 2, the first two are
      emitted as if they were complete. */
  lemma TruncatedSliceEmitted()
    ensures var src := SampleSource(4, 3);
            Truncates(src, [0, 1, 3], [src[0], src[1], src[3]])
  {
    hide SamplePacket, SampleSource, VideoTs, PacketOk, Routed, HasStart, CcStart, CcEnd, VideoCount, Numbered;
    hide Truncates;
    SampleIsNumbered(4, 3);
    SampleCount(4, 3, 1);
    SampleCount(4, 3, 2);
    SampleCount(4, 3, 3);
    SampleAt(4, 3, 0);
    SampleAt(4, 3, 1);
    SampleAt(4, 3, 2);
    SampleAt(4, 3, 3);
    ThirdLost(SampleSource(4, 3));
  }

  lemma StartEmits(ps: seq<Packet>, p: Packet)
    requires VideoPackets(ps) && VideoPacket(p) && HasStart(p) && Decode(ps).pktCount > 0 && Decode(ps).emitted == []
    ensures VideoPackets(ps + [p]) && |Decode(ps + [p]).emitted| == 1
    ensures Decode(ps + [p]).emitted[0].packets == Decode(ps).chain
  {
    Assembly(ps);
    StepEmits(Decode(ps), p);
    DecodeStep(ps, p);
  }

  // ---------- the thread ----------

  /** The thread's control block; `emitted` records what it has put on the slice queue, `freed` and `leaked` the
      packets it has freed or lost hold of. */
  class ControlBlock {
    var lookForNewSlice: bool
    var lastCc: nat
    var slicePktCount: nat
    var slicePtsMs: nat
    var sliceCount: nat
    var sliceChain: seq<Packet>
    ghost var emitted: seq<Slice>
    ghost var freed: seq<Packet>
    ghost var leaked: seq<Packet>

    ghost function State(): Decoder
      reads this
    {
      Decoder(lookForNewSlice, slicePktCount, lastCc, slicePtsMs, sliceCount, sliceChain, emitted)
    }

    ghost predicate Valid()
      reads this
    {
      slicePktCount == |sliceChain| && (lookForNewSlice <==> sliceChain == [])
    }

    constructor ()
      ensures Valid() && State() == START && freed == [] && leaked == []
    {
      lookForNewSlice, lastCc, slicePktCount, slicePtsMs, sliceCount := true, 0, 0, 0, 0;
      sliceChain, emitted, freed, leaked := [], [], [], [];
    }

    method SliceChainGet() returns (head: seq<Packet>)
      modifies `sliceChain
      ensures head == old(sliceChain) && sliceChain == []
    {
      head := sliceChain;
      sliceChain := [];
    }

    method SliceDump(ptsMs: nat, slice: seq<Packet>)
      modifies `emitted
      ensures emitted == old(emitted) + [Slice(ptsMs, slice)]
    {
      emitted := emitted + [Slice(ptsMs, slice)];
    }

    /** Frees the chain, which must not be empty. */
    method SliceDrop()
      requires sliceChain != []
      modifies `sliceChain, `freed
      ensures sliceChain == [] && freed == old(freed) + old(sliceChain)
    {
      freed := freed + sliceChain;
      sliceChain := [];
    }

    /** The loop body of the thread for one packet taken from the video queue. */
    method Process(data: seq<Byte>)
      requires Framed(data) && VideoPacket(Parse(data)) && Valid()
      modifies this
      ensures Valid() && State() == Step(old(State()), Parse(data))
      ensures var d, p := old(State()), Parse(data);
              && freed == old(freed) + (if Drops(d, p) then d.chain else [])
              && leaked == old(leaked) + (if Skips(d, p) || Drops(d, p) then [p] else [])
    {
      hide HasStart, Routed, PacketOk, CcStart, CcEnd, StartPts, StartPesLen, VideoCountedTs, Parse;
      var found, ptsMs, pesLen := SliceStartFind(data);
      if lookForNewSlice {
        if !found {
          leaked := leaked + [Parse(data)];
          return;
        }
        lookForNewSlice := false;
      }
      if found {
        if sliceCount == 0 {
          slicePtsMs := ptsMs;
        }
        if slicePktCount > 0 {
          var head := SliceChainGet();
          SliceDump(slicePtsMs, head);
          slicePktCount := 0;
          slicePtsMs := ptsMs;
        }
        sliceCount := sliceCount + 1;
      }
      var pesByteCount, ccStart, ccEnd := DataInterpret(data);
      if slicePktCount == 0 {
        lastCc := ccEnd;
      } else if (lastCc + 1) % 16 == ccStart {
        lastCc := ccEnd;
      } else {
        SliceDrop();
        lookForNewSlice := true;
        slicePktCount := 0;
        leaked := leaked + [Parse(data)];
        return;
      }
      sliceChain := sliceChain + [Parse(data)];
      slicePktCount := slicePktCount + 1;
    }
  }
}
