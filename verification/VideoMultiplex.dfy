/** Video from the sender to the hardware: what the sink takes out of the packets is the elementary stream that the
    sender put into them. */
module VideoMultiplex {
  import opened Clocks
  import opened TsPacket
  import opened Demux
  import opened VideoDecoder
  import opened SlicePacking
  import opened VideoPipeline
  import opened Multiplex
  import opened Sequences
  import opened Words

  // ---------- one transport stream packet ----------

  /** A piece of video behind a PES header of 14 bytes or none, or a packet of another stream. */
  predicate UnitOk(u: Unit) {
    match u
    case Piece(_, _, _, _, _) => PieceOk(u, 14) && u.pid == 0x1011
    case Foreign(ts) => VideoOk(ts) && !IsVideo(ts)
  }

  /** The video bytes of a packet are the piece of video in it: no byte of the headers in front, and none missing
      behind them, with or without an adaptation field and a PES header. */
  lemma DataIsRead(u: Unit)
    requires UnitOk(u)
    ensures VideoOk(TsOfUnit(u)) && IsVideo(TsOfUnit(u)) == u.Piece?
    ensures u.Piece? ==> VideoBytes(TsOfUnit(u)) == u.data && (IsStart(TsOfUnit(u)) <==> u.header != [])
  {
    if u.Piece? {
      Unstuffed(u, PES_HDR);
      hide Stuffing;
      var t := TsOfUnit(u);
      assert t.payload[VideoOffset(t)..] == t.payload[Stuffing(t)..][|u.header|..];
    }
  }

  /** A PES header of 14 bytes with the length `len` and the time stamp `pts`, as laid out in ISO/IEC 13818-1,
      section 2.4.3.6. */
  predicate PesHeader(h: seq<Byte>, len: nat, pts: bv64, prefix: Byte, m1: Byte, m2: Byte, m3: Byte) {
    && |h| == 14 && pts < 0x2_0000_0000
    && len == (h[4] as nat) * 256 + (h[5] as nat)
    && h[9..14] == EncodePts(pts, prefix, m1, m2, m3)
  }

  lemma HeaderRead(h: seq<Byte>, len: nat, pts: bv64, prefix: Byte, m1: Byte, m2: Byte, m3: Byte)
    requires PesHeader(h, len, pts, prefix, m1, m2, m3)
    ensures |h| == PES_HDR && Short(h[4], h[5]) == len < 0x1_0000 && PtsMs(h[9..14]) == (pts as nat) / 90
  {
    hide EncodePts, BigEndian, PtsBits;
    PtsRoundTrip(pts, prefix, m1, m2, m3);
  }

  lemma StartsBehindField(u: Unit)
    requires UnitOk(u) && u.Piece? && |u.header| == PES_HDR
    ensures var t := TsOfUnit(u);
            && VideoOk(t) && IsStart(t) && Stuffing(t) + PES_HDR <= TS_PAYLOAD
            && t.payload[Stuffing(t) + 9..Stuffing(t) + 14] == u.header[9..14]
            && t.payload[Stuffing(t) + 4] == u.header[4] && t.payload[Stuffing(t) + 5] == u.header[5]
  {
    hide Stuffing, VideoOk;
    DataIsRead(u);
    Unstuffed(u, PES_HDR);
    var t := TsOfUnit(u);
    var rest := t.payload[Stuffing(t)..];
    assert rest[9..14] == u.header[9..14] && rest[4] == u.header[4] && rest[5] == u.header[5];
    assert t.payload[Stuffing(t) + 9..Stuffing(t) + 14] == rest[9..14];
  }

  /** The time stamp of a slice start is the 33-bit number encoded in its PES header, in milliseconds, and its length
      is the one announced there less 8, in 32 bits, or 0 if the header leaves it open. */
  lemma StartIsRead(u: Unit, len: nat, pts: bv64, prefix: Byte, m1: Byte, m2: Byte, m3: Byte)
    requires UnitOk(u) && u.Piece? && PesHeader(u.header, len, pts, prefix, m1, m2, m3)
    ensures VideoOk(TsOfUnit(u)) && IsStart(TsOfUnit(u))
    ensures StartPts(TsOfUnit(u)) == (pts as nat) / 90
    ensures StartPesLen(TsOfUnit(u)) == if len == 0 then 0 else (len - 8) % WORD
  {
    hide Stuffing, VideoOk, PesHeader, PtsMs, Short, TsOfUnit, UnitOk;
    HeaderRead(u.header, len, pts, prefix, m1, m2, m3);
    StartsBehindField(u);
  }

  /** The decoder's count of a packet is the length of its piece of video, except for a slice start behind an
      adaptation field, for which it is 170 whatever the length. */
  lemma CountIsLength(u: Unit)
    requires UnitOk(u)
    ensures VideoOk(TsOfUnit(u))
    ensures VideoCounted(TsOfUnit(u)) ==
      if u.Piece? && u.header != [] && u.field != [] then 170 else |UnitData(u)|
  {
    DataIsRead(u);
    hide VideoOffset, Stuffing;
    if u.Piece? {
      Unstuffed(u, PES_HDR);
    }
  }

  // ---------- chains of packets ----------

  predicate UnitsOk(us: seq<Unit>) {
    forall i :: 0 <= i < |us| ==> UnitOk(us[i])
  }

  predicate ParcelOk(b: Parcel) { b.units != [] && UnitsOk(b.units) }

  predicate ParcelsOk(bs: seq<Parcel>) {
    forall i :: 0 <= i < |bs| ==> ParcelOk(bs[i])
  }

  lemma AllOk(us: seq<Unit>)
    requires UnitsOk(us)
    ensures forall i :: 0 <= i < |us| ==> VideoOk(TsOfUnits(us)[i])
  {
    hide TsOfUnit, VideoOk, UnitOk;
    forall i | 0 <= i < |us| ensures VideoOk(TsOfUnits(us)[i]) {
      DataIsRead(us[i]);
    }
  }

  lemma {:induction false} UnitsStream(us: seq<Unit>)
    requires UnitsOk(us)
    ensures forall i :: 0 <= i < |us| ==> VideoOk(TsOfUnits(us)[i])
    ensures Flatten(TsPayloads(TsOfUnits(us))) == UnitsData(us)
  {
    hide TsOfUnit, VideoOk, UnitOk, VideoBytes, Flatten;
    AllOk(us);
    if us == [] {
      FlattenNothing();
    } else {
      var ts := TsOfUnits(us);
      UnitsStream(us[1..]);
      DataIsRead(us[0]);
      assert ts[1..] == TsOfUnits(us[1..]);
      var rest := TsPayloads(ts[1..]);
      FlattenOne(UnitData(us[0]), rest);
      assert [] + rest == rest && [] + UnitsData(us[1..]) == UnitsData(us[1..]);
    }
  }

  lemma FlattenOne(b: seq<Byte>, bs: seq<seq<Byte>>)
    ensures Flatten([b] + bs) == b + Flatten(bs)
  {
    assert ([b] + bs)[1..] == bs;
  }

  /** The elementary stream of a chain of packets is the video the sender put into them, whatever fields, headers and
      foreign packets were put between. */
  lemma {:induction false} ElementaryStreamIsData(bs: seq<Parcel>)
    requires ParcelsOk(bs)
    ensures forall i :: 0 <= i < |bs| ==> PacketOk(PacketsOf(bs)[i])
    ensures ElementaryStream(PacketsOf(bs)) == Data(bs)
  {
    hide TsOfUnits, UnitsOk, VideoOk, Flatten, TsPayloads;
    forall i | 0 <= i < |bs| ensures PacketOk(PacketsOf(bs)[i]) {
      assert ParcelOk(bs[i]);
      UnitsStream(bs[i].units);
    }
    if bs == [] {
      FlattenNothing();
    } else {
      var ps := PacketsOf(bs);
      assert ParcelOk(bs[0]);
      UnitsStream(bs[0].units);
      ElementaryStreamIsData(bs[1..]);
      assert ps[1..] == PacketsOf(bs[1..]);
      FlattenAppend(TsPayloads(ps[0].ts), Payloads(ps[1..]));
    }
  }

  // ---------- from the sender to the hardware ----------

  predicate PacketsOk(ps: seq<Packet>) {
    forall i :: 0 <= i < |ps| ==> PacketOk(ps[i])
  }

  lemma PayloadsFirst(p: Packet, ps: seq<Packet>)
    requires PacketOk(p) && PacketsOk(ps)
    ensures PacketsOk([p] + ps) && Payloads([p] + ps) == TsPayloads(p.ts) + Payloads(ps)
  {
    hide VideoOk;
    assert ([p] + ps)[1..] == ps;
  }

  lemma {:induction false} PayloadsJoin(a: seq<Packet>, b: seq<Packet>)
    requires PacketsOk(a) && PacketsOk(b)
    ensures PacketsOk(a + b) && Payloads(a + b) == Payloads(a) + Payloads(b)
  {
    hide VideoOk, Payloads, TsPayloads;
    if a == [] {
      NoPayload();
      assert a + b == b;
    } else {
      assert PacketOk(a[0]);
      PayloadsJoin(a[1..], b);
      PayloadsFirst(a[0], a[1..]);
      PayloadsFirst(a[0], a[1..] + b);
      assert [a[0]] + a[1..] == a && [a[0]] + (a[1..] + b) == a + b;
      Assoc(TsPayloads(a[0].ts), Payloads(a[1..]), Payloads(b));
    }
  }

  lemma NoPayload()
    ensures Payloads([]) == []
  {}

  lemma StreamJoins(a: seq<Packet>, b: seq<Packet>)
    requires PacketsOk(a) && PacketsOk(b)
    ensures PacketsOk(a + b) && ElementaryStream(a + b) == ElementaryStream(a) + ElementaryStream(b)
  {
    hide PacketOk, Payloads, Flatten;
    PayloadsJoin(a, b);
    FlattenAppend(Payloads(a), Payloads(b));
  }

  lemma {:induction false} StreamsJoined(ss: seq<Slice>)
    requires VideoSlices(ss)
    ensures VideoPackets(Packets(ss)) && Streams(ss) == ElementaryStream(Packets(ss))
  {
    hide PacketOk, Routed, Payloads, Flatten;
    if ss == [] {
      NoStream();
    } else {
      var n := |ss| - 1;
      StreamsJoined(ss[..n]);
      assert VideoPackets(ss[n].packets);
      assert Packets(ss) == Packets(ss[..n]) + ss[n].packets;
      StreamJoins(Packets(ss[..n]), ss[n].packets);
    }
  }

  lemma NoStream()
    ensures ElementaryStream([]) == []
  {}

  /** The slices that were cut out of the packets, joined. */
  ghost function SlicesData(bs: seq<Parcel>, log: seq<Emission>): seq<Byte>
    requires forall k :: 0 <= k < |log| ==> log[k].first <= log[k].at <= |bs|
  {
    if log == [] then []
    else
      var e := log[|log|-1];
      SlicesData(bs, log[..|log|-1]) + Data(bs[e.first..e.at])
  }

  lemma {:induction false} StreamsAreData(bs: seq<Parcel>, log: seq<Emission>, ss: seq<Slice>)
    requires ParcelsOk(bs) && VideoSlices(ss) && |log| == |ss|
    requires forall k :: 0 <= k < |log| ==> Describes(PacketsOf(bs), log[k], ss[k])
    ensures forall k :: 0 <= k < |log| ==> log[k].first <= log[k].at <= |bs|
    ensures Streams(ss) == SlicesData(bs, log)
  {
    hide PacketOf, ElementaryStream, VideoPackets, Assembled, HasStart, ParcelOk;
    assert forall k :: 0 <= k < |log| ==> Describes(PacketsOf(bs), log[k], ss[k]) && log[k].first <= log[k].at <= |bs|;
    if ss != [] {
      var n := |ss| - 1;
      StreamsAreData(bs, log[..n], ss[..n]);
      assert Describes(PacketsOf(bs), log[n], ss[n]);
      var part := bs[log[n].first..log[n].at];
      assert PacketsOf(part) == ss[n].packets;
      ElementaryStreamIsData(part);
    }
  }

  /** From the sender to the hardware.  If the video packets that arrived carry `bs`, the bytes submitted are, under
      every interleaving, a prefix of the video that the sender put into the slices the decoder cuts out. */
  lemma DataReachesHardware(init: State, steps: seq<VideoPipeline.Step>, bufs: seq<nat>, bs: seq<Parcel>)
    requires Initial(init, bufs) && Runs(init, steps)
    requires ParcelsOk(bs) && Select(After(init, steps).arrived, VideoPkt) == PacketsOf(bs)
    ensures var ps := PacketsOf(bs);
            && VideoPackets(ps)
            && (forall k :: 0 <= k < |Log(ps)| ==> Log(ps)[k].first <= Log(ps)[k].at <= |bs|)
            && Flatten(After(init, steps).submitted) <= SlicesData(bs, Log(ps))
  {
    EndToEndBytes(init, steps, bufs);
    hide Initial, Runs, After, Select, Flatten, Streams, VideoPackets, VideoSlices, Log, VideoDecoder.Decode, Describes,
         PacketsOf;
    var ps := PacketsOf(bs);
    EveryEmissionLogged(ps);
    StreamsAreData(bs, Log(ps), VideoDecoder.Decode(ps).emitted);
  }

  /** If no packet makes the decoder drop a chain, the bytes submitted are a prefix of the video that the sender sent
      from the first slice start on. */
  lemma AllDataReachesHardware(init: State, steps: seq<VideoPipeline.Step>, bufs: seq<nat>, bs: seq<Parcel>)
    requires Initial(init, bufs) && Runs(init, steps)
    requires ParcelsOk(bs) && Select(After(init, steps).arrived, VideoPkt) == PacketsOf(bs)
    requires VideoPackets(PacketsOf(bs)) && DropFree(PacketsOf(bs), 0, |bs|)
    ensures Flatten(After(init, steps).submitted) <= Data(bs[NextStart(PacketsOf(bs), 0)..])
  {
    EndToEndBytes(init, steps, bufs);
    hide Initial, Runs, After, Select, Flatten, Streams, VideoSlices, VideoDecoder.Decode, PacketOf, DropFree, PacketOk,
         Routed, ElementaryStream, ParcelOk, NextStart;
    var ps := PacketsOf(bs);
    var d, rest := VideoDecoder.Decode(ps), bs[NextStart(ps, 0)..];
    NothingLostWithoutDrops(ps);
    EmittedAreVideo(ps);
    StreamsJoined(d.emitted);
    assert PacketsOf(rest) == ps[NextStart(ps, 0)..];
    ElementaryStreamIsData(rest);
    StreamJoins(Packets(d.emitted), d.chain);
  }

  // ---------- from the bytes of the network to the buffers ----------

  lemma {:induction false} ChainIsRead(chain: seq<seq<Byte>>, bs: seq<Parcel>)
    requires ParcelsOk(bs) && AllSentAs(chain, bs)
    ensures SlicePackets(chain) && ParseAll(chain) == PacketsOf(bs)
  {
    hide Parse, Framed, SentAs, PacketOf, PacketOk, ParcelOk;
    ElementaryStreamIsData(bs);
    forall i | 0 <= i < |chain| ensures Framed(chain[i]) && PacketOk(Parse(chain[i])) {
      SentIsRead(chain[i], bs[i]);
      assert PacketsOf(bs)[i] == PacketOf(bs[i]);
    }
    if bs != [] {
      ChainIsRead(chain[1..], bs[1..]);
      SentIsRead(chain[0], bs[0]);
    }
  }

  /** The buffers into which a slice is packed hold, joined, exactly the video sent in its packets. */
  lemma BuffersHoldData(chain: seq<seq<Byte>>, bs: seq<Parcel>)
    requires ParcelsOk(bs) && AllSentAs(chain, bs)
    ensures SlicePackets(chain) && Flatten(Pack(Payloads(ParseAll(chain)), [])) == Data(bs)
  {
    hide AllSentAs, Flatten, Pack, Payloads, PacketsOf;
    ChainIsRead(chain, bs);
    ElementaryStreamIsData(bs);
    PackLossless(Payloads(ParseAll(chain)), []);
  }
}
