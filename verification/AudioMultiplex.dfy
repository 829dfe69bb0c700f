/** Audio from the sender to the hardware buffers: what the scheduler copies is what the sender put into the packets,
    and what the decoder counts is its length. */
module AudioMultiplex {
  import opened Clocks
  import opened TsPacket
  import opened Multiplex
  import opened Sequences
  import opened Words
  import AD = AudioDecoder
  import AS = AudioScheduler

  /** A piece of audio behind 20 bytes of PES and LPCM headers or none, or a packet of another stream. */
  predicate UnitOk(u: Unit) {
    match u
    case Piece(_, _, _, _, _) => PieceOk(u, 20) && u.pid == 0x1100
    case Foreign(ts) => AD.AudioOk(ts) && !AD.IsAudio(ts)
  }

  /** The audio bytes of a packet are the piece of audio in it. */
  lemma DataIsRead(u: Unit)
    requires UnitOk(u)
    ensures AD.AudioOk(TsOfUnit(u)) && AD.IsAudio(TsOfUnit(u)) == u.Piece?
    ensures AS.AudioBytes(TsOfUnit(u)) == UnitData(u)
    ensures u.Piece? ==> (AD.IsAudioStart(TsOfUnit(u)) <==> u.header != [])
  {
    if u.Piece? {
      Unstuffed(u, 20);
      hide Stuffing;
      var t := TsOfUnit(u);
      assert t.payload[AS.AudioOffset(t)..] == t.payload[Stuffing(t)..][|u.header|..];
    }
  }

  /** The decoder's count of a packet is the length of its piece of audio, except for a slice start behind an
      adaptation field, for which it is 164 whatever the length. */
  lemma CountIsLength(u: Unit)
    requires UnitOk(u)
    ensures AD.AudioOk(TsOfUnit(u))
    ensures AD.Counted(TsOfUnit(u)) ==
      if u.Piece? && u.header != [] && u.field != [] then 164 else |UnitData(u)|
  {
    DataIsRead(u);
    hide Stuffing;
    if u.Piece? {
      Unstuffed(u, 20);
    }
  }

  /** A slice start that announces `len` bytes and has no adaptation field. */
  predicate StartsWith(u: Unit, len: nat) {
    u.Piece? && u.field == [] && |u.header| == 20 && len == (u.header[4] as nat) * 256 + (u.header[5] as nat)
  }

  /** A slice start without an adaptation field announces the length in its PES header less 14, in 32 bits. */
  lemma LengthIsRead(u: Unit, len: nat)
    requires UnitOk(u) && StartsWith(u, len)
    ensures |TsOfUnit(u).payload| == TS_PAYLOAD && AD.PesLen(TsOfUnit(u).payload) == (len - 14) % WORD
  {
    assert u.field + u.header == u.header;
    assert TsOfUnit(u).payload[4] == u.header[4] && TsOfUnit(u).payload[5] == u.header[5];
  }

  predicate IsStart(u: Unit) { u.Piece? && u.header != [] }

  predicate UnitsOk(us: seq<Unit>) {
    forall i :: 0 <= i < |us| ==> UnitOk(us[i])
  }

  predicate ParcelOk(b: Parcel) {
    0 < |b.units| <= AD.MAX_TS && b.seqNum < AD.SEQ && UnitsOk(b.units)
  }

  predicate ParcelsOk(bs: seq<Parcel>) {
    forall i :: 0 <= i < |bs| ==> ParcelOk(bs[i])
  }

  lemma {:induction false} UnitsDataAppend(us: seq<Unit>, u: Unit)
    ensures UnitsData(us + [u]) == UnitsData(us) + UnitData(u)
  {
    hide UnitData;
    if us == [] {
      assert [] + [u] == [u] && [u][1..] == [];
    } else {
      UnitsDataAppend(us[1..], u);
      assert (us + [u])[1..] == us[1..] + [u];
      Assoc(UnitData(us[0]), UnitsData(us[1..]), UnitData(u));
    }
  }

  lemma {:induction false} DataAppend(bs: seq<Parcel>, b: Parcel)
    ensures Data(bs + [b]) == Data(bs) + UnitsData(b.units)
  {
    hide UnitsData;
    if bs == [] {
      assert [] + [b] == [b] && [b][1..] == [];
    } else {
      DataAppend(bs[1..], b);
      assert (bs + [b])[1..] == bs[1..] + [b];
      Assoc(UnitsData(bs[0].units), Data(bs[1..]), UnitsData(b.units));
    }
  }

  lemma AllOk(us: seq<Unit>)
    requires UnitsOk(us)
    ensures forall i :: 0 <= i < |us| ==> AD.AudioOk(TsOfUnits(us)[i])
    ensures forall i :: 0 <= i < |us| ==> (AD.IsAudioStart(TsOfUnits(us)[i]) <==> IsStart(us[i]))
  {
    hide TsOfUnit, UnitOk, AD.AudioOk, TsOfUnits;
    forall i | 0 <= i < |us| ensures AD.AudioOk(TsOfUnits(us)[i])
                             ensures AD.IsAudioStart(TsOfUnits(us)[i]) <==> IsStart(us[i])
    {
      DataIsRead(us[i]);
    }
  }

  lemma AudioTsLast(ts: seq<Ts>, t: Ts)
    requires AD.AudioOk(t) && forall i :: 0 <= i < |ts| ==> AD.AudioOk(ts[i])
    ensures AS.AudioTs(ts + [t]) == AS.AudioTs(ts) + AS.AudioBytes(t)
  {
    hide AD.AudioOk, AS.AudioBytes;
    assert (ts + [t])[..|ts|] == ts;
  }

  lemma {:induction false} UnitsAreData(us: seq<Unit>)
    requires UnitsOk(us)
    ensures forall i :: 0 <= i < |us| ==> AD.AudioOk(TsOfUnits(us)[i])
    ensures AS.AudioTs(TsOfUnits(us)) == UnitsData(us)
  {
    hide TsOfUnit, UnitOk, AD.AudioOk, AS.AudioBytes, AS.AudioTs, TsOfUnits;
    AllOk(us);
    if us == [] {
      NoUnits();
    } else {
      var n, ts := |us| - 1, TsOfUnits(us);
      UnitsAreData(us[..n]);
      DataIsRead(us[n]);
      assert ts == TsOfUnits(us[..n]) + [ts[n]];
      AudioTsLast(TsOfUnits(us[..n]), ts[n]);
      UnitsDataAppend(us[..n], us[n]);
      assert us[..n] + [us[n]] == us;
    }
  }

  lemma NoUnits()
    ensures AS.AudioTs(TsOfUnits([])) == [] && UnitsData([]) == []
  {}

  lemma PacketIsData(b: Parcel)
    requires ParcelOk(b)
    ensures AD.AudioPacket(PacketOf(b)) && AS.AudioTs(PacketOf(b).ts) == UnitsData(b.units)
  {
    hide AD.AudioOk, UnitOk, TsOfUnits, UnitsOk;
    UnitsAreData(b.units);
  }

  /** The audio stream of a chain of packets, as the scheduler copies it, is the audio the sender put into them. */
  lemma {:induction false} AudioStreamIsData(bs: seq<Parcel>)
    requires ParcelsOk(bs)
    ensures AD.AudioPackets(PacketsOf(bs)) && AS.AudioStream(PacketsOf(bs)) == Data(bs)
  {
    hide PacketOf, ParcelOk, AS.AudioTs, AD.AudioPacket, Data, UnitsData, AS.AudioStream;
    var ps := PacketsOf(bs);
    if bs == [] {
      NothingSent();
      assert ps == [];
    } else {
      var n := |bs| - 1;
      AudioStreamIsData(bs[..n]);
      PacketIsData(bs[n]);
      assert ps == PacketsOf(bs[..n]) + [ps[n]];
      AS.StreamAppend(PacketsOf(bs[..n]), ps[n]);
      DataAppend(bs[..n], bs[n]);
      assert bs[..n] + [bs[n]] == bs;
    }
  }

  lemma NothingSent()
    ensures Data([]) == [] && AS.AudioStream([]) == []
  {}

  // ---------- whole slices ----------

  /** The first slice start of a parcel announces 1920 bytes behind 14 bytes of header. */
  ghost predicate Opens(us: seq<Unit>) {
    exists j :: 0 <= j < |us| && StartsWith(us[j], 1934) && forall i :: 0 <= i < j ==> !IsStart(us[i])
  }

  /** A slice of LPCM: 1920 bytes in consecutive packets, the last of which is needed, with its length announced in
      front and no adaptation field before a start. */
  ghost predicate SliceOk(bs: seq<Parcel>) {
    && ParcelsOk(bs) && bs != [] && Opens(bs[0].units)
    && (forall i :: 0 <= i < |bs| ==> bs[i].seqNum == bs[0].seqNum + i)
    && |Data(bs)| == 1920 && (forall k :: 0 <= k < |bs| ==> |Data(bs[..k])| < 1920)
    && forall i :: 0 <= i < |bs| ==> NoStuffedStart(bs[i].units)
  }

  predicate NoStuffedStart(us: seq<Unit>) {
    forall i :: 0 <= i < |us| && IsStart(us[i]) ==> us[i].field == []
  }

  lemma NotStuffed(b: Parcel)
    requires ParcelOk(b) && NoStuffedStart(b.units)
    ensures AS.UnstuffedTs(PacketOf(b).ts)
  {
    hide AD.AudioOk;
    forall i | 0 <= i < |b.units| ensures !AS.StuffedStart(TsOfUnit(b.units[i])) {
      DataIsRead(b.units[i]);
      AdaptationBit(TsOfUnit(b.units[i]));
    }
  }

  lemma StartFound(b: Parcel)
    requires ParcelOk(b) && Opens(b.units)
    ensures AD.AudioPacket(PacketOf(b)) && AD.HasAudioStart(PacketOf(b)) && AD.StartLen(PacketOf(b)) == 1920
  {
    hide AD.AudioOk, AD.AudioPacket, AD.PesLen, UnitOk, UnitsOk, StartsWith, IsStart, AD.IsAudioStart, TsOfUnit,
         TsOfUnits, AS.AudioTs;
    PacketIsData(b);
    var us, ts := b.units, TsOfUnits(b.units);
    var j :| 0 <= j < |us| && StartsWith(us[j], 1934) && forall i :: 0 <= i < j ==> !IsStart(us[i]);
    assert UnitsOk(us);
    AllOk(us);
    OneOk(us, j);
    LengthIsRead(us[j], 1934);
    StartIsStart(us[j], 1934);
    FirstIs(ts, 0, j);
  }

  lemma OneOk(us: seq<Unit>, j: nat)
    requires UnitsOk(us) && j < |us|
    ensures UnitOk(us[j])
  {}

  lemma StartIsStart(u: Unit, len: nat)
    requires StartsWith(u, len)
    ensures IsStart(u)
  {}

  lemma {:induction false} FirstIs(ts: seq<Ts>, i: nat, j: nat)
    requires i <= j < |ts| && AD.IsAudioStart(ts[j]) && forall k :: i <= k < j ==> !AD.IsAudioStart(ts[k])
    ensures AD.FirstAudioStart(ts, i) == j
    decreases j - i
  {
    if i < j {
      FirstIs(ts, i + 1, j);
    }
  }

  lemma CountIsData(bs: seq<Parcel>)
    requires ParcelsOk(bs) && forall i :: 0 <= i < |bs| ==> NoStuffedStart(bs[i].units)
    ensures AD.AudioPackets(PacketsOf(bs)) && AS.Unstuffed(PacketsOf(bs)) && AD.CountedAll(PacketsOf(bs)) == |Data(bs)|
  {
    hide AS.UnstuffedTs, PacketOf, ParcelOk, NoStuffedStart, AS.AudioStream, AD.AudioPacket, AD.CountedAll;
    AudioStreamIsData(bs);
    forall i | 0 <= i < |bs| ensures AS.UnstuffedTs(PacketsOf(bs)[i].ts) {
      NotStuffed(bs[i]);
    }
    AS.SliceCounted(PacketsOf(bs));
  }

  lemma SliceIsSendable(bs: seq<Parcel>)
    requires SliceOk(bs)
    ensures AD.Sendable(PacketsOf(bs)) && AS.AudioStream(PacketsOf(bs)) == Data(bs) && AS.Unstuffed(PacketsOf(bs))
  {
    hide AD.AudioPacket, AD.CountedAll, ParcelOk, Opens, NoStuffedStart, AD.HasAudioStart, AD.StartLen, Data,
         AS.AudioStream, AS.Unstuffed;
    var ps := PacketsOf(bs);
    CountIsData(bs);
    AudioStreamIsData(bs);
    StartFound(bs[0]);
    assert forall i :: 0 <= i < |ps| ==> ps[i].seqNum == bs[i].seqNum;
    forall k | 0 <= k < |ps| ensures AD.CountedAll(ps[..k]) < 1920 {
      CountIsData(bs[..k]);
      assert PacketsOf(bs[..k]) == ps[..k];
    }
  }

  function AllPackets(slices: seq<seq<Parcel>>): (r: seq<seq<Packet>>)
    ensures |r| == |slices| && forall i :: 0 <= i < |r| ==> r[i] == PacketsOf(slices[i])
  {
    if slices == [] then [] else [PacketsOf(slices[0])] + AllPackets(slices[1..])
  }

  /** Of a stream of slices without loss the decoder emits exactly these slices. */
  lemma SentSlicesAreEmitted(slices: seq<seq<Parcel>>)
    requires forall i :: 0 <= i < |slices| ==> SliceOk(slices[i])
    ensures var sent := AD.Join(AllPackets(slices));
            && AD.AudioPackets(sent) && AD.Decode(AD.START, sent).Some?
            && AD.Decode(AD.START, sent).value.emitted == AllPackets(slices)
  {
    hide SliceOk, AD.Sendable, PacketsOf, AD.Decode, AD.Join;
    forall i | 0 <= i < |slices| ensures AD.Sendable(PacketsOf(slices[i])) {
      SliceIsSendable(slices[i]);
    }
    AD.StreamIsDelivered(AllPackets(slices));
  }

  /** The bytes sent, with those of every sample exchanged. */
  ghost predicate Holds(bytes: seq<Byte>, bs: seq<Parcel>) {
    |Data(bs)| % 2 == 0 && bytes == AS.Swapped(Data(bs))
  }

  /** The buffer of a slice plays what was sent when it holds exactly the audio put into the packets, every sample in
      the machine's order. */
  lemma SentSliceIsPlayed(bs: seq<Parcel>, bytes: seq<Byte>)
    requires SliceOk(bs)
    ensures AD.AudioPackets(PacketsOf(bs)) && AD.Complete(PacketsOf(bs)) && AS.Unstuffed(PacketsOf(bs))
    ensures AS.Plays(bytes, PacketsOf(bs)) <==> Holds(bytes, bs)
  {
    hide PacketsOf, AS.Swapped, AS.AudioStream, AS.Unstuffed, Data, AD.AudioPacket, AD.CountedAll, AD.Collected,
         ParcelOk, Opens;
    SliceIsSendable(bs);
    AD.SendablePackets(PacketsOf(bs));
  }
}
