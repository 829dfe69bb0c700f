/** The sender's side: how the transport stream and RTP packets are laid out that the stages take apart.
    The encoders follow ISO/IEC 13818-1 and RFC 3550; the lemmas say that what is read is what was encoded. */
module Multiplex {
  import opened Clocks
  import opened Demux
  import opened TsPacket
  import opened Sequences

  // ---------- the header of a transport stream packet ----------

  function Bit(b: bool): Byte { if b then 1 else 0 }

  /** The four bytes of ISO/IEC 13818-1, section 2.4.3.2. */
  function EncodeHeader(error: bool, start: bool, priority: bool, pid: bv16, scrambling: bv8, afc: bv8, cc: bv8):
      (h: seq<Byte>)
    ensures |h| == TS_HDR
  {
    [0x47,
     (Bit(error) << 7) | (Bit(start) << 6) | (Bit(priority) << 5) | (((pid >> 8) & 0x1F) as Byte),
     (pid & 0xFF) as Byte,
     ((scrambling & 3) << 6) | ((afc & 3) << 4) | (cc & 0x0F)]
  }

  lemma PidRead(error: bool, start: bool, priority: bool, pid: bv16)
    requires pid < 0x2000
    ensures Pid((Bit(error) << 7) | (Bit(start) << 6) | (Bit(priority) << 5) | (((pid >> 8) & 0x1F) as Byte),
                (pid & 0xFF) as Byte) == pid
  {}

  lemma PusiRead(error: bool, start: bool, priority: bool, top: Byte)
    ensures Pusi((Bit(error) << 7) | (Bit(start) << 6) | (Bit(priority) << 5) | (top & 0x1F)) == start
  {}

  lemma LastByteRead(scrambling: bv8, afc: bv8, cc: bv8)
    requires afc < 4 && cc < 16
    ensures Afc(((scrambling & 3) << 6) | ((afc & 3) << 4) | (cc & 0x0F)) == afc
    ensures Cc(((scrambling & 3) << 6) | ((afc & 3) << 4) | (cc & 0x0F)) == cc as nat
  {}

  lemma TopBits(pid: bv16)
    ensures ((pid >> 8) & 0x1F) as Byte & 0x1F == ((pid >> 8) & 0x1F) as Byte
  {}

  /** Packet identifier, start bit, adaptation control and continuity counter are read from the header whatever the
      other bits are. */
  lemma HeaderRoundTrip(data: seq<Byte>, off: nat, error: bool, start: bool, priority: bool, pid: bv16,
                        scrambling: bv8, afc: bv8, cc: bv8)
    requires off + TS_SIZE <= |data| && pid < 0x2000 && afc < 4 && cc < 16
    requires data[off..off+TS_HDR] == EncodeHeader(error, start, priority, pid, scrambling, afc, cc)
    ensures TsAt(data, off) == Ts(pid, start, afc, cc as nat, data[off+TS_HDR..off+TS_SIZE])
  {
    hide Pid, Pusi, Afc, Cc, Bit;
    var h := EncodeHeader(error, start, priority, pid, scrambling, afc, cc);
    assert data[off+1] == h[1] && data[off+2] == h[2] && data[off+3] == h[3];
    PidRead(error, start, priority, pid);
    TopBits(pid);
    PusiRead(error, start, priority, ((pid >> 8) & 0x1F) as Byte);
    LastByteRead(scrambling, afc, cc);
  }

  // ---------- a whole RTP packet ----------

  /** A transport stream packet to be sent: its contents and the bits that no stage reads. */
  datatype Cell = Cell(pid: bv16, start: bool, afc: bv8, cc: bv8, payload: seq<Byte>,
                       error: bool, priority: bool, scrambling: bv8)

  predicate CellOk(c: Cell) { c.pid < 0x2000 && c.afc < 4 && c.cc < 16 && |c.payload| == TS_PAYLOAD }

  function EncodeCell(c: Cell): (s: seq<Byte>)
    requires CellOk(c)
    ensures |s| == TS_SIZE
  {
    EncodeHeader(c.error, c.start, c.priority, c.pid, c.scrambling, c.afc, c.cc) + c.payload
  }

  function TsOf(c: Cell): (t: Ts)
    ensures CellOk(c) ==> t.cc < 16 && |t.payload| == TS_PAYLOAD
  {
    Ts(c.pid, c.start, c.afc, c.cc as nat, c.payload)
  }

  predicate CellsOk(cs: seq<Cell>) {
    forall i :: 0 <= i < |cs| ==> CellOk(cs[i])
  }

  function EncodeCells(cs: seq<Cell>): (s: seq<Byte>)
    requires CellsOk(cs)
    ensures |s| == TS_SIZE * |cs|
  {
    if cs == [] then [] else EncodeCell(cs[0]) + EncodeCells(cs[1..])
  }

  function AllTs(cs: seq<Cell>): (ts: seq<Ts>)
    ensures |ts| == |cs|
  {
    seq(|cs|, i requires 0 <= i < |cs| => TsOf(cs[i]))
  }

  /** The fields of an RTP header (RFC 3550, section 5.1, without contributing sources): the bytes in front of the
      sequence number, the two bytes of the number, and the time stamp and source behind it. */
  datatype Rtp = Rtp(version: Byte, payloadType: Byte, high: Byte, low: Byte, rest: seq<Byte>)

  function EncodeRtp(r: Rtp): (h: seq<Byte>)
    ensures |h| == 4 + |r.rest|
  {
    [r.version, r.payloadType, r.high, r.low] + r.rest
  }

  /** The sequence number, sent in network order. */
  function SeqNum(r: Rtp): nat { (r.high as nat) * 256 + (r.low as nat) }

  lemma {:induction false} CellAt(cs: seq<Cell>, i: nat)
    requires CellsOk(cs) && i < |cs|
    ensures TS_SIZE * i + TS_SIZE <= |EncodeCells(cs)|
    ensures EncodeCells(cs)[TS_SIZE * i..TS_SIZE * i + TS_SIZE] == EncodeCell(cs[i])
  {
    hide EncodeCell, CellOk;
    var all, first := EncodeCells(cs), EncodeCell(cs[0]);
    assert all == first + EncodeCells(cs[1..]);
    if i > 0 {
      CellAt(cs[1..], i - 1);
      var j := TS_SIZE * (i - 1);
      assert all[TS_SIZE * i..TS_SIZE * i + TS_SIZE] == EncodeCells(cs[1..])[j..j + TS_SIZE];
    }
  }

  lemma ReadCell(data: seq<Byte>, off: nat, c: Cell)
    requires CellOk(c) && off + TS_SIZE <= |data| && data[off..off+TS_SIZE] == EncodeCell(c)
    ensures TsAt(data, off) == TsOf(c)
  {
    hide EncodeHeader;
    var s := EncodeCell(c);
    SliceOfSlice(data, off, off + TS_SIZE, 0, TS_HDR);
    SliceOfSlice(data, off, off + TS_SIZE, TS_HDR, TS_SIZE);
    assert s[..TS_HDR] == s[0..TS_HDR] && s[TS_HDR..TS_SIZE] == c.payload;
    HeaderRoundTrip(data, off, c.error, c.start, c.priority, c.pid, c.scrambling, c.afc, c.cc);
  }

  /** Taking a received packet apart yields its sequence number and exactly the transport stream packets sent. */
  lemma PacketRoundTrip(r: Rtp, cs: seq<Cell>)
    requires |r.rest| == 8 && CellsOk(cs) && cs != []
    ensures var data := EncodeRtp(r) + EncodeCells(cs);
            Framed(data) && Parse(data) == Packet(SeqNum(r), AllTs(cs))
  {
    hide EncodeCell, CellOk, TsAt, EncodeCells;
    var h, body := EncodeRtp(r), EncodeCells(cs);
    var data := h + body;
    assert |body| == TS_SIZE * |cs|;
    FramedBody(|data|, |cs|);
    assert data[2] == h[2] && data[3] == h[3];
    forall i | 0 <= i < |cs| ensures TsAt(data, RTP_HDR + TS_SIZE * i) == TsOf(cs[i]) {
      CellAt(cs, i);
      var off := RTP_HDR + TS_SIZE * i;
      assert data[off..off + TS_SIZE] == body[TS_SIZE * i..TS_SIZE * i + TS_SIZE];
      assert CellsOk(cs);
      ReadCell(data, off, cs[i]);
    }
    assert Parse(data).ts == AllTs(cs);
  }

  lemma FramedBody(len: nat, n: nat)
    requires n > 0 && len == RTP_HDR + TS_SIZE * n
    ensures len > RTP_HDR && (len - RTP_HDR) % TS_SIZE == 0 && (len - RTP_HDR) / TS_SIZE == n
  {}

  // ---------- the program clock ----------

  /** A transport stream packet that carries a clock reference: field length, flags, the six bytes of the reference
      (ISO/IEC 13818-1, section 2.4.3.5), and anything behind. */
  ghost predicate CarriesClock(t: Ts, base: bv64, ext: bv64) {
    && t.pid == 0x1000 && |t.payload| == TS_PAYLOAD && base < 0x2_0000_0000 && ext < 0x200
    && exists reserved: Byte :: t.payload[2..8] == EncodePcr(base, ext, reserved)
  }

  lemma ClockRead(t: Ts, base: bv64, ext: bv64)
    requires CarriesClock(t, base, ext)
    ensures |t.payload| == TS_PAYLOAD && PcrMs(t.payload[2..8]) == ((base as nat) * 300 + (ext as nat)) / 27000
  {
    hide EncodePcr, BigEndian, PcrBase, PcrExt;
    var reserved: Byte :| t.payload[2..8] == EncodePcr(base, ext, reserved);
    PcrRoundTrip(base, ext, reserved);
  }

  /** The clock reference passed on is the first one in the packet, in milliseconds of the 27 MHz clock. */
  lemma {:induction false} FirstClockIsRead(front: seq<Ts>, t: Ts, behind: seq<Ts>, base: bv64, ext: bv64)
    requires forall i :: 0 <= i < |front| ==> front[i].pid != 0x1000 && |front[i].payload| == TS_PAYLOAD
    requires forall i :: 0 <= i < |behind| ==> |behind[i].payload| == TS_PAYLOAD
    requires CarriesClock(t, base, ext)
    ensures |t.payload| == TS_PAYLOAD
    ensures PcrOf(front) == 0
    ensures PcrOf(front + [t] + behind) == ((base as nat) * 300 + (ext as nat)) / 27000
  {
    hide CarriesClock, PcrMs;
    ClockRead(t, base, ext);
    ClockPid(t, base, ext);
    var ts := front + [t] + behind;
    if front != [] {
      FirstClockIsRead(front[1..], t, behind, base, ext);
      assert ts[1..] == front[1..] + [t] + behind;
    }
  }

  lemma ClockPid(t: Ts, base: bv64, ext: bv64)
    requires CarriesClock(t, base, ext)
    ensures t.pid == 0x1000
  {}

  // ---------- the sender's units ----------

  /** A transport stream packet of the sender (ISO/IEC 13818-1, sections 2.4.3.4 and 2.4.3.6): a piece of an elementary
      stream behind an optional adaptation field and optional headers, or something else. */
  datatype Unit =
    | Piece(pid: bv16, cc: nat, field: seq<Byte>, header: seq<Byte>, data: seq<Byte>)
    | Foreign(ts: Ts)

  /** An adaptation field, if there is one, begins with the number of its other bytes; headers and data fill the rest
      of the payload exactly. */
  predicate PieceOk(u: Unit, headerLen: nat) {
    && u.Piece? && u.cc < 16 && (u.header == [] || |u.header| == headerLen)
    && (u.field != [] ==> |u.field| == 1 + (u.field[0] as nat))
    && |u.field| + |u.header| + |u.data| == 184
  }

  /** The start bit is set on packets with a header, and the adaptation control says whether there is a field. */
  function TsOfUnit(u: Unit): Ts {
    match u
    case Piece(pid, cc, field, header, data) =>
      Ts(pid, header != [], if field != [] then 3 else 1, cc, field + header + data)
    case Foreign(ts) => ts
  }

  function UnitData(u: Unit): seq<Byte> {
    if u.Piece? then u.data else []
  }

  lemma AdaptationBit(t: Ts)
    ensures t.afc == 3 ==> HasAdaptation(t)
    ensures t.afc == 1 ==> !HasAdaptation(t)
  {}

  /** Where the headers behind the adaptation field begin. */
  lemma Unstuffed(u: Unit, headerLen: nat)
    requires PieceOk(u, headerLen)
    ensures var t := TsOfUnit(u);
            && |t.payload| == TS_PAYLOAD && Stuffing(t) == |u.field| && t.payload[Stuffing(t)..] == u.header + u.data
            && (u.field != [] ==> t.payload[0] as nat == |u.field| - 1)
  {
    hide HasAdaptation;
    var t, f := TsOfUnit(u), u.field;
    Assoc(f, u.header, u.data);
    AdaptationBit(t);
    assert f != [] ==> t.payload[0] == f[0];
    assert t.payload[|f|..] == u.header + u.data;
  }

  /** The units that one RTP packet carries. */
  datatype Parcel = Parcel(seqNum: nat, units: seq<Unit>)

  function TsOfUnits(us: seq<Unit>): (ts: seq<Ts>)
    ensures |ts| == |us| && forall i :: 0 <= i < |ts| ==> ts[i] == TsOfUnit(us[i])
  {
    if us == [] then [] else [TsOfUnit(us[0])] + TsOfUnits(us[1..])
  }

  function PacketOf(b: Parcel): Packet { Packet(b.seqNum, TsOfUnits(b.units)) }

  function PacketsOf(bs: seq<Parcel>): (ps: seq<Packet>)
    ensures |ps| == |bs| && forall i :: 0 <= i < |ps| ==> ps[i] == PacketOf(bs[i])
  {
    if bs == [] then [] else [PacketOf(bs[0])] + PacketsOf(bs[1..])
  }

  /** The pieces put into the packets, joined. */
  function UnitsData(us: seq<Unit>): seq<Byte> {
    if us == [] then [] else UnitData(us[0]) + UnitsData(us[1..])
  }

  function Data(bs: seq<Parcel>): seq<Byte> {
    if bs == [] then [] else UnitsData(bs[0].units) + Data(bs[1..])
  }

  /** The bytes of an RTP packet that carries `b`, whatever the bits that no stage reads. */
  ghost predicate SentAs(data: seq<Byte>, b: Parcel) {
    exists r: Rtp, cs: seq<Cell> ::
      && b.seqNum == SeqNum(r) && |r.rest| == 8 && cs != [] && CellsOk(cs) && AllTs(cs) == TsOfUnits(b.units)
      && data == EncodeRtp(r) + EncodeCells(cs)
  }

  lemma SentIsRead(data: seq<Byte>, b: Parcel)
    requires SentAs(data, b)
    ensures Framed(data) && Parse(data) == PacketOf(b)
  {
    hide Parse, Framed, EncodeRtp, EncodeCells, CellsOk, TsOfUnits;
    var r: Rtp, cs :|
      && b.seqNum == SeqNum(r) && |r.rest| == 8 && cs != [] && CellsOk(cs) && AllTs(cs) == TsOfUnits(b.units)
      && data == EncodeRtp(r) + EncodeCells(cs);
    PacketRoundTrip(r, cs);
  }

  ghost predicate AllSentAs(chain: seq<seq<Byte>>, bs: seq<Parcel>) {
    |chain| == |bs| && forall i :: 0 <= i < |bs| ==> SentAs(chain[i], bs[i])
  }
}
