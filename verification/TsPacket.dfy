/** RTP packets carrying MPEG-2 transport stream packets: the byte layout and what the stages of the
    pipeline read from it. */
module TsPacket {
  import opened Clocks
  import opened Sequences
  import opened Words

  const RTP_HDR: nat := 12
  const TS_HDR: nat := 4
  const TS_PAYLOAD: nat := 184
  const TS_SIZE: nat := 188
  const PES_HDR: nat := 14

  const VIDEO_PID: bv16 := 0x1011
  const AUDIO_PID: bv16 := 0x1100
  const PCR_PID: bv16 := 0x1000

  function Pid(b1: Byte, b2: Byte): bv16 { (((b1 & 0x1F) as bv16) << 8) | (b2 as bv16) }

  function Cc(b3: Byte): (r: nat)
    ensures r < 16
  {
    assert b3 & 0x0F <= 15;
    (b3 & 0x0F) as nat
  }

  function Pusi(b1: Byte): bool { ((b1 & 0x40) >> 6) != 0 }

  function Afc(b3: Byte): bv8 { (b3 & 0x30) >> 4 }

  /** One transport stream packet. */
  datatype Ts = Ts(pid: bv16, pusi: bool, afc: bv8, cc: nat, payload: seq<Byte>)

  /** One received packet: its RTP sequence number and its transport stream packets. */
  datatype Packet = Packet(seqNum: nat, ts: seq<Ts>)

  /** What every stage asserts about the length of a packet. */
  predicate Framed(data: seq<Byte>) {
    |data| > RTP_HDR && (|data| - RTP_HDR) % TS_SIZE == 0
  }

  function TsAt(data: seq<Byte>, off: nat): (t: Ts)
    requires off + TS_SIZE <= |data|
    ensures |t.payload| == TS_PAYLOAD && t.cc < 16
  {
    Ts(Pid(data[off+1], data[off+2]), Pusi(data[off+1]), Afc(data[off+3]), Cc(data[off+3]),
       data[off+TS_HDR..off+TS_SIZE])
  }

  function TsCount(data: seq<Byte>): nat
    requires Framed(data)
  {
    (|data| - RTP_HDR) / TS_SIZE
  }

  function Parse(data: seq<Byte>): (p: Packet)
    requires Framed(data)
    ensures |p.ts| == TsCount(data) > 0
    ensures forall i :: 0 <= i < |p.ts| ==> |p.ts[i].payload| == TS_PAYLOAD && p.ts[i].cc < 16
  {
    Packet(Short(data[2], data[3]),
           seq(TsCount(data), i requires 0 <= i < TsCount(data) => TsAt(data, RTP_HDR + TS_SIZE * i)))
  }

  // ---------- what the stages read ----------

  predicate HasAdaptation(t: Ts) { t.afc & 0x02 != 0 }

  /** Bytes of adaptation field in front of the payload, computed in eight bits. */
  function Stuffing(t: Ts): nat
    requires |t.payload| == TS_PAYLOAD
  {
    if HasAdaptation(t) then (1 + (t.payload[0] as nat)) % 256 else 0
  }

  predicate IsVideo(t: Ts) { t.pid == VIDEO_PID }

  predicate IsStart(t: Ts) { IsVideo(t) && t.pusi }

  /** Where the video elementary stream starts in the payload. */
  function VideoOffset(t: Ts): nat
    requires |t.payload| == TS_PAYLOAD
  {
    Stuffing(t) + if t.pusi then PES_HDR else 0
  }

  /** What the stages take for granted about a video packet: a payload is present, as they assert,
      and the headers fit the transport stream packet. */
  predicate VideoOk(t: Ts) {
    && |t.payload| == TS_PAYLOAD && t.cc < 16
    && (IsVideo(t) ==> VideoOffset(t) <= TS_PAYLOAD && (!t.pusi ==> t.afc == 1 || t.afc == 3))
  }

  predicate PacketOk(p: Packet) {
    && |p.ts| > 0
    && (forall i :: 0 <= i < |p.ts| ==> VideoOk(p.ts[i]))
  }

  function VideoBytes(t: Ts): seq<Byte>
    requires VideoOk(t) && IsVideo(t)
  {
    t.payload[VideoOffset(t)..]
  }

  /** The present time of the slice that starts in `t`, in milliseconds. */
  function StartPts(t: Ts): nat
    requires VideoOk(t) && IsStart(t)
  {
    PtsMs(t.payload[Stuffing(t) + 9..Stuffing(t) + 14])
  }

  /** Two bytes in network order. */
  function Short(hi: Byte, lo: Byte): nat { (hi as nat) * 256 + (lo as nat) }

  /** The length that the PES header of the slice start in `t` announces, less 8 bytes, in 32 bits; 0 if open. */
  function StartPesLen(t: Ts): nat
    requires VideoOk(t) && IsStart(t)
  {
    var len := Short(t.payload[Stuffing(t) + 4], t.payload[Stuffing(t) + 5]);
    if len > 0 then (len + WORD - 8) % WORD else 0
  }

  /** The video bytes counted in `t`: an adaptation field in front of a slice start is not taken off. */
  function VideoCounted(t: Ts): nat
    requires VideoOk(t)
  {
    if !IsVideo(t) then 0
    else if t.pusi then TS_PAYLOAD - PES_HDR
    else if t.afc == 1 then TS_PAYLOAD
    else (WORD + TS_PAYLOAD - 1 - (t.payload[0] as nat)) % WORD
  }

  lemma NotCounted(t: Ts)
    requires VideoOk(t)
    ensures !IsVideo(t) ==> VideoCounted(t) == 0
  {}

  function VideoCountedTs(ts: seq<Ts>): nat
    requires forall i :: 0 <= i < |ts| ==> VideoOk(ts[i])
  {
    if ts == [] then 0 else (VideoCountedTs(ts[..|ts|-1]) + VideoCounted(ts[|ts|-1])) % WORD
  }

  /** Position of the first slice start at or after `i`, or the number of packets. */
  function FirstStart(ts: seq<Ts>, i: nat): (k: nat)
    requires i <= |ts|
    ensures i <= k <= |ts|
    ensures forall j :: i <= j < k ==> !IsStart(ts[j])
    ensures k < |ts| ==> IsStart(ts[k])
    decreases |ts| - i
  {
    if i == |ts| || IsStart(ts[i]) then i else FirstStart(ts, i + 1)
  }

  predicate HasStart(p: Packet) { FirstStart(p.ts, 0) < |p.ts| }

  /** The video transport stream packets, in order. */
  function VideoTs(ts: seq<Ts>): (v: seq<Ts>)
    ensures forall t :: t in v <==> t in ts && IsVideo(t)
  {
    if ts == [] then []
    else
      assert ts == ts[..|ts|-1] + [ts[|ts|-1]];
      VideoTs(ts[..|ts|-1]) + if IsVideo(ts[|ts|-1]) then [ts[|ts|-1]] else []
  }

  predicate Routed(p: Packet) { VideoTs(p.ts) != [] }

  function CcStart(p: Packet): nat
    requires Routed(p)
  {
    VideoTs(p.ts)[0].cc
  }

  function CcEnd(p: Packet): nat
    requires Routed(p)
  {
    VideoTs(p.ts)[|VideoTs(p.ts)|-1].cc
  }

  lemma VideoTsLast(ts: seq<Ts>, t: Ts)
    ensures VideoTs(ts + [t]) == VideoTs(ts) + if IsVideo(t) then [t] else []
  {
    assert (ts + [t])[..|ts|] == ts;
  }

  lemma {:induction false} VideoTsJoin(a: seq<Ts>, b: seq<Ts>)
    ensures VideoTs(a + b) == VideoTs(a) + VideoTs(b)
    decreases |b|
  {
    hide IsVideo, VideoTs;
    if b == [] {
      assert a + b == a;
      NoVideoTs(b);
      assert b[..0] == b && VideoTs(a) + [] == VideoTs(a);
    } else {
      var n := |b| - 1;
      VideoTsJoin(a, b[..n]);
      VideoTsLast(a + b[..n], b[n]);
      VideoTsLast(b[..n], b[n]);
      assert a + b == (a + b[..n]) + [b[n]] && b == b[..n] + [b[n]];
      Assoc(VideoTs(a), VideoTs(b[..n]), if IsVideo(b[n]) then [b[n]] else []);
    }
  }

  lemma OneVideoTs(front: seq<Ts>, t: Ts, behind: seq<Ts>)
    requires IsVideo(t)
    ensures VideoTs(front + [t] + behind) == VideoTs(front) + [t] + VideoTs(behind)
  {
    hide IsVideo;
    VideoTsJoin(front + [t], behind);
    assert (front + [t])[..|front|] == front;
  }

  /** The counters of a packet are those of the first and of the last video transport stream packet in it. */
  lemma CountersAre(p: Packet, front: seq<Ts>, t: Ts, behind: seq<Ts>)
    requires p.ts == front + [t] + behind && t.pid == 0x1011
    ensures Routed(p)
    ensures (forall i :: 0 <= i < |front| ==> front[i].pid != 0x1011) ==> CcStart(p) == t.cc
    ensures (forall i :: 0 <= i < |behind| ==> behind[i].pid != 0x1011) ==> CcEnd(p) == t.cc
  {
    OneVideoTs(front, t, behind);
    if forall i :: 0 <= i < |front| ==> front[i].pid != 0x1011 {
      NoneIsVideo(front);
    }
    if forall i :: 0 <= i < |behind| ==> behind[i].pid != 0x1011 {
      NoneIsVideo(behind);
    }
  }

  lemma {:induction false} NoneIsVideo(ts: seq<Ts>)
    requires forall i :: 0 <= i < |ts| ==> !IsVideo(ts[i])
    ensures VideoTs(ts) == []
  {
    if ts != [] {
      NoneIsVideo(ts[..|ts|-1]);
    }
  }

  lemma VideoTsStep(ts: seq<Ts>, i: nat)
    requires i < |ts|
    ensures VideoTs(ts[..i+1]) == VideoTs(ts[..i]) + if IsVideo(ts[i]) then [ts[i]] else []
  {
    assert ts[..i+1][..i] == ts[..i];
  }

  lemma NoVideoTs(ts: seq<Ts>)
    ensures VideoTs(ts[..0]) == []
  {}

  lemma ParseAt(data: seq<Byte>, i: nat)
    requires Framed(data) && i < |Parse(data).ts|
    ensures RTP_HDR + TS_SIZE * i + TS_SIZE <= |data|
    ensures Parse(data).ts[i] == TsAt(data, RTP_HDR + TS_SIZE * i)
  {}

  // ---------- walks over the bytes ----------

  /** Reads `n` bytes as a big-endian number. */
  method ReadBigEndian(data: seq<Byte>, off: nat, n: nat) returns (v: bv64)
    requires off + n <= |data|
    ensures v == BigEndian(0, data[off..off+n])
  {
    hide Join;
    v := 0;
    ghost var s := data[off..off+n];
    assert s[0..] == s;
    for i := 0 to n
      invariant BigEndian(v, s[i..]) == BigEndian(0, s)
    {
      BigEndianUnfold(v, s, i);
      v := Join(v, data[off + i]);
    }
  }

  /** Reads the length in the PES header at `payload`. */
  method ReadPesLen(data: seq<Byte>, curr: nat, payload: nat) returns (pesLen: nat)
    requires curr + TS_SIZE <= |data| && VideoOk(TsAt(data, curr)) && IsStart(TsAt(data, curr))
    requires payload == curr + TS_HDR + Stuffing(TsAt(data, curr))
    ensures pesLen == StartPesLen(TsAt(data, curr))
  {
    hide Stuffing, Pid, Cc, Afc, Pusi;
    ghost var t := TsAt(data, curr);
    assert Stuffing(t) + PES_HDR == VideoOffset(t) <= TS_PAYLOAD;
    assert t.payload == data[curr+TS_HDR..curr+TS_SIZE];
    hide VideoOffset, VideoOk, TsAt, Short;
    var len := Short(data[payload + 4], data[payload + 5]);
    pesLen := if len > 0 then (len + WORD - 8) % WORD else 0;
  }

  /** Reads the length and the time stamp in the PES header of a slice start, behind the adaptation field. */
  method ReadStart(data: seq<Byte>, curr: nat) returns (ptsMs: nat, pesLen: nat)
    requires curr + TS_SIZE <= |data| && VideoOk(TsAt(data, curr)) && IsStart(TsAt(data, curr))
    ensures ptsMs == StartPts(TsAt(data, curr)) && pesLen == StartPesLen(TsAt(data, curr))
  {
    hide PtsBits, BigEndian, StartPesLen;
    var payload := curr + TS_HDR;
    var skip := 0;
    if Afc(data[curr+3]) & 0x02 != 0 {
      skip := (1 + (data[payload] as nat)) % 256;
    }
    assert skip == Stuffing(TsAt(data, curr));
    payload := payload + skip;
    pesLen := ReadPesLen(data, curr, payload);
    var pts := ReadBigEndian(data, payload + 9, 5);
    SliceOfSlice(data, curr + TS_HDR, curr + TS_SIZE, skip + 9, skip + 14);
    ptsMs := (PtsBits(pts) as nat) / 90;
  }

  /** Searches a packet for a slice start, its time stamp and its announced length. */
  method SliceStartFind(data: seq<Byte>) returns (found: bool, ptsMs: nat, pesLen: nat)
    requires Framed(data) && PacketOk(Parse(data))
    ensures found == HasStart(Parse(data))
    ensures found ==>
      var t := Parse(data).ts[FirstStart(Parse(data).ts, 0)];
      ptsMs == StartPts(t) && pesLen == StartPesLen(t)
  {
    hide Pid, Cc, Pusi, Afc, StartPts, StartPesLen, Parse;
    ghost var p := Parse(data);
    ghost var i := 0;
    var curr := RTP_HDR;
    var bytesLeft := |data| - RTP_HDR;
    while bytesLeft > 0
      invariant i <= |p.ts|
      invariant curr == RTP_HDR + TS_SIZE * i && curr + bytesLeft == |data|
      invariant forall j :: 0 <= j < i ==> !IsStart(p.ts[j])
      invariant FirstStart(p.ts, i) == FirstStart(p.ts, 0)
      decreases bytesLeft
    {
      ParseAt(data, i);
      if Pusi(data[curr+1]) && Pid(data[curr+1], data[curr+2]) == VIDEO_PID {
        ptsMs, pesLen := ReadStart(data, curr);
        return true, ptsMs, pesLen;
      }
      curr, bytesLeft, i := curr + TS_SIZE, bytesLeft - TS_SIZE, i + 1;
    }
    return false, 0, 0;
  }

  /** The payload counted for the video transport stream packet at `curr`. */
  method CountPayload(data: seq<Byte>, curr: nat) returns (payloadSize: nat)
    requires curr + TS_SIZE <= |data| && VideoOk(TsAt(data, curr)) && IsVideo(TsAt(data, curr))
    ensures payloadSize == VideoCounted(TsAt(data, curr))
  {
    var afc := Afc(data[curr+3]);
    if Pusi(data[curr+1]) {
      payloadSize := TS_PAYLOAD - PES_HDR;
    } else if afc == 1 {
      payloadSize := TS_PAYLOAD;
    } else {
      assert afc == 3;
      payloadSize := (WORD + TS_PAYLOAD - 1 - (data[curr+TS_HDR] as nat)) % WORD;
    }
  }

  /** Counts the video payload and reads the continuity counters of the first and the last video transport stream
      packet. */
  method DataInterpret(data: seq<Byte>) returns (pesByteCount: nat, ccStart: nat, ccEnd: nat)
    requires Framed(data) && PacketOk(Parse(data)) && Routed(Parse(data))
    ensures ccStart == CcStart(Parse(data)) && ccEnd == CcEnd(Parse(data))
    ensures pesByteCount == VideoCountedTs(Parse(data).ts)
  {
    hide Pid, Cc, Pusi, Afc, VideoTs, Parse, VideoOffset, VideoCounted;
    ghost var p := Parse(data);
    ghost var i := 0;
    var curr := RTP_HDR;
    var bytesLeft := |data| - RTP_HDR;
    var firstChunk := true;
    pesByteCount, ccStart, ccEnd := 0, 0, 0;
    NoVideoTs(p.ts);
    while bytesLeft > 0
      invariant i <= |p.ts|
      invariant curr == RTP_HDR + TS_SIZE * i && curr + bytesLeft == |data|
      invariant var v := VideoTs(p.ts[..i]);
                && firstChunk == (v == [])
                && (v != [] ==> ccStart == v[0].cc && ccEnd == v[|v|-1].cc)
      invariant pesByteCount == VideoCountedTs(p.ts[..i]) < WORD
      decreases bytesLeft
    {
      ParseAt(data, i);
      VideoTsStep(p.ts, i);
      assert p.ts[..i+1][..i] == p.ts[..i] && VideoOk(p.ts[i]);
      NotCounted(p.ts[i]);
      if Pid(data[curr+1], data[curr+2]) == VIDEO_PID {
        var cc := Cc(data[curr+3]);
        if firstChunk {
          ccStart := cc;
          firstChunk := false;
        }
        ccEnd := cc;
        var payloadSize := CountPayload(data, curr);
        pesByteCount := (pesByteCount + payloadSize) % WORD;
      }
      curr, bytesLeft, i := curr + TS_SIZE, bytesLeft - TS_SIZE, i + 1;
    }
    assert p.ts[..i] == p.ts;
  }

  /** The length of the headers in front of the data of the transport stream packet at `curr`: its own, an adaptation
      field with its length byte, and `pesHeader` bytes at the start of a PES packet, by the bits that announce them. */
  function HeaderLength(data: seq<Byte>, curr: nat, pesHeader: nat): nat
    requires curr + TS_SIZE <= |data|
  {
    4 + (if data[curr+3] & 0x20 != 0 then (1 + (data[curr+4] as nat)) % 256 else 0)
      + if data[curr+1] & 0x40 != 0 then pesHeader else 0
  }

  lemma HeaderBits(b1: Byte, b3: Byte)
    ensures Pusi(b1) <==> b1 & 0x40 != 0
    ensures Afc(b3) & 0x02 != 0 <==> b3 & 0x20 != 0
  {}

  /** Copies `src` behind the first `at` bytes. */
  method Copy(dst: array<Byte>, at: nat, src: seq<Byte>)
    requires at + |src| <= dst.Length
    modifies dst
    ensures dst[..at + |src|] == old(dst[..at]) + src
  {
    forall i | 0 <= i < |src| {
      dst[at + i] := src[i];
    }
  }
}
