/** The transport stream demultiplexer: routes each received packet as a whole, by the first media
    transport stream packet in it, and extracts the program clock. */
module Demux {
  import opened Clocks
  import opened TsPacket
  import opened Sequences

  datatype PktType = AudioPkt | VideoPkt | NullPkt

  /** The kind of the first audio or video transport stream packet. */
  function TypeOf(ts: seq<Ts>): PktType {
    if ts == [] then NullPkt
    else if IsVideo(ts[0]) then VideoPkt
    else if ts[0].pid == AUDIO_PID then AudioPkt
    else TypeOf(ts[1..])
  }

  /** The first transport stream packet on one of the two media streams decides, whatever stands in front and behind. */
  lemma {:induction false} FirstMediaDecides(front: seq<Ts>, t: Ts, behind: seq<Ts>)
    requires forall i :: 0 <= i < |front| ==> front[i].pid != 0x1011 && front[i].pid != 0x1100
    ensures TypeOf(front) == NullPkt
    ensures t.pid == 0x1011 ==> TypeOf(front + [t] + behind) == VideoPkt
    ensures t.pid == 0x1100 ==> TypeOf(front + [t] + behind) == AudioPkt
  {
    var ts := front + [t] + behind;
    if front != [] {
      FirstMediaDecides(front[1..], t, behind);
      assert ts[1..] == front[1..] + [t] + behind;
    }
  }

  /** A packet routed to the video decoder contains video, so its continuity counters are defined. */
  lemma {:induction false} VideoIsRouted(ts: seq<Ts>)
    requires TypeOf(ts) == VideoPkt
    ensures VideoTs(ts) != []
  {
    if !IsVideo(ts[0]) {
      VideoIsRouted(ts[1..]);
      var t := VideoTs(ts[1..])[0];
      assert t in VideoTs(ts[1..]);
      assert t in ts && IsVideo(t);
    } else {
      assert ts[0] in VideoTs(ts);
    }
  }

  method PktTypeGet(data: seq<Byte>) returns (kind: PktType)
    requires Framed(data)
    ensures kind == TypeOf(Parse(data).ts)
  {
    hide Pid, Cc, Pusi, Afc, Parse;
    ghost var ts := Parse(data).ts;
    ghost var i := 0;
    var curr := RTP_HDR;
    var bytesLeft := |data| - RTP_HDR;
    assert ts[0..] == ts;
    while bytesLeft > 0
      invariant i <= |ts| && curr == RTP_HDR + TS_SIZE * i && curr + bytesLeft == |data|
      invariant TypeOf(ts[i..]) == TypeOf(ts)
      decreases bytesLeft
    {
      ParseAt(data, i);
      assert ts[i..][1..] == ts[i+1..];
      var pid := Pid(data[curr+1], data[curr+2]);
      if pid == VIDEO_PID {
        return VideoPkt;
      } else if pid == AUDIO_PID {
        return AudioPkt;
      }
      curr, bytesLeft, i := curr + TS_SIZE, bytesLeft - TS_SIZE, i + 1;
    }
    return NullPkt;
  }

  /** The first clock reference of a packet in milliseconds, or 0 if it has none. */
  function PcrOf(ts: seq<Ts>): nat
    requires forall i :: 0 <= i < |ts| ==> |ts[i].payload| == TS_PAYLOAD
  {
    if ts == [] then 0
    else if ts[0].pid == PCR_PID then PcrMs(ts[0].payload[2..8])
    else PcrOf(ts[1..])
  }

  method PcrGet(data: seq<Byte>) returns (pcrMs: nat)
    requires Framed(data)
    ensures pcrMs == PcrOf(Parse(data).ts)
  {
    hide Pid, Cc, Pusi, Afc, Parse, BigEndian, PcrBase, PcrExt, Join;
    ghost var ts := Parse(data).ts;
    ghost var i := 0;
    var curr := RTP_HDR;
    var bytesLeft := |data| - RTP_HDR;
    assert ts[0..] == ts;
    while bytesLeft > 0
      invariant i <= |ts| && curr == RTP_HDR + TS_SIZE * i && curr + bytesLeft == |data|
      invariant PcrOf(ts[i..]) == PcrOf(ts)
      decreases bytesLeft
    {
      ParseAt(data, i);
      assert ts[i..][1..] == ts[i+1..];
      if Pid(data[curr+1], data[curr+2]) == PCR_PID {
        var pcr := ReadBigEndian(data, curr + TS_HDR + 2, 6);
        SliceOfSlice(data, curr + TS_HDR, curr + TS_SIZE, 2, 8);
        return ((PcrBase(pcr) as nat) * 300 + (PcrExt(pcr) as nat)) / 27000;
      }
      curr, bytesLeft, i := curr + TS_SIZE, bytesLeft - TS_SIZE, i + 1;
    }
    return 0;
  }

  /** The packets of one kind, in order. */
  function Select(ps: seq<Packet>, kind: PktType): (r: seq<Packet>)
  {
    if ps == [] then []
    else (if TypeOf(ps[0].ts) == kind then [ps[0]] else []) + Select(ps[1..], kind)
  }

  lemma SelectFirst(p: Packet, ps: seq<Packet>, kind: PktType)
    ensures Select([p] + ps, kind) == (if TypeOf(p.ts) == kind then [p] else []) + Select(ps, kind)
  {
    assert ([p] + ps)[1..] == ps;
  }

  lemma {:induction false} SelectAppend(ps: seq<Packet>, qs: seq<Packet>, kind: PktType)
    ensures Select(ps + qs, kind) == Select(ps, kind) + Select(qs, kind)
  {
    if ps == [] {
      assert ps + qs == qs;
    } else {
      var first, rest := if TypeOf(ps[0].ts) == kind then [ps[0]] else [], ps[1..];
      assert Select(ps, kind) == first + Select(rest, kind);
      hide TypeOf, Select;
      SelectAppend(rest, qs, kind);
      SelectFirst(ps[0], rest + qs, kind);
      assert [ps[0]] + (rest + qs) == ps + qs;
      Assoc(first, Select(rest, kind), Select(qs, kind));
    }
  }

  /** The shared queues: packets in, video and audio packets and clock references out. */
  class Demultiplexer {
    var packets: seq<seq<Byte>>
    var video: seq<seq<Byte>>
    var audio: seq<seq<Byte>>
    var pcr: seq<nat>
    ghost var freed: seq<seq<Byte>>

    constructor ()
      ensures packets == [] && video == [] && audio == [] && pcr == [] && freed == []
    {
      packets, video, audio, pcr, freed := [], [], [], [], [];
    }

    /** One pass of the thread: the oldest packet goes to exactly one of video, audio and freed. */
    method ProcessOne()
      requires packets != [] && Framed(packets[0])
      modifies this
      ensures packets == old(packets)[1..]
      ensures var p := old(packets)[0];
              var kind := TypeOf(Parse(p).ts);
              && video == old(video) + (if kind == VideoPkt then [p] else [])
              && audio == old(audio) + (if kind == AudioPkt then [p] else [])
              && freed == old(freed) + (if kind == NullPkt then [p] else [])
              && pcr == old(pcr) + (if PcrOf(Parse(p).ts) > 0 then [PcrOf(Parse(p).ts)] else [])
    {
      var desc := packets[0];
      packets := packets[1..];
      var pcrMs := PcrGet(desc);
      if pcrMs > 0 {
        pcr := pcr + [pcrMs];
      }
      var kind := PktTypeGet(desc);
      match kind {
        case VideoPkt => video := video + [desc];
        case AudioPkt => audio := audio + [desc];
        case NullPkt => freed := freed + [desc];
      }
    }
  }
}
