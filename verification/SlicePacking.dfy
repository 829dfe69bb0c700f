/** The slice packing thread: copies the video elementary stream of a slice into hardware buffers of
    bounded size. */
module SlicePacking {
  import opened Clocks
  import opened TsPacket

  const HW_MAX: nat := 81920

  // ---------- specification ----------

  function Flatten(bs: seq<seq<Byte>>): seq<Byte> {
    if bs == [] then [] else bs[0] + Flatten(bs[1..])
  }

  /** The video payloads of the transport stream packets, in order. */
  function TsPayloads(ts: seq<Ts>): (r: seq<seq<Byte>>)
    requires forall i :: 0 <= i < |ts| ==> VideoOk(ts[i])
    ensures forall i :: 0 <= i < |r| ==> |r[i]| <= TS_PAYLOAD
  {
    if ts == [] then []
    else (if IsVideo(ts[0]) then [VideoBytes(ts[0])] else []) + TsPayloads(ts[1..])
  }

  function Payloads(chain: seq<Packet>): (r: seq<seq<Byte>>)
    requires forall i :: 0 <= i < |chain| ==> PacketOk(chain[i])
    ensures forall i :: 0 <= i < |r| ==> |r[i]| <= TS_PAYLOAD
  {
    if chain == [] then []
    else
      assert PacketOk(chain[0]);
      TsPayloads(chain[0].ts) + Payloads(chain[1..])
  }

  /** The video elementary stream carried by a chain of packets. */
  function ElementaryStream(chain: seq<Packet>): seq<Byte>
    requires forall i :: 0 <= i < |chain| ==> PacketOk(chain[i])
  {
    Flatten(Payloads(chain))
  }

  /** Fills buffers in order, starting a new one where a payload no longer fits; `cur` is already in
      the first. */
  function Pack(ps: seq<seq<Byte>>, cur: seq<Byte>): (r: seq<seq<Byte>>)
    ensures |r| > 0
    decreases |ps|
  {
    if ps == [] then [cur]
    else if |cur| + |ps[0]| > HW_MAX then [cur] + Pack(ps[1..], ps[0])
    else Pack(ps[1..], cur + ps[0])
  }

  /** Packing loses and reorders nothing. */
  lemma {:induction false} PackLossless(ps: seq<seq<Byte>>, cur: seq<Byte>)
    ensures Flatten(Pack(ps, cur)) == cur + Flatten(ps)
    decreases |ps|
  {
    if ps == [] {
      assert [cur][1..] == [];
    } else if |cur| + |ps[0]| > HW_MAX {
      PackLossless(ps[1..], ps[0]);
      assert ([cur] + Pack(ps[1..], ps[0]))[1..] == Pack(ps[1..], ps[0]);
    } else {
      PackLossless(ps[1..], cur + ps[0]);
    }
  }

  /** Every buffer fits the hardware, and all but the last are full up to one payload. */
  lemma {:induction false} PackBounds(ps: seq<seq<Byte>>, cur: seq<Byte>)
    requires |cur| <= HW_MAX && forall i :: 0 <= i < |ps| ==> |ps[i]| <= TS_PAYLOAD
    ensures forall i :: 0 <= i < |Pack(ps, cur)| ==> |Pack(ps, cur)[i]| <= 81920
    ensures forall i :: 0 <= i < |Pack(ps, cur)| - 1 ==> |Pack(ps, cur)[i]| > 81920 - 184
    decreases |ps|
  {
    if ps != [] {
      if |cur| + |ps[0]| > HW_MAX {
        PackBounds(ps[1..], ps[0]);
      } else {
        PackBounds(ps[1..], cur + ps[0]);
      }
    }
  }

  lemma {:induction false} FlattenLong(bs: seq<seq<Byte>>, n: nat)
    requires bs != [] && forall i :: 0 <= i < |bs| - 1 ==> |bs[i]| >= n
    ensures |Flatten(bs)| >= (|bs| - 1) * n
  {
    if |bs| > 1 {
      FlattenLong(bs[1..], n);
      assert (|bs| - 1) * n == n + (|bs[1..]| - 1) * n;
    }
  }

  /** The number of hardware buffers a slice takes is bounded by the size of its elementary stream. */
  lemma BuffersNeeded(ps: seq<seq<Byte>>)
    requires forall i :: 0 <= i < |ps| ==> |ps[i]| <= TS_PAYLOAD
    ensures (|Pack(ps, [])| - 1) * (HW_MAX - TS_PAYLOAD + 1) <= |Flatten(ps)|
  {
    PackBounds(ps, []);
    PackLossless(ps, []);
    FlattenLong(Pack(ps, []), HW_MAX - TS_PAYLOAD + 1);
  }

  // ---------- the thread's copy loop ----------

  class HwBuffer {
    const buffer: array<Byte>
    var bufferLen: nat

    constructor ()
      ensures buffer.Length == HW_MAX && fresh(buffer)
    {
      buffer := new Byte[HW_MAX];
      bufferLen := 0;
    }
  }

  /** Pairwise different buffers with room for `HW_MAX` bytes each. */
  ghost predicate Distinct(bufs: seq<HwBuffer>) {
    && (forall i :: 0 <= i < |bufs| ==> bufs[i].buffer.Length >= HW_MAX)
    && (forall i, j :: 0 <= i < j < |bufs| ==> bufs[i] != bufs[j] && bufs[i].buffer != bufs[j].buffer)
  }

  ghost function Arrays(bufs: seq<HwBuffer>): set<object> {
    set i | 0 <= i < |bufs| :: bufs[i].buffer
  }

  /** The first buffers of `bufs` hold `filled`. */
  ghost predicate Hold(bufs: seq<HwBuffer>, filled: seq<seq<Byte>>)
    reads bufs, Arrays(bufs)
  {
    && |filled| <= |bufs|
    && forall i :: 0 <= i < |filled| ==>
         bufs[i].bufferLen <= bufs[i].buffer.Length && bufs[i].buffer[..bufs[i].bufferLen] == filled[i]
  }

  /** The idle hardware buffers, in the order in which they are handed out. */
  class VideoSink {
    var idle: seq<HwBuffer>

    constructor (idle: seq<HwBuffer>)
      ensures this.idle == idle
    {
      this.idle := idle;
    }

    /** Not blocking: null when no buffer is idle. */
    method BufGet() returns (buf: HwBuffer?)
      modifies this
      ensures old(idle) == [] ==> buf == null && idle == []
      ensures old(idle) != [] ==> buf == old(idle)[0] && idle == old(idle)[1..]
    {
      if idle == [] {
        buf := null;
      } else {
        buf := idle[0];
        idle := idle[1..];
      }
    }
  }

  /** `used` has been taken from the front of `all`; its last buffer is being filled with `cur` and the
      others hold `filled`. */
  ghost predicate Filling(sink: VideoSink, all: seq<HwBuffer>, used: seq<HwBuffer>,
                          filled: seq<seq<Byte>>, cur: seq<Byte>)
    reads sink, all, Arrays(all)
  {
    && Distinct(all) && 0 < |used| <= |all|
    && used == all[..|used|] && sink.idle == all[|used|..]
    && |filled| == |used| - 1 && Hold(all, filled)
    && |cur| <= HW_MAX && used[|used|-1].buffer[..|cur|] == cur
  }

  lemma StartFilling(sink: VideoSink, all: seq<HwBuffer>, used: seq<HwBuffer>)
    requires Distinct(all) && all != [] && used == [all[0]] && sink.idle == all[1..]
    ensures Filling(sink, all, used, [], [])
  {}

  /** Copies one payload into the current buffer, after moving on to the next idle buffer if it does not
      fit.  Not `ok` when no buffer is left. */
  method AppendPayload(sink: VideoSink, used: seq<HwBuffer>, copyIndex: nat, src: seq<Byte>,
                       ghost all: seq<HwBuffer>, ghost filled: seq<seq<Byte>>, ghost cur: seq<Byte>)
    returns (ok: bool, used': seq<HwBuffer>, copyIndex': nat,
             ghost filled': seq<seq<Byte>>, ghost cur': seq<Byte>)
    requires Filling(sink, all, used, filled, cur) && |cur| == copyIndex && |src| <= TS_PAYLOAD
    modifies sink, all, Arrays(all)
    ensures filled' == (if copyIndex + |src| > HW_MAX then filled + [cur] else filled)
    ensures cur' == (if copyIndex + |src| > HW_MAX then src else cur + src)
    ensures !ok ==> |filled'| == |all| && sink.idle == []
    ensures ok ==> Filling(sink, all, used', filled', cur') && |cur'| == copyIndex'
  {
    used', copyIndex', filled', cur' := used, copyIndex, filled, cur + src;
    if copyIndex + |src| > HW_MAX {
      used[|used|-1].bufferLen := copyIndex;
      filled', cur' := filled + [cur], src;
      var buf := sink.BufGet();
      if buf == null {
        return false, used', copyIndex', filled', cur';
      }
      used', copyIndex' := used + [buf], 0;
    }
    var n := |used'|;
    assert used'[n-1] == all[n-1];
    assert forall i :: 0 <= i < |filled'| ==> all[i].buffer != all[n-1].buffer;
    Copy(used'[n-1].buffer, copyIndex', src);
    copyIndex' := copyIndex' + |src|;
    ok := true;
  }

  /** Records the length of the last buffer. */
  method Finish(sink: VideoSink, used: seq<HwBuffer>, copyIndex: nat,
                ghost all: seq<HwBuffer>, ghost filled: seq<seq<Byte>>, ghost cur: seq<Byte>)
    requires Filling(sink, all, used, filled, cur) && |cur| == copyIndex
    modifies all
    ensures |used| == |filled| + 1 <= |all| && used == all[..|used|] && sink.idle == all[|used|..]
    ensures Hold(used, filled + [cur])
  {
    used[|used|-1].bufferLen := copyIndex;
  }

  predicate SlicePackets(chain: seq<seq<Byte>>) {
    forall i :: 0 <= i < |chain| ==> Framed(chain[i]) && PacketOk(Parse(chain[i]))
  }

  function ParseAll(chain: seq<seq<Byte>>): (r: seq<Packet>)
    requires SlicePackets(chain)
    ensures |r| == |chain| && forall i :: 0 <= i < |r| ==> PacketOk(r[i])
  {
    if chain == [] then [] else [Parse(chain[0])] + ParseAll(chain[1..])
  }

  /** Copies the video payloads of one packet; `rest` are the payloads of the packets behind it. */
  method DumpPacket(sink: VideoSink, used: seq<HwBuffer>, copyIndex: nat, data: seq<Byte>, ghost rest: seq<seq<Byte>>,
                    ghost all: seq<HwBuffer>, ghost filled: seq<seq<Byte>>, ghost cur: seq<Byte>)
    returns (ok: bool, used': seq<HwBuffer>, copyIndex': nat,
             ghost filled': seq<seq<Byte>>, ghost cur': seq<Byte>)
    requires Framed(data) && PacketOk(Parse(data))
    requires Filling(sink, all, used, filled, cur) && |cur| == copyIndex
    modifies sink, all, Arrays(all)
    ensures ok ==> Filling(sink, all, used', filled', cur') && |cur'| == copyIndex'
    ensures ok ==> filled' + Pack(rest, cur') == filled + Pack(TsPayloads(Parse(data).ts) + rest, cur)
    ensures !ok ==> |filled + Pack(TsPayloads(Parse(data).ts) + rest, cur)| > |all|
  {
    hide Pid, Pusi, Afc, Cc, Parse, Filling, TsPayloads, VideoOk, VideoBytes, Pack, HasAdaptation, VideoOffset;
    ghost var ts := Parse(data).ts;
    ok, used', copyIndex', filled', cur' := true, used, copyIndex, filled, cur;
    ghost var i := 0;
    var curr := RTP_HDR;
    var bytesLeft := |data| - RTP_HDR;
    assert ts[0..] == ts;
    while bytesLeft > 0
      invariant i <= |ts| && curr == RTP_HDR + TS_SIZE * i && curr + bytesLeft == |data|
      invariant Filling(sink, all, used', filled', cur') && |cur'| == copyIndex'
      invariant filled' + Pack(TsPayloads(ts[i..]) + rest, cur') == filled + Pack(TsPayloads(ts) + rest, cur)
      decreases bytesLeft
    {
      ParseAt(data, i);
      PayloadsStep(ts, i, rest);
      if Pid(data[curr+1], data[curr+2]) == VIDEO_PID {
        var payload := ReadPayload(data, curr);
        PackStep(payload, TsPayloads(ts[i+1..]) + rest, filled', cur');
        ok, used', copyIndex', filled', cur' := AppendPayload(sink, used', copyIndex', payload, all, filled', cur');
        if !ok {
          return;
        }
      }
      curr, bytesLeft, i := curr + TS_SIZE, bytesLeft - TS_SIZE, i + 1;
    }
    assert ts[i..] == [];
    NoPayloads(rest);
  }

  lemma NoPayloads(rest: seq<seq<Byte>>)
    ensures TsPayloads([]) + rest == rest
  {}

  /** The video bytes of the transport stream packet at `curr`: all that stands behind the headers. */
  method ReadPayload(data: seq<Byte>, curr: nat) returns (payload: seq<Byte>)
    requires curr + TS_SIZE <= |data| && VideoOk(TsAt(data, curr)) && IsVideo(TsAt(data, curr))
    ensures payload == VideoBytes(TsAt(data, curr)) && |payload| <= TS_PAYLOAD
    ensures HeaderLength(data, curr, 14) <= 188 && payload == data[curr + HeaderLength(data, curr, 14)..curr + 188]
  {
    hide Pid, Cc, Pusi, Afc;
    HeaderBits(data[curr+1], data[curr+3]);
    var stuffing := 0;
    if Afc(data[curr+3]) & 0x02 != 0 {
      stuffing := (1 + (data[curr+TS_HDR] as nat)) % 256;
    }
    var startOffset := stuffing + if Pusi(data[curr+1]) then PES_HDR else 0;
    payload := data[curr + TS_HDR + startOffset..curr + TS_SIZE];
  }

  lemma PayloadsStep(ts: seq<Ts>, i: nat, rest: seq<seq<Byte>>)
    requires i < |ts| && forall j :: 0 <= j < |ts| ==> VideoOk(ts[j])
    ensures TsPayloads(ts[i..]) + rest ==
      if IsVideo(ts[i]) then [VideoBytes(ts[i])] + (TsPayloads(ts[i+1..]) + rest) else TsPayloads(ts[i+1..]) + rest
  {
    assert ts[i..][1..] == ts[i+1..];
  }

  lemma PackStep(p: seq<Byte>, rest: seq<seq<Byte>>, filled: seq<seq<Byte>>, cur: seq<Byte>)
    ensures |cur| + |p| > HW_MAX ==>
      filled + Pack([p] + rest, cur) == (filled + [cur]) + Pack(rest, p)
    ensures |cur| + |p| <= HW_MAX ==> filled + Pack([p] + rest, cur) == filled + Pack(rest, cur + p)
  {
    assert ([p] + rest)[1..] == rest;
  }

  /** Packs a slice into idle hardware buffers and returns them in order.  Not `ok`, an assertion in the
      source, when the slice takes more buffers than are idle. */
  method SliceDump(sink: VideoSink, chain: seq<seq<Byte>>) returns (ok: bool, hw: seq<HwBuffer>)
    requires chain != [] && SlicePackets(chain) && Distinct(sink.idle)
    modifies sink, sink.idle, Arrays(sink.idle)
    ensures ok <==> |Pack(Payloads(ParseAll(chain)), [])| <= |old(sink.idle)|
    ensures ok ==>
      && |hw| == |Pack(Payloads(ParseAll(chain)), [])|
      && hw == old(sink.idle)[..|hw|] && sink.idle == old(sink.idle)[|hw|..]
      && Hold(hw, Pack(Payloads(ParseAll(chain)), []))
  {
    hide Parse, Filling, TsPayloads, Pack;
    ghost var all, goal := sink.idle, Pack(Payloads(ParseAll(chain)), []);
    ghost var filled: seq<seq<Byte>>, cur: seq<Byte> := [], [];
    var buf := sink.BufGet();
    if buf == null {
      return false, [];
    }
    hw := [buf];
    var copyIndex := 0;
    StartFilling(sink, all, hw);
    ok := true;
    assert chain[0..] == chain && [] + goal == goal;
    for i := 0 to |chain|
      invariant ok && Filling(sink, all, hw, filled, cur) && |cur| == copyIndex
      invariant SlicePackets(chain[i..])
      invariant filled + Pack(Payloads(ParseAll(chain[i..])), cur) == goal
    {
      assert chain[i..][0] == chain[i] && chain[i..][1..] == chain[i+1..];
      ghost var rest := Payloads(ParseAll(chain[i+1..]));
      PayloadsOfFirst(chain[i..]);
      ok, hw, copyIndex, filled, cur := DumpPacket(sink, hw, copyIndex, chain[i], rest, all, filled, cur);
      if !ok {
        return false, [];
      }
    }
    LastFilled(filled, cur);
    assert chain[|chain|..] == [];
    Finish(sink, hw, copyIndex, all, filled, cur);
  }

  lemma LastFilled(filled: seq<seq<Byte>>, cur: seq<Byte>)
    ensures filled + Pack(Payloads(ParseAll([])), cur) == filled + [cur]
  {}

  lemma PayloadsOfFirst(chain: seq<seq<Byte>>)
    requires chain != [] && SlicePackets(chain)
    ensures Payloads(ParseAll(chain)) == TsPayloads(Parse(chain[0]).ts) + Payloads(ParseAll(chain[1..]))
  {
    assert ParseAll(chain)[1..] == ParseAll(chain[1..]);
  }
}
