/** The audio scheduler thread and the audio sink below it: copies LPCM slices into hardware buffers and
    keeps the playback backlog near 200 ms. */
module AudioScheduler {
  import opened Clocks
  import opened TsPacket
  import opened LinkedChain
  import opened Options
  import opened Sequences
  import opened Words
  import AD = AudioDecoder

  type Slice = seq<Packet>

  const BUFFER_SIZE: nat := 1920
  const NUM_BUF: nat := 100
  const BYTES_PER_SAMPLE: nat := 4

  // ---------- copying a slice ----------

  /** Where the samples start: the scheduler, unlike the decoder, skips an adaptation field in front of a
      slice start too. */
  function AudioOffset(t: Ts): (n: nat)
    requires AD.AudioOk(t) && AD.IsAudio(t)
    ensures n <= TS_PAYLOAD
  {
    assert t.afc == 1 || t.afc == 3;
    assert HasAdaptation(t) ==> t.afc == 3;
    Stuffing(t) + if t.pusi then AD.AUDIO_HDR else 0
  }

  function AudioBytes(t: Ts): seq<Byte>
    requires AD.AudioOk(t)
  {
    if AD.IsAudio(t) then t.payload[AudioOffset(t)..] else []
  }

  function AudioTs(ts: seq<Ts>): seq<Byte>
    requires forall i :: 0 <= i < |ts| ==> AD.AudioOk(ts[i])
  {
    if ts == [] then [] else AudioTs(ts[..|ts|-1]) + AudioBytes(ts[|ts|-1])
  }

  /** The samples of a slice, as the scheduler copies them. */
  function AudioStream(c: Slice): seq<Byte>
    requires AD.AudioPackets(c)
  {
    if c == [] then []
    else
      assert AD.AudioPacket(c[|c|-1]);
      AudioStream(c[..|c|-1]) + AudioTs(c[|c|-1].ts)
  }

  /** A slice start behind an adaptation field. */
  predicate StuffedStart(t: Ts) { AD.IsAudioStart(t) && HasAdaptation(t) }

  predicate Unstuffed(c: Slice) {
    forall i :: 0 <= i < |c| ==> UnstuffedTs(c[i].ts)
  }

  predicate UnstuffedTs(ts: seq<Ts>) {
    forall i :: 0 <= i < |ts| ==> !StuffedStart(ts[i])
  }

  lemma BytesCounted(t: Ts)
    requires AD.AudioOk(t)
    ensures |AudioBytes(t)| <= AD.Counted(t)
    ensures |AudioBytes(t)| == AD.Counted(t) <==> !StuffedStart(t)
  {}

  lemma {:induction false} TsCounted(ts: seq<Ts>)
    requires forall i :: 0 <= i < |ts| ==> AD.AudioOk(ts[i])
    ensures |AudioTs(ts)| <= AD.CountedTs(ts)
    ensures |AudioTs(ts)| == AD.CountedTs(ts) <==> UnstuffedTs(ts)
  {
    hide AudioBytes, AD.Counted, StuffedStart, AD.AudioOk;
    if ts != [] {
      TsCounted(ts[..|ts|-1]);
      BytesCounted(ts[|ts|-1]);
    }
  }

  lemma {:induction false} SliceCounted(c: Slice)
    requires AD.AudioPackets(c)
    ensures |AudioStream(c)| <= AD.CountedAll(c)
    ensures |AudioStream(c)| == AD.CountedAll(c) <==> Unstuffed(c)
  {
    hide AudioTs, AD.CountedTs, UnstuffedTs, AD.AudioOk;
    if c != [] {
      SliceCounted(c[..|c|-1]);
      assert AD.AudioPacket(c[|c|-1]);
      TsCounted(c[|c|-1].ts);
    }
  }

  /** For every slice the decoder emits the copy stays inside the buffer, and it fills the buffer, as the
      scheduler asserts, exactly when no slice start is preceded by an adaptation field. */
  lemma CopiesExactly(c: Slice)
    requires AD.Complete(c)
    ensures |AudioStream(c)| <= BUFFER_SIZE
    ensures |AudioStream(c)| == BUFFER_SIZE <==> Unstuffed(c)
  {
    SliceCounted(c);
  }

  lemma RestBytes(fill: Byte)
    requires (fill as nat) < TS_PAYLOAD
    ensures |AudioBytes(AD.SampleRest(fill))| == AD.Counted(AD.SampleRest(fill))
  {
    BytesCounted(AD.SampleRest(fill));
  }

  /** A slice as the source sends it, by the bytes it carries. */
  ghost predicate Conforming(c: Slice) {
    && AD.Collected(c, AD.LPCM_BYTES) && |AudioStream(c)| == BUFFER_SIZE
    && forall k :: 0 <= k < |c| ==> |AudioStream(c[..k])| < BUFFER_SIZE
  }

  lemma {:induction false} SampleBytes(first: Ts, n: nat)
    requires AD.AudioOk(first)
    ensures forall i :: 0 <= i < |AD.SampleTs(first, n)| ==> AD.AudioOk(AD.SampleTs(first, n)[i])
    ensures |AudioTs(AD.SampleTs(first, n))| == |AudioBytes(first)| + TS_PAYLOAD * n
  {
    hide AudioBytes, AD.Counted, AD.AudioOk, AD.SampleRest, StuffedStart;
    var ts, rest := AD.SampleTs(first, n), AD.SampleRest(0);
    RestBytes(0);
    if n == 0 {
      assert ts[..0] == [] && ts == [first];
    } else {
      SampleBytes(first, n - 1);
      assert ts[..n] == AD.SampleTs(first, n - 1) && ts[n] == rest;
    }
  }

  /** The packet behind a sample slice: the last eight bytes of the slice. */
  function SampleTail(): Packet { Packet(2, [AD.SampleRest(175)]) }

  lemma StreamAppend(c: Slice, p: Packet)
    requires AD.AudioPackets(c) && AD.AudioPacket(p)
    ensures AD.AudioPackets(c + [p]) && AudioStream(c + [p]) == AudioStream(c) + AudioTs(p.ts)
  {
    hide AD.AudioPacket, AudioTs;
    assert (c + [p])[..|c|] == c;
  }

  lemma TailBytes()
    ensures AD.AudioPacket(SampleTail()) && |AudioTs(SampleTail().ts)| == 8 && !AD.HasAudioStart(SampleTail())
  {
    var t := AD.SampleRest(175);
    BytesCounted(t);
    assert [t][..0] == [];
  }

  lemma StuffedBytes()
    ensures |AudioBytes(AD.SampleStart(true))| == 156 && |AudioBytes(AD.SampleRest(83))| == 100
  {
    BytesCounted(AD.SampleRest(83));
  }

  lemma StuffedStream()
    ensures var c := AD.SampleSlice(0, true);
            && AD.AudioPackets(c) && |AudioStream(c)| == 1912 && |c| == 2
            && AudioStream(c[..0]) == [] && |AudioStream(c[..1])| == 1260
  {
    AD.SampleIsAudio(0, true);
    StuffedBytes();
    SampleBytes(AD.SampleStart(true), 6);
    SampleBytes(AD.SampleRest(83), 3);
    hide AD.SampleStart, AD.SampleRest, AD.AudioPacket, AD.AudioOk, AudioBytes, AudioTs;
    var c := AD.SampleSlice(0, true);
    StreamAppend([], c[0]);
    StreamAppend([c[0]], c[1]);
    assert c[..0] == [] && c[..1] == [] + [c[0]] == [c[0]] && c == [c[0]] + [c[1]];
  }

  lemma SampleConforms()
    ensures Conforming(AD.SampleSlice(0, true) + [SampleTail()])
  {
    hide AudioStream, AD.SampleSlice, SampleTail, AD.AudioPacket, AD.HasAudioStart, AD.StartLen, AudioTs;
    var c, p := AD.SampleSlice(0, true), SampleTail();
    StuffedStream();
    TailBytes();
    AD.SampleIsAudio(0, true);
    AD.SampleNumbers(0, true);
    StreamAppend(c, p);
    TailNumber();
    var ps := c + [p];
    assert ps[0] == c[0] && ps[1] == c[1] && ps[2] == p;
    forall k | 0 <= k < |ps| ensures |AudioStream(ps[..k])| < BUFFER_SIZE {
      assert ps[..k] == c[..k] && c[..2] == c;
      assert k == 0 || k == 1 || k == 2;
    }
  }

  lemma TailNumber()
    ensures SampleTail().seqNum == 2
  {}

  /** A slice of 1920 bytes in three packets with an adaptation field in front of its start: the decoder emits the
      first two packets as the whole slice, and the copy of these falls short of the asserted length. */
  lemma StuffedSliceFallsShort()
    ensures var c := AD.SampleSlice(0, true);
            var ps := c + [SampleTail()];
            && Conforming(ps)
            && AD.Decode(AD.START, ps).Some? && AD.Decode(AD.START, ps).value.emitted == [c]
            && AD.AudioPackets(c) && |AudioStream(c)| == 1912
  {
    var c, p := AD.SampleSlice(0, true), SampleTail();
    StuffedStream();
    TailBytes();
    AD.SampleIsSendable(0, true);
    AD.ReadyEmits(AD.START, c);
    assert [] + [c] == [c];
    StreamAppend(c, p);
    SampleConforms();
    AD.DecodeJoin(AD.START, c, [p]);
    AD.NoStartSkipped(AD.Decode(AD.START, c).value, p);
  }

  /** A decoder that is looking for a slice emits a conforming slice it receives whole exactly when no slice start
      in it is behind an adaptation field. */
  lemma ConformingExactlyWhenUnstuffed(d: AD.Decoder, c: Slice)
    requires AD.Ready(d) && Conforming(c)
    ensures AD.Delivers(d, c, c) <==> Unstuffed(c)
  {
    SliceCounted(c);
    if Unstuffed(c) {
      forall k | 0 <= k < |c| ensures AD.CountedAll(c[..k]) < AD.LPCM_BYTES {
        SliceCounted(c[..k]);
      }
      hide AudioStream, AD.CountedAll, AD.Collected, Unstuffed, AD.Decode;
      AD.CompleteIsEmitted(d, c);
    } else if AD.Delivers(d, c, c) {
      AD.NewAreComplete(d, c);
    }
  }

  predicate AudioChain(chain: seq<seq<Byte>>) {
    forall i :: 0 <= i < |chain| ==> Framed(chain[i]) && AD.AudioPacket(Parse(chain[i]))
  }

  function ParseChain(chain: seq<seq<Byte>>): (c: Slice)
    requires AudioChain(chain)
    ensures |c| == |chain| && AD.AudioPackets(c)
  {
    if chain == [] then [] else ParseChain(chain[..|chain|-1]) + [Parse(chain[|chain|-1])]
  }

  lemma ParseChainStep(chain: seq<seq<Byte>>, i: nat)
    requires AudioChain(chain) && i < |chain|
    ensures AudioChain(chain[..i]) && AudioChain(chain[..i+1])
    ensures AD.AudioPacket(Parse(chain[i]))
    ensures AudioStream(ParseChain(chain[..i+1])) ==
            AudioStream(ParseChain(chain[..i])) + AudioTs(Parse(chain[i]).ts)
  {
    hide Parse, AD.AudioPacket, AudioTs;
    assert chain[..i+1][..i] == chain[..i];
    var c := ParseChain(chain[..i]);
    assert (c + [Parse(chain[i])])[..i] == c;
  }

  lemma {:induction false} StreamGrows(chain: seq<seq<Byte>>, i: nat)
    requires AudioChain(chain) && i <= |chain|
    ensures AudioChain(chain[..i])
    ensures |AudioStream(ParseChain(chain[..i]))| <= |AudioStream(ParseChain(chain))|
    decreases |chain| - i
  {
    hide ParseChain, AudioStream, AD.AudioPacket, Parse;
    if i < |chain| {
      ParseChainStep(chain, i);
      StreamGrows(chain, i + 1);
    } else {
      assert chain[..i] == chain;
    }
  }

  lemma {:induction false} TsGrows(ts: seq<Ts>, i: nat)
    requires i <= |ts| && forall j :: 0 <= j < |ts| ==> AD.AudioOk(ts[j])
    ensures |AudioTs(ts[..i])| <= |AudioTs(ts)|
    decreases |ts| - i
  {
    hide AD.AudioOk, AudioBytes;
    if i < |ts| {
      TsGrows(ts, i + 1);
      assert ts[..i+1][..i] == ts[..i];
    } else {
      assert ts[..i] == ts;
    }
  }

  /** The sample bytes of the transport stream packet at `curr`: all that stands behind the headers. */
  method ReadSamples(data: seq<Byte>, curr: nat) returns (payload: seq<Byte>)
    requires curr + TS_SIZE <= |data| && AD.AudioOk(TsAt(data, curr)) && AD.IsAudio(TsAt(data, curr))
    ensures payload == AudioBytes(TsAt(data, curr))
    ensures HeaderLength(data, curr, 20) <= 188 && payload == data[curr + HeaderLength(data, curr, 20)..curr + 188]
  {
    hide Pid, Cc, AD.AudioOk;
    HeaderBits(data[curr+1], data[curr+3]);
    var stuffing := 0;
    if Afc(data[curr+3]) & 0x02 != 0 {
      stuffing := (1 + (data[curr+TS_HDR] as nat)) % 256;
    }
    assert stuffing == Stuffing(TsAt(data, curr));
    hide Stuffing, Afc, Pusi;
    var startOffset := stuffing + if Pusi(data[curr+1]) then AD.AUDIO_HDR else 0;
    assert startOffset == AudioOffset(TsAt(data, curr)) <= TS_PAYLOAD;
    payload := data[curr + TS_HDR + startOffset..curr + TS_SIZE];
  }

  method DumpPacket(buf: array<Byte>, copyIndex: nat, data: seq<Byte>) returns (copyIndex': nat)
    requires Framed(data) && AD.AudioPacket(Parse(data))
    requires copyIndex + |AudioTs(Parse(data).ts)| <= buf.Length
    modifies buf
    ensures copyIndex' == copyIndex + |AudioTs(Parse(data).ts)|
    ensures buf[..copyIndex'] == old(buf[..copyIndex]) + AudioTs(Parse(data).ts)
  {
    hide Pid, Pusi, Afc, Cc, Parse, AD.AudioOk, AudioBytes, AudioTs;
    ghost var ts, was := Parse(data).ts, buf[..copyIndex];
    NoSamples(ts);
    copyIndex' := copyIndex;
    ghost var i := 0;
    var curr := RTP_HDR;
    var bytesLeft := |data| - RTP_HDR;
    while bytesLeft > 0
      invariant i <= |ts| && curr == RTP_HDR + TS_SIZE * i && curr + bytesLeft == |data|
      invariant copyIndex' == copyIndex + |AudioTs(ts[..i])| <= buf.Length
      invariant buf[..copyIndex'] == was + AudioTs(ts[..i])
      decreases bytesLeft
    {
      ParseAt(data, i);
      AudioTsStep(ts, i);
      if Pid(data[curr+1], data[curr+2]) == AUDIO_PID {
        var payload := ReadSamples(data, curr);
        Copy(buf, copyIndex', payload);
        copyIndex' := copyIndex' + |payload|;
      }
      curr, bytesLeft, i := curr + TS_SIZE, bytesLeft - TS_SIZE, i + 1;
    }
    assert ts[..i] == ts;
  }

  lemma NoSamples(ts: seq<Ts>)
    ensures AudioTs(ts[..0]) == []
  {}

  lemma AudioTsStep(ts: seq<Ts>, i: nat)
    requires i < |ts| && forall j :: 0 <= j < |ts| ==> AD.AudioOk(ts[j])
    ensures AudioTs(ts[..i+1]) == AudioTs(ts[..i]) + AudioBytes(ts[i])
    ensures !AD.IsAudio(ts[i]) ==> AudioTs(ts[..i+1]) == AudioTs(ts[..i])
    ensures |AudioTs(ts[..i+1])| <= |AudioTs(ts)|
  {
    TsGrows(ts, i + 1);
    assert ts[..i+1][..i] == ts[..i];
  }

  /** The bytes of every 16-bit sample exchanged. */
  function Swapped(s: seq<Byte>): (r: seq<Byte>)
    requires |s| % 2 == 0
    ensures |r| == |s|
  {
    seq(|s|, i requires 0 <= i < |s| => s[if i % 2 == 0 then i + 1 else i - 1])
  }

  /** The bytes are the samples of the slice in the machine's order. */
  ghost predicate Plays(bytes: seq<Byte>, c: Slice)
    requires AD.AudioPackets(c)
  {
    |AudioStream(c)| == BUFFER_SIZE && bytes == Swapped(AudioStream(c))
  }

  /** Every sample keeps its value when it is read in the machine's order, low byte first, instead of the
      network's; exchanging twice restores the bytes. */
  lemma SamplesKept(s: seq<Byte>, i: nat)
    requires |s| % 2 == 0 && 2 * i + 1 < |s|
    ensures Short(Swapped(s)[2*i+1], Swapped(s)[2*i]) == Short(s[2*i], s[2*i+1])
    ensures Swapped(Swapped(s)) == s
  {
    assert (2 * i) % 2 == 0 && (2 * i + 1) % 2 == 1;
  }

  method EndiannessConvert(buf: array<Byte>, samples: nat)
    requires buf.Length == 2 * samples
    modifies buf
    ensures buf[..] == Swapped(old(buf[..]))
  {
    ghost var was := buf[..];
    for i := 0 to samples
      invariant forall j :: 0 <= j < 2 * i ==> buf[j] == Swapped(was)[j]
      invariant forall j :: 2 * i <= j < buf.Length ==> buf[j] == was[j]
    {
      assert (2 * i) % 2 == 0 && (2 * i + 1) % 2 == 1;
      buf[2*i], buf[2*i+1] := buf[2*i+1], buf[2*i];
    }
  }

  /** Copies a slice emitted by the decoder into a hardware buffer and converts its samples; not `ok`, an
      assertion in the source, when the copy does not fill the buffer. */
  method SliceDump(buf: array<Byte>, chain: seq<seq<Byte>>) returns (ok: bool)
    requires AudioChain(chain) && AD.Complete(ParseChain(chain)) && buf.Length == BUFFER_SIZE
    modifies buf
    ensures ok <==> Unstuffed(ParseChain(chain))
    ensures ok ==> Plays(buf[..], ParseChain(chain))
  {
    hide Swapped, Unstuffed, ParseChain, AudioStream, AudioTs, AD.AudioPacket, Parse, AD.Complete, AD.CountedAll;
    ghost var all := AudioStream(ParseChain(chain));
    CopiesExactly(ParseChain(chain));
    NothingCopied();
    var copyIndex := 0;
    for i := 0 to |chain|
      invariant AudioChain(chain[..i])
      invariant copyIndex == |AudioStream(ParseChain(chain[..i]))| <= BUFFER_SIZE
      invariant buf[..copyIndex] == AudioStream(ParseChain(chain[..i]))
    {
      ParseChainStep(chain, i);
      StreamGrows(chain, i + 1);
      copyIndex := DumpPacket(buf, copyIndex, chain[i]);
    }
    assert chain[..|chain|] == chain;
    ok := copyIndex == BUFFER_SIZE;
    if ok {
      assert buf[..copyIndex] == buf[..];
      EndiannessConvert(buf, BUFFER_SIZE / 2);
    }
  }

  lemma NothingCopied()
    ensures AudioStream(ParseChain([])) == []
  {}

  // ---------- the playback backlog ----------

  /** Milliseconds of audio in the renderer, in 32-bit arithmetic; `samples` counts both channels. */
  function Ms(samples: nat): nat { ((samples / 2) * 1000 % WORD) / 48000 }

  const SAMPLES_PER_BUFFER: nat := BUFFER_SIZE / 2

  /** Buffers the renderer still holds: it returns each when its samples have been played. */
  function InFlight(samples: nat): nat { (samples + SAMPLES_PER_BUFFER - 1) / SAMPLES_PER_BUFFER }

  /** Where the thread is in its loop: at the top, between the two readings of an active pass with the
      first in `dataLeft`, or about to fetch the next of `todo` slices. */
  datatype Pc = Top | Sampled(dataLeft: nat) | Filling(todo: nat)

  /** `ready` is the slice queue; `arrived` and `queued` are all slices put on it and all handed to the
      renderer so far. */
  datatype State = State(active: bool, pc: Pc, ready: seq<Slice>, samples: nat,
                         arrived: seq<Slice>, queued: seq<Slice>)

  datatype Step = Arrive(slice: Slice) | Play(samples: nat) | Poll | SampleData | Measure | Fetch

  const START: State := State(false, Top, [], 0, [], [])

  /** `Fetch` takes a hardware buffer, of which `BacklogBounded` shows one is left. */
  ghost predicate Enabled(s: State, step: Step) {
    match step
    case Arrive(slice) => true
    case Play(n) => n <= s.samples
    case Poll => s.pc.Top? && !s.active
    case SampleData => s.pc.Top? && s.active
    case Measure => s.pc.Sampled?
    case Fetch => s.pc.Filling?
  }

  ghost function Next(s: State, step: Step): State
    requires Enabled(s, step)
  {
    match step
    case Arrive(slice) => s.(ready := s.ready + [slice], arrived := s.arrived + [slice])
    case Play(n) => s.(samples := s.samples - n)
    case Poll => if |s.ready| > 10 then s.(active := true) else s
    case SampleData => s.(pc := Sampled(|s.ready| * 10))
    case Measure =>
      var queuedMs := Ms(s.samples);
      if s.pc.dataLeft + queuedMs == 0 then s.(active := false, pc := Top)
      else if queuedMs < 200 then s.(pc := Filling((200 - queuedMs + 10) / 10))
      else s.(pc := Top)
    case Fetch =>
      if s.ready == [] then s.(pc := Top)
      else
        s.(ready := s.ready[1..], queued := s.queued + [s.ready[0]], samples := s.samples + SAMPLES_PER_BUFFER,
           pc := if s.pc.todo <= 1 then Top else Filling(s.pc.todo - 1))
  }

  ghost predicate IsRun(run: seq<State>, steps: seq<Step>) {
    && |run| == |steps| + 1 && run[0] == START
    && forall i :: 0 <= i < |steps| ==> Enabled(run[i], steps[i]) && run[i+1] == Next(run[i], steps[i])
  }

  /** The reading is the playing time of the samples: 48 of each of two channels take a millisecond.  The product
      stays within 32 bits up to 8589935 samples. */
  lemma MsIsTime(samples: nat)
    requires samples <= 8_589_935
    ensures Ms(samples) == samples / 96
  {
    assert samples / 2 * 1000 < WORD;
    assert samples / 2 * 1000 / 48000 == samples / 2 / 48;
  }

  /** The smallest number of buffers that can hold the samples not yet played. */
  lemma InFlightIsLeast(samples: nat, n: nat)
    ensures InFlight(samples) <= n <==> samples <= 960 * n
  {
    var k := InFlight(samples);
    assert 960 * k <= samples + 959 < 960 * (k + 1);
  }

  /** One more buffer adds 10 ms, and playing only lowers the reading. */
  lemma MsSteps(samples: nat, less: nat)
    requires less <= samples <= 1_000_000
    ensures Ms(samples + SAMPLES_PER_BUFFER) == Ms(samples) + 10 && Ms(less) <= Ms(samples)
  {
    var h, l := samples / 2, less / 2;
    assert (samples + SAMPLES_PER_BUFFER) / 2 == h + 480 && l <= h;
    assert (h + 480) * 1000 < WORD && h * 1000 < WORD;
    assert Ms(samples) == h * 1000 / 48000 && Ms(less) == l * 1000 / 48000;
    assert Ms(samples + SAMPLES_PER_BUFFER) == (h * 1000 + 480000) / 48000;
  }

  ghost predicate Inv(s: State) {
    && s.samples <= 20_255 && Ms(s.samples) <= 210
    && (s.pc.Filling? ==> s.pc.todo > 0 && Ms(s.samples) + 10 * s.pc.todo <= 210)
    && s.arrived == s.queued + s.ready
    && (!s.pc.Top? ==> s.active)
  }

  lemma StepKeeps(s: State, step: Step)
    requires Inv(s) && Enabled(s, step)
    ensures Inv(Next(s, step))
  {
    hide Ms;
    match step
    case Arrive(slice) =>
    case Play(n) => MsSteps(s.samples, s.samples - n);
    case Poll =>
    case SampleData =>
    case Measure =>
    case Fetch =>
      MsSteps(s.samples, s.samples);
      MsBounds(s.samples + SAMPLES_PER_BUFFER);
  }

  /** A reading of at most 210 ms means at most 20255 samples. */
  lemma MsBounds(samples: nat)
    requires samples <= 1_000_000
    ensures Ms(samples) <= 210 <==> samples <= 20_255
  {
    assert samples / 2 * 1000 < WORD;
  }

  /** However the decoder, the scheduler and the playback interleave, the backlog stays below 211 ms and at
      most 22 of the 100 buffers are in flight, so the thread always finds a buffer; and the slices are
      played in the order in which they arrived. */
  lemma {:induction false} BacklogBounded(run: seq<State>, steps: seq<Step>, n: nat)
    requires IsRun(run, steps) && n < |run|
    ensures Inv(run[n])
    ensures Ms(run[n].samples) < 211 && InFlight(run[n].samples) <= 22 < NUM_BUF
    ensures run[n].queued <= run[n].arrived
  {
    hide Inv, Next, Enabled, Ms, InFlight;
    if n == 0 {
      StartKeeps();
    } else {
      BacklogBounded(run, steps, n - 1);
      StepKeeps(run[n-1], steps[n-1]);
    }
    InvBounds(run[n]);
  }

  lemma StartKeeps()
    ensures Inv(START)
  {}

  lemma InvBounds(s: State)
    requires Inv(s)
    ensures Ms(s.samples) < 211 && InFlight(s.samples) <= 22 && s.queued <= s.arrived
  {}

  // ---------- the lower side ----------

  /** A sequence of steps in which the thread only fetches slices, each where it is enabled. */
  ghost predicate Fetching(run: seq<State>, steps: seq<Step>) {
    && |run| == |steps| + 1
    && forall i :: 0 <= i < |steps| ==>
         && (steps[i].Arrive? || steps[i].Play? || steps[i].Fetch?) && run[i].pc.Filling?
         && Enabled(run[i], steps[i]) && run[i+1] == Next(run[i], steps[i])
  }

  /** A pass that has `todo` slices to queue ends when it has queued them, or earlier if no more is ready. */
  lemma {:induction false} FetchesAll(run: seq<State>, steps: seq<Step>)
    requires Fetching(run, steps) && Inv(run[0]) && run[0].pc.Filling?
    ensures var s, t := run[0], run[|steps|];
            && Inv(t) && |s.queued| <= |t.queued|
            && (t.pc.Filling? ==> |t.queued| - |s.queued| == s.pc.todo - t.pc.todo)
            && (t.pc.Top? ==> t.ready == [] || |t.queued| - |s.queued| == s.pc.todo)
            && (t.pc.Top? || t.pc.Filling?)
    decreases |steps|
  {
    hide Ms;
    if steps != [] {
      var n := |steps| - 1;
      FetchesAll(run[..n+1], steps[..n]);
      assert run[..n+1][n] == run[n] && run[n].pc.Filling?;
      StepKeeps(run[n], steps[n]);
    }
  }

  ghost predicate NoPlay(steps: seq<Step>) {
    forall i :: 0 <= i < |steps| ==> !steps[i].Play?
  }

  lemma {:induction false} FetchesAddUp(run: seq<State>, steps: seq<Step>)
    requires Fetching(run, steps) && NoPlay(steps)
    ensures |run[|steps|].queued| >= |run[0].queued|
    ensures run[|steps|].samples == run[0].samples + 960 * (|run[|steps|].queued| - |run[0].queued|)
    decreases |steps|
  {
    if steps != [] {
      var n := |steps| - 1;
      FetchesAddUp(run[..n+1], steps[..n]);
      assert run[..n+1][n] == run[n];
      assert Enabled(run[n], steps[n]) && run[n+1] == Next(run[n], steps[n]);
      FetchAdds(run[n], steps[n]);
    }
  }

  lemma FetchAdds(s: State, step: Step)
    requires Enabled(s, step) && (step.Arrive? || step.Fetch?)
    ensures var t := Next(s, step);
            |t.queued| >= |s.queued| && t.samples == s.samples + 960 * (|t.queued| - |s.queued|)
  {}

  /** The pass begun by `Measure` in `s`, when less than 200 ms are left. */
  ghost predicate Starved(s: State) {
    s.pc.Sampled? && Ms(s.samples) < 200 && s.pc.dataLeft + Ms(s.samples) != 0
  }

  /** A pass that finds less than 200 ms left queues, whatever arrives and is played meanwhile, as many slices of 10 ms
      as are missing to more than 200 ms, or all that are ready.  If nothing is played meanwhile, more than 200 ms and
      at most 210 ms are left at its end unless nothing is ready. */
  lemma PassFills(s: State, run: seq<State>, steps: seq<Step>)
    requires Inv(s) && Starved(s)
    requires Fetching(run, steps) && run[0] == Next(s, Measure) && !run[|steps|].pc.Filling?
    ensures var t := run[|steps|];
            && t.pc == Top && t.active
            && (t.ready == [] || |t.queued| - |s.queued| == (210 - Ms(s.samples)) / 10)
            && (NoPlay(steps) ==> t.ready == [] || 200 < Ms(t.samples) <= 210)
  {
    var q := Ms(s.samples);
    StepKeeps(s, Measure);
    FetchesAll(run, steps);
    var t := run[|steps|];
    StaysActive(run, steps);
    if NoPlay(steps) && t.ready != [] {
      FetchesAddUp(run, steps);
      MsIsTime(s.samples);
      MsIsTime(t.samples);
      assert t.samples == s.samples + 960 * ((210 - q) / 10);
      FilledUp(s.samples, q);
    }
  }

  lemma FilledUp(samples: nat, q: nat)
    requires q == samples / 96 < 200
    ensures 200 < (samples + 960 * ((210 - q) / 10)) / 96 <= 210
  {
    var n := (210 - q) / 10;
    assert (samples + 960 * n) / 96 == samples / 96 + 10 * n;
  }

  lemma {:induction false} StaysActive(run: seq<State>, steps: seq<Step>)
    requires Fetching(run, steps)
    ensures run[|steps|].active == run[0].active
    decreases |steps|
  {
    hide Ms;
    if steps != [] {
      var n := |steps| - 1;
      StaysActive(run[..n+1], steps[..n]);
      assert run[..n+1][n] == run[n];
      assert Enabled(run[n], steps[n]) && run[n+1] == Next(run[n], steps[n]);
    }
  }

  /** The thread can always go on. */
  lemma ThreadGoesOn(s: State)
    ensures Enabled(s, Poll) || Enabled(s, SampleData) || Enabled(s, Measure) || Enabled(s, Fetch)
  {}

  /** The thread becomes active exactly when it looks while inactive and finds more than ten slices ready, and inactive
      exactly when it had counted no slice and then finds nothing left to play. */
  lemma ActivityChanges(s: State, step: Step)
    requires Inv(s) && Enabled(s, step)
    ensures !s.active && Next(s, step).active <==> step == Poll && |s.ready| > 10
    ensures s.active && !Next(s, step).active <==> step == Measure && s.pc.dataLeft == 0 && Ms(s.samples) == 0
  {
    hide Ms;
  }

  /** The last count of the ready slices in front of step `n`. */
  ghost predicate CountedAt(run: seq<State>, steps: seq<Step>, m: nat, n: nat)
    requires n < |run| == |steps| + 1
  {
    && m < n && steps[m] == SampleData
    && run[n].pc == Sampled(10 * |run[m].ready|)
    && forall i :: m < i < n ==> steps[i].Arrive? || steps[i].Play?
  }

  lemma {:induction false} CountStands(run: seq<State>, steps: seq<Step>, n: nat) returns (m: nat)
    requires IsRun(run, steps) && n < |run| && run[n].pc.Sampled?
    ensures CountedAt(run, steps, m, n)
  {
    hide Ms;
    assert n > 0;
    assert Enabled(run[n-1], steps[n-1]) && run[n] == Next(run[n-1], steps[n-1]);
    if steps[n-1] == SampleData {
      m := n - 1;
    } else {
      m := CountStands(run, steps, n - 1);
    }
  }

  /** In every run the thread becomes inactive only at a measurement of 0 ms behind a count of no ready slices. */
  lemma GoesIdle(run: seq<State>, steps: seq<Step>, n: nat) returns (m: nat)
    requires IsRun(run, steps) && n < |steps| && run[n].active && !run[n+1].active
    ensures steps[n] == Measure && run[n].samples < 96
    ensures CountedAt(run, steps, m, n) && run[m].ready == []
  {
    BacklogBounded(run, steps, n);
    assert Enabled(run[n], steps[n]) && run[n+1] == Next(run[n], steps[n]);
    ActivityChanges(run[n], steps[n]);
    MsIsTime(run[n].samples);
    m := CountStands(run, steps, n);
  }

  // ---------- the buffers held by the thread ----------

  /** A buffer header: the buffer it describes and its size. */
  datatype Header = Header(buffer: nat, allocLen: nat)

  /** What the search of the user list stops at: the buffer itself or any buffer large enough. */
  predicate Stops(h: Header, buffer: nat, length: nat) { h.buffer == buffer || h.allocLen >= length }

  function FirstStop(s: seq<Header>, buffer: nat, length: nat): (k: nat)
    ensures k <= |s|
    ensures forall j :: 0 <= j < k ==> !Stops(s[j], buffer, length)
    ensures k < |s| ==> Stops(s[k], buffer, length)
  {
    if s == [] || Stops(s[0], buffer, length) then 0 else 1 + FirstStop(s[1..], buffer, length)
  }

  lemma FirstStopIs(s: seq<Header>, buffer: nat, length: nat, k: nat)
    requires k <= |s| && (k < |s| ==> Stops(s[k], buffer, length))
    requires forall j :: 0 <= j < k ==> !Stops(s[j], buffer, length)
    ensures FirstStop(s, buffer, length) == k
  {}

  /** The search finds the header of the buffer to be played exactly when every header taken later is too
      small; with the program's equal buffer sizes, exactly when it was the last one taken. */
  lemma RightHeader(s: seq<Header>, buffer: nat, length: nat, at: nat)
    requires at < |s| && s[at].buffer == buffer && forall i :: 0 <= i < |s| && i != at ==> s[i].buffer != buffer
    ensures FirstStop(s, buffer, length) == at <==> forall i :: 0 <= i < at ==> s[i].allocLen < length
    ensures (forall i :: 0 <= i < |s| ==> s[i].allocLen == length) ==> (FirstStop(s, buffer, length) == at <==> at == 0)
  {
    var k := FirstStop(s, buffer, length);
    assert k <= at;
    if at > 0 && s[0].allocLen == length {
      assert Stops(s[0], buffer, length);
    }
  }

  /** Two buffers of the program's size in use: playing the one taken first plays the other. */
  lemma WrongHeader()
    ensures FirstStop([Header(2, BUFFER_SIZE), Header(1, BUFFER_SIZE)], 1, BUFFER_SIZE) == 0
  {}

  class UserList {
    var head: Node?<Header>
    ghost var nodes: seq<Node<Header>>
    /** The buffers handed to the renderer, each with its filled length. */
    ghost var sent: seq<(nat, nat)>

    ghost predicate Valid()
      reads this, nodes
    {
      Chain(head, nodes)
    }

    constructor ()
      ensures Valid() && nodes == [] && sent == []
    {
      head, nodes, sent := null, [], [];
    }

    /** A buffer obtained from the component, if any, goes to the front of the list. */
    method GetBuffer(hdr: Node?<Header>) returns (buffer: Option<nat>)
      requires Valid() && (hdr != null ==> hdr !in nodes)
      modifies this, (if hdr == null then {} else {hdr})`next
      ensures Valid() && sent == old(sent)
      ensures hdr == null ==> buffer == None && nodes == old(nodes)
      ensures hdr != null ==> buffer == Some(hdr.data.buffer) && nodes == [hdr] + old(nodes)
    {
      if hdr == null {
        return None;
      }
      Push(head, hdr, nodes);
      head, nodes := hdr, [hdr] + nodes;
      return Some(hdr.data.buffer);
    }

    /** Takes the header found by the search off the list and hands it to the renderer with `length` bytes filled;
        null is the error return. */
    method PlayBuffer(buffer: nat, length: nat) returns (hdr: Node?<Header>)
      requires Valid()
      modifies this, nodes`next
      ensures Valid()
      ensures var k := FirstStop(old(Data(nodes)), buffer, length);
              if length % BYTES_PER_SAMPLE != 0 || k == |old(nodes)| then
                hdr == null && nodes == old(nodes) && sent == old(sent)
              else
                && hdr == old(nodes)[k] && hdr.next == null && nodes == Without(old(nodes), k)
                && sent == old(sent) + [(hdr.data.buffer, length)]
    {
      hdr := null;
      if length % BYTES_PER_SAMPLE != 0 {
        return;
      }
      ghost var s := Data(nodes);
      ghost var k: nat := 0;
      var prev: Node?<Header> := null;
      hdr := head;
      while hdr != null && hdr.data.buffer != buffer && hdr.data.allocLen < length
        invariant k <= |nodes| && hdr == At(nodes, k) && prev == if k == 0 then null else nodes[k-1]
        invariant forall j :: 0 <= j < k ==> !Stops(s[j], buffer, length)
        decreases |nodes| - k
      {
        prev, hdr, k := hdr, hdr.next, k + 1;
      }
      FirstStopIs(s, buffer, length, k);
      if hdr != null {
        assert hdr !in Without(nodes, k);
        head := Unlink(head, prev, hdr, nodes, k);
        nodes := Without(nodes, k);
        hdr.next := null;
        sent := sent + [(hdr.data.buffer, length)];
      }
    }
  }
}
