/** The audio decoder thread: collects the packets of an LPCM slice by RTP sequence number until their
    counted payload reaches the length announced at the start of the slice. */
module AudioDecoder {
  import opened Clocks
  import opened TsPacket
  import opened Options
  import opened Sequences
  import opened Words

  const SEQ: nat := 0x1_0000

  /** PES header and LPCM header in front of the samples. */
  const AUDIO_HDR: nat := 20
  const LPCM_BYTES: nat := 1920
  /** What a length field of 0 becomes in 32 bits. */
  const OPEN_PES: nat := WORD - 14
  /** Transport stream packets that fit a datagram of 1472 bytes. */
  const MAX_TS: nat := 7

  predicate IsAudio(t: Ts) { t.pid == AUDIO_PID }

  predicate IsAudioStart(t: Ts) { IsAudio(t) && t.pusi }

  /** What the stages assert of an audio packet: a payload is present, and the headers fit. */
  predicate AudioOk(t: Ts) {
    && |t.payload| == TS_PAYLOAD
    && (IsAudio(t) ==>
          && (t.afc == 1 || t.afc == 3)
          && (t.afc == 3 ==> 1 + (t.payload[0] as nat) + (if t.pusi then AUDIO_HDR else 0) <= TS_PAYLOAD))
  }

  predicate AudioPacket(p: Packet) {
    && 0 < |p.ts| <= MAX_TS && p.seqNum < SEQ
    && forall i :: 0 <= i < |p.ts| ==> AudioOk(p.ts[i])
  }

  predicate AudioPackets(ps: seq<Packet>) {
    forall i :: 0 <= i < |ps| ==> AudioPacket(ps[i])
  }

  /** Position of the first slice start at or after `i`, or the number of packets. */
  function FirstAudioStart(ts: seq<Ts>, i: nat): (k: nat)
    requires i <= |ts|
    ensures i <= k <= |ts|
    ensures k < |ts| ==> IsAudioStart(ts[k])
    decreases |ts| - i
  {
    if i == |ts| || IsAudioStart(ts[i]) then i else FirstAudioStart(ts, i + 1)
  }

  predicate HasAudioStart(p: Packet) { FirstAudioStart(p.ts, 0) < |p.ts| }

  /** The length field of the PES header, read from the start of the payload and less 14 bytes of header,
      in 32 bits. */
  function PesLen(payload: seq<Byte>): nat
    requires |payload| == TS_PAYLOAD
  {
    (Short(payload[4], payload[5]) + WORD - 14) % WORD
  }

  function StartLen(p: Packet): nat
    requires AudioPacket(p) && HasAudioStart(p)
  {
    PesLen(p.ts[FirstAudioStart(p.ts, 0)].payload)
  }

  /** The payload bytes this thread counts for one transport stream packet: an adaptation field in front
      of a slice start is not taken off. */
  function Counted(t: Ts): (n: nat)
    requires AudioOk(t)
    ensures n <= TS_PAYLOAD
  {
    if !IsAudio(t) then 0
    else if t.pusi then TS_PAYLOAD - AUDIO_HDR
    else if t.afc == 1 then TS_PAYLOAD
    else TS_PAYLOAD - 1 - (t.payload[0] as nat)
  }

  function CountedTs(ts: seq<Ts>): (n: nat)
    requires forall i :: 0 <= i < |ts| ==> AudioOk(ts[i])
    ensures n <= TS_PAYLOAD * |ts|
  {
    if ts == [] then 0 else CountedTs(ts[..|ts|-1]) + Counted(ts[|ts|-1])
  }

  function CountedAll(ps: seq<Packet>): (n: nat)
    requires AudioPackets(ps)
    ensures n <= TS_PAYLOAD * MAX_TS * |ps|
  {
    if ps == [] then 0
    else
      assert AudioPacket(ps[|ps|-1]);
      CountedAll(ps[..|ps|-1]) + CountedTs(ps[|ps|-1].ts)
  }

  // ---------- the state machine ----------

  datatype Decoder = Decoder(
    looking: bool, continuing: bool, pesLen: nat, curBytes: nat, lastSeq: nat, chain: seq<Packet>,
    emitted: seq<seq<Packet>>)

  const START := Decoder(true, false, 0, 0, 0, [], [])

  /** A slice start while looking for one; None when the announced length fails the assertion. */
  function Begin(d: Decoder, p: Packet): Option<Decoder>
    requires AudioPacket(p)
  {
    if !d.looking || !HasAudioStart(p) then Some(d)
    else if StartLen(p) != LPCM_BYTES && StartLen(p) != OPEN_PES then None
    else Some(d.(looking := false, continuing := true, pesLen := StartLen(p), curBytes := 0,
                 lastSeq := (p.seqNum + WORD - 1) % WORD))
  }

  /** Adds a packet to the current slice, if there is one; None when more bytes are counted than announced. */
  function Continue(d: Decoder, p: Packet): Option<Decoder>
    requires AudioPacket(p)
  {
    var cur := (d.curBytes + CountedTs(p.ts)) % WORD;
    if !d.continuing then Some(d)
    else if p.seqNum != (d.lastSeq + 1) % WORD then
      Some(d.(continuing := false, looking := true, chain := []))
    else if cur > d.pesLen then None
    else if cur == d.pesLen then
      Some(d.(lastSeq := p.seqNum, curBytes := cur, continuing := false, looking := true, chain := [],
              emitted := d.emitted + [d.chain + [p]]))
    else
      Some(d.(lastSeq := p.seqNum, curBytes := cur, chain := d.chain + [p]))
  }

  /** One packet through the thread's loop body; None when an assertion fails. */
  function Step(d: Decoder, p: Packet): Option<Decoder>
    requires AudioPacket(p)
  {
    var b := Begin(d, p);
    if b.None? then None else Continue(b.value, p)
  }

  function Decode(d: Decoder, ps: seq<Packet>): Option<Decoder>
    requires AudioPackets(ps)
  {
    if ps == [] then Some(d)
    else
      var before := Decode(d, ps[..|ps|-1]);
      if before.None? then None else Step(before.value, ps[|ps|-1])
  }

  // ---------- what is emitted ----------

  /** Sequence numbers that count up by one without wrapping around. */
  ghost predicate Consecutive(c: seq<Packet>) {
    forall i :: 0 <= i < |c| ==> c[i].seqNum == c[0].seqNum + i
  }

  /** A chain under assembly: it begins with a slice start and misses nothing. */
  ghost predicate Collected(c: seq<Packet>, len: nat) {
    && c != [] && AudioPackets(c) && Consecutive(c)
    && HasAudioStart(c[0]) && StartLen(c[0]) == len
  }

  /** A complete LPCM slice. */
  ghost predicate Complete(c: seq<Packet>) {
    Collected(c, LPCM_BYTES) && CountedAll(c) == LPCM_BYTES
  }

  /** The positions in the stream of the packets of a slice. */
  datatype Span = Span(first: nat, end: nat)

  /** The slice emitted while packet `n` is processed. */
  ghost function SpanOf(d: Option<Decoder>, p: Packet, n: nat): seq<Span>
    requires AudioPacket(p)
  {
    if d.Some? && Step(d.value, p).Some? && |Step(d.value, p).value.emitted| > |d.value.emitted| && |d.value.chain| <= n
    then [Span(n - |d.value.chain|, n + 1)] else []
  }

  /** Where the slices emitted so far came from. */
  ghost function Spans(ps: seq<Packet>): seq<Span>
    requires AudioPackets(ps)
  {
    if ps == [] then []
    else
      var n := |ps| - 1;
      Spans(ps[..n]) + SpanOf(Decode(START, ps[..n]), ps[n], n)
  }

  ghost function SpansEnd(spans: seq<Span>): nat {
    if spans == [] then 0 else spans[|spans|-1].end
  }

  /** `c` is a complete slice and stands at `span` in the stream. */
  ghost predicate SpanOk(c: seq<Packet>, span: Span, ps: seq<Packet>) {
    span.first < span.end <= |ps| && c == ps[span.first..span.end] && Complete(c)
  }

  ghost predicate SpansOk(emitted: seq<seq<Packet>>, spans: seq<Span>, ps: seq<Packet>) {
    && |spans| == |emitted|
    && (forall i :: 0 <= i < |spans| ==> SpanOk(emitted[i], spans[i], ps))
    && (forall i {:trigger spans[i+1]} :: 0 <= i < |spans| - 1 ==> spans[i].end <= spans[i+1].first)
  }

  /** What holds between any two packets. */
  ghost predicate Inv(d: Decoder) {
    && d.looking == !d.continuing && d.looking == (d.chain == [])
    && (d.continuing ==>
          && Collected(d.chain, d.pesLen) && (d.pesLen == LPCM_BYTES || d.pesLen == OPEN_PES)
          && d.lastSeq == d.chain[|d.chain|-1].seqNum
          && d.curBytes == CountedAll(d.chain) < d.pesLen)
  }

  ghost predicate Suffix(c: seq<Packet>, ps: seq<Packet>) {
    |c| <= |ps| && c == ps[|ps|-|c|..]
  }

  lemma CountedAppend(c: seq<Packet>, p: Packet)
    requires AudioPackets(c) && AudioPacket(p)
    ensures AudioPackets(c + [p]) && CountedAll(c + [p]) == CountedAll(c) + CountedTs(p.ts)
  {
    hide AudioPacket, CountedTs;
    assert (c + [p])[..|c|] == c;
  }

  lemma NothingCounted()
    ensures CountedAll([]) == 0
  {}

  lemma SeqNumRange(p: Packet)
    requires AudioPacket(p)
    ensures p.seqNum < SEQ
  {}

  /** The packets of a chain carry different 16-bit sequence numbers in increasing order, so the count stays
      far below 2^32 and a slice that announces length 0 never completes. */
  lemma ChainIsShort(c: seq<Packet>)
    requires c != [] && AudioPackets(c) && Consecutive(c)
    ensures c[|c|-1].seqNum < SEQ && |c| <= SEQ && CountedAll(c) < OPEN_PES
  {
    hide AudioPacket, CountedAll;
    SeqNumRange(c[|c|-1]);
    assert c[|c|-1].seqNum == c[0].seqNum + (|c| - 1);
  }

  lemma CollectedAppend(c: seq<Packet>, len: nat, p: Packet)
    requires Collected(c, len) && AudioPacket(p) && p.seqNum == c[|c|-1].seqNum + 1
    ensures Collected(c + [p], len)
  {
    hide HasAudioStart, AudioPacket, StartLen;
    assert c[|c|-1].seqNum == c[0].seqNum + (|c| - 1);
    assert (c + [p])[0] == c[0];
  }

  /** Taking one more packet into a chain: the slice is complete, or the chain goes on. */
  lemma ContinueKeeps(d: Decoder, p: Packet)
    requires AudioPackets(d.chain) && AudioPacket(p) && d.continuing && !d.looking
    requires d.pesLen == LPCM_BYTES || d.pesLen == OPEN_PES
    requires p.seqNum == (d.lastSeq + 1) % WORD
    requires Collected(d.chain + [p], d.pesLen) && d.curBytes == CountedAll(d.chain)
    ensures var c, s := d.chain + [p], Continue(d, p);
            s.Some? ==>
              || (&& s.value == d.(lastSeq := p.seqNum, curBytes := CountedAll(c), chain := c)
                  && CountedAll(c) < d.pesLen)
              || (&& s.value.looking && !s.value.continuing && s.value.chain == []
                  && s.value.emitted == d.emitted + [c] && Complete(c))
  {
    hide HasAudioStart, AudioPacket, StartLen, CountedTs, CountedAll, Consecutive;
    CountedAppend(d.chain, p);
    ChainIsShort(d.chain + [p]);
  }

  /** What a step does to the chain and the emitted slices. */
  ghost predicate Moves(d: Decoder, p: Packet, d': Decoder) {
    || (d'.emitted == d.emitted && (d'.chain == [] || d'.chain == d.chain + [p]))
    || (d'.emitted == d.emitted + [d.chain + [p]] && Complete(d.chain + [p]) && d'.chain == [])
  }

  lemma StepKeeps(d: Decoder, p: Packet)
    requires AudioPacket(p) && Inv(d)
    ensures var s := Step(d, p);
            s.Some? ==> Inv(s.value) && Moves(d, p, s.value)
  {
    hide HasAudioStart, AudioPacket, StartLen, CountedTs, CountedAll;
    if d.looking {
      if HasAudioStart(p) {
        var b := Begin(d, p);
        if b.Some? {
          SeqNumRange(p);
          assert [] + [p] == [p];
          NothingCounted();
          ContinueKeeps(b.value, p);
        }
      }
    } else if p.seqNum == (d.lastSeq + 1) % WORD {
      ChainIsShort(d.chain);
      CollectedAppend(d.chain, d.pesLen, p);
      ContinueKeeps(d, p);
    }
  }

  /** Every emitted slice is a run of received packets that begins with a slice start announcing exactly
      1920 bytes, has strictly consecutive sequence numbers, and counts exactly 1920 payload bytes; the runs
      of different slices do not overlap and keep their order. */
  lemma {:induction false} EmittedAreComplete(ps: seq<Packet>)
    requires AudioPackets(ps) && Decode(START, ps).Some?
    ensures var d := Decode(START, ps).value;
            && Inv(d) && Suffix(d.chain, ps)
            && SpansOk(d.emitted, Spans(ps), ps) && SpansEnd(Spans(ps)) <= |ps| - |d.chain|
  {
    hide Step, Inv, SpansOk, AudioPacket, Moves;
    if ps == [] {
      NothingYet();
    } else {
      var before, p := ps[..|ps|-1], ps[|ps|-1];
      EmittedAreComplete(before);
      assert Decode(START, before).Some? && Decode(START, ps) == Step(Decode(START, before).value, p);
      var d := Decode(START, before).value;
      StepKeeps(d, p);
      assert Suffix(d.chain, before);
      SpansUnfold(ps);
      SpanOfStep(d, p, Step(d, p).value, |ps| - 1, Spans(before));
      hide Spans, SpansEnd, Suffix, Decode;
      SpansKept(ps, d, Step(d, p).value, Spans(before), Spans(ps));
    }
  }

  lemma NothingYet()
    ensures Inv(START) && SpansOk(START.emitted, Spans([]), [])
  {}

  lemma SpansLonger(emitted: seq<seq<Packet>>, spans: seq<Span>, ps: seq<Packet>)
    requires ps != [] && SpansOk(emitted, spans, ps[..|ps|-1])
    ensures SpansOk(emitted, spans, ps)
  {
    hide Complete;
    var before := ps[..|ps|-1];
    forall i | 0 <= i < |spans| ensures SpanOk(emitted[i], spans[i], ps) {
      assert SpanOk(emitted[i], spans[i], before);
      assert ps[spans[i].first..spans[i].end] == before[spans[i].first..spans[i].end];
    }
  }

  lemma SpansPlus(emitted: seq<seq<Packet>>, spans: seq<Span>, ps: seq<Packet>, first: nat, c: seq<Packet>)
    requires SpansOk(emitted, spans, ps) && SpansEnd(spans) <= first < |ps| && c == ps[first..] && Complete(c)
    ensures SpansOk(emitted + [c], spans + [Span(first, |ps|)], ps)
  {
    hide Complete;
  }

  lemma SpanOfStep(d: Decoder, p: Packet, d': Decoder, n: nat, spans: seq<Span>)
    requires AudioPacket(p) && Step(d, p) == Some(d') && |d.chain| <= n
    ensures spans + SpanOf(Some(d), p, n) ==
            if |d'.emitted| > |d.emitted| then spans + [Span(n - |d.chain|, n + 1)] else spans
  {
    hide AudioPacket, Step;
  }

  lemma SpansUnfold(ps: seq<Packet>)
    requires ps != [] && AudioPackets(ps)
    ensures Spans(ps) == Spans(ps[..|ps|-1]) + SpanOf(Decode(START, ps[..|ps|-1]), ps[|ps|-1], |ps| - 1)
  {
    hide AudioPacket, Step, Decode, SpanOf;
  }

  lemma SpansKept(ps: seq<Packet>, d: Decoder, d': Decoder, spans: seq<Span>, spans': seq<Span>)
    requires ps != [] && Suffix(d.chain, ps[..|ps|-1]) && Moves(d, ps[|ps|-1], d')
    requires SpansOk(d.emitted, spans, ps[..|ps|-1]) && SpansEnd(spans) <= |ps| - 1 - |d.chain|
    requires spans' == if |d'.emitted| > |d.emitted| then spans + [Span(|ps| - 1 - |d.chain|, |ps|)] else spans
    ensures Suffix(d'.chain, ps) && SpansOk(d'.emitted, spans', ps) && SpansEnd(spans') <= |ps| - |d'.chain|
  {
    hide Complete, SpansOk;
    var n := |ps| - 1;
    SpansLonger(d.emitted, spans, ps);
    SuffixGrows(d.chain, ps);
    if |d'.emitted| > |d.emitted| {
      SpansPlus(d.emitted, spans, ps, n - |d.chain|, d.chain + [ps[n]]);
    }
  }

  lemma SuffixGrows(c: seq<Packet>, ps: seq<Packet>)
    requires ps != [] && Suffix(c, ps[..|ps|-1])
    ensures Suffix(c + [ps[|ps|-1]], ps) && Suffix([], ps)
  {}

  // ---------- what is not lost ----------

  /** A slice as the source sends it: no proper beginning of it already counts 1920 bytes. */
  ghost predicate Sendable(c: seq<Packet>) {
    Complete(c) && forall k :: 0 <= k < |c| ==> CountedAll(c[..k]) < LPCM_BYTES
  }

  /** Nothing collected, looking for a slice. */
  predicate Ready(d: Decoder) { d.looking && !d.continuing && d.chain == [] }

  /** The slice `c` has been collected up to packet `k`. */
  ghost function Collecting(d: Decoder, c: seq<Packet>, k: nat): Decoder
    requires AudioPackets(c) && 0 < k <= |c|
  {
    d.(looking := false, continuing := true, pesLen := LPCM_BYTES, curBytes := CountedAll(c[..k]),
       lastSeq := c[k-1].seqNum, chain := c[..k])
  }

  lemma FirstCollected(d: Decoder, c: seq<Packet>)
    requires Ready(d) && Sendable(c)
    ensures var b := Begin(d, c[0]);
            && b.Some? && b.value.continuing && !b.value.looking && b.value.chain == []
            && b.value.pesLen == LPCM_BYTES && b.value.curBytes == 0 && b.value.emitted == d.emitted
            && (b.value.lastSeq + 1) % WORD == c[0].seqNum
            && Step(d, c[0]) == Some(Collecting(d, c, 1))
  {
    hide HasAudioStart, AudioPacket, StartLen, CountedTs, CountedAll;
    SendablePackets(c);
    SeqNumRange(c[0]);
    NothingCounted();
    CountedAppend([], c[0]);
    assert c[..1] == [c[0]] == [] + [c[0]];
  }

  lemma NextCollected(d: Decoder, c: seq<Packet>, k: nat)
    requires Sendable(c) && 0 < k < |c|
    ensures k + 1 < |c| ==> Step(Collecting(d, c, k), c[k]) == Some(Collecting(d, c, k + 1))
    ensures k + 1 == |c| ==>
      var s := Step(Collecting(d, c, k), c[k]);
      s.Some? && Ready(s.value) && s.value.emitted == d.emitted + [c]
  {
    hide HasAudioStart, AudioPacket, StartLen, CountedTs, CountedAll;
    SeqNumRange(c[k]);
    assert c[k-1].seqNum == c[0].seqNum + (k - 1);
    CountedAppend(c[..k], c[k]);
    assert c[..k+1] == c[..k] + [c[k]];
    assert k + 1 == |c| ==> c[..k+1] == c;
  }

  lemma {:induction false} CollectedUpTo(d: Decoder, c: seq<Packet>, k: nat)
    requires Ready(d) && Sendable(c) && 0 < k < |c|
    ensures AudioPackets(c[..k]) && Decode(d, c[..k]) == Some(Collecting(d, c, k))
  {
    hide Step, Sendable, AudioPacket, CountedAll, Collecting;
    SendablePackets(c);
    assert c[..k][..k-1] == c[..k-1];
    if k == 1 {
      FirstCollected(d, c);
    } else {
      CollectedUpTo(d, c, k - 1);
      NextCollected(d, c, k - 1);
    }
  }

  lemma SendablePackets(c: seq<Packet>)
    requires Sendable(c)
    ensures AudioPackets(c) && |c| > 1
  {
    assert CountedAll(c) <= TS_PAYLOAD * MAX_TS * |c|;
  }

  lemma ReadyEmits(d: Decoder, c: seq<Packet>)
    requires Ready(d) && Sendable(c)
    ensures AudioPackets(c) && Decode(d, c).Some?
    ensures Ready(Decode(d, c).value) && Decode(d, c).value.emitted == d.emitted + [c]
  {
    hide Sendable, AudioPacket, CountedAll, Collecting;
    SendablePackets(c);
    hide Step;
    var k := |c| - 1;
    CollectedUpTo(d, c, k);
    NextCollected(d, c, k);
  }

  /** Feeding `ps` to the decoder makes it emit `c`. */
  ghost predicate Delivers(d: Decoder, ps: seq<Packet>, c: seq<Packet>)
    requires AudioPackets(ps)
  {
    && Decode(d, ps).Some?
    && exists i :: |d.emitted| <= i < |Decode(d, ps).value.emitted| && Decode(d, ps).value.emitted[i] == c
  }

  /** A slice emitted by packet `k` of `c` at the latest, when chain `a` has been collected before: it goes on from
      `a`, or it began behind the first packet of `c`. */
  ghost predicate Behind(x: seq<Packet>, a: seq<Packet>, c: seq<Packet>, k: nat)
    requires k <= |c|
  {
    |x| < k || (|a| < |x| <= |a| + k && x == a + c[..|x|-|a|])
  }

  lemma BehindGrows(x: seq<Packet>, a: seq<Packet>, c: seq<Packet>, k: nat)
    requires k < |c|
    ensures x == a + c[..k] ==> x + [c[k]] == a + c[..k+1]
    ensures |x| < k || x == a + c[..k] ==> Behind(x + [c[k]], a, c, k + 1)
  {
    assert c[..k+1] == c[..k] + [c[k]];
    Assoc(a, c[..k], [c[k]]);
  }

  lemma MovesBehind(d: Decoder, c: seq<Packet>, k: nat, r: Decoder, r': Decoder)
    requires k < |c| && |d.emitted| <= |r.emitted| && Moves(r, c[k], r')
    requires |r.chain| < k || r.chain == d.chain + c[..k]
    requires forall i :: |d.emitted| <= i < |r.emitted| ==> Behind(r.emitted[i], d.chain, c, k)
    ensures |d.emitted| <= |r'.emitted|
    ensures |r'.chain| < k + 1 || r'.chain == d.chain + c[..k+1]
    ensures forall i :: |d.emitted| <= i < |r'.emitted| ==> Behind(r'.emitted[i], d.chain, c, k + 1)
  {
    hide Complete;
    BehindGrows(r.chain, d.chain, c, k);
  }

  /** What a decoder that is in the middle of a slice makes of the packets of `c`. */
  lemma {:induction false} CollectedBehind(d: Decoder, c: seq<Packet>, k: nat)
    requires Inv(d) && AudioPackets(c) && k <= |c| && Decode(d, c[..k]).Some?
    ensures var r := Decode(d, c[..k]).value;
            && Inv(r) && |d.emitted| <= |r.emitted|
            && (|r.chain| < k || r.chain == d.chain + c[..k])
            && forall i :: |d.emitted| <= i < |r.emitted| ==> Behind(r.emitted[i], d.chain, c, k)
  {
    hide Step, Inv, AudioPacket, Moves, Behind;
    if k == 0 {
      assert c[..0] == [] && d.chain + [] == d.chain;
    } else {
      assert c[..k][..k-1] == c[..k-1] && c[..k][k-1] == c[k-1];
      CollectedBehind(d, c, k - 1);
      var r, p := Decode(d, c[..k-1]).value, c[k-1];
      StepKeeps(r, p);
      MovesBehind(d, c, k - 1, r, Step(r, p).value);
    }
  }

  lemma NotBehind(a: seq<Packet>, c: seq<Packet>)
    requires a != [] && Consecutive(c)
    ensures !Behind(c, a, c, |c|)
  {
    var x := if |a| < |c| then a + c[..|c|-|a|] else [];
    assert |a| < |c| ==> x[|a|] == c[0] && c[|a|].seqNum != c[0].seqNum;
  }

  lemma CollectingMissesSlice(d: Decoder, c: seq<Packet>)
    requires Inv(d) && !Ready(d) && Sendable(c)
    ensures AudioPackets(c) && !Delivers(d, c, c)
  {
    SendablePackets(c);
    if Delivers(d, c, c) {
      hide Inv, Step, AudioPacket, CountedAll, HasAudioStart, StartLen;
      assert d.chain != [] by { NotReady(d); }
      assert c[..|c|] == c;
      CollectedBehind(d, c, |c|);
      NotBehind(d.chain, c);
    }
  }

  lemma NotReady(d: Decoder)
    requires Inv(d) && !Ready(d)
    ensures d.chain != []
  {}

  /** The packets of a slice that arrive without loss make the thread emit it exactly when it is looking for a
      slice.  While it still collects an earlier slice that has lost its end, the slice is lost with it. */
  lemma CompleteIsEmitted(d: Decoder, c: seq<Packet>)
    requires Inv(d) && Sendable(c)
    ensures AudioPackets(c)
    ensures Delivers(d, c, c) <==> Ready(d)
    ensures Ready(d) ==>
      Decode(d, c).Some? && Ready(Decode(d, c).value) && Decode(d, c).value.emitted == d.emitted + [c]
  {
    hide Sendable, AudioPacket, Step, Decode, Inv;
    if Ready(d) {
      ReadyEmits(d, c);
      assert Decode(d, c).value.emitted[|d.emitted|] == c;
    } else {
      CollectingMissesSlice(d, c);
    }
  }

  /** Whatever is emitted from any state on is complete. */
  lemma {:induction false} NewAreComplete(d: Decoder, ps: seq<Packet>)
    requires Inv(d) && AudioPackets(ps) && Decode(d, ps).Some?
    ensures var r := Decode(d, ps).value;
            && Inv(r) && |d.emitted| <= |r.emitted|
            && forall i :: |d.emitted| <= i < |r.emitted| ==> Complete(r.emitted[i])
  {
    hide Step, Inv, AudioPacket, Complete;
    if ps != [] {
      NewAreComplete(d, ps[..|ps|-1]);
      StepKeeps(Decode(d, ps[..|ps|-1]).value, ps[|ps|-1]);
    }
  }

  lemma {:induction false} DecodeJoin(d: Decoder, a: seq<Packet>, b: seq<Packet>)
    requires AudioPackets(a) && AudioPackets(b)
    ensures AudioPackets(a + b)
    ensures Decode(d, a + b) == if Decode(d, a).None? then None else Decode(Decode(d, a).value, b)
  {
    hide AudioPacket, Step;
    if b == [] {
      assert a + b == a;
    } else {
      DecodeJoin(d, a, b[..|b|-1]);
      assert (a + b)[..|a|+|b|-1] == a + b[..|b|-1];
    }
  }

  function Join(slices: seq<seq<Packet>>): seq<Packet> {
    if slices == [] then [] else Join(slices[..|slices|-1]) + slices[|slices|-1]
  }

  /** A stream of whole slices that loses no packet comes out as exactly these slices. */
  lemma {:induction false} StreamIsDelivered(slices: seq<seq<Packet>>)
    requires forall i :: 0 <= i < |slices| ==> Sendable(slices[i])
    ensures AudioPackets(Join(slices)) && Decode(START, Join(slices)).Some?
    ensures Ready(Decode(START, Join(slices)).value) && Decode(START, Join(slices)).value.emitted == slices
  {
    hide AudioPacket, Step, Sendable;
    if slices != [] {
      var n := |slices| - 1;
      StreamIsDelivered(slices[..n]);
      hide Decode;
      SendablePackets(slices[n]);
      DecodeJoin(START, Join(slices[..n]), slices[n]);
      ReadyEmits(Decode(START, Join(slices[..n])).value, slices[n]);
      assert slices == slices[..n] + [slices[n]];
    }
  }

  /** The test for a loss is exact for 16-bit sequence numbers (RFC 3550, section 5.1) except at the
      wrap-around, where it drops a slice although nothing is missing. */
  lemma LossTest(d: Decoder, p: Packet)
    requires AudioPacket(p) && Inv(d) && d.continuing
    ensures Step(d, p) == Some(d.(continuing := false, looking := true, chain := []))
            <==> p.seqNum != (d.lastSeq + 1) % SEQ || d.lastSeq == SEQ - 1
  {
    hide HasAudioStart, AudioPacket, StartLen, CountedTs, CountedAll, Collected;
    ChainEnd(d);
    SeqNumRange(p);
    var s := Step(d, p);
    if p.seqNum == d.lastSeq + 1 && s.Some? && s.value.looking {
      assert |s.value.emitted| == |d.emitted| + 1;
    }
  }

  lemma ChainEnd(d: Decoder)
    requires Inv(d) && d.continuing
    ensures d.lastSeq < SEQ
  {
    ChainIsShort(d.chain);
  }

  // ---------- where the packets go ----------

  predicate Drops(d: Decoder, p: Packet) { d.continuing && p.seqNum != (d.lastSeq + 1) % WORD }

  predicate Skips(d: Decoder, p: Packet) { d.looking && !HasAudioStart(p) }

  /** The packets freed with the chains dropped. */
  function Freed(ps: seq<Packet>): seq<Packet>
    requires AudioPackets(ps)
  {
    if ps == [] || Decode(START, ps[..|ps|-1]).None? then []
    else
      var d, p := Decode(START, ps[..|ps|-1]).value, ps[|ps|-1];
      Freed(ps[..|ps|-1]) + if Drops(d, p) then d.chain else []
  }

  /** The packets that are neither kept nor freed: those skipped, and those that made a chain drop. */
  function Leaked(ps: seq<Packet>): seq<Packet>
    requires AudioPackets(ps)
  {
    if ps == [] || Decode(START, ps[..|ps|-1]).None? then []
    else
      var d, p := Decode(START, ps[..|ps|-1]).value, ps[|ps|-1];
      Leaked(ps[..|ps|-1]) + if Skips(d, p) || Drops(d, p) then [p] else []
  }

  /** Where the packets of decoder `d` are. */
  ghost function Held(d: Decoder, freed: seq<Packet>, leaked: seq<Packet>): multiset<Packet> {
    multiset(Join(d.emitted) + d.chain) + multiset(freed) + multiset(leaked)
  }

  /** What a step does with the packet. */
  lemma StepPlaces(d: Decoder, p: Packet)
    requires AudioPacket(p) && Inv(d) && Step(d, p).Some?
    ensures var e := Step(d, p).value;
            && (Skips(d, p) ==> e == d)
            && (Drops(d, p) ==> e.emitted == d.emitted && e.chain == [])
            && (!Skips(d, p) && !Drops(d, p) ==>
                  || (e.emitted == d.emitted && e.chain == d.chain + [p])
                  || (e.emitted == d.emitted + [d.chain + [p]] && e.chain == []))
  {
    hide HasAudioStart, AudioPacket, StartLen, CountedTs, CountedAll, Collected;
    SeqNumRange(p);
  }

  lemma KeptInOrder(emitted: seq<seq<Packet>>, chain: seq<Packet>, p: Packet)
    ensures Join(emitted + [chain + [p]]) + [] == (Join(emitted) + chain) + [p]
    ensures Join(emitted) + (chain + [p]) == (Join(emitted) + chain) + [p]
  {
    JoinAppend(emitted, chain + [p]);
    hide Join;
    Assoc(Join(emitted), chain, [p]);
  }

  lemma FreedMoves(all: seq<Packet>, chain: seq<Packet>, freed: seq<Packet>)
    ensures multiset(all + []) + multiset(freed + chain) == multiset(all + chain) + multiset(freed)
  {
    assert all + [] == all;
  }

  lemma StepConserves(d: Decoder, p: Packet, freed: seq<Packet>, leaked: seq<Packet>)
    requires AudioPacket(p) && Inv(d) && Step(d, p).Some?
    ensures Held(Step(d, p).value, freed + if Drops(d, p) then d.chain else [],
                 leaked + if Skips(d, p) || Drops(d, p) then [p] else [])
         == Held(d, freed, leaked) + multiset{p}
  {
    hide AudioPacket, Inv, Step, Skips, Drops, Join;
    StepPlaces(d, p);
    var e := Step(d, p).value;
    if Drops(d, p) {
      FreedMoves(Join(d.emitted), d.chain, freed);
    } else if Skips(d, p) {
      assert freed + [] == freed;
    } else {
      KeptInOrder(d.emitted, d.chain, p);
      assert freed + [] == freed && leaked + [] == leaked;
    }
  }

  lemma JoinAppend(slices: seq<seq<Packet>>, c: seq<Packet>)
    ensures Join(slices + [c]) == Join(slices) + c
  {
    assert (slices + [c])[..|slices|] == slices;
  }

  /** As long as no assertion fails, every packet taken from the audio queue is in exactly one place: in an emitted
      slice, in the chain, freed with a dropped chain, or leaked. */
  lemma {:induction false} PacketsConserved(ps: seq<Packet>)
    requires AudioPackets(ps) && Decode(START, ps).Some?
    ensures Inv(Decode(START, ps).value)
    ensures multiset(ps) == Held(Decode(START, ps).value, Freed(ps), Leaked(ps))
  {
    hide AudioPacket, Inv, Step, Skips, Drops, Held, Moves;
    if ps == [] {
      NothingHeld();
    } else {
      var before, p := ps[..|ps|-1], ps[|ps|-1];
      PacketsConserved(before);
      StepKeeps(Decode(START, before).value, p);
      StepConserves(Decode(START, before).value, p, Freed(before), Leaked(before));
      assert ps == before + [p];
    }
  }

  lemma NothingHeld()
    ensures Inv(START) && Held(START, [], []) == multiset{}
  {}

  // ---------- sample slices ----------

  function Zeros(n: nat): (s: seq<Byte>)
    ensures |s| == n
  {
    seq(n, _ => 0 as Byte)
  }

  /** The PES header of an LPCM slice of 1920 bytes, with a time stamp, and the LPCM header behind it. */
  const SAMPLE_HDR: seq<Byte> :=
    [0, 0, 1, 0xBD, 0x07, 0x8E, 0x80, 0x80, 0x07, 0x21, 0, 1, 0, 1, 0xFF, 0xFF, 0xA0, 6, 0, 9]

  /** An adaptation field of seven bytes behind its length, which carries a clock reference. */
  const SAMPLE_FIELD: seq<Byte> := [7, 0x10, 0, 0, 0x07, 0x8E, 0x7E, 0]

  /** The start of a slice, possibly with an adaptation field. */
  function SampleStart(stuffed: bool): (t: Ts)
    ensures AudioOk(t) && IsAudioStart(t) && t.afc == (if stuffed then 3 else 1) && (stuffed ==> t.payload[0] == 7)
    ensures PesLen(t.payload) == LPCM_BYTES && Counted(t) == TS_PAYLOAD - AUDIO_HDR
  {
    Ts(AUDIO_PID, true, if stuffed then 3 else 1, 0,
       if stuffed then SAMPLE_FIELD + SAMPLE_HDR + Zeros(156) else SAMPLE_HDR + Zeros(164))
  }

  /** A packet without slice start, with `fill` bytes of adaptation field behind the length byte, or none. */
  function SampleRest(fill: Byte): (t: Ts)
    requires (fill as nat) < TS_PAYLOAD
    ensures AudioOk(t) && IsAudio(t) && !t.pusi
    ensures Counted(t) == if fill == 0 then TS_PAYLOAD else TS_PAYLOAD - 1 - (fill as nat)
  {
    Ts(AUDIO_PID, false, if fill == 0 then 1 else 3, 0, [fill] + Zeros(183))
  }

  function SampleTs(first: Ts, n: nat): seq<Ts> { [first] + seq(n, _ => SampleRest(0)) }

  lemma {:induction false} SampleCounts(first: Ts, n: nat)
    requires AudioOk(first)
    ensures forall i :: 0 <= i < |SampleTs(first, n)| ==> AudioOk(SampleTs(first, n)[i])
    ensures CountedTs(SampleTs(first, n)) == Counted(first) + TS_PAYLOAD * n
  {
    hide Counted, SampleRest, AudioOk;
    var ts := SampleTs(first, n);
    if n == 0 {
      assert ts[..0] == [] && ts == [first];
    } else {
      SampleCounts(first, n - 1);
      assert ts[..n] == SampleTs(first, n - 1) && ts[n] == SampleRest(0);
    }
  }

  /** Two packets with 16-bit sequence numbers from `n` on. */
  function SampleSlice(n: nat, stuffed: bool): seq<Packet> {
    [Packet(n % SEQ, SampleTs(SampleStart(stuffed), 6)), Packet((n + 1) % SEQ, SampleTs(SampleRest(83), 3))]
  }

  lemma SampleIsAudio(n: nat, stuffed: bool)
    ensures var c := SampleSlice(n, stuffed);
            && AudioPackets(c) && HasAudioStart(c[0]) && StartLen(c[0]) == LPCM_BYTES
            && CountedTs(c[0].ts) == 1268 && CountedTs(c[1].ts) == 652
  {
    var c := SampleSlice(n, stuffed);
    SampleCounts(SampleStart(stuffed), 6);
    SampleCounts(SampleRest(83), 3);
    hide SampleStart, SampleRest, Counted, AudioOk, PesLen, CountedTs;
    assert c[0].ts[0] == SampleStart(stuffed);
    assert FirstAudioStart(c[0].ts, 0) == 0;
    assert AudioPacket(c[0]) && AudioPacket(c[1]);
  }

  /** Complete slices exist, with and without an adaptation field in front of their start. */
  lemma SampleIsSendable(n: nat, stuffed: bool)
    requires n + 1 < SEQ
    ensures Sendable(SampleSlice(n, stuffed))
  {
    var c := SampleSlice(n, stuffed);
    SampleIsAudio(n, stuffed);
    SampleCountsAll(n, stuffed);
    hide SampleSlice, HasAudioStart, AudioPacket, StartLen, CountedTs, CountedAll;
    assert c[0].seqNum == n && c[1].seqNum == n + 1 && |c| == 2 by {
      SampleNumbers(n, stuffed);
    }
  }

  lemma SampleNumbers(n: nat, stuffed: bool)
    ensures var c := SampleSlice(n, stuffed);
            |c| == 2 && c[0].seqNum == n % SEQ && c[1].seqNum == (n + 1) % SEQ
  {}

  lemma SampleCountsAll(n: nat, stuffed: bool)
    ensures var c := SampleSlice(n, stuffed);
            && |c| == 2 && AudioPackets(c)
            && CountedAll(c[..0]) == 0 && CountedAll(c[..1]) == 1268 && CountedAll(c) == 1920
  {
    SampleIsAudio(n, stuffed);
    SampleNumbers(n, stuffed);
    hide SampleSlice, AudioPacket, CountedTs;
    var c := SampleSlice(n, stuffed);
    CountedAppend([], c[0]);
    CountedAppend([c[0]], c[1]);
    assert c[..0] == [] && c[..1] == [] + [c[0]] == [c[0]] && c == [c[0]] + [c[1]];
  }

  lemma RestHasNoStart(n: nat, stuffed: bool)
    ensures !HasAudioStart(SampleSlice(n, stuffed)[1])
  {
    var ts := SampleTs(SampleRest(83), 3);
    assert forall i :: 0 <= i < |ts| ==> !ts[i].pusi;
  }

  lemma StartsSlice(p: Packet)
    requires AudioPacket(p) && HasAudioStart(p) && StartLen(p) == LPCM_BYTES && CountedTs(p.ts) < LPCM_BYTES
    ensures Step(START, p) == Some(Decoder(false, true, LPCM_BYTES, CountedTs(p.ts), p.seqNum, [p], []))
  {
    hide HasAudioStart, AudioPacket, StartLen, CountedTs;
    SeqNumRange(p);
    var b := Begin(START, p).value;
    assert b == Decoder(false, true, LPCM_BYTES, 0, (p.seqNum + WORD - 1) % WORD, [], []);
    assert (b.lastSeq + 1) % WORD == p.seqNum;
    hide Begin;
    assert [] + [p] == [p];
  }

  /** A gap behind the first packet of a slice. */
  lemma BrokenAfterStart(p: Packet, q: Packet)
    requires AudioPacket(p) && AudioPacket(q) && HasAudioStart(p) && StartLen(p) == LPCM_BYTES
    requires CountedTs(p.ts) < LPCM_BYTES && q.seqNum != p.seqNum + 1
    ensures AudioPackets([p, q]) && Decode(START, [p, q]).Some?
    ensures Ready(Decode(START, [p, q]).value) && Decode(START, [p, q]).value.emitted == []
  {
    hide HasAudioStart, AudioPacket, StartLen, CountedTs;
    SeqNumRange(p);
    StartsSlice(p);
    var d := Step(START, p).value;
    assert Step(d, q) == Some(d.(continuing := false, looking := true, chain := []));
    hide Step;
    assert [p, q][..1] == [p] && [p][..0] == [];
    assert Decode(START, [p]) == Some(d);
  }

  lemma NoStartSkipped(d: Decoder, p: Packet)
    requires Ready(d) && AudioPacket(p) && !HasAudioStart(p)
    ensures Decode(d, [p]) == Some(d)
  {
    assert [p][..0] == [];
  }

  /** A slice received whole is lost when the end of the slice before it was. */
  lemma LossTakesNextSlice()
    ensures var c, e := SampleSlice(0, false), SampleSlice(2, false);
            && AudioPackets([c[0]] + e) && Sendable(e)
            && Decode(START, [c[0]] + e).Some? && Decode(START, [c[0]] + e).value.emitted == []
  {
    hide SampleSlice, HasAudioStart, AudioPacket, StartLen, CountedTs, Sendable, Decode;
    var c, e := SampleSlice(0, false), SampleSlice(2, false);
    SampleIsAudio(0, false);
    SampleIsAudio(2, false);
    SampleIsSendable(2, false);
    SampleNumbers(0, false);
    SampleNumbers(2, false);
    RestHasNoStart(2, false);
    BrokenAfterStart(c[0], e[0]);
    DecodeJoin(START, [c[0], e[0]], [e[1]]);
    NoStartSkipped(Decode(START, [c[0], e[0]]).value, e[1]);
    assert [c[0]] + e == [c[0], e[0]] + [e[1]];
  }

  /** A slice whose sequence numbers wrap around is lost, although nothing is missing. */
  lemma WrapLosesSlice()
    ensures var c := SampleSlice(SEQ - 1, false);
            AudioPackets(c) && Decode(START, c).Some? && Decode(START, c).value.emitted == []
            && c[1].seqNum == (c[0].seqNum + 1) % SEQ
  {
    hide SampleSlice, HasAudioStart, AudioPacket, StartLen, CountedTs, Decode;
    var c := SampleSlice(SEQ - 1, false);
    SampleIsAudio(SEQ - 1, false);
    SampleNumbers(SEQ - 1, false);
    BrokenAfterStart(c[0], c[1]);
    assert c == [c[0], c[1]];
  }

  // ---------- the thread ----------

  /** Searches a packet for a slice start and the length it announces. */
  method AudioStartFind(data: seq<Byte>) returns (found: bool, pesLen: nat)
    requires Framed(data) && AudioPacket(Parse(data))
    ensures found == HasAudioStart(Parse(data))
    ensures found ==> pesLen == StartLen(Parse(data))
  {
    hide Pid, Cc, Pusi, Afc, Parse, AudioOk;
    ghost var p := Parse(data);
    ghost var i := 0;
    var curr := RTP_HDR;
    var bytesLeft := |data| - RTP_HDR;
    while bytesLeft > 0
      invariant i <= |p.ts| && curr == RTP_HDR + TS_SIZE * i && curr + bytesLeft == |data|
      invariant FirstAudioStart(p.ts, i) == FirstAudioStart(p.ts, 0)
      decreases bytesLeft
    {
      ParseAt(data, i);
      if Pusi(data[curr+1]) && Pid(data[curr+1], data[curr+2]) == AUDIO_PID {
        var ext := curr + TS_HDR + 4;
        assert data[ext] == p.ts[i].payload[4] && data[ext+1] == p.ts[i].payload[5];
        return true, (Short(data[ext], data[ext+1]) + WORD - 14) % WORD;
      }
      curr, bytesLeft, i := curr + TS_SIZE, bytesLeft - TS_SIZE, i + 1;
    }
    return false, 0;
  }

  /** Counts the audio payload of a packet. */
  method PesPayloadSize(data: seq<Byte>) returns (pesByteCount: nat)
    requires Framed(data) && AudioPacket(Parse(data))
    ensures pesByteCount == CountedTs(Parse(data).ts)
  {
    hide Pid, Cc, Pusi, Afc, Parse;
    ghost var p := Parse(data);
    ghost var i := 0;
    var curr := RTP_HDR;
    var bytesLeft := |data| - RTP_HDR;
    pesByteCount := 0;
    while bytesLeft > 0
      invariant i <= |p.ts| && curr == RTP_HDR + TS_SIZE * i && curr + bytesLeft == |data|
      invariant pesByteCount == CountedTs(p.ts[..i])
      decreases bytesLeft
    {
      ParseAt(data, i);
      assert p.ts[..i+1][..i] == p.ts[..i] && AudioOk(p.ts[i]);
      var afc := Afc(data[curr+3]);
      if Pid(data[curr+1], data[curr+2]) == AUDIO_PID {
        var payloadSize;
        if Pusi(data[curr+1]) {
          assert afc == 1 || afc == 3;
          payloadSize := TS_PAYLOAD - AUDIO_HDR;
        } else if afc == 1 {
          payloadSize := TS_PAYLOAD;
        } else {
          assert afc == 3 && data[curr+TS_HDR] == p.ts[i].payload[0];
          payloadSize := TS_PAYLOAD - 1 - (data[curr+TS_HDR] as nat);
        }
        pesByteCount := pesByteCount + payloadSize;
      }
      curr, bytesLeft, i := curr + TS_SIZE, bytesLeft - TS_SIZE, i + 1;
    }
    assert p.ts[..i] == p.ts;
  }

  method SeqNumGet(data: seq<Byte>) returns (seqNum: nat)
    requires Framed(data)
    ensures seqNum == Parse(data).seqNum
  {
    seqNum := Short(data[2], data[3]);
  }

  /** The thread's control block; `emitted` records what it has put on the slice queue, `freed` and `leaked` the
      packets it has freed or lost hold of. */
  class ControlBlock {
    var lookForNewSlice: bool
    var continueCurrentSlice: bool
    var pesLen: nat
    var pesCurrByteCount: nat
    var lastSeqNum: nat
    var sliceChain: seq<Packet>
    ghost var emitted: seq<seq<Packet>>
    ghost var freed: seq<Packet>
    ghost var leaked: seq<Packet>

    ghost function State(): Decoder
      reads this
    {
      Decoder(lookForNewSlice, continueCurrentSlice, pesLen, pesCurrByteCount, lastSeqNum, sliceChain, emitted)
    }

    constructor ()
      ensures State() == START && freed == [] && leaked == []
    {
      lookForNewSlice, continueCurrentSlice, pesLen, pesCurrByteCount, lastSeqNum := true, false, 0, 0, 0;
      sliceChain, emitted, freed, leaked := [], [], [], [];
    }

    /** Frees the chain, which must not be empty. */
    method SliceDrop()
      requires sliceChain != []
      modifies `sliceChain, `freed
      ensures sliceChain == [] && freed == old(freed) + old(sliceChain)
    {
      freed := freed + sliceChain;
      sliceChain := [];
    }

    /** Begins a slice if the thread looks for one and the packet starts it; not `ok` when the announced length
        fails the assertion. */
    method BeginSlice(data: seq<Byte>, seqNum: nat) returns (ok: bool)
      requires Framed(data) && AudioPacket(Parse(data)) && seqNum == Parse(data).seqNum
      modifies `lookForNewSlice, `continueCurrentSlice, `pesLen, `pesCurrByteCount, `lastSeqNum, `leaked
      ensures ok == Begin(old(State()), Parse(data)).Some?
      ensures ok ==> State() == Begin(old(State()), Parse(data)).value
      ensures ok ==> leaked == old(leaked) + if Skips(old(State()), Parse(data)) then [Parse(data)] else []
    {
      hide HasAudioStart, AudioPacket, StartLen, Parse;
      if lookForNewSlice {
        var found, len := AudioStartFind(data);
        if found {
          if len != LPCM_BYTES && len != OPEN_PES {
            return false;
          }
          pesLen := len;
          lookForNewSlice := false;
          continueCurrentSlice := true;
          pesCurrByteCount := 0;
          lastSeqNum := (seqNum + WORD - 1) % WORD;
        } else {
          leaked := leaked + [Parse(data)];
        }
      }
      return true;
    }

    /** Adds the packet to the current slice, if there is one; not `ok` when more bytes are counted than announced. */
    method ContinueSlice(data: seq<Byte>, seqNum: nat) returns (ok: bool)
      requires Framed(data) && AudioPacket(Parse(data)) && seqNum == Parse(data).seqNum
      requires Drops(State(), Parse(data)) ==> sliceChain != []
      modifies this
      ensures ok == Continue(old(State()), Parse(data)).Some?
      ensures ok ==> State() == Continue(old(State()), Parse(data)).value
      ensures var d, p := old(State()), Parse(data);
              ok ==> && freed == old(freed) + (if Drops(d, p) then d.chain else [])
                     && leaked == old(leaked) + (if Drops(d, p) then [p] else [])
    {
      hide AudioPacket, CountedTs, Parse;
      if continueCurrentSlice {
        if seqNum != (lastSeqNum + 1) % WORD {
          SliceDrop();
          leaked := leaked + [Parse(data)];
          continueCurrentSlice := false;
          lookForNewSlice := true;
        } else {
          lastSeqNum := seqNum;
          var pesSize := PesPayloadSize(data);
          pesCurrByteCount := (pesCurrByteCount + pesSize) % WORD;
          if pesCurrByteCount > pesLen {
            return false;
          }
          sliceChain := sliceChain + [Parse(data)];
          if pesCurrByteCount == pesLen {
            continueCurrentSlice := false;
            lookForNewSlice := true;
            emitted := emitted + [sliceChain];
            sliceChain := [];
          }
        }
      }
      return true;
    }

    /** The loop body of the thread for one packet taken from the audio queue; not `ok` when an assertion
        about the received bytes fails. */
    method Process(data: seq<Byte>) returns (ok: bool)
      requires Framed(data) && AudioPacket(Parse(data)) && Inv(State())
      modifies this
      ensures ok == Step(old(State()), Parse(data)).Some?
      ensures ok ==> State() == Step(old(State()), Parse(data)).value && Inv(State())
      ensures var d, p := old(State()), Parse(data);
              ok ==> && freed == old(freed) + (if Drops(d, p) then d.chain else [])
                     && leaked == old(leaked) + (if Skips(d, p) || Drops(d, p) then [p] else [])
    {
      hide AudioPacket, Parse, Inv, Begin, Continue, Skips, Drops, Moves;
      StepKeeps(State(), Parse(data));
      BeginThenContinue(State(), Parse(data));
      var seqNum := SeqNumGet(data);
      ok := BeginSlice(data, seqNum);
      if ok {
        ok := ContinueSlice(data, seqNum);
      }
    }
  }

  /** A packet that begins a slice does not drop one, and the chain dropped is never empty. */
  lemma BeginThenContinue(d: Decoder, p: Packet)
    requires AudioPacket(p) && Inv(d)
    ensures var b := Begin(d, p);
            b.Some? ==> && Drops(b.value, p) == Drops(d, p) && b.value.chain == d.chain
                        && (Drops(d, p) ==> d.chain != [] && !Skips(d, p))
  {
    hide HasAudioStart, AudioPacket, StartLen, CountedAll, Collected;
    SeqNumRange(p);
  }
}
