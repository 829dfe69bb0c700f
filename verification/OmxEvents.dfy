/** The events an OpenMAX component reports, and the list operations that the client applies
    to a component's event list, as functions on sequences. */
module OmxEvents {
  import opened Sequences

  datatype Kind = CmdComplete | Error | BufferFlag | PortSettingsChanged | Mark | ParamOrConfigChanged
                | OtherKind | Unused

  datatype Command = StateSet | Flush | PortDisable | PortEnable | MarkBuffer

  datatype ErrorCode = PortUnpopulated | SameState | BadParameter | IncorrectStateTransition | BadPortIndex
                     | StreamCorrupt | InsufficientResources | UnsupportedSetting | Overflow | DiskFull
                     | MaxFileSize | DrmUnauthorised | DrmExpired | DrmGeneral | OtherError

  /** `nData1`: a command for a completion, an error code for an error, a number otherwise. */
  datatype Data1 = Cmd(command: Command) | Code(code: ErrorCode) | Num(value: nat)

  datatype Event = Event(kind: Kind, data1: Data1, data2: nat)

  datatype Flag = EmptyBufferDone | FillBufferDone | PortDisabled | PortEnabled | StateChanged | BufferFlagEos
                | ParameterChanged | EventError | PortFlush | MarkedBuffer | BufferMark | ConfigChanged

  const EOS: nat := 1

  /** Event slots of one client. */
  const NUM_EVENTS: nat := 100

  /** The events for which no assertion of the handler fails. */
  predicate Known(e: Event) {
    match e.kind
    case CmdComplete => e.data1.Cmd?
    case Error => e.data1.Code? && e.data1.code != OtherError
    case BufferFlag => e.data2 % 2 == EOS
    case PortSettingsChanged | Mark | ParamOrConfigChanged => true
    case OtherKind | Unused => false
  }

  /** Every completion of a command, every error but one it has no case for, every end of stream and every other kind of
      event the component reports is known to the handler, and nothing else. */
  lemma KnownEvents(e: Event)
    ensures e.kind == CmdComplete ==> (Known(e) <==> exists c :: e.data1 == Cmd(c))
    ensures e.kind == Error ==> (Known(e) <==> exists c :: e.data1 == Code(c) && c != OtherError)
    ensures e.kind == BufferFlag ==> (Known(e) <==> e.data2 % 2 == 1)
    ensures e.kind in {PortSettingsChanged, Mark, ParamOrConfigChanged} ==> Known(e)
    ensures e.kind in {OtherKind, Unused} ==> !Known(e)
  {
    if e.data1.Cmd? {
      assert e.data1 == Cmd(e.data1.command);
    } else if e.data1.Code? {
      assert e.data1 == Code(e.data1.code);
    }
  }

  /** The handler reports an end-of-stream buffer flag with every other flag cleared. */
  function Recorded(e: Event): Event {
    if e.kind.BufferFlag? then e.(data2 := EOS) else e
  }

  /** Errors the component was told to ignore: neither flagged nor recorded. */
  predicate Ignored(e: Event, mask: set<ErrorCode>) {
    && e.kind.Error?
    && e.data1.Code?
    && e.data1.code in {PortUnpopulated, SameState, BadParameter}
    && e.data1.code in mask
  }

  /** The errors that are recorded without raising the component's error flag. */
  predicate Silent(e: Event) {
    e.kind.Error? && e.data1.Code? && e.data1.code in {DiskFull, MaxFileSize}
  }

  function CommandFlag(c: Command): Flag {
    match c
    case StateSet => StateChanged
    case PortDisable => PortDisabled
    case PortEnable => PortEnabled
    case Flush => PortFlush
    case MarkBuffer => MarkedBuffer
  }

  /** The flags the handler raises on the reporting component itself. */
  function OwnFlags(e: Event, mask: set<ErrorCode>): set<Flag>
    requires Known(e)
  {
    match e.kind
    case CmdComplete => {CommandFlag(e.data1.command)}
    case Error => if Ignored(e, mask) || Silent(e) then {} else {EventError}
    case BufferFlag => {BufferFlagEos}
    case PortSettingsChanged => {ParameterChanged}
    case Mark => {BufferMark}
    case ParamOrConfigChanged => {ConfigChanged}
  }

  /** Which flag stands for which event. */
  lemma FlagsRaised(e: Event, mask: set<ErrorCode>)
    requires Known(e)
    ensures e.kind == CmdComplete && e.data1 == Cmd(StateSet) ==> OwnFlags(e, mask) == {StateChanged}
    ensures e.kind == CmdComplete && e.data1 == Cmd(PortDisable) ==> OwnFlags(e, mask) == {PortDisabled}
    ensures e.kind == CmdComplete && e.data1 == Cmd(PortEnable) ==> OwnFlags(e, mask) == {PortEnabled}
    ensures e.kind == CmdComplete && e.data1 == Cmd(Flush) ==> OwnFlags(e, mask) == {PortFlush}
    ensures e.kind == CmdComplete && e.data1 == Cmd(MarkBuffer) ==> OwnFlags(e, mask) == {MarkedBuffer}
    ensures e.kind == BufferFlag ==> OwnFlags(e, mask) == {BufferFlagEos}
    ensures e.kind == PortSettingsChanged ==> OwnFlags(e, mask) == {ParameterChanged}
    ensures e.kind == Mark ==> OwnFlags(e, mask) == {BufferMark}
    ensures e.kind == ParamOrConfigChanged ==> OwnFlags(e, mask) == {ConfigChanged}
    ensures e.kind == Error && e.data1.code in {PortUnpopulated, SameState, BadParameter} ==>
      OwnFlags(e, mask) == if e.data1.code in mask then {} else {EventError}
    ensures e.kind == Error && e.data1.code in {DiskFull, MaxFileSize} ==> OwnFlags(e, mask) == {}
    ensures e.kind == Error
            && e.data1.code !in {PortUnpopulated, SameState, BadParameter, DiskFull, MaxFileSize} ==>
      OwnFlags(e, mask) == {EventError}
  {}

  /** An error that terminated a command. */
  predicate Terminating(e: Event) {
    e.kind.Error? && e.data2 == 1
  }

  /** What a search of an event list looks for. */
  datatype Query =
    | Fields(kind: Kind, data1: Data1, ignore1: bool, data2: nat, ignore2: bool)
    | CommandEnd(command: Command, arg: nat)
    | AnyTerminating

  predicate Selects(q: Query, e: Event) {
    match q
    case Fields(kind, data1, ignore1, data2, ignore2) =>
      e.kind == kind && (ignore1 || e.data1 == data1) && (ignore2 || e.data2 == data2)
    case CommandEnd(command, arg) =>
      || (e.kind.CmdComplete? && e.data1 == Cmd(command) && e.data2 == arg)
      || Terminating(e)
    case AnyTerminating => Terminating(e)
  }

  /** Position of the first event selected, or the length of the list. */
  function Find(s: seq<Event>, q: Query): (k: nat)
    ensures k <= |s|
    ensures forall i :: 0 <= i < k ==> !Selects(q, s[i])
    ensures k < |s| ==> Selects(q, s[k])
  {
    if s == [] || Selects(q, s[0]) then 0 else 1 + Find(s[1..], q)
  }

  lemma {:induction false} FindIs(s: seq<Event>, q: Query, k: nat)
    requires k <= |s|
    requires forall i :: 0 <= i < k ==> !Selects(q, s[i])
    requires k < |s| ==> Selects(q, s[k])
    ensures Find(s, q) == k
  {
    if k > 0 {
      assert !Selects(q, s[0]);
      FindIs(s[1..], q, k - 1);
    }
  }

  /** The list without the first event selected. */
  function Removed(s: seq<Event>, q: Query): seq<Event> {
    var k := Find(s, q);
    if k < |s| then Without(s, k) else s
  }

  /** Each event once, at its first occurrence. */
  function FirstOccurrences(s: seq<Event>): (r: seq<Event>) {
    if s == [] then []
    else
      var r := FirstOccurrences(s[..|s|-1]);
      if s[|s|-1] in s[..|s|-1] then r else r + [s[|s|-1]]
  }

  lemma {:induction false} FirstOccurrencesDistinct(s: seq<Event>)
    ensures NoDup(FirstOccurrences(s))
    ensures forall e :: e in FirstOccurrences(s) <==> e in s
  {
    if s != [] {
      FirstOccurrencesDistinct(s[..|s|-1]);
      assert s == s[..|s|-1] + [s[|s|-1]];
    }
  }

  lemma {:induction false} DistinctUnchanged(s: seq<Event>)
    requires NoDup(s)
    ensures FirstOccurrences(s) == s
  {
    if s != [] {
      DistinctUnchanged(s[..|s|-1]);
      assert s == s[..|s|-1] + [s[|s|-1]];
    }
  }

  /** Deleting a later copy of an event changes nothing. */
  lemma {:induction false} LaterCopyIsIrrelevant(s: seq<Event>, k: nat)
    requires k < |s| && s[k] in s[..k]
    ensures FirstOccurrences(Without(s, k)) == FirstOccurrences(s)
  {
    var n := |s| - 1;
    var t := s[..n];
    if k == n {
      assert Without(s, k) == t;
    } else {
      assert t[..k] == s[..k];
      LaterCopyIsIrrelevant(t, k);
      assert Without(s, k)[..n-1] == Without(t, k);
      assert Without(s, k)[n-1] == s[n];
      assert s[n] in t <==> s[n] in Without(t, k) by {
        var i :| 0 <= i < k && s[..k][i] == s[k];
        assert Without(t, k)[i] == s[k];
        forall j | 0 <= j < n && t[j] == s[n] ensures s[n] in Without(t, k) {
          assert Without(t, k)[if j < k then j else if j == k then i else j - 1] == s[n];
        }
      }
    }
  }

  /** No event in front of position `i` occurs again behind itself. */
  ghost predicate DistinctUpTo(s: seq<Event>, i: nat) {
    forall a, b :: 0 <= a < i && a < b < |s| ==> s[a] != s[b]
  }

  lemma DistinctExtends(s: seq<Event>, i: nat)
    requires DistinctUpTo(s, i) && i < |s|
    requires forall b :: i < b < |s| ==> s[b] != s[i]
    ensures DistinctUpTo(s, i + 1)
  {}

  /** Every event but the head, which the handler inserts unchecked, occurs once in the tail. */
  ghost predicate TailDistinct(s: seq<Event>) {
    s != [] ==> NoDup(s[1..])
  }

  /** The list of a component after its handler has run: duplicates removed, the event in front. */
  function AfterEvent(s: seq<Event>, e: Event, mask: set<ErrorCode>): seq<Event> {
    if Ignored(e, mask) then FirstOccurrences(s) else [Recorded(e)] + FirstOccurrences(s)
  }

  /** What the handler records: the event, for an end of stream with the other buffer flags cleared, in front of the
      list, or nothing for an error the component was told to ignore. */
  lemma AfterEventMeans(s: seq<Event>, e: Event, mask: set<ErrorCode>)
    requires Known(e)
    ensures e.kind == Error && e.data1.code in {PortUnpopulated, SameState, BadParameter} && e.data1.code in mask ==>
              AfterEvent(s, e, mask) == FirstOccurrences(s)
    ensures e.kind == Error
            && (e.data1.code !in {PortUnpopulated, SameState, BadParameter} || e.data1.code !in mask) ==>
              AfterEvent(s, e, mask) == [e] + FirstOccurrences(s)
    ensures e.kind == BufferFlag ==> AfterEvent(s, e, mask) == [Event(BufferFlag, e.data1, 1)] + FirstOccurrences(s)
    ensures e.kind != Error && e.kind != BufferFlag ==> AfterEvent(s, e, mask) == [e] + FirstOccurrences(s)
  {}

  /** What a waiter finds in the lists of its own and of the other component. */
  datatype Outcome = Taken(ret: int, rest: seq<Event>, wasError: bool) | OtherFailed | Nothing

  function Scan(own: seq<Event>, other: seq<Event>, command: Command, arg: nat): Outcome {
    var k := Find(own, CommandEnd(command, arg));
    if k < |own| then
      Taken(if own[k].kind.CmdComplete? || own[k].data1 == Code(SameState) then 0 else -1,
            Without(own, k),
            own[k].kind.Error?)
    else if Find(other, AnyTerminating) < |other| then OtherFailed
    else Nothing
  }

  /** What a search of both lists answers, in terms of the events: `k` is the position of the first event of the own
      list that is the completion of this command with this argument or an error that terminated a command. */
  lemma ScanMeans(own: seq<Event>, other: seq<Event>, command: Command, arg: nat) returns (k: nat)
    ensures k <= |own|
    ensures forall i :: 0 <= i < k ==>
              own[i] != Event(CmdComplete, Cmd(command), arg) && !(own[i].kind == Error && own[i].data2 == 1)
    ensures k < |own| ==>
              own[k] == Event(CmdComplete, Cmd(command), arg) || (own[k].kind == Error && own[k].data2 == 1)
    ensures k < |own| && (own[k].kind == CmdComplete || own[k].data1 == Code(SameState)) ==>
              Scan(own, other, command, arg) == Taken(0, own[..k] + own[k+1..], own[k].kind == Error)
    ensures k < |own| && own[k].kind == Error && own[k].data1 != Code(SameState) ==>
              Scan(own, other, command, arg) == Taken(-1, own[..k] + own[k+1..], true)
    ensures k == |own| && (exists e :: e in other && e.kind == Error && e.data2 == 1) ==>
              Scan(own, other, command, arg) == OtherFailed
    ensures k == |own| && (forall e :: e in other ==> !(e.kind == Error && e.data2 == 1)) ==>
              Scan(own, other, command, arg) == Nothing
  {
    k := Find(own, CommandEnd(command, arg));
    var j := Find(other, AnyTerminating);
    assert j < |other| ==> other[j] in other;
  }

  /** What a removal takes off a list: the event at position `k`, the first with the fields asked for. */
  lemma RemovedMeans(s: seq<Event>, kind: Kind, data1: Data1, ignore1: bool, data2: nat, ignore2: bool)
    returns (k: nat)
    ensures k == Find(s, Fields(kind, data1, ignore1, data2, ignore2)) <= |s|
    ensures forall i :: 0 <= i < k ==>
              s[i].kind != kind || (!ignore1 && s[i].data1 != data1) || (!ignore2 && s[i].data2 != data2)
    ensures k < |s| ==>
              s[k].kind == kind && (ignore1 || s[k].data1 == data1) && (ignore2 || s[k].data2 == data2)
    ensures Removed(s, Fields(kind, data1, ignore1, data2, ignore2)) == if k < |s| then s[..k] + s[k+1..] else s
  {
    k := Find(s, Fields(kind, data1, ignore1, data2, ignore2));
  }
}
