/** The protocol between the threads that wait for a command to complete and the event handlers.
    A waiter checks the event lists under the event lock, releases the lock and only then blocks on
    its component's flags; a handler raises flags and inserts its event in separate steps. */
module WaitProtocol {
  import opened OmxEvents
  import opened Sequences

  datatype Peer = NoPeer | Peer(id: nat)

  /** The arguments of a wait: the command, its second argument and the other component. */
  datatype Wait = Wait(command: Command, arg: nat, other: Peer)

  /** Where the client thread of a component stands. */
  datatype Thread =
    | Idle
    | Entering(w: Wait)                    // about to take the event lock
    | Scanning(w: Wait)                    // holds the lock, lists not yet read
    | Decided(w: Wait, done: bool, ret: int)  // holds the lock, lists read
    | Blocked(w: Wait)                     // between the list check and the return of the flag wait
    | Returning(w: Wait, ret: int)

  datatype Comp = Comp(list: seq<Event>, flags: set<Flag>, errorMask: set<ErrorCode>, related: Peer)

  datatype HandlerPc = ToDeduplicate | ToNotify | ToRaise | ToInsert(ignored: bool) | ToUnlock

  datatype Lock = Free | Client(c: nat) | Handler(c: nat, e: Event, pc: HandlerPc)

  datatype State = State(comps: seq<Comp>, threads: seq<Thread>, lock: Lock)

  datatype Step =
    | CallWait(c: nat, w: Wait)
    | LockLists(c: nat)
    | ReadLists(c: nat)
    | UnlockLists(c: nat)
    | Wake(c: nat)
    | Return(c: nat)
    | Remove(c: nat, kind: Kind, data1: Data1, ignore1: bool, data2: nat, ignore2: bool)
    | ReturnAll(c: nat)
    | Consume(c: nat, flags: set<Flag>)
    | SetMask(c: nat, mask: set<ErrorCode>)
    | Receive(c: nat, e: Event)
    | Deduplicate
    | Notify
    | Raise
    | Insert
    | Unlock

  function Mask(w: Wait): set<Flag> {
    {EventError, CommandFlag(w.command)}
  }

  predicate Ends(w: Wait, e: Event) {
    Selects(CommandEnd(w.command, w.arg), e)
  }

  function Lists(comps: seq<Comp>): (r: seq<seq<Event>>)
    ensures |r| == |comps|
  {
    seq(|comps|, c requires 0 <= c < |comps| => comps[c].list)
  }

  function OtherList(s: State, w: Wait): seq<Event> {
    if w.other.Peer? && w.other.id < |s.comps| then s.comps[w.other.id].list else []
  }

  predicate Enabled(s: State, step: Step) {
    var n := |s.comps|;
    && |s.threads| == n
    && match step
       case CallWait(c, w) =>
         && c < n && s.threads[c].Idle? && w.command in {StateSet, PortDisable, PortEnable}
         && (w.other.Peer? ==> w.other.id < n)
       case LockLists(c) => c < n && s.threads[c].Entering? && s.lock.Free?
       case ReadLists(c) => c < n && s.threads[c].Scanning?
       case UnlockLists(c) => c < n && s.threads[c].Decided?
       case Wake(c) => c < n && s.threads[c].Blocked? && s.comps[c].flags * Mask(s.threads[c].w) != {}
       case Return(c) => c < n && s.threads[c].Returning?
       // by any thread: its own client thread, another one, or a callback after its handler has unlocked
       case Remove(c, _, _, _, _, _) => c < n && s.lock.Free?
       case ReturnAll(c) => c < n && s.lock.Free?
       case Consume(c, _) => c < n && s.threads[c].Idle?
       case SetMask(c, _) => c < n
       case Receive(c, e) => c < n && Known(e) && s.lock.Free?
       case Deduplicate =>
         // the handler asserts that a slot is spare
         && s.lock.Handler? && s.lock.pc.ToDeduplicate? && s.lock.c < n
         && TotalLength(Lists(Deduplicated(s).comps)) < NUM_EVENTS
       case Notify => s.lock.Handler? && s.lock.pc.ToNotify? && s.lock.c < n
       case Raise => s.lock.Handler? && s.lock.pc.ToRaise? && s.lock.c < n && Known(s.lock.e)
       case Insert => s.lock.Handler? && s.lock.pc.ToInsert? && s.lock.c < n
       case Unlock => s.lock.Handler? && s.lock.pc.ToUnlock?
  }

  function Deduplicated(s: State): State
    requires s.lock.Handler? && s.lock.c < |s.comps|
  {
    var c := s.lock.c;
    s.(comps := s.comps[c := s.comps[c].(list := FirstOccurrences(s.comps[c].list))],
       lock := s.lock.(pc := ToNotify))
  }

  function Removal(k: Comp, kind: Kind, data1: Data1, ignore1: bool, data2: nat, ignore2: bool): (r: Comp)
    ensures r.related == k.related && r.errorMask == k.errorMask && r.flags <= k.flags
    ensures forall f :: f in k.flags && f != (if kind.Error? then EventError else ConfigChanged) ==> f in r.flags
  {
    var q := Fields(kind, data1, ignore1, data2, ignore2);
    if Find(k.list, q) == |k.list| then k
    else k.(list := Removed(k.list, q),
            flags := if kind.Error? then k.flags - {EventError}
                     else if kind.ParamOrConfigChanged? then k.flags - {ConfigChanged}
                     else k.flags)
  }

  function Apply(s: State, step: Step): State
    requires Enabled(s, step)
  {
    match step
    case CallWait(c, w) =>
      s.(comps := if w.other.Peer? then s.comps[w.other.id := s.comps[w.other.id].(related := Peer(c))] else s.comps,
         threads := s.threads[c := Entering(w)])
    case LockLists(c) =>
      s.(threads := s.threads[c := Scanning(s.threads[c].w)], lock := Client(c))
    case ReadLists(c) =>
      var w, k := s.threads[c].w, s.comps[c];
      (match Scan(k.list, OtherList(s, w), w.command, w.arg)
       case Taken(ret, rest, wasError) =>
         s.(comps := s.comps[c := k.(list := rest, flags := if wasError then k.flags - {EventError} else k.flags)],
            threads := s.threads[c := Decided(w, true, ret)])
       case OtherFailed => s.(threads := s.threads[c := Decided(w, true, -2)])
       case Nothing => s.(threads := s.threads[c := Decided(w, false, 0)]))
    case UnlockLists(c) =>
      var t := s.threads[c];
      s.(threads := s.threads[c := if t.done then Returning(t.w, t.ret) else Blocked(t.w)], lock := Free)
    case Wake(c) =>
      var w, k := s.threads[c].w, s.comps[c];
      s.(comps := s.comps[c := k.(flags := k.flags - Mask(w))], threads := s.threads[c := Entering(w)])
    case Return(c) =>
      var w := s.threads[c].w;
      s.(comps := if w.other.Peer? && w.other.id < |s.comps|
                  then s.comps[w.other.id := s.comps[w.other.id].(related := NoPeer)] else s.comps,
         threads := s.threads[c := Idle])
    case Remove(c, kind, data1, ignore1, data2, ignore2) =>
      s.(comps := s.comps[c := Removal(s.comps[c], kind, data1, ignore1, data2, ignore2)])
    case ReturnAll(c) => s.(comps := s.comps[c := s.comps[c].(list := [])])
    case Consume(c, flags) => s.(comps := s.comps[c := s.comps[c].(flags := s.comps[c].flags - flags)])
    case SetMask(c, mask) => s.(comps := s.comps[c := s.comps[c].(errorMask := mask)])
    case Receive(c, e) => s.(lock := Handler(c, e, ToDeduplicate))
    case Deduplicate => Deduplicated(s)
    case Notify =>
      var r := s.comps[s.lock.c].related;
      s.(comps := if Terminating(s.lock.e) && r.Peer? && r.id < |s.comps|
                  then s.comps[r.id := s.comps[r.id].(flags := s.comps[r.id].flags + {EventError})] else s.comps,
         lock := s.lock.(pc := ToRaise))
    case Raise =>
      var c, e := s.lock.c, s.lock.e;
      var k := s.comps[c];
      s.(comps := s.comps[c := k.(flags := k.flags + OwnFlags(e, k.errorMask))],
         lock := s.lock.(pc := ToInsert(Ignored(e, k.errorMask))))
    case Insert =>
      var c, e := s.lock.c, s.lock.e;
      s.(comps := if s.lock.pc.ignored then s.comps
                  else s.comps[c := s.comps[c].(list := [Recorded(e)] + s.comps[c].list)],
         lock := s.lock.(pc := ToUnlock))
    case Unlock => s.(lock := Free)
  }

  predicate Initial(s: State) {
    && |s.threads| == |s.comps| && s.lock.Free?
    && forall c :: 0 <= c < |s.comps| ==>
         s.comps[c] == Comp([], {}, {}, NoPeer) && s.threads[c].Idle?
  }

  /** Every step of `steps` is enabled where it is taken, starting from `s`. */
  predicate Runs(s: State, steps: seq<Step>)
    decreases |steps|, 0
  {
    steps == [] ||
    var n := |steps| - 1;
    Runs(s, steps[..n]) && Enabled(After(s, steps[..n]), steps[n])
  }

  function After(s: State, steps: seq<Step>): State
    requires Runs(s, steps)
    decreases |steps|, 1
  {
    if steps == [] then s
    else Apply(After(s, steps[..|steps|-1]), steps[|steps|-1])
  }

  /** No error is removed from the list of a component whose waiter is blocked. */
  predicate Confined(s: State, step: Step) {
    step.Remove? && step.kind.Error? && step.c < |s.threads| ==> !s.threads[step.c].Blocked?
  }

  ghost predicate ConfinedRun(init: State, steps: seq<Step>)
    requires Runs(init, steps)
    decreases |steps|
  {
    steps == [] ||
    var n := |steps| - 1;
    ConfinedRun(init, steps[..n]) && Confined(After(init, steps[..n]), steps[n])
  }

  ghost predicate Reachable(s: State) {
    exists init, steps :: Initial(init) && Runs(init, steps) && After(init, steps) == s
  }

  /** Reachable without removing errors under a blocked waiter. */
  ghost predicate Orderly(s: State) {
    exists init, steps ::
      Initial(init) && Runs(init, steps) && ConfinedRun(init, steps) && After(init, steps) == s
  }

  lemma OrderlyInitial(s: State)
    requires Initial(s)
    ensures Orderly(s)
  {
    assert Runs(s, []) && ConfinedRun(s, []) && After(s, []) == s;
  }

  lemma OrderlyStep(s: State, step: Step)
    requires Orderly(s) && Enabled(s, step) && Confined(s, step)
    ensures Orderly(Apply(s, step))
  {
    var init, steps :|
      Initial(init) && Runs(init, steps) && ConfinedRun(init, steps) && After(init, steps) == s;
    var more := steps + [step];
    assert more[..|more|-1] == steps && more[|more|-1] == step;
    assert Runs(init, more) && ConfinedRun(init, more) && After(init, more) == Apply(s, step);
  }

  lemma ReachStep(s: State, step: Step)
    requires Orderly(s) && Enabled(s, step)
    ensures Reachable(Apply(s, step))
  {
    var init, steps :|
      Initial(init) && Runs(init, steps) && ConfinedRun(init, steps) && After(init, steps) == s;
    var more := steps + [step];
    assert more[..|more|-1] == steps && more[|more|-1] == step;
    assert Runs(init, more) && After(init, more) == Apply(s, step);
  }

  lemma OrderlyIsReachable(s: State)
    requires Orderly(s)
    ensures Reachable(s)
  {}

  // ---------- invariants ----------

  /** Each client thread holds the lock exactly while it reads the lists. */
  ghost predicate LockHeld(s: State) {
    && |s.threads| == |s.comps|
    && (forall c :: 0 <= c < |s.threads| ==>
          (s.lock == Client(c) <==> s.threads[c].Scanning? || s.threads[c].Decided?))
    && (s.lock.Handler? ==> s.lock.c < |s.comps| && Known(s.lock.e))
    && (s.lock.Client? ==> s.lock.c < |s.comps|)
  }

  /** The waits in progress are for the commands that can be waited for, and components refer to each other. */
  ghost predicate Addressed(s: State) {
    && (forall c :: 0 <= c < |s.threads| && !s.threads[c].Idle? && s.threads[c].w.other.Peer? ==>
          s.threads[c].w.other.id < |s.comps|)
    && (forall c :: 0 <= c < |s.threads| && !s.threads[c].Idle? ==>
          s.threads[c].w.command in {StateSet, PortDisable, PortEnable})
    && (forall c :: 0 <= c < |s.comps| && s.comps[c].related.Peer? ==> s.comps[c].related.id < |s.comps|)
  }

  ghost predicate LockInv(s: State) { LockHeld(s) && Addressed(s) }

  /** The wait `w` of component `c` is registered with the other component it watches. */
  ghost predicate Registered(s: State, c: nat, w: Wait) {
    w.other.Peer? && w.other.id < |s.comps| && s.comps[w.other.id].related == Peer(c)
  }

  ghost predicate Awake(s: State, c: nat, w: Wait)
    requires c < |s.comps|
  {
    s.comps[c].flags * Mask(w) != {}
  }

  /** A waiter that found nothing keeps an up-to-date view until it unlocks. */
  ghost predicate ViewAt(s: State, c: nat)
    requires LockInv(s) && c < |s.threads|
  {
    s.threads[c].Decided? && !s.threads[c].done ==>
      var w := s.threads[c].w;
      && (forall e :: e in s.comps[c].list ==> !Ends(w, e))
      && (forall e :: e in OtherList(s, w) ==> !Terminating(e))
  }

  /** A blocked waiter has a flag for every event that ends its wait. */
  ghost predicate OwnAt(s: State, c: nat)
    requires LockInv(s) && c < |s.threads|
  {
    s.threads[c].Blocked? ==>
      var w := s.threads[c].w;
      && (forall e :: e in s.comps[c].list && Ends(w, e) && !Silent(e) ==> Awake(s, c, w))
      && (s.lock.Handler? && s.lock.c == c && s.lock.pc == ToInsert(false) ==>
            Ends(w, s.lock.e) && !Silent(s.lock.e) ==> Awake(s, c, w))
  }

  /** A blocked, registered waiter has its error flag for every terminating error of the other component. */
  ghost predicate OtherAt(s: State, c: nat)
    requires LockInv(s) && c < |s.threads|
  {
    s.threads[c].Blocked? && Registered(s, c, s.threads[c].w) ==>
      var o := s.threads[c].w.other.id;
      && (forall e :: e in s.comps[o].list && Terminating(e) ==> EventError in s.comps[c].flags)
      && (s.lock.Handler? && s.lock.c == o && (s.lock.pc.ToRaise? || s.lock.pc == ToInsert(false)) ==>
            Terminating(s.lock.e) ==> EventError in s.comps[c].flags)
  }

  /** Only the head of a list can have a duplicate, and not while the handler is about to insert. */
  ghost predicate ListAt(s: State, c: nat)
    requires LockInv(s) && c < |s.threads|
  {
    && TailDistinct(s.comps[c].list)
    && (s.lock.Handler? && s.lock.c == c && (s.lock.pc.ToNotify? || s.lock.pc.ToRaise? || s.lock.pc.ToInsert?) ==>
          NoDup(s.comps[c].list))
  }

  /** A blocked waiter has the flag of its command for every completion that ends its wait. */
  ghost predicate DoneAt(s: State, c: nat)
    requires LockInv(s) && c < |s.threads|
  {
    s.threads[c].Blocked? ==>
      var w := s.threads[c].w;
      && (forall e :: e in s.comps[c].list && e.kind.CmdComplete? && Ends(w, e) ==>
            CommandFlag(w.command) in s.comps[c].flags)
      && (s.lock.Handler? && s.lock.c == c && s.lock.pc == ToInsert(false) ==>
            s.lock.e.kind.CmdComplete? && Ends(w, s.lock.e) ==> CommandFlag(w.command) in s.comps[c].flags)
  }

  ghost predicate KnownAt(s: State, c: nat)
    requires LockInv(s) && c < |s.threads|
  {
    forall e :: e in s.comps[c].list ==> Known(e)
  }

  /** What every run keeps. */
  ghost predicate Inv(s: State) {
    && LockInv(s)
    && forall c :: 0 <= c < |s.threads| ==> ViewAt(s, c) && ListAt(s, c) && DoneAt(s, c) && KnownAt(s, c)
  }

  /** What a run keeps that removes no error under a blocked waiter. */
  ghost predicate FlagInv(s: State)
    requires LockInv(s)
  {
    forall c :: 0 <= c < |s.threads| ==> OwnAt(s, c) && OtherAt(s, c)
  }

  lemma LockHeldKept(s: State, step: Step)
    requires LockHeld(s) && Enabled(s, step)
    ensures LockHeld(Apply(s, step))
  {
    hide FirstOccurrences, Scan, Removal, OwnFlags, Ignored, Recorded, TotalLength, Mask;
  }

  lemma AddressedKept(s: State, step: Step)
    requires Addressed(s) && Enabled(s, step)
    ensures Addressed(Apply(s, step))
  {
    hide FirstOccurrences, Scan, Removal, OwnFlags, Ignored, Recorded, TotalLength, Mask;
  }

  lemma LockKept(s: State, step: Step)
    requires LockInv(s) && Enabled(s, step)
    ensures LockInv(Apply(s, step))
  {
    LockHeldKept(s, step);
    AddressedKept(s, step);
  }

  lemma EndingIsFlagged(w: Wait, e: Event, mask: set<ErrorCode>)
    requires Known(e) && Ends(w, e) && !Silent(e) && !Ignored(e, mask)
    ensures OwnFlags(e, mask) <= Mask(w) && OwnFlags(e, mask) != {}
    ensures Recorded(e) == e
  {}

  /** Only the handler's insertion adds an event to a list. */
  lemma OnlyInsertAdds(s: State, step: Step, o: nat)
    requires LockInv(s) && Enabled(s, step) && o < |s.comps|
    ensures |Apply(s, step).comps| == |s.comps|
    ensures forall e :: e in Apply(s, step).comps[o].list ==>
      || e in s.comps[o].list
      || (step.Insert? && s.lock.c == o && s.lock.pc == ToInsert(false) && e == Recorded(s.lock.e))
  {
    match step {
      case Deduplicate => FirstOccurrencesDistinct(s.comps[s.lock.c].list);
      case _ =>
    }
  }

  lemma ViewKept(s: State, step: Step, c: nat)
    requires LockInv(s) && Enabled(s, step) && LockInv(Apply(s, step)) && c < |s.threads|
    requires ViewAt(s, c)
    ensures ViewAt(Apply(s, step), c)
  {}

  /** A removal from the list of `c` may clear this flag; nothing else clears flags of a blocked waiter. */
  predicate Clears(step: Step, c: nat, f: Flag) {
    step.Remove? && step.c == c && f == if step.kind.Error? then EventError else ConfigChanged
  }

  lemma BlockedKeepsFlags(s: State, step: Step, c: nat)
    requires LockInv(s) && Enabled(s, step) && c < |s.threads|
    ensures var t := Apply(s, step);
            && |t.threads| == |t.comps| == |s.comps|
            && (t.threads[c].Blocked? ==>
                  forall f :: f in s.comps[c].flags && !Clears(step, c, f) ==> f in t.comps[c].flags)
  {
    hide FirstOccurrences, Removal, Scan, Selects, TotalLength, OwnFlags, Mask, Ignored, Recorded;
    match step {
      case Remove(d, _, _, _, _, _) =>
      case ReadLists(d) =>
      case _ =>
    }
  }

  lemma AwakeKept(s: State, t: State, c: nat, w: Wait)
    requires c < |s.comps| && c < |t.comps| && Awake(s, c, w) && w.command in {StateSet, PortDisable, PortEnable}
    requires forall f :: f in s.comps[c].flags && f != ConfigChanged ==> f in t.comps[c].flags
    ensures Awake(t, c, w)
  {
    var f :| f in s.comps[c].flags * Mask(w);
    assert f in t.comps[c].flags * Mask(w);
  }

  lemma OwnKept(s: State, step: Step, c: nat)
    requires LockInv(s) && Enabled(s, step) && LockInv(Apply(s, step)) && c < |s.threads|
    requires Confined(s, step) && ViewAt(s, c) && OwnAt(s, c)
    ensures OwnAt(Apply(s, step), c)
  {
    hide FirstOccurrences, Removal, Scan, Mask, TotalLength;
    var t := Apply(s, step);
    OnlyInsertAdds(s, step, c);
    BlockedKeepsFlags(s, step, c);
    if t.threads[c].Blocked? {
      var w := t.threads[c].w;
      if Awake(s, c, w) {
        AwakeKept(s, t, c, w);
      }
      if step.Raise? && s.lock.c == c && t.lock.pc == ToInsert(false) && Ends(w, s.lock.e) && !Silent(s.lock.e) {
        EndingIsFlagged(w, s.lock.e, s.comps[c].errorMask);
        assert t.comps[c].flags * Mask(w) >= OwnFlags(s.lock.e, s.comps[c].errorMask);
      }
    }
  }

  lemma OtherKept(s: State, step: Step, c: nat)
    requires LockInv(s) && Enabled(s, step) && LockInv(Apply(s, step)) && c < |s.threads|
    requires Confined(s, step) && ViewAt(s, c) && OtherAt(s, c)
    ensures OtherAt(Apply(s, step), c)
  {
    hide FirstOccurrences, Removal, Scan, Selects, TotalLength, OwnFlags, Mask, Ignored;
    var t := Apply(s, step);
    BlockedKeepsFlags(s, step, c);
    if t.threads[c].Blocked? && Registered(t, c, t.threads[c].w) {
      var o := t.threads[c].w.other.id;
      OnlyInsertAdds(s, step, o);
      assert EventError in s.comps[c].flags ==> EventError in t.comps[c].flags;
      if step.UnlockLists? && step.c == c {
        assert OtherList(s, s.threads[c].w) == s.comps[o].list;
      }
    }
  }

  lemma ShorterTail(list: seq<Event>, k: nat)
    requires k < |list| && TailDistinct(list)
    ensures TailDistinct(Without(list, k))
  {}

  lemma ScanTail(own: seq<Event>, other: seq<Event>, command: Command, arg: nat)
    requires TailDistinct(own)
    ensures var r := Scan(own, other, command, arg); r.Taken? ==> TailDistinct(r.rest)
  {
    var k := Find(own, CommandEnd(command, arg));
    if k < |own| {
      ShorterTail(own, k);
    }
  }

  lemma RemovalTail(k: Comp, kind: Kind, data1: Data1, ignore1: bool, data2: nat, ignore2: bool)
    requires TailDistinct(k.list)
    ensures TailDistinct(Removal(k, kind, data1, ignore1, data2, ignore2).list)
  {
    var at := Find(k.list, Fields(kind, data1, ignore1, data2, ignore2));
    if at < |k.list| {
      ShorterTail(k.list, at);
    }
  }

  lemma DistinctTails(e: Event, list: seq<Event>)
    requires NoDup(list)
    ensures TailDistinct(list) && TailDistinct([e] + list)
  {
    assert ([e] + list)[1..] == list;
  }

  lemma ListKept(s: State, step: Step, c: nat)
    requires LockInv(s) && Enabled(s, step) && LockInv(Apply(s, step)) && c < |s.threads|
    requires ListAt(s, c)
    ensures ListAt(Apply(s, step), c)
  {
    hide FirstOccurrences, TailDistinct, NoDup, Scan, Removal, OwnFlags, Ignored, Recorded, TotalLength, Mask;
    NothingTwice();
    match step {
      case ReadLists(d) =>
        var w := s.threads[d].w;
        if d == c {
          ScanTail(s.comps[c].list, OtherList(s, w), w.command, w.arg);
        }
      case Remove(d, kind, data1, ignore1, data2, ignore2) =>
        if d == c {
          RemovalTail(s.comps[c], kind, data1, ignore1, data2, ignore2);
        }
      case Deduplicate =>
        FirstOccurrencesDistinct(s.comps[s.lock.c].list);
        DistinctTails(s.lock.e, FirstOccurrences(s.comps[s.lock.c].list));
      case Insert =>
        if s.lock.c == c {
          DistinctTails(Recorded(s.lock.e), s.comps[c].list);
        }
      case _ =>
    }
  }

  lemma NothingTwice()
    ensures TailDistinct([])
  {}

  lemma DoneKept(s: State, step: Step, c: nat)
    requires LockInv(s) && Enabled(s, step) && LockInv(Apply(s, step)) && c < |s.threads|
    requires ViewAt(s, c) && DoneAt(s, c)
    ensures DoneAt(Apply(s, step), c)
  {
    hide FirstOccurrences, Removal, Scan, TotalLength;
    var t := Apply(s, step);
    OnlyInsertAdds(s, step, c);
    BlockedKeepsFlags(s, step, c);
    if t.threads[c].Blocked? {
      var f := CommandFlag(t.threads[c].w.command);
      assert !Clears(step, c, f);
    }
  }

  lemma KnownKept(s: State, step: Step, c: nat)
    requires LockInv(s) && Enabled(s, step) && LockInv(Apply(s, step)) && c < |s.threads| && KnownAt(s, c)
    ensures KnownAt(Apply(s, step), c)
  {
    OnlyInsertAdds(s, step, c);
    hide Apply, Enabled;
    if s.lock.Handler? {
      assert Known(Recorded(s.lock.e));
    }
  }

  lemma InvKept(s: State, step: Step)
    requires Inv(s) && Enabled(s, step)
    ensures Inv(Apply(s, step)) && |Apply(s, step).threads| == |s.threads|
  {
    LockKept(s, step);
    SameThreads(s, step);
    hide Apply, Enabled, LockInv, ViewAt, ListAt, DoneAt, KnownAt;
    var t := Apply(s, step);
    forall c | 0 <= c < |t.threads| ensures ViewAt(t, c) && ListAt(t, c) && DoneAt(t, c) && KnownAt(t, c) {
      ViewKept(s, step, c);
      ListKept(s, step, c);
      DoneKept(s, step, c);
      KnownKept(s, step, c);
    }
  }

  lemma SameThreads(s: State, step: Step)
    requires Enabled(s, step)
    ensures |Apply(s, step).threads| == |s.threads|
  {
    hide FirstOccurrences, Removal, Scan, OwnFlags, Ignored, TotalLength;
  }

  lemma FlagsKept(s: State, step: Step)
    requires Inv(s) && FlagInv(s) && Enabled(s, step) && Confined(s, step)
    ensures Inv(Apply(s, step)) && FlagInv(Apply(s, step))
  {
    InvKept(s, step);
    hide Apply, Enabled, LockInv, ViewAt, OwnAt, OtherAt, ListAt, DoneAt, KnownAt, Confined;
    var t := Apply(s, step);
    forall c | 0 <= c < |t.threads| ensures OwnAt(t, c) && OtherAt(t, c) {
      OwnKept(s, step, c);
      OtherKept(s, step, c);
    }
  }

  lemma InitialInv(s: State)
    requires Initial(s)
    ensures Inv(s) && FlagInv(s)
  {}

  lemma {:induction false} RunKeepsInv(init: State, steps: seq<Step>)
    requires Initial(init) && Runs(init, steps)
    ensures Inv(After(init, steps))
  {
    hide Inv, Initial, Apply, Enabled;
    if steps == [] {
      InitialInv(init);
    } else {
      var n := |steps| - 1;
      RunKeepsInv(init, steps[..n]);
      InvKept(After(init, steps[..n]), steps[n]);
    }
  }

  lemma {:induction false} ConfinedRunKeepsFlags(init: State, steps: seq<Step>)
    requires Initial(init) && Runs(init, steps) && ConfinedRun(init, steps)
    ensures Inv(After(init, steps)) && FlagInv(After(init, steps))
  {
    hide Initial, Apply, Enabled, Confined, LockInv, ViewAt, OwnAt, OtherAt, ListAt, DoneAt, KnownAt;
    if steps == [] {
      InitialInv(init);
    } else {
      var n := |steps| - 1;
      ConfinedRunKeepsFlags(init, steps[..n]);
      FlagsKept(After(init, steps[..n]), steps[n]);
    }
  }

  /** No lost completion.  Whatever threads remove, a waiter between its list check and the return of its flag
      wait can run on as soon as its component's list holds the completion of its command. */
  lemma NoLostCompletion(s: State, c: nat, e: Event)
    requires Reachable(s) && c < |s.threads| == |s.comps| && s.threads[c].Blocked?
    requires e in s.comps[c].list && e.kind.CmdComplete? && Ends(s.threads[c].w, e)
    ensures Enabled(s, Wake(c))
  {
    var init, steps :| Initial(init) && Runs(init, steps) && After(init, steps) == s;
    RunKeepsInv(init, steps);
    assert DoneAt(s, c);
    assert CommandFlag(s.threads[c].w.command) in s.comps[c].flags * Mask(s.threads[c].w);
  }

  /** No lost wakeup.  As long as no error is removed under a blocked waiter, such a waiter can also run on as
      soon as its component's list holds a terminating error (other than a silent one), or the list of the other
      component, which still names it as the waiter to notify, holds a terminating error. */
  lemma NoLostWakeup(s: State, c: nat, e: Event)
    requires Orderly(s) && c < |s.threads| == |s.comps| && s.threads[c].Blocked?
    requires
      var w := s.threads[c].w;
      || (e in s.comps[c].list && Ends(w, e) && !Silent(e))
      || (Registered(s, c, w) && e in OtherList(s, w) && Terminating(e))
    ensures Enabled(s, Wake(c))
  {
    var init, steps :|
      Initial(init) && Runs(init, steps) && ConfinedRun(init, steps) && After(init, steps) == s;
    ConfinedRunKeepsFlags(init, steps);
    assert OwnAt(s, c) && OtherAt(s, c);
    if EventError in s.comps[c].flags {
      assert EventError in s.comps[c].flags * Mask(s.threads[c].w);
    }
  }

  /** No wait names another component that a wait still in progress names. */
  predicate ExclusiveCall(s: State, step: Step) {
    step.CallWait? && step.w.other.Peer? ==>
      forall d :: 0 <= d < |s.threads| && !s.threads[d].Idle? ==> s.threads[d].w.other != step.w.other
  }

  ghost predicate Exclusive(init: State, steps: seq<Step>)
    requires Runs(init, steps)
    decreases |steps|
  {
    steps == [] ||
    var n := |steps| - 1;
    Exclusive(init, steps[..n]) && ExclusiveCall(After(init, steps[..n]), steps[n])
  }

  ghost predicate AllRegistered(s: State) {
    forall c :: 0 <= c < |s.threads| && !s.threads[c].Idle? && s.threads[c].w.other.Peer? ==>
      Registered(s, c, s.threads[c].w)
  }

  lemma {:induction false} ExclusiveWaitersStayRegistered(init: State, steps: seq<Step>)
    requires Initial(init) && Runs(init, steps) && Exclusive(init, steps)
    ensures AllRegistered(After(init, steps))
  {
    if steps != [] {
      var n := |steps| - 1;
      ExclusiveWaitersStayRegistered(init, steps[..n]);
      RunKeepsInv(init, steps[..n]);
      RegisteredKept(After(init, steps[..n]), steps[n]);
    }
  }

  lemma RegisteredKept(s: State, step: Step)
    requires LockInv(s) && AllRegistered(s) && Enabled(s, step) && ExclusiveCall(s, step)
    ensures AllRegistered(Apply(s, step))
  {
    hide FirstOccurrences, Scan, Removal, OwnFlags, Ignored, Recorded, TotalLength, Mask;
    var t := Apply(s, step);
    forall c | 0 <= c < |t.threads| && !t.threads[c].Idle? && t.threads[c].w.other.Peer?
      ensures Registered(t, c, t.threads[c].w)
    {
      assert !s.threads[c].Idle? ==> Registered(s, c, s.threads[c].w);
    }
  }

  /** As long as no two waits in progress watch the same component, the guarantee covers every
      terminating error of the other component. */
  lemma NoLostWakeupFromOther(init: State, steps: seq<Step>, c: nat, e: Event)
    requires Initial(init) && Runs(init, steps) && ConfinedRun(init, steps) && Exclusive(init, steps)
    requires var s := After(init, steps);
             && c < |s.threads| == |s.comps| && s.threads[c].Blocked?
             && e in OtherList(s, s.threads[c].w) && Terminating(e)
    ensures Enabled(After(init, steps), Wake(c))
  {
    ExclusiveWaitersStayRegistered(init, steps);
    NoLostWakeup(After(init, steps), c, e);
  }

  /** In every reachable state only the head of an event list can have a duplicate. */
  lemma TailsAreDistinct(s: State, c: nat)
    requires Reachable(s) && c < |s.comps|
    ensures TailDistinct(s.comps[c].list)
  {
    var init, steps :| Initial(init) && Runs(init, steps) && After(init, steps) == s;
    RunKeepsInv(init, steps);
    assert ListAt(s, c);
  }

  // ---------- where the guarantee ends ----------

  /** A waiter blocks although the event that ends its wait is in its list, and no flag wakes it. */
  ghost predicate Stuck(s: State, c: nat, e: Event) {
    && c < |s.threads| == |s.comps| && s.threads[c].Blocked?
    && e in s.comps[c].list && Ends(s.threads[c].w, e)
    && !Enabled(s, Wake(c))
  }

  /** One component whose client waits for a state change has blocked. */
  function BlockedAlone(list: seq<Event>, flags: set<Flag>, lock: Lock): State {
    State([Comp(list, flags, {}, NoPeer)], [Blocked(Wait(StateSet, 0, NoPeer))], lock)
  }

  lemma BlockedAloneOrderly()
    ensures Orderly(BlockedAlone([], {}, Free))
  {
    ScanningAlone();
    hide Orderly;
    var w, k := Wait(StateSet, 0, NoPeer), Comp([], {}, {}, NoPeer);
    var s := State([k], [Scanning(w)], Client(0));
    OrderlyStep(s, ReadLists(0));
    var t := State([k], [Decided(w, false, 0)], Client(0));
    assert Apply(s, ReadLists(0)) == t;
    OrderlyStep(t, UnlockLists(0));
    assert Apply(t, UnlockLists(0)) == BlockedAlone([], {}, Free);
  }

  lemma ScanningAlone()
    ensures Orderly(State([Comp([], {}, {}, NoPeer)], [Scanning(Wait(StateSet, 0, NoPeer))], Client(0)))
  {
    hide Orderly;
    var w, k := Wait(StateSet, 0, NoPeer), Comp([], {}, {}, NoPeer);
    var s := State([k], [Idle], Free);
    OrderlyInitial(s);
    OrderlyStep(s, CallWait(0, w));
    var t := State([k], [Entering(w)], Free);
    assert Apply(s, CallWait(0, w)) == t;
    OrderlyStep(t, LockLists(0));
    assert Apply(t, LockLists(0)) == State([k], [Scanning(w)], Client(0));
  }

  /** One whole delivery to the blocked waiter's component. */
  lemma DeliveredAlone(list: seq<Event>, flags: set<Flag>, e: Event)
    requires Orderly(BlockedAlone(list, flags, Free)) && Known(e) && |FirstOccurrences(list)| < NUM_EVENTS
    ensures Orderly(BlockedAlone([Recorded(e)] + FirstOccurrences(list), flags + OwnFlags(e, {}), Free))
  {
    hide Orderly, OwnFlags, FirstOccurrences;
    var fs, raised := FirstOccurrences(list), flags + OwnFlags(e, {});
    NotifiedAlone(list, flags, e);
    var s3 := BlockedAlone(fs, flags, Handler(0, e, ToRaise));
    var s4 := BlockedAlone(fs, raised, Handler(0, e, ToInsert(false)));
    OrderlyStep(s3, Raise);
    assert Apply(s3, Raise) == s4;
    var s5 := BlockedAlone([Recorded(e)] + fs, raised, Handler(0, e, ToUnlock));
    OrderlyStep(s4, Insert);
    assert Apply(s4, Insert) == s5;
    OrderlyStep(s5, Unlock);
  }

  lemma NotifiedAlone(list: seq<Event>, flags: set<Flag>, e: Event)
    requires Orderly(BlockedAlone(list, flags, Free)) && Known(e) && |FirstOccurrences(list)| < NUM_EVENTS
    ensures Orderly(BlockedAlone(FirstOccurrences(list), flags, Handler(0, e, ToRaise)))
  {
    hide Orderly, FirstOccurrences;
    var fs := FirstOccurrences(list);
    var s0 := BlockedAlone(list, flags, Free);
    OrderlyStep(s0, Receive(0, e));
    var s1 := BlockedAlone(list, flags, Handler(0, e, ToDeduplicate));
    assert Apply(s0, Receive(0, e)) == s1;
    var s2 := BlockedAlone(fs, flags, Handler(0, e, ToNotify));
    assert Deduplicated(s1) == s2 && TotalLength(Lists(s2.comps)) == |fs|;
    OrderlyStep(s1, Deduplicate);
    OrderlyStep(s2, Notify);
    assert Apply(s2, Notify) == BlockedAlone(fs, flags, Handler(0, e, ToRaise));
  }

  /** Without errors removed under a blocked waiter, the wakeup for an event can be lost in some run if and only
      if the event is a disk-full or maximum-file-size error that terminates a command. */
  lemma LostExactlyWhenSilent(e: Event)
    requires Known(e)
    ensures (exists s, c :: Orderly(s) && Stuck(s, c, e)) <==> Silent(e) && Terminating(e)
  {
    if s, c :| Orderly(s) && Stuck(s, c, e) {
      if !Silent(e) {
        NoLostWakeup(s, c, e);
      }
    }
    if Silent(e) && Terminating(e) {
      SilentErrorDelivered(e);
    }
  }

  lemma SilentErrorDelivered(e: Event)
    requires Known(e) && Silent(e) && Terminating(e)
    ensures Orderly(BlockedAlone([e], {}, Free)) && Stuck(BlockedAlone([e], {}, Free), 0, e)
  {
    BlockedAloneOrderly();
    hide Orderly;
    DistinctUnchanged([]);
    DeliveredAlone([], {}, e);
    assert [Recorded(e)] + FirstOccurrences([]) == [e] && {} + OwnFlags(e, {}) == {};
  }

  const FATAL := Event(Error, Code(Overflow), 1)
  const FATAL2 := Event(Error, Code(StreamCorrupt), 1)

  lemma ErrorDelivered(e: Event)
    requires Known(e) && e.kind.Error? && !Silent(e)
    ensures Orderly(BlockedAlone([e], {EventError}, Free))
  {
    BlockedAloneOrderly();
    hide Orderly;
    DistinctUnchanged([]);
    DeliveredAlone([], {}, e);
    assert [Recorded(e)] + FirstOccurrences([]) == [e] && {} + OwnFlags(e, {}) == {EventError};
  }

  lemma ErrorsDelivered(x: Event, e: Event)
    requires Known(x) && x.kind.Error? && Known(e) && e.kind.Error? && !Silent(e)
    ensures Orderly(BlockedAlone([x, e], {EventError}, Free))
  {
    ErrorDelivered(e);
    hide Orderly, FirstOccurrences;
    DistinctUnchanged([e]);
    DeliveredAlone([e], {EventError}, x);
    assert [Recorded(x)] + FirstOccurrences([e]) == [x, e];
    assert {EventError} + OwnFlags(x, {}) == {EventError};
  }

  /** Removing an error from another thread leaves a terminating error behind without its flag. */
  lemma ErrorRemoved(x: Event, e: Event, data1: Data1, ignore1: bool, data2: nat, ignore2: bool)
    requires Terminating(e) && Selects(Fields(Error, data1, ignore1, data2, ignore2), x)
    ensures var s, step := BlockedAlone([x, e], {EventError}, Free), Remove(0, Error, data1, ignore1, data2, ignore2);
            && Enabled(s, step) && Apply(s, step) == BlockedAlone([e], {}, Free)
            && !Stuck(s, 0, e) && Stuck(BlockedAlone([e], {}, Free), 0, e)
  {
    var s := BlockedAlone([x, e], {EventError}, Free);
    var q := Fields(Error, data1, ignore1, data2, ignore2);
    FindIs([x, e], q, 0);
    assert Removed([x, e], q) == [e];
    assert EventError in s.comps[0].flags * Mask(s.threads[0].w);
    assert {EventError} - {EventError} == {};
    assert s.comps[0 := Removal(s.comps[0], Error, data1, ignore1, data2, ignore2)] == [Comp([e], {}, {}, NoPeer)];
  }

  /** In runs with all removals, the wakeup for an event can be lost if and only if the event is an error that
      terminates a command. */
  lemma LostExactlyWhenTerminating(e: Event)
    requires Known(e)
    ensures (exists s, c :: Reachable(s) && Stuck(s, c, e)) <==> Terminating(e)
  {
    if s, c :| Reachable(s) && Stuck(s, c, e) {
      if e.kind.CmdComplete? {
        NoLostCompletion(s, c, e);
      }
    }
    if Terminating(e) {
      if Silent(e) {
        SilentErrorDelivered(e);
        OrderlyIsReachable(BlockedAlone([e], {}, Free));
      } else {
        ErrorsDelivered(FATAL, e);
        ErrorRemoved(FATAL, e, Num(0), true, 0, true);
        ReachStep(BlockedAlone([FATAL, e], {EventError}, Free), Remove(0, Error, Num(0), true, 0, true));
      }
    }
  }

  /** Step `step` takes an event from under the blocked waiter of `c`, which then misses the event `e`, not
      itself silent. */
  ghost predicate Harms(s: State, c: nat, step: Step, e: Event) {
    && Orderly(s) && c < |s.threads| && s.threads[c].Blocked? && Enabled(s, step)
    && !Silent(e) && !Stuck(s, c, e) && Stuck(Apply(s, step), c, e)
  }

  /** A removal under a blocked waiter can make it miss an event if and only if it asks for an error that the
      handler records. */
  lemma RemovalHarmsExactlyForErrors(kind: Kind, data1: Data1, ignore1: bool, data2: nat, ignore2: bool)
    ensures (exists s, c, e :: Harms(s, c, Remove(c, kind, data1, ignore1, data2, ignore2), e))
       <==> kind.Error? && (ignore1 || (data1.Code? && data1.code != OtherError))
  {
    if s, c, e :| Harms(s, c, Remove(c, kind, data1, ignore1, data2, ignore2), e) {
      HarmMeansError(s, c, e, kind, data1, ignore1, data2, ignore2);
    }
    if kind.Error? && (ignore1 || (data1.Code? && data1.code != OtherError)) {
      var x := Event(Error, if ignore1 then Code(DrmGeneral) else data1, if ignore2 then 1 else data2);
      var e := if x == FATAL then FATAL2 else FATAL;
      ErrorsDelivered(x, e);
      ErrorRemoved(x, e, data1, ignore1, data2, ignore2);
      assert Harms(BlockedAlone([x, e], {EventError}, Free), 0, Remove(0, kind, data1, ignore1, data2, ignore2), e);
    }
  }

  lemma HarmMeansError(s: State, c: nat, e: Event, kind: Kind, data1: Data1, ignore1: bool, data2: nat, ignore2: bool)
    requires Harms(s, c, Remove(c, kind, data1, ignore1, data2, ignore2), e)
    ensures kind.Error? && (ignore1 || (data1.Code? && data1.code != OtherError))
  {
    var step := Remove(c, kind, data1, ignore1, data2, ignore2);
    if !kind.Error? {
      OrderlyStep(s, step);
      NoLostWakeup(Apply(s, step), c, e);
    } else {
      hide Runs, After;
      ListsKnown(s, c);
      var list, q := s.comps[c].list, Fields(kind, data1, ignore1, data2, ignore2);
      var k := Find(list, q);
      if k < |list| {
        assert list[k] in list;
      }
    }
  }

  lemma ListsKnown(s: State, c: nat)
    requires Orderly(s) && c < |s.threads|
    ensures |s.threads| == |s.comps| && forall e :: e in s.comps[c].list ==> Known(e)
  {
    var init, steps :|
      Initial(init) && Runs(init, steps) && ConfinedRun(init, steps) && After(init, steps) == s;
    RunKeepsInv(init, steps);
    assert KnownAt(s, c);
  }

  /** Two waiters, on components 0 and 1, both watch component 2. */
  function TwoWatchers(t0: Thread, t1: Thread, k1: Comp, k2: Comp, lock: Lock): State {
    State([Comp([], {}, {}, NoPeer), k1, k2], [t0, t1, Idle], lock)
  }

  lemma FirstWatcherBlocks(w: Wait)
    requires w == Wait(StateSet, 0, Peer(2))
    ensures Orderly(TwoWatchers(Blocked(w), Entering(w), Comp([], {}, {}, NoPeer), Comp([], {}, {}, Peer(1)), Free))
  {
    hide Orderly;
    var k := Comp([], {}, {}, NoPeer);
    var watched := Comp([], {}, {}, Peer(0));
    var s0 := TwoWatchers(Idle, Idle, k, k, Free);
    OrderlyInitial(s0);
    OrderlyStep(s0, CallWait(0, w));
    var s1 := TwoWatchers(Entering(w), Idle, k, watched, Free);
    assert Apply(s0, CallWait(0, w)) == s1;
    OrderlyStep(s1, LockLists(0));
    var s2 := TwoWatchers(Scanning(w), Idle, k, watched, Client(0));
    assert Apply(s1, LockLists(0)) == s2;
    OrderlyStep(s2, ReadLists(0));
    var s3 := TwoWatchers(Decided(w, false, 0), Idle, k, watched, Client(0));
    assert Apply(s2, ReadLists(0)) == s3;
    OrderlyStep(s3, UnlockLists(0));
    var s4 := TwoWatchers(Blocked(w), Idle, k, watched, Free);
    assert Apply(s3, UnlockLists(0)) == s4;
    OrderlyStep(s4, CallWait(1, w));
    assert Apply(s4, CallWait(1, w))
        == TwoWatchers(Blocked(w), Entering(w), k, Comp([], {}, {}, Peer(1)), Free);
  }

  lemma WatchedErrorDelivered(w: Wait, e: Event)
    requires w == Wait(StateSet, 0, Peer(2)) && Known(e) && Terminating(e)
    ensures Orderly(TwoWatchers(Blocked(w), Entering(w), Comp([], {EventError}, {}, NoPeer),
                                  Comp([e], OwnFlags(e, {}), {}, Peer(1)), Free))
  {
    FirstWatcherBlocks(w);
    var b, t := Blocked(w), Entering(w);
    WatchedErrorNotified(b, t, e);
    WatchedErrorInserted(b, t, e, Comp([], {EventError}, {}, NoPeer), Comp([], {}, {}, Peer(1)));
  }

  lemma {:induction false} NothingHeld(lists: seq<seq<Event>>)
    requires forall c :: 0 <= c < |lists| ==> lists[c] == []
    ensures TotalLength(lists) == 0
  {
    if lists != [] {
      NothingHeld(lists[1..]);
    }
  }

  lemma WatchedErrorNotified(b: Thread, t: Thread, e: Event)
    requires Known(e) && Terminating(e)
    requires Orderly(TwoWatchers(b, t, Comp([], {}, {}, NoPeer), Comp([], {}, {}, Peer(1)), Free))
    ensures Orderly(TwoWatchers(b, t, Comp([], {EventError}, {}, NoPeer), Comp([], {}, {}, Peer(1)),
                                  Handler(2, e, ToRaise)))
  {
    hide Orderly, FirstOccurrences;
    var k, o, woken := Comp([], {}, {}, NoPeer), Comp([], {}, {}, Peer(1)), Comp([], {EventError}, {}, NoPeer);
    var s0 := TwoWatchers(b, t, k, o, Free);
    OrderlyStep(s0, Receive(2, e));
    var s1 := TwoWatchers(b, t, k, o, Handler(2, e, ToDeduplicate));
    assert Apply(s0, Receive(2, e)) == s1;
    var s2 := TwoWatchers(b, t, k, o, Handler(2, e, ToNotify));
    DistinctUnchanged([]);
    NothingHeld(Lists(s2.comps));
    assert Deduplicated(s1) == s2;
    OrderlyStep(s1, Deduplicate);
    OrderlyStep(s2, Notify);
    var s3 := TwoWatchers(b, t, woken, o, Handler(2, e, ToRaise));
    assert {} + {EventError} == {EventError};
    assert Apply(s2, Notify) == s3;
  }

  lemma WatchedErrorInserted(b: Thread, t: Thread, e: Event, woken: Comp, o: Comp)
    requires Known(e) && Terminating(e) && o == Comp([], {}, {}, Peer(1))
    requires Orderly(TwoWatchers(b, t, woken, o, Handler(2, e, ToRaise)))
    ensures Orderly(TwoWatchers(b, t, woken, Comp([e], OwnFlags(e, {}), {}, Peer(1)), Free))
  {
    hide Orderly;
    var s3 := TwoWatchers(b, t, woken, o, Handler(2, e, ToRaise));
    assert {} + OwnFlags(e, {}) == OwnFlags(e, {});
    assert [Recorded(e)] + [] == [e];
    OrderlyStep(s3, Raise);
    var s4 := TwoWatchers(b, t, woken, Comp([], OwnFlags(e, {}), {}, Peer(1)), Handler(2, e, ToInsert(false)));
    assert Apply(s3, Raise) == s4;
    OrderlyStep(s4, Insert);
    var s5 := TwoWatchers(b, t, woken, Comp([e], OwnFlags(e, {}), {}, Peer(1)), Handler(2, e, ToUnlock));
    assert Apply(s4, Insert) == s5;
    OrderlyStep(s5, Unlock);
  }

  /** The blocked waiter of `c` misses event `e` of the other component it watches. */
  ghost predicate MissesOther(s: State, c: nat, e: Event) {
    && c < |s.threads| == |s.comps| && s.threads[c].Blocked?
    && e in OtherList(s, s.threads[c].w) && !Enabled(s, Wake(c))
  }

  /** The other component notifies only the waiter that registered last: for every terminating error, a waiter can
      miss it exactly when it has been displaced, or the registration has ended, by another wait. */
  lemma MissedExactlyWhenDisplaced(e: Event, registered: bool)
    requires Known(e) && Terminating(e)
    ensures (exists s, c: nat :: Orderly(s) && MissesOther(s, c, e) && Registered(s, c, s.threads[c].w) == registered)
       <==> !registered
  {
    if s, c: nat :| Orderly(s) && MissesOther(s, c, e) && Registered(s, c, s.threads[c].w) == registered {
      if registered {
        NoLostWakeup(s, c, e);
      }
    }
    if !registered {
      var w := Wait(StateSet, 0, Peer(2));
      WatchedErrorDelivered(w, e);
      var s := TwoWatchers(Blocked(w), Entering(w), Comp([], {EventError}, {}, NoPeer),
                           Comp([e], OwnFlags(e, {}), {}, Peer(1)), Free);
      assert MissesOther(s, 0, e) && !Registered(s, 0, s.threads[0].w);
    }
  }

  // ---------- capacity of the event pool ----------

  /** Only events of `alpha[c]` are ever delivered to component `c`. */
  ghost predicate DrawsFrom(alpha: seq<set<Event>>, steps: seq<Step>) {
    forall i :: 0 <= i < |steps| && steps[i].Receive? && steps[i].c < |alpha| ==>
      Recorded(steps[i].e) in alpha[steps[i].c]
  }

  ghost predicate WithinAlphabet(s: State, alpha: seq<set<Event>>) {
    && |alpha| == |s.comps|
    && (forall c, e :: 0 <= c < |s.comps| && e in s.comps[c].list ==> e in alpha[c])
    && (s.lock.Handler? && s.lock.c < |s.comps| ==> Recorded(s.lock.e) in alpha[s.lock.c])
  }

  lemma {:induction false} RunStaysWithinAlphabet(init: State, steps: seq<Step>, alpha: seq<set<Event>>)
    requires Initial(init) && Runs(init, steps) && DrawsFrom(alpha, steps) && |alpha| == |init.comps|
    ensures WithinAlphabet(After(init, steps), alpha)
  {
    if steps != [] {
      var n := |steps| - 1;
      RunStaysWithinAlphabet(init, steps[..n], alpha);
      RunKeepsInv(init, steps[..n]);
      var s := After(init, steps[..n]);
      var t := Apply(s, steps[n]);
      forall c | 0 <= c < |s.comps| ensures forall e :: e in t.comps[c].list ==> e in alpha[c] {
        OnlyInsertAdds(s, steps[n], c);
      }
    }
  }

  lemma {:induction false} DistinctFit(s: seq<Event>, a: set<Event>)
    requires NoDup(s) && forall e :: e in s ==> e in a
    ensures |s| <= |a|
  {
    if s != [] {
      var n := |s| - 1;
      assert s[n] in a;
      DistinctFit(s[..n], a - {s[n]});
    }
  }

  lemma {:induction false} TotalBound(lists: seq<seq<Event>>, d: nat)
    requires forall c :: 0 <= c < |lists| ==> |lists[c]| <= d + 1
    ensures TotalLength(lists) <= |lists| * (d + 1)
    ensures (exists c :: 0 <= c < |lists| && |lists[c]| <= d) ==> TotalLength(lists) < |lists| * (d + 1)
  {
    if lists != [] {
      TotalBound(lists[1..], d);
      assert |lists| * (d + 1) == (d + 1) + |lists[1..]| * (d + 1);
      if c :| 0 <= c < |lists| && |lists[c]| <= d {
        assert c > 0 ==> lists[1..][c-1] == lists[c];
      }
    }
  }

  lemma ListFits(s: State, c: nat, alpha: seq<set<Event>>, d: nat)
    requires LockInv(s) && WithinAlphabet(s, alpha) && c < |s.comps| && ListAt(s, c) && |alpha[c]| <= d
    ensures |s.comps[c].list| <= d + 1
    ensures |FirstOccurrences(s.comps[c].list)| <= d
  {
    var list := s.comps[c].list;
    FirstOccurrencesDistinct(list);
    DistinctFit(FirstOccurrences(list), alpha[c]);
    if list != [] {
      DistinctFit(list[1..], alpha[c]);
    }
  }

  lemma SpareAfterCleanUp(s: State, alpha: seq<set<Event>>, d: nat)
    requires Inv(s) && WithinAlphabet(s, alpha) && s.lock.Handler?
    requires forall c :: 0 <= c < |alpha| ==> |alpha[c]| <= d
    requires |alpha| * (d + 1) <= NUM_EVENTS
    ensures TotalLength(Lists(Deduplicated(s).comps)) < NUM_EVENTS
  {
    var t := Deduplicated(s);
    forall c | 0 <= c < |s.comps|
      ensures |s.comps[c].list| <= d + 1 && |FirstOccurrences(s.comps[c].list)| <= d
    {
      assert ListAt(s, c);
      ListFits(s, c, alpha, d);
    }
    assert |Lists(t.comps)[s.lock.c]| <= d;
    TotalBound(Lists(t.comps), d);
  }

  /** If each of the components only ever reports at most `d` distinct events, and a slot more than
      that for each component fits the pool, the handler's assertion that a slot is spare never fails. */
  lemma PoolSuffices(init: State, steps: seq<Step>, alpha: seq<set<Event>>, d: nat)
    requires Initial(init) && Runs(init, steps) && DrawsFrom(alpha, steps) && |alpha| == |init.comps|
    requires forall c :: 0 <= c < |alpha| ==> |alpha[c]| <= d
    requires |alpha| * (d + 1) <= NUM_EVENTS
    ensures var s := After(init, steps);
            s.lock.Handler? && s.lock.pc.ToDeduplicate? ==> Enabled(s, Step.Deduplicate)
  {
    var s := After(init, steps);
    RunKeepsInv(init, steps);
    RunStaysWithinAlphabet(init, steps, alpha);
    if s.lock.Handler? {
      SpareAfterCleanUp(s, alpha, d);
    }
  }

  // ---------- what a wait returns ----------

  /** The first event of `own`, if any, that is the completion waited for or an error that terminated a command. */
  ghost predicate FirstEnd(own: seq<Event>, w: Wait, k: nat) {
    && k <= |own|
    && (forall i :: 0 <= i < k ==>
          own[i] != Event(CmdComplete, Cmd(w.command), w.arg) && !(own[i].kind == Error && own[i].data2 == 1))
    && (k < |own| ==>
          own[k] == Event(CmdComplete, Cmd(w.command), w.arg) || (own[k].kind == Error && own[k].data2 == 1))
  }

  /** The code for what the lists of the own and of the other component hold: 0 for a completion, or if the component
      had been in the state asked for, -1 for another error, -2 for an error of the other component. */
  ghost predicate Answers(own: seq<Event>, other: seq<Event>, w: Wait, ret: int) {
    exists k: nat :: FirstEnd(own, w, k) &&
      if k < |own| then
        ret == if own[k].kind == CmdComplete || own[k].data1 == Code(SameState) then 0 else -1
      else
        ret == -2 && exists e :: e in other && e.kind == Error && e.data2 == 1
  }

  lemma ScanAnswers(own: seq<Event>, other: seq<Event>, w: Wait)
    ensures match Scan(own, other, w.command, w.arg)
            case Taken(ret, _, _) => Answers(own, other, w, ret)
            case OtherFailed => Answers(own, other, w, -2)
            case Nothing => true
  {
    var k := ScanMeans(own, other, w.command, w.arg);
    assert FirstEnd(own, w, k);
  }

  /** Step `n` of the run was the look at the lists that made the wait `w` of `c` return `ret`. */
  ghost predicate ReadAt(init: State, steps: seq<Step>, n: nat, c: nat, w: Wait, ret: int) {
    && n < |steps| && steps[n] == ReadLists(c) && Runs(init, steps[..n])
    && var s := After(init, steps[..n]);
       && c < |s.threads| && c < |s.comps| && s.threads[c] == Scanning(w)
       && Answers(s.comps[c].list, OtherList(s, w), w, ret)
  }

  /** A client thread that knows its answer: it is about to release the lock, or to return. */
  predicate Answered(t: Thread, w: Wait, ret: int) {
    t == Decided(w, true, ret) || t == Returning(w, ret)
  }

  lemma AnswerMoves(s: State, step: Step, c: nat, w: Wait, ret: int)
    requires Enabled(s, step) && c < |s.threads| && Answered(Apply(s, step).threads[c], w, ret)
    ensures Answered(s.threads[c], w, ret) ||
            (step == ReadLists(c) && s.threads[c] == Scanning(w)
             && Answers(s.comps[c].list, OtherList(s, w), w, ret))
  {
    hide Answers, Scan, Removal, OwnFlags;
    if step == ReadLists(c) {
      ScanAnswers(s.comps[c].list, OtherList(s, s.threads[c].w), s.threads[c].w);
    }
  }

  lemma ThreadsStay(s: State, step: Step)
    requires Enabled(s, step)
    ensures |Apply(s, step).threads| == |s.threads| == |s.comps|
  {}

  lemma ReadEarlier(init: State, steps: seq<Step>, m: nat, n: nat, c: nat, w: Wait, ret: int)
    requires m <= |steps| && ReadAt(init, steps[..m], n, c, w, ret)
    ensures ReadAt(init, steps, n, c, w, ret)
  {
    assert steps[..m][..n] == steps[..n];
  }

  /** In every run a wait returns the code for what its two lists held when it looked at them under the lock. */
  lemma {:induction false} WaitReturns(init: State, steps: seq<Step>, c: nat, w: Wait, ret: int) returns (n: nat)
    requires Initial(init) && Runs(init, steps)
    requires c < |After(init, steps).threads| && Answered(After(init, steps).threads[c], w, ret)
    ensures ReadAt(init, steps, n, c, w, ret)
  {
    hide Enabled, Apply, Answers, Answered;
    if steps == [] {
      NoAnswerYet(init, c, w, ret);
    } else {
      var m := |steps| - 1;
      var s := After(init, steps[..m]);
      ThreadsStay(s, steps[m]);
      AnswerMoves(s, steps[m], c, w, ret);
      if Answered(s.threads[c], w, ret) {
        n := WaitReturns(init, steps[..m], c, w, ret);
        ReadEarlier(init, steps, m, n, c, w, ret);
      } else {
        n := m;
      }
    }
  }

  lemma NoAnswerYet(init: State, c: nat, w: Wait, ret: int)
    requires Initial(init) && c < |init.threads|
    ensures !Answered(init.threads[c], w, ret)
  {}

  /** The steps of a handler together do to the component what one delivery does to the lists and flags on the heap. */
  lemma HandlerDelivers(s: State)
    requires s.lock.Handler? && Enabled(s, Step.Deduplicate) && Known(s.lock.e)
    ensures var c, e := s.lock.c, s.lock.e;
            var a := Apply(s, Step.Deduplicate);
            && Enabled(a, Notify) && Enabled(Apply(a, Notify), Raise)
            && var b := Apply(Apply(a, Notify), Raise);
               && Enabled(b, Insert)
               && var k, k' := s.comps[c], Apply(b, Insert).comps[c];
                  && k'.list == AfterEvent(k.list, e, k.errorMask)
                  && k'.flags == k.flags + OwnFlags(e, k.errorMask)
                                 + if e.kind == Error && e.data2 == 1 && k.related == Peer(c) then {EventError} else {}
  {
    hide FirstOccurrences, OwnFlags;
  }

  // ---------- progress ----------

  /** Which flags wake a waiter. */
  lemma MaskIs(w: Wait)
    ensures w.command == StateSet ==> Mask(w) == {EventError, StateChanged}
    ensures w.command == PortDisable ==> Mask(w) == {EventError, PortDisabled}
    ensures w.command == PortEnable ==> Mask(w) == {EventError, PortEnabled}
  {}

  /** The next step of the thread that holds the event lock. */
  function HolderStep(s: State): Step
    requires !s.lock.Free? && (s.lock.Client? ==> s.lock.c < |s.threads|)
  {
    match s.lock
    case Client(c) => if s.threads[c].Scanning? then ReadLists(c) else UnlockLists(c)
    case Handler(_, _, pc) =>
      match pc
      case ToDeduplicate => Step.Deduplicate
      case ToNotify => Notify
      case ToRaise => Raise
      case ToInsert(_) => Insert
      case ToUnlock => Unlock
  }

  /** No deadlock.  In every reachable state the thread that holds the event lock can go on, unless its handler finds no
      spare slot; while the lock is free, every client thread that wants it can take it. */
  lemma LockHolderGoesOn(init: State, steps: seq<Step>)
    requires Initial(init) && Runs(init, steps)
    ensures var s := After(init, steps);
            && (!s.lock.Free? ==>
                  && (s.lock.Client? ==> s.lock.c < |s.threads|)
                  && (HolderStep(s) != Step.Deduplicate ==> Enabled(s, HolderStep(s))))
            && (s.lock.Free? ==>
                  forall c :: 0 <= c < |s.threads| && s.threads[c].Entering? ==> Enabled(s, LockLists(c)))
            && (forall c :: 0 <= c < |s.threads| && s.threads[c].Returning? ==> Enabled(s, Return(c)))
  {
    hide Runs, After, Initial, Addressed, ViewAt, ListAt, DoneAt, KnownAt;
    RunKeepsInv(init, steps);
  }
}
