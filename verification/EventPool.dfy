/** The pool of event slots that one OpenMAX client shares between the event lists of all its
    components.  A slot is named by its index in the client's array; a list is threaded through
    the `next` fields of the slots and moves a slot by relinking it. */
module EventPool {
  import opened OmxEvents
  import opened Sequences

  const NIL: int := -1

  datatype Slot = Slot(event: Event, next: int)

  /** Which list a slot lies on. */
  datatype Home = Spare | Listed(owner: Component)

  ghost function SlotAt(s: seq<nat>, i: nat): int {
    if i < |s| then s[i] else NIL
  }

  /** Following `next` from `head` visits the slots of `s` in order and ends in NIL. */
  ghost predicate Threaded(rep: seq<Slot>, head: int, s: seq<nat>) {
    && head == SlotAt(s, 0)
    && (forall i {:trigger s[i]} :: 0 <= i < |s| ==> s[i] < |rep|)
    && (forall i {:trigger rep[s[i]]} :: 0 <= i < |s| ==> rep[s[i]].next == SlotAt(s, i + 1))
  }

  /** `s` lists the slots at home `h`, each once. */
  ghost predicate Holds(home: seq<Home>, h: Home, s: seq<nat>) {
    && NoDup(s)
    && (forall i :: 0 <= i < |s| ==> s[i] < |home| && home[s[i]] == h)
    && (forall n {:trigger n in s} :: 0 <= n < |home| && home[n] == h ==> n in s)
  }

  /** The slots of `s` hold the events `es`, in order. */
  ghost predicate Store(rep: seq<Slot>, s: seq<nat>, es: seq<Event>) {
    && |es| == |s|
    && (forall i {:trigger s[i]} :: 0 <= i < |s| ==> s[i] < |rep|)
    && (forall i {:trigger es[i]} :: 0 <= i < |s| ==> rep[s[i]].event == es[i])
  }

  lemma UnthreadAt(rep: seq<Slot>, head: int, s: seq<nat>, k: nat, rep': seq<Slot>, head': int)
    requires Threaded(rep, head, s) && NoDup(s) && k < |s| && |rep'| == |rep|
    requires if k == 0 then head' == rep[s[0]].next
             else head' == head && rep'[s[k-1]].next == rep[s[k]].next
    requires forall i {:trigger rep'[s[i]]} :: 0 <= i < |s| && i != k && i + 1 != k ==>
      rep'[s[i]].next == rep[s[i]].next
    ensures Threaded(rep', head', Without(s, k))
  {
    var t := Without(s, k);
    assert forall i {:trigger t[i]} :: 0 <= i < |t| ==> t[i] == s[if i < k then i else i + 1];
  }

  lemma StoreWithout(rep: seq<Slot>, s: seq<nat>, es: seq<Event>, k: nat, rep': seq<Slot>)
    requires Store(rep, s, es) && k < |s| && |rep'| == |rep|
    requires forall i {:trigger rep'[s[i]]} :: 0 <= i < |s| && i != k ==> rep'[s[i]].event == rep[s[i]].event
    ensures Store(rep', Without(s, k), Without(es, k))
  {
    var t, fs := Without(s, k), Without(es, k);
    forall i | 0 <= i < |t| ensures t[i] < |rep'| && rep'[t[i]].event == fs[i] {
      var j := if i < k then i else i + 1;
      assert t[i] == s[j] && fs[i] == es[j];
      assert rep'[s[j]].event == rep[s[j]].event;
    }
  }

  lemma RethreadFront(rep: seq<Slot>, head: int, s: seq<nat>, n: nat, rep': seq<Slot>)
    requires Threaded(rep, head, s) && n < |rep| && |rep'| == |rep|
    requires rep'[n].next == head
    requires forall i {:trigger rep'[s[i]]} :: 0 <= i < |s| ==> rep'[s[i]] == rep[s[i]]
    ensures Threaded(rep', n, [n] + s)
  {
    var t := [n] + s;
    forall i | 0 <= i < |t| ensures t[i] < |rep'| && rep'[t[i]].next == SlotAt(t, i + 1) {
      if i > 0 {
        assert t[i] == s[i-1];
        assert rep'[s[i-1]] == rep[s[i-1]];
      }
    }
  }

  lemma Untouched(rep: seq<Slot>, head: int, s: seq<nat>, es: seq<Event>, rep': seq<Slot>)
    requires Threaded(rep, head, s) && Store(rep, s, es) && |rep'| == |rep|
    requires forall i {:trigger rep'[s[i]]} :: 0 <= i < |s| ==> rep'[s[i]] == rep[s[i]]
    ensures Threaded(rep', head, s) && Store(rep', s, es)
  {}

  lemma HomeLost(home: seq<Home>, h: Home, s: seq<nat>, k: nat, g: Home)
    requires Holds(home, h, s) && k < |s| && g != h
    ensures Holds(home[s[k] := g], h, Without(s, k))
  {
    WithoutMembers(s, k);
    var t := Without(s, k);
    assert forall i :: 0 <= i < |t| ==> t[i] in t;
  }

  lemma HomeGained(home: seq<Home>, h: Home, s: seq<nat>, n: nat)
    requires Holds(home, h, s) && n < |home| && home[n] != h
    ensures Holds(home[n := h], h, [n] + s)
  {
    var t := [n] + s;
    assert forall i :: 0 < i < |t| ==> t[i] == s[i-1];
  }

  lemma HomeKept(home: seq<Home>, h: Home, s: seq<nat>, n: nat, g: Home)
    requires Holds(home, h, s) && n < |home| && home[n] != h && g != h
    ensures Holds(home[n := g], h, s)
  {}

  /** One client's memory: the slots, the top of the spare list and each component's list head. */
  datatype Pool = Pool(rep: seq<Slot>, spare: int, heads: map<Component, int>)

  /** The slots on each list and the events of each component's list, in list order. */
  datatype Layout = Layout(
    free: seq<nat>, lists: map<Component, seq<nat>>, events: map<Component, seq<Event>>, home: seq<Home>)

  /** The spare list and the component lists are threaded through the slots, and every slot lies,
      once, on exactly the list that `home` names. */
  ghost predicate WellFormed(p: Pool, l: Layout) {
    && |p.rep| == NUM_EVENTS == |l.home|
    && p.heads.Keys == l.lists.Keys == l.events.Keys
    && (forall n :: 0 <= n < NUM_EVENTS && l.home[n].Listed? ==> l.home[n].owner in l.lists)
    && SpareWellFormed(p, l)
    && (forall c | c in l.lists :: ListWellFormed(p, l, c))
  }

  ghost predicate SpareWellFormed(p: Pool, l: Layout) {
    Threaded(p.rep, p.spare, l.free) && Holds(l.home, Spare, l.free)
  }

  ghost predicate ListWellFormed(p: Pool, l: Layout, c: Component) {
    && c in p.heads && c in l.lists && c in l.events
    && Threaded(p.rep, p.heads[c], l.lists[c])
    && Store(p.rep, l.lists[c], l.events[c])
    && Holds(l.home, Listed(c), l.lists[c])
  }

  /** Relinks slot `node`, found after slot `prev` on the list of `c`, to the top of the spare list,
      leaving `left` in it. */
  function ReleaseSlot(p: Pool, c: Component, prev: int, node: nat, left: Event): Pool
    requires node < |p.rep| && -1 <= prev < |p.rep|
  {
    var rest := p.rep[node].next;
    var rep := if prev == NIL then p.rep else p.rep[prev := p.rep[prev].(next := rest)];
    Pool(rep[node := Slot(left, p.spare)],
         node,
         if prev == NIL then p.heads[c := rest] else p.heads)
  }

  ghost function ReleaseLayout(l: Layout, c: Component, k: nat): Layout
    requires c in l.lists && c in l.events && k < |l.lists[c]| == |l.events[c]| && l.lists[c][k] < |l.home|
  {
    var node := l.lists[c][k];
    Layout([node] + l.free,
           l.lists[c := Without(l.lists[c], k)],
           l.events[c := Without(l.events[c], k)],
           l.home[node := Spare])
  }

  /** The slot before position `k`, or NIL at the front. */
  ghost function Before(s: seq<nat>, k: nat): int
    requires k <= |s|
  {
    if k == 0 then NIL else s[k-1]
  }

  lemma ReleasedList(p: Pool, l: Layout, c: Component, k: nat, left: Event)
    requires |p.rep| == |l.home| && ListWellFormed(p, l, c) && k < |l.lists[c]|
    ensures ListWellFormed(
              ReleaseSlot(p, c, Before(l.lists[c], k), l.lists[c][k], left), ReleaseLayout(l, c, k), c)
  {
    var s, node := l.lists[c], l.lists[c][k];
    var q := ReleaseSlot(p, c, Before(s, k), node, left);
    UnthreadAt(p.rep, p.heads[c], s, k, q.rep, q.heads[c]);
    StoreWithout(p.rep, s, l.events[c], k, q.rep);
    HomeLost(l.home, Listed(c), s, k, Spare);
  }

  lemma ReleasedSpare(p: Pool, l: Layout, c: Component, k: nat, left: Event)
    requires |p.rep| == |l.home| && ListWellFormed(p, l, c) && SpareWellFormed(p, l) && k < |l.lists[c]|
    ensures SpareWellFormed(
              ReleaseSlot(p, c, Before(l.lists[c], k), l.lists[c][k], left), ReleaseLayout(l, c, k))
  {
    var s, node := l.lists[c], l.lists[c][k];
    var q := ReleaseSlot(p, c, Before(s, k), node, left);
    RethreadFront(p.rep, p.spare, l.free, node, q.rep);
    HomeGained(l.home, Spare, l.free, node);
  }

  lemma ReleasedOther(p: Pool, l: Layout, c: Component, k: nat, left: Event, d: Component)
    requires |p.rep| == |l.home| && ListWellFormed(p, l, c) && k < |l.lists[c]|
    requires d != c && ListWellFormed(p, l, d)
    ensures ListWellFormed(
              ReleaseSlot(p, c, Before(l.lists[c], k), l.lists[c][k], left), ReleaseLayout(l, c, k), d)
  {
    var s, node := l.lists[c], l.lists[c][k];
    var q := ReleaseSlot(p, c, Before(s, k), node, left);
    Untouched(p.rep, p.heads[d], l.lists[d], l.events[d], q.rep);
    HomeKept(l.home, Listed(d), l.lists[d], node, Spare);
  }

  lemma ReleaseDefined(p: Pool, l: Layout, c: Component, k: nat)
    requires |p.rep| == |l.home| && ListWellFormed(p, l, c) && k < |l.lists[c]|
    ensures |l.lists[c]| == |l.events[c]| && l.lists[c][k] < |p.rep| && -1 <= Before(l.lists[c], k) < |p.rep|
  {}

  lemma ReleasedKeys(p: Pool, l: Layout, c: Component, k: nat, left: Event)
    requires WellFormed(p, l) && c in l.lists && k < |l.lists[c]|
    requires ListWellFormed(p, l, c)
    ensures var q, m := ReleaseSlot(p, c, Before(l.lists[c], k), l.lists[c][k], left), ReleaseLayout(l, c, k);
            && |q.rep| == NUM_EVENTS == |m.home|
            && q.heads.Keys == m.lists.Keys == m.events.Keys == l.lists.Keys
            && (forall n :: 0 <= n < NUM_EVENTS && m.home[n].Listed? ==> m.home[n].owner in m.lists)
  {}

  lemma ReleasedOthers(p: Pool, l: Layout, c: Component, k: nat, left: Event, q: Pool, m: Layout)
    requires WellFormed(p, l) && c in l.lists && k < |l.lists[c]| && ListWellFormed(p, l, c)
    requires q == ReleaseSlot(p, c, Before(l.lists[c], k), l.lists[c][k], left) && m == ReleaseLayout(l, c, k)
    ensures forall d | d in l.lists && d != c :: ListWellFormed(q, m, d)
  {
    forall d | d in l.lists && d != c ensures ListWellFormed(q, m, d) {
      assert ListWellFormed(p, l, d);
      ReleasedOther(p, l, c, k, left, d);
    }
  }

  /** Releasing a slot keeps the pool well formed. */
  lemma ReleaseKeeps(p: Pool, l: Layout, c: Component, k: nat, left: Event)
    requires WellFormed(p, l) && c in l.lists && k < |l.lists[c]|
    ensures c in p.heads && c in l.events && |l.lists[c]| == |l.events[c]|
    ensures |p.rep| == |l.home| && l.lists[c][k] < |p.rep| && -1 <= Before(l.lists[c], k) < |p.rep|
    ensures WellFormed(ReleaseSlot(p, c, Before(l.lists[c], k), l.lists[c][k], left), ReleaseLayout(l, c, k))
    ensures ReleaseLayout(l, c, k).lists.Keys == ReleaseLayout(l, c, k).events.Keys == l.lists.Keys
  {
    assert ListWellFormed(p, l, c) && SpareWellFormed(p, l);
    ReleaseDefined(p, l, c, k);
    hide ReleaseSlot, ReleaseLayout, ListWellFormed, SpareWellFormed, Before;
    var q, m := ReleaseSlot(p, c, Before(l.lists[c], k), l.lists[c][k], left), ReleaseLayout(l, c, k);
    ReleasedList(p, l, c, k, left);
    ReleasedSpare(p, l, c, k, left);
    ReleasedKeys(p, l, c, k, left);
    ReleasedOthers(p, l, c, k, left, q, m);
  }

  /** Moves the top spare slot to the front of the list of `c`, filled with `e`. */
  function InsertSlot(p: Pool, c: Component, e: Event): Pool
    requires 0 <= p.spare < |p.rep| && c in p.heads
  {
    Pool(p.rep[p.spare := Slot(e, p.heads[c])], p.rep[p.spare].next, p.heads[c := p.spare])
  }

  ghost function InsertLayout(l: Layout, c: Component, e: Event): Layout
    requires c in l.lists && c in l.events && |l.free| > 0 && l.free[0] < |l.home|
  {
    var node := l.free[0];
    Layout(Without(l.free, 0),
           l.lists[c := [node] + l.lists[c]],
           l.events[c := [e] + l.events[c]],
           l.home[node := Listed(c)])
  }

  lemma InsertedList(p: Pool, l: Layout, c: Component, e: Event)
    requires |p.rep| == |l.home| && ListWellFormed(p, l, c) && SpareWellFormed(p, l) && l.free != []
    ensures ListWellFormed(InsertSlot(p, c, e), InsertLayout(l, c, e), c)
  {
    var rep', s := InsertSlot(p, c, e).rep, l.lists[c];
    RethreadFront(p.rep, p.heads[c], s, l.free[0], rep');
    HomeGained(l.home, Listed(c), s, l.free[0]);
    var t, es := [l.free[0]] + s, [e] + l.events[c];
    forall i | 0 <= i < |t| ensures t[i] < |rep'| && rep'[t[i]].event == es[i] {
      if i > 0 { assert t[i] == s[i-1] && es[i] == l.events[c][i-1]; }
    }
  }

  lemma InsertedSpare(p: Pool, l: Layout, c: Component, e: Event)
    requires |p.rep| == |l.home| && ListWellFormed(p, l, c) && SpareWellFormed(p, l) && l.free != []
    ensures SpareWellFormed(InsertSlot(p, c, e), InsertLayout(l, c, e))
  {
    var q := InsertSlot(p, c, e);
    UnthreadAt(p.rep, p.spare, l.free, 0, q.rep, q.spare);
    HomeLost(l.home, Spare, l.free, 0, Listed(c));
  }

  lemma InsertedOther(p: Pool, l: Layout, c: Component, e: Event, d: Component)
    requires |p.rep| == |l.home| && SpareWellFormed(p, l) && l.free != []
    requires d != c && ListWellFormed(p, l, c) && ListWellFormed(p, l, d)
    ensures ListWellFormed(InsertSlot(p, c, e), InsertLayout(l, c, e), d)
  {
    Untouched(p.rep, p.heads[d], l.lists[d], l.events[d], InsertSlot(p, c, e).rep);
    HomeKept(l.home, Listed(d), l.lists[d], l.free[0], Listed(c));
  }

  /** Inserting a slot keeps the pool well formed. */
  lemma InsertKeeps(p: Pool, l: Layout, c: Component, e: Event)
    requires WellFormed(p, l) && c in l.lists && p.spare != NIL
    ensures c in p.heads && c in l.events && l.free != []
    ensures |p.rep| == |l.home| && p.spare == l.free[0] < |p.rep|
    ensures WellFormed(InsertSlot(p, c, e), InsertLayout(l, c, e))
  {
    assert ListWellFormed(p, l, c);
    InsertedList(p, l, c, e);
    InsertedSpare(p, l, c, e);
    var q, m := InsertSlot(p, c, e), InsertLayout(l, c, e);
    forall d | d in l.lists && d != c ensures ListWellFormed(q, m, d) {
      assert ListWellFormed(p, l, d);
      InsertedOther(p, l, c, e, d);
    }
  }

  lemma UpdateTwice<K, V>(m: map<K, V>, c: K, v: V, w: V)
    ensures m[c := v][c := w] == m[c := w]
  {}

  lemma AddedList(p: Pool, l: Layout, c: Component, q: Pool, m: Layout)
    requires WellFormed(p, l) && c !in l.lists
    requires q == p.(heads := p.heads[c := NIL]) && m == l.(lists := l.lists[c := []], events := l.events[c := []])
    ensures ListWellFormed(q, m, c)
  {}

  lemma AddedOthers(p: Pool, l: Layout, c: Component, q: Pool, m: Layout)
    requires WellFormed(p, l) && c !in l.lists
    requires q == p.(heads := p.heads[c := NIL]) && m == l.(lists := l.lists[c := []], events := l.events[c := []])
    ensures forall d | d in l.lists :: ListWellFormed(q, m, d)
  {
    forall d | d in l.lists ensures ListWellFormed(q, m, d) {
      assert ListWellFormed(p, l, d);
    }
  }

  lemma AddedKeys(p: Pool, l: Layout, c: Component, q: Pool, m: Layout)
    requires WellFormed(p, l) && c !in l.lists
    requires q == p.(heads := p.heads[c := NIL]) && m == l.(lists := l.lists[c := []], events := l.events[c := []])
    ensures |q.rep| == NUM_EVENTS == |m.home| && q.heads.Keys == m.lists.Keys == m.events.Keys == l.lists.Keys + {c}
    ensures forall n :: 0 <= n < NUM_EVENTS && m.home[n].Listed? ==> m.home[n].owner in m.lists
    ensures SpareWellFormed(q, m)
  {}

  /** A new component starts with an empty list. */
  lemma AddKeeps(p: Pool, l: Layout, c: Component, q: Pool, m: Layout)
    requires WellFormed(p, l) && c !in l.lists
    requires q == p.(heads := p.heads[c := NIL]) && m == l.(lists := l.lists[c := []], events := l.events[c := []])
    ensures WellFormed(q, m)
  {
    AddedKeys(p, l, c, q, m);
    AddedList(p, l, c, q, m);
    AddedOthers(p, l, c, q, m);
    hide ListWellFormed, SpareWellFormed;
  }

  /** The lists of the components in `order`. */
  ghost function ListsOf(events: map<Component, seq<Event>>, order: seq<Component>): (r: seq<seq<Event>>)
    requires forall c :: c in order ==> c in events
    ensures |r| == |order|
  {
    seq(|order|, i requires 0 <= i < |order| => assert order[i] in order; events[order[i]])
  }

  /** The spare slots followed by the slots of the listed components. */
  ghost function SlotsOf(l: Layout, order: seq<Component>): seq<nat>
    requires forall c :: c in order ==> c in l.lists
  {
    if order == [] then l.free
    else SlotsOf(l, order[..|order|-1]) + l.lists[order[|order|-1]]
  }

  lemma {:induction false} SlotsDistinct(p: Pool, l: Layout, order: seq<Component>)
    requires WellFormed(p, l) && NoDup(order)
    requires forall c :: c in order ==> c in l.lists
    ensures NoDup(SlotsOf(l, order))
    ensures forall n :: n in SlotsOf(l, order) ==>
      n < NUM_EVENTS && (l.home[n] == Spare || l.home[n].owner in order)
    ensures forall n :: 0 <= n < NUM_EVENTS && (l.home[n] == Spare || l.home[n].owner in order) ==>
      n in SlotsOf(l, order)
    ensures |SlotsOf(l, order)| == |l.free| + TotalLength(ListsOf(l.events, order))
  {
    if order != [] {
      var c, rest := order[|order|-1], order[..|order|-1];
      assert order == rest + [c];
      SlotsDistinct(p, l, rest);
      assert ListsOf(l.events, order) == ListsOf(l.events, rest) + [l.events[c]];
      TotalLengthAppend(ListsOf(l.events, rest), l.events[c]);
      assert ListWellFormed(p, l, c);
      forall n | n in l.lists[c] ensures n < NUM_EVENTS && l.home[n] == Listed(c) {}
      forall n | 0 <= n < NUM_EVENTS && l.home[n] == Listed(c) ensures n in l.lists[c] {}
      assert c !in rest;
    }
  }

  /** The spare list and the component lists together hold every slot exactly once: the lists share
      no slot, repeat none and lose none. */
  lemma PoolConserved(p: Pool, l: Layout, order: seq<Component>)
    requires WellFormed(p, l) && NoDup(order)
    requires forall c :: c in order <==> c in l.lists
    ensures NoDup(SlotsOf(l, order))
    ensures forall n :: n in SlotsOf(l, order) <==> 0 <= n < NUM_EVENTS
    ensures |l.free| + TotalLength(ListsOf(l.events, order)) == NUM_EVENTS
  {
    SlotsDistinct(p, l, order);
    forall n | 0 <= n < NUM_EVENTS ensures n in SlotsOf(l, order) {
      assert l.home[n].Listed? ==> l.home[n].owner in l.lists;
    }
    ListingOfRange(SlotsOf(l, order), NUM_EVENTS);
  }

  /** No event behind position `i` up to position `j` equals the one at `i`. */
  ghost predicate Differs(es: seq<Event>, i: nat, j: nat)
    requires i <= j < |es|
  {
    forall b :: i < b <= j ==> es[b] != es[i]
  }

  lemma NoneBehind(es: seq<Event>, i: nat)
    requires i < |es|
    ensures Differs(es, i, i)
  {}

  lemma DiffersNext(es: seq<Event>, i: nat, j: nat)
    requires i <= j && j + 1 < |es| && Differs(es, i, j) && es[j+1] != es[i]
    ensures Differs(es, i, j + 1)
  {}

  lemma StillDiffers(es: seq<Event>, es': seq<Event>, i: nat, j: nat)
    requires i <= j < |es| && j < |es'| && Differs(es, i, j) && forall a :: 0 <= a <= j ==> es'[a] == es[a]
    ensures Differs(es', i, j)
  {}

  lemma AllDiffer(es: seq<Event>, i: nat)
    requires i < |es| && Differs(es, i, |es| - 1) && DistinctUpTo(es, i)
    ensures DistinctUpTo(es, i + 1)
  {
    DistinctExtends(es, i);
  }

  class Component {
    const client: Client
    var list: int
    var flags: set<Flag>
    var errorMask: set<ErrorCode>
    var related: Component?

    constructor (client: Client)
      ensures this.client == client && list == NIL && flags == {} && errorMask == {} && related == null
    {
      this.client := client;
      list, flags, errorMask, related := NIL, {}, {}, null;
    }
  }

  class Client {
    const rep: array<Slot>
    var eventList: int
    ghost var comps: set<Component>
    ghost var layout: Layout

    ghost function View(): Pool
      reads `eventList, `comps, rep, comps`list
    {
      Pool(rep[..], eventList, map c | c in comps :: c.list)
    }

    ghost predicate Valid()
      reads `eventList, `comps, `layout, rep, comps`list
    {
      && layout.lists.Keys == layout.events.Keys == comps
      && (forall c | c in comps :: c.client == this)
      && WellFormed(View(), layout)
    }

    constructor ()
      ensures Valid() && comps == {} && |layout.free| == NUM_EVENTS
      ensures fresh(rep)
    {
      rep := new Slot[NUM_EVENTS](_ => Slot(Event(Unused, Num(0), 0), NIL));
      eventList, comps := NIL, {};
      ghost var free: seq<nat> := [];
      new;
      for i := 0 to NUM_EVENTS
        invariant |free| == i && comps == {}
        invariant Threaded(rep[..], eventList, free)
        invariant forall k :: 0 <= k < i ==> free[k] == i - 1 - k
      {
        ghost var before := rep[..];
        rep[i] := Slot(rep[i].event, eventList);
        RethreadFront(before, eventList, free, i, rep[..]);
        eventList := i;
        free := [i] + free;
      }
      forall n | 0 <= n < NUM_EVENTS ensures n in free { assert free[NUM_EVENTS - 1 - n] == n; }
      layout := Layout(free, map[], map[], seq(NUM_EVENTS, _ => Spare));
    }

    /** A list head names the first slot of its list, or is NIL. */
    lemma HeadIsFirst(c: Component)
      requires Valid() && c in comps
      ensures |layout.lists[c]| == |layout.events[c]|
      ensures c.list == NIL <==> layout.lists[c] == []
      ensures layout.lists[c] != [] ==> c.list == layout.lists[c][0] < rep.Length
    {
      assert ListWellFormed(View(), layout, c);
    }

    lemma SpareIsFirst()
      requires Valid()
      ensures eventList == NIL <==> layout.free == []
    {}

    /** What the slot at position `k` of a list holds. */
    lemma Visit(c: Component, k: nat)
      requires Valid() && c in comps && k < |layout.lists[c]|
      ensures |layout.lists[c]| == |layout.events[c]| && layout.lists[c][k] < rep.Length
      ensures rep[layout.lists[c][k]].next == SlotAt(layout.lists[c], k + 1)
      ensures rep[layout.lists[c][k]].event == layout.events[c][k]
    {
      assert ListWellFormed(View(), layout, c);
      assert layout.events[c][k] == rep[layout.lists[c][k]].event;
    }

    /** A component created for this client joins with an empty list. */
    method Attach(c: Component)
      requires Valid() && c !in comps && c.client == this && c.list == NIL
      modifies `comps, `layout
      ensures Valid() && comps == old(comps) + {c}
      ensures layout.events == old(layout.events)[c := []]
    {
      hide WellFormed;
      ghost var p, l := View(), layout;
      ghost var q := p.(heads := p.heads[c := NIL]);
      comps := comps + {c};
      layout := l.(lists := l.lists[c := []], events := l.events[c := []]);
      AddKeeps(p, l, c, q, layout);
      assert View() == q;
    }

    /** Relinks a slot of the list of `c` to the top of the spare list. */
    method Relink(c: Component, prev: int, node: nat, left: Event)
      requires c in comps && node < rep.Length && -1 <= prev < rep.Length
      modifies `eventList, c`list, rep
      ensures View() == old(ReleaseSlot(View(), c, prev, node, left))
    {
      if prev == NIL {
        c.list := rep[node].next;
      } else {
        rep[prev] := rep[prev].(next := rep[node].next);
      }
      rep[node] := Slot(left, eventList);
      eventList := node;
    }

    /** Takes the slot at position `k` of the list of `c` back to the top of the spare list. */
    method Release(c: Component, prev: int, node: nat, left: Event, ghost k: nat)
      requires Valid() && c in comps
      requires k < |layout.lists[c]| && node == layout.lists[c][k] && prev == Before(layout.lists[c], k)
      modifies `eventList, `layout, c`list, rep
      ensures Valid() && k < |old(layout.events[c])| == |old(layout.lists[c])|
      ensures layout == ReleaseLayout(old(layout), c, k)
    {
      hide WellFormed, ReleaseSlot, ReleaseLayout;
      ghost var p, l := View(), layout;
      ReleaseKeeps(p, l, c, k, left);
      Relink(c, prev, node, left);
      layout := ReleaseLayout(l, c, k);
    }

    /** Walks the list of `c` to the first event selected. */
    method Search(c: Component, q: Query) returns (prev: int, cur: int, ghost k: nat)
      requires Valid() && c in comps
      ensures ListWellFormed(View(), layout, c)
      ensures k == Find(layout.events[c], q)
      ensures cur == SlotAt(layout.lists[c], k) && prev == Before(layout.lists[c], k)
    {
      assert ListWellFormed(View(), layout, c);
      prev, cur, k := NIL, c.list, 0;
      while cur != NIL && !Selects(q, rep[cur].event)
        invariant k <= |layout.lists[c]|
        invariant cur == SlotAt(layout.lists[c], k) && prev == Before(layout.lists[c], k)
        invariant forall i :: 0 <= i < k ==> !Selects(q, layout.events[c][i])
        decreases |layout.lists[c]| - k
      {
        assert layout.events[c][k] == rep[cur].event;
        prev, cur, k := cur, rep[cur].next, k + 1;
      }
      assert k < |layout.lists[c]| ==> layout.events[c][k] == rep[cur].event;
      FindIs(layout.events[c], q, k);
    }

    /** Takes the first event selected off the list of `c`, if there is one. */
    method TakeFirst(c: Component, q: Query) returns (found: bool, event: Event)
      requires Valid() && c in comps
      modifies `eventList, `layout, c`list, rep
      ensures Valid()
      ensures layout.events == old(layout.events)[c := Removed(old(layout.events[c]), q)]
      ensures var es := old(layout.events[c]);
              var k := Find(es, q);
              found == (k < |es|) && (found ==> event == es[k])
    {
      hide WellFormed, View, ListWellFormed, Selects, Threaded, Store, Holds;
      HeadIsFirst(c);
      var prev, cur;
      ghost var k;
      prev, cur, k := Search(c, q);
      found := cur != NIL;
      if found {
        Visit(c, k);
        event := rep[cur].event;
        Release(c, prev, cur, event.(kind := Unused), k);
      } else {
        event := Event(Unused, Num(0), 0);
      }
    }

    /** Removes the first event of `c` that matches, at position `k`; 0 if there was one, -1 otherwise. */
    method RemoveEvent(c: Component, kind: Kind, data1: Data1, ignore1: bool, data2: nat, ignore2: bool)
      returns (r: int, ghost k: nat)
      requires Valid() && c in comps
      modifies `eventList, `layout, c`list, c`flags, rep
      ensures Valid()
      ensures k <= |old(layout.events[c])|
      ensures forall i :: 0 <= i < k ==>
                var e := old(layout.events[c])[i];
                e.kind != kind || (!ignore1 && e.data1 != data1) || (!ignore2 && e.data2 != data2)
      ensures k < |old(layout.events[c])| ==>
                var e := old(layout.events[c])[k];
                && e.kind == kind && (ignore1 || e.data1 == data1) && (ignore2 || e.data2 == data2)
                && r == 0 && layout.events == old(layout.events)[c := Without(old(layout.events[c]), k)]
                && c.flags == old(c.flags) - (if kind == Error then {EventError}
                                              else if kind == ParamOrConfigChanged then {ConfigChanged} else {})
      ensures k == |old(layout.events[c])| ==>
                r == -1 && layout.events == old(layout.events) && c.flags == old(c.flags)
    {
      hide WellFormed, Selects, Removed;
      k := RemovedMeans(layout.events[c], kind, data1, ignore1, data2, ignore2);
      var found, event := TakeFirst(c, Fields(kind, data1, ignore1, data2, ignore2));
      if !found {
        return -1, k;
      }
      if kind.Error? {
        c.flags := c.flags - {EventError};
      } else if kind.ParamOrConfigChanged? {
        c.flags := c.flags - {ConfigChanged};
      }
      r := 0;
    }

    method ReleaseHead(c: Component)
      requires Valid() && c in comps && c.list != NIL
      modifies `eventList, `layout, c`list, rep
      ensures Valid() && old(layout.events[c]) != []
      ensures layout.events == old(layout.events)[c := old(layout.events[c])[1..]]
    {
      hide WellFormed;
      HeadIsFirst(c);
      assert layout.events[c][1..] == Without(layout.events[c], 0);
      Release(c, NIL, c.list, rep[c.list].event, 0);
    }

    /** Hands every slot of `c` back, leaving the events in them. */
    method ReturnEvents(c: Component)
      requires Valid() && c in comps
      modifies `eventList, `layout, c`list, rep
      ensures Valid() && layout.events == old(layout.events)[c := []]
    {
      hide WellFormed;
      HeadIsFirst(c);
      while c.list != NIL
        invariant Valid()
        invariant layout.events == old(layout.events)[c := layout.events[c]]
        invariant c.list == NIL ==> layout.events[c] == []
        decreases |layout.events[c]|
      {
        ReleaseHead(c);
        HeadIsFirst(c);
      }
    }

    /** Deletes a later copy, at position `k`, of the event at position `i`. */
    method RemoveCopy(c: Component, prev: nat, cur: nat, ghost i: nat, ghost k: nat)
      requires Valid() && c in comps && i < k < |layout.lists[c]| == |layout.events[c]|
      requires prev == layout.lists[c][k-1] && cur == layout.lists[c][k] && cur < rep.Length
      requires layout.events[c][k] == layout.events[c][i] && DistinctUpTo(layout.events[c], i)
      modifies `eventList, `layout, c`list, rep
      ensures Valid() && layout.events == old(layout.events)[c := layout.events[c]]
      ensures |layout.events[c]| == |layout.lists[c]| == |old(layout.lists[c])| - 1
      ensures forall a :: 0 <= a < k ==> layout.lists[c][a] == old(layout.lists[c])[a]
      ensures forall a :: 0 <= a < k ==> layout.events[c][a] == old(layout.events[c])[a]
      ensures FirstOccurrences(layout.events[c]) == FirstOccurrences(old(layout.events[c]))
      ensures DistinctUpTo(layout.events[c], i)
    {
      hide WellFormed, FirstOccurrences;
      ghost var es := layout.events[c];
      assert es[k] == es[..k][i];
      LaterCopyIsIrrelevant(es, k);
      Release(c, prev, cur, rep[cur].event.(kind := Unused), k);
    }

    /** Deletes the copies of the event at position `i` that lie behind it. */
    method RemoveCopies(c: Component, event: nat, ghost i: nat)
      requires Valid() && c in comps && i < |layout.lists[c]| == |layout.events[c]| && event == layout.lists[c][i]
      requires DistinctUpTo(layout.events[c], i)
      modifies `eventList, `layout, c`list, rep
      ensures Valid() && layout.events == old(layout.events)[c := layout.events[c]]
      ensures i < |layout.lists[c]| == |layout.events[c]| && event == layout.lists[c][i]
      ensures DistinctUpTo(layout.events[c], i + 1)
      ensures FirstOccurrences(layout.events[c]) == FirstOccurrences(old(layout.events[c]))
      ensures |layout.events[c]| <= |old(layout.events[c])|
    {
      hide WellFormed, View, FirstOccurrences, DistinctUpTo, Selects, Without, Differs;
      var prev: nat, j := event, i;
      Visit(c, i);
      NoneBehind(layout.events[c], i);
      while rep[prev].next != NIL
        invariant Valid() && layout.events == old(layout.events)[c := layout.events[c]]
        invariant i <= j < |layout.lists[c]| == |layout.events[c]| <= |old(layout.events[c])|
        invariant event == layout.lists[c][i] && prev == layout.lists[c][j]
        invariant prev < rep.Length && rep[prev].next == SlotAt(layout.lists[c], j + 1)
        invariant event < rep.Length && rep[event].event == layout.events[c][i]
        invariant DistinctUpTo(layout.events[c], i)
        invariant Differs(layout.events[c], i, j)
        invariant FirstOccurrences(layout.events[c]) == FirstOccurrences(old(layout.events[c]))
        decreases |layout.lists[c]| - j
      {
        var cur := rep[prev].next;
        Visit(c, j + 1);
        if rep[cur].event == rep[event].event {
          ghost var was := layout.events[c];
          RemoveCopy(c, prev, cur, i, j + 1);
          StillDiffers(was, layout.events[c], i, j);
          UpdateTwice(old(layout.events), c, was, layout.events[c]);
          Visit(c, i);
          Visit(c, j);
        } else {
          DiffersNext(layout.events[c], i, j);
          prev := cur;
          j := j + 1;
        }
      }
      AllDiffer(layout.events[c], i);
    }

    /** Keeps the first occurrence of every event of `c`. */
    method Deduplicate(c: Component)
      requires Valid() && c in comps
      modifies `eventList, `layout, c`list, rep
      ensures Valid()
      ensures layout.events == old(layout.events)[c := FirstOccurrences(old(layout.events[c]))]
    {
      hide WellFormed, View, FirstOccurrences;
      var event := c.list;
      ghost var i := 0;
      HeadIsFirst(c);
      while event != NIL
        invariant Valid()
        invariant layout.events == old(layout.events)[c := layout.events[c]]
        invariant |layout.events[c]| == |layout.lists[c]| && i <= |layout.lists[c]|
        invariant event == SlotAt(layout.lists[c], i)
        invariant DistinctUpTo(layout.events[c], i)
        invariant FirstOccurrences(layout.events[c]) == FirstOccurrences(old(layout.events[c]))
        decreases |layout.lists[c]| - i
      {
        Visit(c, i);
        ghost var was := layout.events[c];
        RemoveCopies(c, event, i);
        UpdateTwice(old(layout.events), c, was, layout.events[c]);
        Visit(c, i);
        event := rep[event].next;
        i := i + 1;
      }
      DistinctUnchanged(layout.events[c]);
    }

    /** Fills the top spare slot with `e` and puts it at the head of the list of `c`. */
    method Insert(c: Component, e: Event)
      requires Valid() && c in comps && eventList != NIL
      modifies `eventList, `layout, c`list, rep
      ensures Valid()
      ensures layout.events == old(layout.events)[c := [e] + old(layout.events[c])]
    {
      hide WellFormed, Threaded, Store, Holds;
      ghost var p, l := View(), layout;
      InsertKeeps(p, l, c, e);
      var node := eventList;
      eventList := rep[node].next;
      rep[node] := Slot(e, c.list);
      c.list := node;
      layout := InsertLayout(l, c, e);
      assert View() == InsertSlot(p, c, e);
    }

    /** Raises the flags an event calls for, first those of a waiter on another component. */
    method Raise(c: Component, e: Event)
      requires Known(e)
      modifies c`flags, (if c.related == null then {} else {c.related})`flags
      ensures c.related != null && c.related != c ==>
        c.related.flags == old(c.related.flags) + if Terminating(e) then {EventError} else {}
      ensures c.flags == old(c.flags) + OwnFlags(e, c.errorMask)
                           + if Terminating(e) && c.related == c then {EventError} else {}
    {
      if Terminating(e) && c.related != null {
        c.related.flags := c.related.flags + {EventError};
      }
      c.flags := c.flags + OwnFlags(e, c.errorMask);
    }

    /** Flags and records an event, given a spare slot. */
    method Deliver(c: Component, e: Event)
      requires Valid() && c in comps && Known(e) && eventList != NIL
      modifies `eventList, `layout, c`list, c`flags, rep
      modifies (if c.related == null then {} else {c.related})`flags
      ensures Valid() && comps == old(comps)
      ensures Ignored(e, c.errorMask) ==> layout.events == old(layout.events)
      ensures !Ignored(e, c.errorMask) ==>
        layout.events == old(layout.events)[c := [Recorded(e)] + old(layout.events[c])]
      ensures c.related != null && c.related != c ==>
        c.related.flags == old(c.related.flags) + if Terminating(e) then {EventError} else {}
      ensures c.flags == old(c.flags) + OwnFlags(e, c.errorMask)
                           + if Terminating(e) && c.related == c then {EventError} else {}
    {
      hide *;
      Raise(c, e);
      if !Ignored(e, c.errorMask) {
        Insert(c, Recorded(e));
      }
    }

    /** The component's callback.  False when the spare list is empty after removing duplicates,
        which the handler asserts never happens. */
    method HandleEvent(c: Component, e: Event) returns (ok: bool)
      requires Valid() && c in comps && Known(e)
      modifies `eventList, `layout, c`list, c`flags, rep
      modifies (if c.related == null then {} else {c.related})`flags
      ensures Valid()
      ensures ok ==> layout.events == old(layout.events)[c := AfterEvent(old(layout.events[c]), e, c.errorMask)]
      ensures ok && c.related != null && c.related != c ==>
        c.related.flags == old(c.related.flags) + if Terminating(e) then {EventError} else {}
      ensures ok ==> c.flags == old(c.flags) + OwnFlags(e, c.errorMask)
                                  + if Terminating(e) && c.related == c then {EventError} else {}
      ensures !ok ==>
        && layout.free == [] && c.flags == old(c.flags)
        && layout.events == old(layout.events)[c := FirstOccurrences(old(layout.events[c]))]
    {
      hide WellFormed, View, FirstOccurrences, OwnFlags;
      ghost var before := layout.events;
      Deduplicate(c);
      ok := eventList != NIL;
      if ok {
        Deliver(c, e);
        UpdateTwice(before, c, FirstOccurrences(before[c]), layout.events[c]);
      } else {
        SpareIsFirst();
      }
    }

    /** One pass of a waiter under the event lock: takes the completion or the terminating error of
        its own component, or else reports a terminating error of the other one.  `k` is the position of the first
        event in its own list that is one of the two. */
    method TakeCommandEnd(c: Component, command: Command, arg: nat, other: Component?)
      returns (done: bool, ret: int, ghost k: nat)
      requires Valid() && c in comps && (other != null ==> other in comps)
      modifies `eventList, `layout, c`list, c`flags, rep
      ensures Valid() && k <= |old(layout.events[c])|
      ensures forall i :: 0 <= i < k ==>
                var e := old(layout.events[c])[i];
                e != Event(CmdComplete, Cmd(command), arg) && !(e.kind == Error && e.data2 == 1)
      ensures k < |old(layout.events[c])| ==>
                var e := old(layout.events[c])[k];
                && (e == Event(CmdComplete, Cmd(command), arg) || (e.kind == Error && e.data2 == 1))
                && done && ret == (if e.kind == CmdComplete || e.data1 == Code(SameState) then 0 else -1)
                && layout.events == old(layout.events)[c := Without(old(layout.events[c]), k)]
                && c.flags == old(c.flags) - (if e.kind == Error then {EventError} else {})
      ensures k == |old(layout.events[c])| ==>
                && layout.events == old(layout.events) && c.flags == old(c.flags)
                && (done <==> other != null
                              && exists e :: e in old(layout.events[other]) && e.kind == Error && e.data2 == 1)
                && (done ==> ret == -2)
    {
      hide WellFormed, View, Selects, Removed;
      k := FirstEnd(layout.events[c], command, arg);
      var found, event := TakeFirst(c, CommandEnd(command, arg));
      if found {
        if event.kind.Error? {
          c.flags := c.flags - {EventError};
        }
        return true, if event.kind.CmdComplete? || event.data1 == Code(SameState) then 0 else -1, k;
      }
      if other != null {
        var prev, cur;
        ghost var j;
        prev, cur, j := Search(other, AnyTerminating);
        FirstTerminating(layout.events[other]);
        if cur != NIL {
          return true, -2, k;
        }
      }
      return false, 0, k;
    }
  }

  lemma FirstEnd(es: seq<Event>, command: Command, arg: nat) returns (k: nat)
    ensures k == Find(es, CommandEnd(command, arg)) <= |es|
    ensures forall i :: 0 <= i < k ==>
              es[i] != Event(CmdComplete, Cmd(command), arg) && !(es[i].kind == Error && es[i].data2 == 1)
    ensures k < |es| ==> es[k] == Event(CmdComplete, Cmd(command), arg) || (es[k].kind == Error && es[k].data2 == 1)
    ensures Removed(es, CommandEnd(command, arg)) == if k < |es| then Without(es, k) else es
  {
    k := Find(es, CommandEnd(command, arg));
  }

  lemma FirstTerminating(es: seq<Event>)
    ensures Find(es, AnyTerminating) < |es| <==> exists e :: e in es && e.kind == Error && e.data2 == 1
  {}
}
