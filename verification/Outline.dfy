/** The glyph outline compiler: translates FreeType contours, whose points are tagged as on the curve or as
    control points, into OpenVG path data. */
module Outline {
  import opened Options

  /** A tagged point in 26.6 fixed point. */
  datatype TPoint = TPoint(x: int, y: int, tag: bv8)

  predicate On(t: TPoint) { t.tag & 1 != 0 }

  predicate Third(t: TPoint) { !On(t) && t.tag & 2 != 0 }

  predicate Second(t: TPoint) { !On(t) && t.tag & 2 == 0 }

  datatype Pt = Pt(x: real, y: real)

  function At(t: TPoint): Pt { Pt(t.x as real / 64.0, t.y as real / 64.0) }

  function Mid(a: Pt, b: Pt): Pt { Pt((a.x + b.x) * 0.5, (a.y + b.y) * 0.5) }

  /** The low two bits of a tag: on the curve, a control point of a quadratic or of a cubic curve. */
  lemma TagBits(t: TPoint)
    ensures On(t) <==> t.tag & 3 == 1 || t.tag & 3 == 3
    ensures Second(t) <==> t.tag & 3 == 0
    ensures Third(t) <==> t.tag & 3 == 2
  {}

  /** A tagged point lies at its coordinates in units of 1/64. */
  lemma AtScale(t: TPoint)
    ensures 64.0 * At(t).x == t.x as real && 64.0 * At(t).y == t.y as real
  {}

  /** The middle is as far from one point as from the other, in both directions. */
  lemma MidBetween(a: Pt, b: Pt)
    ensures Mid(a, b).x - a.x == b.x - Mid(a, b).x && Mid(a, b).y - a.y == b.y - Mid(a, b).y
  {}

  // ---------- what a contour means ----------

  datatype Curve = Line(p: Pt, q: Pt) | Quad(p: Pt, c: Pt, q: Pt) | Cubic(p: Pt, c1: Pt, c2: Pt, q: Pt)

  function Then(c: Curve, rest: Option<seq<Curve>>): (r: Option<seq<Curve>>)
    ensures r.Some? == rest.Some?
  {
    if rest.None? then None else Some([c] + rest.value)
  }

  /** The curves from `p` through the tagged points `s`: a quadratic curve has one control point and a cubic
      one two, and between two quadratic control points there is an implied point half-way. */
  function Through(p: Pt, s: seq<TPoint>): Option<seq<Curve>>
    decreases |s|
  {
    if s == [] then Some([])
    else if On(s[0]) then Then(Line(p, At(s[0])), Through(At(s[0]), s[1..]))
    else if Second(s[0]) && |s| > 1 && On(s[1]) then
      Then(Quad(p, At(s[0]), At(s[1])), Through(At(s[1]), s[2..]))
    else if Second(s[0]) && |s| > 1 && Second(s[1]) then
      var m := Mid(At(s[0]), At(s[1]));
      Then(Quad(p, At(s[0]), m), Through(m, s[1..]))
    else if Third(s[0]) && |s| > 2 && Third(s[1]) && On(s[2]) then
      Then(Cubic(p, At(s[0]), At(s[1]), At(s[2])), Through(At(s[2]), s[3..]))
    else None
  }

  /** A contour starts on the curve and closes back to its first point. */
  function Meaning(s: seq<TPoint>): Option<seq<Curve>> {
    if s == [] || !On(s[0]) then None else Through(At(s[0]), s[1..] + [s[0]])
  }

  /** Each curve begins where the one in front ends, from `p` to `q`. */
  predicate Linked(cs: seq<Curve>, p: Pt, q: Pt) {
    if cs == [] then p == q else cs[0].p == p && Linked(cs[1..], cs[0].q, q)
  }

  /** The points on the curve and the points implied: each ends a curve. */
  function Joints(s: seq<TPoint>): nat {
    if s == [] then 0
    else (if On(s[0]) || (|s| > 1 && Second(s[0]) && Second(s[1])) then 1 else 0) + Joints(s[1..])
  }

  lemma {:induction false} ThroughLinks(p: Pt, s: seq<TPoint>)
    requires Through(p, s).Some?
    ensures Linked(Through(p, s).value, p, if s == [] then p else At(s[|s|-1]))
    ensures |Through(p, s).value| == Joints(s)
    decreases |s|
  {
    hide At, Mid;
    if s != [] {
      if On(s[0]) {
        ThroughLinks(At(s[0]), s[1..]);
      } else if Second(s[0]) && On(s[1]) {
        assert s[1..][1..] == s[2..];
        ThroughLinks(At(s[1]), s[2..]);
      } else if Second(s[0]) {
        ThroughLinks(Mid(At(s[0]), At(s[1])), s[1..]);
      } else {
        assert s[1..][1..] == s[2..] && s[2..][1..] == s[3..];
        ThroughLinks(At(s[2]), s[3..]);
      }
    }
  }

  /** The meaning of a contour is a closed chain of curves, one for each point on the curve and each implied point. */
  lemma MeaningCloses(s: seq<TPoint>)
    requires Meaning(s).Some?
    ensures Linked(Meaning(s).value, At(s[0]), At(s[0])) && |Meaning(s).value| == Joints(s[1..] + [s[0]])
  {
    ThroughLinks(At(s[0]), s[1..] + [s[0]]);
  }

  /** The tags of a contour: On (On | Second+ On | Third Third On)* (Second+ | Third Third)?. */
  predicate WellTagged(s: seq<TPoint>) { s != [] && On(s[0]) && Items(s[1..]) }

  predicate Items(s: seq<TPoint>)
    decreases |s|
  {
    || s == []
    || (On(s[0]) && Items(s[1..]))
    || (Second(s[0]) && Seconds(s[1..]))
    || (|s| > 1 && Third(s[0]) && Third(s[1]) && (|s| == 2 || (On(s[2]) && Items(s[3..]))))
  }

  predicate Seconds(s: seq<TPoint>)
    decreases |s|
  {
    s == [] || (Second(s[0]) && Seconds(s[1..])) || (On(s[0]) && Items(s[1..]))
  }

  lemma {:induction false} ItemsHaveMeaning(p: Pt, s: seq<TPoint>, first: TPoint)
    requires On(first)
    ensures Through(p, s + [first]).Some? <==> Items(s)
    decreases |s|
  {
    var t := s + [first];
    if s == [] {
      assert Through(At(first), t[1..]) == Some([]);
    } else if On(s[0]) {
      ItemsHaveMeaning(At(s[0]), s[1..], first);
      assert t[1..] == s[1..] + [first];
    } else if Second(s[0]) {
      SecondsHaveMeaning(p, s[0], s[1..], first);
      assert t == [s[0]] + s[1..] + [first];
    } else if |s| > 2 {
      ItemsHaveMeaning(At(s[2]), s[3..], first);
      assert t[3..] == s[3..] + [first];
    } else if |s| == 2 {
      assert Through(At(first), t[3..]) == Some([]);
    }
  }

  lemma {:induction false} SecondsHaveMeaning(p: Pt, c: TPoint, s: seq<TPoint>, first: TPoint)
    requires On(first) && Second(c)
    ensures Through(p, [c] + s + [first]).Some? <==> Seconds(s)
    decreases |s|
  {
    var t := [c] + s + [first];
    if s == [] {
      assert Through(At(first), t[2..]) == Some([]);
    } else if Second(s[0]) {
      SecondsHaveMeaning(Mid(At(c), At(s[0])), s[0], s[1..], first);
      assert t[1..] == [s[0]] + s[1..] + [first];
    } else if On(s[0]) {
      ItemsHaveMeaning(At(s[0]), s[1..], first);
      assert t[2..] == s[1..] + [first];
    }
  }

  /** Exactly the contours of the expected form have a meaning. */
  lemma WellTaggedHaveMeaning(s: seq<TPoint>)
    ensures Meaning(s).Some? <==> WellTagged(s)
  {
    if s != [] && On(s[0]) {
      ItemsHaveMeaning(At(s[0]), s[1..], s[0]);
    }
  }

  // ---------- what path data means ----------

  datatype Segment = MoveTo | LineTo | QuadTo | CubicTo | ClosePath

  function Arity(s: Segment): nat {
    match s
    case MoveTo => 2
    case LineTo => 2
    case QuadTo => 4
    case CubicTo => 6
    case ClosePath => 0
  }

  datatype Drawn = Drawn(curves: seq<Curve>, cur: Pt, start: Pt)

  function PtAt(xs: seq<real>, k: nat): Pt
    requires 2 * k + 1 < |xs|
  {
    Pt(xs[2*k], xs[2*k+1])
  }

  function Apply(d: Drawn, s: Segment, xs: seq<real>): Drawn
    requires |xs| == Arity(s)
  {
    match s
    case MoveTo => Drawn(d.curves, PtAt(xs, 0), PtAt(xs, 0))
    case LineTo => Drawn(d.curves + [Line(d.cur, PtAt(xs, 0))], PtAt(xs, 0), d.start)
    case QuadTo => Drawn(d.curves + [Quad(d.cur, PtAt(xs, 0), PtAt(xs, 1))], PtAt(xs, 1), d.start)
    case CubicTo => Drawn(d.curves + [Cubic(d.cur, PtAt(xs, 0), PtAt(xs, 1), PtAt(xs, 2))], PtAt(xs, 2), d.start)
    case ClosePath => Drawn(d.curves + [Line(d.cur, d.start)], d.start, d.start)
  }

  const ORIGIN := Pt(0.0, 0.0)

  /** The standard path format (section 8.5 of OpenVG 1.1): None when the number of coordinates does not
      match the segments. */
  function Draw(segs: seq<Segment>, coords: seq<real>): Option<Drawn>
    decreases |segs|
  {
    if segs == [] then (if coords == [] then Some(Drawn([], ORIGIN, ORIGIN)) else None)
    else
      var s := segs[|segs|-1];
      if |coords| < Arity(s) then None
      else
        var before := Draw(segs[..|segs|-1], coords[..|coords|-Arity(s)]);
        if before.None? then None else Some(Apply(before.value, s, coords[|coords|-Arity(s)..]))
  }

  lemma DrawAppend(segs: seq<Segment>, coords: seq<real>, s: Segment, xs: seq<real>)
    requires |xs| == Arity(s)
    ensures Draw(segs + [s], coords + xs) ==
            if Draw(segs, coords).None? then None else Some(Apply(Draw(segs, coords).value, s, xs))
  {
    var ys := coords + xs;
    assert (segs + [s])[..|segs|] == segs;
    assert ys[..|ys|-Arity(s)] == coords && ys[|ys|-Arity(s)..] == xs;
  }

  /** The segments that draw something. */
  function Strokes(segs: seq<Segment>): nat {
    if segs == [] then 0 else Strokes(segs[..|segs|-1]) + if segs[|segs|-1] == MoveTo then 0 else 1
  }

  /** Every segment but a move draws one curve. */
  lemma {:induction false} DrawCounts(segs: seq<Segment>, coords: seq<real>)
    requires Draw(segs, coords).Some?
    ensures |Draw(segs, coords).value.curves| == Strokes(segs)
    decreases |segs|
  {
    if segs != [] {
      DrawCounts(segs[..|segs|-1], coords[..|coords|-Arity(segs[|segs|-1])]);
    }
  }

  /** Path data that begins with a move draws the same wherever it is appended. */
  lemma {:induction false} DrawJoin(a: seq<Segment>, xs: seq<real>, b: seq<Segment>, ys: seq<real>)
    requires Draw(a, xs).Some? && Draw(b, ys).Some? && b != [] && b[0] == MoveTo
    ensures var d, e := Draw(a, xs).value, Draw(b, ys).value;
            Draw(a + b, xs + ys) == Some(Drawn(d.curves + e.curves, e.cur, e.start))
    decreases |b|
  {
    hide Apply;
    var n := |b| - 1;
    var s, k := b[n], |ys| - Arity(b[n]);
    assert a + b == (a + b[..n]) + [s] && xs + ys == (xs + ys[..k]) + ys[k..];
    DrawAppend(a + b[..n], xs + ys[..k], s, ys[k..]);
    if n == 0 {
      assert ys[..k] == [] && xs + [] == xs && a + b[..0] == a;
      var curves := Draw(a, xs).value.curves;
      assert curves + [] == curves;
      ApplyMove(Draw(a, xs).value, ys[k..]);
      ApplyMove(Drawn([], ORIGIN, ORIGIN), ys[k..]);
    } else {
      DrawJoin(a, xs, b[..n], ys[..k]);
      ApplyJoin(Draw(a, xs).value.curves, Draw(b[..n], ys[..k]).value, s, ys[k..]);
    }
  }

  lemma ApplyMove(d: Drawn, xs: seq<real>)
    requires |xs| == 2
    ensures Apply(d, MoveTo, xs) == Drawn(d.curves, PtAt(xs, 0), PtAt(xs, 0))
  {}

  lemma ApplyJoin(curves: seq<Curve>, d: Drawn, s: Segment, xs: seq<real>)
    requires |xs| == Arity(s)
    ensures var e := Apply(d, s, xs);
            Apply(d.(curves := curves + d.curves), s, xs) == e.(curves := curves + e.curves)
  {}

  // ---------- the compiler, point by point ----------

  /** What the compiler has written for the current contour, the tag of its last point, and the number of
      points since the last one on the curve; not `ok` once an assertion has failed. */
  datatype Machine = Machine(segs: seq<Segment>, coords: seq<real>, last: Option<TPoint>, c: nat, ok: bool)

  const START := Machine([], [], None, 0, true)

  function Xy(p: Pt): (xs: seq<real>)
    ensures |xs| == 2 && PtAt(xs, 0) == p
  {
    [p.x, p.y]
  }

  function LastPt(m: Machine): Pt
    requires |m.coords| >= 2
  {
    Pt(m.coords[|m.coords|-2], m.coords[|m.coords|-1])
  }

  /** The last point was on the curve. */
  predicate LastOn(m: Machine) { m.last.Some? && On(m.last.value) }

  predicate LastThird(m: Machine) { m.last.Some? && Third(m.last.value) }

  function Put(m: Machine, segs: seq<Segment>, coords: seq<real>, t: TPoint, c: nat): Machine {
    m.(segs := m.segs + segs, coords := m.coords + coords, last := Some(t), c := c)
  }

  /** One iteration of the loop over the points. */
  function Step(m: Machine, t: TPoint): Machine {
    var xy := Xy(At(t));
    if !m.ok then m
    else if m.last.None? then
      if On(t) then Put(m, [MoveTo], xy, t, 0) else m.(ok := false)
    else if On(t) then
      if LastOn(m) then
        if m.c == 0 then Put(m, [LineTo], xy, t, 0) else m.(ok := false)
      else if LastThird(m) then
        if m.c == 2 then Put(m, [CubicTo], xy, t, 0) else m.(ok := false)
      else
        if m.c == 1 then Put(m, [QuadTo], xy, t, 0) else m.(ok := false)
    else if Third(t) then
      if LastOn(m) || LastThird(m) then Put(m, [], xy, t, m.c + 1) else m.(ok := false)
    else if LastOn(m) then Put(m, [], xy, t, m.c + 1)
    else if !LastThird(m) && m.c == 1 && |m.coords| >= 2 then
      Put(m, [QuadTo], Xy(Mid(LastPt(m), At(t))) + xy, t, 1)
    else m.(ok := false)
  }

  /** The end of the contour. */
  function Close(m: Machine): Machine {
    if !m.ok then m
    else if LastOn(m) then
      if m.c == 0 then m.(segs := m.segs + [ClosePath]) else m.(ok := false)
    else if m.c == (if LastThird(m) then 2 else 1) && |m.coords| >= 2 then
      m.(segs := m.segs + [if LastThird(m) then CubicTo else QuadTo, ClosePath],
         coords := m.coords + [m.coords[0], m.coords[1]], c := 0)
    else m.(ok := false)
  }

  function Run(m: Machine, s: seq<TPoint>): Machine
    decreases |s|
  {
    if s == [] then Close(m) else Run(Step(m, s[0]), s[1..])
  }

  function Contour(s: seq<TPoint>): Machine { Run(START, s) }

  // ---------- the compiler preserves the meaning ----------

  /** The control points at the end of the coordinates that no segment uses yet. */
  function Flat(pending: seq<TPoint>): (xs: seq<real>)
    ensures |xs| == 2 * |pending|
  {
    if pending == [] then [] else Flat(pending[..|pending|-1]) + Xy(At(pending[|pending|-1]))
  }

  /** Between two points of a contour: the path written so far draws `d`, and the pending control points are
      none, one of a quadratic curve, or one or two of a cubic curve. */
  ghost predicate Writes(m: Machine, d: Drawn, coords: seq<real>, pending: seq<TPoint>) {
    && m.ok && m.last.Some? && m.c == |pending|
    && m.coords == coords + Flat(pending) && Draw(m.segs, coords) == Some(d)
    && |coords| >= 2 && PtAt(coords, 0) == d.start
    && match |pending| {
         case 0 => LastOn(m)
         case 1 => m.last == Some(pending[0]) && !On(pending[0])
         case 2 => m.last == Some(pending[1]) && Third(pending[0]) && Third(pending[1])
         case _ => false
       }
  }

  function Before(drawn: seq<Curve>, rest: Option<seq<Curve>>): (r: Option<seq<Curve>>)
    ensures drawn == [] ==> r == rest
  {
    if rest.None? then None
    else
      assert [] + rest.value == rest.value;
      Some(drawn + rest.value)
  }

  /** What a step has added to the drawing, and what it leaves to be drawn through the points `u` ahead. */
  ghost predicate Advances(m: Machine, d: Drawn, pending: seq<TPoint>, t: TPoint, u: seq<TPoint>,
                           d': Drawn, coords': seq<real>, pending': seq<TPoint>, drawn: seq<Curve>) {
    && Writes(Step(m, t), d', coords', pending')
    && d'.start == d.start && d'.curves == d.curves + drawn
    && Through(d.cur, pending + [t] + u) == Before(drawn, Through(d'.cur, pending' + u))
  }

  /** No contour with these points so far has a meaning, and the compiler notices. */
  ghost predicate Stuck(m: Machine, d: Drawn, pending: seq<TPoint>, t: TPoint, u: seq<TPoint>) {
    Hopeless(Step(m, t)) && Through(d.cur, pending + [t] + u).None?
  }

  /** An assertion has failed or is bound to fail. */
  predicate Hopeless(m: Machine) { !m.ok || (m.c > 2 && LastThird(m)) }

  lemma {:induction false} HopelessFails(m: Machine, s: seq<TPoint>)
    requires Hopeless(m)
    ensures !Run(m, s).ok
    decreases |s|
  {
    if s != [] {
      HopelessFails(Step(m, s[0]), s[1..]);
    }
  }

  lemma StepFromCurve(m: Machine, d: Drawn, coords: seq<real>, t: TPoint, u: seq<TPoint>)
    returns (d': Drawn, coords': seq<real>, pending': seq<TPoint>, drawn: seq<Curve>)
    requires Writes(m, d, coords, [])
    ensures Advances(m, d, [], t, u, d', coords', pending', drawn)
  {
    hide Draw, Apply;
    var xy := Xy(At(t));
    assert [] + [t] + u == [t] + u && ([t] + u)[1..] == u && coords + Flat([]) == coords;
    if On(t) {
      Applied(d, xy);
      DrawAppend(m.segs, coords, LineTo, xy);
      d', coords', pending', drawn := Apply(d, LineTo, xy), coords + xy, [], [Line(d.cur, At(t))];
      assert [] + u == u && coords' + Flat([]) == coords';
    } else {
      d', coords', pending', drawn := d, coords, [t], [];
      assert m.segs + [] == m.segs && Flat([t]) == xy;
    }
  }

  lemma Applied(d: Drawn, xs: seq<real>)
    ensures |xs| == 2 ==> Apply(d, LineTo, xs) == Drawn(d.curves + [Line(d.cur, PtAt(xs, 0))], PtAt(xs, 0), d.start)
    ensures |xs| == 4 ==>
      Apply(d, QuadTo, xs) == Drawn(d.curves + [Quad(d.cur, PtAt(xs, 0), PtAt(xs, 1))], PtAt(xs, 1), d.start)
    ensures |xs| == 6 ==>
      Apply(d, CubicTo, xs) ==
        Drawn(d.curves + [Cubic(d.cur, PtAt(xs, 0), PtAt(xs, 1), PtAt(xs, 2))], PtAt(xs, 2), d.start)
  {}

  lemma FlatIs(a: TPoint, b: TPoint)
    ensures Flat([]) == [] && Flat([a]) == Xy(At(a)) && Flat([a, b]) == Xy(At(a)) + Xy(At(b))
  {
    assert [a, b][..1] == [a];
  }

  lemma StepFromSecond(m: Machine, d: Drawn, coords: seq<real>, c: TPoint, t: TPoint, u: seq<TPoint>)
    returns (d': Drawn, coords': seq<real>, pending': seq<TPoint>, drawn: seq<Curve>)
    requires Writes(m, d, coords, [c]) && Second(c)
    ensures Advances(m, d, [c], t, u, d', coords', pending', drawn) || Stuck(m, d, [c], t, u)
  {
    hide Draw, Apply, Flat;
    d', coords', pending', drawn := d, coords, [], [];
    FlatIs(c, t);
    FlatIs(t, t);
    var s := [c] + [t] + u;
    assert s[0] == c && s[1] == t && s[1..] == [t] + u && s[2..] == u && [] + u == u;
    if On(t) {
      var xs := Xy(At(c)) + Xy(At(t));
      Applied(d, xs);
      DrawAppend(m.segs, coords, QuadTo, xs);
      d', coords', pending', drawn := Apply(d, QuadTo, xs), coords + xs, [], [Quad(d.cur, At(c), At(t))];
      assert m.coords + Xy(At(t)) == coords' == coords' + Flat([]);
    } else if Second(t) {
      var mid := Mid(At(c), At(t));
      var xs := Xy(At(c)) + Xy(mid);
      assert LastPt(m) == At(c);
      Applied(d, xs);
      DrawAppend(m.segs, coords, QuadTo, xs);
      d', coords', pending', drawn := Apply(d, QuadTo, xs), coords + xs, [t], [Quad(d.cur, At(c), mid)];
      assert m.coords + (Xy(mid) + Xy(At(t))) == coords' + Flat([t]);
    }
  }

  lemma StepFromThird(m: Machine, d: Drawn, coords: seq<real>, a: TPoint, t: TPoint, u: seq<TPoint>)
    returns (d': Drawn, coords': seq<real>, pending': seq<TPoint>, drawn: seq<Curve>)
    requires Writes(m, d, coords, [a]) && Third(a)
    ensures Advances(m, d, [a], t, u, d', coords', pending', drawn) || Stuck(m, d, [a], t, u)
  {
    hide Draw, Apply, Flat;
    d', coords', pending', drawn := d, coords, [], [];
    FlatIs(a, t);
    var s := [a] + [t] + u;
    assert s[0] == a && s[1] == t;
    if Third(t) {
      d', coords', pending', drawn := d, coords, [a, t], [];
      assert m.segs + [] == m.segs && [a] + [t] == [a, t];
      assert m.coords + Xy(At(t)) == coords + Flat([a, t]);
    }
  }

  lemma StepFromThirds(m: Machine, d: Drawn, coords: seq<real>, a: TPoint, b: TPoint, t: TPoint, u: seq<TPoint>)
    returns (d': Drawn, coords': seq<real>, pending': seq<TPoint>, drawn: seq<Curve>)
    requires Writes(m, d, coords, [a, b])
    ensures Advances(m, d, [a, b], t, u, d', coords', pending', drawn) || Stuck(m, d, [a, b], t, u)
  {
    hide Draw, Apply, Flat;
    d', coords', pending', drawn := d, coords, [], [];
    FlatIs(a, b);
    var s := [a, b] + [t] + u;
    assert s[0] == a && s[1] == b && s[2] == t && s[3..] == u && [] + u == u;
    if On(t) {
      var xs := Xy(At(a)) + Xy(At(b)) + Xy(At(t));
      Applied(d, xs);
      DrawAppend(m.segs, coords, CubicTo, xs);
      d', coords', pending', drawn := Apply(d, CubicTo, xs), coords + xs, [], [Cubic(d.cur, At(a), At(b), At(t))];
      assert m.coords + Xy(At(t)) == coords' == coords' + Flat([]);
    }
  }

  /** The closing line has length zero when the contour ends off the curve. */
  function ClosingLine(start: Pt, s: seq<TPoint>): seq<Curve> {
    if s == [] || On(s[|s|-1]) then [] else [Line(start, start)]
  }

  /** At the end of the contour. */
  ghost predicate Closes(m: Machine, d: Drawn, pending: seq<TPoint>, first: TPoint) {
    var r, rest := Close(m), Through(d.cur, pending + [first]);
    && r.ok == rest.Some?
    && (r.ok ==> Draw(r.segs, r.coords) ==
                   Some(Drawn(d.curves + rest.value + ClosingLine(d.start, pending), d.start, d.start)))
  }

  lemma CloseOnCurve(m: Machine, d: Drawn, coords: seq<real>, first: TPoint)
    requires Writes(m, d, coords, []) && On(first) && At(first) == d.start
    ensures Closes(m, d, [], first)
  {
    hide Draw, Apply, Flat;
    FlatIs(first, first);
    ApplyClose(d);
    NothingAhead(d.start);
    DrawAppend(m.segs, coords, ClosePath, []);
    assert [] + [first] == [first] && [first][1..] == [] && coords + [] == coords;
    var line := d.curves + [Line(d.cur, d.start)];
    assert Through(d.cur, [first]).value == [Line(d.cur, d.start)] && line + [] == line;
  }

  lemma CloseOffCurve(m: Machine, d: Drawn, coords: seq<real>, p: TPoint, first: TPoint)
    requires Writes(m, d, coords, [p]) && On(first) && At(first) == d.start
    ensures Closes(m, d, [p], first)
  {
    hide Draw, Apply, Flat;
    FlatIs(p, first);
    NothingAhead(d.start);
    var s, xs := [p] + [first], Xy(At(p)) + Xy(d.start);
    assert s[0] == p && s[1] == first && s[2..] == [];
    if Second(p) {
      Closed(m, d, coords, QuadTo, xs);
      assert Through(d.cur, s).value == [Quad(d.cur, At(p), d.start)];
      assert [m.coords[0], m.coords[1]] == Xy(d.start) && m.coords + Xy(d.start) == coords + xs;
    }
  }

  lemma CloseThirds(m: Machine, d: Drawn, coords: seq<real>, a: TPoint, b: TPoint, first: TPoint)
    requires Writes(m, d, coords, [a, b]) && On(first) && At(first) == d.start
    ensures Closes(m, d, [a, b], first)
  {
    hide Draw, Apply, Flat;
    FlatIs(a, b);
    NothingAhead(d.start);
    var s, xs := [a, b] + [first], Xy(At(a)) + Xy(At(b)) + Xy(d.start);
    assert s[0] == a && s[1] == b && s[2] == first && s[3..] == [];
    Closed(m, d, coords, CubicTo, xs);
    assert Through(d.cur, s).value == [Cubic(d.cur, At(a), At(b), d.start)];
    assert [m.coords[0], m.coords[1]] == Xy(d.start) && m.coords + Xy(d.start) == coords + xs;
  }

  lemma CloseMeans(m: Machine, d: Drawn, coords: seq<real>, pending: seq<TPoint>, first: TPoint)
    requires Writes(m, d, coords, pending) && On(first) && At(first) == d.start
    ensures Closes(m, d, pending, first)
  {
    hide Closes;
    match |pending| {
      case 0 =>
        assert pending == [];
        CloseOnCurve(m, d, coords, first);
      case 1 =>
        assert pending == [pending[0]];
        CloseOffCurve(m, d, coords, pending[0], first);
      case 2 =>
        assert pending == [pending[0], pending[1]];
        CloseThirds(m, d, coords, pending[0], pending[1], first);
    }
  }

  lemma NothingAhead(p: Pt)
    ensures Through(p, []) == Some([])
  {}

  lemma ApplyClose(d: Drawn)
    ensures Apply(d, ClosePath, []) == Drawn(d.curves + [Line(d.cur, d.start)], d.start, d.start)
  {}

  /** The last curve and the end of the path. */
  lemma Closed(m: Machine, d: Drawn, coords: seq<real>, s: Segment, xs: seq<real>)
    requires |xs| == Arity(s) && (s == QuadTo || s == CubicTo) && Draw(m.segs, coords) == Some(d)
    requires PtAt(xs, |xs| / 2 - 1) == d.start
    ensures var curve := if s == QuadTo then Quad(d.cur, PtAt(xs, 0), PtAt(xs, 1))
                         else Cubic(d.cur, PtAt(xs, 0), PtAt(xs, 1), PtAt(xs, 2));
            Draw(m.segs + [s, ClosePath], coords + xs) ==
              Some(Drawn(d.curves + [curve] + [Line(d.start, d.start)], d.start, d.start))
  {
    hide Draw, Apply;
    Applied(d, xs);
    DrawAppend(m.segs, coords, s, xs);
    var e := Apply(d, s, xs);
    ApplyClose(e);
    DrawAppend(m.segs + [s], coords + xs, ClosePath, []);
    assert m.segs + [s] + [ClosePath] == m.segs + [s, ClosePath] && coords + xs + [] == coords + xs;
  }

  lemma StepMeans(m: Machine, d: Drawn, coords: seq<real>, pending: seq<TPoint>, t: TPoint, u: seq<TPoint>)
    returns (d': Drawn, coords': seq<real>, pending': seq<TPoint>, drawn: seq<Curve>)
    requires Writes(m, d, coords, pending)
    ensures Advances(m, d, pending, t, u, d', coords', pending', drawn) || Stuck(m, d, pending, t, u)
  {
    hide Draw, Apply, Flat, Through, Step;
    match |pending| {
      case 0 =>
        assert pending == [];
        d', coords', pending', drawn := StepFromCurve(m, d, coords, t, u);
      case 1 =>
        assert pending == [pending[0]];
        if Second(pending[0]) {
          d', coords', pending', drawn := StepFromSecond(m, d, coords, pending[0], t, u);
        } else {
          d', coords', pending', drawn := StepFromThird(m, d, coords, pending[0], t, u);
        }
      case 2 =>
        assert pending == [pending[0], pending[1]];
        d', coords', pending', drawn := StepFromThirds(m, d, coords, pending[0], pending[1], t, u);
    }
  }

  lemma ClosesAlike(m: Machine, d: Drawn, coords: seq<real>, pending: seq<TPoint>, s: seq<TPoint>,
                    earlier: seq<TPoint>, start: Pt)
    requires s != [] && m.ok && Writes(Step(m, s[0]), d, coords, pending)
    ensures ClosingLine(start, pending + s[1..]) == ClosingLine(start, earlier + s)
  {
    assert Step(m, s[0]).last == Some(s[0]);
  }

  lemma Reassociate(a: seq<Curve>, b: seq<Curve>, c: seq<Curve>, e: seq<Curve>)
    ensures (a + b) + c + e == a + (b + c) + e
  {}

  lemma WritesOk(m: Machine, d: Drawn, coords: seq<real>, pending: seq<TPoint>)
    requires Writes(m, d, coords, pending)
    ensures m.ok
  {}

  /** From any point of a contour on, the compiler succeeds exactly when the rest has a meaning, and then
      the path draws exactly that. */
  lemma {:induction false} Simulates(m: Machine, d: Drawn, coords: seq<real>, pending: seq<TPoint>, s: seq<TPoint>,
                                     first: TPoint)
    requires Writes(m, d, coords, pending) && On(first) && At(first) == d.start
    ensures var r, rest := Run(m, s), Through(d.cur, pending + s + [first]);
            && r.ok == rest.Some?
            && (r.ok ==> Draw(r.segs, r.coords) ==
                           Some(Drawn(d.curves + rest.value + ClosingLine(d.start, pending + s), d.start, d.start)))
    decreases |s|
  {
    hide Draw, Apply, Flat, Through, Step, Writes;
    if s == [] {
      assert pending + s == pending;
      CloseMeans(m, d, coords, pending, first);
    } else {
      var t, u := s[0], s[1..] + [first];
      assert pending + s + [first] == pending + [t] + u;
      WritesOk(m, d, coords, pending);
      var d', coords', pending', drawn := StepMeans(m, d, coords, pending, t, u);
      if Stuck(m, d, pending, t, u) {
        HopelessFails(Step(m, t), s[1..]);
      } else {
        Simulates(Step(m, t), d', coords', pending', s[1..], first);
        assert pending' + s[1..] + [first] == pending' + u;
        ClosesAlike(m, d', coords', pending', s, pending, d.start);
        var rest := Through(d'.cur, pending' + u);
        if rest.Some? {
          Reassociate(d.curves, drawn, rest.value, ClosingLine(d.start, pending + s));
        }
      }
    }
  }

  lemma FirstPoint(first: TPoint)
    requires On(first)
    ensures Writes(Step(START, first), Drawn([], At(first), At(first)), Xy(At(first)), [])
  {
    var p := At(first);
    ApplyMove(Drawn([], ORIGIN, ORIGIN), Xy(p));
    DrawAppend([], [], MoveTo, Xy(p));
    assert [] + [MoveTo] == [MoveTo] && [] + Xy(p) == Xy(p) && Xy(p) + Flat([]) == Xy(p);
  }

  lemma RunFrom(s: seq<TPoint>)
    ensures s == [] ==> !Contour(s).ok
    ensures s != [] ==> Contour(s) == Run(Step(START, s[0]), s[1..])
  {}

  lemma OffStart(s: seq<TPoint>)
    requires s != [] && !On(s[0])
    ensures !Contour(s).ok
  {
    HopelessFails(Step(START, s[0]), s[1..]);
  }

  /** Every contour: the compiler succeeds exactly when the contour has a meaning, and the path it writes then
      draws that meaning, followed by a line of length zero if the contour ends off the curve. */
  lemma ContourMeans(s: seq<TPoint>)
    ensures Contour(s).ok <==> WellTagged(s)
    ensures Contour(s).ok <==> Meaning(s).Some?
    ensures Contour(s).ok ==>
      Draw(Contour(s).segs, Contour(s).coords) ==
        Some(Drawn(Meaning(s).value + ClosingLine(At(s[0]), s), At(s[0]), At(s[0])))
  {
    hide WellTagged, Contour, Run, Step, Writes, Draw, Through, On, At;
    WellTaggedHaveMeaning(s);
    RunFrom(s);
    if s != [] {
      if On(s[0]) {
        var p := At(s[0]);
        FirstPoint(s[0]);
        Simulates(Step(START, s[0]), Drawn([], p, p), Xy(p), [], s[1..], s[0]);
        assert [] + s[1..] == s[1..] && [] + s[1..] + [s[0]] == s[1..] + [s[0]];
        if Meaning(s).Some? {
          assert [] + Meaning(s).value == Meaning(s).value;
        }
      } else {
        OffStart(s);
      }
    }
  }

  // ---------- where the points stand ----------

  /** Between the points `j` - 1 and `j` a point is inserted: both are control points of quadratic curves. */
  predicate Implied(s: seq<TPoint>, j: nat)
    requires 0 < j < |s|
  {
    s[j-1].tag & 3 == 0 && s[j].tag & 3 == 0
  }

  /** The number of points written in front of input point `j`. */
  function Slot(s: seq<TPoint>, j: nat): nat
    requires j < |s|
  {
    if j == 0 then 0 else Slot(s, j - 1) + if Implied(s, j) then 2 else 1
  }

  /** The first `k` points of a contour stand in order, x before y and in units of 1/64, and each point inserted
      between two is as far from the one in front as from the one behind. */
  ghost predicate PlacedUpTo(s: seq<TPoint>, k: nat, xs: seq<real>)
    requires 0 < k <= |s|
  {
    && |xs| >= 2 * Slot(s, k - 1) + 2
    && (forall j :: 0 <= j < k ==> Stands(s, j, xs))
    && (forall j :: 0 < j < k && Implied(s, j) ==> HalfWay(xs, Slot(s, j) - 1))
  }

  ghost predicate Stands(s: seq<TPoint>, j: nat, xs: seq<real>)
    requires j < |s|
  {
    var p := Slot(s, j);
    2 * p + 2 <= |xs| && 64.0 * xs[2*p] == s[j].x as real && 64.0 * xs[2*p+1] == s[j].y as real
  }

  ghost predicate HalfWay(xs: seq<real>, p: int) {
    && 0 < p && 2 * p + 4 <= |xs|
    && xs[2*p] - xs[2*p-2] == xs[2*p+2] - xs[2*p] && xs[2*p+1] - xs[2*p-1] == xs[2*p+3] - xs[2*p+1]
  }

  /** The number of coordinates of a contour: two for each point, for each point inserted, and for the first point
      again if the last one is not on the curve. */
  function CoordCount(s: seq<TPoint>): nat
    requires s != []
  {
    2 * Slot(s, |s| - 1) + if s[|s|-1].tag & 1 != 0 then 2 else 4
  }

  /** The coordinates of a contour. */
  ghost predicate Placed(s: seq<TPoint>, xs: seq<real>) {
    && s != [] && |xs| == CoordCount(s) && PlacedUpTo(s, |s|, xs)
    && (s[|s|-1].tag & 1 == 0 ==> xs[|xs|-2] == xs[0] && xs[|xs|-1] == xs[1])
  }

  lemma {:induction false} SlotGrows(s: seq<TPoint>, j: nat, k: nat)
    requires j < k < |s|
    ensures Slot(s, j) + (if Implied(s, k) then 2 else 1) <= Slot(s, k)
    decreases k - j
  {
    if j < k - 1 {
      SlotGrows(s, j, k - 1);
    }
  }

  lemma SlotGap(s: seq<TPoint>, j: nat)
    requires 0 < j < |s| && Implied(s, j)
    ensures Slot(s, j) == Slot(s, j - 1) + 2
  {}

  lemma StandsLonger(s: seq<TPoint>, j: nat, xs: seq<real>, ys: seq<real>)
    requires j < |s| && Stands(s, j, xs)
    ensures Stands(s, j, xs + ys)
  {}

  lemma HalfWayLonger(xs: seq<real>, p: int, ys: seq<real>)
    requires HalfWay(xs, p)
    ensures HalfWay(xs + ys, p)
  {}

  lemma PlacedLonger(s: seq<TPoint>, k: nat, xs: seq<real>, ys: seq<real>)
    requires 0 < k <= |s| && PlacedUpTo(s, k, xs)
    ensures PlacedUpTo(s, k, xs + ys)
  {
    hide Stands, HalfWay, Implied, Slot;
    forall j | 0 <= j < k ensures Stands(s, j, xs + ys) {
      StandsLonger(s, j, xs, ys);
    }
    forall j | 0 < j < k && Implied(s, j) ensures HalfWay(xs + ys, Slot(s, j) - 1) {
      SlotGap(s, j);
      HalfWayLonger(xs, Slot(s, j) - 1, ys);
    }
  }

  lemma LastStands(s: seq<TPoint>, k: nat, xs: seq<real>)
    requires k < |s| && |xs| == 2 * Slot(s, k)
    ensures Stands(s, k, xs + Xy(At(s[k])))
  {}

  lemma InsertedHalfWay(xs: seq<real>, p: Pt)
    requires |xs| >= 2
    ensures var last := Pt(xs[|xs|-2], xs[|xs|-1]);
            |xs| % 2 == 0 ==> HalfWay(xs + Xy(Mid(last, p)) + Xy(p), |xs| / 2)
  {}

  /** The compiler has written the first `k` points. */
  ghost predicate Reached(m: Machine, s: seq<TPoint>, k: nat) {
    && 0 < k <= |s| && m.last == Some(s[k-1])
    && |m.coords| == 2 * Slot(s, k - 1) + 2 && PlacedUpTo(s, k, m.coords)
  }

  lemma StepPlaces(m: Machine, s: seq<TPoint>, k: nat)
    requires Reached(m, s, k) && k < |s| && m.ok && Step(m, s[k]).ok
    ensures Reached(Step(m, s[k]), s, k + 1)
  {
    hide PlacedUpTo, Stands, HalfWay, At, Mid;
    TagBits(s[k-1]);
    TagBits(s[k]);
    var xs, xy := m.coords, Xy(At(s[k]));
    if Implied(s, k) {
      var mid := Mid(LastPt(m), At(s[k]));
      InsertedHalfWay(xs, At(s[k]));
      Grown(s, k, xs, Xy(mid));
      assert xs + (Xy(mid) + xy) == xs + Xy(mid) + xy;
    } else {
      assert xs + [] == xs;
      Grown(s, k, xs, []);
    }
  }

  /** One more point, behind an inserted one if there is one. */
  lemma Grown(s: seq<TPoint>, k: nat, xs: seq<real>, ys: seq<real>)
    requires 0 < k < |s| && PlacedUpTo(s, k, xs) && |xs| == 2 * Slot(s, k - 1) + 2 && |xs + ys| == 2 * Slot(s, k)
    requires Implied(s, k) ==> HalfWay(xs + ys + Xy(At(s[k])), Slot(s, k) - 1)
    ensures PlacedUpTo(s, k + 1, xs + ys + Xy(At(s[k])))
  {
    hide Stands, HalfWay, At;
    var zs := ys + Xy(At(s[k]));
    assert xs + zs == xs + ys + Xy(At(s[k]));
    PlacedLonger(s, k, xs, zs);
    LastStands(s, k, xs + ys);
  }

  lemma {:induction false} RunPlaces(m: Machine, s: seq<TPoint>, k: nat)
    requires Reached(m, s, k) && m.ok && Run(m, s[k..]).ok
    ensures Placed(s, Run(m, s[k..]).coords)
    decreases |s| - k
  {
    hide Step, PlacedUpTo;
    if k == |s| {
      assert s[k..] == [];
      ClosePlaces(m, s);
    } else {
      assert s[k..][0] == s[k] && s[k..][1..] == s[k+1..];
      if !Step(m, s[k]).ok {
        FailedStays(Step(m, s[k]), s[k+1..]);
      } else {
        StepPlaces(m, s, k);
        RunPlaces(Step(m, s[k]), s, k + 1);
      }
    }
  }

  lemma ClosePlaces(m: Machine, s: seq<TPoint>)
    requires Reached(m, s, |s|) && m.ok && Close(m).ok
    ensures Placed(s, Close(m).coords)
  {
    hide PlacedUpTo;
    PlacedLonger(s, |s|, m.coords, [m.coords[0], m.coords[1]]);
  }

  /** What the compiler writes for a contour: every point in order at its place, each point inserted half-way between
      its neighbours, and the first point again at the end if the contour ends off the curve. */
  lemma ContourPlaces(s: seq<TPoint>)
    requires Contour(s).ok
    ensures Placed(s, Contour(s).coords)
  {
    RunFrom(s);
    var first := Step(START, s[0]);
    if first.ok {
      FirstPlaced(s);
      RunPlaces(first, s, 1);
    } else {
      FailedStays(first, s[1..]);
    }
  }

  lemma FirstPlaced(s: seq<TPoint>)
    requires s != [] && Step(START, s[0]).ok
    ensures Reached(Step(START, s[0]), s, 1)
  {
    assert [] + Xy(At(s[0])) == Xy(At(s[0]));
    LastStands(s, 0, []);
  }

  // ---------- bounds ----------

  ghost predicate Small(m: Machine, k: nat) {
    && k > 0 && m.last.Some?
    && |m.segs| <= (if LastOn(m) then k else k - 1)
    && |m.coords| <= (if LastOn(m) then 4 * k - 2 else 4 * k - 4)
  }

  lemma StepSmall(m: Machine, k: nat, t: TPoint)
    requires Small(m, k) && m.ok
    ensures Step(m, t).ok ==> Small(Step(m, t), k + 1)
    ensures !Step(m, t).ok ==> Step(m, t) == m.(ok := false)
  {}

  lemma {:induction false} FailedStays(m: Machine, s: seq<TPoint>)
    requires !m.ok
    ensures Run(m, s) == m
    decreases |s|
  {
    if s != [] {
      FailedStays(m, s[1..]);
    }
  }

  lemma {:induction false} RunSmall(m: Machine, k: nat, s: seq<TPoint>)
    requires Small(m, k) && m.ok
    ensures |Run(m, s).segs| <= k + |s| + 1 && |Run(m, s).coords| <= 4 * (k + |s|) - 2
    decreases |s|
  {
    if s != [] {
      StepSmall(m, k, s[0]);
      if Step(m, s[0]).ok {
        RunSmall(Step(m, s[0]), k + 1, s[1..]);
      } else {
        FailedStays(Step(m, s[0]), s[1..]);
      }
    }
  }

  /** A contour of n points, well-formed or not, writes at most n + 1 segments and 4n - 2 coordinates. */
  lemma ContourBounds(s: seq<TPoint>)
    ensures s == [] ==> Contour(s).segs == [] && Contour(s).coords == []
    ensures s != [] ==> |Contour(s).segs| <= |s| + 1 && |Contour(s).coords| <= 4 * |s| - 2
  {
    if s != [] {
      var m := Step(START, s[0]);
      if m.ok {
        RunSmall(m, 1, s[1..]);
      } else {
        FailedStays(m, s[1..]);
      }
    }
  }

  /** The contours end at these points, in order. */
  ghost predicate Ends(ends: seq<int>, last: nat, n: nat) {
    ends != [] ==> last <= ends[0] + 1 <= n && Ends(ends[1..], ends[0] + 1, n)
  }

  datatype Path = Path(segs: seq<Segment>, coords: seq<real>, ok: bool)

  /** What the compiler writes for the contours of an outline from point `last` on, up to the first that
      fails. */
  ghost function Compile(points: seq<TPoint>, ends: seq<int>, last: nat): Path
    requires last <= |points| && Ends(ends, last, |points|)
    decreases |ends|
  {
    if ends == [] then Path([], [], last == |points|)
    else
      var m := Contour(points[last..ends[0] + 1]);
      if !m.ok then Path(m.segs, m.coords, false)
      else
        var rest := Compile(points, ends[1..], ends[0] + 1);
        Path(m.segs + rest.segs, m.coords + rest.coords, rest.ok)
  }

  const SEGMENTS_COUNT_MAX: nat := 256
  const COORDS_COUNT_MAX: nat := 1024

  lemma {:induction false} CompileBounds(points: seq<TPoint>, ends: seq<int>, last: nat)
    requires last <= |points| && Ends(ends, last, |points|)
    ensures var r, n := Compile(points, ends, last), |points| - last;
            && |r.segs| <= n + |ends| && |r.coords| <= 4 * n
            && (r.ok ==> |r.coords| <= 4 * n - 2 * |ends|)
    decreases |ends|
  {
    hide Contour;
    if ends != [] {
      var s := points[last..ends[0] + 1];
      ContourBounds(s);
      if Contour(s).ok {
        ContourMeans(s);
        CompileBounds(points, ends[1..], ends[0] + 1);
      }
    }
  }

  /** Outlines of at most 256 points and contours together fit both arrays, well-formed or not. */
  lemma ArraysSuffice(points: seq<TPoint>, ends: seq<int>)
    requires Ends(ends, 0, |points|) && |points| + |ends| <= 256
    ensures |Compile(points, ends, 0).segs| <= SEGMENTS_COUNT_MAX
    ensures |Compile(points, ends, 0).coords| <= COORDS_COUNT_MAX
  {
    CompileBounds(points, ends, 0);
  }

  /** The curves of all contours, each followed by its closing line. */
  ghost function OutlineMeaning(points: seq<TPoint>, ends: seq<int>, last: nat): Option<seq<Curve>>
    requires last <= |points| && Ends(ends, last, |points|)
    decreases |ends|
  {
    if ends == [] then (if last == |points| then Some([]) else None)
    else
      var s := points[last..ends[0] + 1];
      if Meaning(s).None? then None
      else Before(Meaning(s).value + ClosingLine(At(s[0]), s), OutlineMeaning(points, ends[1..], ends[0] + 1))
  }

  /** The coordinates of an outline: those of its contours, one after the other. */
  ghost predicate OutlinePlaced(points: seq<TPoint>, ends: seq<int>, last: nat, xs: seq<real>)
    requires last <= |points| && Ends(ends, last, |points|)
    decreases |ends|
  {
    if ends == [] then xs == []
    else
      var s := points[last..ends[0] + 1];
      && s != [] && CoordCount(s) <= |xs| && Placed(s, xs[..CoordCount(s)])
      && OutlinePlaced(points, ends[1..], ends[0] + 1, xs[CoordCount(s)..])
  }

  /** What the compiler writes for an outline: all points of all contours at their places. */
  lemma {:induction false} OutlinePlaces(points: seq<TPoint>, ends: seq<int>, last: nat)
    requires last <= |points| && Ends(ends, last, |points|) && Compile(points, ends, last).ok
    ensures OutlinePlaced(points, ends, last, Compile(points, ends, last).coords)
    decreases |ends|
  {
    hide Contour, PlacedUpTo, CoordCount;
    if ends != [] {
      var s := points[last..ends[0] + 1];
      ContourPlaces(s);
      OutlinePlaces(points, ends[1..], ends[0] + 1);
      var first, rest := Contour(s).coords, Compile(points, ends[1..], ends[0] + 1).coords;
      assert (first + rest)[..|first|] == first && (first + rest)[|first|..] == rest;
    }
  }

  lemma {:induction false} ContourBeginsWithMove(m: Machine, s: seq<TPoint>)
    requires m.segs != []
    ensures Run(m, s).segs != [] && Run(m, s).segs[0] == m.segs[0]
    decreases |s|
  {
    if s != [] {
      ContourBeginsWithMove(Step(m, s[0]), s[1..]);
    }
  }

  /** An outline compiles exactly when all its contours have a meaning and cover all points, and the path then
      draws the curves of the contours in order. */
  lemma {:induction false} OutlineMeans(points: seq<TPoint>, ends: seq<int>, last: nat)
    requires last <= |points| && Ends(ends, last, |points|)
    ensures var r, meaning := Compile(points, ends, last), OutlineMeaning(points, ends, last);
            && r.ok == meaning.Some?
            && (r.ok ==> Draw(r.segs, r.coords).Some? && Draw(r.segs, r.coords).value.curves == meaning.value
                         && (r.segs != [] ==> r.segs[0] == MoveTo))
    decreases |ends|
  {
    hide Meaning, Draw, Run;
    if ends == [] {
      NothingDrawn();
    } else {
      var s := points[last..ends[0] + 1];
      ContourMeans(s);
      OutlineMeans(points, ends[1..], ends[0] + 1);
      var m, rest := Contour(s), Compile(points, ends[1..], ends[0] + 1);
      if m.ok && rest.ok {
        StartsWithMove(s);
        if rest.segs == [] {
          OnlyContour(rest.coords);
          assert m.segs + [] == m.segs && m.coords + [] == m.coords;
        } else {
          DrawJoin(m.segs, m.coords, rest.segs, rest.coords);
        }
      }
    }
  }

  lemma NothingDrawn()
    ensures Draw([], []) == Some(Drawn([], ORIGIN, ORIGIN))
  {}

  lemma OnlyContour(coords: seq<real>)
    requires Draw([], coords).Some?
    ensures coords == [] && Draw([], coords).value.curves == []
  {}

  lemma StartsWithMove(s: seq<TPoint>)
    requires Contour(s).ok
    ensures Contour(s).segs != [] && Contour(s).segs[0] == MoveTo
  {
    if s != [] {
      if On(s[0]) {
        ContourBeginsWithMove(Step(START, s[0]), s[1..]);
      } else {
        HopelessFails(Step(START, s[0]), s[1..]);
      }
    }
  }

  // ---------- the compiler ----------

  lemma {:induction false} RunGrows(m: Machine, s: seq<TPoint>)
    ensures |m.segs| <= |Run(m, s).segs| && |m.coords| <= |Run(m, s).coords|
    decreases |s|
  {
    if s != [] {
      RunGrows(Step(m, s[0]), s[1..]);
    }
  }

  /** Room for what a step, or the end of the contour, writes. */
  lemma StepRoom(m: Machine, s: seq<TPoint>)
    requires s != []
    ensures |Step(m, s[0]).segs| <= |Run(m, s).segs| && |Step(m, s[0]).coords| <= |Run(m, s).coords|
    ensures Run(m, s) == Run(Step(m, s[0]), s[1..])
    ensures !Step(m, s[0]).ok ==> Run(m, s) == Step(m, s[0])
  {
    RunGrows(Step(m, s[0]), s[1..]);
    if !Step(m, s[0]).ok {
      FailedStays(Step(m, s[0]), s[1..]);
    }
  }

  lemma CompileStep(points: seq<TPoint>, ends: seq<int>, last: nat, segs: seq<Segment>, coords: seq<real>)
    requires ends != [] && last <= |points| && Ends(ends, last, |points|)
    ensures var m, r := Contour(points[last..ends[0] + 1]), Compile(points, ends, last);
            && last <= ends[0] + 1 <= |points| && Ends(ends[1..], ends[0] + 1, |points|)
            && |m.segs| <= |r.segs| && |m.coords| <= |r.coords|
            && (!m.ok ==> r == Path(m.segs, m.coords, false))
            && (m.ok ==>
                  var rest := Compile(points, ends[1..], ends[0] + 1);
                  && segs + r.segs == (segs + m.segs) + rest.segs
                  && coords + r.coords == (coords + m.coords) + rest.coords && r.ok == rest.ok)
  {}

  lemma CompileEnds(points: seq<TPoint>, last: nat)
    requires last <= |points|
    ensures Compile(points, [], last) == Path([], [], last == |points|)
  {}

  class GlyphPath {
    var segmentsCount: nat
    var coordsCount: nat
    const segments: array<Segment>
    const coords: array<real>

    constructor ()
      ensures segmentsCount == 0 && coordsCount == 0 && fresh(segments) && fresh(coords)
      ensures segments.Length == SEGMENTS_COUNT_MAX && coords.Length == COORDS_COUNT_MAX
    {
      segmentsCount, coordsCount := 0, 0;
      segments := new Segment[SEGMENTS_COUNT_MAX](i => MoveTo);
      coords := new real[COORDS_COUNT_MAX];
    }

    ghost predicate Valid()
      reads this
    {
      segmentsCount <= segments.Length && coordsCount <= coords.Length
    }

    ghost function Segs(): seq<Segment>
      requires Valid()
      reads this, segments
    {
      segments[..segmentsCount]
    }

    ghost function Coords(): seq<real>
      requires Valid()
      reads this, coords
    {
      coords[..coordsCount]
    }

    method PutSegment(s: Segment)
      requires Valid() && segmentsCount < segments.Length
      modifies this`segmentsCount, segments
      ensures Valid() && Segs() == old(Segs()) + [s]
    {
      segments[segmentsCount] := s;
      segmentsCount := segmentsCount + 1;
    }

    method PutPoint(p: Pt)
      requires Valid() && coordsCount + 2 <= coords.Length
      modifies this`coordsCount, coords
      ensures Valid() && Coords() == old(Coords()) + Xy(p)
    {
      coords[coordsCount] := p.x;
      coordsCount := coordsCount + 1;
      coords[coordsCount] := p.y;
      coordsCount := coordsCount + 1;
    }

    /** What stands in the arrays behind `segs0` and `coords0` is what the machine has written. */
    ghost predicate Wrote(segs0: seq<Segment>, coords0: seq<real>, m: Machine)
      reads this, segments, coords
    {
      Valid() && Segs() == segs0 + m.segs && Coords() == coords0 + m.coords
    }

    /** Room in the arrays for the result of the contour. */
    ghost predicate Room(segs0: seq<Segment>, coords0: seq<real>, r: Machine) {
      |segs0| + |r.segs| <= segments.Length && |coords0| + |r.coords| <= coords.Length
    }

    /** The body of the loop over the points. */
    method ConvertPoint(t: TPoint, first: bool, lastTag: bv8, count: nat,
                        ghost m: Machine, ghost segs0: seq<Segment>, ghost coords0: seq<real>)
      returns (ok: bool, c: nat)
      requires Wrote(segs0, coords0, m) && m.ok && count == m.c && first == m.last.None?
      requires !first ==> lastTag == m.last.value.tag && |m.coords| >= 2
      requires first ==> m == START
      requires Room(segs0, coords0, Step(m, t))
      modifies this, segments, coords
      ensures Wrote(segs0, coords0, Step(m, t))
      ensures ok == Step(m, t).ok && (ok ==> c == Step(m, t).c)
    {
      c := count + 1;
      if first {
        if t.tag & 1 == 0 || c != 1 { return false, c; }
        c := 0;
        PutSegment(MoveTo);
      } else if t.tag & 1 != 0 {
        if lastTag & 1 != 0 {
          if c != 1 { return false, c; }
          PutSegment(LineTo);
        } else if lastTag & 2 != 0 {
          if c != 3 { return false, c; }
          PutSegment(CubicTo);
        } else {
          if c != 2 { return false, c; }
          PutSegment(QuadTo);
        }
        c := 0;
      } else if t.tag & 2 != 0 {
        if lastTag & 1 == 0 && lastTag & 2 == 0 { return false, c; }
      } else if lastTag & 1 == 0 {
        if lastTag & 2 != 0 || c != 2 { return false, c; }
        c := 1;
        PutSegment(QuadTo);
        var p := At(t);
        PutPoint(Pt((coords[coordsCount - 2] + p.x) * 0.5, (coords[coordsCount - 1] + p.y) * 0.5));
      }
      PutPoint(At(t));
      ok := true;
    }

    /** The end of the contour; `firstCoords` is where its coordinates begin. */
    method CloseContour(empty: bool, lastTag: bv8, count: nat, firstCoords: nat,
                        ghost m: Machine, ghost segs0: seq<Segment>, ghost coords0: seq<real>)
      returns (ok: bool)
      requires Wrote(segs0, coords0, m) && m.ok && count == m.c && empty == m.last.None? && firstCoords == |coords0|
      requires empty ==> m == START && lastTag == 0
      requires !empty ==> lastTag == m.last.value.tag && |m.coords| >= 2
      requires Room(segs0, coords0, Close(m))
      modifies this, segments, coords
      ensures Wrote(segs0, coords0, Close(m)) && ok == Close(m).ok
    {
      if lastTag & 1 != 0 {
        if count != 0 { return false; }
      } else {
        var c := count + 1;
        if lastTag & 2 != 0 {
          if c != 3 { return false; }
          PutSegment(CubicTo);
        } else {
          if c != 2 { return false; }
          PutSegment(QuadTo);
        }
        assert Coords()[firstCoords] == m.coords[0] && Coords()[firstCoords + 1] == m.coords[1];
        PutPoint(Pt(coords[firstCoords], coords[firstCoords + 1]));
      }
      PutSegment(ClosePath);
      ok := true;
    }

    /** Appends the path of one contour; not `ok` when an assertion of the source fails. */
    method ConvertContour(points: seq<TPoint>) returns (ok: bool)
      requires Valid() && Room(Segs(), Coords(), Contour(points))
      modifies this, segments, coords
      ensures Wrote(old(Segs()), old(Coords()), Contour(points)) && ok == Contour(points).ok
      ensures ok ==> |old(Coords())| <= |Coords()| && Placed(points, Coords()[|old(Coords())|..])
    {
      hide Step, Close, Run;
      ghost var segs0, coords0, m := Segs(), Coords(), START;
      var firstCoords := coordsCount;
      var first, lastTag, c, i := true, 0 as bv8, 0, 0;
      assert points[0..] == points;
      while i < |points|
        invariant i <= |points| && Run(m, points[i..]) == Contour(points)
        invariant Wrote(segs0, coords0, m) && m.ok && c == m.c && first == m.last.None?
        invariant first ==> m == START && lastTag == 0
        invariant !first ==> lastTag == m.last.value.tag && |m.coords| >= 2
      {
        var t := points[i];
        assert points[i..][0] == t && points[i..][1..] == points[i+1..];
        StepRoom(m, points[i..]);
        ok, c := ConvertPoint(t, first, lastTag, c, m, segs0, coords0);
        StepLast(m, t);
        m := Step(m, t);
        if !ok {
          return;
        }
        first, lastTag, i := false, t.tag, i + 1;
      }
      assert points[i..] == [];
      RunEnds(m);
      ok := CloseContour(first, lastTag, c, firstCoords, m, segs0, coords0);
      if ok {
        ContourPlaces(points);
        assert Coords()[|coords0|..] == Contour(points).coords;
      }
    }

    /** Compiles an outline; not `ok` when an assertion of the source fails before the last two, which check
        afterwards that the arrays were large enough and are the precondition here. */
    method ConvertOutline(points: seq<TPoint>, contours: seq<int>) returns (ok: bool)
      requires segments.Length == SEGMENTS_COUNT_MAX && coords.Length == COORDS_COUNT_MAX
      requires Ends(contours, 0, |points|)
      requires |Compile(points, contours, 0).segs| <= SEGMENTS_COUNT_MAX
      requires |Compile(points, contours, 0).coords| <= COORDS_COUNT_MAX
      modifies this, segments, coords
      ensures Valid() && ok == Compile(points, contours, 0).ok
      ensures Segs() == Compile(points, contours, 0).segs && Coords() == Compile(points, contours, 0).coords
      ensures ok == OutlineMeaning(points, contours, 0).Some?
      ensures ok ==> Draw(Segs(), Coords()).Some?
                     && Draw(Segs(), Coords()).value.curves == OutlineMeaning(points, contours, 0).value
      ensures ok ==> OutlinePlaced(points, contours, 0, Coords())
    {
      hide OutlinePlaced, Contour, Draw, OutlineMeaning, Compile, Ends;
      OutlineMeans(points, contours, 0);
      segmentsCount, coordsCount := 0, 0;
      ghost var goal := Compile(points, contours, 0);
      var lastContour, k := 0, 0;
      assert contours[0..] == contours;
      while k < |contours|
        invariant k <= |contours| && lastContour <= |points| && Ends(contours[k..], lastContour, |points|)
        invariant Valid()
        invariant var rest := Compile(points, contours[k..], lastContour);
                  && goal.segs == Segs() + rest.segs && goal.coords == Coords() + rest.coords && goal.ok == rest.ok
      {
        assert contours[k..][0] == contours[k] && contours[k..][1..] == contours[k+1..];
        var contour := contours[k] + 1;
        CompileStep(points, contours[k..], lastContour, Segs(), Coords());
        var fine := ConvertContour(points[lastContour..contour]);
        if !fine {
          return false;
        }
        lastContour, k := contour, k + 1;
      }
      assert contours[k..] == [];
      CompileEnds(points, lastContour);
      ok := lastContour == |points|;
      if ok {
        OutlinePlaces(points, contours, 0);
      }
    }
  }

  lemma StepLast(m: Machine, t: TPoint)
    requires m.ok && (m.last.Some? ==> |m.coords| >= 2)
    ensures Step(m, t).ok ==> Step(m, t).last == Some(t) && |Step(m, t).coords| >= 2
  {}

  lemma RunEnds(m: Machine)
    ensures Run(m, []) == Close(m)
  {}
}
