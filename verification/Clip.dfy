/** `plotLine` of jquery.flot.js: clipping a line series against the axis box and drawing it. */
module Clip {
  import opened Options
  import opened Polyline
  import opened FlatMerge
  import opened Geometry

  datatype Box = Box(xmin: real, xmax: real, ymin: real, ymax: real)

  predicate InBox(p: Point, box: Box) {
    box.xmin <= p.x <= box.xmax && box.ymin <= p.y <= box.ymax
  }

  function Swap(p: Point): Point {
    Point(p.y, p.x)
  }

  function SwapAxes(s: Segment): Segment {
    Segment(Swap(s.a), Swap(s.b))
  }

  // ---- one clip against a lower or an upper bound on y ----

  /** Where a line through two points reaches height v. */
  function Cross(x1: real, y1: real, x2: real, y2: real, v: real): real
    requires y1 != y2
  {
    (v - y1) / (y2 - y1) * (x2 - x1) + x1
  }

  function CrossX(s: Segment, v: real): real
    requires s.a.y != s.b.y
  {
    Cross(s.a.x, s.a.y, s.b.x, s.b.y, v)
  }

  function ClipMin(s: Segment, min: real): Option<Segment> {
    if s.a.y <= s.b.y && s.a.y < min then
      if s.b.y < min then None else Some(Segment(Point(CrossX(s, min), min), s.b))
    else if s.b.y <= s.a.y && s.b.y < min then
      if s.a.y < min then None else Some(Segment(s.a, Point(CrossX(s, min), min)))
    else Some(s)
  }

  function ClipMax(s: Segment, max: real): Option<Segment> {
    if s.a.y >= s.b.y && s.a.y > max then
      if s.b.y > max then None else Some(Segment(Point(CrossX(s, max), max), s.b))
    else if s.b.y >= s.a.y && s.b.y > max then
      if s.a.y > max then None else Some(Segment(s.a, Point(CrossX(s, max), max)))
    else Some(s)
  }

  /** A lower and an upper clip on the same coordinate. */
  function ClipBand(s: Segment, min: real, max: real): Option<Segment> {
    match ClipMin(s, min)
    case None => None
    case Some(s1) => ClipMax(s1, max)
  }

  function SwapResult(r: Option<Segment>): Option<Segment> {
    match r
    case None => None
    case Some(s) => Some(SwapAxes(s))
  }

  /** The four clips in order. */
  function ClipBox(s: Segment, box: Box): Option<Segment> {
    match ClipBand(s, box.ymin, box.ymax)
    case None => None
    case Some(s2) => SwapResult(ClipBand(SwapAxes(s2), box.xmin, box.xmax))
  }

  /** `r` is what is left of `s` when the points that are not `inside` are cut off: a part of s, in the
      direction of s, and no point inside is lost. */
  ghost predicate IsCut(s: Segment, inside: Point -> bool, r: Option<Segment>) {
    match r
    case None => forall t :: 0.0 <= t <= 1.0 ==> !inside(At(s, t))
    case Some(part) => exists t0, t1 :: IsCutAt(s, inside, part, t0, t1)
  }

  ghost predicate IsCutAt(s: Segment, inside: Point -> bool, part: Segment, t0: real, t1: real) {
    && 0.0 <= t0 <= t1 <= 1.0 && part == Part(s, t0, t1)
    && forall t :: 0.0 <= t <= 1.0 ==> (inside(At(s, t)) <==> t0 <= t <= t1)
  }

  lemma CrossAt(s: Segment, v: real) returns (u: real)
    requires s.a.y != s.b.y && ((s.a.y <= v <= s.b.y) || (s.b.y <= v <= s.a.y))
    ensures 0.0 <= u <= 1.0 && At(s, u) == Point(CrossX(s, v), v)
  {
    var d := s.b.y - s.a.y;
    u := (v - s.a.y) / d;
    assert u * d == v - s.a.y;
    assert CrossX(s, v) == u * (s.b.x - s.a.x) + s.a.x;
    if d > 0.0 {
      QuotientBounds(v - s.a.y, d);
    } else {
      assert (v - s.a.y) / d == (s.a.y - v) / (-d);
      QuotientBounds(s.a.y - v, -d);
    }
  }

  /** Heights along a rising segment are ordered as the parameters; along a falling one, the other way. */
  lemma HeightOrder(s: Segment, u: real, t: real)
    ensures s.a.y < s.b.y ==> (At(s, u).y <= At(s, t).y <==> u <= t)
    ensures s.b.y < s.a.y ==> (At(s, u).y <= At(s, t).y <==> t <= u)
  {
    var d := s.b.y - s.a.y;
    assert At(s, t).y - At(s, u).y == (t - u) * d;
    SignOfProduct(t - u, d);
  }

  function AtLeast(v: real): Point -> bool {
    (p: Point) => p.y >= v
  }

  function AtMost(v: real): Point -> bool {
    (p: Point) => p.y <= v
  }

  lemma ClipMinExact(s: Segment, min: real)
    ensures IsCut(s, AtLeast(min), ClipMin(s, min))
  {
    AtEnds(s);
    forall t | 0.0 <= t <= 1.0
      ensures s.a.y <= s.b.y ==> s.a.y <= At(s, t).y <= s.b.y
      ensures s.b.y <= s.a.y ==> s.b.y <= At(s, t).y <= s.a.y
    {
      HeightBetween(s, t);
    }
    if s.a.y <= s.b.y && s.a.y < min {
      if min <= s.b.y {
        var u := CrossAt(s, min);
        forall t | 0.0 <= t <= 1.0 ensures At(s, t).y >= min <==> u <= t { HeightOrder(s, u, t); }
        assert IsCutAt(s, AtLeast(min), ClipMin(s, min).value, u, 1.0);
      }
    } else if s.b.y <= s.a.y && s.b.y < min {
      if min <= s.a.y {
        var u := CrossAt(s, min);
        forall t | 0.0 <= t <= 1.0 ensures At(s, t).y >= min <==> t <= u { HeightOrder(s, u, t); }
        assert IsCutAt(s, AtLeast(min), ClipMin(s, min).value, 0.0, u);
      }
    } else {
      assert IsCutAt(s, AtLeast(min), s, 0.0, 1.0);
    }
  }

  lemma ClipMaxExact(s: Segment, max: real)
    ensures IsCut(s, AtMost(max), ClipMax(s, max))
  {
    AtEnds(s);
    forall t | 0.0 <= t <= 1.0
      ensures s.a.y <= s.b.y ==> s.a.y <= At(s, t).y <= s.b.y
      ensures s.b.y <= s.a.y ==> s.b.y <= At(s, t).y <= s.a.y
    {
      HeightBetween(s, t);
    }
    if s.a.y >= s.b.y && s.a.y > max {
      if s.b.y <= max {
        var u := CrossAt(s, max);
        forall t | 0.0 <= t <= 1.0 ensures At(s, t).y <= max <==> u <= t { HeightOrder(s, t, u); }
        assert IsCutAt(s, AtMost(max), ClipMax(s, max).value, u, 1.0);
      }
    } else if s.b.y >= s.a.y && s.b.y > max {
      if s.a.y <= max {
        var u := CrossAt(s, max);
        forall t | 0.0 <= t <= 1.0 ensures At(s, t).y <= max <==> t <= u { HeightOrder(s, t, u); }
        assert IsCutAt(s, AtMost(max), ClipMax(s, max).value, 0.0, u);
      }
    } else {
      assert IsCutAt(s, AtMost(max), s, 0.0, 1.0);
    }
  }

  // ---- the four clips together ----

  function And(f: Point -> bool, g: Point -> bool): Point -> bool {
    (p: Point) => f(p) && g(p)
  }

  /** A point of the part, seen as a point of the whole. */
  lemma PartPoint(s: Segment, t0: real, t1: real, t: real) returns (r: real)
    requires t0 <= t <= t1
    ensures 0.0 <= r <= 1.0 && t == Along(t0, t1, r) && At(Part(s, t0, t1), r) == At(s, t)
  {
    r := WithinPart(t0, t1, t);
    AtPart(s, t0, t1, r);
  }

  lemma NothingLeft(s: Segment, f: Point -> bool, t0: real, t1: real, g: Point -> bool)
    requires IsCutAt(s, f, Part(s, t0, t1), t0, t1)
    requires forall r :: 0.0 <= r <= 1.0 ==> !g(At(Part(s, t0, t1), r))
    ensures forall t :: 0.0 <= t <= 1.0 ==> !And(f, g)(At(s, t))
  {
    forall t | 0.0 <= t <= 1.0 ensures !And(f, g)(At(s, t)) {
      if t0 <= t <= t1 {
        var r := PartPoint(s, t0, t1, t);
      }
    }
  }

  lemma InnerPoint(s: Segment, f: Point -> bool, t0: real, t1: real, g: Point -> bool, r0: real, r1: real, t: real)
    requires IsCutAt(s, f, Part(s, t0, t1), t0, t1) && t0 <= t <= t1
    requires IsCutAt(Part(s, t0, t1), g, Part(Part(s, t0, t1), r0, r1), r0, r1)
    ensures g(At(s, t)) <==> Along(t0, t1, r0) <= t <= Along(t0, t1, r1)
  {
    var r := PartPoint(s, t0, t1, t);
    AlongOrder(t0, t1, r0, r);
    AlongOrder(t0, t1, r, r1);
    if t0 == t1 {
      AtPart(s, t0, t1, r0);
      assert At(Part(s, t0, t1), r0) == At(s, t);
    }
  }

  lemma InnerPart(s: Segment, f: Point -> bool, t0: real, t1: real, g: Point -> bool, r0: real, r1: real)
    requires IsCutAt(s, f, Part(s, t0, t1), t0, t1)
    requires IsCutAt(Part(s, t0, t1), g, Part(Part(s, t0, t1), r0, r1), r0, r1)
    ensures IsCutAt(s, And(f, g), Part(Part(s, t0, t1), r0, r1), Along(t0, t1, r0), Along(t0, t1, r1))
  {
    PartOfPart(s, t0, t1, r0, r1);
    AlongBounds(t0, t1, r0);
    AlongBounds(t0, t1, r1);
    AlongOrder(t0, t1, r0, r1);
    var u0, u1 := Along(t0, t1, r0), Along(t0, t1, r1);
    forall t | 0.0 <= t <= 1.0 ensures And(f, g)(At(s, t)) <==> u0 <= t <= u1 {
      if t0 <= t <= t1 {
        InnerPoint(s, f, t0, t1, g, r0, r1, t);
        assert f(At(s, t));
      } else {
        assert !f(At(s, t));
      }
    }
  }

  lemma CutAgain(s: Segment, f: Point -> bool, part: Segment, g: Point -> bool, r: Option<Segment>)
    requires IsCut(s, f, Some(part)) && IsCut(part, g, r)
    ensures IsCut(s, And(f, g), r)
  {
    var t0, t1 :| IsCutAt(s, f, part, t0, t1);
    match r
    case None => NothingLeft(s, f, t0, t1, g);
    case Some(inner) =>
      var r0, r1 :| IsCutAt(part, g, inner, r0, r1);
      InnerPart(s, f, t0, t1, g, r0, r1);
  }

  lemma NothingFromNothing(s: Segment, f: Point -> bool, g: Point -> bool)
    requires IsCut(s, f, None)
    ensures IsCut(s, And(f, g), None)
  {
  }

  function Swapped(f: Point -> bool): Point -> bool {
    (p: Point) => f(Swap(p))
  }

  lemma SwapAt(s: Segment, t: real)
    ensures At(SwapAxes(s), t) == Swap(At(s, t))
  {
  }

  lemma SwapCutAt(s: Segment, f: Point -> bool, part: Segment, t0: real, t1: real)
    requires IsCutAt(SwapAxes(s), f, part, t0, t1)
    ensures IsCutAt(s, Swapped(f), SwapAxes(part), t0, t1)
  {
    SwapAt(s, t0);
    SwapAt(s, t1);
    forall t | 0.0 <= t <= 1.0 ensures Swapped(f)(At(s, t)) <==> t0 <= t <= t1 {
      SwapAt(s, t);
    }
  }

  lemma SwapCut(s: Segment, f: Point -> bool, r: Option<Segment>)
    requires IsCut(SwapAxes(s), f, r)
    ensures IsCut(s, Swapped(f), SwapResult(r))
  {
    forall t ensures At(SwapAxes(s), t) == Swap(At(s, t)) {
      SwapAt(s, t);
    }
    if r.Some? {
      var t0, t1 :| IsCutAt(SwapAxes(s), f, r.value, t0, t1);
      SwapCutAt(s, f, r.value, t0, t1);
    }
  }

  lemma SameInside(s: Segment, f: Point -> bool, g: Point -> bool, r: Option<Segment>)
    requires IsCut(s, f, r) && forall p :: f(p) == g(p)
    ensures IsCut(s, g, r)
  {
    if r.Some? {
      var t0, t1 :| IsCutAt(s, f, r.value, t0, t1);
      assert IsCutAt(s, g, r.value, t0, t1);
    }
  }

  function Inside(box: Box): Point -> bool {
    (p: Point) => InBox(p, box)
  }

  lemma ClipBandExact(s: Segment, min: real, max: real)
    ensures IsCut(s, And(AtLeast(min), AtMost(max)), ClipBand(s, min, max))
  {
    ClipMinExact(s, min);
    match ClipMin(s, min)
    case None => NothingFromNothing(s, AtLeast(min), AtMost(max));
    case Some(s1) =>
      ClipMaxExact(s1, max);
      CutAgain(s, AtLeast(min), s1, AtMost(max), ClipMax(s1, max));
  }

  lemma BoxIsBands(box: Box, p: Point)
    ensures And(And(AtLeast(box.ymin), AtMost(box.ymax)), Swapped(And(AtLeast(box.xmin), AtMost(box.xmax))))(p)
         == Inside(box)(p)
  {
    assert And(AtLeast(box.ymin), AtMost(box.ymax))(p) == (box.ymin <= p.y <= box.ymax);
    assert And(AtLeast(box.xmin), AtMost(box.xmax))(Swap(p)) == (box.xmin <= p.x <= box.xmax);
  }

  /** Main result: the four clips give exactly the part of the segment inside the axis box, in its
      direction, and nothing just when the segment misses the box. */
  lemma ClipBoxExact(s: Segment, box: Box)
    ensures IsCut(s, Inside(box), ClipBox(s, box))
  {
    var f, g := And(AtLeast(box.ymin), AtMost(box.ymax)), And(AtLeast(box.xmin), AtMost(box.xmax));
    forall p ensures And(f, Swapped(g))(p) == Inside(box)(p) {
      BoxIsBands(box, p);
    }
    ClipBandExact(s, box.ymin, box.ymax);
    match ClipBand(s, box.ymin, box.ymax)
    case None =>
      NothingFromNothing(s, f, Swapped(g));
      SameInside(s, And(f, Swapped(g)), Inside(box), None);
    case Some(s2) =>
      var r := ClipBand(SwapAxes(s2), box.xmin, box.xmax);
      ClipBandExact(SwapAxes(s2), box.xmin, box.xmax);
      SwapCut(s2, g, r);
      CutAgain(s, f, s2, Swapped(g), SwapResult(r));
      SameInside(s, And(f, Swapped(g)), Inside(box), SwapResult(r));
  }

  /** In terms of points: what is drawn of a segment is its intersection with the box. */
  lemma ClippedIsIntersection(s: Segment, box: Box, p: Point)
    ensures ClipBox(s, box) == None ==> !(OnSegment(s, p) && InBox(p, box))
    ensures ClipBox(s, box).Some? ==> (OnSegment(ClipBox(s, box).value, p) <==> OnSegment(s, p) && InBox(p, box))
  {
    ClipBoxExact(s, box);
    if ClipBox(s, box).Some? {
      var part := ClipBox(s, box).value;
      var t0, t1 :| IsCutAt(s, Inside(box), part, t0, t1);
      OnPart(s, t0, t1, p);
    }
  }

  // ---- the drawing loop ----

  /** The blocks that clip with ymin, or with xmin when the coordinates are passed the other way round. */
  method ClipWithMin(x10: real, y10: real, x20: real, y20: real, min: real)
    returns (visible: bool, x1: real, y1: real, x2: real, y2: real)
    ensures
      ClipMin(Segment(Point(x10, y10), Point(x20, y20)), min) ==
      if visible then Some(Segment(Point(x1, y1), Point(x2, y2))) else None
  {
    visible, x1, y1, x2, y2 := true, x10, y10, x20, y20;
    if y1 <= y2 && y1 < min {
      if y2 < min {
        visible := false;
        return;
      }
      x1 := Cross(x1, y1, x2, y2, min);
      y1 := min;
    } else if y2 <= y1 && y2 < min {
      if y1 < min {
        visible := false;
        return;
      }
      x2 := Cross(x1, y1, x2, y2, min);
      y2 := min;
    }
  }

  /** The blocks that clip with ymax or xmax. */
  method ClipWithMax(x10: real, y10: real, x20: real, y20: real, max: real)
    returns (visible: bool, x1: real, y1: real, x2: real, y2: real)
    ensures
      ClipMax(Segment(Point(x10, y10), Point(x20, y20)), max) ==
      if visible then Some(Segment(Point(x1, y1), Point(x2, y2))) else None
  {
    visible, x1, y1, x2, y2 := true, x10, y10, x20, y20;
    if y1 >= y2 && y1 > max {
      if y2 > max {
        visible := false;
        return;
      }
      x1 := Cross(x1, y1, x2, y2, max);
      y1 := max;
    } else if y2 >= y1 && y2 > max {
      if y1 > max {
        visible := false;
        return;
      }
      x2 := Cross(x1, y1, x2, y2, max);
      y2 := max;
    }
  }

  method ClipSegment(x10: real, y10: real, x20: real, y20: real, box: Box)
    returns (visible: bool, x1: real, y1: real, x2: real, y2: real)
    ensures
      ClipBox(Segment(Point(x10, y10), Point(x20, y20)), box) ==
      if visible then Some(Segment(Point(x1, y1), Point(x2, y2))) else None
  {
    x1, y1, x2, y2 := x10, y10, x20, y20;
    visible, x1, y1, x2, y2 := ClipWithMin(x1, y1, x2, y2, box.ymin);
    if !visible { return; }
    visible, x1, y1, x2, y2 := ClipWithMax(x1, y1, x2, y2, box.ymax);
    if !visible { return; }
    visible, y1, x1, y2, x2 := ClipWithMin(y1, x1, y2, x2, box.xmin);
    if !visible { return; }
    visible, y1, x1, y2, x2 := ClipWithMax(y1, x1, y2, x2, box.xmax);
  }

  datatype Command = MoveTo(p: Point) | LineTo(p: Point)

  /** The canvas after some commands: the current point and the lines drawn. */
  datatype Canvas = Canvas(at: Option<Point>, drawn: seq<Segment>)

  function Draw(commands: seq<Command>): Canvas {
    if commands == [] then Canvas(None, [])
    else
      var c := Draw(commands[..|commands| - 1]);
      match commands[|commands| - 1]
      case MoveTo(p) => c.(at := Some(p))
      case LineTo(p) => Canvas(Some(p), if c.at.Some? then c.drawn + [Segment(c.at.value, p)] else c.drawn)
  }

  lemma DrawPush(commands: seq<Command>, c: Command)
    ensures Draw(commands + [c]) ==
            match c
            case MoveTo(p) => Draw(commands).(at := Some(p))
            case LineTo(p) =>
              var was := Draw(commands);
              Canvas(Some(p), if was.at.Some? then was.drawn + [Segment(was.at.value, p)] else was.drawn)
  {
    assert (commands + [c])[..|commands|] == commands;
  }

  /** From axis coordinates to the canvas. */
  datatype Transform = Transform(tx: real -> real, ty: real -> real) {
    function Image(p: Point): Point {
      Point(tx(p.x), ty(p.y))
    }
  }

  /** The canvas lines of the first k rows: the visible part of each segment between two neighbouring
      points, in order. */
  function VisibleLines(rows: seq<Row>, k: nat, box: Box, t: Transform): seq<Segment>
    requires Wide(rows) && k <= |rows|
  {
    if k <= 1 then []
    else
      VisibleLines(rows, k - 1, box, t)
      + Visible(rows[k - 2][0], rows[k - 2][1], rows[k - 1][0], rows[k - 1][1], box, t)
  }

  /** Moves where the last line did not end, and draws the line: the canvas ends up with the line added. */
  method DrawLine(commands0: seq<Command>, prev: Option<Point>, a: Point, b: Point, t: Transform)
    returns (commands: seq<Command>)
    requires prev.Some? ==> Draw(commands0).at == Some(t.Image(prev.value))
    ensures Draw(commands) == Canvas(Some(t.Image(b)), Draw(commands0).drawn + [Segment(t.Image(a), t.Image(b))])
  {
    commands := commands0;
    if prev != Some(a) {
      DrawPush(commands, MoveTo(t.Image(a)));
      commands := commands + [MoveTo(t.Image(a))];
    }
    DrawPush(commands, LineTo(t.Image(b)));
    commands := commands + [LineTo(t.Image(b))];
  }

  lemma VisibleStep(rows: seq<Row>, k: nat, c1: Cell, d1: Cell, c2: Cell, d2: Cell, box: Box, t: Transform)
    requires Wide(rows) && 1 <= k < |rows|
    requires c1 == rows[k - 1][0] && d1 == rows[k - 1][1] && c2 == rows[k][0] && d2 == rows[k][1]
    ensures VisibleLines(rows, k + 1, box, t) == VisibleLines(rows, k, box, t) + Visible(c1, d1, c2, d2, box, t)
  {
  }

  /** The visible part of the segment between two rows, as a list. */
  function Visible(x1: Cell, y1: Cell, x2: Cell, y2: Cell, box: Box, t: Transform): seq<Segment> {
    if x1 == Null || x2 == Null then []
    else
      match ClipBox(Segment(Point(x1.Val(), y1.Val()), Point(x2.Val(), y2.Val())), box)
      case None => []
      case Some(s) => [Segment(t.Image(s.a), t.Image(s.b))]
  }

  /** The body of the drawing loop. */
  method PlotSegment(commands0: seq<Command>, prev0: Option<Point>, cx1: Cell, cy1: Cell, cx2: Cell, cy2: Cell,
                     box: Box, t: Transform)
    returns (commands: seq<Command>, prev: Option<Point>)
    requires prev0.Some? ==> Draw(commands0).at == Some(t.Image(prev0.value))
    ensures prev.Some? ==> Draw(commands).at == Some(t.Image(prev.value))
    ensures Draw(commands).drawn == Draw(commands0).drawn + Visible(cx1, cy1, cx2, cy2, box, t)
  {
    commands, prev := commands0, prev0;
    if cx1 == Null || cx2 == Null {
      return;
    }
    var visible, x1, y1, x2, y2 := ClipSegment(cx1.Val(), cy1.Val(), cx2.Val(), cy2.Val(), box);
    if visible {
      commands := DrawLine(commands, prev, Point(x1, y1), Point(x2, y2), t);
      prev := Some(Point(x2, y2));
    }
  }

  /** Some rounds into the drawing loop: the rows before `k` are drawn. */
  ghost predicate Drawing(rows: seq<Row>, k: nat, commands: seq<Command>, prev: Option<Point>, box: Box, t: Transform)
    requires Wide(rows)
  {
    && k >= 1 && (k <= |rows| || |rows| == 0)
    && Draw(commands).drawn == (if |rows| == 0 then [] else VisibleLines(rows, k, box, t))
    && (prev.Some? ==> Draw(commands).at == Some(t.Image(prev.value)))
  }

  /** One round of the drawing loop. */
  method PlotRound(points: seq<Cell>, ps: nat, i: nat, ghost rows: seq<Row>, ghost k: nat, box: Box, t: Transform,
                   commands0: seq<Command>, prev0: Option<Point>)
    returns (commands: seq<Command>, prev: Option<Point>)
    requires Wide(rows) && 1 <= k < |rows| && RowLaid(points, ps, rows, k, i)
    requires Drawing(rows, k, commands0, prev0, box, t)
    ensures Drawing(rows, k + 1, commands, prev, box, t)
  {
    assert points[i] == rows[k][0] && points[i + 1] == rows[k][1];
    assert points[i - ps] == rows[k - 1][0] && points[i - ps + 1] == rows[k - 1][1];
    VisibleStep(rows, k, points[i - ps], points[i - ps + 1], points[i], points[i + 1], box, t);
    commands, prev :=
      PlotSegment(commands0, prev0, points[i - ps], points[i - ps + 1], points[i], points[i + 1], box, t);
  }

  /** The drawing loop. */
  method PlotRows(points: seq<Cell>, ps: nat, ghost rows: seq<Row>, box: Box, t: Transform)
    returns (commands: seq<Command>)
    requires ps >= 2 && Wide(rows) && Laid(points, ps, rows)
    ensures Draw(commands).drawn == VisibleLines(rows, |rows|, box, t)
  {
    ghost var k: nat := 1;
    var prev: Option<Point> := None;
    commands := [];
    var i := ps;
    assert RowStart(1, ps) == RowStart(0, ps) + ps;
    LaidAt(points, ps, rows, 0);
    if |rows| >= 1 { LaidAt(points, ps, rows, 1); }
    while i < |points|
      invariant i == RowStart(k, ps) && Drawing(rows, k, commands, prev, box, t)
      invariant k <= |rows| ==> RowLaid(points, ps, rows, k, i)
      decreases |points| - i
    {
      NextLaid(points, ps, rows, k, i);
      commands, prev := PlotRound(points, ps, i, rows, k, box, t, commands, prev);
      i, k := i + ps, k + 1;
    }
  }

  /** `plotLine`: what ends up on the canvas is exactly the visible part of every segment, in order. */
  method PlotLine(points: seq<Cell>, ps: nat, box: Box, t: Transform) returns (commands: seq<Command>)
    requires ps >= 2 && Whole(points, ps) && Wide(Rows(points, ps))
    ensures Draw(commands).drawn == VisibleLines(Rows(points, ps), |Rows(points, ps)|, box, t)
  {
    RowsAreLaid(points, ps);
    commands := PlotRows(points, ps, Rows(points, ps), box, t);
  }
}
