/** Points, segments and the parts of a segment: the point at a parameter, the part between two parameters, and
    what lies on them; shared by the clipping of lines and by the splitting at a level. */
module Geometry {

  datatype Point = Point(x: real, y: real)

  datatype Segment = Segment(a: Point, b: Point)

  /** The point of the segment at parameter t, from a at 0 to b at 1. */
  function At(s: Segment, t: real): Point {
    Point(s.a.x + t * (s.b.x - s.a.x), s.a.y + t * (s.b.y - s.a.y))
  }

  ghost predicate OnSegment(s: Segment, p: Point) {
    exists t :: 0.0 <= t <= 1.0 && At(s, t) == p
  }

  /** The parameter a share r of the way from t0 to t1. */
  function Along(t0: real, t1: real, r: real): real {
    t0 + r * (t1 - t0)
  }

  /** The part of the segment between two parameters. */
  function Part(s: Segment, t0: real, t1: real): Segment {
    Segment(At(s, t0), At(s, t1))
  }

  lemma AtEnds(s: Segment)
    ensures At(s, 0.0) == s.a && At(s, 1.0) == s.b
  {
  }

  /** A point of a part, in the parameters of the whole. */
  lemma AtPart(s: Segment, t0: real, t1: real, r: real)
    ensures At(Part(s, t0, t1), r) == At(s, Along(t0, t1, r))
  {
    var dx, dy := s.b.x - s.a.x, s.b.y - s.a.y;
    var p := Part(s, t0, t1);
    assert p.b.x - p.a.x == (t1 - t0) * dx;
    assert p.b.y - p.a.y == (t1 - t0) * dy;
    assert r * ((t1 - t0) * dx) == (r * (t1 - t0)) * dx;
    assert r * ((t1 - t0) * dy) == (r * (t1 - t0)) * dy;
  }

  lemma PartOfPart(s: Segment, t0: real, t1: real, r0: real, r1: real)
    ensures Part(Part(s, t0, t1), r0, r1) == Part(s, Along(t0, t1, r0), Along(t0, t1, r1))
  {
    AtPart(s, t0, t1, r0);
    AtPart(s, t0, t1, r1);
  }

  /** The parameter, in a part, of a point between its ends. */
  lemma WithinPart(t0: real, t1: real, t: real) returns (r: real)
    requires t0 <= t <= t1
    ensures 0.0 <= r <= 1.0 && t == Along(t0, t1, r)
  {
    if t0 == t1 {
      r := 0.0;
    } else {
      r := (t - t0) / (t1 - t0);
      assert (t - t0) / (t1 - t0) * (t1 - t0) == t - t0;
      QuotientBounds(t - t0, t1 - t0);
    }
  }

  lemma SignOfProduct(p: real, d: real)
    ensures d > 0.0 ==> (p * d >= 0.0 <==> p >= 0.0)
    ensures d < 0.0 ==> (p * d >= 0.0 <==> p <= 0.0)
  {
    if p > 0.0 && d > 0.0 { assert p * d > 0.0; }
    if p < 0.0 && d > 0.0 { assert p * d < 0.0; }
    if p > 0.0 && d < 0.0 { assert p * d < 0.0; }
    if p < 0.0 && d < 0.0 { assert p * d > 0.0; }
  }

  lemma QuotientBounds(n: real, d: real)
    requires 0.0 <= n <= d && d > 0.0
    ensures 0.0 <= n / d <= 1.0
  {
    var q := n / d;
    assert q * d == n;
    SignOfProduct(q, d);
    assert (1.0 - q) * d == d - n;
    SignOfProduct(1.0 - q, d);
  }

  /** The points on a part are the points of the whole at its parameters. */
  lemma OnPart(s: Segment, t0: real, t1: real, p: Point)
    requires 0.0 <= t0 <= t1 <= 1.0
    ensures OnSegment(Part(s, t0, t1), p) <==> exists t :: t0 <= t <= t1 && At(s, t) == p
  {
    if OnSegment(Part(s, t0, t1), p) {
      var r :| 0.0 <= r <= 1.0 && At(Part(s, t0, t1), r) == p;
      AtPart(s, t0, t1, r);
      var t := Along(t0, t1, r);
      AlongBounds(t0, t1, r);
      assert t0 <= t <= t1 && At(s, t) == p;
    }
    if t :| t0 <= t <= t1 && At(s, t) == p {
      var r := WithinPart(t0, t1, t);
      AtPart(s, t0, t1, r);
      assert At(Part(s, t0, t1), r) == p;
    }
  }

  lemma ProductBounds(r: real, d: real)
    requires 0.0 <= r <= 1.0 && d >= 0.0
    ensures 0.0 <= r * d <= d
  {
  }

  lemma AlongBounds(t0: real, t1: real, r: real)
    requires t0 <= t1 && 0.0 <= r <= 1.0
    ensures t0 <= Along(t0, t1, r) <= t1
  {
    var d := t1 - t0;
    ProductBounds(r, d);
    assert Along(t0, t1, r) == t0 + r * d;
  }

  lemma AlongOrder(t0: real, t1: real, r0: real, r: real)
    requires t0 <= t1
    ensures r0 <= r ==> Along(t0, t1, r0) <= Along(t0, t1, r)
    ensures t0 < t1 && Along(t0, t1, r0) <= Along(t0, t1, r) ==> r0 <= r
  {
    var d := t1 - t0;
    assert Along(t0, t1, r) - Along(t0, t1, r0) == (r - r0) * d;
    if d > 0.0 { SignOfProduct(r - r0, d); }
  }

  /** Heights along a segment lie between its ends'. */
  lemma HeightBetween(s: Segment, t: real)
    requires 0.0 <= t <= 1.0
    ensures s.a.y <= s.b.y ==> s.a.y <= At(s, t).y <= s.b.y
    ensures s.b.y <= s.a.y ==> s.b.y <= At(s, t).y <= s.a.y
  {
    var d, h := s.b.y - s.a.y, At(s, t).y - s.a.y;
    assert h == t * d;
    if d >= 0.0 {
      ProductBounds(t, d);
    } else {
      ProductBounds(t, -d);
      assert t * (-d) == -h;
    }
  }

  /** A segment is cut at a parameter into two parts that together are the segment. */
  lemma TwoParts(s: Segment, t: real, p: Point)
    requires 0.0 <= t <= 1.0
    ensures OnSegment(s, p) <==> OnSegment(Segment(s.a, At(s, t)), p) || OnSegment(Segment(At(s, t), s.b), p)
  {
    AtEnds(s);
    OnPart(s, 0.0, t, p);
    OnPart(s, t, 1.0, p);
    assert Part(s, 0.0, t) == Segment(s.a, At(s, t)) && Part(s, t, 1.0) == Segment(At(s, t), s.b);
  }
}
