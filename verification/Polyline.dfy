/** Series data in rows of cells and in flat arrays of them, and the curve that is drawn through the rows. */
module Polyline {

  /** One array cell: a number or `null`. */
  datatype Cell = Null | Num(v: real) {
    /** The number a cell counts as in arithmetic and comparisons, where `null` converts to 0. */
    function Val(): real {
      if Null? then 0.0 else v
    }
  }

  type Row = seq<Cell>

  /** Where a row starts, counted up row by row. */
  function RowStart(k: nat, ps: nat): nat {
    if k == 0 then 0 else RowStart(k - 1, ps) + ps
  }

  /** How many rows fit in an array of n cells. */
  function RowCount(n: nat, ps: nat): nat
    requires ps > 0
  {
    if n < ps then 0 else RowCount(n - ps, ps) + 1
  }

  /** The array consists of whole rows. */
  predicate Whole(points: seq<Cell>, ps: nat) {
    ps > 0 && |points| == RowStart(RowCount(|points|, ps), ps)
  }

  lemma {:induction false} StartsApart(a: nat, b: nat, ps: nat)
    requires a < b
    ensures RowStart(a, ps) + ps <= RowStart(b, ps)
  {
    if a < b - 1 { StartsApart(a, b - 1, ps); }
  }

  lemma {:induction false} StartShift(k: nat, ps: nat)
    ensures RowStart(k + 1, ps) == ps + RowStart(k, ps)
  {
    if k > 0 { StartShift(k - 1, ps); }
  }

  /** The last row that starts at or before cell n. */
  lemma {:induction false} RowAround(n: nat, ps: nat)
    requires ps > 0
    ensures RowStart(RowCount(n, ps), ps) <= n < RowStart(RowCount(n, ps), ps) + ps
  {
    if n >= ps {
      RowAround(n - ps, ps);
      StartShift(RowCount(n - ps, ps), ps);
    }
  }

  lemma {:induction false} CountOfStart(k: nat, ps: nat)
    requires ps > 0
    ensures RowCount(RowStart(k, ps), ps) == k
  {
    if k > 0 { CountOfStart(k - 1, ps); }
  }

  /** Rows before the last one fit; in an array of whole rows only they start before its end. */
  lemma RowFits(n: nat, ps: nat, k: nat)
    requires ps > 0
    ensures k < RowCount(n, ps) ==> RowStart(k, ps) + ps <= n
    ensures k > 0 ==> RowStart(k, ps) >= ps
    ensures
      n == RowStart(RowCount(n, ps), ps) ==>
        (k < RowCount(n, ps) <==> RowStart(k, ps) < n) && (k == RowCount(n, ps) <==> RowStart(k, ps) == n)
  {
    var count := RowCount(n, ps);
    RowAround(n, ps);
    if k < count { StartsApart(k, count, ps); }
    if count < k { StartsApart(count, k, ps); }
    if k > 0 { StartsApart(0, k, ps); }
  }

  /** The rows of an array. */
  function Rows(points: seq<Cell>, ps: nat): (r: seq<Row>)
    requires ps > 0
    ensures |r| == RowCount(|points|, ps)
  {
    seq(RowCount(|points|, ps), k requires 0 <= k < RowCount(|points|, ps) =>
      RowFits(|points|, ps, k); points[RowStart(k, ps)..RowStart(k, ps) + ps])
  }

  lemma RowsShaped(points: seq<Cell>, ps: nat)
    requires ps > 0
    ensures Shaped(Rows(points, ps), ps)
  {
    forall k | 0 <= k < |Rows(points, ps)| ensures |Rows(points, ps)[k]| == ps {
      RowFits(|points|, ps, k);
    }
  }

  function Flatten(rows: seq<Row>): seq<Cell> {
    if rows == [] then [] else Flatten(rows[..|rows| - 1]) + rows[|rows| - 1]
  }

  /** Every row has `ps` cells. */
  predicate Shaped(rows: seq<Row>, ps: nat) {
    forall k :: 0 <= k < |rows| ==> |rows[k]| == ps
  }

  lemma FlattenPush(a: seq<Row>, r: Row)
    ensures Flatten(a + [r]) == Flatten(a) + r
  {
    assert (a + [r])[..|a|] == a;
  }

  lemma {:induction false} FlattenLength(rows: seq<Row>, ps: nat)
    requires Shaped(rows, ps)
    ensures |Flatten(rows)| == RowStart(|rows|, ps)
  {
    if rows != [] { FlattenLength(rows[..|rows| - 1], ps); }
  }

  lemma {:induction false} FlattenRow(rows: seq<Row>, ps: nat, k: nat, i: nat)
    requires Shaped(rows, ps) && k < |rows| && i == RowStart(k, ps)
    ensures i + ps <= |Flatten(rows)| && Flatten(rows)[i..i + ps] == rows[k]
  {
    var init, last := rows[..|rows| - 1], rows[|rows| - 1];
    assert Flatten(rows) == Flatten(init) + last;
    if k < |init| {
      FlattenRow(init, ps, k, i);
      PartOfFront(Flatten(init), last, i, i + ps);
    } else {
      FlattenLength(init, ps);
      PartAtEnd(Flatten(init), last, i);
    }
  }

  lemma PartOfFront(a: seq<Cell>, b: seq<Cell>, lo: int, hi: int)
    requires 0 <= lo <= hi <= |a|
    ensures (a + b)[lo..hi] == a[lo..hi]
  {
  }

  lemma PartAtEnd(a: seq<Cell>, b: seq<Cell>, lo: int)
    requires lo == |a|
    ensures (a + b)[lo..lo + |b|] == b
  {
  }

  /** Writing rows out and reading them back gives the rows. */
  lemma RowsOfFlatten(rows: seq<Row>, ps: nat)
    requires 0 < ps && Shaped(rows, ps)
    ensures Whole(Flatten(rows), ps) && Rows(Flatten(rows), ps) == rows
  {
    FlattenLength(rows, ps);
    CountOfStart(|rows|, ps);
    forall k | 0 <= k < |rows| ensures Rows(Flatten(rows), ps)[k] == rows[k] {
      FlattenRow(rows, ps, k, RowStart(k, ps));
    }
  }

  lemma SameCell(a: seq<Cell>, b: seq<Cell>, lo: nat, hi: nat, c: nat)
    requires lo <= c < hi <= |a| && hi <= |b| && a[lo..hi] == b[lo..hi]
    ensures a[c] == b[c]
  {
    assert a[lo..hi][c - lo] == b[lo..hi][c - lo];
  }

  lemma CellOfFlatten(points: seq<Cell>, ps: nat, c: nat)
    requires Whole(points, ps) && c < |points|
    ensures c < |Flatten(Rows(points, ps))| && Flatten(Rows(points, ps))[c] == points[c]
  {
    var rows, k := Rows(points, ps), RowCount(c, ps);
    var i := RowStart(k, ps);
    RowAround(c, ps);
    RowFits(|points|, ps, k);
    RowsShaped(points, ps);
    FlattenRow(rows, ps, k, i);
    assert rows[k] == points[i..i + ps];
    SameCell(Flatten(rows), points, i, i + ps, c);
  }

  /** Reading an array as rows and writing them out gives the array. */
  lemma FlattenOfRows(points: seq<Cell>, ps: nat)
    requires Whole(points, ps)
    ensures Flatten(Rows(points, ps)) == points
  {
    var rows := Rows(points, ps);
    RowsShaped(points, ps);
    FlattenLength(rows, ps);
    forall c | 0 <= c < |points| ensures Flatten(rows)[c] == points[c] {
      CellOfFlatten(points, ps, c);
    }
  }

  // ---- curves ----

  function X(r: Row): real
    requires |r| >= 2
  {
    r[0].Val()
  }

  function Y(r: Row): real
    requires |r| >= 2
  {
    r[1].Val()
  }

  predicate IsGap(r: Row)
    requires |r| >= 2
  {
    r[0].Null?
  }

  predicate Wide(rows: seq<Row>) {
    forall k :: 0 <= k < |rows| ==> |rows[k]| >= 2
  }

  predicate GapFree(rows: seq<Row>)
    requires Wide(rows)
  {
    forall k :: 0 <= k < |rows| ==> !IsGap(rows[k])
  }

  /** Sorted on x, equal neighbours and gaps allowed: what the plugins assume of their input. */
  predicate Sorted(rows: seq<Row>)
    requires Wide(rows)
  {
    forall a, b :: 0 <= a < b < |rows| && !IsGap(rows[a]) && !IsGap(rows[b]) ==> X(rows[a]) <= X(rows[b])
  }

  predicate Increasing(rows: seq<Row>)
    requires Wide(rows)
  {
    forall a, b :: 0 <= a < b < |rows| ==> X(rows[a]) < X(rows[b])
  }

  /** A single-valued line without gaps. */
  predicate Line(rows: seq<Row>) {
    Wide(rows) && GapFree(rows) && Increasing(rows)
  }

  /** The height at x of the line through (x0, y0) and (x1, y1). */
  function Lerp(x0: real, y0: real, x1: real, y1: real, x: real): real {
    if x1 == x0 then y0 else y0 + (y1 - y0) * (x - x0) / (x1 - x0)
  }

  /** x lies in the range of the line. */
  predicate Covers(rows: seq<Row>, x: real)
    requires Wide(rows)
  {
    |rows| > 0 && X(rows[0]) <= x <= X(rows[|rows| - 1])
  }

  /** The height of the polyline at x. */
  function Eval(rows: seq<Row>, x: real): real
    requires Line(rows) && Covers(rows, x)
  {
    if |rows| == 1 then Y(rows[0])
    else if x <= X(rows[1]) then Lerp(X(rows[0]), Y(rows[0]), X(rows[1]), Y(rows[1]), x)
    else Eval(rows[1..], x)
  }

  lemma LerpEnds(x0: real, y0: real, x1: real, y1: real)
    requires x0 < x1
    ensures Lerp(x0, y0, x1, y1, x0) == y0
    ensures Lerp(x0, y0, x1, y1, x1) == y1
  {
    assert (y1 - y0) * (x1 - x0) / (x1 - x0) == y1 - y0;
  }

  /** A line may be drawn from either end. */
  lemma LerpSwap(x0: real, y0: real, x1: real, y1: real, x: real)
    requires x0 < x1
    ensures Lerp(x0, y0, x1, y1, x) == Lerp(x1, y1, x0, y0, x)
  {
    var m := (y1 - y0) / (x1 - x0);
    assert (y1 - y0) * (x - x0) / (x1 - x0) == m * (x - x0);
    assert (y0 - y1) * (x - x1) / (x0 - x1) == m * (x - x1);
    assert m * (x1 - x0) == y1 - y0;
    assert m * (x - x0) - m * (x - x1) == m * (x1 - x0);
  }

  /** On the k-th segment the curve is the segment. */
  lemma {:induction false} EvalOnSegment(rows: seq<Row>, k: nat, x: real)
    requires Line(rows) && k + 1 < |rows| && X(rows[k]) <= x <= X(rows[k + 1])
    ensures Covers(rows, x)
    ensures Eval(rows, x) == Lerp(X(rows[k]), Y(rows[k]), X(rows[k + 1]), Y(rows[k + 1]), x)
  {
    if k == 0 {
    } else if x <= X(rows[1]) {
      assert k == 1 && x == X(rows[1]);
      LerpEnds(X(rows[0]), Y(rows[0]), X(rows[1]), Y(rows[1]));
      LerpEnds(X(rows[1]), Y(rows[1]), X(rows[2]), Y(rows[2]));
    } else {
      EvalOnSegment(rows[1..], k - 1, x);
    }
  }

  /** The curve passes through its rows. */
  lemma EvalAtRow(rows: seq<Row>, k: nat)
    requires Line(rows) && k < |rows|
    ensures Covers(rows, X(rows[k])) && Eval(rows, X(rows[k])) == Y(rows[k])
  {
    if k + 1 < |rows| {
      EvalOnSegment(rows, k, X(rows[k]));
      LerpEnds(X(rows[k]), Y(rows[k]), X(rows[k + 1]), Y(rows[k + 1]));
    } else if k > 0 {
      EvalOnSegment(rows, k - 1, X(rows[k]));
      LerpEnds(X(rows[k - 1]), Y(rows[k - 1]), X(rows[k]), Y(rows[k]));
    }
  }

  /** No row of the line lies strictly between a and b. */
  predicate NoRowBetween(rows: seq<Row>, a: real, b: real)
    requires Wide(rows)
  {
    forall k :: 0 <= k < |rows| ==> !(a < X(rows[k]) < b)
  }

  lemma {:induction false} SegmentAround(rows: seq<Row>, a: real, b: real) returns (k: nat)
    requires Line(rows) && a < b && Covers(rows, a) && Covers(rows, b) && NoRowBetween(rows, a, b)
    ensures k + 1 < |rows| && X(rows[k]) <= a && b <= X(rows[k + 1])
  {
    if X(rows[1]) <= a {
      k := SegmentAround(rows[1..], a, b);
      k := k + 1;
    } else {
      k := 0;
    }
  }

  /** Between two rows in a row the curve is a straight line, whatever two points of it are taken. */
  lemma EvalStraight(rows: seq<Row>, a: real, b: real, x: real)
    requires Line(rows) && a < b && Covers(rows, a) && Covers(rows, b) && NoRowBetween(rows, a, b)
    requires a <= x <= b
    ensures Covers(rows, x)
    ensures Eval(rows, x) == Lerp(a, Eval(rows, a), b, Eval(rows, b), x)
  {
    var k := SegmentAround(rows, a, b);
    EvalOnSegment(rows, k, a);
    EvalOnSegment(rows, k, b);
    EvalOnSegment(rows, k, x);
    LerpRebase(X(rows[k]), Y(rows[k]), X(rows[k + 1]), Y(rows[k + 1]), a, b, x);
  }

  lemma LerpRebase(x0: real, y0: real, x1: real, y1: real, a: real, b: real, x: real)
    requires x0 < x1 && a < b
    ensures Lerp(x0, y0, x1, y1, x) == Lerp(a, Lerp(x0, y0, x1, y1, a), b, Lerp(x0, y0, x1, y1, b), x)
  {
    var m := (y1 - y0) / (x1 - x0);
    LerpSlope(x0, y0, x1, y1, m, a);
    LerpSlope(x0, y0, x1, y1, m, b);
    LerpSlope(x0, y0, x1, y1, m, x);
    var ya, yb := y0 + m * (a - x0), y0 + m * (b - x0);
    assert yb - ya == m * (b - a);
    assert m * (b - a) / (b - a) == m;
    LerpSlope(a, ya, b, yb, m, x);
    assert m * (a - x0) + m * (x - a) == m * (x - x0);
  }

  lemma LerpSlope(x0: real, y0: real, x1: real, y1: real, m: real, x: real)
    requires x0 < x1 && m == (y1 - y0) / (x1 - x0)
    ensures Lerp(x0, y0, x1, y1, x) == y0 + m * (x - x0)
  {
    var d := x1 - x0;
    assert (y1 - y0) * (x - x0) / d == ((y1 - y0) / d) * (x - x0);
  }

  /** v is the height at x on the chord from (a, p) to (b, r). */
  predicate OnChord(a: real, p: real, b: real, r: real, x: real, v: real) {
    (v - p) * (b - a) == (r - p) * (x - a)
  }

  lemma ChordIsLerp(a: real, p: real, b: real, r: real, x: real, v: real)
    requires a < b
    ensures OnChord(a, p, b, r, x, v) <==> v == Lerp(a, p, b, r, x)
  {
    var w := Lerp(a, p, b, r, x) - p;
    assert w == (r - p) * (x - a) / (b - a);
    assert w * (b - a) == (r - p) * (x - a);
    if OnChord(a, p, b, r, x, v) { SameFactor(v - p, w, b - a); }
  }

  lemma SameFactor(u: real, w: real, d: real)
    requires d != 0.0 && u * d == w * d
    ensures u == w
  {
    assert (u - w) * d == 0.0;
  }

  /** Chords add up. */
  lemma ChordSum(a: real, p: real, q: real, pq: real, b: real, r: real, s: real, rs: real,
                 x: real, u: real, v: real, uv: real)
    requires OnChord(a, p, b, r, x, u) && OnChord(a, q, b, s, x, v)
    requires pq == p + q && rs == r + s && uv == u + v
    ensures OnChord(a, pq, b, rs, x, uv)
  {
    assert (u + v - (p + q)) * (b - a) == (u - p) * (b - a) + (v - q) * (b - a);
    assert (r + s - (p + q)) * (x - a) == (r - p) * (x - a) + (s - q) * (x - a);
  }

  /** Between two rows in a row the curve is a chord of itself. */
  lemma CurveIsChord(rows: seq<Row>, a: real, b: real, x: real)
    requires Line(rows) && a < b && Covers(rows, a) && Covers(rows, b) && NoRowBetween(rows, a, b)
    requires a <= x <= b
    ensures Covers(rows, x) && OnChord(a, Eval(rows, a), b, Eval(rows, b), x, Eval(rows, x))
  {
    EvalStraight(rows, a, b, x);
    ChordIsLerp(a, Eval(rows, a), b, Eval(rows, b), x, Eval(rows, x));
  }

  /** A height on the chord of a segment is the curve's. */
  lemma ChordIsCurve(rows: seq<Row>, k: nat, x: real, v: real)
    requires Line(rows) && k + 1 < |rows| && X(rows[k]) <= x <= X(rows[k + 1])
    requires OnChord(X(rows[k]), Y(rows[k]), X(rows[k + 1]), Y(rows[k + 1]), x, v)
    ensures Covers(rows, x) && Eval(rows, x) == v
  {
    EvalOnSegment(rows, k, x);
    ChordIsLerp(X(rows[k]), Y(rows[k]), X(rows[k + 1]), Y(rows[k + 1]), x, v);
  }
}
