/** Reading the merge off the plug-ins' flat arrays: offsets counted up row by row are rows, a round at two offsets
    is the round of the merge at their rows, and interpolating there is safe. */
module FlatMerge {
  import opened Polyline
  import opened Merge

  lemma StepShape(P: seq<Row>, Q: seq<Row>, i: nat, j: nat, fromGap: bool, lines: bool, ps: nat)
    requires ps >= 2 && Shaped(P, ps) && Wide(Q) && i < |P| && j <= |Q|
    ensures EmissionsShaped(Step(P, Q, i, j, fromGap, lines).out, ps)
  {
  }

  /** `newpoints[l + k] += d`, where the row pushed last starts at l. */
  method AddTo(cells: seq<Cell>, ghost soFar: seq<Cell>, ghost row: Row, l: nat, k: nat, d: real) returns (r: seq<Cell>)
    requires cells == soFar + row && l == |soFar| && k < |row|
    ensures r == soFar + row[k := Num(row[k].Val() + d)]
  {
    r := cells[l + k := Num(cells[l + k].Val() + d)];
  }

  /** The cells of the row at offset i, none past the end. */
  function Cells(points: seq<Cell>, ps: nat, i: int): Row {
    if 0 <= i && i + ps <= |points| then points[i..i + ps] else []
  }

  /** Offset i is the start of a row or the end of the array. */
  predicate OnRow(points: seq<Cell>, ps: nat, i: nat) {
    ps >= 2 && (i == |points| || i + ps <= |points|) && (i == 0 || i >= ps)
  }

  ghost function TurnAt(points: seq<Cell>, ps: nat, i: nat, otherpoints: seq<Cell>, otherps: nat, j: nat,
                        fromgap: bool, lines: bool): Turn
    requires OnRow(points, ps, i) && i < |points| && OnRow(otherpoints, otherps, j)
  {
    TurnOf(Cells(points, ps, i - ps), Cells(points, ps, i), Cells(otherpoints, otherps, j - otherps),
           Cells(otherpoints, otherps, j), fromgap, lines)
  }

  /** The rows an interpolation would use have different x's. */
  predicate Interpolable(points: seq<Cell>, ps: nat, i: nat, otherpoints: seq<Cell>, otherps: nat, j: nat)
    requires OnRow(points, ps, i) && i < |points| && OnRow(otherpoints, otherps, j)
  {
    j < |otherpoints| && points[i] != Null && otherpoints[j] != Null ==>
      && (points[i].Val() > otherpoints[j].Val() && i > 0 && points[i - ps] != Null ==>
            points[i - ps].Val() != points[i].Val())
      && (points[i].Val() < otherpoints[j].Val() && j > 0 && otherpoints[j - otherps] != Null ==>
            otherpoints[j - otherps].Val() != otherpoints[j].Val())
  }

  /** The height at x on the segment that ends at offset i. */
  method Interpolate(points: seq<Cell>, ps: nat, i: nat, x: real) returns (y: real)
    requires OnRow(points, ps, i) && 0 < i < |points| && points[i - ps].Val() != points[i].Val()
    ensures
      var prev, cur := Cells(points, ps, i - ps), Cells(points, ps, i);
      y == Lerp(X(cur), Y(cur), X(prev), Y(prev), x)
  {
    var px, py := points[i].Val(), points[i + 1].Val();
    y := py + (points[i - ps + 1].Val() - py) * (x - px) / (points[i - ps].Val() - px);
    ghost var prev, cur := Cells(points, ps, i - ps), Cells(points, ps, i);
    assert prev[0] == points[i - ps] && prev[1] == points[i - ps + 1] && cur[0] == points[i] && cur[1] == points[i + 1];
  }

  /** Offset i is where row k starts, or the end of the array past the last row. */
  ghost predicate RowLaid(points: seq<Cell>, ps: nat, rows: seq<Row>, k: nat, i: nat) {
    && OnRow(points, ps, i) && i <= |points| && k <= |rows| && (i == |points| <==> k == |rows|) && (i == 0 <==> k == 0)
    && Cells(points, ps, i) == RowAt(rows, k)
    && Cells(points, ps, i - ps) == RowAt(rows, k - 1)
  }

  /** The array holds the rows, one after another. */
  ghost predicate Laid(points: seq<Cell>, ps: nat, rows: seq<Row>) {
    forall k: nat {:trigger RowLaid(points, ps, rows, k, RowStart(k, ps))} ::
      k <= |rows| ==> RowLaid(points, ps, rows, k, RowStart(k, ps))
  }

  lemma LaidAt(points: seq<Cell>, ps: nat, rows: seq<Row>, k: nat)
    requires Laid(points, ps, rows) && k <= |rows|
    ensures RowLaid(points, ps, rows, k, RowStart(k, ps))
  {
  }

  /** The row before and the next row, from row k. */
  lemma NextLaid(points: seq<Cell>, ps: nat, rows: seq<Row>, k: nat, i: nat)
    requires Laid(points, ps, rows) && k < |rows| && i == RowStart(k, ps)
    ensures i + ps == RowStart(k + 1, ps) && RowLaid(points, ps, rows, k + 1, i + ps)
  {
    LaidAt(points, ps, rows, k + 1);
  }

  lemma RowsAreLaid(points: seq<Cell>, ps: nat)
    requires ps >= 2 && Whole(points, ps)
    ensures Laid(points, ps, Rows(points, ps))
  {
    forall k: nat | k <= |Rows(points, ps)| ensures RowLaid(points, ps, Rows(points, ps), k, RowStart(k, ps)) {
      RowIsLaid(points, ps, k);
    }
  }

  lemma StartIsOnRow(points: seq<Cell>, ps: nat, k: nat, i: nat)
    requires ps >= 2 && Whole(points, ps) && k <= RowCount(|points|, ps) && i == RowStart(k, ps)
    ensures OnRow(points, ps, i) && i <= |points| && (i == |points| <==> k == RowCount(|points|, ps))
    ensures i == 0 <==> k == 0
  {
    RowFits(|points|, ps, k);
  }

  lemma RowIsLaid(points: seq<Cell>, ps: nat, k: nat)
    requires ps >= 2 && Whole(points, ps) && k <= |Rows(points, ps)|
    ensures RowLaid(points, ps, Rows(points, ps), k, RowStart(k, ps))
  {
    StartIsOnRow(points, ps, k, RowStart(k, ps));
    CellsAreRow(points, ps, k);
    if k > 0 { CellsAreRow(points, ps, k - 1); }
  }

  lemma CellsAreRow(points: seq<Cell>, ps: nat, k: nat)
    requires ps >= 2 && Whole(points, ps) && k <= |Rows(points, ps)|
    ensures Cells(points, ps, RowStart(k, ps)) == RowAt(Rows(points, ps), k)
  {
    RowFits(|points|, ps, k);
  }

  /** A round of the loop at rows pi and qj is the round of the merge, and it never divides by zero. */
  lemma RoundMatches(points: seq<Cell>, ps: nat, P: seq<Row>, pi: nat, i: nat,
                     otherpoints: seq<Cell>, otherps: nat, Q: seq<Row>, qj: nat, j: nat, fromgap: bool, lines: bool)
    requires Wide(P) && Wide(Q) && pi < |P| && RowLaid(points, ps, P, pi, i) && RowLaid(otherpoints, otherps, Q, qj, j)
    requires Behind(P, Q, pi, qj)
    ensures i < |points| && Interpolable(points, ps, i, otherpoints, otherps, j)
    ensures
      var t, m := TurnAt(points, ps, i, otherpoints, otherps, j, fromgap, lines), Step(P, Q, pi, qj, fromgap, lines);
      && t.out == m.out && t.fromGap == m.fromGap
      && (if t.up then pi + 1 else pi) == m.i && (if t.low then qj + 1 else qj) == m.j
  {
    SafeToInterpolate(points, ps, P, pi, i, otherpoints, otherps, Q, qj, j);
  }

  lemma SafeToInterpolate(points: seq<Cell>, ps: nat, P: seq<Row>, pi: nat, i: nat,
                          otherpoints: seq<Cell>, otherps: nat, Q: seq<Row>, qj: nat, j: nat)
    requires Wide(P) && Wide(Q) && pi < |P| && RowLaid(points, ps, P, pi, i) && RowLaid(otherpoints, otherps, Q, qj, j)
    requires Behind(P, Q, pi, qj)
    ensures i < |points| && Interpolable(points, ps, i, otherpoints, otherps, j)
  {
    assert P[pi][0] == points[i];
    if qj < |Q| && !IsGap(P[pi]) && !IsGap(Q[qj]) {
      assert Q[qj][0] == otherpoints[j];
      NoDivisionByZero(P, Q, pi, qj);
      if pi > 0 { assert P[pi - 1][0] == points[i - ps]; }
      if qj > 0 { assert Q[qj - 1][0] == otherpoints[j - otherps]; }
    } else if qj < |Q| {
      assert Q[qj][0] == otherpoints[j];
    }
  }

  /** The merge between two rounds: `done` is out, and the rest of the merge is still to come. */
  ghost predicate Midway(P: seq<Row>, Q: seq<Row>, lines: bool, ps: nat, pi: nat, qj: nat, fromgap: bool,
                         done: seq<Emission>)
    requires Wide(P) && Wide(Q)
  {
    && pi <= |P| && qj <= |Q| && Behind(P, Q, pi, qj)
    && EmissionsShaped(done, ps)
    && done + Emissions(P, Q, pi, qj, fromgap, lines) == Merged(P, Q, lines)
  }

  lemma Onwards(P: seq<Row>, Q: seq<Row>, lines: bool, ps: nat, pi: nat, qj: nat, fromgap: bool, done: seq<Emission>)
    requires ps >= 2 && Shaped(P, ps) && Wide(Q) && Sorted(P) && Sorted(Q)
    requires Midway(P, Q, lines, ps, pi, qj, fromgap, done) && pi < |P|
    ensures
      var m := Step(P, Q, pi, qj, fromgap, lines);
      EmissionsShaped(m.out, ps) && Midway(P, Q, lines, ps, m.i, m.j, m.fromGap, done + m.out)
  {
    var m := Step(P, Q, pi, qj, fromgap, lines);
    StepKeepsBehind(P, Q, pi, qj, fromgap, lines);
    StepShape(P, Q, pi, qj, fromgap, lines, ps);
    var rest := Emissions(P, Q, m.i, m.j, m.fromGap, lines);
    assert done + (m.out + rest) == (done + m.out) + rest;
  }

  /** The loop between two rounds: the cursors are on rows, and the merge is midway there. */
  ghost predicate AtRound(points: seq<Cell>, ps: nat, P: seq<Row>, otherpoints: seq<Cell>, otherps: nat, Q: seq<Row>,
                          lines: bool, pi: nat, qj: nat, i: nat, j: nat, fromgap: bool, done: seq<Emission>)
    requires Wide(P) && Wide(Q)
  {
    && i == RowStart(pi, ps) && RowLaid(points, ps, P, pi, i)
    && j == RowStart(qj, otherps) && RowLaid(otherpoints, otherps, Q, qj, j)
    && Midway(P, Q, lines, ps, pi, qj, fromgap, done)
  }

  lemma FirstRound(points: seq<Cell>, ps: nat, P: seq<Row>, otherpoints: seq<Cell>, otherps: nat, Q: seq<Row>,
                   lines: bool)
    requires Wide(P) && Wide(Q) && Laid(points, ps, P) && Laid(otherpoints, otherps, Q)
    ensures AtRound(points, ps, P, otherpoints, otherps, Q, lines, 0, 0, 0, 0, true, [])
  {
    LaidAt(points, ps, P, 0);
    LaidAt(otherpoints, otherps, Q, 0);
    assert [] + Merged(P, Q, lines) == Merged(P, Q, lines);
  }

  lemma LastRound(points: seq<Cell>, ps: nat, P: seq<Row>, otherpoints: seq<Cell>, otherps: nat, Q: seq<Row>,
                  lines: bool, pi: nat, qj: nat, j: nat, fromgap: bool, done: seq<Emission>)
    requires Wide(P) && Wide(Q)
    requires AtRound(points, ps, P, otherpoints, otherps, Q, lines, pi, qj, |points|, j, fromgap, done)
    ensures done == Merged(P, Q, lines)
  {
    assert done + [] == done;
  }

  /** What the next round is to do, and where it leaves the loop. */
  lemma NextRound(points: seq<Cell>, ps: nat, P: seq<Row>, otherpoints: seq<Cell>, otherps: nat, Q: seq<Row>,
                  lines: bool, pi: nat, qj: nat, i: nat, j: nat, fromgap: bool, done: seq<Emission>)
    requires ps >= 2 && Shaped(P, ps) && Wide(Q) && Sorted(P) && Sorted(Q)
    requires Laid(points, ps, P) && Laid(otherpoints, otherps, Q)
    requires AtRound(points, ps, P, otherpoints, otherps, Q, lines, pi, qj, i, j, fromgap, done) && i < |points|
    ensures OnRow(points, ps, i) && OnRow(otherpoints, otherps, j) && pi < |P| && qj <= |Q|
    ensures Interpolable(points, ps, i, otherpoints, otherps, j)
    ensures
      var t, m := TurnAt(points, ps, i, otherpoints, otherps, j, fromgap, lines), Step(P, Q, pi, qj, fromgap, lines);
      && t.out == m.out && t.fromGap == m.fromGap && EmissionsShaped(m.out, ps)
      && AtRound(points, ps, P, otherpoints, otherps, Q, lines, m.i, m.j, if t.up then i + ps else i,
                 if t.low then j + otherps else j, m.fromGap, done + m.out)
  {
    RoundMatches(points, ps, P, pi, i, otherpoints, otherps, Q, qj, j, fromgap, lines);
    Onwards(P, Q, lines, ps, pi, qj, fromgap, done);
    NextLaid(points, ps, P, pi, i);
    if qj < |Q| { NextLaid(otherpoints, otherps, Q, qj, j); }
  }
}
