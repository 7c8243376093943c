/** The fill-between plugin, jquery.flot.fillbetween.js. */
module FillBetween {
  import opened Polyline
  import opened Merge
  import opened FlatMerge
  import opened LineSteps
  import opened MergeLoop

  /** `newpoints[l + 2] = bottom`, where the row pushed last starts at l. */
  method SetBottom(cells: seq<Cell>, ghost soFar: seq<Cell>, ghost row: Row, l: nat, bottom: real)
    returns (r: seq<Cell>)
    requires cells == soFar + row && l == |soFar| && |row| > 2
    ensures r == soFar + row[2 := Num(bottom)]
  {
    r := cells[l + 2 := Num(bottom)];
  }

  /** The merge loop's case of two points. */
  method FillPair(soFar: seq<Cell>, points: seq<Cell>, ps: nat, i0: nat, otherpoints: seq<Cell>, otherps: nat, j0: nat,
                  withlines: bool, withbottom: bool, fromgap0: bool)
    returns (newpoints: seq<Cell>, i: nat, j: nat, fromgap: bool)
    requires OnRow(points, ps, i0) && i0 < |points| && OnRow(otherpoints, otherps, j0) && (withbottom ==> ps > 2)
    requires j0 < |otherpoints| && points[i0] != Null && otherpoints[j0] != Null
    requires Interpolable(points, ps, i0, otherpoints, otherps, j0)
    ensures
      var t := TurnAt(points, ps, i0, otherpoints, otherps, j0, fromgap0, withlines);
      Moved(t, ps, otherps, i0, j0, i, j, fromgap) && Wrote(Filling, t, soFar, newpoints, withbottom, ps)
  {
    newpoints, i, j, fromgap := soFar, i0, j0, fromgap0;
    var l := |newpoints|;
    ghost var p, q := Cells(points, ps, i), Cells(otherpoints, otherps, j);
    ghost var t := TurnAt(points, ps, i, otherpoints, otherps, j, fromgap, withlines);
    var px, py := points[i].Val(), points[i + 1].Val();
    var qx, qy := otherpoints[j].Val(), otherpoints[j + 1].Val();
    assert X(p) == px && Y(p) == py && X(q) == qx && Y(q) == qy;
    var bottom := 0.0;
    ghost var row: Row := [];
    if px == qx {
      newpoints := newpoints + points[i..i + ps];
      row := p;
      bottom := qy;
      assert t.out == [Emission(p, bottom, true)];
      i, j := i + ps, j + otherps;
    } else if px > qx {
      if withlines && i > 0 && points[i - ps] != Null {
        ghost var prev := Cells(points, ps, i - ps);
        assert prev[0] == points[i - ps];
        var intery := Interpolate(points, ps, i, qx);
        row := [Num(qx), Num(intery)] + p[2..];
        newpoints := newpoints + ([Num(qx), Num(intery)] + points[i + 2..i + ps]);
        bottom := qy;
        assert points[i + 2..i + ps] == p[2..];
        assert t.out == [Emission(Inserted(prev, p, qx), bottom, true)];
      }
      j := j + otherps;
    } else {
      if fromgap && withlines {
        i := i + ps;
        return;
      }
      newpoints := newpoints + points[i..i + ps];
      if withlines && j > 0 && otherpoints[j - otherps] != Null {
        assert Cells(otherpoints, otherps, j - otherps)[0] == otherpoints[j - otherps];
        bottom := Interpolate(otherpoints, otherps, j, px);
      }
      row := p;
      assert t.out == [Emission(p, bottom, true)];
      i := i + ps;
    }
    fromgap := false;
    assert newpoints == soFar + row;
    assert (t.out == [] <==> row == []) && (t.out != [] ==> row == t.out[0].base && t.out[0].lifted);
    if l != |newpoints| && withbottom {
      newpoints := SetBottom(newpoints, soFar, row, l, bottom);
    }
  }

  /** The body of the merge loop of `computeFillBottoms`. */
  method FillRound(soFar: seq<Cell>, points: seq<Cell>, ps: nat, i0: nat, otherpoints: seq<Cell>, otherps: nat, j0: nat,
                   withlines: bool, withbottom: bool, fromgap0: bool)
    returns (newpoints: seq<Cell>, i: nat, j: nat, fromgap: bool)
    requires OnRow(points, ps, i0) && i0 < |points| && OnRow(otherpoints, otherps, j0) && (withbottom ==> ps > 2)
    requires Interpolable(points, ps, i0, otherpoints, otherps, j0)
    ensures
      var t := TurnAt(points, ps, i0, otherpoints, otherps, j0, fromgap0, withlines);
      Moved(t, ps, otherps, i0, j0, i, j, fromgap) && Wrote(Filling, t, soFar, newpoints, withbottom, ps)
  {
    newpoints, i, j, fromgap := soFar, i0, j0, fromgap0;
    if points[i] == Null {
      newpoints := newpoints + points[i..i + ps];
      i := i + ps;
    } else if j >= |otherpoints| {
      if !withlines {
        newpoints := newpoints + points[i..i + ps];
      }
      i := i + ps;
    } else if otherpoints[j] == Null {
      newpoints := newpoints + seq(ps, _ => Null);
      fromgap := true;
      j := j + otherps;
    } else {
      newpoints, i, j, fromgap :=
        FillPair(newpoints, points, ps, i, otherpoints, otherps, j, withlines, withbottom, fromgap);
    }
  }

  /** The loop, given the rows that the arrays hold. */
  method FillLaid(points: seq<Cell>, ps: nat, ghost P: seq<Row>, otherpoints: seq<Cell>, otherps: nat,
                  ghost Q: seq<Row>, withlines: bool, withbottom: bool, withsteps: bool)
    returns (newpoints: seq<Cell>)
    requires ps >= 2 && (withbottom ==> ps > 2) && Shaped(P, ps) && Wide(Q) && Sorted(P) && Sorted(Q)
    requires Laid(points, ps, P) && Laid(otherpoints, otherps, Q)
    ensures newpoints == Flatten(Stepped(FillRows(P, Q, withlines, withbottom, ps), withsteps))
  {
    ghost var input := Input(points, ps, P, otherpoints, otherps, Q, withlines, withbottom, withsteps);
    ghost var at := START;
    newpoints := [];
    var fromgap := true;
    var i: nat, j: nat := 0, 0;
    LoopStarts(Filling, input);
    while i < |points|
      invariant Looping(Filling, input, at, newpoints) && at.i == i && at.j == j && at.fromgap == fromgap
      decreases |P| - at.pi + |Q| - at.qj
    {
      ghost var to := LoopGoes(input, at);
      ghost var soFar := newpoints;
      var l := |newpoints|;
      newpoints, i, j, fromgap :=
        FillRound(newpoints, points, ps, i, otherpoints, otherps, j, withlines, withbottom, fromgap);
      newpoints := EndRound(Filling, input, at, to, soFar, newpoints, l, ps, withsteps);
      at := to;
    }
    LoopEnds(Filling, input, at, newpoints);
  }

  /** The merge loop of `computeFillBottoms` on flat arrays. */
  method ComputeFillBottoms(points: seq<Cell>, ps: nat, otherpoints: seq<Cell>, otherps: nat,
                            withlines: bool, withbottom: bool, withsteps: bool)
    returns (newpoints: seq<Cell>)
    requires ps >= 2 && Whole(points, ps) && Shaped(Rows(points, ps), ps) && Sorted(Rows(points, ps))
    requires otherps >= 2 && Whole(otherpoints, otherps) && Shaped(Rows(otherpoints, otherps), otherps)
    requires Sorted(Rows(otherpoints, otherps)) && (withbottom ==> ps > 2)
    ensures
      newpoints ==
        Flatten(Stepped(FillRows(Rows(points, ps), Rows(otherpoints, otherps), withlines, withbottom, ps), withsteps))
  {
    ghost var P, Q := Rows(points, ps), Rows(otherpoints, otherps);
    RowsAreLaid(points, ps);
    RowsAreLaid(otherpoints, otherps);
    newpoints := FillLaid(points, ps, P, otherpoints, otherps, Q, withlines, withbottom, withsteps);
  }

  /** A series id or a `fillBetween` reference. */
  datatype Reference = Name(text: string) | Number(n: int) | Undefined

  /** `findBottomSeries`: the index of the first series with the id, else a number is an index. */
  method FindBottomSeries(fillBetween: Reference, ids: seq<Reference>) returns (found: bool, k: nat)
    ensures found ==> k < |ids|
    ensures fillBetween in ids ==> found && ids[k] == fillBetween && fillBetween !in ids[..k]
    ensures fillBetween !in ids ==> (found <==> fillBetween.Number? && 0 <= fillBetween.n < |ids|)
    ensures fillBetween !in ids && found ==> k == fillBetween.n
  {
    k := 0;
    while k < |ids|
      invariant k <= |ids| && fillBetween !in ids[..k]
    {
      if ids[k] == fillBetween {
        return true, k;
      }
      k := k + 1;
    }
    if fillBetween.Number? {
      if fillBetween.n < 0 || fillBetween.n >= |ids| {
        return false, 0;
      }
      return true, fillBetween.n;
    }
    return false, 0;
  }
}
