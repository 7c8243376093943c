/** What fill-between comes to for two lines: the upper line over the lower one. */
module FillCurves {
  import opened Polyline
  import opened Merge

  /** The line that the bottoms of the rows form. */
  function Bottoms(rows: seq<Row>): (r: seq<Row>)
    requires forall k :: 0 <= k < |rows| ==> |rows[k]| > 2
    ensures |r| == |rows| && Wide(r)
  {
    seq(|rows|, k requires 0 <= k < |rows| => [rows[k][0], rows[k][2]])
  }

  lemma FilledRow(e: Emission)
    requires |e.base| > 2 && e.lifted
    ensures
      var r := Fill(e, true);
      X(r) == X(e.base) && Y(r) == Y(e.base) && IsGap(r) == IsGap(e.base) && r[0] == e.base[0] && r[2] == Num(e.bottom)
  {
  }

  lemma HasXOfFilled(es: seq<Emission>, ps: nat, x: real)
    requires ps > 2 && EmissionsShaped(es, ps) && forall e :: e in es ==> e.lifted
    ensures HasX(FillAll(es, true, ps), 0, x) <==> EmissionAt(es, x)
  {
    var R := FillAll(es, true, ps);
    if HasX(R, 0, x) {
      var k :| 0 <= k < |R| && X(R[k]) == x;
      assert es[k] in es && X(es[k].base) == x;
    }
    if EmissionAt(es, x) {
      var k :| 0 <= k < |es| && |es[k].base| >= 2 && X(es[k].base) == x;
      assert X(R[k]) == x;
    }
  }

  /** Every row is on the upper line, its bottom on the lower one. */
  ghost predicate OnBoth(P: seq<Row>, Q: seq<Row>, R: seq<Row>)
    requires Line(P) && Line(Q)
  {
    forall k :: 0 <= k < |R| ==> RowOnBoth(P, Q, R[k])
  }

  ghost predicate RowOnBoth(P: seq<Row>, Q: seq<Row>, r: Row)
    requires Line(P) && Line(Q)
  {
    |r| > 2 && !IsGap(r) && Both(P, Q, X(r)) && Y(r) == Eval(P, X(r)) && r[2] == Num(Eval(Q, X(r)))
  }

  lemma FilledLine(es: seq<Emission>, P: seq<Row>, Q: seq<Row>, ps: nat, lo: real)
    requires ps > 2 && EmissionsShaped(es, ps) && Line(P) && Line(Q)
    requires StrictFrom(es, lo) && forall e :: e in es ==> OnCurves(e, P, Q)
    ensures var R := FillAll(es, true, ps); Line(R) && OnBoth(P, Q, R)
  {
    var R := FillAll(es, true, ps);
    StrictFromAll(es, lo);
    forall k | 0 <= k < |R| ensures X(R[k]) == X(es[k].base) && RowOnBoth(P, Q, R[k]) {
      assert es[k] in es && OnCurves(es[k], P, Q);
      FilledRow(es[k]);
    }
  }

  /** The rows of the filled line, their places and their order. */
  lemma FilledRowsArePairs(P: seq<Row>, Q: seq<Row>, ps: nat)
    requires ps > 2 && Shaped(P, ps) && Line(P) && Line(Q)
    ensures
      var R := FillRows(P, Q, true, true, ps);
      Line(R) && OnBoth(P, Q, R) && RowsOfOverlap(P, Q, R)
  {
    var es := Merged(P, Q, true);
    assert es == Emissions(P, Q, 0, 0, 0 == 0, true);
    EmissionsHaveShape(P, Q, 0, 0, true, true, ps);
    EmissionsOnCurves(P, Q, 0, 0);
    var lo := (if Lowest(P) < Lowest(Q) then Lowest(P) else Lowest(Q)) - 1.0;
    EmissionsStrict(P, Q, 0, 0, lo);
    FilledLine(es, P, Q, ps, lo);
    forall x ensures HasX(FillAll(es, true, ps), 0, x) <==> (HasX(P, 0, x) || HasX(Q, 0, x)) && Both(P, Q, x) {
      EmissionsExactly(P, Q, 0, 0, x);
      assert forall e :: e in es ==> OnCurves(e, P, Q);
      HasXOfFilled(es, ps, x);
    }
  }

  /** A line that meets another at all its rows, and that the other does not bend between, is that line. */
  lemma CurveThroughout(C: seq<Row>, R: seq<Row>, x: real)
    requires Line(C) && Line(R) && Covers(R, x) && Covers(C, x)
    requires forall k :: 0 <= k < |R| ==> Covers(C, X(R[k])) && Y(R[k]) == Eval(C, X(R[k]))
    requires forall k :: 0 <= k < |R| - 1 ==> NoRowBetween(C, X(R[k]), X(R[k + 1]))
    ensures Eval(R, x) == Eval(C, x)
  {
    if |R| > 1 {
      var k := FindAround(R, x);
      EvalOnSegment(R, k, x);
      EvalStraight(C, X(R[k]), X(R[k + 1]), x);
    }
  }

  /** Main result: over the overlap the filled line is the upper line, and its bottoms are the lower one. */
  lemma FillIsPair(P: seq<Row>, Q: seq<Row>, ps: nat, x: real)
    requires ps > 2 && Shaped(P, ps) && Line(P) && Line(Q)
    ensures
      var R := FillRows(P, Q, true, true, ps);
      && Line(R) && Line(Bottoms(R)) && (Covers(R, x) <==> Both(P, Q, x))
      && (Both(P, Q, x) ==> Eval(R, x) == Eval(P, x) && Eval(Bottoms(R), x) == Eval(Q, x))
  {
    var R := FillRows(P, Q, true, true, ps);
    FilledRowsArePairs(P, Q, ps);
    RangeOfOverlap(P, Q, R, x);
    BottomsLine(R);
    if Both(P, Q, x) {
      var B := Bottoms(R);
      forall k | 0 <= k < |R| ensures RowOnBoth(P, Q, R[k]) && X(B[k]) == X(R[k]) && Y(B[k]) == R[k][2].Val() {
      }
      forall k | 0 <= k < |R| - 1
        ensures NoRowBetween(P, X(R[k]), X(R[k + 1])) && NoRowBetween(Q, X(R[k]), X(R[k + 1]))
      {
        NothingBetween(P, Q, R, k);
      }
      CurveThroughout(P, R, x);
      CurveThroughout(Q, B, x);
    }
  }

  lemma BottomsLine(R: seq<Row>)
    requires Line(R) && forall k :: 0 <= k < |R| ==> |R[k]| > 2
    ensures Line(Bottoms(R)) && forall k :: 0 <= k < |R| ==> X(Bottoms(R)[k]) == X(R[k])
    ensures forall x :: Covers(Bottoms(R), x) <==> Covers(R, x)
  {
  }
}
