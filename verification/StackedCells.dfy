/** The further cells of the rows put out. */
module StackedCells {
  import opened Polyline
  import opened Merge

  /** The emission is the row `p` or a gap as it is, or has everything behind x and height from `p`. */
  predicate TakenFrom(e: Emission, p: Row) {
    && |e.base| == |p| >= 2
    && if e.lifted then e.base[2..] == p[2..] && !IsGap(e.base) else e.base == p || e.base == NullRow(|p|)
  }

  predicate FromRows(e: Emission, P: seq<Row>) {
    exists r :: 0 <= r < |P| && TakenFrom(e, P[r])
  }

  lemma StepFromRow(P: seq<Row>, Q: seq<Row>, i: nat, j: nat, fromGap: bool, lines: bool)
    requires Wide(P) && Wide(Q) && i < |P| && j <= |Q|
    ensures forall e :: e in Step(P, Q, i, j, fromGap, lines).out ==> TakenFrom(e, P[i])
  {
  }

  lemma {:induction false} EmissionsFromRows(P: seq<Row>, Q: seq<Row>, i: nat, j: nat, fromGap: bool, lines: bool)
    requires Wide(P) && Wide(Q) && i <= |P| && j <= |Q|
    ensures forall e :: e in Emissions(P, Q, i, j, fromGap, lines) ==> FromRows(e, P)
    decreases |P| - i + |Q| - j
  {
    if i < |P| {
      var m := Step(P, Q, i, j, fromGap, lines);
      StepFromRow(P, Q, i, j, fromGap, lines);
      EmissionsFromRows(P, Q, m.i, m.j, m.fromGap, lines);
    }
  }

  /** The stacked row `s` and the filled row `f` that come from the row `p` of the series: the row itself or a gap, or
      a point whose height and bottom both stand on the bottom that fill-between records. */
  predicate RaisedFrom(p: Row, s: Row, f: Row) {
    && |s| == |f| == |p| > 2
    && s[0] == f[0] && s[3..] == f[3..]
    && ((s == f && (f == p || f == NullRow(|p|))) || Raised(p, s, f))
  }

  predicate Raised(p: Row, s: Row, f: Row)
    requires |s| == |f| == |p| > 2
  {
    && s[1] == Num(f[1].Val() + f[2].Val())
    && s[2] == Num(p[2].Val() + f[2].Val())
    && s[3..] == p[3..]
  }

  lemma RowRaised(e: Emission, p: Row)
    requires TakenFrom(e, p) && |p| > 2
    ensures RaisedFrom(p, Lift(e, true), Fill(e, true))
  {
    var s, f := Lift(e, true), Fill(e, true);
    assert s[3..] == e.base[3..] && f[3..] == e.base[3..];
    if e.lifted {
      assert e.base[2] == e.base[2..][0] == p[2];
      assert e.base[3..] == e.base[2..][1..] == p[3..];
    }
  }

  /** Row by row, whatever the bottoms of the series are: a stacked point is the filled one with height and bottom
      raised by the bottom recorded there, on the bottom of the row of the series it comes from. */
  lemma StackedOnBottoms(P: seq<Row>, Q: seq<Row>, lines: bool, ps: nat)
    requires ps > 2 && Shaped(P, ps) && Wide(Q)
    ensures
      var S, F := StackRows(P, Q, lines, true, ps), FillRows(P, Q, lines, true, ps);
      |S| == |F| && forall k :: 0 <= k < |S| ==> exists r :: 0 <= r < |P| && RaisedFrom(P[r], S[k], F[k])
  {
    var S, F := StackRows(P, Q, lines, true, ps), FillRows(P, Q, lines, true, ps);
    var es := Merged(P, Q, lines);
    EmissionsFromRows(P, Q, 0, 0, true, lines);
    forall k | 0 <= k < |S| ensures exists r :: 0 <= r < |P| && RaisedFrom(P[r], S[k], F[k]) {
      assert es[k] in es;
      var r :| 0 <= r < |P| && TakenFrom(es[k], P[r]);
      RowRaised(es[k], P[r]);
      assert S[k] == Lift(es[k], true) && F[k] == Fill(es[k], true);
    }
  }
}
