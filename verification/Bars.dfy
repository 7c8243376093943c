/** Stacking without lines: every point of the series stands on the point below it. */
module Bars {
  import opened Polyline
  import opened Merge
  import opened GappedLines

  /** The first point of the series at x or right of it. */
  function FirstAt(rows: seq<Row>, x: real): (f: nat)
    requires Wide(rows)
    ensures f <= |rows| && (f < |rows| ==> Solid(rows, f) && X(rows[f]) >= x)
    ensures forall k :: k < f && Solid(rows, k) ==> X(rows[k]) < x
  {
    if rows == [] then 0
    else
      var n := |rows| - 1;
      var init := rows[..n];
      assert forall k :: 0 <= k < n ==> init[k] == rows[k];
      assert forall k :: k < n && Solid(rows, k) ==> Solid(init, k);
      var f := FirstAt(init, x);
      if f < n then f else if !IsGap(rows[n]) && X(rows[n]) >= x then n else n + 1
  }

  /** The height the series below has at x. */
  function HeightAt(rows: seq<Row>, x: real): real
    requires Wide(rows)
  {
    var f := FirstAt(rows, x);
    if f < |rows| && X(rows[f]) == x then Y(rows[f]) else 0.0
  }

  /** In a sorted series that is the height of its first point at x, and 0 if it has none there. */
  lemma HeightOfFirst(rows: seq<Row>, x: real, k: nat)
    requires Wide(rows) && Sorted(rows) && AtX(rows, k, x) && forall b :: b < k ==> !AtX(rows, b, x)
    ensures HeightAt(rows, x) == Y(rows[k])
  {
    var f := FirstAt(rows, x);
    assert Solid(rows, k) && f <= k;
    assert X(rows[f]) == x && AtX(rows, f, x);
  }

  lemma HeightOfNone(rows: seq<Row>, x: real)
    requires Wide(rows) && forall k :: !AtX(rows, k, x)
    ensures HeightAt(rows, x) == 0.0
  {
    var f := FirstAt(rows, x);
    if f < |rows| { assert !AtX(rows, f, x); }
  }

  predicate AtX(rows: seq<Row>, k: int, x: real)
    requires Wide(rows)
  {
    Solid(rows, k) && X(rows[k]) == x
  }

  /** The gap rows for the gaps of the series below from row a up to row b. */
  function GapRows(rows: seq<Row>, a: nat, b: nat, ps: nat): seq<Emission>
    requires Wide(rows) && b <= |rows|
    decreases b - a
  {
    if a >= b then []
    else (if IsGap(rows[a]) then [Emission(NullRow(ps), 0.0, false)] else []) + GapRows(rows, a + 1, b, ps)
  }

  /** A point on what the series below has at its x; unless that series is at its end, it counts as raised. */
  function Raised(p: Row, Q: seq<Row>): Emission
    requires |p| >= 2 && Wide(Q)
  {
    Emission(p, HeightAt(Q, X(p)), FirstAt(Q, X(p)) < |Q|)
  }

  /** The rows of P from row i on, each point raised and behind the gaps that Q has left of it; the first j rows of Q
      are dealt with. */
  function BarRows(P: seq<Row>, Q: seq<Row>, i: nat, j: nat): seq<Emission>
    requires Wide(P) && Wide(Q) && i <= |P|
    decreases |P| - i
  {
    if i == |P| then []
    else if IsGap(P[i]) then [Emission(P[i], 0.0, false)] + BarRows(P, Q, i + 1, j)
    else
      var f := FirstAt(Q, X(P[i]));
      GapRows(Q, j, f, |P[i]|) + [Raised(P[i], Q)] + BarRows(P, Q, i + 1, f)
  }

  /** What Q has left of the cursor lies left of what P still has. */
  ghost predicate Cleared(P: seq<Row>, Q: seq<Row>, i: nat, j: nat)
    requires Wide(P) && Wide(Q)
  {
    && i <= |P| && j <= |Q|
    && forall a, b :: i <= a && b < j && Solid(P, a) && Solid(Q, b) ==> X(Q[b]) < X(P[a])
  }

  lemma StepCleared(P: seq<Row>, Q: seq<Row>, i: nat, j: nat, fromGap: bool)
    requires Rising(P) && Wide(Q) && Sorted(Q) && Cleared(P, Q, i, j) && i < |P|
    ensures var m := Step(P, Q, i, j, fromGap, false); Cleared(P, Q, m.i, m.j)
  {
  }

  /** The first point right of everything left of the cursor. */
  lemma FirstFrom(P: seq<Row>, Q: seq<Row>, i: nat, j: nat)
    requires Wide(P) && Wide(Q) && Cleared(P, Q, i, j) && Solid(P, i)
    ensures j <= FirstAt(Q, X(P[i]))
    ensures j < |Q| && !IsGap(Q[j]) && X(P[i]) <= X(Q[j]) ==> FirstAt(Q, X(P[i])) == j
    ensures j < |Q| && (IsGap(Q[j]) || X(Q[j]) < X(P[i])) ==> j < FirstAt(Q, X(P[i]))
  {
    var f := FirstAt(Q, X(P[i]));
    assert f < |Q| ==> Solid(Q, f);
    assert j < |Q| && !IsGap(Q[j]) ==> Solid(Q, j);
  }

  lemma SameRows(P: seq<Row>, Q: seq<Row>, i: nat, j: nat, f: nat, rest: seq<Emission>)
    requires Wide(P) && Wide(Q) && Solid(P, i) && f == FirstAt(Q, X(P[i]))
    requires rest == [Raised(P[i], Q)] + BarRows(P, Q, i + 1, f)
    ensures BarRows(P, Q, i, j) == GapRows(Q, j, f, |P[i]|) + rest
  {
    var gaps, e, more := GapRows(Q, j, f, |P[i]|), Raised(P[i], Q), BarRows(P, Q, i + 1, f);
    assert gaps + [e] + more == gaps + ([e] + more);
  }

  /** A point of Q that lies left of the rest of P is passed without a trace. */
  lemma {:induction false} PassPoint(P: seq<Row>, Q: seq<Row>, i: nat, j: nat)
    requires Wide(P) && Wide(Q) && Cleared(P, Q, i, j) && j < |Q| && !IsGap(Q[j])
    requires forall a :: i <= a && Solid(P, a) ==> X(Q[j]) < X(P[a])
    ensures BarRows(P, Q, i, j) == BarRows(P, Q, i, j + 1)
    decreases |P| - i
  {
    if i < |P| {
      if IsGap(P[i]) {
        PassPoint(P, Q, i + 1, j);
      } else {
        FirstFrom(P, Q, i, j);
        var ps, f := |P[i]|, FirstAt(Q, X(P[i]));
        var rest := [Raised(P[i], Q)] + BarRows(P, Q, i + 1, f);
        assert GapRows(Q, j, f, ps) == [] + GapRows(Q, j + 1, f, ps) == GapRows(Q, j + 1, f, ps);
        SameRows(P, Q, i, j, f, rest);
        SameRows(P, Q, i, j + 1, f, rest);
      }
    }
  }

  /** A gap of Q that is passed leaves a gap row. */
  lemma PassGap(P: seq<Row>, Q: seq<Row>, i: nat, j: nat)
    requires Wide(P) && Wide(Q) && Cleared(P, Q, i, j) && j < |Q| && IsGap(Q[j]) && Solid(P, i)
    ensures BarRows(P, Q, i, j) == [Emission(NullRow(|P[i]|), 0.0, false)] + BarRows(P, Q, i, j + 1)
  {
    FirstFrom(P, Q, i, j);
    var ps, f := |P[i]|, FirstAt(Q, X(P[i]));
    var rest := [Raised(P[i], Q)] + BarRows(P, Q, i + 1, f);
    assert GapRows(Q, j, f, ps) == [Emission(NullRow(ps), 0.0, false)] + GapRows(Q, j + 1, f, ps);
    SameRows(P, Q, i, j, f, rest);
    SameRows(P, Q, i, j + 1, f, rest);
  }

  /** A point of P comes out with the first point of Q that is not left of it, or with none. */
  lemma TakePoint(P: seq<Row>, Q: seq<Row>, i: nat, j: nat)
    requires Rising(P) && Wide(Q) && Sorted(Q) && Cleared(P, Q, i, j) && Solid(P, i)
    requires j == |Q| || (!IsGap(Q[j]) && X(P[i]) <= X(Q[j]))
    ensures BarRows(P, Q, i, j) == [Raised(P[i], Q)] + BarRows(P, Q, i + 1, j)
    ensures j < |Q| && X(P[i]) == X(Q[j]) ==> BarRows(P, Q, i + 1, j) == BarRows(P, Q, i + 1, j + 1)
  {
    FirstFrom(P, Q, i, j);
    assert GapRows(Q, j, j, |P[i]|) == [];
    if j < |Q| && X(P[i]) == X(Q[j]) {
      assert Solid(Q, j);
      PassPoint(P, Q, i + 1, j);
    }
  }

  lemma {:induction false} BarsFrom(P: seq<Row>, Q: seq<Row>, i: nat, j: nat, fromGap: bool)
    requires Rising(P) && Wide(Q) && Sorted(Q) && Cleared(P, Q, i, j)
    ensures Emissions(P, Q, i, j, fromGap, false) == BarRows(P, Q, i, j)
    decreases |P| - i + |Q| - j
  {
    if i < |P| {
      var m := Step(P, Q, i, j, fromGap, false);
      StepCleared(P, Q, i, j, fromGap);
      BarsFrom(P, Q, m.i, m.j, m.fromGap);
      StepBars(P, Q, i, j, fromGap);
    }
  }

  lemma StepBars(P: seq<Row>, Q: seq<Row>, i: nat, j: nat, fromGap: bool)
    requires Rising(P) && Wide(Q) && Sorted(Q) && Cleared(P, Q, i, j) && i < |P|
    ensures var m := Step(P, Q, i, j, fromGap, false); BarRows(P, Q, i, j) == m.out + BarRows(P, Q, m.i, m.j)
  {
    var m := Step(P, Q, i, j, fromGap, false);
    if IsGap(P[i]) {
    } else if j < |Q| && IsGap(Q[j]) {
      PassGap(P, Q, i, j);
    } else if j < |Q| && X(Q[j]) < X(P[i]) {
      assert Solid(P, i);
      PassPoint(P, Q, i, j);
      assert m.out == [];
    } else {
      FirstFrom(P, Q, i, j);
      TakePoint(P, Q, i, j);
      assert m.out == [Raised(P[i], Q)];
    }
  }

  // ---- the points, without the gaps ----

  function PointsOf(es: seq<Emission>): seq<Emission> {
    if es == [] then [] else PointsOf(es[..|es| - 1]) + (if IsPoint(es[|es| - 1].base) then [es[|es| - 1]] else [])
  }

  /** The points of P from row i on, each raised. */
  function RaisedPoints(P: seq<Row>, Q: seq<Row>, i: nat): seq<Emission>
    requires Wide(P) && Wide(Q) && i <= |P|
    decreases |P| - i
  {
    if i == |P| then []
    else (if IsGap(P[i]) then [] else [Raised(P[i], Q)]) + RaisedPoints(P, Q, i + 1)
  }

  lemma {:induction false} PointsConcat(a: seq<Emission>, b: seq<Emission>)
    ensures PointsOf(a + b) == PointsOf(a) + PointsOf(b)
  {
    if b == [] {
      assert a + b == a;
    } else {
      var init, e, all := b[..|b| - 1], b[|b| - 1], a + b;
      PointsConcat(a, init);
      assert all[..|all| - 1] == a + init && all[|all| - 1] == e;
      assert PointsOf(b) == PointsOf(init) + (if IsPoint(e.base) then [e] else []);
    }
  }

  lemma PointsOfOne(e: Emission)
    ensures PointsOf([e]) == if IsPoint(e.base) then [e] else []
  {
    assert [e][..0] == [];
    assert PointsOf([e]) == PointsOf([]) + (if IsPoint(e.base) then [e] else []);
  }

  lemma {:induction false} NoPoints(rows: seq<Row>, a: nat, b: nat, ps: nat)
    requires Wide(rows) && b <= |rows|
    ensures PointsOf(GapRows(rows, a, b, ps)) == []
    decreases b - a
  {
    if a < b {
      var first := if IsGap(rows[a]) then [Emission(NullRow(ps), 0.0, false)] else [];
      NoPoints(rows, a + 1, b, ps);
      PointsConcat(first, GapRows(rows, a + 1, b, ps));
      if first != [] { PointsOfOne(first[0]); }
    }
  }

  /** So no point is lost, none is added, and each keeps its x and stands on what is below it. */
  lemma {:induction false} BarPoints(P: seq<Row>, Q: seq<Row>, i: nat, j: nat)
    requires Wide(P) && Wide(Q) && i <= |P|
    ensures PointsOf(BarRows(P, Q, i, j)) == RaisedPoints(P, Q, i)
    decreases |P| - i
  {
    if i < |P| {
      var f := if IsGap(P[i]) then j else FirstAt(Q, X(P[i]));
      var gaps := if IsGap(P[i]) then [] else GapRows(Q, j, f, |P[i]|);
      var e := if IsGap(P[i]) then Emission(P[i], 0.0, false) else Raised(P[i], Q);
      var rest := BarRows(P, Q, i + 1, f);
      BarPoints(P, Q, i + 1, f);
      PointsOfOne(e);
      PointsConcat(gaps + [e], rest);
      PointsConcat(gaps, [e]);
      if !IsGap(P[i]) { NoPoints(Q, j, f, |P[i]|); }
      assert BarRows(P, Q, i, j) == gaps + [e] + rest;
    }
  }

  /** Main result for series drawn without lines: the merge puts out P's rows in order, each point raised by what Q has
      at its x, behind a gap row for every gap of Q left of it; the points alone are P's points, each raised. */
  lemma StackedBars(P: seq<Row>, Q: seq<Row>)
    requires Rising(P) && Wide(Q) && Sorted(Q)
    ensures Merged(P, Q, false) == BarRows(P, Q, 0, 0)
    ensures PointsOf(Merged(P, Q, false)) == RaisedPoints(P, Q, 0)
  {
    BarsFrom(P, Q, 0, 0, true);
    BarPoints(P, Q, 0, 0);
  }
}
