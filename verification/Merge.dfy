/** The merge of stacking and fill-between, on rows. */
module Merge {
  import opened Polyline

  /** One output row. `base` is the row before the series below is added; `lifted` tells whether the
      row stands on a point of the series below, at height `bottom`, or is passed through. */
  datatype Emission = Emission(base: Row, bottom: real, lifted: bool)

  function NullRow(ps: nat): (r: Row)
    ensures |r| == ps
  {
    seq(ps, _ => Null)
  }

  /** The point of the line above inserted where the series below has a row. */
  function Inserted(prev: Row, cur: Row, qx: real): (r: Row)
    requires |prev| >= 2 && |cur| >= 2
    ensures |r| == |cur|
  {
    [Num(qx), Num(Lerp(X(cur), Y(cur), X(prev), Y(prev), qx))] + cur[2..]
  }

  /** The row under a cursor, or no cells at all past the end or before the start. */
  function RowAt(rows: seq<Row>, k: int): Row {
    if 0 <= k < |rows| then rows[k] else []
  }

  /** `r` is there and is a point. */
  predicate IsPoint(r: Row) {
    |r| >= 2 && !IsGap(r)
  }

  /** One round of the merge: what comes out, which cursors move, and whether a gap is behind. */
  datatype Turn = Turn(out: seq<Emission>, up: bool, low: bool, fromGap: bool)

  /** The round with the upper cursor on `p` and the lower one on `q` (no cells when it is past the
      end), where `prevp` and `prevq` are the rows the cursors left last. */
  function TurnOf(prevp: Row, p: Row, prevq: Row, q: Row, fromGap: bool, lines: bool): (t: Turn)
    requires |p| >= 2 && |q| != 1
    ensures |t.out| <= 1 && (t.up || t.low) && (t.low ==> q != [])
  {
    if IsGap(p) then Turn([Emission(p, 0.0, false)], true, false, fromGap)
    else if q == [] then Turn(if lines then [] else [Emission(p, 0.0, false)], true, false, fromGap)
    else if IsGap(q) then Turn([Emission(NullRow(|p|), 0.0, false)], false, true, true)
    else if X(p) == X(q) then Turn([Emission(p, Y(q), true)], true, true, false)
    else if X(p) > X(q) then
      Turn(if lines && IsPoint(prevp) then [Emission(Inserted(prevp, p, X(q)), Y(q), true)] else [], false, true, false)
    else if fromGap && lines then Turn([], true, false, fromGap)
    else
      Turn([Emission(p, if lines && IsPoint(prevq) then Lerp(X(q), Y(q), X(prevq), Y(prevq), X(p)) else 0.0, true)],
           true, false, false)
  }

  /** The round as a move of the cursors. */
  datatype Move = Move(out: seq<Emission>, i: nat, j: nat, fromGap: bool)

  function Step(P: seq<Row>, Q: seq<Row>, i: nat, j: nat, fromGap: bool, lines: bool): (m: Move)
    requires Wide(P) && Wide(Q) && i < |P| && j <= |Q|
    ensures i <= m.i <= i + 1 && j <= m.j <= j + 1 && m.j <= |Q| && i + j < m.i + m.j && |m.out| <= 1
  {
    var t := TurnOf(RowAt(P, i - 1), P[i], RowAt(Q, j - 1), RowAt(Q, j), fromGap, lines);
    Move(t.out, if t.up then i + 1 else i, if t.low then j + 1 else j, t.fromGap)
  }

  /** The rows still to come out. */
  function Emissions(P: seq<Row>, Q: seq<Row>, i: nat, j: nat, fromGap: bool, lines: bool): seq<Emission>
    requires Wide(P) && Wide(Q) && i <= |P| && j <= |Q|
    decreases |P| - i + |Q| - j
  {
    if i == |P| then []
    else
      var m := Step(P, Q, i, j, fromGap, lines);
      m.out + Emissions(P, Q, m.i, m.j, m.fromGap, lines)
  }

  function Merged(P: seq<Row>, Q: seq<Row>, lines: bool): seq<Emission>
    requires Wide(P) && Wide(Q)
  {
    Emissions(P, Q, 0, 0, true, lines)
  }

  /** What the stacking plugin writes for an emission: the heights move up by `bottom`. */
  function Lift(e: Emission, withBottom: bool): (r: Row)
    requires |e.base| >= 2 && (withBottom ==> |e.base| > 2)
    ensures |r| == |e.base|
  {
    if !e.lifted then e.base
    else
      var moved := e.base[1 := Num(Y(e.base) + e.bottom)];
      if withBottom then moved[2 := Num(e.base[2].Val() + e.bottom)] else moved
  }

  /** What the fill-between plugin writes: the row stays and only its bottom is recorded. */
  function Fill(e: Emission, withBottom: bool): (r: Row)
    requires |e.base| >= 2 && (withBottom ==> |e.base| > 2)
    ensures |r| == |e.base|
  {
    if e.lifted && withBottom then e.base[2 := Num(e.bottom)] else e.base
  }

  predicate EmissionsShaped(es: seq<Emission>, ps: nat) {
    forall e :: e in es ==> |e.base| == ps
  }

  lemma {:induction false} EmissionsHaveShape(P: seq<Row>, Q: seq<Row>, i: nat, j: nat, fromGap: bool, lines: bool,
                                              ps: nat)
    requires ps >= 2 && Shaped(P, ps) && Wide(Q) && i <= |P| && j <= |Q|
    ensures EmissionsShaped(Emissions(P, Q, i, j, fromGap, lines), ps)
    decreases |P| - i + |Q| - j
  {
    if i < |P| {
      var m := Step(P, Q, i, j, fromGap, lines);
      EmissionsHaveShape(P, Q, m.i, m.j, m.fromGap, lines, ps);
    }
  }

  /** The rows the stacking plugin writes for a list of emissions. */
  function LiftAll(es: seq<Emission>, withBottom: bool, ps: nat): (r: seq<Row>)
    requires ps >= 2 && (withBottom ==> ps > 2) && EmissionsShaped(es, ps)
    ensures Shaped(r, ps) && |r| == |es|
  {
    seq(|es|, k requires 0 <= k < |es| => assert es[k] in es; Lift(es[k], withBottom))
  }

  /** The rows the fill-between plugin writes for a list of emissions. */
  function FillAll(es: seq<Emission>, withBottom: bool, ps: nat): (r: seq<Row>)
    requires ps >= 2 && (withBottom ==> ps > 2) && EmissionsShaped(es, ps)
    ensures Shaped(r, ps) && |r| == |es|
  {
    seq(|es|, k requires 0 <= k < |es| => assert es[k] in es; Fill(es[k], withBottom))
  }

  lemma LiftAllConcat(a: seq<Emission>, b: seq<Emission>, withBottom: bool, ps: nat)
    requires ps >= 2 && (withBottom ==> ps > 2) && EmissionsShaped(a, ps) && EmissionsShaped(b, ps)
    ensures EmissionsShaped(a + b, ps)
    ensures LiftAll(a + b, withBottom, ps) == LiftAll(a, withBottom, ps) + LiftAll(b, withBottom, ps)
  {
  }

  lemma FillAllConcat(a: seq<Emission>, b: seq<Emission>, withBottom: bool, ps: nat)
    requires ps >= 2 && (withBottom ==> ps > 2) && EmissionsShaped(a, ps) && EmissionsShaped(b, ps)
    ensures EmissionsShaped(a + b, ps)
    ensures FillAll(a + b, withBottom, ps) == FillAll(a, withBottom, ps) + FillAll(b, withBottom, ps)
  {
  }

  function StackRows(P: seq<Row>, Q: seq<Row>, lines: bool, withBottom: bool, ps: nat): (r: seq<Row>)
    requires ps >= 2 && (withBottom ==> ps > 2) && Shaped(P, ps) && Wide(Q)
    ensures Shaped(r, ps) && |r| == |Merged(P, Q, lines)|
  {
    EmissionsHaveShape(P, Q, 0, 0, true, lines, ps);
    LiftAll(Merged(P, Q, lines), withBottom, ps)
  }

  function FillRows(P: seq<Row>, Q: seq<Row>, lines: bool, withBottom: bool, ps: nat): (r: seq<Row>)
    requires ps >= 2 && (withBottom ==> ps > 2) && Shaped(P, ps) && Wide(Q)
    ensures Shaped(r, ps) && |r| == |Merged(P, Q, lines)|
  {
    EmissionsHaveShape(P, Q, 0, 0, true, lines, ps);
    FillAll(Merged(P, Q, lines), withBottom, ps)
  }

  // ---- the two plugins run in lockstep, gaps included ----

  ghost predicate ZeroBottoms(P: seq<Row>)
    requires Wide(P)
  {
    forall k :: 0 <= k < |P| && !IsGap(P[k]) ==> |P[k]| > 2 && P[k][2] == Num(0.0)
  }

  /** What an emission over rows with zero bottoms looks like. */
  ghost predicate OverZeroBottom(e: Emission) {
    && |e.base| > 2
    && (e.lifted ==> !IsGap(e.base))
    && (!IsGap(e.base) ==> e.base[2] == Num(0.0))
  }

  lemma {:induction false} EmissionsZeroBottom(P: seq<Row>, Q: seq<Row>, i: nat, j: nat, fromGap: bool, lines: bool,
                                               ps: nat)
    requires ps > 2 && Shaped(P, ps) && Wide(Q) && i <= |P| && j <= |Q| && ZeroBottoms(P)
    ensures forall e :: e in Emissions(P, Q, i, j, fromGap, lines) ==> OverZeroBottom(e)
    decreases |P| - i + |Q| - j
  {
    if i < |P| {
      var m := Step(P, Q, i, j, fromGap, lines);
      EmissionsZeroBottom(P, Q, m.i, m.j, m.fromGap, lines, ps);
    }
  }

  /** On the same input both plugins put out the same x cells, the same bottoms and the same gaps, and
      the stacked height is the fill-between height plus the bottom. */
  lemma StackAndFillInLockstep(P: seq<Row>, Q: seq<Row>, lines: bool, ps: nat)
    requires ps > 2 && Shaped(P, ps) && Wide(Q) && ZeroBottoms(P)
    ensures
      var S, F := StackRows(P, Q, lines, true, ps), FillRows(P, Q, lines, true, ps);
      |S| == |F| &&
      forall k :: 0 <= k < |S| ==>
        && S[k][0] == F[k][0]
        && S[k][2] == F[k][2]
        && (!IsGap(S[k]) ==> Y(S[k]) == Y(F[k]) + F[k][2].Val())
  {
    var es := Merged(P, Q, lines);
    EmissionsZeroBottom(P, Q, 0, 0, true, lines, ps);
    forall e | e in es
      ensures |e.base| > 2
      ensures Lift(e, true)[0] == Fill(e, true)[0] && Lift(e, true)[2] == Fill(e, true)[2]
      ensures !IsGap(Lift(e, true)) ==> Y(Lift(e, true)) == Y(Fill(e, true)) + Fill(e, true)[2].Val()
    {
      assert OverZeroBottom(e);
    }
  }

  // ---- sorted input gives sorted output ----

  ghost predicate Emits(e: Emission, lo: real) {
    |e.base| >= 2 && (!IsGap(e.base) ==> lo <= X(e.base))
  }

  ghost predicate SortedFrom(es: seq<Emission>, lo: real)
    decreases |es|
  {
    es == [] ||
    (Emits(es[0], lo) &&
     SortedFrom(es[1..], if |es[0].base| >= 2 && !IsGap(es[0].base) then X(es[0].base) else lo))
  }

  lemma {:induction false} SortedFromLower(es: seq<Emission>, hi: real, lo: real)
    requires SortedFrom(es, hi) && lo <= hi
    ensures SortedFrom(es, lo)
  {
    if es != [] && IsGap(es[0].base) {
      SortedFromLower(es[1..], hi, lo);
    }
  }

  lemma {:induction false} SortedFromAll(es: seq<Emission>, lo: real)
    requires SortedFrom(es, lo)
    ensures forall k :: 0 <= k < |es| ==> |es[k].base| >= 2 && Emits(es[k], lo)
    ensures forall a, b :: (0 <= a < b < |es| && !IsGap(es[a].base) && !IsGap(es[b].base)) ==>
                             X(es[a].base) <= X(es[b].base)
  {
    if es != [] {
      SortedFromAll(es[1..], if IsGap(es[0].base) then lo else X(es[0].base));
      forall k | 0 < k < |es| ensures Emits(es[k], lo) && (!IsGap(es[0].base) ==> Emits(es[k], X(es[0].base))) {
        assert es[k] == es[1..][k - 1];
      }
      forall a, b | 0 <= a < b < |es| && !IsGap(es[a].base) && !IsGap(es[b].base)
        ensures X(es[a].base) <= X(es[b].base)
      {
        if a > 0 { assert es[a] == es[1..][a - 1] && es[b] == es[1..][b - 1]; }
      }
    }
  }

  ghost predicate AllFrom(rows: seq<Row>, k: nat, lo: real)
    requires Wide(rows)
  {
    forall a :: k <= a < |rows| && !IsGap(rows[a]) ==> lo <= X(rows[a])
  }

  /** The x a round leaves behind: all later x's are at or right of it. */
  ghost function Passed(m: Move, lo: real): real {
    if |m.out| == 1 && |m.out[0].base| >= 2 && !IsGap(m.out[0].base) then X(m.out[0].base) else lo
  }

  lemma StepPasses(P: seq<Row>, Q: seq<Row>, i: nat, j: nat, fromGap: bool, lines: bool, lo: real)
    requires Wide(P) && Wide(Q) && i < |P| && j <= |Q| && Sorted(P) && Sorted(Q)
    requires AllFrom(P, i, lo) && AllFrom(Q, j, lo)
    ensures
      var m := Step(P, Q, i, j, fromGap, lines);
      AllFrom(P, m.i, Passed(m, lo)) && AllFrom(Q, m.j, Passed(m, lo)) && (|m.out| == 1 ==> Emits(m.out[0], lo))
  {
  }

  lemma {:induction false} EmissionsSorted(P: seq<Row>, Q: seq<Row>, i: nat, j: nat, fromGap: bool, lines: bool,
                                           lo: real)
    requires Wide(P) && Wide(Q) && i <= |P| && j <= |Q| && Sorted(P) && Sorted(Q)
    requires AllFrom(P, i, lo) && AllFrom(Q, j, lo)
    ensures SortedFrom(Emissions(P, Q, i, j, fromGap, lines), lo)
    decreases |P| - i + |Q| - j
  {
    if i < |P| {
      var m := Step(P, Q, i, j, fromGap, lines);
      StepPasses(P, Q, i, j, fromGap, lines, lo);
      EmissionsSorted(P, Q, m.i, m.j, m.fromGap, lines, Passed(m, lo));
      var rest := Emissions(P, Q, m.i, m.j, m.fromGap, lines);
      if m.out == [] { assert m.out + rest == rest; } else { assert (m.out + rest)[1..] == rest; }
    }
  }

  ghost function Lowest(rows: seq<Row>): (lo: real)
    requires Wide(rows)
    ensures AllFrom(rows, 0, lo)
  {
    if rows == [] then 0.0
    else
      var rest := Lowest(rows[1..]);
      assert forall a :: 0 < a < |rows| ==> rows[a] == rows[1..][a - 1];
      if X(rows[0]) < rest then X(rows[0]) else rest
  }

  /** Stacking keeps the order on x, for lines and bars and whatever gaps the inputs have, so that its
      result is fit to be stacked upon. */
  lemma StackKeepsSorted(P: seq<Row>, Q: seq<Row>, lines: bool, withBottom: bool, ps: nat)
    requires ps >= 2 && (withBottom ==> ps > 2) && Shaped(P, ps) && Wide(Q) && Sorted(P) && Sorted(Q)
    ensures Sorted(StackRows(P, Q, lines, withBottom, ps))
  {
    var lo := if Lowest(P) < Lowest(Q) then Lowest(P) else Lowest(Q);
    EmissionsSorted(P, Q, 0, 0, true, lines, lo);
    EmissionsHaveShape(P, Q, 0, 0, true, lines, ps);
    LiftKeepsSorted(Merged(P, Q, lines), withBottom, ps, lo);
  }

  lemma LiftKeepsSorted(es: seq<Emission>, withBottom: bool, ps: nat, lo: real)
    requires ps >= 2 && (withBottom ==> ps > 2) && EmissionsShaped(es, ps) && SortedFrom(es, lo)
    ensures Sorted(LiftAll(es, withBottom, ps))
  {
    SortedFromAll(es, lo);
    var R := LiftAll(es, withBottom, ps);
    forall k | 0 <= k < |R| ensures R[k][0] == es[k].base[0] {
      assert es[k] in es;
    }
  }

  // ---- no interpolation divides by zero ----

  /** Behind the cursors: what a cursor has passed does not lie right of what the other still has. */
  ghost predicate Behind(P: seq<Row>, Q: seq<Row>, i: nat, j: nat)
    requires Wide(P) && Wide(Q) && i <= |P| && j <= |Q|
  {
    && (forall a, b :: 0 <= a < i && j <= b < |Q| && !IsGap(P[a]) && !IsGap(Q[b]) ==> X(P[a]) <= X(Q[b]))
    && (forall a, b :: i <= a < |P| && 0 <= b < j && !IsGap(P[a]) && !IsGap(Q[b]) ==> X(Q[b]) <= X(P[a]))
  }

  lemma StepKeepsBehind(P: seq<Row>, Q: seq<Row>, i: nat, j: nat, fromGap: bool, lines: bool)
    requires Wide(P) && Wide(Q) && Sorted(P) && Sorted(Q) && i < |P| && j <= |Q| && Behind(P, Q, i, j)
    ensures
      var m := Step(P, Q, i, j, fromGap, lines);
      Behind(P, Q, m.i, m.j)
  {
  }

  /** Whenever a height is interpolated, the two rows used have different x's, whatever gaps and equal x's
      the sorted inputs have. */
  lemma NoDivisionByZero(P: seq<Row>, Q: seq<Row>, i: nat, j: nat)
    requires Wide(P) && Wide(Q) && i < |P| && j < |Q| && Behind(P, Q, i, j)
    requires !IsGap(P[i]) && !IsGap(Q[j])
    ensures X(P[i]) > X(Q[j]) && i > 0 && !IsGap(P[i - 1]) ==> X(P[i - 1]) < X(P[i])
    ensures X(P[i]) < X(Q[j]) && j > 0 && !IsGap(Q[j - 1]) ==> X(Q[j - 1]) < X(Q[j])
  {
    if i > 0 && !IsGap(P[i - 1]) { assert X(P[i - 1]) <= X(Q[j]); }
    if j > 0 && !IsGap(Q[j - 1]) { assert X(Q[j - 1]) <= X(P[i]); }
  }

  // ---- stacking lines adds the curves ----

  /** x lies in the ranges of both lines. */
  predicate Both(P: seq<Row>, Q: seq<Row>, x: real)
    requires Wide(P) && Wide(Q)
  {
    Covers(P, x) && Covers(Q, x)
  }

  /** Between the cursors: everything consumed lies strictly below what the other cursor points at. */
  ghost predicate Aligned(P: seq<Row>, Q: seq<Row>, i: nat, j: nat)
    requires Wide(P) && Wide(Q) && i <= |P| && j <= |Q|
  {
    && (i > 0 && j < |Q| ==> X(P[i - 1]) < X(Q[j]))
    && (j > 0 && i < |P| ==> X(Q[j - 1]) < X(P[i]))
  }

  ghost predicate HasX(rows: seq<Row>, k: nat, x: real)
    requires Wide(rows)
  {
    exists a :: k <= a < |rows| && X(rows[a]) == x
  }

  /** An emission that stands on both curves. */
  ghost predicate OnCurves(e: Emission, P: seq<Row>, Q: seq<Row>)
    requires Line(P) && Line(Q)
  {
    && |e.base| >= 2 && !IsGap(e.base) && e.lifted
    && Both(P, Q, X(e.base)) && Y(e.base) == Eval(P, X(e.base)) && e.bottom == Eval(Q, X(e.base))
  }

  ghost predicate EmissionAt(es: seq<Emission>, x: real) {
    exists e :: e in es && |e.base| >= 2 && X(e.base) == x
  }

  ghost predicate StrictFrom(es: seq<Emission>, lo: real) {
    es == [] || (|es[0].base| >= 2 && lo < X(es[0].base) && StrictFrom(es[1..], X(es[0].base)))
  }

  lemma {:induction false} StrictFromAll(es: seq<Emission>, lo: real)
    requires StrictFrom(es, lo)
    ensures forall k :: 0 <= k < |es| ==> |es[k].base| >= 2 && lo < X(es[k].base)
    ensures forall a, b :: 0 <= a < b < |es| ==> X(es[a].base) < X(es[b].base)
  {
    if es != [] {
      StrictFromAll(es[1..], X(es[0].base));
      assert forall k :: 0 < k < |es| ==> es[k] == es[1..][k - 1];
    }
  }

  lemma HasXStep(rows: seq<Row>, k: nat, x: real)
    requires Wide(rows) && k < |rows|
    ensures HasX(rows, k, x) <==> X(rows[k]) == x || HasX(rows, k + 1, x)
  {
    if X(rows[k]) == x { assert HasX(rows, k, x); }
  }

  /** A round on two lines keeps the cursors aligned; `fromGap` says that the lower line has not been entered; what
      comes out is further right than what came before, and what follows is further right still. */
  lemma StepAligned(P: seq<Row>, Q: seq<Row>, i: nat, j: nat, lo: real)
    requires Line(P) && Line(Q) && i < |P| && j <= |Q| && Aligned(P, Q, i, j)
    requires lo < X(P[i]) && (j < |Q| ==> lo < X(Q[j]))
    ensures
      var m := Step(P, Q, i, j, j == 0, true);
      var next := if m.out == [] then lo else X(m.out[0].base);
      && Aligned(P, Q, m.i, m.j) && m.fromGap == (m.j == 0)
      && (m.out != [] ==> lo < next)
      && (m.i < |P| ==> next < X(P[m.i])) && (m.j < |Q| ==> next < X(Q[m.j]))
  {
  }

  /** What comes out of a round on two lines is on both curves. */
  lemma StepOnCurves(P: seq<Row>, Q: seq<Row>, i: nat, j: nat)
    requires Line(P) && Line(Q) && i < |P| && j <= |Q| && Aligned(P, Q, i, j)
    ensures
      var m := Step(P, Q, i, j, j == 0, true);
      && Aligned(P, Q, m.i, m.j)
      && m.fromGap == (m.j == 0)
      && (|m.out| == 1 ==> OnCurves(m.out[0], P, Q))
  {
    if j < |Q| {
      StepAligned(P, Q, i, j, (if X(P[i]) < X(Q[j]) then X(P[i]) else X(Q[j])) - 1.0);
      if X(P[i]) == X(Q[j]) {
        EvalAtRow(P, i);
        EvalAtRow(Q, j);
      } else if X(P[i]) > X(Q[j]) {
        if i > 0 { InsertedOnCurves(P, Q, i, j); }
      } else if j > 0 {
        KeptOnCurves(P, Q, i, j);
      }
    }
  }

  lemma InsertedOnCurves(P: seq<Row>, Q: seq<Row>, i: nat, j: nat)
    requires Line(P) && Line(Q) && 0 < i < |P| && j < |Q| && X(P[i - 1]) < X(Q[j]) < X(P[i])
    ensures OnCurves(Emission(Inserted(P[i - 1], P[i], X(Q[j])), Y(Q[j]), true), P, Q)
  {
    EvalOnSegment(P, i - 1, X(Q[j]));
    LerpSwap(X(P[i - 1]), Y(P[i - 1]), X(P[i]), Y(P[i]), X(Q[j]));
    EvalAtRow(Q, j);
  }

  lemma KeptOnCurves(P: seq<Row>, Q: seq<Row>, i: nat, j: nat)
    requires Line(P) && Line(Q) && i < |P| && 0 < j < |Q| && X(Q[j - 1]) < X(P[i]) < X(Q[j])
    ensures
      OnCurves(Emission(P[i], Lerp(X(Q[j]), Y(Q[j]), X(Q[j - 1]), Y(Q[j - 1]), X(P[i])), true), P, Q)
  {
    EvalAtRow(P, i);
    EvalOnSegment(Q, j - 1, X(P[i]));
    LerpSwap(X(Q[j - 1]), Y(Q[j - 1]), X(Q[j]), Y(Q[j]), X(P[i]));
  }

  /** The x's a round disposes of come out exactly when they lie in both ranges. */
  lemma StepExactly(P: seq<Row>, Q: seq<Row>, i: nat, j: nat, x: real)
    requires Line(P) && Line(Q) && i < |P| && j <= |Q| && Aligned(P, Q, i, j)
    ensures
      var m := Step(P, Q, i, j, j == 0, true);
      ((HasX(P, i, x) || HasX(Q, j, x)) && Both(P, Q, x)) <==>
      (EmissionAt(m.out, x) || ((HasX(P, m.i, x) || HasX(Q, m.j, x)) && Both(P, Q, x)))
  {
    var m := Step(P, Q, i, j, j == 0, true);
    StepOnCurves(P, Q, i, j);
    HasXStep(P, i, x);
    if j < |Q| { HasXStep(Q, j, x); }
    if |m.out| == 1 {
      assert EmissionAt(m.out, x) <==> X(m.out[0].base) == x by {
        assert m.out[0] in m.out;
      }
    }
  }

  lemma {:induction false} EmissionsOnCurves(P: seq<Row>, Q: seq<Row>, i: nat, j: nat)
    requires Line(P) && Line(Q) && i <= |P| && j <= |Q| && Aligned(P, Q, i, j)
    ensures forall e :: e in Emissions(P, Q, i, j, j == 0, true) ==> OnCurves(e, P, Q)
    decreases |P| - i + |Q| - j
  {
    if i < |P| {
      var m := Step(P, Q, i, j, j == 0, true);
      StepOnCurves(P, Q, i, j);
      EmissionsOnCurves(P, Q, m.i, m.j);
    }
  }

  lemma {:induction false} EmissionsStrict(P: seq<Row>, Q: seq<Row>, i: nat, j: nat, lo: real)
    requires Line(P) && Line(Q) && i <= |P| && j <= |Q| && Aligned(P, Q, i, j)
    requires (i < |P| ==> lo < X(P[i])) && (j < |Q| ==> lo < X(Q[j]))
    ensures StrictFrom(Emissions(P, Q, i, j, j == 0, true), lo)
    decreases |P| - i + |Q| - j
  {
    if i < |P| {
      var m := Step(P, Q, i, j, j == 0, true);
      var next := if m.out == [] then lo else X(m.out[0].base);
      StepAligned(P, Q, i, j, lo);
      EmissionsStrict(P, Q, m.i, m.j, next);
      StrictStep(m.out, Emissions(P, Q, m.i, m.j, m.fromGap, true), lo, next);
    }
  }

  lemma StrictStep(out: seq<Emission>, rest: seq<Emission>, lo: real, next: real)
    requires |out| <= 1 && StrictFrom(rest, next) && (out == [] ==> next == lo)
    requires out != [] ==> |out[0].base| >= 2 && lo < next == X(out[0].base)
    ensures StrictFrom(out + rest, lo)
  {
    if out == [] { assert out + rest == rest; } else { assert (out + rest)[1..] == rest; }
  }

  lemma {:induction false} EmissionsExactly(P: seq<Row>, Q: seq<Row>, i: nat, j: nat, x: real)
    requires Line(P) && Line(Q) && i <= |P| && j <= |Q| && Aligned(P, Q, i, j)
    ensures EmissionAt(Emissions(P, Q, i, j, j == 0, true), x)
       <==> (HasX(P, i, x) || HasX(Q, j, x)) && Both(P, Q, x)
    decreases |P| - i + |Q| - j
  {
    if i < |P| {
      var m := Step(P, Q, i, j, j == 0, true);
      StepOnCurves(P, Q, i, j);
      StepExactly(P, Q, i, j, x);
      EmissionsExactly(P, Q, m.i, m.j, x);
      EmissionAtConcat(m.out, Emissions(P, Q, m.i, m.j, m.fromGap, true), x);
    }
  }

  lemma EmissionAtConcat(a: seq<Emission>, b: seq<Emission>, x: real)
    ensures EmissionAt(a + b, x) <==> EmissionAt(a, x) || EmissionAt(b, x)
  {
    assert forall e :: e in a + b <==> e in a || e in b;
  }

  /** Every row of R lies in the overlap, at the sum of the two heights. */
  ghost predicate CarriesSum(P: seq<Row>, Q: seq<Row>, R: seq<Row>)
    requires Line(P) && Line(Q) && Wide(R)
  {
    forall k :: 0 <= k < |R| ==> Both(P, Q, X(R[k])) && Y(R[k]) == Eval(P, X(R[k])) + Eval(Q, X(R[k]))
  }

  /** R has a row exactly where P or Q has one inside the overlap. */
  ghost predicate RowsOfOverlap(P: seq<Row>, Q: seq<Row>, R: seq<Row>)
    requires Wide(P) && Wide(Q) && Wide(R)
  {
    forall x :: HasX(R, 0, x) <==> (HasX(P, 0, x) || HasX(Q, 0, x)) && Both(P, Q, x)
  }

  lemma LiftedRow(e: Emission, withBottom: bool)
    requires |e.base| >= 2 && (withBottom ==> |e.base| > 2) && e.lifted
    ensures X(Lift(e, withBottom)) == X(e.base) && IsGap(Lift(e, withBottom)) == IsGap(e.base)
    ensures Y(Lift(e, withBottom)) == Y(e.base) + e.bottom
  {
  }

  lemma HasXOfLifted(es: seq<Emission>, withBottom: bool, ps: nat, x: real)
    requires ps >= 2 && (withBottom ==> ps > 2) && EmissionsShaped(es, ps)
    ensures HasX(LiftAll(es, withBottom, ps), 0, x) <==> EmissionAt(es, x)
  {
    var R := LiftAll(es, withBottom, ps);
    if HasX(R, 0, x) {
      var k :| 0 <= k < |R| && X(R[k]) == x;
      assert es[k] in es && X(es[k].base) == x;
    }
    if EmissionAt(es, x) {
      var k :| 0 <= k < |es| && |es[k].base| >= 2 && X(es[k].base) == x;
      assert X(R[k]) == x;
    }
  }

  lemma LiftedLine(es: seq<Emission>, P: seq<Row>, Q: seq<Row>, withBottom: bool, ps: nat, lo: real)
    requires ps >= 2 && (withBottom ==> ps > 2) && EmissionsShaped(es, ps) && Line(P) && Line(Q)
    requires StrictFrom(es, lo) && forall e :: e in es ==> OnCurves(e, P, Q)
    ensures var R := LiftAll(es, withBottom, ps); Line(R) && CarriesSum(P, Q, R)
  {
    var R := LiftAll(es, withBottom, ps);
    StrictFromAll(es, lo);
    forall k | 0 <= k < |R|
      ensures !IsGap(R[k]) && X(R[k]) == X(es[k].base) && OnCurves(es[k], P, Q)
      ensures Y(R[k]) == Y(es[k].base) + es[k].bottom
    {
      var e := es[k];
      assert e in es;
      LiftedRow(e, withBottom);
    }
  }

  /** The rows of the stacked line: strictly increasing, on the sum of the curves, and exactly where
      either input has a row inside both ranges. */
  lemma StackedRowsAreSums(P: seq<Row>, Q: seq<Row>, withBottom: bool, ps: nat)
    requires ps >= 2 && (withBottom ==> ps > 2) && Shaped(P, ps) && Line(P) && Line(Q)
    ensures
      var R := StackRows(P, Q, true, withBottom, ps);
      Line(R) && CarriesSum(P, Q, R) && RowsOfOverlap(P, Q, R)
  {
    var es := Merged(P, Q, true);
    assert es == Emissions(P, Q, 0, 0, 0 == 0, true);
    EmissionsHaveShape(P, Q, 0, 0, true, true, ps);
    EmissionsOnCurves(P, Q, 0, 0);
    var lo := (if Lowest(P) < Lowest(Q) then Lowest(P) else Lowest(Q)) - 1.0;
    EmissionsStrict(P, Q, 0, 0, lo);
    LiftedLine(es, P, Q, withBottom, ps, lo);
    forall x ensures EmissionAt(es, x) <==> (HasX(P, 0, x) || HasX(Q, 0, x)) && Both(P, Q, x)
             ensures HasX(LiftAll(es, withBottom, ps), 0, x) <==> EmissionAt(es, x)
    {
      EmissionsExactly(P, Q, 0, 0, x);
      HasXOfLifted(es, withBottom, ps, x);
    }
  }

  /** The stacked line covers exactly the overlap of the two ranges. */
  lemma StackedRange(P: seq<Row>, Q: seq<Row>, withBottom: bool, ps: nat, x: real)
    requires ps >= 2 && (withBottom ==> ps > 2) && Shaped(P, ps) && Line(P) && Line(Q)
    ensures Covers(StackRows(P, Q, true, withBottom, ps), x) <==> Both(P, Q, x)
  {
    StackedRowsAreSums(P, Q, withBottom, ps);
    RangeOfOverlap(P, Q, StackRows(P, Q, true, withBottom, ps), x);
  }

  lemma RangeOfOverlap(P: seq<Row>, Q: seq<Row>, R: seq<Row>, x: real)
    requires Line(P) && Line(Q) && Line(R) && RowsOfOverlap(P, Q, R)
    ensures Covers(R, x) <==> Both(P, Q, x)
  {
    assert forall k :: 0 <= k < |R| ==> HasX(R, 0, X(R[k]));
    if Both(P, Q, x) {
      var lo := if X(P[0]) < X(Q[0]) then X(Q[0]) else X(P[0]);
      var hi := if X(P[|P| - 1]) < X(Q[|Q| - 1]) then X(P[|P| - 1]) else X(Q[|Q| - 1]);
      assert HasX(P, 0, X(P[0])) && HasX(P, 0, X(P[|P| - 1]));
      assert HasX(Q, 0, X(Q[0])) && HasX(Q, 0, X(Q[|Q| - 1]));
      assert Both(P, Q, lo) && Both(P, Q, hi);
      assert HasX(R, 0, lo) && HasX(R, 0, hi);
    }
  }

  lemma {:induction false} FindAround(R: seq<Row>, x: real) returns (k: nat)
    requires Line(R) && |R| > 1 && Covers(R, x)
    ensures k + 1 < |R| && X(R[k]) <= x <= X(R[k + 1])
  {
    k := 0;
    while X(R[k + 1]) < x
      invariant k + 1 < |R| && X(R[k]) <= x
      decreases |R| - k
    {
      k := k + 1;
    }
  }

  /** Main result: the stacked line is the sum of the two lines at every x of the overlap. */
  lemma StackIsSum(P: seq<Row>, Q: seq<Row>, withBottom: bool, ps: nat, x: real)
    requires ps >= 2 && (withBottom ==> ps > 2) && Shaped(P, ps) && Line(P) && Line(Q) && Both(P, Q, x)
    ensures
      var R := StackRows(P, Q, true, withBottom, ps);
      Line(R) && Covers(R, x) && Eval(R, x) == Eval(P, x) + Eval(Q, x)
  {
    StackedRowsAreSums(P, Q, withBottom, ps);
    StackedRange(P, Q, withBottom, ps, x);
    SumThroughout(P, Q, StackRows(P, Q, true, withBottom, ps), x);
  }

  /** A line that carries the sum at its rows, and has a row wherever an input has one, is the sum. */
  lemma SumThroughout(P: seq<Row>, Q: seq<Row>, R: seq<Row>, x: real)
    requires Line(P) && Line(Q) && Line(R) && Covers(R, x)
    requires CarriesSum(P, Q, R) && RowsOfOverlap(P, Q, R)
    ensures Both(P, Q, x) && Eval(R, x) == Eval(P, x) + Eval(Q, x)
  {
    if |R| > 1 {
      var k := FindAround(R, x);
      var a, b := X(R[k]), X(R[k + 1]);
      assert Both(P, Q, a) && Both(P, Q, b);
      NothingBetween(P, Q, R, k);
      SumOnSegment(P, Q, R, k, x);
    } else {
      assert x == X(R[0]);
    }
  }

  lemma SumOnSegment(P: seq<Row>, Q: seq<Row>, R: seq<Row>, k: nat, x: real)
    requires Line(P) && Line(Q) && Line(R) && k + 1 < |R|
    requires
      var a, b := X(R[k]), X(R[k + 1]);
      && a <= x <= b && Both(P, Q, a) && Both(P, Q, b) && NoRowBetween(P, a, b) && NoRowBetween(Q, a, b)
      && Y(R[k]) == Eval(P, a) + Eval(Q, a) && Y(R[k + 1]) == Eval(P, b) + Eval(Q, b)
    ensures Both(P, Q, x) && Covers(R, x) && Eval(R, x) == Eval(P, x) + Eval(Q, x)
  {
    var a, b := X(R[k]), X(R[k + 1]);
    CurveIsChord(P, a, b, x);
    CurveIsChord(Q, a, b, x);
    var sum := Eval(P, x) + Eval(Q, x);
    ChordSum(a, Eval(P, a), Eval(Q, a), Y(R[k]),
             b, Eval(P, b), Eval(Q, b), Y(R[k + 1]), x, Eval(P, x), Eval(Q, x), sum);
    ChordIsCurve(R, k, x, sum);
  }

  lemma NothingBetween(P: seq<Row>, Q: seq<Row>, R: seq<Row>, k: nat)
    requires Line(P) && Line(Q) && Line(R) && k + 1 < |R|
    requires Both(P, Q, X(R[k])) && Both(P, Q, X(R[k + 1]))
    requires RowsOfOverlap(P, Q, R)
    ensures NoRowBetween(P, X(R[k]), X(R[k + 1])) && NoRowBetween(Q, X(R[k]), X(R[k + 1]))
  {
    var a, b := X(R[k]), X(R[k + 1]);
    forall m | 0 <= m < |P| ensures !(a < X(P[m]) < b) {
      assert HasX(P, 0, X(P[m]));
      if Both(P, Q, X(P[m])) { StepOfRows(R, k, X(P[m])); }
    }
    forall m | 0 <= m < |Q| ensures !(a < X(Q[m]) < b) {
      assert HasX(Q, 0, X(Q[m]));
      if Both(P, Q, X(Q[m])) { StepOfRows(R, k, X(Q[m])); }
    }
  }

  lemma StepOfRows(R: seq<Row>, k: nat, x: real)
    requires Line(R) && k + 1 < |R| && HasX(R, 0, x)
    ensures !(X(R[k]) < x < X(R[k + 1]))
  {
    var a :| 0 <= a < |R| && X(R[a]) == x;
    assert a <= k || a >= k + 1;
  }
}
