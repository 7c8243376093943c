/** What line steps make of gaps. */
module SteppedCurves {
  import opened Polyline
  import opened Merge
  import opened GappedLines
  import opened LineSteps

  // ---- where a line is drawn ----

  /** x belongs to row k or to the line from row k to the next. */
  predicate Spans(rows: seq<Row>, k: int, x: real)
    requires Wide(rows)
  {
    Solid(rows, k) && (X(rows[k]) == x || (Solid(rows, k + 1) && X(rows[k]) <= x <= X(rows[k + 1])))
  }

  /** The line is drawn at x, from row k on. */
  ghost predicate DrawnFrom(rows: seq<Row>, k: int, x: real)
    requires Wide(rows)
  {
    exists a :: k <= a && Spans(rows, a, x)
  }

  /** A line is drawn where it shows some height. */
  lemma DrawnIsShown(rows: seq<Row>, x: real)
    requires Wide(rows)
    ensures DrawnFrom(rows, 0, x) <==> exists v :: Shows(rows, x, v)
  {
    if DrawnFrom(rows, 0, x) {
      var a :| 0 <= a && Spans(rows, a, x);
      if X(rows[a]) == x {
        assert AtRow(rows, a, x, Y(rows[a]));
        assert Shows(rows, x, Y(rows[a]));
      } else {
        var p, r := rows[a], rows[a + 1];
        var v := Lerp(X(p), Y(p), X(r), Y(r), x);
        ChordIsLerp(X(p), Y(p), X(r), Y(r), x, v);
        assert OnPiece(rows, a, x, v);
        assert Shows(rows, x, v);
      }
    }
    if v :| Shows(rows, x, v) {
      var a :| AtRow(rows, a, x, v) || OnPiece(rows, a, x, v);
      assert Spans(rows, a, x);
    }
  }

  predicate HoleAt(rows: seq<Row>, k: int)
    requires Wide(rows)
  {
    0 <= k < |rows| && IsGap(rows[k])
  }

  /** What comes behind a gap lies further right than what comes before it; within a stretch x may repeat, as it does
      in a series that is drawn in steps. */
  ghost predicate RisesAcrossGaps(rows: seq<Row>)
    requires Wide(rows)
  {
    forall a, g, b :: a < g < b && Solid(rows, a) && HoleAt(rows, g) && Solid(rows, b) ==> X(rows[a]) < X(rows[b])
  }

  /** Behind some gap of P there is an x where both lines are drawn. */
  ghost predicate BothBehindGap(P: seq<Row>, Q: seq<Row>)
    requires Wide(P) && Wide(Q)
  {
    exists g, x :: HoleAt(P, g) && DrawnFrom(P, g + 1, x) && DrawnFrom(Q, 0, x)
  }

  /** Behind a gap of either line there is an x where both are drawn. */
  ghost predicate GapThenBoth(P: seq<Row>, Q: seq<Row>)
    requires Wide(P) && Wide(Q)
  {
    BothBehindGap(P, Q) || BothBehindGap(Q, P)
  }

  // ---- when a row comes out ----

  ghost predicate HasKnot(ks: seq<Knot>) {
    exists k :: IsKnot(ks, k)
  }

  function KnotsFrom(P: seq<Row>, Q: seq<Row>, i: nat, j: nat, fromGap: bool): seq<Knot>
    requires Wide(P) && Wide(Q) && i <= |P| && j <= |Q|
  {
    Knots(Emissions(P, Q, i, j, fromGap, true))
  }

  lemma HasKnotConcat(a: seq<Knot>, b: seq<Knot>)
    ensures HasKnot(a + b) <==> HasKnot(a) || HasKnot(b)
  {
    if k :| IsKnot(a, k) { assert IsKnot(a + b, k); }
    if k :| IsKnot(b, k) { assert IsKnot(a + b, |a| + k); }
    if k :| IsKnot(a + b, k) { assert if k < |a| then IsKnot(a, k) else IsKnot(b, k - |a|); }
  }

  /** A state the merge of two sorted lines can be in. */
  ghost predicate Going(P: seq<Row>, Q: seq<Row>, i: nat, j: nat, fromGap: bool) {
    && Wide(P) && Wide(Q) && Sorted(P) && Sorted(Q) && i <= |P| && j <= |Q|
    && Behind(P, Q, i, j) && fromGap == !Solid(Q, j - 1)
  }

  lemma StepGoing(P: seq<Row>, Q: seq<Row>, i: nat, j: nat, fromGap: bool)
    requires Going(P, Q, i, j, fromGap) && i < |P|
    ensures var m := Step(P, Q, i, j, fromGap, true); Going(P, Q, m.i, m.j, m.fromGap)
  {
    StepKeepsBehind(P, Q, i, j, fromGap, true);
  }

  lemma NotOver(P: seq<Row>, Q: seq<Row>, i: nat, j: nat, fromGap: bool)
    requires Wide(P) && Wide(Q) && i <= |P| && j <= |Q| && KnotsFrom(P, Q, i, j, fromGap) != []
    ensures i < |P|
  {
  }

  /** A knot of a round lies on a stretch of either line next to its cursor. */
  lemma KnotOnBoth(P: seq<Row>, Q: seq<Row>, i: nat, j: nat, fromGap: bool) returns (a: int, b: int, x: real)
    requires Going(P, Q, i, j, fromGap) && i < |P|
    requires HasKnot(Knots(Step(P, Q, i, j, fromGap, true).out))
    ensures i - 1 <= a && j - 1 <= b && Spans(P, a, x) && Spans(Q, b, x)
  {
    assert Solid(P, i) && Solid(Q, j);
    x := if X(P[i]) < X(Q[j]) then X(P[i]) else X(Q[j]);
    a := if x == X(P[i]) then i else i - 1;
    b := if x == X(Q[j]) then j else j - 1;
  }

  lemma {:induction false} KnotsOnBoth(P: seq<Row>, Q: seq<Row>, i: nat, j: nat, fromGap: bool)
    returns (a: int, b: int, x: real)
    requires Going(P, Q, i, j, fromGap) && HasKnot(KnotsFrom(P, Q, i, j, fromGap))
    ensures i - 1 <= a && j - 1 <= b && Spans(P, a, x) && Spans(Q, b, x)
    decreases |P| - i + |Q| - j
  {
    NotOver(P, Q, i, j, fromGap);
    var m := Step(P, Q, i, j, fromGap, true);
    KnotsUnfold(P, Q, i, j, fromGap);
    HasKnotConcat(Knots(m.out), KnotsFrom(P, Q, m.i, m.j, m.fromGap));
    if HasKnot(Knots(m.out)) {
      a, b, x := KnotOnBoth(P, Q, i, j, fromGap);
    } else {
      StepGoing(P, Q, i, j, fromGap);
      a, b, x := KnotsOnBoth(P, Q, m.i, m.j, m.fromGap);
    }
  }

  /** The points passed lie left of x. */
  ghost predicate LeftOf(rows: seq<Row>, k: nat, x: real)
    requires Wide(rows)
  {
    forall a :: a < k && Solid(rows, a) ==> X(rows[a]) < x
  }

  lemma NotPassed(rows: seq<Row>, k: nat, a: int, x: real)
    requires Wide(rows) && Sorted(rows) && Spans(rows, a, x) && LeftOf(rows, k, x)
    ensures k < |rows| && k - 1 <= a && (a == k - 1 ==> Solid(rows, k))
    ensures Solid(rows, k) && !Solid(rows, k - 1) ==> X(rows[k]) <= x
  {
  }

  /** A round that puts no knot out passes nothing at x or right of it. */
  lemma StepLeftOf(P: seq<Row>, Q: seq<Row>, i: nat, j: nat, fromGap: bool, a: int, b: int, x: real)
    requires Going(P, Q, i, j, fromGap) && i < |P| && j < |Q|
    requires Spans(P, a, x) && Spans(Q, b, x) && LeftOf(P, i, x) && LeftOf(Q, j, x)
    ensures
      var m := Step(P, Q, i, j, fromGap, true);
      HasKnot(Knots(m.out)) || (LeftOf(P, m.i, x) && LeftOf(Q, m.j, x))
  {
    NotPassed(P, i, a, x);
    NotPassed(Q, j, b, x);
    var m := Step(P, Q, i, j, fromGap, true);
    if Solid(P, i) && Solid(Q, j) && m.out != [] { assert IsKnot(Knots(m.out), 0); }
  }

  /** If both lines are drawn at an x right of everything passed, something will come out. */
  lemma {:induction false} KnotAhead(P: seq<Row>, Q: seq<Row>, i: nat, j: nat, fromGap: bool, a: int, b: int, x: real)
    requires Going(P, Q, i, j, fromGap)
    requires Spans(P, a, x) && Spans(Q, b, x) && LeftOf(P, i, x) && LeftOf(Q, j, x)
    ensures HasKnot(KnotsFrom(P, Q, i, j, fromGap))
    decreases |P| - i + |Q| - j
  {
    NotPassed(P, i, a, x);
    NotPassed(Q, j, b, x);
    var m := Step(P, Q, i, j, fromGap, true);
    KnotsUnfold(P, Q, i, j, fromGap);
    HasKnotConcat(Knots(m.out), KnotsFrom(P, Q, m.i, m.j, m.fromGap));
    if !HasKnot(Knots(m.out)) {
      StepLeftOf(P, Q, i, j, fromGap, a, b, x);
      StepGoing(P, Q, i, j, fromGap);
      KnotAhead(P, Q, m.i, m.j, m.fromGap, a, b, x);
    }
  }

  // ---- when a point comes out behind a gap ----

  /** A gap comes out and a point after it. */
  ghost predicate GapThenKnot(ks: seq<Knot>) {
    exists g, k :: 0 <= g < k && g < |ks| && ks[g].Break? && IsKnot(ks, k)
  }

  lemma GapThenKnotConcat(out: seq<Knot>, rest: seq<Knot>)
    requires |out| <= 1
    ensures GapThenKnot(out + rest) <==> GapThenKnot(rest) || (out == [Break] && HasKnot(rest))
  {
    var ks := out + rest;
    if g, k :| 0 <= g < k && g < |rest| && rest[g].Break? && IsKnot(rest, k) {
      assert ks[|out| + g].Break? && IsKnot(ks, |out| + k);
    }
    if out == [Break] && HasKnot(rest) {
      var k :| IsKnot(rest, k);
      assert ks[0].Break? && IsKnot(ks, 1 + k);
    }
    if g, k :| 0 <= g < k && g < |ks| && ks[g].Break? && IsKnot(ks, k) {
      assert IsKnot(rest, k - |out|);
      if g >= |out| { assert rest[g - |out|].Break?; }
    }
  }

  /** A point comes out behind a gap only if both lines are drawn somewhere behind a gap of one of them. */
  lemma {:induction false} OnlyThen(P: seq<Row>, Q: seq<Row>, i: nat, j: nat, fromGap: bool)
    requires Going(P, Q, i, j, fromGap) && GapThenKnot(KnotsFrom(P, Q, i, j, fromGap))
    ensures GapThenBoth(P, Q)
    decreases |P| - i + |Q| - j
  {
    NotOver(P, Q, i, j, fromGap);
    var m := Step(P, Q, i, j, fromGap, true);
    var out, rest := Knots(m.out), KnotsFrom(P, Q, m.i, m.j, m.fromGap);
    KnotsUnfold(P, Q, i, j, fromGap);
    GapThenKnotConcat(out, rest);
    StepGoing(P, Q, i, j, fromGap);
    if GapThenKnot(rest) {
      OnlyThen(P, Q, m.i, m.j, m.fromGap);
    } else {
      var a, b, x := KnotsOnBoth(P, Q, m.i, m.j, m.fromGap);
      BreakIsGap(P, Q, i, j, fromGap);
      if HoleAt(P, i) { BehindGap(P, Q, i, a, b, x); } else { BehindGap(Q, P, j, b, a, x); }
    }
  }

  lemma BehindGap(P: seq<Row>, Q: seq<Row>, g: nat, a: int, b: int, x: real)
    requires Wide(P) && Wide(Q) && HoleAt(P, g) && g <= a && Spans(P, a, x) && Spans(Q, b, x)
    ensures BothBehindGap(P, Q)
  {
    assert HoleAt(P, g) && DrawnFrom(P, g + 1, x) && DrawnFrom(Q, 0, x);
  }

  lemma BreakIsGap(P: seq<Row>, Q: seq<Row>, i: nat, j: nat, fromGap: bool)
    requires Wide(P) && Wide(Q) && i < |P| && j <= |Q|
    ensures
      var m := Step(P, Q, i, j, fromGap, true);
      && (HoleAt(P, i) ==> m.i == i + 1 && m.j == j && Knots(m.out) == [Break])
      && (!HoleAt(P, i) && HoleAt(Q, j) ==> m.i == i && m.j == j + 1 && Knots(m.out) == [Break])
      && (!HoleAt(P, i) && !HoleAt(Q, j) ==> Knots(m.out) != [Break])
  {
    var m := Step(P, Q, i, j, fromGap, true);
    if m.out != [] { assert Knots(m.out) == [KnotOf(m.out[0])]; }
  }

  /** Up to a gap of the upper line nothing of an x drawn behind it is passed, and then a point comes out. */
  lemma {:induction false} ThenBehindUpper(P: seq<Row>, Q: seq<Row>, i: nat, j: nat, fromGap: bool, g: nat, a: int,
                                           b: int, x: real)
    requires Going(P, Q, i, j, fromGap) && RisesAcrossGaps(P) && i <= g && HoleAt(P, g) && g < a
    requires Spans(P, a, x) && Spans(Q, b, x) && LeftOf(Q, j, x)
    ensures GapThenKnot(KnotsFrom(P, Q, i, j, fromGap))
    decreases |P| - i + |Q| - j
  {
    var m := Step(P, Q, i, j, fromGap, true);
    KnotsUnfold(P, Q, i, j, fromGap);
    GapThenKnotConcat(Knots(m.out), KnotsFrom(P, Q, m.i, m.j, m.fromGap));
    StepGoing(P, Q, i, j, fromGap);
    BreakIsGap(P, Q, i, j, fromGap);
    LeftOfGap(P, g, a, x);
    if i == g {
      KnotAhead(P, Q, m.i, m.j, m.fromGap, a, b, x);
    } else {
      PassedLeft(P, Q, i, j, fromGap, x);
      ThenBehindUpper(P, Q, m.i, m.j, m.fromGap, g, a, b, x);
    }
  }

  /** What a round passes lies left of x if the other cursor's point does. */
  lemma PassedLeft(P: seq<Row>, Q: seq<Row>, i: nat, j: nat, fromGap: bool, x: real)
    requires Wide(P) && Wide(Q) && i < |P| && j <= |Q|
    ensures
      var m := Step(P, Q, i, j, fromGap, true);
      && (LeftOf(Q, j, x) && (Solid(P, i) ==> X(P[i]) < x) ==> LeftOf(Q, m.j, x))
      && (LeftOf(P, i, x) && j < |Q| && (Solid(Q, j) ==> X(Q[j]) < x) ==> LeftOf(P, m.i, x))
  {
  }

  lemma LeftOfGap(rows: seq<Row>, g: nat, a: int, x: real)
    requires Wide(rows) && RisesAcrossGaps(rows) && HoleAt(rows, g) && g < a && Spans(rows, a, x)
    ensures LeftOf(rows, g + 1, x)
  {
  }

  lemma {:induction false} ThenBehindLower(P: seq<Row>, Q: seq<Row>, i: nat, j: nat, fromGap: bool, g: nat, a: int,
                                           b: int, x: real)
    requires Going(P, Q, i, j, fromGap) && RisesAcrossGaps(Q) && j <= g && HoleAt(Q, g) && g < b
    requires Spans(P, a, x) && Spans(Q, b, x) && LeftOf(P, i, x)
    ensures GapThenKnot(KnotsFrom(P, Q, i, j, fromGap))
    decreases |P| - i + |Q| - j
  {
    NotPassed(P, i, a, x);
    var m := Step(P, Q, i, j, fromGap, true);
    KnotsUnfold(P, Q, i, j, fromGap);
    GapThenKnotConcat(Knots(m.out), KnotsFrom(P, Q, m.i, m.j, m.fromGap));
    StepGoing(P, Q, i, j, fromGap);
    BreakIsGap(P, Q, i, j, fromGap);
    LeftOfGap(Q, g, b, x);
    if j == g && !HoleAt(P, i) {
      KnotAhead(P, Q, m.i, m.j, m.fromGap, a, b, x);
    } else {
      PassedLeft(P, Q, i, j, fromGap, x);
      ThenBehindLower(P, Q, m.i, m.j, m.fromGap, g, a, b, x);
    }
  }

  /** A point comes out behind a gap exactly if both lines are drawn somewhere behind a gap of one of them. */
  lemma GapThenKnotExactly(P: seq<Row>, Q: seq<Row>)
    requires Wide(P) && Wide(Q) && Sorted(P) && Sorted(Q) && RisesAcrossGaps(P) && RisesAcrossGaps(Q)
    ensures GapThenKnot(Knots(Merged(P, Q, true))) <==> GapThenBoth(P, Q)
  {
    assert Going(P, Q, 0, 0, true);
    if GapThenKnot(Knots(Merged(P, Q, true))) { OnlyThen(P, Q, 0, 0, true); }
    if g, x :| HoleAt(P, g) && DrawnFrom(P, g + 1, x) && DrawnFrom(Q, 0, x) {
      var a :| g + 1 <= a && Spans(P, a, x);
      var b :| 0 <= b && Spans(Q, b, x);
      ThenBehindUpper(P, Q, 0, 0, true, g, a, b, x);
    }
    if g, x :| HoleAt(Q, g) && DrawnFrom(Q, g + 1, x) && DrawnFrom(P, 0, x) {
      var b :| g + 1 <= b && Spans(Q, b, x);
      var a :| 0 <= a && Spans(P, a, x);
      ThenBehindLower(P, Q, 0, 0, true, g, a, b, x);
    }
  }

  // ---- what is written ----

  lemma {:induction false} MergeComplete(P: seq<Row>, Q: seq<Row>, i: nat, j: nat, fromGap: bool, ps: nat)
    requires ps >= 2 && Shaped(P, ps) && Complete(P) && Wide(Q) && i <= |P| && j <= |Q|
    ensures forall e :: e in Emissions(P, Q, i, j, fromGap, true) ==> IsComplete(e)
    decreases |P| - i + |Q| - j
  {
    if i < |P| {
      var m := Step(P, Q, i, j, fromGap, true);
      StepComplete(P, Q, i, j, fromGap, ps);
      MergeComplete(P, Q, m.i, m.j, m.fromGap, ps);
    }
  }

  /** A row that is raised is a point, and points have heights and gaps have none. */
  ghost predicate IsComplete(e: Emission) {
    |e.base| >= 2 && (IsGap(e.base) <==> e.base[1].Null?) && (e.lifted <==> !IsGap(e.base))
  }

  lemma StepComplete(P: seq<Row>, Q: seq<Row>, i: nat, j: nat, fromGap: bool, ps: nat)
    requires ps >= 2 && Shaped(P, ps) && Complete(P) && Wide(Q) && i < |P| && j <= |Q|
    ensures forall e :: e in Step(P, Q, i, j, fromGap, true).out ==> IsComplete(e)
  {
  }

  /** The rows are gaps where there is no knot. */
  ghost predicate SameGaps(R: seq<Row>, ks: seq<Knot>)
    requires Wide(R)
  {
    |R| == |ks| && forall k :: 0 <= k < |R| ==> (IsGap(R[k]) <==> ks[k].Break?)
  }

  lemma ResumesIff(R: seq<Row>, ks: seq<Knot>)
    requires Wide(R) && SameGaps(R, ks)
    ensures Resumes(R) <==> GapThenKnot(ks)
  {
    if Resumes(R) {
      var k: nat :| FollowsGap(R, k);
      assert ks[k - 1].Break? && IsKnot(ks, k);
    }
    if g, k :| 0 <= g < k && g < |ks| && ks[g].Break? && IsKnot(ks, k) { FirstAfter(R, g, k); }
  }

  lemma {:induction false} FirstAfter(R: seq<Row>, g: nat, k: nat)
    requires Wide(R) && g < k < |R| && IsGap(R[g]) && !IsGap(R[k])
    ensures Resumes(R)
    decreases k
  {
    if IsGap(R[k - 1]) { assert FollowsGap(R, k); } else { FirstAfter(R, g, k - 1); }
  }

  /** The rows that either plug-in writes before the rule are complete and have their gaps where the merge has. */
  lemma WrittenRows(P: seq<Row>, Q: seq<Row>, withBottom: bool, ps: nat)
    requires ps >= 2 && (withBottom ==> ps > 2) && Shaped(P, ps) && Complete(P) && Wide(Q)
    ensures
      var ks := Knots(Merged(P, Q, true));
      var S, F := StackRows(P, Q, true, withBottom, ps), FillRows(P, Q, true, withBottom, ps);
      Complete(S) && SameGaps(S, ks) && Complete(F) && SameGaps(F, ks)
  {
    var es := Merged(P, Q, true);
    MergeComplete(P, Q, 0, 0, true, ps);
    EmissionsHaveShape(P, Q, 0, 0, true, true, ps);
    forall k | 0 <= k < |es| ensures IsComplete(es[k]) {
      assert es[k] in es;
    }
  }

  /** Main result: with line steps either plug-in writes a point that has an x and no height exactly if, behind a gap
      of one of the two lines, there is an x where both are drawn. */
  lemma HollowSteps(P: seq<Row>, Q: seq<Row>, withBottom: bool, ps: nat)
    requires ps >= 2 && (withBottom ==> ps > 2) && Shaped(P, ps) && Complete(P) && Wide(Q)
    requires Sorted(P) && Sorted(Q) && RisesAcrossGaps(P) && RisesAcrossGaps(Q)
    ensures HasHollow(Stepped(StackRows(P, Q, true, withBottom, ps), true)) <==> GapThenBoth(P, Q)
    ensures HasHollow(Stepped(FillRows(P, Q, true, withBottom, ps), true)) <==> GapThenBoth(P, Q)
  {
    var ks := Knots(Merged(P, Q, true));
    var S, F := StackRows(P, Q, true, withBottom, ps), FillRows(P, Q, true, withBottom, ps);
    WrittenRows(P, Q, withBottom, ps);
    HollowBehindGap(S);
    HollowBehindGap(F);
    ResumesIff(S, ks);
    ResumesIff(F, ks);
    GapThenKnotExactly(P, Q);
  }

  const BROKEN: seq<Row> := [[Num(0.0), Num(1.0)], [Null, Null], [Num(2.0), Num(3.0)]]
  const WHOLE: seq<Row> := [[Num(0.0), Num(1.0)], [Num(2.0), Num(1.0)]]

  /** An instance: a line with a gap, stacked on a line without one. */
  lemma HollowInstance()
    ensures Shaped(BROKEN, 2) && Wide(WHOLE)
    ensures HasHollow(Stepped(StackRows(BROKEN, WHOLE, true, false, 2), true))
  {
    BrokenRows();
    BehindGap(BROKEN, WHOLE, 1, 2, 1, 2.0);
    HollowSteps(BROKEN, WHOLE, false, 2);
  }

  lemma BrokenRows()
    ensures Shaped(BROKEN, 2) && Shaped(WHOLE, 2) && Complete(BROKEN) && Sorted(BROKEN) && Sorted(WHOLE)
    ensures RisesAcrossGaps(BROKEN) && RisesAcrossGaps(WHOLE)
    ensures HoleAt(BROKEN, 1) && Spans(BROKEN, 2, 2.0) && Spans(WHOLE, 1, 2.0)
  {
    assert forall k :: Solid(BROKEN, k) <==> k == 0 || k == 2;
  }
}
