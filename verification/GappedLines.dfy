/** The merge of two lines with gaps. */
module GappedLines {
  import opened Polyline
  import opened Merge

  predicate Solid(rows: seq<Row>, k: int)
    requires Wide(rows)
  {
    0 <= k < |rows| && !IsGap(rows[k])
  }

  /** A single-valued line with gaps. */
  ghost predicate Rising(rows: seq<Row>) {
    Wide(rows) && forall a, b :: a < b && Solid(rows, a) && Solid(rows, b) ==> X(rows[a]) < X(rows[b])
  }

  /** v is the height at x on the segment from row k to the next. */
  predicate OnPiece(rows: seq<Row>, k: int, x: real, v: real)
    requires Wide(rows)
  {
    Solid(rows, k) && Solid(rows, k + 1) && X(rows[k]) <= x <= X(rows[k + 1])
    && OnChord(X(rows[k]), Y(rows[k]), X(rows[k + 1]), Y(rows[k + 1]), x, v)
  }

  predicate AtRow(rows: seq<Row>, k: int, x: real, v: real)
    requires Wide(rows)
  {
    Solid(rows, k) && X(rows[k]) == x && Y(rows[k]) == v
  }

  /** (x, v) is a point of the curve: a row, or a point between two neighbouring rows without a gap. */
  ghost predicate Shows(rows: seq<Row>, x: real, v: real)
    requires Wide(rows)
  {
    exists k :: AtRow(rows, k, x, v) || OnPiece(rows, k, x, v)
  }

  /** A row that carries two heights, or a gap. */
  datatype Knot = Break | Knot(x: real, u: real, v: real)

  predicate IsKnot(ks: seq<Knot>, k: int) {
    0 <= k < |ks| && ks[k].Knot?
  }

  /** u and v are the heights at x between two knots. */
  predicate BetweenKnots(a: Knot, b: Knot, x: real, u: real, v: real)
    requires a.Knot? && b.Knot?
  {
    a.x <= x <= b.x && OnChord(a.x, a.u, b.x, b.u, x, u) && OnChord(a.x, a.v, b.x, b.v, x, v)
  }

  predicate PairAt(ks: seq<Knot>, k: int, x: real, u: real, v: real) {
    IsKnot(ks, k) && (ks[k] == Knot(x, u, v) || (IsKnot(ks, k + 1) && BetweenKnots(ks[k], ks[k + 1], x, u, v)))
  }

  /** The two curves through the knots have the heights u and v at x. */
  ghost predicate ShowsPair(ks: seq<Knot>, x: real, u: real, v: real) {
    exists k :: PairAt(ks, k, x, u, v)
  }

  /** What an emission stands on: the height of the upper line and that of the lower one. */
  function KnotOf(e: Emission): Knot {
    if e.lifted && IsPoint(e.base) then Knot(X(e.base), Y(e.base), e.bottom) else Break
  }

  function Knots(es: seq<Emission>): (ks: seq<Knot>)
    ensures |ks| == |es|
  {
    seq(|es|, k requires 0 <= k < |es| => KnotOf(es[k]))
  }

  // ---- chords ----

  lemma ChordUnique(a: real, p: real, b: real, r: real, x: real, v: real, w: real)
    requires a < b && OnChord(a, p, b, r, x, v)
    ensures OnChord(a, p, b, r, x, w) <==> v == w
  {
    ChordIsLerp(a, p, b, r, x, v);
    ChordIsLerp(a, p, b, r, x, w);
  }

  lemma ChordEnds(a: real, p: real, b: real, r: real)
    ensures OnChord(a, p, b, r, a, p) && OnChord(a, p, b, r, b, r)
  {
  }

  /** Two points of a chord span the same chord. */
  lemma ChordRebase(a: real, p: real, b: real, r: real, c: real, s: real, d: real, t: real, x: real, v: real)
    requires a < b && c < d && OnChord(a, p, b, r, c, s) && OnChord(a, p, b, r, d, t)
    ensures OnChord(c, s, d, t, x, v) <==> OnChord(a, p, b, r, x, v)
  {
    ChordIsLerp(a, p, b, r, c, s);
    ChordIsLerp(a, p, b, r, d, t);
    ChordIsLerp(a, p, b, r, x, v);
    ChordIsLerp(c, s, d, t, x, v);
    LerpRebase(a, p, b, r, c, d, x);
  }

  // ---- one line, at a cursor ----

  /** The cursor stands at row k: what it has passed is at or left of `lo`, the rest is right of it. */
  ghost predicate Parted(rows: seq<Row>, k: nat, lo: real)
    requires Wide(rows)
  {
    k <= |rows| && forall a :: Solid(rows, a) ==> if a < k then X(rows[a]) <= lo else lo < X(rows[a])
  }

  /** u is the height at `lo` of the line on its way from the row passed last. */
  predicate Tip(rows: seq<Row>, k: nat, lo: real, u: real)
    requires Wide(rows)
  {
    Solid(rows, k - 1)
    && (Solid(rows, k) ==> OnChord(X(rows[k - 1]), Y(rows[k - 1]), X(rows[k]), Y(rows[k]), lo, u))
  }

  /** u is the height at x of the line, on its way to the row under the cursor or at it. */
  predicate Meets(rows: seq<Row>, k: nat, x: real, u: real)
    requires Wide(rows)
  {
    AtRow(rows, k, x, u) || (Solid(rows, k) && x < X(rows[k]) && OnPiece(rows, k - 1, x, u))
  }

  lemma NothingPast(rows: seq<Row>, lo: real, x: real, u: real)
    requires Rising(rows) && Parted(rows, |rows|, lo) && lo < x
    ensures !Shows(rows, x, u)
  {
  }

  /** Between the cursor's `lo` and its row, only the segment between them shows. */
  lemma ShowsHere(rows: seq<Row>, k: nat, lo: real, x: real, u: real)
    requires Rising(rows) && Parted(rows, k, lo) && Solid(rows, k) && lo < x <= X(rows[k])
    ensures Shows(rows, x, u) <==> AtRow(rows, k, x, u) || OnPiece(rows, k - 1, x, u)
  {
    forall a ensures AtRow(rows, a, x, u) ==> a == k
             ensures OnPiece(rows, a, x, u) ==> a == k - 1 || (a == k && x == X(rows[k]))
    {
    }
    if OnPiece(rows, k, x, u) && x == X(rows[k]) { StartOfPiece(rows, k, x, u); }
  }

  lemma StartOfPiece(rows: seq<Row>, k: nat, x: real, u: real)
    requires Rising(rows) && OnPiece(rows, k, x, u) && x == X(rows[k])
    ensures u == Y(rows[k])
  {
    var p, r := rows[k], rows[k + 1];
    ChordEnds(X(p), Y(p), X(r), Y(r));
    ChordUnique(X(p), Y(p), X(r), Y(r), x, Y(p), u);
  }

  /** Where the line is met it has one height. */
  lemma ShowsMet(rows: seq<Row>, k: nat, lo: real, x: real, u: real, w: real)
    requires Rising(rows) && Parted(rows, k, lo) && Meets(rows, k, x, u) && lo < x
    ensures Shows(rows, x, w) <==> w == u
  {
    ShowsHere(rows, k, lo, x, w);
    if Solid(rows, k - 1) {
      var p, r := rows[k - 1], rows[k];
      ChordEnds(X(p), Y(p), X(r), Y(r));
      ChordUnique(X(p), Y(p), X(r), Y(r), x, u, w);
    }
  }

  /** From a tip to where it is met next, the line is the chord between the two. */
  lemma ShowsUnderway(rows: seq<Row>, k: nat, lo: real, s: real, x1: real, t: real, x: real, u: real)
    requires Rising(rows) && Parted(rows, k, lo) && Tip(rows, k, lo, s) && Meets(rows, k, x1, t) && lo < x < x1
    ensures Shows(rows, x, u) <==> OnChord(lo, s, x1, t, x, u)
  {
    ShowsHere(rows, k, lo, x, u);
    var p, r := rows[k - 1], rows[k];
    ChordEnds(X(p), Y(p), X(r), Y(r));
    ChordRebase(X(p), Y(p), X(r), Y(r), lo, s, x1, t, x, u);
  }

  // ---- knots in a row ----

  /** All knots lie right of `lo`, each right of those before it. */
  ghost predicate Ahead(ks: seq<Knot>, lo: real) {
    && (forall k :: IsKnot(ks, k) ==> lo < ks[k].x)
    && (forall a, b :: a < b && IsKnot(ks, a) && IsKnot(ks, b) ==> ks[a].x < ks[b].x)
  }

  lemma AheadPush(front: seq<Knot>, rest: seq<Knot>, lo: real, next: real)
    requires |front| <= 1 && lo <= next && Ahead(rest, next)
    requires IsKnot(front, 0) ==> lo < next && front[0].x == next
    ensures Ahead(front + rest, lo)
  {
    var ks := front + rest;
    forall k | IsKnot(ks, k) ensures k >= |front| ==> IsKnot(rest, k - |front|) && ks[k] == rest[k - |front|] {
    }
  }

  lemma PairAtTail(front: seq<Knot>, rest: seq<Knot>, k: int, x: real, u: real, v: real)
    requires k >= |front|
    ensures PairAt(front + rest, k, x, u, v) <==> PairAt(rest, k - |front|, x, u, v)
  {
  }

  /** Beyond a first knot, only what follows it shows. */
  lemma ShowsBeyond(front: seq<Knot>, rest: seq<Knot>, lo: real, x: real, u: real, v: real)
    requires |front| <= 1 && lo < x && (IsKnot(front, 0) ==> front[0].x <= lo)
    requires IsKnot(front, 0) && IsKnot(rest, 0) ==> rest[0].x < x
    ensures ShowsPair(front + rest, x, u, v) <==> ShowsPair(rest, x, u, v)
  {
    var ks := front + rest;
    if ShowsPair(rest, x, u, v) {
      var k :| PairAt(rest, k, x, u, v);
      PairAtTail(front, rest, k + |front|, x, u, v);
    }
    if ShowsPair(ks, x, u, v) {
      var k :| PairAt(ks, k, x, u, v);
      if k >= |front| { PairAtTail(front, rest, k, x, u, v); }
    }
  }

  lemma NothingBefore(ks: seq<Knot>, lo: real, x: real, u: real, v: real)
    requires Ahead(ks, lo) && x <= lo
    ensures !ShowsPair(ks, x, u, v)
  {
  }

  /** Up to the first knot of `ks`, only the way to it from the knot before shows. */
  lemma ShowsUpTo(front: seq<Knot>, e: Knot, rest: seq<Knot>, lo: real, x: real, u: real, v: real)
    requires |front| <= 1 && lo < x && (IsKnot(front, 0) ==> front[0].x <= lo)
    requires e.Knot? && x <= e.x && Ahead(rest, e.x)
    ensures ShowsPair(front + ([e] + rest), x, u, v)
       <==> e == Knot(x, u, v) || (IsKnot(front, 0) && BetweenKnots(front[0], e, x, u, v))
  {
    var ks := front + ([e] + rest);
    forall k | PairAt(ks, k, x, u, v) ensures k <= |front| && (k == |front| ==> e.x == x) {
      if k > |front| {
        PairAtTail(front, [e] + rest, k, x, u, v);
        PairAtTail([e], rest, k - |front|, x, u, v);
        NothingBefore(rest, e.x, x, u, v);
      }
    }
    if IsKnot(rest, 0) && e.x == x && BetweenKnots(e, rest[0], x, u, v) { StartOfWay(e, rest[0], x, u, v); }
    assert ks[|front|] == e && (|front| == 1 ==> ks[0] == front[0]);
    if e == Knot(x, u, v) { assert PairAt(ks, |front|, x, u, v); }
    if IsKnot(front, 0) && BetweenKnots(front[0], e, x, u, v) { assert PairAt(ks, 0, x, u, v); }
  }

  lemma StartOfWay(a: Knot, b: Knot, x: real, u: real, v: real)
    requires a.Knot? && b.Knot? && a.x < b.x && x == a.x && BetweenKnots(a, b, x, u, v)
    ensures a == Knot(x, u, v)
  {
    ChordEnds(a.x, a.u, b.x, b.u);
    ChordEnds(a.x, a.v, b.x, b.v);
    ChordUnique(a.x, a.u, b.x, b.u, x, a.u, u);
    ChordUnique(a.x, a.v, b.x, b.v, x, a.v, v);
  }

  // ---- one round ----

  /** Where the cursors have got to after the round. */
  ghost function NextX(P: seq<Row>, Q: seq<Row>, i: nat, j: nat, lo: real): real
    requires Wide(P) && Wide(Q)
  {
    if !Solid(P, i) then lo
    else if j == |Q| then X(P[i])
    else if !Solid(Q, j) then lo
    else if X(P[i]) < X(Q[j]) then X(P[i]) else X(Q[j])
  }

  /** Before a round: what came out last ends where both lines have got to, if both are underway, and is a break
      otherwise. */
  ghost predicate Underway(P: seq<Row>, Q: seq<Row>, i: nat, j: nat, fromGap: bool, last: seq<Knot>, lo: real)
    requires Wide(P) && Wide(Q)
  {
    && Parted(P, i, lo) && Parted(Q, j, lo) && fromGap == !Solid(Q, j - 1)
    && |last| <= 1 && (IsKnot(last, 0) ==> last[0].x <= lo)
    && (j < |Q| ==>
          if Solid(P, i - 1) && Solid(Q, j - 1) then
            IsKnot(last, 0) && last[0].x == lo && Tip(P, i, lo, last[0].u) && Tip(Q, j, lo, last[0].v)
          else !IsKnot(last, 0))
  }

  lemma StepParted(P: seq<Row>, Q: seq<Row>, i: nat, j: nat, fromGap: bool, lo: real)
    requires Rising(P) && Rising(Q) && i < |P| && Parted(P, i, lo) && Parted(Q, j, lo)
    ensures
      var m, next := Step(P, Q, i, j, fromGap, true), NextX(P, Q, i, j, lo);
      && lo <= next && Parted(P, m.i, next) && Parted(Q, m.j, next)
      && (IsKnot(Knots(m.out), 0) ==> lo < next && KnotOf(m.out[0]).x == next && Solid(P, i) && Solid(Q, j))
  {
  }

  /** A knot that comes out is on both lines. */
  lemma StepMeets(P: seq<Row>, Q: seq<Row>, i: nat, j: nat, fromGap: bool, lo: real)
    requires Rising(P) && Rising(Q) && i < |P| && Parted(P, i, lo) && Parted(Q, j, lo) && fromGap == !Solid(Q, j - 1)
    requires Solid(P, i) && Solid(Q, j)
    ensures
      var m, next := Step(P, Q, i, j, fromGap, true), NextX(P, Q, i, j, lo);
      if m.out == [] then
        && !(Solid(P, i - 1) && Solid(Q, j - 1))
        && (Solid(P, i - 1) ==> next < X(Q[j])) && (Solid(Q, j - 1) ==> next < X(P[i]))
      else
        var e := KnotOf(m.out[0]);
        && e.Knot? && Meets(P, i, next, e.u) && Meets(Q, j, next, e.v)
        && (Solid(P, m.i - 1) && Tip(P, m.i, next, e.u)) && (Solid(Q, m.j - 1) && Tip(Q, m.j, next, e.v))
  {
  }

  function LastOf(last: seq<Knot>, out: seq<Knot>): seq<Knot> {
    if out == [] then last else out
  }

  lemma StepUnderway(P: seq<Row>, Q: seq<Row>, i: nat, j: nat, fromGap: bool, last: seq<Knot>, lo: real)
    requires Rising(P) && Rising(Q) && i < |P| && Underway(P, Q, i, j, fromGap, last, lo)
    ensures
      var m := Step(P, Q, i, j, fromGap, true);
      Underway(P, Q, m.i, m.j, m.fromGap, LastOf(last, Knots(m.out)), NextX(P, Q, i, j, lo))
  {
    StepParted(P, Q, i, j, fromGap, lo);
    if Solid(P, i) && Solid(Q, j) { StepMeets(P, Q, i, j, fromGap, lo); }
  }

  lemma {:induction false} RestAhead(P: seq<Row>, Q: seq<Row>, i: nat, j: nat, fromGap: bool, lo: real)
    requires Rising(P) && Rising(Q) && Parted(P, i, lo) && Parted(Q, j, lo)
    ensures Ahead(Knots(Emissions(P, Q, i, j, fromGap, true)), lo)
    decreases |P| - i + |Q| - j
  {
    if i < |P| {
      var m, next := Step(P, Q, i, j, fromGap, true), NextX(P, Q, i, j, lo);
      StepParted(P, Q, i, j, fromGap, lo);
      RestAhead(P, Q, m.i, m.j, m.fromGap, next);
      KnotsUnfold(P, Q, i, j, fromGap);
      AheadPush(Knots(m.out), Knots(Emissions(P, Q, m.i, m.j, m.fromGap, true)), lo, next);
    }
  }

  lemma KnotsUnfold(P: seq<Row>, Q: seq<Row>, i: nat, j: nat, fromGap: bool)
    requires Wide(P) && Wide(Q) && i < |P| && j <= |Q|
    ensures
      var m := Step(P, Q, i, j, fromGap, true);
      Knots(Emissions(P, Q, i, j, fromGap, true)) == Knots(m.out) + Knots(Emissions(P, Q, m.i, m.j, m.fromGap, true))
  {
    var m := Step(P, Q, i, j, fromGap, true);
    KnotsConcat(m.out, Emissions(P, Q, m.i, m.j, m.fromGap, true));
  }

  lemma KnotsConcat(a: seq<Emission>, b: seq<Emission>)
    ensures Knots(a + b) == Knots(a) + Knots(b)
  {
  }

  /** Past the end of the lower line only gaps come out. */
  lemma {:induction false} OnlyBreaks(P: seq<Row>, Q: seq<Row>, i: nat, fromGap: bool)
    requires Wide(P) && Wide(Q) && i <= |P|
    ensures forall k :: !IsKnot(Knots(Emissions(P, Q, i, |Q|, fromGap, true)), k)
    decreases |P| - i
  {
    if i < |P| {
      var m := Step(P, Q, i, |Q|, fromGap, true);
      var out, rest := Knots(m.out), Knots(Emissions(P, Q, i + 1, |Q|, fromGap, true));
      assert m.i == i + 1 && m.j == |Q| && m.fromGap == fromGap && !IsKnot(out, 0);
      OnlyBreaks(P, Q, i + 1, fromGap);
      KnotsUnfold(P, Q, i, |Q|, fromGap);
      forall k ensures !IsKnot(out + rest, k) {
        assert !IsKnot(rest, k - |out|);
      }
    }
  }

  /** From where both lines have got to up to where the round gets, the knots show what both lines show. */
  lemma RoundShows(P: seq<Row>, Q: seq<Row>, i: nat, j: nat, fromGap: bool, last: seq<Knot>, lo: real,
                   rest: seq<Knot>, x: real, u: real, v: real)
    requires Rising(P) && Rising(Q) && Underway(P, Q, i, j, fromGap, last, lo) && Solid(P, i) && Solid(Q, j)
    requires Ahead(rest, NextX(P, Q, i, j, lo)) && lo < x <= NextX(P, Q, i, j, lo)
    ensures
      var out := Knots(Step(P, Q, i, j, fromGap, true).out);
      ShowsPair(last + (out + rest), x, u, v) <==> Shows(P, x, u) && Shows(Q, x, v)
  {
    var m, next := Step(P, Q, i, j, fromGap, true), NextX(P, Q, i, j, lo);
    StepMeets(P, Q, i, j, fromGap, lo);
    if m.out == [] {
      assert Knots(m.out) + rest == rest;
      NeitherShows(P, Q, i, j, fromGap, lo, x, u, v);
      ShowsBeyond(last, rest, lo, x, u, v);
      NothingBefore(rest, next, x, u, v);
    } else {
      var e := KnotOf(m.out[0]);
      assert Knots(m.out) == [e];
      ShowsUpTo(last, e, rest, lo, x, u, v);
      KnotShows(P, Q, i, j, fromGap, last, e, lo, next, x, u, v);
    }
  }

  lemma NeitherShows(P: seq<Row>, Q: seq<Row>, i: nat, j: nat, fromGap: bool, lo: real, x: real, u: real, v: real)
    requires Rising(P) && Rising(Q) && Parted(P, i, lo) && Parted(Q, j, lo) && fromGap == !Solid(Q, j - 1)
    requires Solid(P, i) && Solid(Q, j) && Step(P, Q, i, j, fromGap, true).out == []
    requires lo < x <= NextX(P, Q, i, j, lo)
    ensures !(Shows(P, x, u) && Shows(Q, x, v))
  {
    ShowsHere(P, i, lo, x, u);
    ShowsHere(Q, j, lo, x, v);
    StepMeets(P, Q, i, j, fromGap, lo);
  }

  lemma KnotShows(P: seq<Row>, Q: seq<Row>, i: nat, j: nat, fromGap: bool, last: seq<Knot>, e: Knot, lo: real,
                  next: real, x: real, u: real, v: real)
    requires Rising(P) && Rising(Q) && Underway(P, Q, i, j, fromGap, last, lo) && j < |Q|
    requires e.Knot? && e.x == next && Meets(P, i, next, e.u) && Meets(Q, j, next, e.v) && lo < x <= next
    ensures Shows(P, x, u) && Shows(Q, x, v)
       <==> e == Knot(x, u, v) || (IsKnot(last, 0) && BetweenKnots(last[0], e, x, u, v))
  {
    if x == next {
      ShowsMet(P, i, lo, x, e.u, u);
      ShowsMet(Q, j, lo, x, e.v, v);
      if IsKnot(last, 0) && BetweenKnots(last[0], e, x, u, v) { EndOfWay(last[0], e, x, u, v); }
    } else if IsKnot(last, 0) {
      ShowsUnderway(P, i, lo, last[0].u, next, e.u, x, u);
      ShowsUnderway(Q, j, lo, last[0].v, next, e.v, x, v);
    } else {
      ShowsHere(P, i, lo, x, u);
      ShowsHere(Q, j, lo, x, v);
    }
  }

  lemma EndOfWay(a: Knot, b: Knot, x: real, u: real, v: real)
    requires a.Knot? && b.Knot? && a.x < b.x && x == b.x && BetweenKnots(a, b, x, u, v)
    ensures b == Knot(x, u, v)
  {
    ChordEnds(a.x, a.u, b.x, b.u);
    ChordEnds(a.x, a.v, b.x, b.v);
    ChordUnique(a.x, a.u, b.x, b.u, x, b.u, u);
    ChordUnique(a.x, a.v, b.x, b.v, x, b.v, v);
  }

  // ---- the whole merge ----

  /** From any point of the merge on, the knots show at every x still to come exactly what both lines show. */
  lemma {:induction false} PairsFrom(P: seq<Row>, Q: seq<Row>, i: nat, j: nat, fromGap: bool, last: seq<Knot>,
                                     lo: real, x: real, u: real, v: real)
    requires Rising(P) && Rising(Q) && Underway(P, Q, i, j, fromGap, last, lo) && lo < x
    ensures
      var ks := last + Knots(Emissions(P, Q, i, j, fromGap, true));
      ShowsPair(ks, x, u, v) <==> Shows(P, x, u) && Shows(Q, x, v)
    decreases |P| - i + |Q| - j
  {
    if i == |P| {
      NothingPast(P, lo, x, u);
      ShowsBeyond(last, [], lo, x, u, v);
    } else if j == |Q| {
      NothingPast(Q, lo, x, v);
      OnlyBreaks(P, Q, i, fromGap);
      ShowsBeyond(last, Knots(Emissions(P, Q, i, j, fromGap, true)), lo, x, u, v);
    } else {
      var m, next := Step(P, Q, i, j, fromGap, true), NextX(P, Q, i, j, lo);
      var out, rest := Knots(m.out), Knots(Emissions(P, Q, m.i, m.j, m.fromGap, true));
      KnotsUnfold(P, Q, i, j, fromGap);
      StepParted(P, Q, i, j, fromGap, lo);
      if next < x {
        StepUnderway(P, Q, i, j, fromGap, last, lo);
        PairsFrom(P, Q, m.i, m.j, m.fromGap, LastOf(last, out), next, x, u, v);
        PairsPast(last, out, rest, lo, next, x, u, v);
      } else {
        RestAhead(P, Q, m.i, m.j, m.fromGap, next);
        RoundShows(P, Q, i, j, fromGap, last, lo, rest, x, u, v);
      }
    }
  }

  lemma PairsPast(last: seq<Knot>, out: seq<Knot>, rest: seq<Knot>, lo: real, next: real, x: real, u: real, v: real)
    requires |last| <= 1 && |out| <= 1 && lo <= next < x && (IsKnot(last, 0) ==> last[0].x <= lo)
    requires IsKnot(out, 0) ==> out[0].x == next
    ensures ShowsPair(last + (out + rest), x, u, v) <==> ShowsPair(LastOf(last, out) + rest, x, u, v)
  {
    if out == [] {
      assert out + rest == rest;
    } else {
      ShowsBeyond(last, out + rest, lo, x, u, v);
    }
  }

  /** Main result: whatever gaps two lines have, the merge shows the heights u and v at x exactly if the upper line has
      height u there and the lower one height v. */
  lemma MergedShowsBoth(P: seq<Row>, Q: seq<Row>, x: real, u: real, v: real)
    requires Rising(P) && Rising(Q)
    ensures ShowsPair(Knots(Merged(P, Q, true)), x, u, v) <==> Shows(P, x, u) && Shows(Q, x, v)
  {
    var lo := Below(P, Q, x);
    PairsFrom(P, Q, 0, 0, true, [], lo, x, u, v);
    assert [] + Knots(Merged(P, Q, true)) == Knots(Merged(P, Q, true));
  }

  /** Somewhere left of x and of every row. */
  ghost function Below(P: seq<Row>, Q: seq<Row>, x: real): (lo: real)
    requires Wide(P) && Wide(Q)
    ensures lo < x && Parted(P, 0, lo) && Parted(Q, 0, lo)
  {
    var low := if Lowest(P) < Lowest(Q) then Lowest(P) else Lowest(Q);
    (if low < x then low else x) - 1.0
  }

  // ---- what the plugins make of it ----

  /** On lines a row stands on a point of the series below exactly if it is not a gap. */
  ghost predicate Marked(es: seq<Emission>, ps: nat) {
    forall e :: e in es ==> |e.base| == ps && ps >= 2 && (e.lifted <==> !IsGap(e.base))
  }

  lemma StepMarks(P: seq<Row>, Q: seq<Row>, i: nat, j: nat, fromGap: bool, ps: nat)
    requires ps >= 2 && Shaped(P, ps) && Wide(Q) && i < |P| && j <= |Q|
    ensures Marked(Step(P, Q, i, j, fromGap, true).out, ps)
  {
  }

  lemma {:induction false} MergeMarks(P: seq<Row>, Q: seq<Row>, i: nat, j: nat, fromGap: bool, ps: nat)
    requires ps >= 2 && Shaped(P, ps) && Wide(Q) && i <= |P| && j <= |Q|
    ensures Marked(Emissions(P, Q, i, j, fromGap, true), ps)
    decreases |P| - i + |Q| - j
  {
    if i < |P| {
      var m := Step(P, Q, i, j, fromGap, true);
      StepMarks(P, Q, i, j, fromGap, ps);
      MergeMarks(P, Q, m.i, m.j, m.fromGap, ps);
    }
  }

  /** The rows stand where the knots are, at the sum of their heights, and are gaps where there is none. */
  ghost predicate SumsOf(R: seq<Row>, ks: seq<Knot>) {
    && Wide(R) && |R| == |ks|
    && forall k :: 0 <= k < |R| ==>
         if ks[k].Break? then IsGap(R[k]) else !IsGap(R[k]) && X(R[k]) == ks[k].x && Y(R[k]) == ks[k].u + ks[k].v
  }

  lemma LiftSums(es: seq<Emission>, withBottom: bool, ps: nat)
    requires ps >= 2 && (withBottom ==> ps > 2) && EmissionsShaped(es, ps) && Marked(es, ps)
    ensures SumsOf(LiftAll(es, withBottom, ps), Knots(es))
  {
    forall k | 0 <= k < |es| ensures es[k].lifted <==> !IsGap(es[k].base) {
      assert es[k] in es;
    }
  }

  lemma SumsRise(R: seq<Row>, ks: seq<Knot>, lo: real)
    requires SumsOf(R, ks) && Ahead(ks, lo)
    ensures Rising(R)
  {
    forall a, b | a < b && Solid(R, a) && Solid(R, b) ensures X(R[a]) < X(R[b]) {
      assert IsKnot(ks, a) && IsKnot(ks, b);
    }
  }

  /** Rows at the sums show sums of the two heights. */
  lemma PartsOf(R: seq<Row>, ks: seq<Knot>, lo: real, x: real, y: real) returns (u: real, v: real)
    requires SumsOf(R, ks) && Ahead(ks, lo) && Shows(R, x, y)
    ensures ShowsPair(ks, x, u, v) && y == u + v
  {
    var k :| AtRow(R, k, x, y) || OnPiece(R, k, x, y);
    assert IsKnot(ks, k);
    if AtRow(R, k, x, y) {
      u, v := ks[k].u, ks[k].v;
    } else {
      assert IsKnot(ks, k + 1);
      u, v := SumParts(ks[k], ks[k + 1], x, y);
    }
    assert PairAt(ks, k, x, u, v);
  }

  /** And they show every such sum. */
  lemma SumShows(R: seq<Row>, ks: seq<Knot>, x: real, u: real, v: real)
    requires SumsOf(R, ks) && ShowsPair(ks, x, u, v)
    ensures Shows(R, x, u + v)
  {
    var k :| PairAt(ks, k, x, u, v);
    if ks[k] == Knot(x, u, v) {
      assert AtRow(R, k, x, u + v);
    } else {
      var a, b := ks[k], ks[k + 1];
      ChordSum(a.x, a.u, a.v, a.u + a.v, b.x, b.u, b.v, b.u + b.v, x, u, v, u + v);
      assert OnPiece(R, k, x, u + v);
    }
  }

  /** A height on the chord of sums is a sum of heights. */
  lemma SumParts(a: Knot, b: Knot, x: real, y: real) returns (u: real, v: real)
    requires a.Knot? && b.Knot? && a.x < b.x && a.x <= x <= b.x && OnChord(a.x, a.u + a.v, b.x, b.u + b.v, x, y)
    ensures BetweenKnots(a, b, x, u, v) && y == u + v
  {
    u := Lerp(a.x, a.u, b.x, b.u, x);
    v := Lerp(a.x, a.v, b.x, b.v, x);
    ChordIsLerp(a.x, a.u, b.x, b.u, x, u);
    ChordIsLerp(a.x, a.v, b.x, b.v, x, v);
    ChordSum(a.x, a.u, a.v, a.u + a.v, b.x, b.u, b.v, b.u + b.v, x, u, v, u + v);
    ChordUnique(a.x, a.u + a.v, b.x, b.u + b.v, x, y, u + v);
  }

  /** y is the sum of a height of P at x and one of Q. */
  ghost predicate ShowsSum(P: seq<Row>, Q: seq<Row>, x: real, y: real)
    requires Wide(P) && Wide(Q)
  {
    exists u, v :: Shows(P, x, u) && Shows(Q, x, v) && y == u + v
  }

  /** Main result for stacking: the stacked line is drawn at (x, y) exactly if both lines are drawn at x and their
      heights there add up to y; where either has a gap there is nothing. And it is again fit to be stacked upon. */
  lemma StackShowsSum(P: seq<Row>, Q: seq<Row>, withBottom: bool, ps: nat, x: real, y: real)
    requires ps >= 2 && (withBottom ==> ps > 2) && Shaped(P, ps) && Rising(P) && Rising(Q)
    ensures
      var R := StackRows(P, Q, true, withBottom, ps);
      Rising(R) && (Shows(R, x, y) <==> ShowsSum(P, Q, x, y))
  {
    var R, ks, lo := StackRows(P, Q, true, withBottom, ps), Knots(Merged(P, Q, true)), Below(P, Q, x);
    StackSums(P, Q, withBottom, ps, lo);
    SumsRise(R, ks, lo);
    if Shows(R, x, y) { ShownIsSum(P, Q, R, ks, lo, x, y); }
    if ShowsSum(P, Q, x, y) { SumIsShown(P, Q, R, ks, x, y); }
  }

  lemma ShownIsSum(P: seq<Row>, Q: seq<Row>, R: seq<Row>, ks: seq<Knot>, lo: real, x: real, y: real)
    requires Rising(P) && Rising(Q) && ks == Knots(Merged(P, Q, true))
    requires SumsOf(R, ks) && Ahead(ks, lo) && Shows(R, x, y)
    ensures ShowsSum(P, Q, x, y)
  {
    var u, v := PartsOf(R, ks, lo, x, y);
    MergedShowsBoth(P, Q, x, u, v);
  }

  lemma SumIsShown(P: seq<Row>, Q: seq<Row>, R: seq<Row>, ks: seq<Knot>, x: real, y: real)
    requires Rising(P) && Rising(Q) && ks == Knots(Merged(P, Q, true)) && SumsOf(R, ks) && ShowsSum(P, Q, x, y)
    ensures Shows(R, x, y)
  {
    var u, v :| Shows(P, x, u) && Shows(Q, x, v) && y == u + v;
    MergedShowsBoth(P, Q, x, u, v);
    SumShows(R, ks, x, u, v);
  }

  lemma StackSums(P: seq<Row>, Q: seq<Row>, withBottom: bool, ps: nat, lo: real)
    requires ps >= 2 && (withBottom ==> ps > 2) && Shaped(P, ps) && Rising(P) && Rising(Q)
    requires Parted(P, 0, lo) && Parted(Q, 0, lo)
    ensures SumsOf(StackRows(P, Q, true, withBottom, ps), Knots(Merged(P, Q, true)))
    ensures Ahead(Knots(Merged(P, Q, true)), lo)
  {
    EmissionsHaveShape(P, Q, 0, 0, true, true, ps);
    MergeMarks(P, Q, 0, 0, true, ps);
    LiftSums(Merged(P, Q, true), withBottom, ps);
    RestAhead(P, Q, 0, 0, true, lo);
  }

  /** Filled rows as knots: the height of the line and the bottom recorded for it. */
  function Bands(R: seq<Row>): (ks: seq<Knot>)
    requires forall k :: 0 <= k < |R| ==> |R[k]| > 2
  {
    seq(|R|, k requires 0 <= k < |R| => if IsGap(R[k]) then Break else Knot(X(R[k]), Y(R[k]), R[k][2].Val()))
  }

  /** Main result for filling: the filled band reaches from v to u at x exactly if the line has height u there and
      the line below it height v, whatever gaps the two have. */
  lemma FillShowsBoth(P: seq<Row>, Q: seq<Row>, ps: nat, x: real, u: real, v: real)
    requires ps > 2 && Shaped(P, ps) && Rising(P) && Rising(Q)
    ensures
      var R := FillRows(P, Q, true, true, ps);
      ShowsPair(Bands(R), x, u, v) <==> Shows(P, x, u) && Shows(Q, x, v)
  {
    var es := Merged(P, Q, true);
    EmissionsHaveShape(P, Q, 0, 0, true, true, ps);
    MergeMarks(P, Q, 0, 0, true, ps);
    FillBands(es, ps);
    MergedShowsBoth(P, Q, x, u, v);
  }

  lemma FillBands(es: seq<Emission>, ps: nat)
    requires ps > 2 && EmissionsShaped(es, ps) && Marked(es, ps)
    ensures Bands(FillAll(es, true, ps)) == Knots(es)
  {
    var R := FillAll(es, true, ps);
    forall k | 0 <= k < |es| ensures Bands(R)[k] == Knots(es)[k] {
      assert es[k] in es;
    }
  }

  /** For a line without gaps: what it shows is its height at every x of its range. */
  lemma LineShows(rows: seq<Row>, x: real, v: real)
    requires Line(rows)
    ensures Rising(rows) && (Shows(rows, x, v) <==> Covers(rows, x) && v == Eval(rows, x))
  {
    if Shows(rows, x, v) {
      var k :| AtRow(rows, k, x, v) || OnPiece(rows, k, x, v);
      if AtRow(rows, k, x, v) { EvalAtRow(rows, k); } else { ChordIsCurve(rows, k, x, v); }
    }
    if Covers(rows, x) && v == Eval(rows, x) {
      if |rows| == 1 {
        assert AtRow(rows, 0, x, v);
      } else {
        var k := FindAround(rows, x);
        EvalOnSegment(rows, k, x);
        ChordIsLerp(X(rows[k]), Y(rows[k]), X(rows[k + 1]), Y(rows[k + 1]), x, v);
        assert OnPiece(rows, k, x, v);
      }
    }
  }
}
