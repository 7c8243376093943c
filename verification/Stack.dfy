/** The stacking plugin, jquery.flot.stack.js: vertical stacking. */
module Stack {
  import opened Options
  import opened Polyline
  import opened Merge
  import opened FlatMerge
  import opened LineSteps
  import opened MergeLoop

  /** The case of two points, the upper one further right: the line above is cut at the lower point's x. */
  method InsertPoint(soFar: seq<Cell>, points: seq<Cell>, ps: nat, i: nat, qx: real, qy: real)
    returns (newpoints: seq<Cell>)
    requires OnRow(points, ps, i) && 0 < i < |points| && points[i - ps] != Null
    requires points[i - ps].Val() != points[i].Val()
    ensures
      var prev, p := Cells(points, ps, i - ps), Cells(points, ps, i);
      newpoints == soFar + Lift(Emission(Inserted(prev, p, qx), qy, true), false)
  {
    ghost var prev, p := Cells(points, ps, i - ps), Cells(points, ps, i);
    var intery := Interpolate(points, ps, i, qx);
    newpoints := soFar + ([Num(qx), Num(intery + qy)] + points[i + 2..i + ps]);
    assert points[i + 2..i + ps] == p[2..];
    InsertedCells(prev, p, qx, intery, qy);
  }

  /** The case of two points, the upper one not further right: it is copied and moved up. */
  method CopyPoint(soFar: seq<Cell>, points: seq<Cell>, ps: nat, i: nat, d: real) returns (newpoints: seq<Cell>)
    requires OnRow(points, ps, i) && i < |points|
    ensures newpoints == soFar + Lift(Emission(Cells(points, ps, i), d, true), false)
  {
    newpoints := soFar + points[i..i + ps];
    newpoints := AddTo(newpoints, soFar, Cells(points, ps, i), |soFar|, 1, d);
  }

  /** The merge loop's case of two points. */
  method MergePair(soFar: seq<Cell>, points: seq<Cell>, ps: nat, i0: nat, otherpoints: seq<Cell>, otherps: nat, j0: nat,
                   withlines: bool, withbottom: bool, fromgap0: bool)
    returns (newpoints: seq<Cell>, i: nat, j: nat, fromgap: bool)
    requires OnRow(points, ps, i0) && i0 < |points| && OnRow(otherpoints, otherps, j0) && (withbottom ==> ps > 2)
    requires j0 < |otherpoints| && points[i0] != Null && otherpoints[j0] != Null
    requires Interpolable(points, ps, i0, otherpoints, otherps, j0)
    ensures
      var t := TurnAt(points, ps, i0, otherpoints, otherps, j0, fromgap0, withlines);
      Moved(t, ps, otherps, i0, j0, i, j, fromgap) && Wrote(Stacking, t, soFar, newpoints, withbottom, ps)
  {
    newpoints, i, j, fromgap := soFar, i0, j0, fromgap0;
    var l := |newpoints|;
    ghost var p, q := Cells(points, ps, i), Cells(otherpoints, otherps, j);
    ghost var t := TurnAt(points, ps, i, otherpoints, otherps, j, fromgap, withlines);
    var px, py := points[i].Val(), points[i + 1].Val();
    var qx, qy := otherpoints[j].Val(), otherpoints[j + 1].Val();
    assert X(p) == px && Y(p) == py && X(q) == qx && Y(q) == qy;
    var bottom := 0.0;
    if px == qx {
      newpoints := CopyPoint(newpoints, points, ps, i, qy);
      bottom := qy;
      assert t.out == [Emission(p, bottom, true)];
      i, j := i + ps, j + otherps;
    } else if px > qx {
      if withlines && i > 0 && points[i - ps] != Null {
        ghost var prev := Cells(points, ps, i - ps);
        newpoints := InsertPoint(newpoints, points, ps, i, qx, qy);
        bottom := qy;
        assert prev[0] == points[i - ps];
        assert t.out == [Emission(Inserted(prev, p, qx), bottom, true)];
      }
      j := j + otherps;
    } else {
      if fromgap && withlines {
        i := i + ps;
        return;
      }
      if withlines && j > 0 && otherpoints[j - otherps] != Null {
        assert Cells(otherpoints, otherps, j - otherps)[0] == otherpoints[j - otherps];
        bottom := Interpolate(otherpoints, otherps, j, px);
      }
      newpoints := CopyPoint(newpoints, points, ps, i, bottom);
      assert t.out == [Emission(p, bottom, true)];
      i := i + ps;
    }
    fromgap := false;
    newpoints := RaiseBottom(newpoints, soFar, t, l, bottom, withbottom, ps);
  }

  /** If a row was pushed, its bottom moves up as well. */
  method RaiseBottom(cells: seq<Cell>, ghost soFar: seq<Cell>, ghost t: Turn, l: nat, bottom: real, withbottom: bool,
                     ghost ps: nat)
    returns (newpoints: seq<Cell>)
    requires l == |soFar| && (withbottom ==> ps > 2) && |t.out| <= 1
    requires if t.out == [] then cells == soFar else Pushed(t.out[0], cells, soFar, bottom, ps)
    ensures Wrote(Stacking, t, soFar, newpoints, withbottom, ps)
  {
    newpoints := cells;
    if l != |newpoints| && withbottom {
      LiftBottom(t.out[0]);
      newpoints := AddTo(newpoints, soFar, Lift(t.out[0], false), l, 2, bottom);
    }
  }

  /** The cells end with the row of an emission, its bottom not yet moved. */
  ghost predicate Pushed(e: Emission, cells: seq<Cell>, soFar: seq<Cell>, bottom: real, ps: nat) {
    |e.base| == ps >= 2 && e.lifted && e.bottom == bottom && cells == soFar + Lift(e, false)
  }

  lemma LiftBottom(e: Emission)
    requires |e.base| > 2 && e.lifted
    ensures Lift(e, true) == Lift(e, false)[2 := Num(Lift(e, false)[2].Val() + e.bottom)]
  {
  }

  lemma InsertedCells(prev: Row, cur: Row, qx: real, intery: real, qy: real)
    requires |prev| >= 2 && |cur| >= 2 && intery == Lerp(X(cur), Y(cur), X(prev), Y(prev), qx)
    ensures Lift(Emission(Inserted(prev, cur, qx), qy, true), false) == [Num(qx), Num(intery + qy)] + cur[2..]
  {
  }

  /** The body of the merge loop of `stackData`. */
  method MergeRound(soFar: seq<Cell>, points: seq<Cell>, ps: nat, i0: nat, otherpoints: seq<Cell>, otherps: nat,
                    j0: nat, withlines: bool, withbottom: bool, fromgap0: bool)
    returns (newpoints: seq<Cell>, i: nat, j: nat, fromgap: bool)
    requires OnRow(points, ps, i0) && i0 < |points| && OnRow(otherpoints, otherps, j0) && (withbottom ==> ps > 2)
    requires Interpolable(points, ps, i0, otherpoints, otherps, j0)
    ensures
      var t := TurnAt(points, ps, i0, otherpoints, otherps, j0, fromgap0, withlines);
      Moved(t, ps, otherps, i0, j0, i, j, fromgap) && Wrote(Stacking, t, soFar, newpoints, withbottom, ps)
  {
    newpoints, i, j, fromgap := soFar, i0, j0, fromgap0;
    if points[i] == Null {
      newpoints := newpoints + points[i..i + ps];
      i := i + ps;
    } else if j >= |otherpoints| {
      if !withlines {
        newpoints := newpoints + points[i..i + ps];
      }
      i := i + ps;
    } else if otherpoints[j] == Null {
      newpoints := newpoints + seq(ps, _ => Null);
      fromgap := true;
      j := j + otherps;
    } else {
      newpoints, i, j, fromgap :=
        MergePair(newpoints, points, ps, i, otherpoints, otherps, j, withlines, withbottom, fromgap);
    }
  }

  /** The loop, given the rows that the arrays hold. */
  method MergeLaid(points: seq<Cell>, ps: nat, ghost P: seq<Row>, otherpoints: seq<Cell>, otherps: nat,
                   ghost Q: seq<Row>, withlines: bool, withbottom: bool, withsteps: bool)
    returns (newpoints: seq<Cell>)
    requires ps >= 2 && (withbottom ==> ps > 2) && Shaped(P, ps) && Wide(Q) && Sorted(P) && Sorted(Q)
    requires Laid(points, ps, P) && Laid(otherpoints, otherps, Q)
    ensures newpoints == Flatten(Stepped(StackRows(P, Q, withlines, withbottom, ps), withsteps))
  {
    ghost var input := Input(points, ps, P, otherpoints, otherps, Q, withlines, withbottom, withsteps);
    ghost var at := START;
    newpoints := [];
    var fromgap := true;
    var i: nat, j: nat := 0, 0;
    LoopStarts(Stacking, input);
    while i < |points|
      invariant Looping(Stacking, input, at, newpoints) && at.i == i && at.j == j && at.fromgap == fromgap
      decreases |P| - at.pi + |Q| - at.qj
    {
      ghost var to := LoopGoes(input, at);
      ghost var soFar := newpoints;
      var l := |newpoints|;
      newpoints, i, j, fromgap :=
        MergeRound(newpoints, points, ps, i, otherpoints, otherps, j, withlines, withbottom, fromgap);
      newpoints := EndRound(Stacking, input, at, to, soFar, newpoints, l, ps, withsteps);
      at := to;
    }
    LoopEnds(Stacking, input, at, newpoints);
  }

  /** The merge loop of `stackData` on flat arrays. */
  method StackPoints(points: seq<Cell>, ps: nat, otherpoints: seq<Cell>, otherps: nat,
                     withlines: bool, withbottom: bool, withsteps: bool)
    returns (newpoints: seq<Cell>)
    requires ps >= 2 && Whole(points, ps) && Shaped(Rows(points, ps), ps) && Sorted(Rows(points, ps))
    requires otherps >= 2 && Whole(otherpoints, otherps) && Shaped(Rows(otherpoints, otherps), otherps)
    requires Sorted(Rows(otherpoints, otherps)) && (withbottom ==> ps > 2)
    ensures
      newpoints ==
        Flatten(Stepped(StackRows(Rows(points, ps), Rows(otherpoints, otherps), withlines, withbottom, ps), withsteps))
  {
    ghost var P, Q := Rows(points, ps), Rows(otherpoints, otherps);
    RowsAreLaid(points, ps);
    RowsAreLaid(otherpoints, otherps);
    newpoints := MergeLaid(points, ps, P, otherpoints, otherps, Q, withlines, withbottom, withsteps);
  }

  // ---- the plot's series ----

  /** A series as a value. `stack` is its stacking key, `None` when it is null or false. */
  datatype View = View(stack: Option<int>, lines: bool, steps: bool, withBottom: bool, ps: nat, rows: seq<Row>) {
    /** What the library's own reading of the data provides: rows of at least two cells, sorted on x. */
    ghost predicate Valid() {
      ps >= 2 && (withBottom ==> ps > 2) && Shaped(rows, ps) && Sorted(rows)
    }
  }

  /** The series that series k is stacked on: the last one before it with the same key. */
  function MatchBefore(stacks: seq<Option<int>>, k: nat, n: nat): (m: Option<nat>)
    requires n <= k < |stacks|
    ensures m.Some? ==> m.value < n && stacks[m.value] == stacks[k]
    ensures m.Some? ==> forall a :: m.value < a < n ==> stacks[a] != stacks[k]
    ensures m.None? ==> forall a :: 0 <= a < n ==> stacks[a] != stacks[k]
  {
    if n == 0 then None
    else if stacks[n - 1] == stacks[k] then Some(n - 1)
    else MatchBefore(stacks, k, n - 1)
  }

  function Stacks(views: seq<View>): seq<Option<int>> {
    seq(|views|, k requires 0 <= k < |views| => views[k].stack)
  }

  ghost predicate AllValid(views: seq<View>) {
    forall k :: 0 <= k < |views| ==> views[k].Valid()
  }

  /** The rows of series k once series 0..k are stacked in order. */
  ghost function StackedAt(views: seq<View>, k: nat): (r: seq<Row>)
    requires AllValid(views) && k < |views|
    ensures Shaped(r, views[k].ps) && Sorted(r)
    decreases k
  {
    var v := views[k];
    if v.stack.None? then v.rows
    else
      match MatchBefore(Stacks(views), k, k)
      case None => v.rows
      case Some(m) =>
        StackedOn(v, StackedAt(views, m))
  }

  /** A series stacked on the rows of another. */
  ghost function StackedOn(v: View, below: seq<Row>): (r: seq<Row>)
    requires v.Valid() && Wide(below) && Sorted(below)
    ensures Shaped(r, v.ps) && Sorted(r)
  {
    StackKeepsSorted(v.rows, below, v.lines, v.withBottom, v.ps);
    SteppedShaped(StackRows(v.rows, below, v.lines, v.withBottom, v.ps), v.lines && v.steps, v.ps);
    SteppedSorted(StackRows(v.rows, below, v.lines, v.withBottom, v.ps), v.lines && v.steps);
    Stepped(StackRows(v.rows, below, v.lines, v.withBottom, v.ps), v.lines && v.steps)
  }

  /** Line steps are for lines: a series without them, bars say, is stacked row by row whatever its steps setting. */
  lemma StepsNeedLines(v: View, below: seq<Row>)
    requires v.Valid() && Wide(below) && Sorted(below) && !(v.lines && v.steps)
    ensures StackedOn(v, below) == StackRows(v.rows, below, v.lines, v.withBottom, v.ps)
  {
  }

  /** Every series stacked under `key` is drawn with lines, not in steps, and is a gap-free line. */
  ghost predicate LineGroup(views: seq<View>, key: Option<int>) {
    forall k :: 0 <= k < |views| && views[k].stack == key ==> views[k].lines && !views[k].steps && Line(views[k].rows)
  }

  /** All of the first n series stacked under `key` are defined at x. */
  ghost predicate GroupCovers(views: seq<View>, key: Option<int>, n: nat, x: real)
    requires n <= |views| && LineGroup(views, key)
  {
    forall k :: 0 <= k < n && views[k].stack == key ==> Covers(views[k].rows, x)
  }

  /** The sum of the heights at x of the first n series stacked under `key`. */
  ghost function GroupSum(views: seq<View>, key: Option<int>, n: nat, x: real): real
    requires n <= |views| && LineGroup(views, key) && GroupCovers(views, key, n, x)
  {
    if n == 0 then 0.0
    else GroupSum(views, key, n - 1, x) + (if views[n - 1].stack == key then Eval(views[n - 1].rows, x) else 0.0)
  }

  lemma {:induction false} SkipOthers(views: seq<View>, key: Option<int>, m: nat, n: nat, x: real)
    requires m <= n <= |views| && LineGroup(views, key) && GroupCovers(views, key, n, x)
    requires forall a :: m <= a < n ==> views[a].stack != key
    ensures GroupSum(views, key, n, x) == GroupSum(views, key, m, x)
  {
    if m < n { SkipOthers(views, key, m, n - 1, x); }
  }

  /** Series k is drawn at the sum of its group's series up to it, exactly where all of them are defined. */
  ghost predicate IsGroupSum(views: seq<View>, k: nat, x: real)
    requires AllValid(views) && k < |views| && LineGroup(views, views[k].stack)
  {
    IsSumOf(views, views[k].stack, k + 1, StackedAt(views, k), x)
  }

  /** At x the line is the sum of the group's series among the first n, and it is defined just where they all are. */
  ghost predicate IsSumOf(views: seq<View>, key: Option<int>, n: nat, R: seq<Row>, x: real)
    requires n <= |views| && LineGroup(views, key)
  {
    && Line(R) && (Covers(R, x) <==> GroupCovers(views, key, n, x))
    && (GroupCovers(views, key, n, x) ==> Eval(R, x) == GroupSum(views, key, n, x))
  }

  lemma AddSeries(views: seq<View>, k: nat, m: nat, below: seq<Row>, x: real)
    requires m < k < |views| && views[m].stack == views[k].stack && LineGroup(views, views[k].stack) && views[k].Valid()
    requires forall a :: m < a < k ==> views[a].stack != views[k].stack
    requires IsSumOf(views, views[k].stack, m + 1, below, x)
    ensures
      var v := views[k];
      IsSumOf(views, v.stack, k + 1, StackRows(v.rows, below, true, v.withBottom, v.ps), x)
  {
    var v := views[k];
    LineOnLine(v, below, x);
    OneMoreCovers(views, k, m, x);
    if GroupCovers(views, v.stack, m + 1, x) && Covers(v.rows, x) {
      SkipOthers(views, v.stack, m + 1, k, x);
    }
  }

  /** A series stacked on a line. */
  lemma LineOnLine(v: View, below: seq<Row>, x: real)
    requires v.Valid() && Line(v.rows) && Line(below)
    ensures
      var R := StackRows(v.rows, below, true, v.withBottom, v.ps);
      && Line(R) && (Covers(R, x) <==> Both(v.rows, below, x))
      && (Both(v.rows, below, x) ==> Eval(R, x) == Eval(v.rows, x) + Eval(below, x))
  {
    StackedRowsAreSums(v.rows, below, v.withBottom, v.ps);
    StackedRange(v.rows, below, v.withBottom, v.ps, x);
    if Both(v.rows, below, x) { StackIsSum(v.rows, below, v.withBottom, v.ps, x); }
  }

  lemma OneMoreCovers(views: seq<View>, k: nat, m: nat, x: real)
    requires m < k < |views| && views[m].stack == views[k].stack && LineGroup(views, views[k].stack)
    requires forall a :: m < a < k ==> views[a].stack != views[k].stack
    ensures
      var key := views[k].stack;
      GroupCovers(views, key, k + 1, x) <==> GroupCovers(views, key, m + 1, x) && Covers(views[k].rows, x)
    ensures GroupCovers(views, views[k].stack, m + 1, x) ==> GroupCovers(views, views[k].stack, k, x)
  {
  }

  /** Main result for a plot, by induction over the matching series. */
  lemma {:induction false} SeriesIsGroupSum(views: seq<View>, k: nat, x: real)
    requires AllValid(views) && k < |views| && views[k].stack.Some? && LineGroup(views, views[k].stack)
    ensures IsGroupSum(views, k, x)
    decreases k
  {
    var v := views[k];
    assert forall a :: 0 <= a < |views| ==> Stacks(views)[a] == views[a].stack;
    match MatchBefore(Stacks(views), k, k)
    case None =>
      assert StackedAt(views, k) == v.rows;
      FirstOfGroup(views, k, x);
    case Some(m) =>
      SeriesIsGroupSum(views, m, x);
      var below := StackedAt(views, m);
      assert StackedAt(views, k) == StackedOn(v, below) == StackRows(v.rows, below, true, v.withBottom, v.ps);
      AddSeries(views, k, m, below, x);
  }

  lemma FirstOfGroup(views: seq<View>, k: nat, x: real)
    requires k < |views| && LineGroup(views, views[k].stack)
    requires forall a :: 0 <= a < k ==> views[a].stack != views[k].stack
    ensures IsSumOf(views, views[k].stack, k + 1, views[k].rows, x)
  {
    if GroupCovers(views, views[k].stack, k + 1, x) {
      SkipOthers(views, views[k].stack, 0, k, x);
    }
  }

  /** A series of the plot. */
  class Series {
    const stack: Option<int>
    const lines: bool
    const steps: bool
    const pointsize: nat
    const bottomIsY: bool
    var points: seq<Cell>

    constructor (stack: Option<int>, lines: bool, steps: bool, pointsize: nat, bottomIsY: bool, points: seq<Cell>)
      ensures this.stack == stack && this.lines == lines && this.steps == steps && this.pointsize == pointsize
      ensures this.bottomIsY == bottomIsY && this.points == points
    {
      this.stack, this.lines, this.steps, this.pointsize := stack, lines, steps, pointsize;
      this.bottomIsY, this.points := bottomIsY, points;
    }

    ghost predicate Valid()
      reads this
    {
      pointsize >= 2 && Whole(points, pointsize) && AsView().Valid()
    }

    ghost function AsView(): View
      reads this
      requires pointsize > 0
    {
      View(stack, lines, steps, pointsize > 2 && bottomIsY, pointsize, Rows(points, pointsize))
    }
  }

  ghost predicate Distinct(all: seq<Series>) {
    forall a, b :: 0 <= a < b < |all| ==> all[a] != all[b]
  }

  ghost function Keys(all: seq<Series>): seq<Option<int>> {
    seq(|all|, k requires 0 <= k < |all| => all[k].stack)
  }

  /** `findMatchingSeries`: the last series before `s` in `all` that has its key. */
  method FindMatchingSeries(s: Series, all: seq<Series>, ghost k: nat) returns (res: Series?)
    requires Distinct(all) && k < |all| && all[k] == s
    ensures
      match MatchBefore(Keys(all), k, k)
      case None => res == null
      case Some(m) => res == all[m]
  {
    res := null;
    var i := 0;
    while i < |all|
      invariant 0 <= i <= k
      invariant
        match MatchBefore(Keys(all), k, i)
        case None => res == null
        case Some(m) => res == all[m]
    {
      if s == all[i] {
        break;
      }
      if all[i].stack == s.stack {
        res := all[i];
      }
      i := i + 1;
    }
  }

  /** `stackData`: the points of `s` are replaced by their stack on the series below, if there is one. */
  method StackData(s: Series, all: seq<Series>, ghost k: nat)
    requires Distinct(all) && k < |all| && all[k] == s && s.Valid()
    requires s.stack.Some? && MatchBefore(Keys(all), k, k).Some? ==> all[MatchBefore(Keys(all), k, k).value].Valid()
    modifies s`points
    ensures s.stack.None? || MatchBefore(Keys(all), k, k).None? ==> s.points == old(s.points)
    ensures
      s.stack.Some? && MatchBefore(Keys(all), k, k).Some? ==>
        var other := all[MatchBefore(Keys(all), k, k).value];
        s.points == Flatten(StackedOn(old(s.AsView()), old(other.AsView()).rows))
  {
    if s.stack.None? {
      return;
    }
    var other := FindMatchingSeries(s, all, k);
    if other == null {
      return;
    }
    var withbottom := s.pointsize > 2 && s.bottomIsY;
    var withsteps := s.lines && s.steps;
    var newpoints :=
      StackPoints(s.points, s.pointsize, other.points, other.pointsize, s.lines, withbottom, withsteps);
    s.points := newpoints;
  }

  ghost predicate AllSeriesValid(all: seq<Series>)
    reads all
  {
    forall k :: 0 <= k < |all| ==> all[k].Valid()
  }

  ghost function Views(all: seq<Series>): (views: seq<View>)
    reads all
    requires AllSeriesValid(all)
    ensures |views| == |all| && AllValid(views) && Stacks(views) == Keys(all)
    ensures forall k :: 0 <= k < |all| ==> views[k] == all[k].AsView()
  {
    seq(|all|, k requires 0 <= k < |all| && all[k].Valid() reads all => all[k].AsView())
  }

  /** The flat array series k ends up with. */
  ghost function StackedPoints(views: seq<View>, k: nat): seq<Cell>
    requires AllValid(views) && k < |views|
  {
    Flatten(StackedAt(views, k))
  }

  lemma StackedIsValid(s: Series, views: seq<View>, k: nat)
    requires AllValid(views) && k < |views| && s.points == StackedPoints(views, k)
    requires s.pointsize == views[k].ps && (s.bottomIsY && s.pointsize > 2) == views[k].withBottom
    ensures s.Valid() && s.AsView().rows == StackedAt(views, k)
  {
    RowsOfFlatten(StackedAt(views, k), views[k].ps);
  }

  /** The plot's settings of its series. */
  ghost predicate Settings(all: seq<Series>, views: seq<View>) {
    && |views| == |all| && AllValid(views) && Stacks(views) == Keys(all)
    && forall k :: 0 <= k < |all| ==>
         && all[k].pointsize == views[k].ps && all[k].lines == views[k].lines && all[k].steps == views[k].steps
         && (all[k].bottomIsY && all[k].pointsize > 2) == views[k].withBottom
  }

  /** The arrays the series are to end up with. */
  ghost predicate Targets(views: seq<View>, target: seq<seq<Cell>>)
    requires AllValid(views)
  {
    && |target| == |views|
    && forall k {:trigger StackedPoints(views, k)} :: 0 <= k < |views| ==> target[k] == StackedPoints(views, k)
  }

  /** The first i series are stacked, the others are as they were. */
  ghost predicate Progress(all: seq<Series>, views: seq<View>, target: seq<seq<Cell>>, i: nat)
    reads all
    requires |views| == |all| == |target| && AllValid(views) && i <= |all|
  {
    && (forall k :: 0 <= k < i ==> all[k].points == target[k])
    && (forall k :: i <= k < |all| ==> Whole(all[k].points, views[k].ps)
                                       && Rows(all[k].points, views[k].ps) == views[k].rows)
  }

  /** One call of the hook, with the series before it stacked already. */
  method StackOne(s: Series, all: seq<Series>, i: nat, ghost views: seq<View>, ghost target: seq<seq<Cell>>)
    requires Distinct(all) && Settings(all, views) && i < |all| && s == all[i]
    requires Targets(views, target) && Progress(all, views, target, i)
    modifies s`points
    ensures s.points == target[i]
  {
    FlattenOfRows(s.points, s.pointsize);
    ghost var m := MatchBefore(Keys(all), i, i);
    if m.Some? {
      assert target[m.value] == StackedPoints(views, m.value);
      StackedIsValid(all[m.value], views, m.value);
    }
    assert s.stack == Keys(all)[i] == Stacks(views)[i] == views[i].stack;
    assert s.AsView() == views[i];
    assert target[i] == StackedPoints(views, i);
    StackData(s, all, i);
  }

  method StackNext(all: seq<Series>, i: nat, ghost views: seq<View>, ghost target: seq<seq<Cell>>)
    requires Distinct(all) && Settings(all, views) && i < |all|
    requires Targets(views, target) && Progress(all, views, target, i)
    modifies all
    ensures Progress(all, views, target, i + 1)
  {
    StackOne(all[i], all, i, views, target);
  }

  /** The plot runs the hook on its series in order. */
  method StackAllSeries(all: seq<Series>)
    requires Distinct(all) && AllSeriesValid(all)
    modifies all
    ensures Targets(old(Views(all)), seq(|all|, k requires 0 <= k < |all| reads all => all[k].points))
  {
    ghost var views := Views(all);
    ghost var target := seq(|views|, k requires 0 <= k < |views| => StackedPoints(views, k));
    StartOf(all, target);
    var i := 0;
    while i < |all|
      invariant 0 <= i <= |all| && Progress(all, views, target, i)
    {
      StackNext(all, i, views, target);
      i := i + 1;
    }
    assert seq(|all|, k requires 0 <= k < |all| reads all => all[k].points) == target;
  }

  lemma StartOf(all: seq<Series>, target: seq<seq<Cell>>)
    requires AllSeriesValid(all) && Targets(Views(all), target)
    ensures Settings(all, Views(all)) && Progress(all, Views(all), target, 0)
  {
  }
}
