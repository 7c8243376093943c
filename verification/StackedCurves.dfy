/** What the stacked series of a plot show. */
module StackedCurves {
  import opened Options
  import opened Polyline
  import opened Merge
  import opened GappedLines
  import opened Stack

  /** Every series stacked under `key` is drawn with lines, not in steps; it may have gaps. */
  ghost predicate GappedGroup(views: seq<View>, key: Option<int>) {
    forall k :: 0 <= k < |views| && views[k].stack == key ==> views[k].lines && !views[k].steps && Rising(views[k].rows)
  }

  /** y is a sum of heights at x, one of each of the first n series stacked under `key`. */
  ghost predicate GroupShows(views: seq<View>, key: Option<int>, n: nat, x: real, y: real)
    requires n <= |views| && GappedGroup(views, key)
  {
    if n == 0 then y == 0.0
    else
      var m, rows := n - 1, views[n - 1].rows;
      if views[m].stack != key then GroupShows(views, key, m, x, y)
      else exists u :: Shows(rows, x, u) && GroupShows(views, key, m, x, y - u)
  }

  lemma {:induction false} SkipShows(views: seq<View>, key: Option<int>, m: nat, n: nat, x: real, y: real)
    requires m <= n <= |views| && GappedGroup(views, key) && forall a :: m <= a < n ==> views[a].stack != key
    ensures GroupShows(views, key, n, x, y) <==> GroupShows(views, key, m, x, y)
  {
    if m < n { SkipShows(views, key, m, n - 1, x, y); }
  }

  /** The rows are drawn at (x, y) exactly if y is a sum over the group. */
  ghost predicate DrawnAsGroup(views: seq<View>, key: Option<int>, n: nat, R: seq<Row>, x: real)
    requires n <= |views| && GappedGroup(views, key)
  {
    Rising(R) && forall y :: Shows(R, x, y) <==> GroupShows(views, key, n, x, y)
  }

  /** Main result for a plot: each series of a group of lines, whatever gaps they have, is drawn exactly at the sums of
      its group's series up to it; where one of them has a gap it has one. */
  lemma {:induction false} SeriesShowsGroup(views: seq<View>, k: nat, x: real)
    requires AllValid(views) && k < |views| && views[k].stack.Some? && GappedGroup(views, views[k].stack)
    ensures DrawnAsGroup(views, views[k].stack, k + 1, StackedAt(views, k), x)
    decreases k
  {
    var v := views[k];
    assert forall a :: 0 <= a < |views| ==> Stacks(views)[a] == views[a].stack;
    match MatchBefore(Stacks(views), k, k)
    case None =>
      assert StackedAt(views, k) == v.rows;
      FirstDrawn(views, k, x);
    case Some(m) =>
      SeriesShowsGroup(views, m, x);
      var below := StackedAt(views, m);
      assert StackedAt(views, k) == StackedOn(v, below) == StackRows(v.rows, below, true, v.withBottom, v.ps);
      NextDrawn(views, k, m, below, x);
  }

  lemma FirstDrawn(views: seq<View>, k: nat, x: real)
    requires k < |views| && GappedGroup(views, views[k].stack)
    requires forall a :: 0 <= a < k ==> views[a].stack != views[k].stack
    ensures DrawnAsGroup(views, views[k].stack, k + 1, views[k].rows, x)
  {
    var key := views[k].stack;
    forall w ensures GroupShows(views, key, k, x, w) <==> w == 0.0 {
      SkipShows(views, key, 0, k, x, w);
    }
    forall y ensures Shows(views[k].rows, x, y) <==> GroupShows(views, key, k + 1, x, y) {
      if Shows(views[k].rows, x, y) { assert GroupShows(views, key, k, x, y - y); }
    }
  }

  lemma NextDrawn(views: seq<View>, k: nat, m: nat, below: seq<Row>, x: real)
    requires m < k < |views| && views[m].stack == views[k].stack && GappedGroup(views, views[k].stack)
    requires views[k].Valid() && forall a :: m < a < k ==> views[a].stack != views[k].stack
    requires DrawnAsGroup(views, views[k].stack, m + 1, below, x)
    ensures
      var v := views[k];
      DrawnAsGroup(views, v.stack, k + 1, StackRows(v.rows, below, true, v.withBottom, v.ps), x)
  {
    var v := views[k];
    var R := StackRows(v.rows, below, true, v.withBottom, v.ps);
    forall w ensures GroupShows(views, v.stack, k, x, w) <==> Shows(below, x, w) {
      SkipShows(views, v.stack, m + 1, k, x, w);
    }
    StackShowsSum(v.rows, below, v.withBottom, v.ps, x, 0.0);
    forall y ensures Shows(R, x, y) <==> GroupShows(views, v.stack, k + 1, x, y) {
      StackShowsSum(v.rows, below, v.withBottom, v.ps, x, y);
      SumOfGroup(views, k, below, x, y);
    }
  }

  lemma SumOfGroup(views: seq<View>, k: nat, below: seq<Row>, x: real, y: real)
    requires k < |views| && GappedGroup(views, views[k].stack) && Rising(below)
    requires forall w :: GroupShows(views, views[k].stack, k, x, w) <==> Shows(below, x, w)
    ensures ShowsSum(views[k].rows, below, x, y) <==> GroupShows(views, views[k].stack, k + 1, x, y)
  {
    var key := views[k].stack;
    if u, v :| Shows(views[k].rows, x, u) && Shows(below, x, v) && y == u + v {
      assert GroupShows(views, key, k, x, y - u);
    }
    if GroupShows(views, key, k + 1, x, y) {
      var u :| Shows(views[k].rows, x, u) && GroupShows(views, key, k, x, y - u);
      assert Shows(below, x, y - u) && y == u + (y - u);
    }
  }
}
