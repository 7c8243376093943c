/** The threshold plugin, jquery.flot.threshold.js: a split at a level. */
module Threshold {
  import opened Polyline
  import opened FlatMerge
  import opened Geometry

  /** An entry of one of the two lists: a sample of the series, a crossing inserted before sample k, or the
      break that keeps the crossing apart from what the list had before. */
  datatype Entry = Sample(k: nat) | Crossing(k: nat) | Break(k: nat)

  /** Sample k goes to the list below the level. */
  predicate Below(rows: seq<Row>, k: nat, level: real)
    requires Wide(rows) && k < |rows|
  {
    Y(rows[k]) < level
  }

  /** The series crosses the level between samples k - 1 and k. */
  predicate Crosses(rows: seq<Row>, k: nat, level: real, lines: bool)
    requires Wide(rows) && k < |rows|
  {
    lines && k > 0 && Below(rows, k, level) != Below(rows, k - 1, level) && !IsGap(rows[k]) && !IsGap(rows[k - 1])
  }

  /** What sample k adds to the list on the given side of the level. */
  function Added(rows: seq<Row>, side: bool, k: nat, level: real, lines: bool): seq<Entry>
    requires Wide(rows) && k < |rows|
  {
    if Crosses(rows, k, level, lines) then
      if Below(rows, k, level) == side then [Break(k), Crossing(k), Sample(k)] else [Crossing(k)]
    else if Below(rows, k, level) == side then [Sample(k)] else []
  }

  /** The list on one side after n samples. */
  function Entries(rows: seq<Row>, side: bool, n: nat, level: real, lines: bool): seq<Entry>
    requires Wide(rows) && n <= |rows|
  {
    if n == 0 then [] else Entries(rows, side, n - 1, level, lines) + Added(rows, side, n - 1, level, lines)
  }

  /** Where the line through two points is at the level. */
  function LevelX(x0: real, y0: real, x1: real, y1: real, level: real): real
    requires y0 != y1
  {
    x1 + (level - y1) * (x1 - x0) / (y1 - y0)
  }

  /** Where the series crosses the level before sample k. */
  function CrossingX(rows: seq<Row>, k: nat, level: real): real
    requires Wide(rows) && 0 < k < |rows|
  {
    var p, q := rows[k - 1], rows[k];
    if Y(p) == Y(q) then X(q) else LevelX(X(p), Y(p), X(q), Y(q), level)
  }

  predicate EntryOk(rows: seq<Row>, e: Entry) {
    e.k < |rows| && (e.Crossing? ==> e.k > 0)
  }

  /** The row an entry stands for. */
  function Render(rows: seq<Row>, e: Entry, level: real): (r: Row)
    requires Wide(rows) && EntryOk(rows, e)
    ensures |r| == |rows[e.k]|
  {
    match e
    case Sample(k) => rows[k]
    case Crossing(k) => [Num(CrossingX(rows, k, level)), Num(level)] + rows[k][2..]
    case Break(k) => [Null, Null] + rows[k][2..]
  }

  predicate AllOk(rows: seq<Row>, es: seq<Entry>) {
    forall m :: 0 <= m < |es| ==> EntryOk(rows, es[m])
  }

  function RenderAll(rows: seq<Row>, es: seq<Entry>, level: real): (r: seq<Row>)
    requires Wide(rows) && AllOk(rows, es)
    ensures |r| == |es| && Wide(r)
  {
    seq(|es|, m requires 0 <= m < |es| => Render(rows, es[m], level))
  }

  lemma {:induction false} EntriesOk(rows: seq<Row>, side: bool, n: nat, level: real, lines: bool)
    requires Wide(rows) && n <= |rows|
    ensures AllOk(rows, Entries(rows, side, n, level, lines))
  {
    if n > 0 { EntriesOk(rows, side, n - 1, level, lines); }
  }

  /** The rows of one list. */
  function SplitRows(rows: seq<Row>, side: bool, level: real, lines: bool): (r: seq<Row>)
    requires Wide(rows)
    ensures Wide(r)
  {
    EntriesOk(rows, side, |rows|, level, lines);
    RenderAll(rows, Entries(rows, side, |rows|, level, lines), level)
  }

  // ---- the samples are dealt out in order ----

  /** The samples among some entries. */
  function Samples(es: seq<Entry>): seq<nat> {
    if es == [] then []
    else
      var last := es[|es| - 1];
      Samples(es[..|es| - 1]) + (if last.Sample? then [last.k] else [])
  }

  /** The samples below n that lie on one side. */
  function SamplesOf(rows: seq<Row>, side: bool, n: nat, level: real): seq<nat>
    requires Wide(rows) && n <= |rows|
  {
    if n == 0 then []
    else SamplesOf(rows, side, n - 1, level) + (if Below(rows, n - 1, level) == side then [n - 1] else [])
  }

  lemma {:induction false} SamplesConcat(a: seq<Entry>, b: seq<Entry>)
    ensures Samples(a + b) == Samples(a) + Samples(b)
  {
    if b == [] {
      assert a + b == a;
    } else {
      var n := |b| - 1;
      assert (a + b)[..|a| + n] == a + b[..n];
      SamplesConcat(a, b[..n]);
    }
  }

  lemma AddedSamples(rows: seq<Row>, side: bool, k: nat, level: real, lines: bool)
    requires Wide(rows) && k < |rows|
    ensures Samples(Added(rows, side, k, level, lines)) == if Below(rows, k, level) == side then [k] else []
  {
    var es := Added(rows, side, k, level, lines);
    if |es| == 3 {
      assert es[..2] == [Break(k), Crossing(k)] && es[..2][..1] == [Break(k)] && [Break(k)][..0] == [];
      assert Samples(es[..2]) == Samples([Break(k)]);
    } else if |es| == 1 {
      assert es[..0] == [];
    }
  }

  /** Each list holds exactly the samples of its side, in order. */
  lemma {:induction false} SamplesInOrder(rows: seq<Row>, side: bool, n: nat, level: real, lines: bool)
    requires Wide(rows) && n <= |rows|
    ensures Samples(Entries(rows, side, n, level, lines)) == SamplesOf(rows, side, n, level)
  {
    if n > 0 {
      SamplesInOrder(rows, side, n - 1, level, lines);
      SamplesAppended(rows, side, n - 1, level, lines, Entries(rows, side, n - 1, level, lines));
    }
  }

  lemma SamplesAppended(rows: seq<Row>, side: bool, k: nat, level: real, lines: bool, es: seq<Entry>)
    requires Wide(rows) && k < |rows| && Samples(es) == SamplesOf(rows, side, k, level)
    ensures Samples(es + Added(rows, side, k, level, lines)) == SamplesOf(rows, side, k + 1, level)
  {
    AddedSamples(rows, side, k, level, lines);
    SamplesConcat(es, Added(rows, side, k, level, lines));
  }

  // ---- what the lists draw ----

  function PointOf(r: Row): Point
    requires |r| >= 2
  {
    Point(X(r), Y(r))
  }

  /** The lines drawn for the first n rows: one between every two neighbouring points. */
  function Drawn(rows: seq<Row>, n: nat): seq<Segment>
    requires Wide(rows) && n <= |rows|
  {
    if n <= 1 then []
    else Drawn(rows, n - 1) +
         (if IsGap(rows[n - 2]) || IsGap(rows[n - 1]) then []
          else [Segment(PointOf(rows[n - 2]), PointOf(rows[n - 1]))])
  }

  /** The piece of the series between samples k - 1 and k that lies on one side, as a list. */
  function Piece(rows: seq<Row>, side: bool, k: nat, level: real): seq<Segment>
    requires Wide(rows) && 0 < k < |rows|
  {
    var p, q := PointOf(rows[k - 1]), PointOf(rows[k]);
    var c := Point(CrossingX(rows, k, level), level);
    if Below(rows, k, level) == Below(rows, k - 1, level) then
      if Below(rows, k, level) == side then [Segment(p, q)] else []
    else if Below(rows, k, level) == side then [Segment(c, q)]
    else [Segment(p, c)]
  }

  function Pieces(rows: seq<Row>, side: bool, n: nat, level: real): seq<Segment>
    requires Wide(rows) && n <= |rows|
  {
    if n <= 1 then [] else Pieces(rows, side, n - 1, level) + Piece(rows, side, n - 1, level)
  }

  lemma {:induction false} DrawnPrefix(a: seq<Row>, b: seq<Row>, n: nat)
    requires Wide(a) && Wide(b) && n <= |a|
    ensures Drawn(a + b, n) == Drawn(a, n)
  {
    if n > 1 { DrawnPrefix(a, b, n - 1); }
  }

  /** Appending a row draws the line from the last row to it. */
  lemma DrawnPush(a: seq<Row>, r: Row)
    requires Wide(a) && |r| >= 2
    ensures Drawn(a + [r], |a| + 1) ==
            Drawn(a, |a|) + (if a == [] || IsGap(a[|a| - 1]) || IsGap(r) then []
                             else [Segment(PointOf(a[|a| - 1]), PointOf(r))])
  {
    DrawnPrefix(a, [r], |a|);
  }

  /** A list ends with the last sample when that is on its side. */
  lemma LastEntry(rows: seq<Row>, side: bool, n: nat, level: real, lines: bool)
    requires Wide(rows) && 0 < n <= |rows| && Below(rows, n - 1, level) == side
    ensures
      var es := Entries(rows, side, n, level, lines);
      es != [] && es[|es| - 1] == Sample(n - 1)
  {
  }

  lemma RenderPush(rows: seq<Row>, es: seq<Entry>, e: Entry, level: real)
    requires Wide(rows) && AllOk(rows, es) && EntryOk(rows, e)
    ensures AllOk(rows, es + [e])
    ensures RenderAll(rows, es + [e], level) == RenderAll(rows, es, level) + [Render(rows, e, level)]
  {
  }

  /** The drawing of a list of entries. */
  function DrawnOf(rows: seq<Row>, es: seq<Entry>, level: real): seq<Segment>
    requires Wide(rows) && AllOk(rows, es)
  {
    Drawn(RenderAll(rows, es, level), |es|)
  }

  function IsBreak(rows: seq<Row>, e: Entry): bool
    requires Wide(rows) && EntryOk(rows, e)
  {
    e.Break? || (e.Sample? && IsGap(rows[e.k]))
  }

  lemma DrawnOfPush(rows: seq<Row>, es: seq<Entry>, e: Entry, level: real)
    requires Wide(rows) && AllOk(rows, es) && EntryOk(rows, e)
    ensures AllOk(rows, es + [e])
    ensures
      DrawnOf(rows, es + [e], level) ==
      DrawnOf(rows, es, level) +
      (if es == [] || IsBreak(rows, es[|es| - 1]) || IsBreak(rows, e) then []
       else [Segment(PointOf(Render(rows, es[|es| - 1], level)), PointOf(Render(rows, e, level)))])
  {
    RenderPush(rows, es, e, level);
    DrawnPush(RenderAll(rows, es, level), Render(rows, e, level));
  }

  lemma CrossingDrawn(rows: seq<Row>, k: nat, level: real, es: seq<Entry>)
    requires Wide(rows) && 0 < k < |rows| && !IsGap(rows[k]) && AllOk(rows, es)
    ensures AllOk(rows, es + [Break(k), Crossing(k), Sample(k)])
    ensures DrawnOf(rows, es + [Break(k), Crossing(k), Sample(k)], level) ==
            DrawnOf(rows, es, level) + [Segment(Point(CrossingX(rows, k, level), level), PointOf(rows[k]))]
  {
    var e1 := es + [Break(k)];
    var e2 := e1 + [Crossing(k)];
    DrawnOfPush(rows, es, Break(k), level);
    DrawnOfPush(rows, e1, Crossing(k), level);
    DrawnOfPush(rows, e2, Sample(k), level);
    assert es + [Break(k), Crossing(k), Sample(k)] == e2 + [Sample(k)];
  }

  lemma AddedDrawn(rows: seq<Row>, side: bool, k: nat, level: real, es: seq<Entry>)
    requires Wide(rows) && 0 < k < |rows| && !IsGap(rows[k - 1]) && !IsGap(rows[k]) && AllOk(rows, es)
    requires Below(rows, k - 1, level) == side ==> es != [] && es[|es| - 1] == Sample(k - 1)
    ensures AllOk(rows, es + Added(rows, side, k, level, true))
    ensures DrawnOf(rows, es + Added(rows, side, k, level, true), level) ==
        DrawnOf(rows, es, level) + Piece(rows, side, k, level)
  {
    var added := Added(rows, side, k, level, true);
    if |added| == 3 {
      CrossingDrawn(rows, k, level, es);
    } else if |added| == 1 {
      DrawnOfPush(rows, es, added[0], level);
      assert added == [added[0]];
    } else {
      assert es + added == es;
    }
  }

  // ---- gaps ----

  /** The pieces on one side of a series with gaps: none next to a gap. */
  function SolidPieces(rows: seq<Row>, side: bool, n: nat, level: real): seq<Segment>
    requires Wide(rows) && n <= |rows|
  {
    if n <= 1 then []
    else
      SolidPieces(rows, side, n - 1, level)
      + (if IsGap(rows[n - 2]) || IsGap(rows[n - 1]) then [] else Piece(rows, side, n - 1, level))
  }

  /** Sample a is a point on the side, and every gap between it and sample n goes to the other list. */
  predicate IsOpenEnd(rows: seq<Row>, side: bool, a: nat, n: nat, level: real)
    requires Wide(rows) && a < n <= |rows|
  {
    && !IsGap(rows[a]) && Below(rows, a, level) == side
    && forall c :: a < c < n && IsGap(rows[c]) ==> Below(rows, c, level) != side
  }

  /** The list still has an open end when it gets to sample n. */
  predicate HasOpenEnd(rows: seq<Row>, side: bool, n: nat, level: real)
    requires Wide(rows) && n <= |rows|
  {
    exists a :: 0 <= a < n && IsOpenEnd(rows, side, a, n, level)
  }

  /** Sample b is a point on the side right after a gap that leaves the list with an open end. */
  predicate Bridges(rows: seq<Row>, side: bool, b: nat, level: real)
    requires Wide(rows) && 0 < b < |rows|
  {
    IsGap(rows[b - 1]) && !IsGap(rows[b]) && Below(rows, b, level) == side && HasOpenEnd(rows, side, b, level)
  }

  function BridgesBefore(rows: seq<Row>, side: bool, n: nat, level: real): nat
    requires Wide(rows) && n <= |rows|
  {
    if n <= 1 then 0 else BridgesBefore(rows, side, n - 1, level) + (if Bridges(rows, side, n - 1, level) then 1 else 0)
  }

  /** Some entries end with one that a further point is joined to. */
  predicate EndsOpen(rows: seq<Row>, es: seq<Entry>)
    requires Wide(rows) && AllOk(rows, es)
  {
    es != [] && !IsBreak(rows, es[|es| - 1])
  }

  lemma OpenEndStep(rows: seq<Row>, side: bool, n: nat, level: real)
    requires Wide(rows) && n < |rows|
    ensures HasOpenEnd(rows, side, n + 1, level) <==>
      (if Below(rows, n, level) == side then !IsGap(rows[n]) else HasOpenEnd(rows, side, n, level))
  {
    if Below(rows, n, level) == side {
      if !IsGap(rows[n]) { assert IsOpenEnd(rows, side, n, n + 1, level); }
    } else {
      forall a | 0 <= a < n
        ensures IsOpenEnd(rows, side, a, n + 1, level) <==> IsOpenEnd(rows, side, a, n, level)
      {
      }
      if HasOpenEnd(rows, side, n + 1, level) {
        var a :| 0 <= a < n + 1 && IsOpenEnd(rows, side, a, n + 1, level);
        assert a < n && IsOpenEnd(rows, side, a, n, level);
      }
    }
  }

  /** Whether a list ends open can be read off the samples. */
  lemma {:induction false} EndsOpenMeaning(rows: seq<Row>, side: bool, n: nat, level: real)
    requires Wide(rows) && n <= |rows|
    ensures AllOk(rows, Entries(rows, side, n, level, true))
    ensures EndsOpen(rows, Entries(rows, side, n, level, true)) <==> HasOpenEnd(rows, side, n, level)
  {
    EntriesOk(rows, side, n, level, true);
    if n > 0 {
      var k := n - 1;
      EndsOpenMeaning(rows, side, k, level);
      OpenEndStep(rows, side, k, level);
      if Below(rows, k, level) == side {
        LastEntry(rows, side, n, level, true);
      } else if Crosses(rows, k, level, true) {
        assert IsOpenEnd(rows, side, k - 1, k, level);
        assert Added(rows, side, k, level, true) == [Crossing(k)];
      }
    }
  }

  /** What a sample adds to the drawing of a list next to a gap: at most one line. */
  lemma GapDrawn(rows: seq<Row>, side: bool, k: nat, level: real, es: seq<Entry>)
    requires Wide(rows) && 0 < k < |rows| && (IsGap(rows[k - 1]) || IsGap(rows[k])) && AllOk(rows, es)
    requires EndsOpen(rows, es) <==> HasOpenEnd(rows, side, k, level)
    ensures AllOk(rows, es + Added(rows, side, k, level, true))
    ensures
      var before, after := DrawnOf(rows, es, level), DrawnOf(rows, es + Added(rows, side, k, level, true), level);
      if Bridges(rows, side, k, level) then |after| == |before| + 1 else after == before
  {
    assert !Crosses(rows, k, level, true);
    if Below(rows, k, level) == side {
      DrawnOfPush(rows, es, Sample(k), level);
    } else {
      assert es + [] == es;
    }
  }

  lemma StepDrawn(rows: seq<Row>, side: bool, k: nat, level: real, es: seq<Entry>)
    requires Wide(rows) && 0 < k < |rows| && AllOk(rows, es) && es == Entries(rows, side, k, level, true)
    ensures AllOk(rows, es + Added(rows, side, k, level, true))
    ensures
      var before, after := DrawnOf(rows, es, level), DrawnOf(rows, es + Added(rows, side, k, level, true), level);
      var piece := if IsGap(rows[k - 1]) || IsGap(rows[k]) then [] else Piece(rows, side, k, level);
      if Bridges(rows, side, k, level) then |after| == |before| + |piece| + 1 else after == before + piece
  {
    if IsGap(rows[k - 1]) || IsGap(rows[k]) {
      EndsOpenMeaning(rows, side, k, level);
      GapDrawn(rows, side, k, level, es);
    } else {
      if Below(rows, k - 1, level) == side { LastEntry(rows, side, k, level, true); }
      AddedDrawn(rows, side, k, level, es);
    }
  }

  /** A list draws its pieces and one line more for every bridge. */
  lemma {:induction false} ListDrawsPiecesAndBridges(rows: seq<Row>, side: bool, n: nat, level: real)
    requires Wide(rows) && n <= |rows|
    ensures AllOk(rows, Entries(rows, side, n, level, true))
    ensures
      var drawn, pieces := DrawnOf(rows, Entries(rows, side, n, level, true), level), SolidPieces(rows, side, n, level);
      && |drawn| == |pieces| + BridgesBefore(rows, side, n, level)
      && (BridgesBefore(rows, side, n, level) == 0 ==> drawn == pieces)
  {
    EntriesOk(rows, side, n, level, true);
    if n == 1 {
      assert |Entries(rows, side, 1, level, true)| <= 1;
    } else if n > 1 {
      var k, es := n - 1, Entries(rows, side, n - 1, level, true);
      ListDrawsPiecesAndBridges(rows, side, k, level);
      StepDrawn(rows, side, k, level, es);
      assert Entries(rows, side, n, level, true) == es + Added(rows, side, k, level, true);
      var piece := if IsGap(rows[k - 1]) || IsGap(rows[k]) then [] else Piece(rows, side, k, level);
      assert SolidPieces(rows, side, n, level) == SolidPieces(rows, side, k, level) + piece;
    }
  }

  lemma {:induction false} NoBridges(rows: seq<Row>, side: bool, n: nat, level: real)
    requires Wide(rows) && n <= |rows|
    ensures BridgesBefore(rows, side, n, level) == 0 <==> forall b :: 0 < b < n ==> !Bridges(rows, side, b, level)
  {
    if n > 1 { NoBridges(rows, side, n - 1, level); }
  }

  lemma {:induction false} SolidIsWhole(rows: seq<Row>, side: bool, n: nat, level: real)
    requires Wide(rows) && GapFree(rows) && n <= |rows|
    ensures SolidPieces(rows, side, n, level) == Pieces(rows, side, n, level)
  {
    if n > 1 { SolidIsWhole(rows, side, n - 1, level); }
  }

  /** Main result: for a gap-free line series, what each list draws is exactly the pieces of the series on
      its side. */
  lemma ListDrawsItsPieces(rows: seq<Row>, side: bool, n: nat, level: real)
    requires Wide(rows) && GapFree(rows) && n <= |rows|
    ensures AllOk(rows, Entries(rows, side, n, level, true))
    ensures DrawnOf(rows, Entries(rows, side, n, level, true), level) == Pieces(rows, side, n, level)
  {
    ListDrawsPiecesAndBridges(rows, side, n, level);
    NoBridges(rows, side, n, level);
    SolidIsWhole(rows, side, n, level);
  }

  lemma SplitDrawsPieces(rows: seq<Row>, side: bool, level: real)
    requires Wide(rows) && GapFree(rows)
    ensures
      var list := SplitRows(rows, side, level, true);
      Drawn(list, |list|) == Pieces(rows, side, |rows|, level)
  {
    ListDrawsItsPieces(rows, side, |rows|, level);
  }

  /** For a series with any gaps, a list draws exactly its pieces of the series if and only if no sample bridges
      a gap. */
  lemma GapIsBridged(rows: seq<Row>, side: bool, level: real)
    requires Wide(rows)
    ensures
      var list := SplitRows(rows, side, level, true);
      Drawn(list, |list|) == SolidPieces(rows, side, |rows|, level)
      <==> forall b :: 0 < b < |rows| ==> !Bridges(rows, side, b, level)
  {
    ListDrawsPiecesAndBridges(rows, side, |rows|, level);
    NoBridges(rows, side, |rows|, level);
  }

  /** Sample b is a point on the side right after a gap, and another one is somewhere before. */
  predicate AroundGap(rows: seq<Row>, side: bool, b: nat, level: real)
    requires Wide(rows) && 0 < b < |rows|
  {
    && IsGap(rows[b - 1]) && IsSolidOn(rows, side, b, level)
    && exists a :: 0 <= a < b && IsSolidOn(rows, side, a, level)
  }

  predicate IsSolidOn(rows: seq<Row>, side: bool, k: nat, level: real)
    requires Wide(rows) && k < |rows|
  {
    !IsGap(rows[k]) && Below(rows, k, level) == side
  }

  lemma BridgesMeaning(rows: seq<Row>, side: bool, b: nat, level: real)
    requires Wide(rows) && 0 < b < |rows|
    requires forall k :: 0 <= k < |rows| && IsGap(rows[k]) ==> Below(rows, k, level) != side
    ensures Bridges(rows, side, b, level) <==> AroundGap(rows, side, b, level)
  {
    if Bridges(rows, side, b, level) {
      var a :| 0 <= a < b && IsOpenEnd(rows, side, a, b, level);
      assert IsSolidOn(rows, side, a, level);
    }
    if AroundGap(rows, side, b, level) {
      var a :| 0 <= a < b && IsSolidOn(rows, side, a, level);
      assert IsOpenEnd(rows, side, a, b, level);
    }
  }

  /** The library gives a gap no height at all, which counts as height 0. Then a list draws exactly its pieces if
      and only if height 0 is on its side, or none of its points follows a gap with another of its points before. */
  lemma NullGapIsBridged(rows: seq<Row>, side: bool, level: real)
    requires Wide(rows) && forall k :: 0 <= k < |rows| && IsGap(rows[k]) ==> Y(rows[k]) == 0.0
    ensures
      var list := SplitRows(rows, side, level, true);
      Drawn(list, |list|) == SolidPieces(rows, side, |rows|, level)
      <==> (0.0 < level) == side || forall b :: 0 < b < |rows| ==> !AroundGap(rows, side, b, level)
  {
    GapIsBridged(rows, side, level);
    forall b | 0 < b < |rows|
      ensures Bridges(rows, side, b, level) <==> (0.0 < level) != side && AroundGap(rows, side, b, level)
    {
      if (0.0 < level) != side {
        BridgesMeaning(rows, side, b, level);
      } else if IsGap(rows[b - 1]) {
        OpenEndStep(rows, side, b - 1, level);
      }
    }
  }

  /** An instance: two points above the level 1 with a gap between them, which the upper list draws a line across. */
  lemma BridgeInstance()
    ensures
      var rows: seq<Row> := [[Num(0.0), Num(5.0)], [Null, Null], [Num(1.0), Num(6.0)]];
      var list := SplitRows(rows, false, 1.0, true);
      Drawn(list, |list|) != SolidPieces(rows, false, |rows|, 1.0)
  {
    var rows: seq<Row> := [[Num(0.0), Num(5.0)], [Null, Null], [Num(1.0), Num(6.0)]];
    NullGapIsBridged(rows, false, 1.0);
    assert IsSolidOn(rows, false, 0, 1.0);
    assert AroundGap(rows, false, 2, 1.0);
  }

  // ---- the pieces are the series ----

  /** A crossing lies on the level and on its segment. */
  lemma CrossingOnSegment(rows: seq<Row>, k: nat, level: real) returns (t: real)
    requires Wide(rows) && 0 < k < |rows| && Below(rows, k, level) != Below(rows, k - 1, level)
    ensures 0.0 <= t <= 1.0
    ensures At(Segment(PointOf(rows[k - 1]), PointOf(rows[k])), t) == Point(CrossingX(rows, k, level), level)
  {
    t := LevelOnSegment(PointOf(rows[k - 1]), PointOf(rows[k]), level);
  }

  /** A level between the heights of two points is met on the segment. */
  lemma LevelOnSegment(p: Point, q: Point, level: real) returns (t: real)
    requires p.y != q.y && (p.y <= level <= q.y || q.y <= level <= p.y)
    ensures 0.0 <= t <= 1.0 && At(Segment(p, q), t) == Point(LevelX(p.x, p.y, q.x, q.y, level), level)
  {
    var dx, dy := q.x - p.x, q.y - p.y;
    t := (level - p.y) / dy;
    assert t * dy == level - p.y;
    ShareBounds(level - p.y, dy);
    LevelXIs(t, dx, dy, level - p.y, level - q.y);
    assert At(Segment(p, q), t) == Point(p.x + t * dx, p.y + t * dy);
    assert (t - 1.0) * dx == t * dx - dx;
  }

  lemma ShareBounds(n: real, d: real)
    requires d != 0.0 && (0.0 <= n <= d || d <= n <= 0.0)
    ensures 0.0 <= n / d <= 1.0
  {
    if d > 0.0 {
      QuotientBounds(n, d);
    } else {
      QuotientBounds(-n, -d);
      var q := n / d;
      assert q * d == n;
      assert q * (-d) == -n;
      SameFactor(q, (-n) / (-d), -d);
    }
  }

  lemma LevelXIs(t: real, dx: real, dy: real, above: real, below: real)
    requires dy != 0.0 && t * dy == above && below == above - dy
    ensures below * dx / dy == (t - 1.0) * dx
  {
    var q := below * dx / dy;
    assert q * dy == below * dx;
    assert (t - 1.0) * dy == below;
    assert ((t - 1.0) * dx) * dy == ((t - 1.0) * dy) * dx;
    SameFactor(q, (t - 1.0) * dx, dy);
  }

  /** A piece on the lower side nowhere rises above the level, and one on the upper side nowhere falls
      below it. */
  lemma PieceOnItsSide(rows: seq<Row>, side: bool, k: nat, level: real, s: Segment, p: Point)
    requires Wide(rows) && 0 < k < |rows| && s in Piece(rows, side, k, level) && OnSegment(s, p)
    ensures if side then p.y <= level else p.y >= level
  {
    var t :| 0.0 <= t <= 1.0 && At(s, t) == p;
    HeightBetween(s, t);
  }

  /** The pieces of both lists between two samples are together the segment between them. */
  lemma PiecesTraceSegment(rows: seq<Row>, k: nat, level: real, p: Point)
    requires Wide(rows) && 0 < k < |rows|
    ensures OnSegment(Segment(PointOf(rows[k - 1]), PointOf(rows[k])), p) <==>
            exists s :: s in Piece(rows, true, k, level) + Piece(rows, false, k, level) && OnSegment(s, p)
  {
    var whole := Segment(PointOf(rows[k - 1]), PointOf(rows[k]));
    var both := Piece(rows, true, k, level) + Piece(rows, false, k, level);
    if Below(rows, k, level) == Below(rows, k - 1, level) {
      assert both == [whole];
      assert both[0] in both;
    } else {
      var t := CrossingOnSegment(rows, k, level);
      var c := Point(CrossingX(rows, k, level), level);
      var front, back := Segment(whole.a, c), Segment(c, whole.b);
      TwoParts(whole, t, p);
      assert both == [front, back] || both == [back, front];
      assert front in both && back in both;
    }
  }

  // ---- the loop ----

  /** The cells of some entries. */
  ghost function CellsOf(rows: seq<Row>, es: seq<Entry>, level: real): seq<Cell>
    requires Wide(rows) && AllOk(rows, es)
  {
    Flatten(RenderAll(rows, es, level))
  }

  lemma CellsOfPush(rows: seq<Row>, es: seq<Entry>, e: Entry, level: real)
    requires Wide(rows) && AllOk(rows, es) && EntryOk(rows, e)
    ensures AllOk(rows, es + [e]) && CellsOf(rows, es + [e], level) == CellsOf(rows, es, level) + Render(rows, e, level)
  {
    RenderPush(rows, es, e, level);
    FlattenPush(RenderAll(rows, es, level), Render(rows, e, level));
  }

  /** What sample k adds to a list, as cells. */
  ghost function AddedCells(rows: seq<Row>, side: bool, k: nat, level: real, lines: bool): seq<Cell>
    requires Wide(rows) && k < |rows|
  {
    if Crosses(rows, k, level, lines) then
      if Below(rows, k, level) == side
      then Render(rows, Break(k), level) + Render(rows, Crossing(k), level) + Render(rows, Sample(k), level)
      else Render(rows, Crossing(k), level)
    else if Below(rows, k, level) == side then Render(rows, Sample(k), level)
    else []
  }

  lemma AddCells(rows: seq<Row>, side: bool, k: nat, level: real, lines: bool)
    requires Wide(rows) && k < |rows| && AllOk(rows, Entries(rows, side, k, level, lines))
    ensures AllOk(rows, Entries(rows, side, k + 1, level, lines))
    ensures CellsOf(rows, Entries(rows, side, k + 1, level, lines), level) ==
            CellsOf(rows, Entries(rows, side, k, level, lines), level) + AddedCells(rows, side, k, level, lines)
  {
    CellsAppended(rows, side, k, level, lines, Entries(rows, side, k, level, lines));
  }

  lemma CellsAppended(rows: seq<Row>, side: bool, k: nat, level: real, lines: bool, es: seq<Entry>)
    requires Wide(rows) && k < |rows| && AllOk(rows, es)
    ensures
      var more := es + Added(rows, side, k, level, lines);
      && AllOk(rows, more)
      && CellsOf(rows, more, level) == CellsOf(rows, es, level) + AddedCells(rows, side, k, level, lines)
  {
    var added := Added(rows, side, k, level, lines);
    if |added| == 3 {
      CellsOfThree(rows, es, k, level);
    } else if |added| == 1 {
      CellsOfPush(rows, es, added[0], level);
      assert added == [added[0]];
    } else {
      assert es + added == es;
    }
  }

  lemma CellsOfThree(rows: seq<Row>, es: seq<Entry>, k: nat, level: real)
    requires Wide(rows) && 0 < k < |rows| && AllOk(rows, es)
    ensures
      var more := es + [Break(k), Crossing(k), Sample(k)];
      && AllOk(rows, more)
      && CellsOf(rows, more, level) ==
         CellsOf(rows, es, level)
         + (Render(rows, Break(k), level) + Render(rows, Crossing(k), level) + Render(rows, Sample(k), level))
  {
    var e1 := es + [Break(k)];
    var e2 := e1 + [Crossing(k)];
    CellsOfPush(rows, es, Break(k), level);
    CellsOfPush(rows, e1, Crossing(k), level);
    CellsOfPush(rows, e2, Sample(k), level);
    assert es + [Break(k), Crossing(k), Sample(k)] == e2 + [Sample(k)];
  }

  /** One round of the loop. `p` and `prevp` are the lists this sample and the one before it go to: `true`
      for the list below the level. */
  method SplitSample(thres0: seq<Cell>, new0: seq<Cell>, prevp: bool, first: bool, prevx: Cell, prevy: Cell, row: Row,
                     below: real, addCrossingPoints: bool, ghost rows: seq<Row>, ghost k: nat)
    returns (threspoints: seq<Cell>, newpoints: seq<Cell>, p: bool)
    requires Wide(rows) && k < |rows| && row == rows[k] && (first <==> k == 0)
    requires !first ==> prevx == rows[k - 1][0] && prevy == rows[k - 1][1] && prevp == Below(rows, k - 1, below)
    ensures p == Below(rows, k, below)
    ensures threspoints == thres0 + AddedCells(rows, true, k, below, addCrossingPoints)
    ensures newpoints == new0 + AddedCells(rows, false, k, below, addCrossingPoints)
  {
    threspoints, newpoints := thres0, new0;
    var x, y := row[0], row[1];
    p := y.Val() < below;
    if addCrossingPoints && !first && prevp != p && x != Null && prevx != Null {
      var interx := LevelX(prevx.Val(), prevy.Val(), x.Val(), y.Val(), below);
      var crossing := [Num(interx), Num(below)] + row[2..];
      var gap := [Null, Null] + row[2..];
      assert interx == CrossingX(rows, k, below);
      if prevp {
        threspoints := threspoints + crossing;
        newpoints := newpoints + (gap + crossing);
      } else {
        newpoints := newpoints + crossing;
        threspoints := threspoints + (gap + crossing);
      }
    }
    if p {
      threspoints := threspoints + row;
    } else {
      newpoints := newpoints + row;
    }
  }

  /** The round at offset i. */
  method SplitAt(points: seq<Cell>, ps: nat, i: nat, thres0: seq<Cell>, new0: seq<Cell>, prevp: bool,
                 below: real, addCrossingPoints: bool, ghost rows: seq<Row>, ghost k: nat)
    returns (threspoints: seq<Cell>, newpoints: seq<Cell>, p: bool)
    requires Wide(rows) && k < |rows| && RowLaid(points, ps, rows, k, i)
    requires k > 0 ==> prevp == Below(rows, k - 1, below)
    ensures p == Below(rows, k, below)
    ensures threspoints == thres0 + AddedCells(rows, true, k, below, addCrossingPoints)
    ensures newpoints == new0 + AddedCells(rows, false, k, below, addCrossingPoints)
  {
    if i == 0 {
      threspoints, newpoints, p :=
        SplitSample(thres0, new0, prevp, true, Null, Null, points[i..i + ps], below, addCrossingPoints, rows, k);
    } else {
      assert points[i - ps] == rows[k - 1][0] && points[i - ps + 1] == rows[k - 1][1];
      threspoints, newpoints, p :=
        SplitSample(thres0, new0, prevp, false, points[i - ps], points[i - ps + 1], points[i..i + ps], below,
                    addCrossingPoints, rows, k);
    }
  }

  lemma AllListed(rows: seq<Row>, side: bool, level: real, lines: bool, cells: seq<Cell>)
    requires Wide(rows) && Listed(rows, side, |rows|, level, lines, cells)
    ensures cells == Flatten(SplitRows(rows, side, level, lines))
  {
  }

  /** The list on one side after k samples. */
  ghost predicate Listed(rows: seq<Row>, side: bool, k: nat, level: real, lines: bool, cells: seq<Cell>)
    requires Wide(rows) && k <= |rows|
  {
    var es := Entries(rows, side, k, level, lines);
    AllOk(rows, es) && cells == CellsOf(rows, es, level)
  }

  lemma ListedStep(rows: seq<Row>, k: nat, level: real, lines: bool, thres: seq<Cell>, others: seq<Cell>)
    requires Wide(rows) && k < |rows|
    requires Listed(rows, true, k, level, lines, thres) && Listed(rows, false, k, level, lines, others)
    ensures Listed(rows, true, k + 1, level, lines, thres + AddedCells(rows, true, k, level, lines))
    ensures Listed(rows, false, k + 1, level, lines, others + AddedCells(rows, false, k, level, lines))
  {
    AddCells(rows, true, k, level, lines);
    AddCells(rows, false, k, level, lines);
  }

  /** The loop between two rounds. */
  ghost predicate Splitting(points: seq<Cell>, ps: nat, rows: seq<Row>, k: nat, i: nat, p: bool, level: real,
                            lines: bool, thres: seq<Cell>, others: seq<Cell>)
    requires Wide(rows)
  {
    && i == RowStart(k, ps) && RowLaid(points, ps, rows, k, i)
    && (k > 0 ==> p == Below(rows, k - 1, level))
    && forall side :: Listed(rows, side, k, level, lines, ListOn(side, thres, others))
  }

  function ListOn(side: bool, thres: seq<Cell>, others: seq<Cell>): seq<Cell> {
    if side then thres else others
  }

  lemma NextSplitting(points: seq<Cell>, ps: nat, rows: seq<Row>, k: nat, i: nat, p: bool, level: real, lines: bool,
                      thres: seq<Cell>, others: seq<Cell>)
    requires Wide(rows) && Laid(points, ps, rows) && i < |points|
    requires Splitting(points, ps, rows, k, i, p, level, lines, thres, others)
    ensures k < |rows| && RowLaid(points, ps, rows, k, i) && (k > 0 ==> p == Below(rows, k - 1, level))
    ensures Splitting(points, ps, rows, k + 1, i + ps, Below(rows, k, level), level, lines,
                      thres + AddedCells(rows, true, k, level, lines),
                      others + AddedCells(rows, false, k, level, lines))
  {
    NextLaid(points, ps, rows, k, i);
    assert Listed(rows, true, k, level, lines, ListOn(true, thres, others));
    assert Listed(rows, false, k, level, lines, ListOn(false, thres, others));
    ListedStep(rows, k, level, lines, thres, others);
  }

  lemma FirstSplitting(points: seq<Cell>, ps: nat, rows: seq<Row>, p: bool, level: real, lines: bool)
    requires Wide(rows) && Laid(points, ps, rows)
    ensures Splitting(points, ps, rows, 0, 0, p, level, lines, [], [])
  {
    LaidAt(points, ps, rows, 0);
  }

  lemma LastSplitting(points: seq<Cell>, ps: nat, rows: seq<Row>, k: nat, p: bool, level: real, lines: bool,
                      thres: seq<Cell>, others: seq<Cell>)
    requires Wide(rows) && Splitting(points, ps, rows, k, |points|, p, level, lines, thres, others)
    ensures thres == Flatten(SplitRows(rows, true, level, lines))
    ensures others == Flatten(SplitRows(rows, false, level, lines))
  {
    assert Listed(rows, true, k, level, lines, ListOn(true, thres, others));
    assert Listed(rows, false, k, level, lines, ListOn(false, thres, others));
    AllListed(rows, true, level, lines, thres);
    AllListed(rows, false, level, lines, others);
  }

  method SplitNext(points: seq<Cell>, ps: nat, i: nat, thres0: seq<Cell>, new0: seq<Cell>, prevp: bool,
                   below: real, addCrossingPoints: bool, ghost rows: seq<Row>, ghost k: nat)
    returns (threspoints: seq<Cell>, newpoints: seq<Cell>, p: bool)
    requires Wide(rows) && Laid(points, ps, rows) && i < |points|
    requires Splitting(points, ps, rows, k, i, prevp, below, addCrossingPoints, thres0, new0)
    ensures k < |rows|
    ensures Splitting(points, ps, rows, k + 1, i + ps, p, below, addCrossingPoints, threspoints, newpoints)
  {
    NextSplitting(points, ps, rows, k, i, prevp, below, addCrossingPoints, thres0, new0);
    threspoints, newpoints, p := SplitAt(points, ps, i, thres0, new0, prevp, below, addCrossingPoints, rows, k);
  }

  /** The loop, given the rows that the array holds. */
  method SplitLaid(points: seq<Cell>, ps: nat, ghost rows: seq<Row>, below: real, addCrossingPoints: bool)
    returns (threspoints: seq<Cell>, newpoints: seq<Cell>)
    requires ps >= 2 && Wide(rows) && Laid(points, ps, rows)
    ensures threspoints == Flatten(SplitRows(rows, true, below, addCrossingPoints))
    ensures newpoints == Flatten(SplitRows(rows, false, below, addCrossingPoints))
  {
    ghost var k: nat := 0;
    threspoints, newpoints := [], [];
    var p := false;
    var i := 0;
    FirstSplitting(points, ps, rows, p, below, addCrossingPoints);
    while i < |points|
      invariant Splitting(points, ps, rows, k, i, p, below, addCrossingPoints, threspoints, newpoints)
      decreases |rows| - k
    {
      threspoints, newpoints, p :=
        SplitNext(points, ps, i, threspoints, newpoints, p, below, addCrossingPoints, rows, k);
      i, k := i + ps, k + 1;
    }
    LastSplitting(points, ps, rows, k, p, below, addCrossingPoints, threspoints, newpoints);
  }

  /** `thresholdData`: the two lists are the split of the series, and no crossing divides by zero. */
  method ThresholdData(points: seq<Cell>, ps: nat, below: real, addCrossingPoints: bool)
    returns (threspoints: seq<Cell>, newpoints: seq<Cell>)
    requires ps >= 2 && Whole(points, ps) && Wide(Rows(points, ps))
    ensures threspoints == Flatten(SplitRows(Rows(points, ps), true, below, addCrossingPoints))
    ensures newpoints == Flatten(SplitRows(Rows(points, ps), false, below, addCrossingPoints))
  {
    RowsAreLaid(points, ps);
    threspoints, newpoints := SplitLaid(points, ps, Rows(points, ps), below, addCrossingPoints);
  }
}
