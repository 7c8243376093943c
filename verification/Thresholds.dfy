/** An array of thresholds: the upper list is split again, level after level. */
module Thresholds {
  import opened Polyline
  import opened Threshold

  /** What is left above the first n levels. */
  function Upper(rows: seq<Row>, levels: seq<real>, n: nat, lines: bool): (r: seq<Row>)
    requires Wide(rows) && n <= |levels|
    ensures Wide(r)
  {
    if n == 0 then rows else SplitRows(Upper(rows, levels, n - 1, lines), false, levels[n - 1], lines)
  }

  /** A split draws, on either side, exactly the pieces of what is split. */
  ghost predicate IsExact(rows: seq<Row>, level: real)
    requires Wide(rows)
  {
    forall side ::
      Drawn(SplitRows(rows, side, level, true), |SplitRows(rows, side, level, true)|) ==
      SolidPieces(rows, side, |rows|, level)
  }

  predicate High(r: Row, level: real)
    requires |r| >= 2
  {
    !IsGap(r) && Y(r) >= level
  }

  /** The series dips below the level and comes back. */
  ghost predicate Dips(rows: seq<Row>, level: real)
    requires Wide(rows)
  {
    exists a, b, c :: DipsAt(rows, a, b, c, level)
  }

  predicate DipsAt(rows: seq<Row>, a: int, b: int, c: int, level: real)
    requires Wide(rows)
  {
    0 <= a < b < c < |rows| && High(rows[a], level) && !High(rows[b], level) && High(rows[c], level)
  }

  /** A split at `next` goes wrong on a list split at `level` before if that list has been opened again by a dip. */
  predicate Misjoins(level: real, next: real) {
    if level == next then 0.0 < next else next <= 0.0
  }

  // ---- reading a dip off in one pass ----

  /** 0: nothing high yet; 1: high; 2: high and then not; 3: high again. */
  function Advance(phase: nat, high: bool): nat {
    if phase == 0 && high then 1 else if phase == 1 && !high then 2 else if phase == 2 && high then 3 else phase
  }

  function Scan(rows: seq<Row>, level: real): (phase: nat)
    requires Wide(rows)
    ensures phase <= 3
  {
    if rows == [] then 0 else Advance(Scan(rows[..|rows| - 1], level), High(rows[|rows| - 1], level))
  }

  lemma ScanPush(rows: seq<Row>, r: Row, level: real)
    requires Wide(rows) && |r| >= 2
    ensures Scan(rows + [r], level) == Advance(Scan(rows, level), High(r, level))
  {
    assert (rows + [r])[..|rows|] == rows;
  }

  ghost predicate HasHigh(rows: seq<Row>, level: real)
    requires Wide(rows)
  {
    exists a :: 0 <= a < |rows| && High(rows[a], level)
  }

  ghost predicate Falls(rows: seq<Row>, level: real)
    requires Wide(rows)
  {
    exists a, b :: 0 <= a < b < |rows| && High(rows[a], level) && !High(rows[b], level)
  }

  lemma {:induction false} ScanMeaning(rows: seq<Row>, level: real)
    requires Wide(rows)
    ensures Scan(rows, level) >= 1 <==> HasHigh(rows, level)
    ensures Scan(rows, level) >= 2 <==> Falls(rows, level)
    ensures Scan(rows, level) == 3 <==> Dips(rows, level)
  {
    if rows != [] {
      var n := |rows| - 1;
      var init, r := rows[..n], rows[n];
      ScanMeaning(init, level);
      HighPush(init, r, level);
      FallsPush(init, r, level);
      DipsPush(init, r, level);
      assert init + [r] == rows;
    }
  }

  lemma HighPush(rows: seq<Row>, r: Row, level: real)
    requires Wide(rows) && |r| >= 2
    ensures HasHigh(rows + [r], level) <==> HasHigh(rows, level) || High(r, level)
  {
    var more, n := rows + [r], |rows|;
    assert more[n] == r;
    if a :| 0 <= a < n && High(rows[a], level) { assert High(more[a], level); }
  }

  lemma FallsPush(rows: seq<Row>, r: Row, level: real)
    requires Wide(rows) && |r| >= 2
    ensures Falls(rows + [r], level) <==> Falls(rows, level) || (HasHigh(rows, level) && !High(r, level))
  {
    var more, n := rows + [r], |rows|;
    assert more[n] == r;
    if a :| 0 <= a < n && High(rows[a], level) && !High(r, level) {
      assert High(more[a], level) && !High(more[n], level);
    }
    if Falls(rows, level) {
      var a, b :| 0 <= a < b < n && High(rows[a], level) && !High(rows[b], level);
      assert High(more[a], level) && !High(more[b], level);
    }
    if Falls(more, level) {
      var a, b :| 0 <= a < b <= n && High(more[a], level) && !High(more[b], level);
      assert more[a] == rows[a] && (b < n ==> more[b] == rows[b]);
    }
  }

  lemma DipsPush(rows: seq<Row>, r: Row, level: real)
    requires Wide(rows) && |r| >= 2
    ensures Dips(rows + [r], level) <==> Dips(rows, level) || (Falls(rows, level) && High(r, level))
  {
    var more, n := rows + [r], |rows|;
    assert more[n] == r;
    if Falls(rows, level) && High(r, level) {
      var a, b :| 0 <= a < b < n && High(rows[a], level) && !High(rows[b], level);
      assert DipsAt(more, a, b, n, level);
    }
    if Dips(rows, level) {
      var a, b, c :| DipsAt(rows, a, b, c, level);
      assert DipsAt(more, a, b, c, level);
    }
    if Dips(more, level) {
      var a, b, c :| DipsAt(more, a, b, c, level);
      if c < n {
        assert DipsAt(rows, a, b, c, level);
      } else {
        assert more[a] == rows[a] && more[b] == rows[b];
      }
    }
  }

  // ---- what an upper list looks like ----

  ghost predicate NullGaps(rows: seq<Row>)
    requires Wide(rows)
  {
    forall k :: 0 <= k < |rows| && IsGap(rows[k]) ==> Y(rows[k]) == 0.0
  }

  /** Next to a gap the list is at the level. */
  ghost predicate Calm(rows: seq<Row>, level: real)
    requires Wide(rows)
  {
    forall k :: 0 < k < |rows| && IsGap(rows[k - 1]) != IsGap(rows[k]) ==>
      Y(if IsGap(rows[k]) then rows[k - 1] else rows[k]) == level
  }

  ghost predicate Above(rows: seq<Row>, level: real)
    requires Wide(rows)
  {
    forall k :: 0 <= k < |rows| && !IsGap(rows[k]) ==> Y(rows[k]) >= level
  }

  ghost predicate Settled(rows: seq<Row>, level: real)
    requires Wide(rows)
  {
    NullGaps(rows) && Calm(rows, level) && Above(rows, level)
  }

  /** The list starts again after a gap. */
  ghost predicate Reopened(rows: seq<Row>)
    requires Wide(rows)
  {
    exists a, b :: 0 <= a < b < |rows| && !IsGap(rows[a]) && FollowsGap(rows, b)
  }

  predicate FollowsGap(rows: seq<Row>, b: int)
    requires Wide(rows)
  {
    0 < b < |rows| && IsGap(rows[b - 1]) && !IsGap(rows[b])
  }

  /** A row that goes on with a list of which `last` was the last. */
  predicate GoesOn(rows: seq<Row>, r: Row, level: real)
    requires Wide(rows) && |r| >= 2
  {
    && (if IsGap(r) then Y(r) == 0.0 else Y(r) >= level)
    && (rows != [] && IsGap(rows[|rows| - 1]) != IsGap(r) ==>
          Y(if IsGap(r) then rows[|rows| - 1] else r) == level)
  }

  lemma SettledPush(rows: seq<Row>, r: Row, level: real)
    requires Wide(rows) && |r| >= 2 && Settled(rows, level) && GoesOn(rows, r, level)
    ensures Settled(rows + [r], level)
  {
  }

  /** The upper list after n samples. */
  function UpperList(rows: seq<Row>, level: real, n: nat): (r: seq<Row>)
    requires Wide(rows) && n <= |rows|
    ensures Wide(r)
  {
    EntriesOk(rows, false, n, level, true);
    RenderAll(rows, Entries(rows, false, n, level, true), level)
  }

  /** The rows sample n adds to the upper list. */
  function AddedRows(rows: seq<Row>, level: real, n: nat): (r: seq<Row>)
    requires Wide(rows) && n < |rows|
    ensures Wide(r)
  {
    RenderAll(rows, Added(rows, false, n, level, true), level)
  }

  lemma UpperListStep(rows: seq<Row>, level: real, n: nat)
    requires Wide(rows) && n < |rows|
    ensures UpperList(rows, level, n + 1) == UpperList(rows, level, n) + AddedRows(rows, level, n)
  {
  }

  /** The end of the list: the last sample if that is on the upper side, else a gap or a point at the level. */
  predicate EndsWell(rows: seq<Row>, level: real, n: nat, list: seq<Row>)
    requires Wide(rows) && Wide(list) && n <= |rows|
  {
    if n == 0 then list == []
    else if !Below(rows, n - 1, level) then list != [] && list[|list| - 1] == rows[n - 1]
    else list == [] || IsGap(list[|list| - 1]) || Y(list[|list| - 1]) == level
  }

  lemma PushOne(list: seq<Row>, r: Row, level: real)
    requires Wide(list) && |r| >= 2 && Settled(list, level) && GoesOn(list, r, level)
    ensures Settled(list + [r], level) && (list + [r])[|list + [r]| - 1] == r
  {
    SettledPush(list, r, level);
  }

  /** Below `level` the rows are a series without gaps or a list that was split before. */
  ghost predicate Splits(rows: seq<Row>, was: real, level: real)
    requires Wide(rows)
  {
    NullGaps(rows) && Calm(rows, was) && was <= level && (was == level ==> Above(rows, was))
  }

  lemma StepSettles(rows: seq<Row>, was: real, level: real, n: nat, list: seq<Row>)
    requires Wide(rows) && n < |rows| && Splits(rows, was, level)
    requires Wide(list) && Settled(list, level) && EndsWell(rows, level, n, list)
    ensures Settled(list + AddedRows(rows, level, n), level)
    ensures EndsWell(rows, level, n + 1, list + AddedRows(rows, level, n))
  {
    var added := AddedRows(rows, level, n);
    if Crosses(rows, n, level, true) && !Below(rows, n, level) {
      EntrySettles(rows, level, n, list);
    } else if added != [] {
      if !Below(rows, n, level) { SampleGoesOn(rows, was, level, n, list); }
      PushOne(list, added[0], level);
      assert added == [added[0]];
    } else {
      assert list + added == list;
    }
  }

  lemma EntrySettles(rows: seq<Row>, level: real, n: nat, list: seq<Row>)
    requires Wide(rows) && n < |rows| && Wide(list) && Settled(list, level) && EndsWell(rows, level, n, list)
    requires Crosses(rows, n, level, true) && !Below(rows, n, level)
    ensures Settled(list + AddedRows(rows, level, n), level)
    ensures EndsWell(rows, level, n + 1, list + AddedRows(rows, level, n))
  {
    var added := AddedRows(rows, level, n);
    var l1 := list + [added[0]];
    var l2 := l1 + [added[1]];
    PushOne(list, added[0], level);
    PushOne(l1, added[1], level);
    PushOne(l2, added[2], level);
    assert list + added == l2 + [added[2]];
  }

  lemma SampleGoesOn(rows: seq<Row>, was: real, level: real, n: nat, list: seq<Row>)
    requires Wide(rows) && n < |rows| && Splits(rows, was, level) && !Below(rows, n, level)
    requires Wide(list) && EndsWell(rows, level, n, list) && !Crosses(rows, n, level, true)
    ensures GoesOn(list, rows[n], level)
  {
    if n > 0 && IsGap(rows[n - 1]) != IsGap(rows[n]) {
      assert Y(if IsGap(rows[n]) then rows[n - 1] else rows[n]) == was;
    }
  }

  lemma {:induction false} ListSettles(rows: seq<Row>, was: real, level: real, n: nat)
    requires Wide(rows) && n <= |rows| && Splits(rows, was, level)
    ensures Settled(UpperList(rows, level, n), level) && EndsWell(rows, level, n, UpperList(rows, level, n))
  {
    if n > 0 {
      ListSettles(rows, was, level, n - 1);
      UpperListStep(rows, level, n - 1);
      StepSettles(rows, was, level, n - 1, UpperList(rows, level, n - 1));
    }
  }

  // ---- what an upper list shows of the dips ----

  /** The list has seen what the series has, but for a fall at its very end. */
  predicate InStep(rows: seq<Row>, level: real, higher: real, n: nat, list: seq<Row>)
    requires Wide(rows) && Wide(list) && n <= |rows|
  {
    var phase, seen := Scan(rows[..n], higher), Scan(list, higher);
    seen == phase || (seen == 1 && phase == 2 && n > 0 && Below(rows, n - 1, level))
  }

  lemma ScanStep(rows: seq<Row>, higher: real, n: nat)
    requires Wide(rows) && n < |rows|
    ensures Scan(rows[..n + 1], higher) == Advance(Scan(rows[..n], higher), High(rows[n], higher))
    ensures !High(rows[n], higher) ==> Scan(rows[..n + 1], higher) != 1
  {
    assert rows[..n + 1] == rows[..n] + [rows[n]];
    ScanPush(rows[..n], rows[n], higher);
  }

  lemma StepInStep(rows: seq<Row>, was: real, level: real, higher: real, n: nat, list: seq<Row>)
    requires Wide(rows) && n < |rows| && Splits(rows, was, level) && level <= higher
    requires was == level && 0.0 < level ==> !Reopened(rows)
    requires Wide(list) && InStep(rows, level, higher, n, list)
    ensures InStep(rows, level, higher, n + 1, list + AddedRows(rows, level, n))
  {
    ScanStep(rows, higher, n);
    if n > 0 { ScanStep(rows, higher, n - 1); }
    if Below(rows, n, level) {
      LowerInStep(rows, was, level, higher, n, list);
    } else if Crosses(rows, n, level, true) {
      EntersInStep(rows, level, higher, n, list);
    } else {
      SampleInStep(rows, was, level, higher, n, list);
    }
  }

  /** Entered from below: a gap, the crossing and the sample. */
  lemma EntersInStep(rows: seq<Row>, level: real, higher: real, n: nat, list: seq<Row>)
    requires Wide(rows) && 0 < n < |rows| && level <= higher && Wide(list) && InStep(rows, level, higher, n, list)
    requires !Below(rows, n, level) && Crosses(rows, n, level, true) && Scan(rows[..n], higher) != 1
    ensures
      Scan(list + AddedRows(rows, level, n), higher) == Advance(Scan(rows[..n], higher), High(rows[n], higher))
  {
    var added := AddedRows(rows, level, n);
    var l1 := list + [added[0]];
    var l2 := l1 + [added[1]];
    ScanPush(list, added[0], higher);
    ScanPush(l1, added[1], higher);
    ScanPush(l2, added[2], higher);
    assert list + added == l2 + [added[2]];
    EnterPhases(Scan(rows[..n], higher), Scan(list, higher), High(added[1], higher), High(rows[n], higher));
  }

  lemma EnterPhases(phase: nat, seen: nat, crossing: bool, sample: bool)
    requires phase <= 3 && phase != 1 && (seen == phase || (seen == 1 && phase == 2)) && (crossing ==> sample)
    ensures Advance(Advance(Advance(seen, false), crossing), sample) == Advance(phase, sample)
  {
  }

  lemma LowerInStep(rows: seq<Row>, was: real, level: real, higher: real, n: nat, list: seq<Row>)
    requires Wide(rows) && n < |rows| && level <= higher && Wide(list) && InStep(rows, level, higher, n, list)
    requires Below(rows, n, level)
    requires n > 0 && !High(rows[n - 1], higher) ==> Scan(rows[..n], higher) != 1
    ensures
      var phase, seen := Advance(Scan(rows[..n], higher), false), Scan(list + AddedRows(rows, level, n), higher);
      seen == phase || (seen == 1 && phase == 2)
  {
    var added := AddedRows(rows, level, n);
    if added == [] {
      assert list + added == list;
    } else {
      assert added == [added[0]];
      ScanPush(list, added[0], higher);
      if High(added[0], higher) { assert High(rows[n - 1], higher); LastHigh(rows, higher, n); }
    }
  }

  lemma LastHigh(rows: seq<Row>, higher: real, n: nat)
    requires Wide(rows) && 0 < n <= |rows| && High(rows[n - 1], higher)
    ensures Scan(rows[..n], higher) == 1 || Scan(rows[..n], higher) == 3
  {
    ScanStep(rows, higher, n - 1);
  }

  lemma SampleInStep(rows: seq<Row>, was: real, level: real, higher: real, n: nat, list: seq<Row>)
    requires Wide(rows) && n < |rows| && Splits(rows, was, level) && level <= higher
    requires was == level && 0.0 < level ==> !Reopened(rows)
    requires Wide(list) && InStep(rows, level, higher, n, list)
    requires !Below(rows, n, level) && !Crosses(rows, n, level, true)
    ensures
      Scan(list + AddedRows(rows, level, n), higher) == Advance(Scan(rows[..n], higher), High(rows[n], higher))
  {
    var added := AddedRows(rows, level, n);
    assert added == [rows[n]];
    ScanPush(list, rows[n], higher);
    if n > 0 && Scan(rows[..n], higher) == 2 { NotReopened(rows, was, level, higher, n); }
  }

  lemma NotReopened(rows: seq<Row>, was: real, level: real, higher: real, n: nat)
    requires Wide(rows) && 0 < n < |rows| && Splits(rows, was, level) && level <= higher
    requires was == level && 0.0 < level ==> !Reopened(rows)
    requires Scan(rows[..n], higher) == 2
    ensures IsGap(rows[n - 1]) && Below(rows, n - 1, level) && !IsGap(rows[n]) ==> Below(rows, n, level)
  {
    ScanMeaning(rows[..n], higher);
    var a, b :| 0 <= a < b < n && High(rows[..n][a], higher) && !High(rows[..n][b], higher);
    assert !IsGap(rows[a]);
    if IsGap(rows[n - 1]) && !IsGap(rows[n]) && !Below(rows, n, level) {
      assert Y(rows[n]) == was && FollowsGap(rows, n);
    }
  }

  lemma {:induction false} ListInStep(rows: seq<Row>, was: real, level: real, higher: real, n: nat)
    requires Wide(rows) && n <= |rows| && Splits(rows, was, level) && level <= higher
    requires was == level && 0.0 < level ==> !Reopened(rows)
    ensures InStep(rows, level, higher, n, UpperList(rows, level, n))
  {
    if n > 0 {
      ListInStep(rows, was, level, higher, n - 1);
      UpperListStep(rows, level, n - 1);
      StepInStep(rows, was, level, higher, n - 1, UpperList(rows, level, n - 1));
    }
  }

  /** The upper list of a split is settled at its level, and dips below higher levels are those of the series. */
  lemma SplitKeeps(rows: seq<Row>, was: real, level: real, higher: real)
    requires Wide(rows) && Splits(rows, was, level) && level <= higher
    requires was == level && 0.0 < level ==> !Reopened(rows)
    ensures
      var list := SplitRows(rows, false, level, true);
      Settled(list, level) && (Dips(list, higher) <==> Dips(rows, higher))
  {
    var list := SplitRows(rows, false, level, true);
    assert list == UpperList(rows, level, |rows|) && rows[..|rows|] == rows;
    ListSettles(rows, was, level, |rows|);
    ListInStep(rows, was, level, higher, |rows|);
    ScanMeaning(rows, higher);
    ScanMeaning(list, higher);
  }

  // ---- when a split of an upper list is exact ----

  /** All points of a settled list are at its level or above it, so it dips where it has a gap. */
  lemma ReopenedIsDip(rows: seq<Row>, level: real)
    requires Wide(rows) && Settled(rows, level)
    ensures Reopened(rows) <==> Dips(rows, level)
  {
    if a, b :| 0 <= a < b < |rows| && !IsGap(rows[a]) && FollowsGap(rows, b) {
      assert DipsAt(rows, a, b - 1, b, level);
    }
    if a, b, c :| DipsAt(rows, a, b, c, level) { FirstAfterGap(rows, a, b, c); }
  }

  lemma {:induction false} FirstAfterGap(rows: seq<Row>, a: nat, g: nat, c: nat)
    requires Wide(rows) && a < g < c < |rows| && !IsGap(rows[a]) && IsGap(rows[g]) && !IsGap(rows[c])
    ensures Reopened(rows)
    decreases c
  {
    if IsGap(rows[c - 1]) { assert FollowsGap(rows, c); } else { FirstAfterGap(rows, a, g, c - 1); }
  }

  /** The last point before a gap is at the level. */
  lemma {:induction false} PointBeforeGap(rows: seq<Row>, level: real, a: nat, g: nat) returns (c: nat)
    requires Wide(rows) && Settled(rows, level) && a < g < |rows| && !IsGap(rows[a]) && IsGap(rows[g])
    ensures c < g && !IsGap(rows[c]) && Y(rows[c]) == level
    decreases g
  {
    if IsGap(rows[g - 1]) { c := PointBeforeGap(rows, level, a, g - 1); } else { c := g - 1; }
  }

  ghost predicate HasAround(rows: seq<Row>, side: bool, level: real)
    requires Wide(rows)
  {
    exists b :: 0 < b < |rows| && AroundGap(rows, side, b, level)
  }

  lemma AroundIsReopened(rows: seq<Row>, level: real, next: real, side: bool)
    requires Wide(rows) && Settled(rows, level) && level <= next && side == (level < next)
    ensures HasAround(rows, side, next) <==> Reopened(rows)
  {
    if b :| 0 < b < |rows| && AroundGap(rows, side, b, next) {
      var a :| 0 <= a < b && IsSolidOn(rows, side, a, next);
      assert !IsGap(rows[a]) && FollowsGap(rows, b);
    }
    if a, b :| 0 <= a < b < |rows| && !IsGap(rows[a]) && FollowsGap(rows, b) {
      var c := PointBeforeGap(rows, level, a, b - 1);
      assert IsSolidOn(rows, side, c, next) && IsSolidOn(rows, side, b, next);
      assert AroundGap(rows, side, b, next);
    }
  }

  /** Points of a settled list that directly follow a gap are at its level: none of them is on the other side. */
  lemma NoneOnOtherSide(rows: seq<Row>, level: real, next: real, side: bool, b: nat)
    requires Wide(rows) && Settled(rows, level) && level <= next && side == (level < next) && 0 < b < |rows|
    ensures !AroundGap(rows, !side, b, next)
  {
  }

  /** One side of a split, for a series whose gaps have height 0. */
  lemma SideExact(rows: seq<Row>, side: bool, level: real)
    requires Wide(rows) && NullGaps(rows)
    ensures
      var list := SplitRows(rows, side, level, true);
      Drawn(list, |list|) == SolidPieces(rows, side, |rows|, level)
      <==> (0.0 < level) == side || !HasAround(rows, side, level)
  {
    NullGapIsBridged(rows, side, level);
  }

  lemma SettledExact(rows: seq<Row>, level: real, next: real)
    requires Wide(rows) && Settled(rows, level) && level <= next
    ensures IsExact(rows, next) <==> !(Dips(rows, level) && Misjoins(level, next))
  {
    var side, other := level < next, level == next;
    SideExact(rows, true, next);
    SideExact(rows, false, next);
    AroundIsReopened(rows, level, next, side);
    assert !HasAround(rows, other, next) by {
      forall b | 0 < b < |rows| ensures !AroundGap(rows, other, b, next) {
        NoneOnOtherSide(rows, level, next, side, b);
      }
    }
    ReopenedIsDip(rows, level);
  }

  lemma WholeExact(rows: seq<Row>, level: real)
    requires Wide(rows) && GapFree(rows)
    ensures IsExact(rows, level)
  {
    SideExact(rows, true, level);
    SideExact(rows, false, level);
  }

  // ---- the whole chain ----

  ghost predicate Ascending(levels: seq<real>) {
    forall k :: 0 < k < |levels| ==> levels[k - 1] <= levels[k]
  }

  /** The series dips below one level and the next split misjoins what is left. */
  ghost predicate Fails(rows: seq<Row>, levels: seq<real>, k: nat)
    requires Wide(rows) && 0 < k < |levels|
  {
    Dips(rows, levels[k - 1]) && Misjoins(levels[k - 1], levels[k])
  }

  /** While nothing has failed, the list that is left is settled and has the dips of the series. */
  lemma {:induction false} UpperKeeps(rows: seq<Row>, levels: seq<real>, n: nat, higher: real)
    requires Wide(rows) && GapFree(rows) && Ascending(levels) && 0 < n <= |levels| && levels[n - 1] <= higher
    requires forall k :: 0 < k < n ==> !Fails(rows, levels, k)
    ensures Settled(Upper(rows, levels, n, true), levels[n - 1])
    ensures Dips(Upper(rows, levels, n, true), higher) <==> Dips(rows, higher)
  {
    var level := levels[n - 1];
    if n == 1 {
      SplitKeeps(rows, level - 1.0, level, higher);
    } else {
      var before, was := Upper(rows, levels, n - 1, true), levels[n - 2];
      UpperKeeps(rows, levels, n - 1, higher);
      UpperKeeps(rows, levels, n - 1, was);
      ReopenedIsDip(before, was);
      assert !Fails(rows, levels, n - 1);
      SplitKeeps(before, was, level, higher);
    }
  }

  /** Main result: splitting a series without gaps level after level draws exactly its pieces every time, if and only
      if the series never dips below a level and comes back where the next split misjoins what is left: at a level
      of at most 0, or at the same level again above 0. */
  lemma ChainIsExact(rows: seq<Row>, levels: seq<real>)
    requires Wide(rows) && GapFree(rows) && Ascending(levels)
    ensures
      (forall n :: 0 <= n < |levels| ==> IsExact(Upper(rows, levels, n, true), levels[n]))
      <==> forall k :: 0 < k < |levels| ==> !Fails(rows, levels, k)
  {
    if k :| 0 < k < |levels| && Fails(rows, levels, k) {
      var f := FirstFailure(rows, levels, k);
      ExactUnlessFails(rows, levels, f);
    }
    if forall k :: 0 < k < |levels| ==> !Fails(rows, levels, k) {
      forall n | 0 <= n < |levels| ensures IsExact(Upper(rows, levels, n, true), levels[n]) {
        if n == 0 { WholeExact(rows, levels[0]); } else { ExactUnlessFails(rows, levels, n); }
      }
    }
  }

  lemma {:induction false} FirstFailure(rows: seq<Row>, levels: seq<real>, k: nat) returns (f: nat)
    requires Wide(rows) && 0 < k < |levels| && Fails(rows, levels, k)
    ensures 0 < f <= k && Fails(rows, levels, f) && forall m :: 0 < m < f ==> !Fails(rows, levels, m)
  {
    if m :| 0 < m < k && Fails(rows, levels, m) { f := FirstFailure(rows, levels, m); } else { f := k; }
  }

  lemma ExactUnlessFails(rows: seq<Row>, levels: seq<real>, n: nat)
    requires Wide(rows) && GapFree(rows) && Ascending(levels) && 0 < n < |levels|
    requires forall k :: 0 < k < n ==> !Fails(rows, levels, k)
    ensures IsExact(Upper(rows, levels, n, true), levels[n]) <==> !Fails(rows, levels, n)
  {
    UpperKeeps(rows, levels, n, levels[n - 1]);
    SettledExact(Upper(rows, levels, n, true), levels[n - 1], levels[n]);
  }

  /** An instance: a series that dips below -5 and comes back, split at -5 and then at -1. */
  lemma DipInstance() returns (rows: seq<Row>)
    ensures rows == [[Num(0.0), Num(-0.5)], [Num(1.0), Num(-6.0)], [Num(2.0), Num(-0.5)]]
    ensures !IsExact(Upper(rows, [-5.0, -1.0], 1, true), -1.0)
  {
    rows := [[Num(0.0), Num(-0.5)], [Num(1.0), Num(-6.0)], [Num(2.0), Num(-0.5)]];
    assert DipsAt(rows, 0, 1, 2, -5.0);
    assert Fails(rows, [-5.0, -1.0], 1);
    ExactUnlessFails(rows, [-5.0, -1.0], 1);
  }

  // ---- on flat arrays ----

  lemma SplitShaped(rows: seq<Row>, side: bool, level: real, lines: bool, ps: nat)
    requires ps >= 2 && Shaped(rows, ps)
    ensures Shaped(SplitRows(rows, side, level, lines), ps)
  {
    var es := Entries(rows, side, |rows|, level, lines);
    EntriesOk(rows, side, |rows|, level, lines);
    forall m | 0 <= m < |es| ensures |Render(rows, es[m], level)| == ps {
    }
  }

  /** The points of the series that the first n levels put right after the original: one for each level that something
      lies below, the one made last in front. */
  ghost function SplitOff(rows: seq<Row>, levels: seq<real>, n: nat, lines: bool): seq<seq<Cell>>
    requires Wide(rows) && n <= |levels|
  {
    if n == 0 then []
    else
      var list := Flatten(SplitRows(Upper(rows, levels, n - 1, lines), true, levels[n - 1], lines));
      (if list == [] then [] else [list]) + SplitOff(rows, levels, n - 1, lines)
  }

  /** One level of the array. */
  method SplitLevel(points: seq<Cell>, ps: nat, level: real, addCrossingPoints: bool, ghost rows: seq<Row>)
    returns (threspoints: seq<Cell>, newpoints: seq<Cell>)
    requires ps >= 2 && Shaped(rows, ps) && points == Flatten(rows)
    ensures threspoints == Flatten(SplitRows(rows, true, level, addCrossingPoints))
    ensures newpoints == Flatten(SplitRows(rows, false, level, addCrossingPoints))
  {
    RowsOfFlatten(rows, ps);
    threspoints, newpoints := ThresholdData(points, ps, level, addCrossingPoints);
  }

  /** `processThresholds` on an array of thresholds, given in the order they are sorted into. */
  method ProcessThresholds(points: seq<Cell>, ps: nat, levels: seq<real>, addCrossingPoints: bool)
    returns (rest: seq<Cell>, inserted: seq<seq<Cell>>)
    requires ps >= 2 && Whole(points, ps) && Wide(Rows(points, ps))
    ensures rest == Flatten(Upper(Rows(points, ps), levels, |levels|, addCrossingPoints))
    ensures inserted == SplitOff(Rows(points, ps), levels, |levels|, addCrossingPoints)
  {
    ghost var rows := Rows(points, ps);
    ghost var upper, off := rows, SplitOff(rows, levels, 0, addCrossingPoints);
    RowsShaped(points, ps);
    FlattenOfRows(points, ps);
    rest, inserted := points, [];
    var n := 0;
    while n < |levels|
      invariant 0 <= n <= |levels| && Shaped(upper, ps) && rest == Flatten(upper) && inserted == off
      invariant upper == Upper(rows, levels, n, addCrossingPoints)
      invariant off == SplitOff(rows, levels, n, addCrossingPoints)
    {
      ghost var next := SplitRows(upper, false, levels[n], addCrossingPoints);
      ghost var list := Flatten(SplitRows(upper, true, levels[n], addCrossingPoints));
      NextLevel(rows, levels, n, addCrossingPoints, ps, upper, off);
      var threspoints;
      threspoints, rest := SplitLevel(rest, ps, levels[n], addCrossingPoints, upper);
      if |threspoints| > 0 {
        inserted := [threspoints] + inserted;
      }
      n, upper, off := n + 1, next, if list == [] then off else [list] + off;
    }
  }

  lemma NextLevel(rows: seq<Row>, levels: seq<real>, n: nat, lines: bool, ps: nat, upper: seq<Row>, off: seq<seq<Cell>>)
    requires ps >= 2 && Shaped(rows, ps) && n < |levels| && Shaped(upper, ps)
    requires upper == Upper(rows, levels, n, lines) && off == SplitOff(rows, levels, n, lines)
    ensures
      var next, list := SplitRows(upper, false, levels[n], lines), Flatten(SplitRows(upper, true, levels[n], lines));
      && Shaped(next, ps) && next == Upper(rows, levels, n + 1, lines)
      && (if list == [] then off else [list] + off) == SplitOff(rows, levels, n + 1, lines)
  {
    SplitShaped(upper, false, levels[n], lines, ps);
    assert [] + off == off;
  }
}
