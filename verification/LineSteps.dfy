/** The line-steps rule of both plug-ins. */
module LineSteps {
  import opened Polyline

  /** The new row is a point that has neither the x nor the height of the row before it. */
  predicate NeedsMiddle(last: Row, r: Row)
    requires |last| >= 2 && |r| >= 2
  {
    !IsGap(r) && r[0] != last[0] && r[1] != last[1]
  }

  /** The point at the new x and the old height. */
  function Middle(last: Row, r: Row): (m: Row)
    requires |last| >= 2 && |r| >= 2
    ensures |m| == |r| && m[1] == last[1] && forall c :: 0 <= c < |r| && c != 1 ==> m[c] == r[c]
  {
    r[1 := last[1]]
  }

  /** A row put behind the rows written so far. */
  function PutRow(rows: seq<Row>, r: Row): (more: seq<Row>)
    requires Wide(rows) && |r| >= 2
    ensures Wide(more) && more != [] && more[|more| - 1] == r
  {
    var n := |rows|;
    if n > 0 && NeedsMiddle(rows[n - 1], r) then rows + [Middle(rows[n - 1], r), r] else rows + [r]
  }

  /** The rows as they are written: with the rule if the line is drawn in steps. */
  function Stepped(rows: seq<Row>, steps: bool): (s: seq<Row>)
    requires Wide(rows)
    ensures Wide(s)
  {
    if !steps then rows
    else if rows == [] then []
    else PutRow(Stepped(rows[..|rows| - 1], true), rows[|rows| - 1])
  }

  lemma SteppedPush(rows: seq<Row>, r: Row, steps: bool)
    requires Wide(rows) && |r| >= 2
    ensures Stepped(rows + [r], steps) == if steps then PutRow(Stepped(rows, true), r) else rows + [r]
  {
    assert (rows + [r])[..|rows|] == rows;
  }

  /** The rows after one more round. */
  function Put(rows: seq<Row>, out: seq<Row>, steps: bool): seq<Row>
    requires Wide(rows) && Wide(out) && |out| <= 1
  {
    if out == [] then rows else if steps then PutRow(rows, out[0]) else rows + out
  }

  lemma SteppedPut(rows: seq<Row>, out: seq<Row>, steps: bool)
    requires Wide(rows) && Wide(out) && |out| <= 1
    ensures Wide(rows + out) && Stepped(rows + out, steps) == Put(Stepped(rows, steps), out, steps)
  {
    if out == [] {
      assert rows + out == rows;
    } else {
      assert out == [out[0]];
      SteppedPush(rows, out[0], steps);
    }
  }

  lemma {:induction false} SteppedShaped(rows: seq<Row>, steps: bool, ps: nat)
    requires ps >= 2 && Shaped(rows, ps)
    ensures Shaped(Stepped(rows, steps), ps)
  {
    if steps && rows != [] {
      SteppedShaped(rows[..|rows| - 1], steps, ps);
    }
  }

  /** The rule looks at what was written; since each row ends up last, that is a rule about neighbours of the input. */
  function Piece(rows: seq<Row>, k: nat): seq<Row>
    requires Wide(rows) && k < |rows|
  {
    var r := rows[k];
    if k > 0 && !IsGap(r) && r[0] != rows[k - 1][0] && r[1] != rows[k - 1][1] then [r[1 := rows[k - 1][1]], r] else [r]
  }

  function Pieces(rows: seq<Row>): seq<Row>
    requires Wide(rows)
  {
    if rows == [] then [] else Pieces(rows[..|rows| - 1]) + Piece(rows, |rows| - 1)
  }

  /** Every row stays, in order, and all that is added is, before each point that has neither the x nor the height of
      the row before it, that point once more at the height of that row. */
  lemma {:induction false} SteppedIsPieces(rows: seq<Row>)
    requires Wide(rows)
    ensures Stepped(rows, true) == Pieces(rows)
    ensures rows != [] ==> Stepped(rows, true) != [] && Last(Stepped(rows, true)) == Last(rows)
  {
    if rows != [] {
      SteppedIsPieces(rows[..|rows| - 1]);
    }
  }

  function Last(rows: seq<Row>): Row
    requires rows != []
  {
    rows[|rows| - 1]
  }

  /** Neighbouring points share their x or their height: the line is drawn in level and upright strokes only. */
  ghost predicate Level(rows: seq<Row>)
    requires Wide(rows)
  {
    forall k :: 0 <= k < |rows| - 1 && !IsGap(rows[k]) && !IsGap(rows[k + 1]) ==>
      rows[k][0] == rows[k + 1][0] || rows[k][1] == rows[k + 1][1]
  }

  /** What the rule is for. */
  lemma {:induction false} SteppedIsLevel(rows: seq<Row>)
    requires Wide(rows)
    ensures Level(Stepped(rows, true))
  {
    if rows != [] {
      SteppedIsLevel(rows[..|rows| - 1]);
    }
  }

  lemma {:induction false} SteppedSorted(rows: seq<Row>, steps: bool)
    requires Wide(rows) && Sorted(rows)
    ensures Sorted(Stepped(rows, steps))
  {
    if steps && rows != [] {
      var front, r := rows[..|rows| - 1], Last(rows);
      SteppedSorted(front, true);
      if !IsGap(r) { UpTo(front, X(r)); }
    }
  }

  predicate Below(rows: seq<Row>, hi: real)
    requires Wide(rows)
  {
    forall k :: 0 <= k < |rows| && !IsGap(rows[k]) ==> X(rows[k]) <= hi
  }

  lemma {:induction false} UpTo(rows: seq<Row>, hi: real)
    requires Wide(rows) && Below(rows, hi)
    ensures Below(Stepped(rows, true), hi)
  {
    if rows != [] {
      assert Below([Last(rows)], hi);
      UpTo(rows[..|rows| - 1], hi);
    }
  }

  // ---- behind a gap ----

  /** Points have heights and gaps have none. */
  predicate Complete(rows: seq<Row>)
    requires Wide(rows)
  {
    forall k :: 0 <= k < |rows| ==> (rows[k][0].Null? <==> rows[k][1].Null?)
  }

  predicate FollowsGap(rows: seq<Row>, k: nat)
    requires Wide(rows)
  {
    0 < k < |rows| && IsGap(rows[k - 1]) && !IsGap(rows[k])
  }

  /** A point without a height. */
  predicate Hollow(rows: seq<Row>, k: nat)
    requires Wide(rows)
  {
    k < |rows| && !IsGap(rows[k]) && rows[k][1].Null?
  }

  ghost predicate HasHollow(rows: seq<Row>)
    requires Wide(rows)
  {
    exists k :: Hollow(rows, k)
  }

  ghost predicate Resumes(rows: seq<Row>)
    requires Wide(rows)
  {
    exists k :: FollowsGap(rows, k)
  }

  /** The rule tests the new row for a gap, not the one before it: it writes a point with an x and no height exactly
      if some point directly follows a gap. */
  lemma {:induction false} HollowBehindGap(rows: seq<Row>)
    requires Wide(rows) && Complete(rows)
    ensures HasHollow(Stepped(rows, true)) <==> Resumes(rows)
  {
    if rows != [] {
      var n := |rows| - 1;
      var front, r := rows[..n], rows[n];
      HollowBehindGap(front);
      SteppedIsPieces(front);
      HollowPut(Stepped(front, true), r);
      ResumesPush(front, r);
      assert front + [r] == rows;
    }
  }

  lemma HollowPut(rows: seq<Row>, r: Row)
    requires Wide(rows) && |r| >= 2 && (r[0].Null? <==> r[1].Null?)
    ensures HasHollow(PutRow(rows, r))
       <==> HasHollow(rows) || (rows != [] && NeedsMiddle(Last(rows), r) && Last(rows)[1].Null?)
  {
    var more := PutRow(rows, r);
    forall k: nat | k < |rows| ensures Hollow(more, k) <==> Hollow(rows, k) {
    }
    if rows != [] && NeedsMiddle(Last(rows), r) && Last(rows)[1].Null? { assert Hollow(more, |rows|); }
    forall k: nat | Hollow(more, k) && k >= |rows|
      ensures rows != [] && NeedsMiddle(Last(rows), r) && Last(rows)[1].Null?
    {
      assert more[k] == r || more[k] == Middle(Last(rows), r);
    }
  }

  lemma ResumesPush(front: seq<Row>, r: Row)
    requires Wide(front) && |r| >= 2
    ensures Resumes(front + [r]) <==> Resumes(front) || (front != [] && IsGap(Last(front)) && !IsGap(r))
  {
    var rows, n := front + [r], |front|;
    forall k: nat | k < n ensures FollowsGap(front, k) <==> FollowsGap(rows, k) {
    }
    if front != [] && IsGap(Last(front)) && !IsGap(r) { assert FollowsGap(rows, n); }
  }

  // ---- on the flat array ----

  lemma LastCells(rows: seq<Row>, ps: nat)
    requires ps >= 2 && Shaped(rows, ps) && rows != []
    ensures |Flatten(rows)| >= ps && Flatten(rows)[|Flatten(rows)| - ps..] == Last(rows)
  {
  }

  lemma FlattenTwo(rows: seq<Row>, m: Row, r: Row)
    ensures Flatten(rows + [m, r]) == Flatten(rows) + m + r
  {
    FlattenPush(rows, m);
    FlattenPush(rows + [m], r);
    assert rows + [m, r] == rows + [m] + [r];
  }

  /** What the end of a round tests: the row at `l` is a point off both the x and the height of the row before. */
  predicate Differs(cells: seq<Cell>, l: nat, ps: nat)
    requires 2 <= ps <= l && |cells| == l + ps
  {
    cells[l] != Null && cells[l] != cells[l - ps] && cells[l + 1] != cells[l - ps + 1]
  }

  /** The last row twice, the first time with the height of the row before. */
  function Doubled(cells: seq<Cell>, l: nat, ps: nat): seq<Cell>
    requires 2 <= ps <= l && |cells| == l + ps
  {
    (cells + cells[l..l + ps])[l + 1 := cells[l - ps + 1]]
  }

  /** The end of a round of either merge loop, where `l` is the length before it: the rows written are those the rule
      makes of them. */
  method MaintainSteps(cells: seq<Cell>, l: nat, ps: nat, withsteps: bool, ghost rows: seq<Row>, ghost out: seq<Row>)
    returns (newpoints: seq<Cell>)
    requires ps >= 2 && Shaped(rows, ps) && Shaped(out, ps) && |out| <= 1 && l == |Flatten(rows)|
    requires cells == Flatten(rows) + Flatten(out)
    ensures newpoints == Flatten(Put(rows, out, withsteps))
  {
    PutCells(rows, out, withsteps, cells, l, ps);
    newpoints := WriteMiddle(cells, l, ps, withsteps);
  }

  method WriteMiddle(cells: seq<Cell>, l: nat, ps: nat, withsteps: bool) returns (newpoints: seq<Cell>)
    requires ps >= 2 && (|cells| == l || |cells| == l + ps) && (l == 0 || ps <= l)
    ensures newpoints ==
              if withsteps && l != |cells| && l > 0 && Differs(cells, l, ps) then Doubled(cells, l, ps) else cells
  {
    newpoints := cells;
    if withsteps && l != |newpoints| && l > 0
       && newpoints[l] != Null && newpoints[l] != newpoints[l - ps] && newpoints[l + 1] != newpoints[l - ps + 1] {
      newpoints := newpoints + newpoints[l..l + ps];
      newpoints := newpoints[l + 1 := newpoints[l - ps + 1]];
    }
  }

  lemma PutCells(rows: seq<Row>, out: seq<Row>, steps: bool, cells: seq<Cell>, l: nat, ps: nat)
    requires ps >= 2 && Shaped(rows, ps) && Shaped(out, ps) && |out| <= 1 && l == |Flatten(rows)|
    requires cells == Flatten(rows) + Flatten(out)
    ensures if out == [] then |cells| == l else |cells| == l + ps
    ensures if rows == [] then l == 0 else ps <= l
    ensures Flatten(Put(rows, out, steps)) ==
              if steps && l != |cells| && l > 0 && Differs(cells, l, ps) then Doubled(cells, l, ps) else cells
  {
    if rows != [] { LastCells(rows, ps); }
    if out != [] {
      assert out == [out[0]];
      FlattenOne(out[0]);
      FlattenPush(rows, out[0]);
      if rows != [] { PutBehind(rows, out[0], cells, l, ps); }
    }
  }

  lemma FlattenOne(r: Row)
    ensures Flatten([r]) == r
  {
    assert [r][..0] == [];
    assert Flatten([r]) == Flatten([]) + r;
  }

  lemma PutBehind(rows: seq<Row>, r: Row, cells: seq<Cell>, l: nat, ps: nat)
    requires ps >= 2 && Shaped(rows, ps) && |r| == ps && rows != []
    requires l == |Flatten(rows)| && cells == Flatten(rows) + r
    ensures ps <= l
    ensures
      Flatten(PutRow(rows, r)) ==
        if Differs(cells, l, ps) then Doubled(cells, l, ps) else cells
  {
    var last := Last(rows);
    LastCells(rows, ps);
    LookBack(Flatten(rows), r, last, cells, l, ps);
    if NeedsMiddle(last, r) {
      FlattenTwo(rows, Middle(last, r), r);
    } else {
      FlattenPush(rows, r);
    }
  }

  /** Behind the cells `a`, which end with the row `last`, stands the row `r`. */
  lemma LookBack(a: seq<Cell>, r: Row, last: Row, cells: seq<Cell>, l: nat, ps: nat)
    requires ps >= 2 && |r| == |last| == ps <= l == |a| && a[l - ps..] == last && cells == a + r
    ensures Differs(cells, l, ps) <==> NeedsMiddle(last, r)
    ensures Doubled(cells, l, ps) == a + Middle(last, r) + r
  {
    assert a[l - ps..][0] == last[0] && a[l - ps..][1] == last[1];
    assert cells[l..l + ps] == r;
    Overwrite(a, r, r, last[1]);
  }

  lemma Overwrite(a: seq<Cell>, r: Row, b: Row, c: Cell)
    requires |r| >= 2
    ensures (a + r + b)[|a| + 1 := c] == a + r[1 := c] + b
  {
  }
}
