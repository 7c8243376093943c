/** The text categories of jquery.flot.categories.js. */
module Categories {

  /** A cell of the points: a text, or a number, which is data or an index. `Inherited` is what a lookup finds under
      a name that every plain object has. */
  datatype Cell = Null | Text(text: string) | Number(value: real) | Inherited(name: string)

  type Codes = map<string, real>

  /** The names every plain object has, which of the columns belong to the axis, and the property name that a number
      is used as. */
  datatype Setting = Setting(inherited: set<string>, columns: seq<bool>, numberName: real -> string)

  predicate Distinct(codes: Codes) {
    forall a, b :: a in codes && b in codes && codes[a] == codes[b] ==> a == b
  }

  /** `after` keeps all codes of `before`, and no inherited name is added. */
  predicate Extends(before: Codes, after: Codes, inherited: set<string>) {
    && (forall a :: a in before ==> a in after && after[a] == before[a])
    && (forall a :: a in after && a !in before ==> a !in inherited)
  }

  // ---- what is to become of a cell ----

  /** The property name a text or a number is looked up as. */
  function NameOf(cell: Cell, setting: Setting): string
    requires cell.Text? || cell.Number?
  {
    if cell.Text? then cell.text else setting.numberName(cell.value)
  }

  predicate IsCoded(before: Cell, after: Cell, codes: Codes, setting: Setting) {
    (before.Text? || before.Number?) && IsCode(NameOf(before, setting), after, codes, setting.inherited)
  }

  predicate IsCode(name: string, after: Cell, codes: Codes, inherited: set<string>) {
    if name in codes then after == Number(codes[name]) else name in inherited && after == Inherited(name)
  }

  /** The first cell of the row a cell is in. */
  function RowOf(k: nat, ps: nat): (r: nat)
    requires ps > 0
    ensures r <= k
  {
    if k < ps then 0 else RowOf(k - ps, ps) + ps
  }

  function ColumnOf(k: nat, ps: nat): (m: nat)
    requires ps > 0
    ensures m < ps && RowOf(k, ps) + m == k
  {
    if k < ps then k else ColumnOf(k - ps, ps)
  }

  predicate WholeRows(n: nat, ps: nat)
    requires ps > 0
  {
    ColumnOf(n, ps) == 0
  }

  /** The cell is one of the axis, and neither it nor the first of its row is missing. */
  predicate Counts(cells: seq<Cell>, k: nat, setting: Setting)
    requires k < |cells| && |setting.columns| > 0
  {
    setting.columns[ColumnOf(k, |setting.columns|)] && !cells[k].Null? && !cells[RowOf(k, |setting.columns|)].Null?
  }

  predicate IsCodedAt(before: seq<Cell>, after: seq<Cell>, k: nat, codes: Codes, setting: Setting)
    requires k < |before| == |after| && |setting.columns| > 0
  {
    if Counts(before, k, setting) then IsCoded(before[k], after[k], codes, setting) else after[k] == before[k]
  }

  predicate AreCoded(before: seq<Cell>, after: seq<Cell>, codes: Codes, setting: Setting)
    requires |setting.columns| > 0
  {
    |before| == |after| && forall k :: 0 <= k < |before| ==> IsCodedAt(before, after, k, codes, setting)
  }

  /** Whole rows, with texts and numbers where the axis has its cells. */
  predicate PointsOk(cells: seq<Cell>, setting: Setting)
    requires |setting.columns| > 0
  {
    && WholeRows(|cells|, |setting.columns|)
    && forall k :: 0 <= k < |cells| && Counts(cells, k, setting) ==> cells[k].Text? || cells[k].Number?
  }

  // ---- reading an index back ----

  /** The texts behind an index. */
  function Behind(codes: Codes, value: real): set<string> {
    set a | a in codes && codes[a] == value
  }

  /** What the cells of the axis become, said of the codes `codes0` before the call: a cell gets an index exactly if
      its name has a code already or is not inherited, and the index then reads back as that one name. */
  lemma ReadBack(before: seq<Cell>, after: seq<Cell>, codes0: Codes, codes: Codes, setting: Setting, k: nat)
    requires |setting.columns| > 0 && AreCoded(before, after, codes, setting) && Distinct(codes)
    requires Extends(codes0, codes, setting.inherited)
    requires k < |before| && Counts(before, k, setting)
    ensures before[k].Text? || before[k].Number?
    ensures
      var name := NameOf(before[k], setting);
      && (after[k].Number? <==> name in codes0 || name !in setting.inherited)
      && (after[k].Number? ==> Behind(codes, after[k].value) == {name})
      && (!after[k].Number? ==> after[k] == Inherited(name))
  {
    assert IsCodedAt(before, after, k, codes, setting);
  }

  /** An instance: a single cell with the name of an inherited property keeps it and gets no index. */
  lemma InheritedInstance()
    ensures
      var setting := Setting({"constructor"}, [true], _ => "");
      && AreCoded([Text("constructor")], [Inherited("constructor")], map[], setting)
      && !AreCoded([Text("constructor")], [Number(0.0)], map[], setting)
  {
    var setting := Setting({"constructor"}, [true], _ => "");
    var before := [Text("constructor")];
    assert IsCodedAt(before, [Inherited("constructor")], 0, map[], setting);
    assert !IsCodedAt(before, [Number(0.0)], 0, map[], setting);
  }

  lemma CodedLater(before: seq<Cell>, after: seq<Cell>, codes: Codes, later: Codes, setting: Setting)
    requires |setting.columns| > 0 && AreCoded(before, after, codes, setting)
    requires Extends(codes, later, setting.inherited)
    ensures AreCoded(before, after, later, setting)
  {
    forall k | 0 <= k < |before| ensures IsCodedAt(before, after, k, later, setting) {
      assert IsCodedAt(before, after, k, codes, setting);
    }
  }

  // ---- the transformation ----

  /** One above the highest code, and 0 if there is none. */
  ghost predicate IsNext(codes: Codes, next: real) {
    && next >= 0.0 && (forall a :: a in codes ==> codes[a] < next)
    && (next > 0.0 ==> exists a :: a in codes && codes[a] + 1.0 == next)
  }

  /** The names of the first n cells that are to get a code, in the order in which they occur first. */
  function NewNames(cells: seq<Cell>, n: nat, codes0: Codes, setting: Setting): seq<string>
    requires |setting.columns| > 0 && n <= |cells|
  {
    if n == 0 then []
    else
      var names, cell := NewNames(cells, n - 1, codes0, setting), cells[n - 1];
      if !Counts(cells, n - 1, setting) || !(cell.Text? || cell.Number?) then names
      else
        var name := NameOf(cell, setting);
        if name in codes0 || name in setting.inherited || name in names then names else names + [name]
  }

  /** The codes are those from before and, for the new names one after another, the numbers from `first` on. */
  ghost predicate IsNumbered(codes0: Codes, codes: Codes, first: real, names: seq<string>) {
    && (forall a :: a in codes <==> a in codes0 || a in names)
    && (forall a :: a in codes0 ==> a in codes && codes[a] == codes0[a])
    && (forall m :: 0 <= m < |names| ==> names[m] in codes && codes[names[m]] == first + m as real)
  }

  /** The next free index. */
  method GetNextNumber(codes: Codes) returns (next: real)
    ensures IsNext(codes, next)
  {
    var index := -1.0;
    var todo := codes.Keys;
    while todo != {}
      invariant todo <= codes.Keys && index >= -1.0
      invariant forall a :: a in codes && a !in todo ==> codes[a] <= index
      invariant index > -1.0 ==> exists a :: a in codes && codes[a] == index
      decreases |todo|
    {
      var v :| v in todo;
      if codes[v] > index {
        index := codes[v];
      }
      todo := todo - {v};
    }
    next := index + 1.0;
  }

  /** The codes so far, all below the next index; what is new is above all that was there. */
  ghost predicate Growing(codes0: Codes, codes: Codes, first: real, index: real, inherited: set<string>) {
    && Extends(codes0, codes, inherited)
    && (forall a :: a in codes ==> codes[a] < index)
    && (forall a :: a in codes && a !in codes0 ==> codes[a] >= first)
    && index == first + (|codes| - |codes0|) as real && index >= first
    && (Distinct(codes0) ==> Distinct(codes))
  }

  /** One cell of the axis: a new text takes the next index, unless it is the name of something inherited. */
  method Encode(text: string, codes: Codes, index: real, inherited: set<string>)
    returns (cell: Cell, codes': Codes, index': real)
    requires forall a :: a in codes ==> codes[a] < index
    ensures Extends(codes, codes', inherited) && IsCode(text, cell, codes', inherited)
    ensures
      if text in codes || text in inherited then codes' == codes && index' == index
      else codes' == codes[text := index] && index' == index + 1.0
    ensures Distinct(codes) ==> Distinct(codes')
    ensures forall a :: a in codes' ==> codes'[a] < index'
  {
    codes', index' := codes, index;
    if text !in codes && text !in inherited {
      codes' := codes'[text := index];
      index' := index' + 1.0;
    }
    cell := if text in codes' then Number(codes'[text]) else Inherited(text);
  }

  /** Part way through: the first `n` cells are done, the rest are as they were. */
  ghost predicate DoneTo(before: seq<Cell>, now: seq<Cell>, n: nat, codes: Codes, setting: Setting)
    requires |setting.columns| > 0
  {
    && |before| == |now| && n <= |now|
    && (forall k :: 0 <= k < n ==> IsCodedAt(before, now, k, codes, setting))
    && (forall k :: n <= k < |now| ==> now[k] == before[k])
  }

  lemma OneMoreDone(before: seq<Cell>, now: seq<Cell>, n: nat, codes: Codes, later: Codes, cell: Cell, setting: Setting)
    requires |setting.columns| > 0 && n < |before| && DoneTo(before, now, n, codes, setting)
    requires Extends(codes, later, setting.inherited)
    requires if Counts(before, n, setting) then IsCoded(before[n], cell, later, setting) else cell == before[n]
    ensures DoneTo(before, now[n := cell], n + 1, later, setting)
  {
    var after := now[n := cell];
    forall k | 0 <= k < n + 1 ensures IsCodedAt(before, after, k, later, setting) {
      if k < n { assert IsCodedAt(before, now, k, codes, setting); }
    }
  }

  lemma {:induction false} InRow(i: nat, m: nat, ps: nat)
    requires m < ps && WholeRows(i, ps)
    ensures ColumnOf(i + m, ps) == m && RowOf(i + m, ps) == i
  {
    if i >= ps { InRow(i - ps, m, ps); }
  }

  lemma {:induction false} NextRow(i: nat, n: nat, ps: nat)
    requires ps > 0 && WholeRows(i, ps) && WholeRows(n, ps) && i < n
    ensures i + ps <= n && WholeRows(i + ps, ps)
  {
    if i >= ps { NextRow(i - ps, n - ps, ps); }
  }

  lemma OneMoreEntry(codes: Codes, text: string, index: real)
    requires text !in codes
    ensures |codes[text := index]| == |codes| + 1
  {
    assert codes[text := index].Keys == codes.Keys + {text};
  }

  lemma OneMoreDistinct(codes: Codes, text: string, index: real)
    requires Distinct(codes) && forall a :: a in codes ==> codes[a] < index
    ensures Distinct(codes[text := index])
  {
  }

  lemma OneMoreCode(codes0: Codes, codes: Codes, first: real, index: real, text: string, inherited: set<string>)
    requires Growing(codes0, codes, first, index, inherited) && text !in codes && text !in inherited
    ensures Growing(codes0, codes[text := index], first, index + 1.0, inherited)
    ensures Extends(codes, codes[text := index], inherited)
  {
    OneMoreEntry(codes, text, index);
    if Distinct(codes) { OneMoreDistinct(codes, text, index); }
  }

  /** Everything between two cells: the first `n` cells are done with the codes so far. */
  ghost predicate Midway(before: seq<Cell>, now: seq<Cell>, n: nat, codes0: Codes, codes: Codes, first: real,
                         index: real, setting: Setting)
    requires |setting.columns| > 0
  {
    && PointsOk(before, setting) && DoneTo(before, now, n, codes, setting)
    && Growing(codes0, codes, first, index, setting.inherited)
    && Numbering(before, n, codes0, codes, first, index, setting)
  }

  ghost predicate Numbering(before: seq<Cell>, n: nat, codes0: Codes, codes: Codes, first: real, index: real,
                            setting: Setting)
    requires |setting.columns| > 0 && n <= |before|
  {
    var names := NewNames(before, n, codes0, setting);
    IsNumbered(codes0, codes, first, names) && index == first + |names| as real
  }

  /** A cell that does not count, or has its code already, changes nothing; another takes the next number. */
  lemma NumberingStep(before: seq<Cell>, n: nat, codes0: Codes, codes: Codes, first: real, index: real,
                      setting: Setting, codes': Codes, index': real)
    requires |setting.columns| > 0 && n < |before| && PointsOk(before, setting)
    requires Numbering(before, n, codes0, codes, first, index, setting)
    requires
      if Counts(before, n, setting) then TakesNext(NameOf(before[n], setting), codes, index, codes', index', setting)
      else codes' == codes && index' == index
    ensures Numbering(before, n + 1, codes0, codes', first, index', setting)
  {
    var names := NewNames(before, n, codes0, setting);
    if Counts(before, n, setting) {
      var name := NameOf(before[n], setting);
      if name !in codes && name !in setting.inherited {
        var more := names + [name];
        assert more[|names|] == name && forall m :: 0 <= m < |names| ==> more[m] == names[m] != name;
        assert NewNames(before, n + 1, codes0, setting) == more;
      }
    }
  }

  predicate TakesNext(name: string, codes: Codes, index: real, codes': Codes, index': real, setting: Setting) {
    if name in codes || name in setting.inherited then codes' == codes && index' == index
    else codes' == codes[name := index] && index' == index + 1.0
  }

  /** A text or number of the axis. */
  method EncodeCell(val: Cell, codes: Codes, index: real, setting: Setting, ghost codes0: Codes, ghost first: real)
    returns (cell: Cell, codes': Codes, index': real)
    requires (val.Text? || val.Number?) && Growing(codes0, codes, first, index, setting.inherited)
    ensures IsCoded(val, cell, codes', setting) && Extends(codes, codes', setting.inherited)
    ensures Growing(codes0, codes', first, index', setting.inherited)
    ensures TakesNext(NameOf(val, setting), codes, index, codes', index', setting)
  {
    var name := NameOf(val, setting);
    if name !in codes && name !in setting.inherited {
      OneMoreCode(codes0, codes, first, index, name, setting.inherited);
    }
    cell, codes', index' := Encode(name, codes, index, setting.inherited);
  }

  /** One cell, at its column `m` of the row at `i`. */
  method TransformCell(points: array<Cell>, i: nat, m: nat, missing: bool, codes: Codes, index: real, setting: Setting,
                       ghost before: seq<Cell>, ghost codes0: Codes, ghost first: real, ghost n: nat)
    returns (codes': Codes, index': real)
    requires m < |setting.columns| && WholeRows(i, |setting.columns|) && n == i + m < points.Length
    requires Midway(before, points[..], n, codes0, codes, first, index, setting)
    requires missing == before[i].Null?
    modifies points
    ensures Midway(before, points[..], n + 1, codes0, codes', first, index', setting)
  {
    codes', index' := codes, index;
    InRow(i, m, |setting.columns|);
    ghost var now := points[..];
    var val := points[i + m];
    assert val == before[n];
    if !missing && !val.Null? && setting.columns[m] {
      assert Counts(before, n, setting);
      var cell;
      cell, codes', index' := EncodeCell(val, codes, index, setting, codes0, first);
      points[i + m] := cell;
    }
    ghost var cell' := points[i + m];
    assert points[..] == now[n := cell'];
    MidwayStep(before, now, n, codes0, codes, first, index, setting, codes', index', cell');
  }

  lemma MidwayStep(before: seq<Cell>, now: seq<Cell>, n: nat, codes0: Codes, codes: Codes, first: real, index: real,
                   setting: Setting, codes': Codes, index': real, cell: Cell)
    requires |setting.columns| > 0 && n < |before| && Midway(before, now, n, codes0, codes, first, index, setting)
    requires Extends(codes, codes', setting.inherited) && Growing(codes0, codes', first, index', setting.inherited)
    requires
      if Counts(before, n, setting) then
        && IsCoded(before[n], cell, codes', setting)
        && TakesNext(NameOf(before[n], setting), codes, index, codes', index', setting)
      else codes' == codes && index' == index && cell == before[n]
    ensures Midway(before, now[n := cell], n + 1, codes0, codes', first, index', setting)
  {
    OneMoreDone(before, now, n, codes, codes', cell, setting);
    NumberingStep(before, n, codes0, codes, first, index, setting, codes', index');
  }

  /** One row of the points. */
  method TransformRow(points: array<Cell>, i: nat, codes0: Codes, index0: real, setting: Setting,
                      ghost before: seq<Cell>, ghost start: Codes, ghost first: real, ghost to: nat)
    returns (codes: Codes, index: real)
    requires var ps := |setting.columns|; ps > 0 && WholeRows(i, ps) && to == i + ps <= points.Length
    requires Midway(before, points[..], i, start, codes0, first, index0, setting)
    modifies points
    ensures Midway(before, points[..], to, start, codes, first, index, setting)
  {
    codes, index := codes0, index0;
    var ps, missing := |setting.columns|, points[i].Null?;
    var m := 0;
    ghost var n := i;
    assert missing == before[i].Null?;
    while m < ps
      invariant 0 <= m <= ps && n == i + m && missing == before[i].Null?
      invariant Midway(before, points[..], n, start, codes, first, index, setting)
    {
      codes, index := TransformCell(points, i, m, missing, codes, index, setting, before, start, first, n);
      m, n := m + 1, n + 1;
    }
  }

  lemma MidwayStarts(cells: seq<Cell>, codes: Codes, index: real, setting: Setting)
    requires |setting.columns| > 0 && PointsOk(cells, setting) && IsNext(codes, index)
    ensures Midway(cells, cells, 0, codes, codes, index, index, setting)
  {
  }

  lemma MidwayEnds(before: seq<Cell>, now: seq<Cell>, codes0: Codes, codes: Codes, first: real, index: real,
                   setting: Setting)
    requires |setting.columns| > 0 && Midway(before, now, |before|, codes0, codes, first, index, setting)
    ensures AreCoded(before, now, codes, setting)
    ensures Extends(codes0, codes, setting.inherited) && (Distinct(codes0) ==> Distinct(codes))
    ensures IsNumbered(codes0, codes, first, NewNames(before, |before|, codes0, setting))
  {
  }

  /** `transformPointsOnAxis`: the texts of the axis become indexes; codes given before keep their meaning. */
  method TransformPoints(points: array<Cell>, codes0: Codes, setting: Setting)
    returns (codes: Codes, ghost first: real)
    requires |setting.columns| > 0 && PointsOk(points[..], setting)
    modifies points
    ensures AreCoded(old(points[..]), points[..], codes, setting)
    ensures Extends(codes0, codes, setting.inherited) && (Distinct(codes0) ==> Distinct(codes))
    ensures IsNext(codes0, first)
    ensures IsNumbered(codes0, codes, first, NewNames(old(points[..]), points.Length, codes0, setting))
  {
    var index := GetNextNumber(codes0);
    first, codes := index, codes0;
    ghost var before, now := points[..], points[..];
    var i, ps := 0, |setting.columns|;
    MidwayStarts(before, codes0, index, setting);
    while i < points.Length
      invariant 0 <= i <= points.Length && WholeRows(i, ps) && now == points[..]
      invariant Midway(before, now, i, codes0, codes, first, index, setting)
    {
      NextRow(i, points.Length, ps);
      var next := i + ps;
      codes, index := TransformRow(points, i, codes, index, setting, before, codes0, first, next);
      i, now := next, points[..];
    }
    MidwayEnds(before, now, codes0, codes, first, index, setting);
  }

  /** Series after series on one axis: at the end every index of every series reads back under the one map. */
  method TransformAll(series: seq<array<Cell>>, codes0: Codes, setting: Setting) returns (codes: Codes)
    requires |setting.columns| > 0 && Distinct(codes0)
    requires forall i, j :: 0 <= i < j < |series| ==> series[i] != series[j]
    requires forall i :: 0 <= i < |series| ==> PointsOk(series[i][..], setting)
    modifies set a | a in series
    ensures forall i :: 0 <= i < |series| ==> AreCoded(old(series[i][..]), series[i][..], codes, setting)
    ensures Distinct(codes) && Extends(codes0, codes, setting.inherited)
  {
    codes := codes0;
    var n := 0;
    while n < |series|
      invariant 0 <= n <= |series| && Distinct(codes) && Extends(codes0, codes, setting.inherited)
      invariant forall i :: 0 <= i < n ==> AreCoded(old(series[i][..]), series[i][..], codes, setting)
      invariant forall i :: n <= i < |series| ==> series[i][..] == old(series[i][..])
    {
      ghost var was := codes;
      ghost var first;
      codes, first := TransformPoints(series[n], codes, setting);
      forall i | 0 <= i < n ensures AreCoded(old(series[i][..]), series[i][..], codes, setting) {
        CodedLater(old(series[i][..]), series[i][..], was, codes, setting);
      }
      n := n + 1;
    }
  }
}
