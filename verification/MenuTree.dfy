/** The menu tree as a value: what Generator.java's `createMenuTree` builds, and which items reach it. */
module MenuTree {

  /** An entry of the menu; only its children change while the tree is built. */
  class MenuItem {
    const level: int
    const anchor: string
    const caption: string
    var children: seq<MenuItem>

    constructor (level: int, anchor: string, caption: string)
      ensures this.level == level && this.anchor == anchor && this.caption == caption && children == []
    {
      this.level, this.anchor, this.caption, children := level, anchor, caption, [];
    }
  }

  datatype Tree = Node(item: MenuItem, children: seq<Tree>)

  /** The first position from `k` on that is at the level, or the length. */
  function NextAt(items: seq<MenuItem>, level: int, k: nat): (j: nat)
    requires k <= |items|
    ensures k <= j <= |items| && (j < |items| ==> items[j].level == level)
    ensures forall i :: k <= i < j ==> items[i].level != level
    decreases |items| - k
  {
    if k == |items| || items[k].level == level then k else NextAt(items, level, k + 1)
  }

  /** The forest of a list: its top level is that of its first item, and what lies between two top items is the
      forest of the first of them. What follows the last top item is not built. */
  function Build(items: seq<MenuItem>): seq<Tree>
    decreases |items|
  {
    if items == [] then []
    else
      var j := NextAt(items, items[0].level, 1);
      if j == |items| then [Node(items[0], [])]
      else [Node(items[0], Build(items[1..j]))] + Build(items[j..])
  }

  function Preorder(ts: seq<Tree>): seq<MenuItem> {
    if ts == [] then [] else [ts[0].item] + Preorder(ts[0].children) + Preorder(ts[1..])
  }

  // ---- siblings ----

  /** All roots are at the level, and so on below with the level of the first child. */
  predicate Uniform(ts: seq<Tree>, level: int) {
    ts == [] ||
    (&& ts[0].item.level == level && Uniform(ts[1..], level)
     && (ts[0].children != [] ==>
           ts[0].children[0].item.level != level && Uniform(ts[0].children, ts[0].children[0].item.level)))
  }

  /** Siblings share one level, which differs from their parent's. */
  lemma {:induction false} SiblingsShareLevel(items: seq<MenuItem>)
    requires items != []
    ensures Build(items) != [] && Build(items)[0].item == items[0] && Uniform(Build(items), items[0].level)
    decreases |items|
  {
    var j := NextAt(items, items[0].level, 1);
    if j < |items| {
      var head, rest := Node(items[0], Build(items[1..j])), Build(items[j..]);
      SiblingsShareLevel(items[j..]);
      if j > 1 { SiblingsShareLevel(items[1..j]); }
      assert ([head] + rest)[1..] == rest;
    } else {
      assert [Node(items[0], [])][1..] == [];
    }
  }

  // ---- depths, in one pass ----

  /** The levels of the open groups after one more item: a known level closes the groups above it, a new one
      opens a group. */
  function Push(open: seq<int>, level: int): (r: seq<int>)
    ensures r != [] && r[|r| - 1] == level
  {
    if open == [] then [level]
    else if open[0] == level then [level]
    else [open[0]] + Push(open[1..], level)
  }

  function Open(levels: seq<int>): (r: seq<int>)
    ensures levels != [] ==> r != []
  {
    if levels == [] then [] else Push(Open(levels[..|levels| - 1]), levels[|levels| - 1])
  }

  /** How many groups are open around an item. */
  function DepthAt(levels: seq<int>, k: nat): nat
    requires k < |levels|
  {
    |Open(levels[..k + 1])| - 1
  }

  function Depths(levels: seq<int>): (d: seq<nat>)
    ensures |d| == |levels| && forall k :: 0 <= k < |levels| ==> d[k] == DepthAt(levels, k)
  {
    seq(|levels|, k requires 0 <= k < |levels| => DepthAt(levels, k))
  }

  function Levels(items: seq<MenuItem>): (r: seq<int>)
    ensures |r| == |items| && forall i :: 0 <= i < |items| ==> r[i] == items[i].level
  {
    if items == [] then [] else [items[0].level] + Levels(items[1..])
  }

  /** Until its level comes again, the first item's group stays open below everything. */
  lemma {:induction false} OpenInner(levels: seq<int>, k: nat)
    requires 1 <= k <= |levels| && forall i :: 1 <= i < k ==> levels[i] != levels[0]
    ensures Open(levels[..k]) == [levels[0]] + Open(levels[1..k])
  {
    if k == 1 {
      assert levels[..1] == [levels[0]] && levels[..1][..0] == [];
    } else {
      OpenInner(levels, k - 1);
      assert levels[..k][..k - 1] == levels[..k - 1];
      assert levels[1..k][..k - 2] == levels[1..k - 1];
      var open := Open(levels[..k - 1]);
      assert open[1..] == Open(levels[1..k - 1]);
    }
  }

  /** When the first item's level comes again, everything before is forgotten. */
  lemma {:induction false} OpenRest(levels: seq<int>, j: nat, k: nat)
    requires 1 <= j < k <= |levels| && levels[j] == levels[0] && forall i :: 1 <= i < j ==> levels[i] != levels[0]
    ensures Open(levels[..k]) == Open(levels[j..k])
    decreases k
  {
    assert levels[..k][..k - 1] == levels[..k - 1];
    assert levels[j..k][..k - j - 1] == levels[j..k - 1];
    if k == j + 1 {
      OpenInner(levels, j);
      assert levels[j..j] == [] && levels[j..k] == [levels[j]];
    } else {
      OpenRest(levels, j, k - 1);
    }
  }

  lemma Slices(levels: seq<int>, a: nat, j: nat, k: nat)
    requires a <= k <= j <= |levels|
    ensures levels[a..j][..k - a] == levels[a..k]
  {
  }

  lemma InnerDepth(levels: seq<int>, j: nat, k: nat)
    requires 1 <= k < j <= |levels| && forall i :: 1 <= i < j ==> levels[i] != levels[0]
    ensures DepthAt(levels, k) == 1 + DepthAt(levels[1..j], k - 1)
  {
    Slices(levels, 1, j, k + 1);
    OpenInner(levels, k + 1);
  }

  lemma RestDepth(levels: seq<int>, j: nat, k: nat)
    requires 1 <= j <= k < |levels| && levels[j] == levels[0] && forall i :: 1 <= i < j ==> levels[i] != levels[0]
    ensures DepthAt(levels, k) == DepthAt(levels[j..], k - j)
  {
    Slices(levels, j, |levels|, k + 1);
    assert levels[j..|levels|] == levels[j..];
    OpenRest(levels, j, k + 1);
  }

  lemma FirstDepth(levels: seq<int>)
    requires levels != []
    ensures DepthAt(levels, 0) == 0
  {
    var one := levels[..1];
    assert one == [levels[0]] && one[..0] == [];
    assert Open(one) == Push(Open(one[..0]), one[0]);
    assert Open(one[..0]) == [];
  }

  // ---- which items reach the tree ----

  /** Depth `e` is left by one step, to the depth just below it. */
  predicate LeftByOne(d: seq<nat>, k: nat, e: nat, j: nat) {
    k < j < |d| && d[j] == e - 1 && forall i :: k < i < j ==> d[i] >= e
  }

  ghost predicate Left(d: seq<nat>, k: nat, e: nat) {
    exists j: nat :: LeftByOne(d, k, e, j)
  }

  /** From the item on, every open group is left by one step. */
  ghost predicate Returns(d: seq<nat>, k: nat)
    requires k < |d|
  {
    forall e: nat :: 1 <= e <= d[k] ==> Left(d, k, e)
  }

  ghost function Returners(d: seq<nat>): (r: seq<bool>)
    ensures |r| == |d| && forall k :: 0 <= k < |d| ==> (r[k] <==> Returns(d, k))
  {
    seq(|d|, k requires 0 <= k < |d| => Returns(d, k))
  }

  /** Those of the first `n` items that are marked, in order. */
  function Marked(items: seq<MenuItem>, marks: seq<bool>, n: nat): seq<MenuItem>
    requires |marks| == |items| && n <= |items|
  {
    if n == 0 then [] else Marked(items, marks, n - 1) + (if marks[n - 1] then [items[n - 1]] else [])
  }

  /** The lists one after the other, with their marks. */
  predicate IsConcat(a: seq<MenuItem>, am: seq<bool>, b: seq<MenuItem>, bm: seq<bool>, all: seq<MenuItem>,
                     marks: seq<bool>) {
    |am| == |a| && |bm| == |b| && all == a + b && marks == am + bm
  }

  lemma {:induction false} MarkedFront(a: seq<MenuItem>, am: seq<bool>, b: seq<MenuItem>, bm: seq<bool>,
                                       all: seq<MenuItem>, marks: seq<bool>, n: nat)
    requires IsConcat(a, am, b, bm, all, marks) && n <= |a|
    ensures Marked(all, marks, n) == Marked(a, am, n)
  {
    if n > 0 { MarkedFront(a, am, b, bm, all, marks, n - 1); }
  }

  lemma {:induction false} MarkedConcat(a: seq<MenuItem>, am: seq<bool>, b: seq<MenuItem>, bm: seq<bool>,
                                        all: seq<MenuItem>, marks: seq<bool>, n: nat)
    requires IsConcat(a, am, b, bm, all, marks) && |a| <= n <= |all|
    ensures Marked(all, marks, n) == Marked(a, am, |a|) + Marked(b, bm, n - |a|)
  {
    if n == |a| {
      MarkedFront(a, am, b, bm, all, marks, n);
    } else {
      MarkedConcat(a, am, b, bm, all, marks, n - 1);
      assert all[n - 1] == b[n - 1 - |a|] && marks[n - 1] == bm[n - 1 - |a|];
    }
  }

  lemma {:induction false} MarkedNone(items: seq<MenuItem>, marks: seq<bool>, n: nat)
    requires |marks| == |items| && 1 <= n <= |items| && marks[0] && forall k :: 1 <= k < n ==> !marks[k]
    ensures Marked(items, marks, n) == [items[0]]
  {
    if n > 1 {
      MarkedNone(items, marks, n - 1);
    } else {
      assert Marked(items, marks, 0) == [];
    }
  }

  /** The depths of a list from those of its first group and of its rest. */
  predicate Glued(d: seq<nat>, inner: seq<nat>, rest: seq<nat>) {
    var j := |inner| + 1;
    && |d| == j + |rest| && d[0] == 0 && (rest != [] ==> rest[0] == 0)
    && (forall k :: 1 <= k < j ==> d[k] == 1 + inner[k - 1])
    && (forall k :: j <= k < |d| ==> d[k] == rest[k - j])
  }

  /** Nothing at or below the depth of a top item is ever left from inside a last group. */
  lemma NeverReturns(d: seq<nat>, inner: seq<nat>, k: nat)
    requires Glued(d, inner, []) && 1 <= k < |d|
    ensures !Returns(d, k)
  {
    forall j: nat ensures !LeftByOne(d, k, 1, j) {
    }
    assert d[k] >= 1 && !Left(d, k, 1);
  }

  lemma InnerReturns(d: seq<nat>, inner: seq<nat>, rest: seq<nat>, k: nat)
    requires Glued(d, inner, rest) && rest != [] && 1 <= k <= |inner|
    ensures Returns(d, k) <==> Returns(inner, k - 1)
  {
    var n := |inner| + 1;
    if Returns(inner, k - 1) {
      forall e: nat | 1 <= e <= d[k] ensures Left(d, k, e) {
        if e == 1 {
          var j := NextZero(d, k);
          assert d[n] == 0;
          assert LeftByOne(d, k, e, j);
        } else {
          assert Left(inner, k - 1, e - 1);
          var i: nat :| LeftByOne(inner, k - 1, e - 1, i);
          InnerStep(d, inner, rest, k, e, i);
        }
      }
    }
    if Returns(d, k) {
      var i := k - 1;
      forall e: nat | 1 <= e <= inner[i] ensures Left(inner, i, e) {
        assert Left(d, k, e + 1);
        var j: nat :| LeftByOne(d, k, e + 1, j);
        OuterStep(d, inner, rest, k, e, j);
      }
    }
  }

  /** The first place after `k` of depth zero, or the end. */
  function NextZero(d: seq<nat>, k: nat): (j: nat)
    requires k < |d|
    ensures k < j <= |d| && (j < |d| ==> d[j] == 0) && forall i :: k < i < j ==> d[i] >= 1
    decreases |d| - k
  {
    if k + 1 == |d| || d[k + 1] == 0 then k + 1 else NextZero(d, k + 1)
  }

  lemma InnerStep(d: seq<nat>, inner: seq<nat>, rest: seq<nat>, k: nat, e: nat, i: nat)
    requires Glued(d, inner, rest) && 1 <= k <= |inner| && e >= 2 && LeftByOne(inner, k - 1, e - 1, i)
    ensures LeftByOne(d, k, e, i + 1)
  {
    forall x | k < x < i + 1 ensures d[x] >= e {
      assert inner[x - 1] >= e - 1;
    }
  }

  lemma OuterStep(d: seq<nat>, inner: seq<nat>, rest: seq<nat>, k: nat, e: nat, j: nat)
    requires Glued(d, inner, rest) && rest != [] && 1 <= k <= |inner| && e >= 1 && LeftByOne(d, k, e + 1, j)
    ensures LeftByOne(inner, k - 1, e, j - 1)
  {
    var n := |inner| + 1;
    assert d[n] == 0;
    assert j < n;
    forall x | k - 1 < x < j - 1 ensures inner[x] >= e {
      assert d[x + 1] >= e + 1;
    }
  }

  lemma RestStep(d: seq<nat>, inner: seq<nat>, rest: seq<nat>, k: nat, e: nat, j: nat)
    requires Glued(d, inner, rest) && |inner| < k < |d| && |inner| < j
    ensures LeftByOne(d, k, e, j) <==> LeftByOne(rest, k - |inner| - 1, e, j - |inner| - 1)
  {
    var n := |inner| + 1;
    if LeftByOne(d, k, e, j) {
      forall x | k - n < x < j - n ensures rest[x] >= e {
        assert d[x + n] >= e;
      }
    }
    if LeftByOne(rest, k - n, e, j - n) {
      forall x | k < x < j ensures d[x] >= e {
        assert rest[x - n] >= e;
      }
    }
  }

  lemma RestReturns(d: seq<nat>, inner: seq<nat>, rest: seq<nat>, k: nat)
    requires Glued(d, inner, rest) && |inner| < k < |d|
    ensures Returns(d, k) <==> Returns(rest, k - |inner| - 1)
  {
    var n := |inner| + 1;
    var s := k - n;
    forall e: nat ensures Left(d, k, e) <==> Left(rest, s, e) {
      if Left(d, k, e) {
        var j: nat :| LeftByOne(d, k, e, j);
        RestStep(d, inner, rest, k, e, j);
      }
      if Left(rest, s, e) {
        var i: nat :| LeftByOne(rest, s, e, i);
        RestStep(d, inner, rest, k, e, i + n);
      }
    }
  }

  lemma DepthsGlued(ls: seq<int>, j: nat)
    requires 1 <= j <= |ls| && forall i :: 1 <= i < j ==> ls[i] != ls[0]
    requires j < |ls| ==> ls[j] == ls[0]
    ensures Glued(Depths(ls), Depths(ls[1..j]), Depths(ls[j..]))
  {
    var d, inner, rest := Depths(ls), Depths(ls[1..j]), Depths(ls[j..]);
    FirstDepth(ls);
    forall k | 1 <= k < j ensures d[k] == 1 + inner[k - 1] { InnerDepth(ls, j, k); }
    forall k | j <= k < |ls| ensures d[k] == rest[k - j] { RestDepth(ls, j, k); }
    if j < |ls| { FirstDepth(ls[j..]); }
  }

  ghost function DepthsOf(items: seq<MenuItem>): (d: seq<nat>)
    ensures |d| == |items|
  {
    Depths(Levels(items))
  }

  /** Where the first item's group and the rest of a list begin. */
  predicate IsCut(items: seq<MenuItem>, j: nat, group: seq<MenuItem>, rest: seq<MenuItem>) {
    items != [] && j == NextAt(items, items[0].level, 1) && group == items[1..j] && rest == items[j..]
  }

  lemma LevelsOfCut(items: seq<MenuItem>, j: nat, group: seq<MenuItem>, rest: seq<MenuItem>)
    requires IsCut(items, j, group, rest)
    ensures Levels(group) == Levels(items)[1..j] && Levels(rest) == Levels(items)[j..]
  {
  }

  lemma ItemsGlued(items: seq<MenuItem>, j: nat, group: seq<MenuItem>, rest: seq<MenuItem>)
    requires IsCut(items, j, group, rest)
    ensures Glued(DepthsOf(items), DepthsOf(group), DepthsOf(rest))
  {
    LevelsOfCut(items, j, group, rest);
    DepthsGlued(Levels(items), j);
  }

  lemma ReturnersGlued(d: seq<nat>, inner: seq<nat>, rest: seq<nat>)
    requires Glued(d, inner, rest) && rest != []
    ensures Returners(d) == [true] + Returners(inner) + Returners(rest)
  {
    var r, s, n := Returners(d), [true] + Returners(inner) + Returners(rest), |inner| + 1;
    assert Returns(d, 0);
    forall k | 0 <= k < |d| ensures r[k] == s[k] {
      if 1 <= k < n { InnerReturns(d, inner, rest, k); }
      if n <= k { RestReturns(d, inner, rest, k); }
    }
  }

  lemma LastReturners(d: seq<nat>, inner: seq<nat>)
    requires Glued(d, inner, [])
    ensures Returners(d)[0] && forall k :: 1 <= k < |d| ==> !Returners(d)[k]
  {
    assert Returns(d, 0);
    forall k | 1 <= k < |d| ensures !Returns(d, k) { NeverReturns(d, inner, k); }
  }

  lemma MarkedFirst(first: MenuItem, group: seq<MenuItem>, inner: seq<bool>, front: seq<MenuItem>, fm: seq<bool>)
    requires IsConcat([first], [true], group, inner, front, fm)
    ensures Marked(front, fm, |front|) == [first] + Marked(group, inner, |group|)
  {
    MarkedConcat([first], [true], group, inner, front, fm, |front|);
    MarkedNone([first], [true], 1);
  }

  /** The items of a list that return. */
  ghost function Kept(items: seq<MenuItem>): seq<MenuItem> {
    Marked(items, Returners(DepthsOf(items)), |items|)
  }

  lemma MarkedGlued(first: MenuItem, group: seq<MenuItem>, inner: seq<bool>, front: seq<MenuItem>, fm: seq<bool>,
                    rest: seq<MenuItem>, others: seq<bool>, all: seq<MenuItem>, marks: seq<bool>)
    requires IsConcat([first], [true], group, inner, front, fm) && IsConcat(front, fm, rest, others, all, marks)
    ensures Marked(all, marks, |all|) == [first] + Marked(group, inner, |group|) + Marked(rest, others, |rest|)
  {
    MarkedConcat(front, fm, rest, others, all, marks, |all|);
    MarkedFirst(first, group, inner, front, fm);
  }

  lemma KeptStep(items: seq<MenuItem>, j: nat, group: seq<MenuItem>, rest: seq<MenuItem>)
    requires IsCut(items, j, group, rest) && rest != []
    ensures Kept(items) == [items[0]] + Kept(group) + Kept(rest)
  {
    var first, front := items[0], [items[0]] + group;
    var inner, others := Returners(DepthsOf(group)), Returners(DepthsOf(rest));
    ItemsGlued(items, j, group, rest);
    ReturnersGlued(DepthsOf(items), DepthsOf(group), DepthsOf(rest));
    assert items == front + rest;
    MarkedGlued(first, group, inner, front, [true] + inner, rest, others, items, Returners(DepthsOf(items)));
  }

  lemma KeptLast(items: seq<MenuItem>, j: nat, group: seq<MenuItem>)
    requires IsCut(items, j, group, [])
    ensures Kept(items) == [items[0]]
  {
    var d := DepthsOf(items);
    ItemsGlued(items, j, group, []);
    LastReturners(d, DepthsOf(group));
    MarkedNone(items, Returners(d), |items|);
  }

  lemma BuildStep(items: seq<MenuItem>, j: nat, group: seq<MenuItem>, rest: seq<MenuItem>)
    requires IsCut(items, j, group, rest) && rest != []
    ensures Preorder(Build(items)) == [items[0]] + Preorder(Build(group)) + Preorder(Build(rest))
  {
    PreorderCons(Node(items[0], Build(group)), Build(rest));
  }

  lemma BuildLast(items: seq<MenuItem>, j: nat, group: seq<MenuItem>)
    requires IsCut(items, j, group, [])
    ensures Preorder(Build(items)) == [items[0]]
  {
    var t := Node(items[0], []);
    PreorderCons(t, []);
    assert [t] + [] == [t];
  }

  /** The menu, read top to bottom, is the list without the items after which some group is left by more than
      one step, or never: read off the list in one pass, it is what the nested building comes to. */
  lemma {:induction false} PreorderIsReturning(items: seq<MenuItem>)
    ensures Preorder(Build(items)) == Kept(items)
    decreases |items|
  {
    if items != [] {
      var j := NextAt(items, items[0].level, 1);
      var group, rest := items[1..j], items[j..];
      if rest == [] {
        BuildLast(items, j, group);
        KeptLast(items, j, group);
      } else {
        PreorderIsReturning(group);
        PreorderIsReturning(rest);
        BuildStep(items, j, group, rest);
        KeptStep(items, j, group, rest);
      }
    }
  }

  lemma PreorderCons(t: Tree, ts: seq<Tree>)
    ensures Preorder([t] + ts) == [t.item] + Preorder(t.children) + Preorder(ts)
  {
    assert ([t] + ts)[1..] == ts;
  }

  // ---- when nothing is lost ----

  lemma {:induction false} MarkedAll(items: seq<MenuItem>, marks: seq<bool>, n: nat)
    requires |marks| == |items| && n <= |items|
    ensures |Marked(items, marks, n)| <= n
    ensures |Marked(items, marks, n)| == n <==> forall k :: 0 <= k < n ==> marks[k]
    ensures |Marked(items, marks, n)| == n ==> Marked(items, marks, n) == items[..n]
  {
    if n > 0 {
      MarkedAll(items, marks, n - 1);
      assert items[..n] == items[..n - 1] + [items[n - 1]];
    }
  }

  /** Depths fall by one at a time and end at the top. */
  predicate Gentle(d: seq<nat>) {
    && (forall k :: 1 <= k < |d| ==> d[k] + 1 >= d[k - 1])
    && (d != [] ==> d[|d| - 1] == 0)
  }

  /** The first place after `k` of a depth below `e`. */
  lemma {:induction false} FallsByOne(d: seq<nat>, k: nat, e: nat, n: nat)
    requires Gentle(d) && k <= n < |d| && e >= 1 && d[n] >= e && forall i :: k < i <= n ==> d[i] >= e
    ensures Left(d, k, e)
    decreases |d| - n
  {
    assert n + 1 < |d|;
    if d[n + 1] >= e {
      FallsByOne(d, k, e, n + 1);
    } else {
      assert d[n + 1] + 1 >= d[n + 1 - 1];
      assert LeftByOne(d, k, e, n + 1);
    }
  }

  lemma AllReturn(d: seq<nat>)
    ensures (forall k :: 0 <= k < |d| ==> Returns(d, k)) <==> Gentle(d)
  {
    if Gentle(d) {
      forall k | 0 <= k < |d| ensures Returns(d, k) {
        forall e: nat | 1 <= e <= d[k] ensures Left(d, k, e) { FallsByOne(d, k, e, k); }
      }
    }
    if forall k :: 0 <= k < |d| ==> Returns(d, k) {
      if d != [] {
        assert Returns(d, |d| - 1);
        assert d[|d| - 1] > 0 ==> Left(d, |d| - 1, 1);
      }
      forall k | 1 <= k < |d| ensures d[k] + 1 >= d[k - 1] {
        StepReturns(d, k - 1);
      }
    }
  }

  lemma StepReturns(d: seq<nat>, k: nat)
    requires k + 1 < |d| && Returns(d, k)
    ensures d[k + 1] + 1 >= d[k]
  {
    var e := d[k];
    if e >= 1 {
      assert Left(d, k, e);
      var j: nat :| LeftByOne(d, k, e, j);
    }
  }

  /** No item is lost exactly if the depths fall by one at a time and end at the top. */
  lemma NothingLost(items: seq<MenuItem>)
    ensures Preorder(Build(items)) == items <==> Gentle(DepthsOf(items))
  {
    var d := DepthsOf(items);
    PreorderIsReturning(items);
    MarkedAll(items, Returners(d), |items|);
    AllReturn(d);
    assert items[..|items|] == items;
    assert (forall k :: 0 <= k < |d| ==> Returners(d)[k]) <==> (forall k :: 0 <= k < |d| ==> Returns(d, k));
  }

  /** An instance: a chapter and a section in it; the section follows the last top item and is lost. */
  lemma LostInstance(chapter: MenuItem, section: MenuItem)
    requires chapter.level == 1 && section.level == 2
    ensures Preorder(Build([chapter, section])) != [chapter, section]
  {
    NothingLost([chapter, section]);
  }

  // ---- nothing appears twice ----

  predicate Distinct(items: seq<MenuItem>) {
    forall i, j :: 0 <= i < j < |items| ==> items[i] != items[j]
  }

  lemma {:induction false} MarkedDistinct(items: seq<MenuItem>, marks: seq<bool>, n: nat)
    requires |marks| == |items| && Distinct(items) && n <= |items|
    ensures Distinct(Marked(items, marks, n))
    ensures forall i :: 0 <= i < |Marked(items, marks, n)| ==> IsAmong(items, n, Marked(items, marks, n)[i])
  {
    if n > 0 {
      var before := Marked(items, marks, n - 1);
      MarkedDistinct(items, marks, n - 1);
      forall i | 0 <= i < |before| ensures IsAmong(items, n, before[i]) && before[i] != items[n - 1] {
        assert IsAmong(items, n - 1, before[i]);
      }
      assert IsAmong(items, n, items[n - 1]);
    }
  }

  predicate IsAmong(items: seq<MenuItem>, n: nat, x: MenuItem)
    requires n <= |items|
  {
    exists k :: 0 <= k < n && items[k] == x
  }

  lemma EachOnce(items: seq<MenuItem>)
    requires Distinct(items)
    ensures Distinct(Preorder(Build(items)))
  {
    PreorderIsReturning(items);
    MarkedDistinct(items, Returners(DepthsOf(items)), |items|);
  }
}