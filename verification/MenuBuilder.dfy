/** Generator.java's `createMenuTree`, on items whose children lists change in place: a top item closes the group
    that waits under the top item before it, every other item joins the waiting group, and what has not been
    closed at the end is not built. */
module MenuBuilder {
  import opened MenuTree

  function Roots(ts: seq<Tree>): (r: seq<MenuItem>)
    ensures |r| == |ts| && forall i :: 0 <= i < |ts| ==> r[i] == ts[i].item
  {
    if ts == [] then [] else [ts[0].item] + Roots(ts[1..])
  }

  /** The items of a forest. */
  function Members(ts: seq<Tree>): set<MenuItem> {
    if ts == [] then {} else {ts[0].item} + Members(ts[0].children) + Members(ts[1..])
  }

  /** The items hold the children that the forest says. */
  predicate Linked(ts: seq<Tree>)
    reads Members(ts)
  {
    ts == [] ||
    (ts[0].item.children == Roots(ts[0].children) && Linked(ts[0].children) && Linked(ts[1..]))
  }

  function Items(items: seq<MenuItem>): set<MenuItem> {
    set x | x in items
  }

  // ---- the forest of a growing list ----

  /** The last item of the top level. */
  predicate IsLastTop(items: seq<MenuItem>, p: nat) {
    && p < |items| && items[p].level == items[0].level
    && forall k :: p < k < |items| ==> items[k].level != items[0].level
  }

  /** The forest without its last tree, of which nothing is built yet. */
  function Front(items: seq<MenuItem>): seq<Tree> {
    if items == [] then []
    else
      var j := NextAt(items, items[0].level, 1);
      if j == |items| then [] else [Node(items[0], Build(items[1..j]))] + Front(items[j..])
  }

  lemma {:induction false} NextAtConcat(items: seq<MenuItem>, x: MenuItem, level: int, k: nat)
    requires k <= |items|
    ensures
      var j := NextAt(items, level, k);
      NextAt(items + [x], level, k) == if j < |items| || x.level == level then j else j + 1
    decreases |items| - k
  {
    if k < |items| && items[k].level != level { NextAtConcat(items, x, level, k + 1); }
  }

  lemma {:induction false} BuildIsFront(items: seq<MenuItem>, p: nat)
    requires IsLastTop(items, p)
    ensures Build(items) == Front(items) + [Node(items[p], [])]
    decreases |items|
  {
    var j := NextAt(items, items[0].level, 1);
    if j < |items| {
      assert p >= j;
      BuildIsFront(items[j..], p - j);
    }
  }

  lemma {:induction false} MembersOfConcat(a: seq<Tree>, b: seq<Tree>)
    ensures Members(a + b) == Members(a) + Members(b)
  {
    if a == [] {
      assert a + b == b;
    } else {
      assert (a + b)[1..] == a[1..] + b;
      MembersOfConcat(a[1..], b);
    }
  }

  lemma MembersCons(t: Tree, ts: seq<Tree>)
    ensures Members([t] + ts) == {t.item} + Members(t.children) + Members(ts)
  {
    assert ([t] + ts)[1..] == ts;
  }

  lemma Pieces(items: seq<MenuItem>, j: nat)
    requires 1 <= j < |items|
    ensures items[0] in items && Items(items[1..j]) <= Items(items) && Items(items[j..]) <= Items(items)
  {
  }

  lemma {:induction false} MembersOfBuild(items: seq<MenuItem>)
    ensures Members(Build(items)) <= Items(items)
    decreases |items|
  {
    if items != [] {
      var j := NextAt(items, items[0].level, 1);
      if j < |items| {
        var t, ts := Node(items[0], Build(items[1..j])), Build(items[j..]);
        MembersOfBuild(items[1..j]);
        MembersOfBuild(items[j..]);
        MembersCons(t, ts);
        Pieces(items, j);
      } else {
        assert [Node(items[0], [])][1..] == [];
      }
    }
  }

  lemma {:induction false} MembersOfFront(items: seq<MenuItem>, p: nat)
    requires IsLastTop(items, p)
    ensures Members(Front(items)) <= Items(items[..p])
    decreases |items|
  {
    var j := NextAt(items, items[0].level, 1);
    if j < |items| {
      assert p >= j;
      var t, ts := Node(items[0], Build(items[1..j])), Front(items[j..]);
      MembersOfBuild(items[1..j]);
      MembersOfFront(items[j..], p - j);
      assert ([t] + ts)[1..] == ts;
      Parts(items, j, p);
    }
  }

  lemma Parts(items: seq<MenuItem>, j: nat, p: nat)
    requires 1 <= j <= p <= |items|
    ensures items[0] in Items(items[..p])
    ensures Items(items[1..j]) <= Items(items[..p])
    ensures Items(items[j..][..p - j]) <= Items(items[..p])
  {
    assert items[..p] == [items[0]] + items[1..j] + items[j..][..p - j];
  }

  lemma FrontCons(items: seq<MenuItem>, j: nat, group: seq<MenuItem>, rest: seq<MenuItem>)
    requires items != [] && NextAt(items, items[0].level, 1) == j < |items|
    requires group == items[1..j] && rest == items[j..]
    ensures Front(items) == [Node(items[0], Build(group))] + Front(rest)
  {
  }

  lemma FrontOfOneTop(items: seq<MenuItem>, x: MenuItem)
    requires items != [] && NextAt(items, items[0].level, 1) == |items| && x.level == items[0].level
    ensures Front(items) == [] && Front(items + [x]) == [Node(items[0], Build(items[1..]))]
  {
    var more := items + [x];
    NextAtConcat(items, x, items[0].level, 1);
    assert more[1..|items|] == items[1..] && more[|items|..] == [x];
    FrontCons(more, |items|, items[1..], [x]);
    assert Front([x]) == [];
  }

  lemma FrontOfLaterTop(items: seq<MenuItem>, p: nat, x: MenuItem, j: nat, group: seq<MenuItem>, rest: seq<MenuItem>,
                        t: Tree)
    requires items != [] && NextAt(items, items[0].level, 1) == j < |items| && x.level == items[0].level
    requires group == items[1..j] && rest == items[j..] && Front(rest + [x]) == Front(rest) + [t]
    ensures Front(items + [x]) == Front(items) + [t]
  {
    var more := items + [x];
    NextAtConcat(items, x, items[0].level, 1);
    assert more[1..j] == group && more[j..] == rest + [x];
    FrontCons(items, j, group, rest);
    FrontCons(more, j, group, rest + [x]);
  }

  /** A top item closes the group before it. */
  lemma {:induction false} FrontOfTop(items: seq<MenuItem>, p: nat, x: MenuItem)
    requires IsLastTop(items, p) && x.level == items[0].level
    ensures Front(items + [x]) == Front(items) + [Node(items[p], Build(items[p + 1..]))]
    decreases |items|
  {
    var j := NextAt(items, items[0].level, 1);
    if j < |items| {
      var group, rest := items[1..j], items[j..];
      assert p >= j;
      FrontOfTop(rest, p - j, x);
      assert rest[p - j] == items[p] && rest[p - j + 1..] == items[p + 1..];
      FrontOfLaterTop(items, p, x, j, group, rest, Node(items[p], Build(items[p + 1..])));
    } else {
      assert p == 0;
      FrontOfOneTop(items, x);
    }
  }

  lemma Shift(items: seq<MenuItem>, j: nat, p: nat, x: MenuItem)
    requires 1 <= j <= p < |items|
    ensures (items + [x])[j..] == items[j..] + [x] && (items + [x])[1..j] == items[1..j]
    ensures items[j..][p - j + 1..] == items[p + 1..]
  {
  }

  /** Any other item waits. */
  lemma {:induction false} FrontOfOther(items: seq<MenuItem>, x: MenuItem)
    requires items != [] && x.level != items[0].level
    ensures Front(items + [x]) == Front(items)
    decreases |items|
  {
    var j, more := NextAt(items, items[0].level, 1), items + [x];
    NextAtConcat(items, x, items[0].level, 1);
    if j < |items| {
      var rest := items[j..];
      Shift(items, j, j, x);
      FrontOfOther(rest, x);
      FrontCons(items, j, items[1..j], rest);
      FrontCons(more, j, items[1..j], rest + [x]);
    }
  }

  lemma {:induction false} LinkedSnoc(ts: seq<Tree>, t: Tree)
    requires Linked(ts) && t.item.children == Roots(t.children) && Linked(t.children)
    ensures Linked(ts + [t])
  {
    if ts == [] {
      assert ts + [t] == [t] && [t][1..] == [];
    } else {
      LinkedSnoc(ts[1..], t);
      assert (ts + [t])[1..] == ts[1..] + [t];
    }
  }

  lemma {:induction false} RootsSnoc(ts: seq<Tree>, t: Tree)
    ensures Roots(ts + [t]) == Roots(ts) + [t.item]
  {
    var r, s := Roots(ts + [t]), Roots(ts) + [t.item];
    assert forall i :: 0 <= i < |r| ==> r[i] == s[i];
  }

  // ---- the builder ----

  /** Part way through the loop: `n` items are read, the last top item is at `p`, its group waits in `subMenu`. */
  ghost predicate Reading(items: seq<MenuItem>, n: nat, p: nat, subMenu: seq<MenuItem>) {
    && p < n <= |items| && IsLastTop(items[..n], p) && subMenu == items[p + 1..n]
  }

  /** What is built so far: everything before the last top item, which is there without its group. */
  ghost predicate Built(root: MenuItem, items: seq<MenuItem>, n: nat, p: nat)
    requires p < n <= |items|
    reads root, Members(Front(items[..n]))
  {
    root.children == Roots(Front(items[..n])) + [items[p]] && Linked(Front(items[..n]))
  }

  lemma FirstRound(root: MenuItem, items: seq<MenuItem>)
    requires items != [] && root.children == [items[0]]
    ensures Reading(items, 1, 0, []) && Built(root, items, 1, 0)
  {
    assert items[..1] == [items[0]];
    assert Front(items[..1]) == [];
  }

  lemma SlicesApart(items: seq<MenuItem>, n: nat, p: nat, root: MenuItem)
    requires p < n <= |items| && Distinct(items) && root !in items
    ensures Items(items[..p]) !! Items(items[p + 1..n])
    ensures items[p] !in items[..p] && items[p] !in items[p + 1..n]
    ensures root !in items[..p] && root !in items[p + 1..n]
  {
  }

  lemma GroupDistinct(items: seq<MenuItem>, n: nat, p: nat)
    requires p < n <= |items| && Distinct(items)
    ensures Distinct(items[p + 1..n])
    ensures forall k :: n <= k < |items| ==> items[k] !in items[p + 1..n] && items[k] != items[p]
  {
  }

  /** The last top item, its waiting group and the root are apart from each other and from what is built. */
  lemma GroupApart(root: MenuItem, items: seq<MenuItem>, n: nat, p: nat, subMenu: seq<MenuItem>)
    requires Reading(items, n, p, subMenu) && Distinct(items) && root !in items
    ensures Members(Front(items[..n])) !! Items(subMenu)
    ensures root !in Members(Front(items[..n])) && items[p] !in Members(Front(items[..n]))
    ensures items[p] !in subMenu && root !in subMenu
    ensures forall x :: x in Members(Front(items[..n])) ==> x in items
  {
    MembersOfFront(items[..n], p);
    assert items[..n][..p] == items[..p];
    SlicesApart(items, n, p, root);
  }

  lemma TopRound(root: MenuItem, items: seq<MenuItem>, n: nat, p: nat, subMenu: seq<MenuItem>)
    requires Reading(items, n, p, subMenu) && n < |items| && items[n].level == items[0].level
    requires Linked(Front(items[..n])) && items[p].children == Roots(Build(subMenu)) && Linked(Build(subMenu))
    requires root.children == Roots(Front(items[..n])) + [items[p]] + [items[n]]
    ensures Built(root, items, n + 1, n) && Reading(items, n + 1, n, [])
  {
    var before := items[..n];
    assert items[..n + 1] == before + [items[n]];
    assert before[p + 1..] == subMenu;
    FrontOfTop(before, p, items[n]);
    LinkedSnoc(Front(before), Node(items[p], Build(subMenu)));
    RootsSnoc(Front(before), Node(items[p], Build(subMenu)));
  }

  lemma OtherRound(root: MenuItem, items: seq<MenuItem>, n: nat, p: nat, subMenu: seq<MenuItem>)
    requires Reading(items, n, p, subMenu) && n < |items| && items[n].level != items[0].level
    requires Built(root, items, n, p)
    ensures Built(root, items, n + 1, p) && Reading(items, n + 1, p, subMenu + [items[n]])
  {
    var before := items[..n];
    assert items[..n + 1] == before + [items[n]];
    FrontOfOther(before, items[n]);
  }

  /** Builds the waiting group under the last item of the root. */
  method BuildUnder(root: MenuItem, item: MenuItem, subMenu: seq<MenuItem>)
    requires root.children != [] && item == root.children[|root.children| - 1]
    requires item != root && item !in subMenu && item.children == []
    requires Distinct(subMenu) && root !in subMenu && forall x :: x in subMenu ==> x.children == []
    modifies root, item, Items(subMenu)
    ensures root.children == old(root.children)
    ensures item.children == Roots(Build(subMenu)) && Linked(Build(subMenu))
    decreases |subMenu|, 5
  {
    if |subMenu| > 0 {
      var index := |root.children| - 1;
      MembersOfBuild(subMenu);
      CreateMenuTree(item, subMenu);
      assert root.children[index := item] == root.children;
      root.children := root.children[index := item];
    }
  }

  /** Builds the waiting group under the last item of the root, which then gets its next one. */
  method CloseGroup(root: MenuItem, item: MenuItem, subMenu: seq<MenuItem>, next: MenuItem)
    requires root.children != [] && item == root.children[|root.children| - 1]
    requires item != root && item !in subMenu && item.children == []
    requires Distinct(subMenu) && root !in subMenu && forall x :: x in subMenu ==> x.children == []
    modifies root, item, Items(subMenu)
    ensures root.children == old(root.children) + [next]
    ensures item.children == Roots(Build(subMenu)) && Linked(Build(subMenu))
    decreases |subMenu|, 6
  {
    MembersOfBuild(subMenu);
    BuildUnder(root, item, subMenu);
    root.children := root.children + [next];
  }

  /** A further top item closes the group that waits under the one before it, and takes its place. */
  method AddTop(root: MenuItem, menuItems: seq<MenuItem>, n: nat, ghost p: nat, subMenu: seq<MenuItem>)
    requires Distinct(menuItems) && root !in menuItems && n < |menuItems| && menuItems[n].level == menuItems[0].level
    requires Reading(menuItems, n, p, subMenu) && Built(root, menuItems, n, p)
    requires forall k :: p <= k < |menuItems| ==> menuItems[k].children == []
    modifies root, Items(menuItems)
    ensures Reading(menuItems, n + 1, n, []) && Built(root, menuItems, n + 1, n)
    ensures forall k :: n <= k < |menuItems| ==> menuItems[k].children == []
    decreases |menuItems|, 0
  {
    GroupApart(root, menuItems, n, p, subMenu);
    GroupDistinct(menuItems, n, p);
    MembersOfBuild(subMenu);
    ghost var front := Front(menuItems[..n]);
    var last := root.children[|root.children| - 1];
    assert last == menuItems[p];
    CloseGroup(root, last, subMenu, menuItems[n]);
    assert Linked(front);
    TopRound(root, menuItems, n, p, subMenu);
  }

  /** The loop between two items. */
  ghost predicate Between(root: MenuItem, items: seq<MenuItem>, n: nat, p: nat, subMenu: seq<MenuItem>)
    reads root, Items(items), Members(if n <= |items| then Front(items[..n]) else [])
  {
    && p <= n <= |items|
    && (if n == 0 then root.children == [] && subMenu == []
        else Reading(items, n, p, subMenu) && Built(root, items, n, p))
    && forall k :: p <= k < |items| ==> items[k].children == []
  }

  lemma LastRound(root: MenuItem, items: seq<MenuItem>, p: nat, subMenu: seq<MenuItem>)
    requires items != [] && Between(root, items, |items|, p, subMenu)
    ensures root.children == Roots(Build(items)) && Linked(Build(items))
  {
    assert items[..|items|] == items;
    BuildIsFront(items, p);
    LinkedSnoc(Front(items), Node(items[p], []));
    RootsSnoc(Front(items), Node(items[p], []));
  }

  /** One round of the loop. */
  method ReadItem(root: MenuItem, menuItems: seq<MenuItem>, n: nat, ghost p: nat, subMenu: seq<MenuItem>, topLevel: int)
    returns (subMenu': seq<MenuItem>, ghost p': nat)
    requires n < |menuItems| && Distinct(menuItems) && root !in menuItems && topLevel == menuItems[0].level
    requires Between(root, menuItems, n, p, subMenu)
    modifies root, Items(menuItems)
    ensures Between(root, menuItems, n + 1, p', subMenu')
    decreases |menuItems|, 1
  {
    subMenu', p' := subMenu, p;
    if menuItems[n].level == topLevel {
      if n > 0 {
        AddTop(root, menuItems, n, p, subMenu);
        subMenu' := [];
      } else {
        root.children := root.children + [menuItems[0]];
        FirstRound(root, menuItems);
      }
      p' := n;
    } else {
      OtherRound(root, menuItems, n, p, subMenu);
      subMenu' := subMenu + [menuItems[n]];
    }
  }

  /** The items under `root` form the forest of the list. */
  method CreateMenuTree(root: MenuItem, menuItems: seq<MenuItem>)
    requires menuItems != [] && Distinct(menuItems) && root !in menuItems && root.children == []
    requires forall x :: x in menuItems ==> x.children == []
    modifies root, Items(menuItems)
    ensures root.children == Roots(Build(menuItems)) && Linked(Build(menuItems))
    decreases |menuItems|, 4
  {
    var topLevel := menuItems[0].level;
    var subMenu := [];
    ghost var p := 0;
    var n := 0;
    assert Between(root, menuItems, n, p, subMenu);
    while n < |menuItems|
      invariant n <= |menuItems| && Between(root, menuItems, n, p, subMenu)
    {
      subMenu, p := ReadItem(root, menuItems, n, p, subMenu, topLevel);
      n := n + 1;
    }
    LastRound(root, menuItems, p, subMenu);
  }

  datatype Menu = OutOfBounds | Entries(items: seq<MenuItem>)

  /** The whole menu; there is no first item to look at in an empty list. */
  method CreateMenu(menuItems: seq<MenuItem>) returns (menu: Menu)
    requires Distinct(menuItems) && forall x :: x in menuItems ==> x.children == []
    modifies Items(menuItems)
    ensures menu.OutOfBounds? <==> menuItems == []
    ensures menu.Entries? ==> menu.items == Roots(Build(menuItems)) && Linked(Build(menuItems))
  {
    if |menuItems| == 0 {
      return OutOfBounds;
    }
    var root := new MenuItem(0, "", "");
    CreateMenuTree(root, menuItems);
    MembersOfBuild(menuItems);
    menu := Entries(root.children);
  }
}
