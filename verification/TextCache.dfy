/** The canvas text cache of jquery.flot.js as values: what `addText` and `removeText` do to the positions of one
    entry, what `render` makes of them, and what it means for cache and page to agree. */
module TextCache {

  type ElementId = nat

  /** Layer, style and text; all three are opaque. */
  datatype Key = Key(layer: nat, style: nat, text: nat)

  /** A text at a place. */
  datatype Placement = Placement(key: Key, x: real, y: real)

  datatype Position = Position(active: bool, rendered: bool, element: ElementId, x: real, y: real)

  datatype Info = Info(width: real, height: real, element: ElementId, positions: seq<Position>)

  datatype Align = Start | Middle | End

  /** How far a text of some extent is moved back for its alignment. */
  function Shift(align: Align, extent: real): real {
    match align
    case Start => 0.0
    case Middle => extent / 2.0
    case End => extent
  }

  /** The point of a text of some extent that its alignment names: where it starts, its middle, or where it ends. */
  function AlignedPoint(align: Align, start: real, extent: real): real {
    match align
    case Start => start
    case Middle => (start + (start + extent)) / 2.0
    case End => start + extent
  }

  /** Moved back, a text has the point its alignment names where it was asked for. */
  lemma ShiftAligns(align: Align, x: real, extent: real)
    ensures AlignedPoint(align, x - Shift(align, extent), extent) == x
  {
  }

  predicate IsAt(p: Position, x: real, y: real) {
    p.x == x && p.y == y
  }

  /** Some position of the list is active at the place. */
  predicate ActiveAt(positions: seq<Position>, x: real, y: real) {
    exists i :: 0 <= i < |positions| && positions[i].active && IsAt(positions[i], x, y)
  }

  // ---- what holds of the cache ----

  /** Positions at different places with different elements. */
  predicate Apart(ps: seq<Position>) {
    forall i, j :: 0 <= i < j < |ps| ==> ps[i].element != ps[j].element && !IsAt(ps[i], ps[j].x, ps[j].y)
  }

  /** The positions of one entry: different places, different elements, each its own, and rendered exactly
      when attached. `owner` tells which entry an element was made for. */
  ghost predicate EntryOk(key: Key, info: Info, attached: set<ElementId>, owner: map<ElementId, Key>) {
    var ps := info.positions;
    && info.element in owner && owner[info.element] == key
    && (forall i :: 0 <= i < |ps| ==>
          ps[i].element in owner && owner[ps[i].element] == key && (ps[i].rendered <==> ps[i].element in attached))
    && Apart(ps)
    && (forall e :: e in attached && e in owner && owner[e] == key ==> HasElement(ps, e))
  }

  predicate HasElement(ps: seq<Position>, e: ElementId) {
    exists i :: 0 <= i < |ps| && ps[i].element == e
  }

  /** The attached elements belong to entries of the cache, and every entry is in order. */
  ghost predicate CacheOk(cache: map<Key, Info>, attached: set<ElementId>, owner: map<ElementId, Key>,
                          next: ElementId) {
    && (forall e :: e in owner ==> e < next)
    && (forall e :: e in attached ==> e in owner && owner[e] in cache)
    && (forall key :: key in cache ==> EntryOk(key, cache[key], attached, owner))
  }

  /** The active positions are the placements asked for. */
  ghost predicate Agrees(cache: map<Key, Info>, wanted: set<Placement>) {
    && (forall p :: p in wanted ==> p.key in cache)
    && (forall key :: key in cache ==> EntryAgrees(key, cache[key].positions, wanted))
  }

  ghost predicate EntryAgrees(key: Key, ps: seq<Position>, wanted: set<Placement>) {
    forall x, y :: Placement(key, x, y) in wanted <==> ActiveAt(ps, x, y)
  }

  /** Every entry is drawn as it should be: nothing inactive, nothing unrendered, no entry without positions. */
  predicate Settled(ps: seq<Position>) {
    ps != [] && forall i :: 0 <= i < |ps| ==> ps[i].active && ps[i].rendered
  }

  // ---- position lists ----

  /** Marks the position at the place, if there is one. */
  method Activate(ps: seq<Position>, x: real, y: real) returns (found: bool, r: seq<Position>)
    ensures found <==> exists i :: 0 <= i < |ps| && IsAt(ps[i], x, y)
    ensures !found ==> r == ps
    ensures found ==> exists i :: 0 <= i < |ps| && IsAt(ps[i], x, y) && r == ps[i := ps[i].(active := true)]
  {
    var i := 0;
    while i < |ps|
      invariant 0 <= i <= |ps| && forall k :: 0 <= k < i ==> !IsAt(ps[k], x, y)
    {
      if ps[i].x == x && ps[i].y == y {
        assert IsAt(ps[i], x, y);
        return true, ps[i := ps[i].(active := true)];
      }
      i := i + 1;
    }
    return false, ps;
  }

  /** The list with every position at the place, or every position at all, made inactive. */
  predicate Deactivated(ps: seq<Position>, r: seq<Position>, all: bool, x: real, y: real) {
    |r| == |ps| && forall i :: 0 <= i < |ps| ==>
      r[i] == if all || IsAt(ps[i], x, y) then ps[i].(active := false) else ps[i]
  }

  method Deactivate(ps: seq<Position>, all: bool, x: real, y: real) returns (r: seq<Position>)
    ensures Deactivated(ps, r, all, x, y)
  {
    r := ps;
    var i := 0;
    while i < |ps|
      invariant 0 <= i <= |ps| && |r| == |ps|
      invariant forall k :: 0 <= k < i ==> r[k] == if all || IsAt(ps[k], x, y) then ps[k].(active := false) else ps[k]
      invariant forall k :: i <= k < |ps| ==> r[k] == ps[k]
    {
      if all || (r[i].x == x && r[i].y == y) {
        r := r[i := r[i].(active := false)];
      }
      i := i + 1;
    }
  }

  /** What rendering keeps of a list: the active positions, all of them rendered. */
  function Kept(ps: seq<Position>): seq<Position> {
    if ps == [] then []
    else
      var p := ps[|ps| - 1];
      Kept(ps[..|ps| - 1]) + (if p.active then [p.(rendered := true)] else [])
  }

  /** The attached elements after rendering a list. */
  function AttachedAfter(ps: seq<Position>, attached: set<ElementId>): set<ElementId> {
    if ps == [] then attached
    else
      var p := ps[|ps| - 1];
      var before := AttachedAfter(ps[..|ps| - 1], attached);
      if p.active then (if p.rendered then before else before + {p.element})
      else if p.rendered then before - {p.element} else before
  }

  lemma RenderStep(ps: seq<Position>, n: nat)
    requires n < |ps|
    ensures ps[n..] == [ps[n]] + ps[n + 1..]
    ensures Kept(ps[..n + 1]) == Kept(ps[..n]) + (if ps[n].active then [ps[n].(rendered := true)] else [])
  {
    assert ps[..n + 1][..n] == ps[..n];
  }

  lemma AttachedStep(ps: seq<Position>, n: nat, attached: set<ElementId>)
    requires n < |ps|
    ensures
      var before, p := AttachedAfter(ps[..n], attached), ps[n];
      AttachedAfter(ps[..n + 1], attached) ==
        if p.active then (if p.rendered then before else before + {p.element})
        else if p.rendered then before - {p.element} else before
  {
    assert ps[..n + 1][..n] == ps[..n];
  }

  lemma Splice(r: seq<Position>, front: seq<Position>, p: Position, rest: seq<Position>, q: Position)
    requires r == front + ([p] + rest)
    ensures |front| < |r| && r[|front|] == p
    ensures r[|front| := q] == (front + [q]) + rest
    ensures r[..|front|] + r[|front| + 1..] == front + rest
    ensures p == q ==> r == (front + [q]) + rest
  {
  }

  /** The list and the counter part way through the loop of `render`: `n` of the positions are dealt with. */
  ghost predicate Midway(ps: seq<Position>, n: nat, r: seq<Position>, i: nat) {
    n <= |ps| && i == |Kept(ps[..n])| && r == Kept(ps[..n]) + ps[n..]
  }

  lemma MidwayStep(ps: seq<Position>, n: nat, r: seq<Position>, i: nat)
    requires Midway(ps, n, r, i) && i < |r|
    ensures n < |ps| && r[i] == ps[n]
    ensures ps[n].active ==> Midway(ps, n + 1, r[i := ps[n].(rendered := true)], i + 1)
    ensures ps[n].active && ps[n].rendered ==> Midway(ps, n + 1, r, i + 1)
    ensures !ps[n].active ==> Midway(ps, n + 1, r[..i] + r[i + 1..], i)
  {
    RenderStep(ps, n);
    Splice(r, Kept(ps[..n]), ps[n], ps[n + 1..], ps[n].(rendered := true));
  }

  /** The loop of `render` over one list: inactive positions are spliced out. */
  method RenderPositions(ps: seq<Position>, attached0: set<ElementId>)
    returns (r: seq<Position>, attached: set<ElementId>)
    ensures r == Kept(ps) && attached == AttachedAfter(ps, attached0)
  {
    r, attached := ps, attached0;
    var i := 0;
    ghost var n := 0;
    assert ps[..0] == [] && ps[0..] == ps;
    while i < |r|
      invariant 0 <= i && Midway(ps, n, r, i)
      invariant attached == AttachedAfter(ps[..n], attached0)
      decreases |ps| - n
    {
      MidwayStep(ps, n, r, i);
      AttachedStep(ps, n, attached0);
      var position := r[i];
      if position.active {
        if !position.rendered {
          attached := attached + {position.element};
          r := r[i := position.(rendered := true)];
        }
        i := i + 1;
      } else {
        r := r[..i] + r[i + 1..];
        if position.rendered {
          attached := attached - {position.element};
        }
      }
      n := n + 1;
    }
    assert ps[..n] == ps;
  }

  /** Which positions are kept. */
  lemma {:induction false} KeptMeaning(ps: seq<Position>)
    ensures forall k :: 0 <= k < |Kept(ps)| ==> Kept(ps)[k].active && Kept(ps)[k].rendered
    ensures forall p :: p in Kept(ps) <==> exists i :: 0 <= i < |ps| && ps[i].active && p == ps[i].(rendered := true)
  {
    if ps != [] {
      var init, last := ps[..|ps| - 1], ps[|ps| - 1];
      KeptMeaning(init);
      forall p ensures p in Kept(ps) <==> exists i :: 0 <= i < |ps| && ps[i].active && p == ps[i].(rendered := true) {
        if p in Kept(init) {
          var i :| 0 <= i < |init| && init[i].active && p == init[i].(rendered := true);
          assert ps[i] == init[i];
        }
        if i :| 0 <= i < |ps| && ps[i].active && p == ps[i].(rendered := true) {
          if i < |init| { assert init[i] == ps[i]; }
        }
      }
    }
  }

  lemma {:induction false} KeptApart(ps: seq<Position>)
    requires Apart(ps)
    ensures Apart(Kept(ps))
  {
    if ps != [] {
      var init, last := ps[..|ps| - 1], ps[|ps| - 1];
      KeptApart(init);
      KeptMeaning(init);
      if last.active {
        forall k | 0 <= k < |Kept(init)|
          ensures Kept(init)[k].element != last.element && !IsAt(Kept(init)[k], last.x, last.y)
        {
          var p := Kept(init)[k];
          assert p in Kept(init);
          var i :| 0 <= i < |init| && init[i].active && p == init[i].(rendered := true);
          assert ps[i] == init[i];
        }
      }
    }
  }

  lemma HasElementLast(ps: seq<Position>, e: ElementId)
    requires ps != []
    ensures HasElement(ps, e) <==> HasElement(ps[..|ps| - 1], e) || e == ps[|ps| - 1].element
  {
    var init := ps[..|ps| - 1];
    if HasElement(init, e) {
      var i :| 0 <= i < |init| && init[i].element == e;
      assert ps[i].element == e;
    }
    if HasElement(ps, e) {
      var i :| 0 <= i < |ps| && ps[i].element == e;
      if i < |init| { assert init[i].element == e; }
    }
  }

  /** After rendering, an element of the list is attached exactly if its position is active, and other
      elements are as before. */
  lemma {:induction false} AttachedMeaning(ps: seq<Position>, attached: set<ElementId>)
    requires Apart(ps) && forall i :: 0 <= i < |ps| ==> (ps[i].rendered <==> ps[i].element in attached)
    ensures forall i :: 0 <= i < |ps| ==> (ps[i].element in AttachedAfter(ps, attached) <==> ps[i].active)
    ensures forall e :: !HasElement(ps, e) ==> (e in AttachedAfter(ps, attached) <==> e in attached)
  {
    if ps != [] {
      var init, last := ps[..|ps| - 1], ps[|ps| - 1];
      AttachedMeaning(init, attached);
      forall e ensures HasElement(ps, e) <==> HasElement(init, e) || e == last.element {
        HasElementLast(ps, e);
      }
      assert !HasElement(init, last.element);
      forall i | 0 <= i < |ps| ensures ps[i].element in AttachedAfter(ps, attached) <==> ps[i].active {
        if i < |init| { assert init[i] == ps[i]; }
      }
    }
  }

  // ---- one entry ----

  lemma ActivatedActive(ps: seq<Position>, i: nat, x: real, y: real)
    requires i < |ps|
    ensures ActiveAt(ps[i := ps[i].(active := true)], x, y) <==> ActiveAt(ps, x, y) || IsAt(ps[i], x, y)
  {
    var r := ps[i := ps[i].(active := true)];
    if ActiveAt(ps, x, y) {
      var k :| 0 <= k < |ps| && ps[k].active && IsAt(ps[k], x, y);
      assert r[k].active && IsAt(r[k], x, y);
    }
    if IsAt(ps[i], x, y) { assert r[i].active && IsAt(r[i], x, y); }
    if ActiveAt(r, x, y) {
      var k :| 0 <= k < |r| && r[k].active && IsAt(r[k], x, y);
      assert k != i ==> ps[k].active && IsAt(ps[k], x, y);
    }
  }

  lemma PushedActive(ps: seq<Position>, p: Position, x: real, y: real)
    ensures ActiveAt(ps + [p], x, y) <==> ActiveAt(ps, x, y) || (p.active && IsAt(p, x, y))
  {
    var r := ps + [p];
    assert r[|ps|] == p;
    if ActiveAt(ps, x, y) {
      var k :| 0 <= k < |ps| && ps[k].active && IsAt(ps[k], x, y);
      assert r[k].active && IsAt(r[k], x, y);
    }
    if ActiveAt(r, x, y) {
      var k :| 0 <= k < |r| && r[k].active && IsAt(r[k], x, y);
      assert k < |ps| ==> ps[k].active && IsAt(ps[k], x, y);
    }
  }

  lemma DeactivatedActive(ps: seq<Position>, r: seq<Position>, all: bool, x: real, y: real, a: real, b: real)
    requires Deactivated(ps, r, all, x, y)
    ensures ActiveAt(r, a, b) <==> ActiveAt(ps, a, b) && !all && !(a == x && b == y)
  {
    if ActiveAt(ps, a, b) {
      var k :| 0 <= k < |ps| && ps[k].active && IsAt(ps[k], a, b);
      assert !all && !(a == x && b == y) ==> r[k].active && IsAt(r[k], a, b);
    }
    if ActiveAt(r, a, b) {
      var k :| 0 <= k < |r| && r[k].active && IsAt(r[k], a, b);
      assert ps[k].active && IsAt(ps[k], a, b);
    }
  }

  lemma KeptActive(ps: seq<Position>, x: real, y: real)
    ensures ActiveAt(Kept(ps), x, y) <==> ActiveAt(ps, x, y)
  {
    KeptMeaning(ps);
    var r := Kept(ps);
    if ActiveAt(ps, x, y) {
      var k :| 0 <= k < |ps| && ps[k].active && IsAt(ps[k], x, y);
      var p := ps[k].(rendered := true);
      assert p in r;
      var j :| 0 <= j < |r| && r[j] == p;
      assert r[j].active && IsAt(r[j], x, y);
    }
    if ActiveAt(r, x, y) {
      var j :| 0 <= j < |r| && r[j].active && IsAt(r[j], x, y);
      assert r[j] in r;
      var k :| 0 <= k < |ps| && ps[k].active && r[j] == ps[k].(rendered := true);
      assert ps[k].active && IsAt(ps[k], x, y);
    }
  }

  /** Only elements made for one key are new, and only their attachment differs. */
  ghost predicate OnlyFor(key: Key, attached: set<ElementId>, attached': set<ElementId>,
                          owner: map<ElementId, Key>, owner': map<ElementId, Key>) {
    && (forall e :: e in owner ==> e in owner' && owner'[e] == owner[e])
    && (forall e :: e in owner' && e !in owner ==> owner'[e] == key)
    && (forall e :: e in attached' ==> e in owner')
    && (forall e :: e in owner' && owner'[e] != key ==> (e in attached <==> e in attached'))
  }

  /** An entry may be replaced by one in order as long as nothing of the other entries is touched. */
  lemma ReplaceEntry(cache: map<Key, Info>, key: Key, info: Info, attached: set<ElementId>, attached': set<ElementId>,
                     owner: map<ElementId, Key>, owner': map<ElementId, Key>, next: ElementId, next': ElementId)
    requires CacheOk(cache, attached, owner, next)
    requires EntryOk(key, info, attached', owner') && OnlyFor(key, attached, attached', owner, owner')
    requires forall e :: e in owner' ==> e < next'
    ensures CacheOk(cache[key := info], attached', owner', next')
  {
    forall k | k in cache && k != key ensures EntryOk(k, cache[k], attached', owner') {
      assert EntryOk(k, cache[k], attached, owner);
    }
    forall e | e in attached' ensures owner'[e] in cache[key := info] {
      if owner'[e] != key { assert e in attached; }
    }
  }

  /** An entry without positions may be dropped. */
  lemma DropEntry(cache: map<Key, Info>, key: Key, attached: set<ElementId>, owner: map<ElementId, Key>,
                  next: ElementId)
    requires CacheOk(cache, attached, owner, next) && key in cache && cache[key].positions == []
    ensures CacheOk(cache - {key}, attached, owner, next)
  {
    assert EntryOk(key, cache[key], attached, owner);
    forall e | e in attached ensures owner[e] != key {
      assert !HasElement([], e);
    }
  }

  lemma ReplaceAgrees(cache: map<Key, Info>, key: Key, info: Info, wanted: set<Placement>, wanted': set<Placement>)
    requires Agrees(cache, wanted) && EntryAgrees(key, info.positions, wanted')
    requires forall p: Placement :: p.key != key ==> (p in wanted <==> p in wanted')
    ensures Agrees(cache[key := info], wanted')
  {
    forall k | k in cache && k != key ensures EntryAgrees(k, cache[k].positions, wanted') {
      assert EntryAgrees(k, cache[k].positions, wanted);
    }
  }

  /** Marking a position, or all, inactive keeps an entry in order. */
  lemma EntryDeactivated(key: Key, info: Info, r: seq<Position>, all: bool, x: real, y: real,
                         attached: set<ElementId>, owner: map<ElementId, Key>)
    requires EntryOk(key, info, attached, owner) && Deactivated(info.positions, r, all, x, y)
    ensures EntryOk(key, info.(positions := r), attached, owner)
  {
    forall e | HasElement(info.positions, e) ensures HasElement(r, e) {
      var i :| 0 <= i < |info.positions| && info.positions[i].element == e;
      assert r[i].element == e;
    }
  }

  lemma EntryActivated(key: Key, info: Info, i: nat, attached: set<ElementId>, owner: map<ElementId, Key>)
    requires EntryOk(key, info, attached, owner) && i < |info.positions|
    ensures EntryOk(key, info.(positions := info.positions[i := info.positions[i].(active := true)]), attached, owner)
  {
    var ps := info.positions;
    var r := ps[i := ps[i].(active := true)];
    forall e | HasElement(ps, e) ensures HasElement(r, e) {
      var k :| 0 <= k < |ps| && ps[k].element == e;
      assert r[k].element == e;
    }
  }

  /** A position with a detached element of the key's own, at a place not yet taken, may be added. */
  lemma EntryPushed(key: Key, info: Info, p: Position, attached: set<ElementId>, owner: map<ElementId, Key>)
    requires EntryOk(key, info, attached, owner)
    requires p.element in owner && owner[p.element] == key && p.element !in attached && !p.rendered
    requires !HasElement(info.positions, p.element)
    requires forall i :: 0 <= i < |info.positions| ==> !IsAt(info.positions[i], p.x, p.y)
    ensures EntryOk(key, info.(positions := info.positions + [p]), attached, owner)
  {
    var ps := info.positions;
    var r := ps + [p];
    forall e | HasElement(ps, e) ensures HasElement(r, e) {
      var k :| 0 <= k < |ps| && ps[k].element == e;
      assert r[k].element == e;
    }
    forall i, j | 0 <= i < j < |r| ensures r[i].element != r[j].element && !IsAt(r[i], r[j].x, r[j].y) {
      assert i < |ps| && ps[i].element == p.element ==> HasElement(ps, p.element);
    }
  }

  /** Rendering an entry keeps it in order and touches no other entry's elements. */
  lemma EntryRendered(key: Key, info: Info, attached: set<ElementId>, owner: map<ElementId, Key>)
    requires EntryOk(key, info, attached, owner) && forall e :: e in attached ==> e in owner
    ensures EntryOk(key, info.(positions := Kept(info.positions)), AttachedAfter(info.positions, attached), owner)
    ensures OnlyFor(key, attached, AttachedAfter(info.positions, attached), owner, owner)
  {
    var ps, now := info.positions, AttachedAfter(info.positions, attached);
    var r := Kept(ps);
    AttachedMeaning(ps, attached);
    KeptMeaning(ps);
    KeptApart(ps);
    forall i | 0 <= i < |r|
      ensures r[i].element in owner && owner[r[i].element] == key && (r[i].rendered <==> r[i].element in now)
    {
      assert r[i] in r;
      var k :| 0 <= k < |ps| && ps[k].active && r[i] == ps[k].(rendered := true);
      assert ps[k].element in owner;
    }
    forall e | e in now && HasElement(ps, e) ensures HasElement(r, e) && e in owner && owner[e] == key {
      var k :| 0 <= k < |ps| && ps[k].element == e;
      var p := ps[k].(rendered := true);
      assert p in r;
      var j :| 0 <= j < |r| && r[j] == p;
      assert r[j].element == e;
    }
    forall e | e in owner && owner[e] != key ensures e in attached <==> e in now {
      assert !HasElement(ps, e);
    }
  }

  // ---- what is on the page ----

  /** The element is the one a placement is drawn with. */
  predicate Draws(cache: map<Key, Info>, e: ElementId, p: Placement) {
    p.key in cache && IsDrawnIn(cache[p.key].positions, e, p.x, p.y)
  }

  predicate IsDrawnIn(ps: seq<Position>, e: ElementId, x: real, y: real) {
    exists i :: 0 <= i < |ps| && ps[i].element == e && IsAt(ps[i], x, y)
  }

  /** Exactly one attached element for each placement, and an entry exactly for each text in use. */
  ghost predicate PageShows(cache: map<Key, Info>, attached: set<ElementId>, wanted: set<Placement>) {
    && (forall p :: p in wanted ==> exists e :: e in attached && Draws(cache, e, p))
    && (forall e :: e in attached ==> exists p :: p in wanted && Draws(cache, e, p))
    && (forall e, p, q :: Draws(cache, e, p) && Draws(cache, e, q) ==> p == q)
    && (forall e, f, p :: Draws(cache, e, p) && Draws(cache, f, p) ==> e == f)
    && (forall key :: key in cache <==> exists p :: p in wanted && p.key == key)
  }

  /** Once everything is settled, the attached elements are exactly one for each placement asked for. */
  lemma PageIsWanted(cache: map<Key, Info>, attached: set<ElementId>, owner: map<ElementId, Key>, next: ElementId,
                     wanted: set<Placement>)
    requires CacheOk(cache, attached, owner, next) && Agrees(cache, wanted)
    requires forall key :: key in cache ==> Settled(cache[key].positions)
    ensures PageShows(cache, attached, wanted)
  {
    forall p | p in wanted ensures exists e :: e in attached && Draws(cache, e, p) {
      var ps := cache[p.key].positions;
      assert EntryAgrees(p.key, ps, wanted) && EntryOk(p.key, cache[p.key], attached, owner);
      assert p == Placement(p.key, p.x, p.y);
      var i :| 0 <= i < |ps| && ps[i].active && IsAt(ps[i], p.x, p.y);
      assert Draws(cache, ps[i].element, p);
    }
    forall e | e in attached ensures exists p :: p in wanted && Draws(cache, e, p) {
      var key := owner[e];
      AttachedIsWanted(cache, attached, owner, next, wanted, key, e);
    }
    forall e, p, q | Draws(cache, e, p) && Draws(cache, e, q) ensures p == q {
      DrawsOne(cache, attached, owner, next, e, p, q);
    }
    forall e, f, p | Draws(cache, e, p) && Draws(cache, f, p) ensures e == f {
      DrawnOnce(cache, attached, owner, next, e, f, p);
    }
    forall key | key in cache ensures exists p :: p in wanted && p.key == key {
      var ps := cache[key].positions;
      assert EntryAgrees(key, ps, wanted);
      assert IsAt(ps[0], ps[0].x, ps[0].y);
      assert ActiveAt(ps, ps[0].x, ps[0].y);
      assert Placement(key, ps[0].x, ps[0].y) in wanted;
    }
  }

  lemma AttachedIsWanted(cache: map<Key, Info>, attached: set<ElementId>, owner: map<ElementId, Key>, next: ElementId,
                         wanted: set<Placement>, key: Key, e: ElementId)
    requires CacheOk(cache, attached, owner, next) && Agrees(cache, wanted)
    requires forall key :: key in cache ==> Settled(cache[key].positions)
    requires e in attached && owner[e] == key
    ensures exists p :: p in wanted && Draws(cache, e, p)
  {
    var ps := cache[key].positions;
    assert EntryAgrees(key, ps, wanted) && EntryOk(key, cache[key], attached, owner);
    var i :| 0 <= i < |ps| && ps[i].element == e;
    var p := Placement(key, ps[i].x, ps[i].y);
    assert IsAt(ps[i], p.x, p.y);
    assert ActiveAt(ps, p.x, p.y);
    assert p in wanted && Draws(cache, e, p);
  }

  lemma DrawsOne(cache: map<Key, Info>, attached: set<ElementId>, owner: map<ElementId, Key>, next: ElementId,
                 e: ElementId, p: Placement, q: Placement)
    requires CacheOk(cache, attached, owner, next) && Draws(cache, e, p) && Draws(cache, e, q)
    ensures p == q
  {
    assert EntryOk(p.key, cache[p.key], attached, owner) && EntryOk(q.key, cache[q.key], attached, owner);
  }

  lemma DrawnOnce(cache: map<Key, Info>, attached: set<ElementId>, owner: map<ElementId, Key>, next: ElementId,
                  e: ElementId, f: ElementId, p: Placement)
    requires CacheOk(cache, attached, owner, next) && Draws(cache, e, p) && Draws(cache, f, p)
    ensures e == f
  {
    var ps := cache[p.key].positions;
    assert EntryOk(p.key, cache[p.key], attached, owner);
    var i :| 0 <= i < |ps| && ps[i].element == e && IsAt(ps[i], p.x, p.y);
    var j :| 0 <= j < |ps| && ps[j].element == f && IsAt(ps[j], p.x, p.y);
    assert Apart(ps);
  }
}
