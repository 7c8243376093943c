/** The canvas that owns the text cache of jquery.flot.js: the operations on it, one after another, each with what
    it does to the placements asked for and to the elements on the page. */
module TextCanvas {
  import opened TextCache

  // ---- what each operation does to one entry ----

  lemma EntryMade(cache: map<Key, Info>, key: Key, info: Info, attached: set<ElementId>, owner: map<ElementId, Key>,
                  next: ElementId, wanted: set<Placement>)
    requires CacheOk(cache, attached, owner, next) && Agrees(cache, wanted)
    requires key !in cache && info.element == next && info.positions == []
    ensures CacheOk(cache[key := info], attached, owner[next := key], next + 1)
    ensures Agrees(cache[key := info], wanted)
  {
    var owner' := owner[next := key];
    forall e | e in attached ensures owner'[e] != key {
      assert owner[e] in cache;
    }
    ReplaceEntry(cache, key, info, attached, attached, owner, owner', next, next + 1);
    ReplaceAgrees(cache, key, info, wanted, wanted);
  }

  /** The position at the place is made active, or a new one is added: with the measured element itself if it
      is the first, with a fresh copy if not. */
  predicate Added(info: Info, x: real, y: real, next: ElementId, r: seq<Position>, next': ElementId) {
    var ps := info.positions;
    || (next' == next && exists i :: 0 <= i < |ps| && IsAt(ps[i], x, y) && r == ps[i := ps[i].(active := true)])
    || (&& (forall i :: 0 <= i < |ps| ==> !IsAt(ps[i], x, y))
        && r == ps + [Position(true, false, if ps == [] then info.element else next, x, y)]
        && next' == if ps == [] then next else next + 1)
  }

  method AddPosition(info: Info, x: real, y: real, next: ElementId) returns (r: seq<Position>, next': ElementId)
    ensures Added(info, x, y, next, r, next')
  {
    var found: bool;
    next' := next;
    found, r := Activate(info.positions, x, y);
    if !found {
      var element := info.element;
      if |info.positions| > 0 {
        element, next' := next, next + 1;
      }
      r := r + [Position(true, false, element, x, y)];
    }
  }

  function OwnerAfter(owner: map<ElementId, Key>, key: Key, next: ElementId, next': ElementId): map<ElementId, Key> {
    if next' == next then owner else owner[next := key]
  }

  lemma EntryAdded(key: Key, info: Info, x: real, y: real, next: ElementId, r: seq<Position>, next': ElementId,
                   attached: set<ElementId>, owner: map<ElementId, Key>)
    requires EntryOk(key, info, attached, owner) && Added(info, x, y, next, r, next')
    requires forall e :: e in owner ==> e < next
    requires forall e :: e in attached ==> e in owner
    ensures EntryOk(key, info.(positions := r), attached, OwnerAfter(owner, key, next, next'))
    ensures forall e :: e in OwnerAfter(owner, key, next, next') ==> e < next'
    ensures OnlyFor(key, attached, attached, owner, OwnerAfter(owner, key, next, next'))
  {
    var ps, owner' := info.positions, OwnerAfter(owner, key, next, next');
    if i :| 0 <= i < |ps| && IsAt(ps[i], x, y) && r == ps[i := ps[i].(active := true)] && next' == next {
      EntryActivated(key, info, i, attached, owner);
    } else {
      var p := Position(true, false, if ps == [] then info.element else next, x, y);
      assert EntryOk(key, info, attached, owner');
      assert !HasElement(ps, p.element);
      EntryPushed(key, info, p, attached, owner');
    }
  }

  lemma EntryAddedActive(info: Info, x: real, y: real, next: ElementId, r: seq<Position>, next': ElementId, key: Key,
                         wanted: set<Placement>)
    requires EntryAgrees(key, info.positions, wanted) && Added(info, x, y, next, r, next')
    ensures EntryAgrees(key, r, wanted + {Placement(key, x, y)})
  {
    var ps := info.positions;
    forall a, b ensures ActiveAt(r, a, b) <==> ActiveAt(ps, a, b) || (a == x && b == y) {
      if i :| 0 <= i < |ps| && IsAt(ps[i], x, y) && r == ps[i := ps[i].(active := true)] && next' == next {
        ActivatedActive(ps, i, a, b);
      } else {
        PushedActive(ps, Position(true, false, if ps == [] then info.element else next, x, y), a, b);
      }
    }
  }

  lemma AddedKeeps(cache: map<Key, Info>, key: Key, x: real, y: real, r: seq<Position>, attached: set<ElementId>,
                   owner: map<ElementId, Key>, next: ElementId, next': ElementId, wanted: set<Placement>)
    requires CacheOk(cache, attached, owner, next) && Agrees(cache, wanted)
    requires key in cache && Added(cache[key], x, y, next, r, next')
    ensures CacheOk(cache[key := cache[key].(positions := r)], attached, OwnerAfter(owner, key, next, next'), next')
    ensures Agrees(cache[key := cache[key].(positions := r)], wanted + {Placement(key, x, y)})
  {
    var info := cache[key];
    assert EntryOk(key, info, attached, owner);
    assert EntryAgrees(key, info.positions, wanted);
    EntryAdded(key, info, x, y, next, r, next', attached, owner);
    EntryAddedActive(info, x, y, next, r, next', key, wanted);
    ReplaceEntry(cache, key, info.(positions := r), attached, attached, owner, OwnerAfter(owner, key, next, next'),
                 next, next');
    ReplaceAgrees(cache, key, info.(positions := r), wanted, wanted + {Placement(key, x, y)});
  }

  /** What stays of the placements asked for when one is taken back, or all of its text. */
  function Without(wanted: set<Placement>, key: Key, all: bool, x: real, y: real): set<Placement> {
    set p | p in wanted && !(p.key == key && (all || (p.x == x && p.y == y)))
  }

  lemma RemovedKeeps(cache: map<Key, Info>, key: Key, all: bool, x: real, y: real, r: seq<Position>,
                     attached: set<ElementId>, owner: map<ElementId, Key>, next: ElementId, wanted: set<Placement>)
    requires CacheOk(cache, attached, owner, next) && Agrees(cache, wanted)
    requires key in cache && Deactivated(cache[key].positions, r, all, x, y)
    ensures CacheOk(cache[key := cache[key].(positions := r)], attached, owner, next)
    ensures Agrees(cache[key := cache[key].(positions := r)], Without(wanted, key, all, x, y))
  {
    var info := cache[key];
    assert EntryOk(key, info, attached, owner);
    assert EntryAgrees(key, info.positions, wanted);
    EntryDeactivated(key, info, r, all, x, y, attached, owner);
    forall a, b
      ensures ActiveAt(r, a, b) <==> ActiveAt(info.positions, a, b) && !all && !(a == x && b == y)
    {
      DeactivatedActive(info.positions, r, all, x, y, a, b);
    }
    ReplaceEntry(cache, key, info.(positions := r), attached, attached, owner, owner, next, next);
    ReplaceAgrees(cache, key, info.(positions := r), wanted, Without(wanted, key, all, x, y));
  }

  /** The cache after rendering one entry: an entry left without positions is dropped. */
  function Rendered(cache: map<Key, Info>, key: Key): map<Key, Info>
    requires key in cache
  {
    var r := Kept(cache[key].positions);
    if r == [] then cache - {key} else cache[key := cache[key].(positions := r)]
  }

  lemma RenderedKeeps(cache: map<Key, Info>, key: Key, attached: set<ElementId>, owner: map<ElementId, Key>,
                      next: ElementId, wanted: set<Placement>)
    requires CacheOk(cache, attached, owner, next) && Agrees(cache, wanted) && key in cache
    ensures CacheOk(Rendered(cache, key), AttachedAfter(cache[key].positions, attached), owner, next)
    ensures Agrees(Rendered(cache, key), wanted)
    ensures key in Rendered(cache, key) ==> Settled(Rendered(cache, key)[key].positions)
  {
    var info := cache[key];
    var ps, now := info.positions, AttachedAfter(info.positions, attached);
    var r := Kept(ps);
    var full := cache[key := info.(positions := r)];
    assert EntryOk(key, info, attached, owner);
    assert EntryAgrees(key, ps, wanted);
    EntryRendered(key, info, attached, owner);
    KeptMeaning(ps);
    forall a, b ensures ActiveAt(r, a, b) <==> ActiveAt(ps, a, b) {
      KeptActive(ps, a, b);
    }
    ReplaceEntry(cache, key, info.(positions := r), attached, now, owner, owner, next, next);
    ReplaceAgrees(cache, key, info.(positions := r), wanted, wanted);
    if r == [] {
      DropEntry(full, key, now, owner, next);
      assert full - {key} == cache - {key};
      forall p | p in wanted ensures p.key != key {
        assert p == Placement(p.key, p.x, p.y);
        assert !ActiveAt([], p.x, p.y);
      }
    }
  }

  // ---- the canvas ----

  /** A lookup in the nested plain objects of the cache. It finds an entry of its own, or something inherited in
      place of an entry, or it leaves the cache through an inherited layer or style. */
  datatype Lookup = Own(info: Info) | Inherited | Elsewhere

  /** A call is done, at the given place; or it throws; or whatever it does happens outside the cache. */
  datatype Outcome = Done(x: real, y: real) | TypeError | Astray

  class Canvas {
    /** The names that every plain object has properties under. */
    const inherited: set<nat>
    var cache: map<Key, Info>
    var attached: set<ElementId>
    var next: ElementId
    ghost var owner: map<ElementId, Key>
    /** The placements asked for by the calls so far. */
    ghost var wanted: set<Placement>

    ghost predicate Valid() reads this {
      && CacheOk(cache, attached, owner, next) && Agrees(cache, wanted)
      && forall key :: key in cache ==> IsPlain(key)
    }

    predicate IsStray(key: Key) {
      key.layer in inherited || key.style in inherited
    }

    predicate IsPlain(key: Key) {
      !IsStray(key) && key.text !in inherited
    }

    /** Nothing about the cache, the page or what is asked for has changed. */
    twostate predicate SameCanvas() reads this {
      && cache == old(cache) && attached == old(attached) && next == old(next)
      && owner == old(owner) && wanted == old(wanted)
    }

    constructor (inherited: set<nat>)
      ensures Valid() && wanted == {} && attached == {} && this.inherited == inherited
    {
      this.inherited := inherited;
      cache, attached, next, owner, wanted := map[], {}, 0, map[], {};
    }

    /** Finds the entry of a text, or measures the text and makes one. */
    method GetTextInfo(key: Key, width: real, height: real) returns (found: Lookup)
      requires Valid()
      modifies this
      ensures Valid() && wanted == old(wanted) && attached == old(attached)
      ensures found.Elsewhere? <==> IsStray(key)
      ensures found.Inherited? <==> !IsStray(key) && key.text in inherited
      ensures !found.Own? ==> SameCanvas()
      ensures found.Own? ==> key in cache && found.info == cache[key]
      ensures key in old(cache) ==> SameCanvas()
      ensures
        found.Own? && key !in old(cache) ==>
          && found.info.positions == [] && found.info.width == width && found.info.height == height
          && cache == old(cache)[key := found.info]
    {
      if key.layer in inherited || key.style in inherited {
        return Elsewhere;
      }
      if key.text in inherited {
        return Inherited;
      }
      if key !in cache {
        var info := Info(width, height, next, []);
        EntryMade(cache, key, info, attached, owner, next, wanted);
        cache, owner, next := cache[key := info], owner[next := key], next + 1;
      }
      return Own(cache[key]);
    }

    /** Asks for a text at a place; its extent, as first measured, moves it back as its alignment says. It throws
        exactly for a text that is named like something inherited, which has no positions. */
    method AddText(key: Key, x0: real, y0: real, width: real, height: real, halign: Align, valign: Align)
      returns (o: Outcome)
      requires Valid()
      modifies this
      ensures Valid() && attached == old(attached)
      ensures o.Astray? <==> IsStray(key)
      ensures o.TypeError? <==> !IsStray(key) && key.text in inherited
      ensures !o.Done? ==> SameCanvas()
      ensures
        o.Done? ==>
          var (w, h) := if key in old(cache) then (old(cache)[key].width, old(cache)[key].height) else (width, height);
          && o.x == x0 - Shift(halign, w) && o.y == y0 - Shift(valign, h)
          && wanted == old(wanted) + {Placement(key, o.x, o.y)}
    {
      var found := GetTextInfo(key, width, height);
      match found
      case Elsewhere => return Astray;
      case Inherited => return TypeError;
      case Own(info) =>
        var x, y := x0 - Shift(halign, info.width), y0 - Shift(valign, info.height);
        Place(key, info, x, y);
        return Done(x, y);
    }

    /** Marks or makes the position at a place. */
    method Place(key: Key, info: Info, x: real, y: real)
      requires Valid() && key in cache && info == cache[key]
      modifies this
      ensures Valid() && attached == old(attached) && wanted == old(wanted) + {Placement(key, x, y)}
    {
      var positions, next' := AddPosition(info, x, y, next);
      AddedKeeps(cache, key, x, y, positions, attached, owner, next, next', wanted);
      owner := OwnerAfter(owner, key, next, next');
      wanted := wanted + {Placement(key, x, y)};
      cache, next := cache[key := info.(positions := positions)], next';
    }

    /** Takes back one text at one place; the place is as stored, after alignment. It throws like `AddText`. */
    method RemoveText(key: Key, x: real, y: real, width: real, height: real) returns (o: Outcome)
      requires Valid()
      modifies this
      ensures Valid() && attached == old(attached)
      ensures o.Astray? <==> IsStray(key)
      ensures o.TypeError? <==> !IsStray(key) && key.text in inherited
      ensures !o.Done? ==> SameCanvas()
      ensures o.Done? ==> o == Done(x, y) && wanted == old(wanted) - {Placement(key, x, y)}
    {
      var found := GetTextInfo(key, width, height);
      match found
      case Elsewhere => return Astray;
      case Inherited => return TypeError;
      case Own(info) =>
        var positions := Deactivate(info.positions, false, x, y);
        RemovedKeeps(cache, key, false, x, y, positions, attached, owner, next, wanted);
        assert Without(wanted, key, false, x, y) == wanted - {Placement(key, x, y)};
        wanted := wanted - {Placement(key, x, y)};
        cache := cache[key := info.(positions := positions)];
        return Done(x, y);
    }

    /** Takes back every text of one layer. */
    method RemoveLayer(layer: nat)
      requires Valid()
      modifies this
      ensures Valid() && attached == old(attached) && next == old(next)
      ensures wanted == set p | p in old(wanted) && p.key.layer != layer
    {
      var todo := set key | key in cache && key.layer == layer;
      while todo != {}
        invariant Valid() && attached == old(attached) && next == old(next)
        invariant forall key :: key in todo ==> key in cache && key.layer == layer
        invariant forall p :: p in wanted ==> p in old(wanted) && (p.key.layer == layer ==> p.key in todo)
        invariant forall p :: p in old(wanted) && (p.key.layer == layer ==> p.key in todo) ==> p in wanted
        decreases |todo|
      {
        var key :| key in todo;
        var positions := Deactivate(cache[key].positions, true, 0.0, 0.0);
        RemovedKeeps(cache, key, true, 0.0, 0.0, positions, attached, owner, next, wanted);
        wanted := Without(wanted, key, true, 0.0, 0.0);
        cache := cache[key := cache[key].(positions := positions)];
        todo := todo - {key};
      }
    }

    /** Brings the page up to date: afterwards the attached elements are exactly one for each placement asked
        for, and the cache has an entry exactly for the texts in use. */
    method Render()
      requires Valid()
      modifies this
      ensures Valid() && wanted == old(wanted) && next == old(next)
      ensures PageShows(cache, attached, wanted)
      ensures forall key :: key in cache ==> Settled(cache[key].positions)
    {
      RenderAll();
      PageIsWanted(cache, attached, owner, next, wanted);
    }

    /** The loop over the entries. */
    method RenderAll()
      requires Valid()
      modifies this`cache, this`attached
      ensures Valid() && AllSettled({})
    {
      var todo := cache.Keys;
      while todo != {}
        invariant Valid() && todo <= cache.Keys && AllSettled(todo)
        decreases |todo|
      {
        var key :| key in todo;
        RenderNext(key, todo);
        todo := todo - {key};
      }
    }

    /** Every entry but those still to do is settled. */
    ghost predicate AllSettled(todo: set<Key>) reads this {
      forall key :: key in cache && key !in todo ==> Settled(cache[key].positions)
    }

    method RenderNext(key: Key, ghost todo: set<Key>)
      requires Valid() && key in todo && todo <= cache.Keys && AllSettled(todo)
      modifies this`cache, this`attached
      ensures Valid() && todo - {key} <= cache.Keys && AllSettled(todo - {key})
    {
      RenderedKeeps(cache, key, attached, owner, next, wanted);
      RenderEntry(key);
    }

    method RenderEntry(key: Key)
      requires key in cache
      modifies this`cache, this`attached
      ensures cache == Rendered(old(cache), key)
      ensures attached == AttachedAfter(old(cache)[key].positions, old(attached))
    {
      var positions;
      positions, attached := RenderPositions(cache[key].positions, attached);
      if |positions| == 0 {
        cache := cache - {key};
      } else {
        cache := cache[key := cache[key].(positions := positions)];
      }
    }
  }

  /** Where a text asked for at a place is put, with its extent as first measured. */
  ghost function PlacedAt(cache: map<Key, Info>, key: Key, x: real, y: real, width: real, height: real, halign: Align,
                          valign: Align): Placement {
    var (w, h) := if key in cache then (cache[key].width, cache[key].height) else (width, height);
    Placement(key, x - Shift(halign, w), y - Shift(valign, h))
  }

  /** Adding a text and removing it with the same arguments: what was asked for before is asked for again exactly if
      nothing was at the given place, and the text is put there or was already asked for where it is put. */
  method AddThenRemove(canvas: Canvas, key: Key, x: real, y: real, width: real, height: real, halign: Align,
                       valign: Align)
    requires canvas.Valid() && canvas.IsPlain(key)
    modifies canvas
    ensures canvas.Valid()
    ensures
      var given, placed := Placement(key, x, y), PlacedAt(old(canvas.cache), key, x, y, width, height, halign, valign);
      && canvas.wanted == old(canvas.wanted) + {placed} - {given}
      && (canvas.wanted == old(canvas.wanted)
          <==> given !in old(canvas.wanted) && (placed == given || placed in old(canvas.wanted)))
  {
    ghost var before := canvas.wanted;
    ghost var given, placed := Placement(key, x, y), PlacedAt(canvas.cache, key, x, y, width, height, halign, valign);
    var added := canvas.AddText(key, x, y, width, height, halign, valign);
    assert canvas.wanted == before + {placed};
    var removed := canvas.RemoveText(key, x, y, width, height);
    assert canvas.wanted == before + {placed} - {given};
    UndoneIf(before, placed, given);
  }

  lemma UndoneIf(before: set<Placement>, placed: Placement, given: Placement)
    ensures before + {placed} - {given} == before <==> given !in before && (placed == given || placed in before)
  {
    assert placed in before + {placed} && given !in before + {placed} - {given};
    assert placed != given ==> placed in before + {placed} - {given};
  }
}
