/** What a bulk write's report says of the answers. */
module BulkReport {
  import opened Options
  import opened WriteModel

  /** The answer to item k when its predecessors have been executed. */
  function Answer<S>(server: Server<S>, s: S, items: seq<Item>, k: nat): Outcome
    requires k < |items|
  {
    server.apply(After(server, s, items, k), items[k].request).1
  }

  /** The documents counted for the first m items: what was answered for those that did not fail. */
  function Counted<S>(server: Server<S>, s: S, items: seq<Item>, m: nat): nat
    requires m <= |items|
  {
    if m == 0 then 0
    else
      var a := Answer(server, s, items, m - 1);
      Counted(server, s, items, m - 1) + (if a.WriteError? then 0 else a.n)
  }

  /** The ids answered for the first m items, each under its item's index. */
  function Upserted<S>(server: Server<S>, s: S, items: seq<Item>, m: nat): seq<Upsert>
    requires m <= |items|
  {
    if m == 0 then []
    else
      var a := Answer(server, s, items, m - 1);
      Upserted(server, s, items, m - 1) +
      (if !a.WriteError? && a.upserted.Some? then [Upsert(items[m - 1].index, a.upserted.value)] else [])
  }

  /** The codes answered for those of the first m items that failed, each under its item's index. */
  function Failed<S>(server: Server<S>, s: S, items: seq<Item>, m: nat): seq<Error>
    requires m <= |items|
  {
    if m == 0 then []
    else
      var a := Answer(server, s, items, m - 1);
      Failed(server, s, items, m - 1) + (if a.WriteError? then [Error(items[m - 1].index, a.code)] else [])
  }

  /** The execution of the first m items, and of nothing else. */
  ghost predicate Tells<S>(server: Server<S>, s: S, items: seq<Item>, m: nat, x: Executed<S>)
    requires m <= |items|
  {
    && x.state == After(server, s, items, m) && x.report.count == Counted(server, s, items, m)
    && x.report.upserts == Upserted(server, s, items, m) && x.report.errors == Failed(server, s, items, m)
  }

  // ---- one item after another ----

  lemma OneItem<S>(server: Server<S>, s: S, item: Item, ordered: bool)
    ensures
      var (s', a) := server.apply(s, item.request);
      var x := OneByOne(server, s, [item], ordered);
      && x.state == s'
      && x.report.count == (if a.WriteError? then 0 else a.n)
      && x.report.upserts ==
         (if !a.WriteError? && a.upserted.Some? then [Upsert(item.index, a.upserted.value)] else [])
      && x.report.errors == (if a.WriteError? then [Error(item.index, a.code)] else [])
  {
    var items := [item];
    var (s', _) := server.apply(s, item.request);
    assert items[1..] == [] && OneByOne(server, s', items[1..], ordered) == Executed(s', EMPTY_REPORT);
  }

  /** What an item adds to an execution that has not stopped. */
  lemma TellsOneMore<S>(server: Server<S>, s: S, items: seq<Item>, m: nat, ordered: bool)
    requires m < |items| && Tells(server, s, items, m, OneByOne(server, s, items[..m], ordered))
    requires !ShouldStop(ordered, OneByOne(server, s, items[..m], ordered).report)
    ensures Tells(server, s, items, m + 1, OneByOne(server, s, items[..m + 1], ordered))
  {
    var first := OneByOne(server, s, items[..m], ordered);
    assert items[..m + 1] == items[..m] + [items[m]];
    OneByOneConcat(server, s, items[..m], [items[m]], ordered);
    OneItem(server, first.state, items[m], ordered);
  }

  /** Main result for an unordered bulk write: it executes everything; the count is the sum of what was answered, and
      ids and codes are reported as answered, in order, each under its index. */
  lemma {:induction false} UnorderedReport<S>(server: Server<S>, s: S, items: seq<Item>, m: nat)
    requires m <= |items|
    ensures Tells(server, s, items, m, OneByOne(server, s, items[..m], false))
    ensures m == |items| ==> Tells(server, s, items, m, OneByOne(server, s, items, false))
  {
    if m > 0 {
      UnorderedReport(server, s, items, m - 1);
      TellsOneMore(server, s, items, m - 1, false);
    }
    if m == |items| { assert items[..m] == items; }
  }

  /** No item before m fails. */
  ghost predicate SoundTo<S>(server: Server<S>, s: S, items: seq<Item>, m: nat)
    requires m <= |items|
  {
    forall k :: 0 <= k < m ==> !FailsAt(server, s, items, k)
  }

  lemma {:induction false} NoFailures<S>(server: Server<S>, s: S, items: seq<Item>, m: nat)
    requires m <= |items| && SoundTo(server, s, items, m)
    ensures Failed(server, s, items, m) == []
  {
    if m > 0 {
      NoFailures(server, s, items, m - 1);
      assert !FailsAt(server, s, items, m - 1);
    }
  }

  lemma {:induction false} OrderedTo<S>(server: Server<S>, s: S, items: seq<Item>, m: nat)
    requires m <= |items| && (m > 0 ==> SoundTo(server, s, items, m - 1))
    ensures Tells(server, s, items, m, OneByOne(server, s, items[..m], true))
  {
    if m > 0 {
      OrderedTo(server, s, items, m - 1);
      NoFailures(server, s, items, m - 1);
      TellsOneMore(server, s, items, m - 1, true);
    }
  }

  /** Main result for an ordered bulk write: it executes the items up to and including the first that fails, all of them
      if none does, and reports just what the server answered to these. */
  lemma OrderedReport<S>(server: Server<S>, s: S, items: seq<Item>) returns (m: nat)
    ensures m <= |items| && Tells(server, s, items, m, OneByOne(server, s, items, true))
    ensures if m > 0 && FailsAt(server, s, items, m - 1) then SoundTo(server, s, items, m - 1)
            else m == |items| && SoundTo(server, s, items, m)
  {
    m := 0;
    while m < |items| && !FailsAt(server, s, items, m)
      invariant m <= |items| && SoundTo(server, s, items, m)
    {
      m := m + 1;
    }
    if m < |items| { m := m + 1; }
    OrderedTo(server, s, items, m);
    assert items == items[..m] + items[m..];
    OneByOneConcat(server, s, items[..m], items[m..], true);
    if m == |items| {
      assert items[..m] == items;
    } else {
      assert Failed(server, s, items, m) != [];
    }
  }

  /** An instance: one request whose answer names an id is reported as an upsert. */
  lemma UpsertInstance<S>(server: Server<S>, s: S, item: Item, id: int)
    requires server.apply(s, item.request).1 == Applied(1, Some(id))
    ensures OneByOne(server, s, [item], true).report == Report(1, [Upsert(item.index, id)], [])
  {
    OneItem(server, s, item, true);
  }
}
