/** Write requests, an abstract server, and what executing requests one at a time means. */
module WriteModel {
  import opened Options

  datatype WriteType = INSERT | REMOVE | UPDATE | REPLACE

  /** A write request; the document is opaque. */
  datatype Request = Request(kind: WriteType, doc: int)

  /** What the server makes of one request: it is applied (perhaps short of the write concern), counts `n` documents and
      may have inserted one instead, whose id it names; or it fails. */
  datatype Outcome =
    | Applied(n: nat, upserted: Option<int>)
    | ConcernError(n: nat, upserted: Option<int>)
    | WriteError(code: int)

  datatype Server<!S> = Server(apply: (S, Request) -> (S, Outcome))

  datatype Error = Error(index: nat, code: int)

  datatype Upsert = Upsert(index: nat, id: int)

  /** The accumulated result of a bulk write. */
  datatype Report = Report(count: nat, upserts: seq<Upsert>, errors: seq<Error>)

  const EMPTY_REPORT := Report(0, [], [])

  /** What one request adds to the result, under an index. */
  function ReportOf(outcome: Outcome, index: nat): (r: Report)
    ensures r.errors == [] <==> !outcome.WriteError?
  {
    if outcome.WriteError? then Report(0, [], [Error(index, outcome.code)])
    else
      match outcome.upserted
      case None => Report(outcome.n, [], [])
      case Some(id) => Report(outcome.n, [Upsert(index, id)], [])
  }

  datatype Executed<S> = Executed(state: S, report: Report)

  /** A request with the index under which its failure is to be reported. */
  datatype Item = Item(request: Request, index: nat)

  function Join(a: Report, b: Report): Report {
    Report(a.count + b.count, a.upserts + b.upserts, a.errors + b.errors)
  }

  /** The combiner's rule: stop iff the bulk write is ordered and a write error was seen. */
  predicate ShouldStop(ordered: bool, r: Report) {
    ordered && r.errors != []
  }

  /** The items executed one at a time; an ordered bulk write stops at the first failure. */
  function OneByOne<S>(server: Server<S>, s: S, items: seq<Item>, ordered: bool): Executed<S> {
    if items == [] then Executed(s, EMPTY_REPORT)
    else
      var (s', outcome) := server.apply(s, items[0].request);
      var first := ReportOf(outcome, items[0].index);
      if ordered && outcome.WriteError? then Executed(s', first)
      else
        var rest := OneByOne(server, s', items[1..], ordered);
        Executed(rest.state, Join(first, rest.report))
  }

  /** The requests from index `start` on, as items under their own indexes. */
  function Numbered(requests: seq<Request>, start: nat): (items: seq<Item>)
    ensures |items| == |requests|
  {
    seq(|requests|, k requires 0 <= k < |requests| => Item(requests[k], start + k))
  }

  lemma JoinAssociative(a: Report, b: Report, c: Report)
    ensures Join(Join(a, b), c) == Join(a, Join(b, c))
  {
  }

  /** Executing a list in two parts: the second part runs from where the first ended, unless it stopped. */
  lemma {:induction false} OneByOneConcat<S>(server: Server<S>, s: S, a: seq<Item>, b: seq<Item>, ordered: bool)
    ensures
      var first := OneByOne(server, s, a, ordered);
      var all := OneByOne(server, s, a + b, ordered);
      if ShouldStop(ordered, first.report) then all == first
      else
        var second := OneByOne(server, first.state, b, ordered);
        all == Executed(second.state, Join(first.report, second.report))
  {
    if a == [] {
      assert a + b == b;
    } else {
      assert (a + b)[1..] == a[1..] + b;
      var (s', outcome) := server.apply(s, a[0].request);
      OneByOneConcat(server, s', a[1..], b, ordered);
      var first := OneByOne(server, s', a[1..], ordered);
      var head := ReportOf(outcome, a[0].index);
      JoinAssociative(head, first.report, OneByOne(server, first.state, b, ordered).report);
    }
  }

  // ---- what OneByOne means ----

  /** The state after the first k items. */
  function After<S>(server: Server<S>, s: S, items: seq<Item>, k: nat): S
    requires k <= |items|
  {
    if k == 0 then s else server.apply(After(server, s, items, k - 1), items[k - 1].request).0
  }

  /** Item k fails when its predecessors have been executed. */
  predicate FailsAt<S>(server: Server<S>, s: S, items: seq<Item>, k: nat)
    requires k < |items|
  {
    server.apply(After(server, s, items, k), items[k].request).1.WriteError?
  }

  lemma {:induction false} AfterTail<S>(server: Server<S>, s: S, items: seq<Item>, k: nat)
    requires 0 < |items| && k < |items|
    ensures After(server, s, items, k + 1) == After(server, server.apply(s, items[0].request).0, items[1..], k)
  {
    if k > 0 { AfterTail(server, s, items, k - 1); }
  }

  /** Ordered: the report has at most one error. It is that of the first item that fails, under that
      item's index, and nothing after it is executed; without one, everything is. */
  lemma {:induction false} OrderedStopsAtFirstFailure<S>(server: Server<S>, s: S, items: seq<Item>)
    ensures
      var x := OneByOne(server, s, items, true);
      && (x.report.errors == [] ==>
            && x.state == After(server, s, items, |items|)
            && forall k :: 0 <= k < |items| ==> !FailsAt(server, s, items, k))
      && (x.report.errors != [] ==>
            exists k :: 0 <= k < |items| && FirstFailure(server, s, items, k)
                        && |x.report.errors| == 1 && x.report.errors[0].index == items[k].index
                        && x.state == After(server, s, items, k + 1))
  {
    var x := OneByOne(server, s, items, true);
    if items != [] {
      if FailsAt(server, s, items, 0) {
        assert FirstFailure(server, s, items, 0);
        AfterTail(server, s, items, 0);
      } else {
        var s' := server.apply(s, items[0].request).0;
        var rest := items[1..];
        OrderedStopsAtFirstFailure(server, s', rest);
        forall k | 0 <= k < |rest|
          ensures FailsAt(server, s', rest, k) == FailsAt(server, s, items, k + 1)
          ensures After(server, s', rest, k + 1) == After(server, s, items, k + 2)
        {
          AfterTail(server, s, items, k);
          AfterTail(server, s, items, k + 1);
        }
        AfterTail(server, s, items, |items| - 1);
        if x.report.errors != [] {
          var k :| 0 <= k < |rest| && FirstFailure(server, s', rest, k) && x.report.errors[0].index == rest[k].index
                   && x.state == After(server, s', rest, k + 1);
          forall m | 0 <= m < k + 1 ensures !FailsAt(server, s, items, m) {
            if m > 0 { assert !FailsAt(server, s', rest, m - 1); }
          }
          assert FirstFailure(server, s, items, k + 1);
        } else {
          forall m | 0 <= m < |items| ensures !FailsAt(server, s, items, m) {
            if m > 0 { assert !FailsAt(server, s', rest, m - 1); }
          }
        }
      }
    }
  }

  ghost predicate FirstFailure<S>(server: Server<S>, s: S, items: seq<Item>, k: nat)
    requires k < |items|
  {
    FailsAt(server, s, items, k) && forall m :: 0 <= m < k ==> !FailsAt(server, s, items, m)
  }

  ghost predicate Reports(r: Report, i: nat) {
    exists e :: e in r.errors && e.index == i
  }

  /** An item with index i fails. */
  ghost predicate Failing<S>(server: Server<S>, s: S, items: seq<Item>, i: nat) {
    exists k :: 0 <= k < |items| && FailsAt(server, s, items, k) && items[k].index == i
  }

  /** Unordered: everything is executed, and exactly the items that fail are reported. */
  lemma {:induction false} UnorderedExecutesAll<S>(server: Server<S>, s: S, items: seq<Item>, i: nat)
    ensures
      var x := OneByOne(server, s, items, false);
      x.state == After(server, s, items, |items|) && (Reports(x.report, i) <==> Failing(server, s, items, i))
  {
    if items != [] {
      var s' := server.apply(s, items[0].request).0;
      UnorderedExecutesAll(server, s', items[1..], i);
      AfterTail(server, s, items, |items| - 1);
      FailingStep(server, s, items, i);
      ReportsStep(server, s, items, i);
    }
  }

  lemma ReportsStep<S>(server: Server<S>, s: S, items: seq<Item>, i: nat)
    requires items != []
    ensures
      var s' := server.apply(s, items[0].request).0;
      Reports(OneByOne(server, s, items, false).report, i) <==>
      || (FailsAt(server, s, items, 0) && items[0].index == i)
      || Reports(OneByOne(server, s', items[1..], false).report, i)
  {
    var (s', outcome) := server.apply(s, items[0].request);
    var x, y := OneByOne(server, s, items, false).report, OneByOne(server, s', items[1..], false).report;
    var head: seq<Error> := if outcome.WriteError? then [Error(items[0].index, outcome.code)] else [];
    assert x.errors == head + y.errors;
    assert outcome.WriteError? ==> head[0] in x.errors;
  }

  lemma FailingStep<S>(server: Server<S>, s: S, items: seq<Item>, i: nat)
    requires items != []
    ensures
      var s' := server.apply(s, items[0].request).0;
      Failing(server, s, items, i) <==>
      (FailsAt(server, s, items, 0) && items[0].index == i) || Failing(server, s', items[1..], i)
  {
    var s', rest := server.apply(s, items[0].request).0, items[1..];
    forall k | 0 <= k < |rest|
      ensures FailsAt(server, s', rest, k) == FailsAt(server, s, items, k + 1) && rest[k] == items[k + 1]
    {
      AfterTail(server, s, items, k);
    }
    if k :| 0 < k < |items| && FailsAt(server, s, items, k) && items[k].index == i {
      assert FailsAt(server, s', rest, k - 1) && rest[k - 1].index == i;
    }
    if k :| 0 <= k < |rest| && FailsAt(server, s', rest, k) && rest[k].index == i {
      assert FailsAt(server, s, items, k + 1) && items[k + 1].index == i;
    }
  }

  // ---- index maps ----

  /** The map of `IndexMap.create(start, count)`. */
  function RangeMap(start: nat, count: nat): (m: map<nat, nat>)
    ensures forall k: nat :: k in m <==> k < count
    ensures forall k: nat :: k < count ==> m[k] == start + k
  {
    if count == 0 then map[] else RangeMap(start, count - 1)[count - 1 := start + count - 1]
  }

  /** Every error and every upsert of the report has an index the map knows. */
  predicate Mapped(r: Report, m: map<nat, nat>) {
    && (forall k :: 0 <= k < |r.errors| ==> r.errors[k].index in m)
    && (forall k :: 0 <= k < |r.upserts| ==> r.upserts[k].index in m)
  }

  function Remap(r: Report, m: map<nat, nat>): Report
    requires Mapped(r, m)
  {
    Report(r.count,
           seq(|r.upserts|, k requires 0 <= k < |r.upserts| => Upsert(m[r.upserts[k].index], r.upserts[k].id)),
           seq(|r.errors|, k requires 0 <= k < |r.errors| => Error(m[r.errors[k].index], r.errors[k].code)))
  }

  /** `b` is `a` with its indexes pushed through `m`. */
  predicate Renames(a: seq<Item>, b: seq<Item>, m: map<nat, nat>) {
    && |a| == |b|
    && forall k :: 0 <= k < |a| ==> a[k].index in m && b[k] == Item(a[k].request, m[a[k].index])
  }

  lemma RemapJoin(a: Report, b: Report, m: map<nat, nat>)
    requires Mapped(a, m) && Mapped(b, m)
    ensures Mapped(Join(a, b), m) && Remap(Join(a, b), m) == Join(Remap(a, m), Remap(b, m))
  {
  }

  lemma RemapOne(outcome: Outcome, index: nat, m: map<nat, nat>)
    requires index in m
    ensures Mapped(ReportOf(outcome, index), m) && Remap(ReportOf(outcome, index), m) == ReportOf(outcome, m[index])
  {
  }

  /** Renaming the items before execution and mapping the errors after it come to the same. */
  lemma {:induction false} RemapExecution<S>(server: Server<S>, s: S, a: seq<Item>, b: seq<Item>, m: map<nat, nat>,
                                             ordered: bool)
    requires Renames(a, b, m)
    ensures
      var x, y := OneByOne(server, s, a, ordered), OneByOne(server, s, b, ordered);
      Mapped(x.report, m) && y == Executed(x.state, Remap(x.report, m))
  {
    if a != [] {
      var (s', outcome) := server.apply(s, a[0].request);
      RemapExecution(server, s', a[1..], b[1..], m, ordered);
      var head := ReportOf(outcome, a[0].index);
      RemapOne(outcome, a[0].index, m);
      RemapJoin(head, OneByOne(server, s', a[1..], ordered).report, m);
    }
  }

  /** The combiner takes a part's result in, its errors and upserts mapped. */
  function Combine(r: Report, part: Report, m: map<nat, nat>): Report
    requires Mapped(part, m)
  {
    Join(r, Remap(part, m))
  }
}
