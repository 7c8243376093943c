/** `executeBulkWriteOperation` and the two protocols a run is executed with. */
module BulkWrite {
  import opened WriteModel
  import opened Runs
  import opened UnorderedRuns

  /** How many requests the encoder takes into one message: a nonempty prefix. */
  datatype Encoder = Encoder(take: seq<Request> -> nat) {
    ghost predicate Valid() {
      forall l: seq<Request> :: l != [] ==> 1 <= take(l) <= |l|
    }
  }

  /** The rest of a bulk write, run after what `report` accounts for. */
  function Then<S>(report: Report, rest: Executed<S>): Executed<S> {
    Executed(rest.state, Join(report, rest.report))
  }

  lemma ThenJoin<S>(a: Report, b: Report, rest: Executed<S>)
    ensures Then(Join(a, b), rest) == Then(a, Then(b, rest))
  {
  }

  /** A part executed under local indexes and combined through its index map, before the items that follow. */
  lemma CombinePart<S>(server: Server<S>, s: S, report: Report, local: seq<Item>, part: seq<Item>, rest: seq<Item>,
                       m: map<nat, nat>, ordered: bool)
    requires Renames(local, part, m) && !ShouldStop(ordered, report)
    ensures
      var x := OneByOne(server, s, local, ordered);
      && Mapped(x.report, m)
      && var combined := Combine(report, x.report, m);
      && var all := Then(report, OneByOne(server, s, part + rest, ordered));
      && (ShouldStop(ordered, combined) ==> all == Executed(x.state, combined))
      && (!ShouldStop(ordered, combined) ==>
            all == Then(combined, OneByOne(server, x.state, rest, ordered)))
  {
    var x := OneByOne(server, s, local, ordered);
    RemapExecution(server, s, local, part, m, ordered);
    OneByOneConcat(server, s, part, rest, ordered);
    ThenJoin(report, Remap(x.report, m), OneByOne(server, x.state, rest, ordered));
  }

  lemma NothingLeft<S>(server: Server<S>, s: S, report: Report, ordered: bool)
    ensures Then(report, OneByOne(server, s, [], ordered)) == Executed(s, report)
  {
  }

  // ---- the write-command protocol ----

  lemma RangeRenames(requests: seq<Request>, start: nat)
    ensures Renames(Numbered(requests, 0), Numbered(requests, start), RangeMap(start, |requests|))
  {
  }

  lemma NumberedSplit(requests: seq<Request>, start: nat, k: nat)
    requires k <= |requests|
    ensures Numbered(requests, start) == Numbered(requests[..k], start) + Numbered(requests[k..], start + k)
  {
  }

  /** `writeWithCommandProtocol`: the requests go out in messages, and the server reports on each under
      the message's own indexes. All of it amounts to executing the requests one at a time. */
  method WriteWithCommandProtocol<S>(server: Server<S>, s0: S, requests: seq<Request>, encoder: Encoder, ordered: bool)
    returns (s: S, report: Report)
    requires requests != [] && encoder.Valid()
    ensures Executed(s, report) == OneByOne(server, s0, Numbered(requests, 0), ordered)
  {
    s, report := s0, EMPTY_REPORT;
    var curMessage := requests;
    var currentRangeStartIndex := 0;
    ghost var whole := OneByOne(server, s0, Numbered(requests, 0), ordered);
    AllRemains(server, s, requests, ordered);
    while true
      invariant curMessage != [] && !ShouldStop(ordered, report)
      invariant Remains(whole, server, s, report, curMessage, currentRangeStartIndex, ordered)
      decreases |curMessage|
    {
      var itemCount, nextMessage;
      s, report, itemCount, nextMessage :=
        SendMessage(server, s, report, curMessage, currentRangeStartIndex, encoder, ordered, whole);
      currentRangeStartIndex := currentRangeStartIndex + itemCount;
      curMessage := nextMessage;
      if curMessage == [] || ShouldStop(ordered, report) {
        break;
      }
    }
  }

  /** The whole bulk write is what is reported plus the requests that are left, executed one at a time, or just what
      is reported when it stops. */
  ghost predicate Remains<S>(whole: Executed<S>, server: Server<S>, s: S, report: Report, left: seq<Request>,
                             start: nat, ordered: bool)
  {
    if left == [] || ShouldStop(ordered, report) then whole == Executed(s, report)
    else whole == Then(report, OneByOne(server, s, Numbered(left, start), ordered))
  }

  lemma AllRemains<S>(server: Server<S>, s: S, requests: seq<Request>, ordered: bool)
    requires requests != []
    ensures Remains(OneByOne(server, s, Numbered(requests, 0), ordered), server, s, EMPTY_REPORT, requests, 0, ordered)
  {
    ThenNothing(OneByOne(server, s, Numbered(requests, 0), ordered));
  }

  lemma ThenNothing<S>(x: Executed<S>)
    ensures Then(EMPTY_REPORT, x) == x
  {
    assert Join(EMPTY_REPORT, x.report) == x.report;
  }

  /** One message of the protocol: its requests are executed, and what they report is taken over under their
      original indexes. */
  method SendMessage<S>(server: Server<S>, s0: S, report0: Report, curMessage: seq<Request>, start: nat,
                        encoder: Encoder, ordered: bool, ghost whole: Executed<S>)
    returns (s: S, report: Report, itemCount: nat, nextMessage: seq<Request>)
    requires curMessage != [] && encoder.Valid() && !ShouldStop(ordered, report0)
    requires Remains(whole, server, s0, report0, curMessage, start, ordered)
    ensures 1 <= itemCount <= |curMessage| && nextMessage == curMessage[itemCount..]
    ensures Remains(whole, server, s, report, nextMessage, start + itemCount, ordered)
  {
    itemCount := encoder.take(curMessage);
    var sent := curMessage[..itemCount];
    var indexMap := RangeMap(start, itemCount);
    var commandResult := OneByOne(server, s0, Numbered(sent, 0), ordered);
    RangeRenames(sent, start);
    NumberedSplit(curMessage, start, itemCount);
    CombinePart(server, s0, report0, Numbered(sent, 0), Numbered(sent, start),
                Numbered(curMessage[itemCount..], start + itemCount), indexMap, ordered);
    report := Combine(report0, commandResult.report, indexMap);
    s := commandResult.state;
    nextMessage := curMessage[itemCount..];
    if nextMessage == [] { NothingLeft(server, s, report, ordered); }
  }

  // ---- the legacy write protocol ----

  /** `executeWriteProtocol`: one request at a time, each with its own one-element index map. */
  method ExecuteWriteProtocol<S>(server: Server<S>, s0: S, requests: seq<Request>, ordered: bool)
    returns (s: S, report: Report)
    ensures Executed(s, report) == OneByOne(server, s0, Numbered(requests, 0), ordered)
  {
    s, report := s0, EMPTY_REPORT;
    ghost var all := Numbered(requests, 0);
    assert all[0..] == all;
    var i := 0;
    while i < |requests|
      invariant 0 <= i <= |requests| && !ShouldStop(ordered, report)
      invariant OneByOne(server, s0, all, ordered) == Then(report, OneByOne(server, s, all[i..], ordered))
    {
      var indexMap: map<nat, nat> := RangeMap(i, 1);
      ghost var local := [Item(requests[i], 0)];
      assert all[i..] == [all[i]] + all[i + 1..];
      CombinePart(server, s, report, local, [all[i]], all[i + 1..], indexMap, ordered);
      OneRequest(server, s, requests[i], ordered);
      var (s', outcome) := server.apply(s, requests[i]);
      s := s';
      report := Combine(report, ReportOf(outcome, 0), indexMap);
      if !outcome.Applied? && ShouldStop(ordered, report) {
        break;
      }
      i := i + 1;
    }
    if !ShouldStop(ordered, report) { NothingLeft(server, s, report, ordered); }
  }

  lemma OneRequest<S>(server: Server<S>, s: S, request: Request, ordered: bool)
    ensures
      var (s', outcome) := server.apply(s, request);
      OneByOne(server, s, [Item(request, 0)], ordered) ==
      Executed(s', ReportOf(outcome, 0))
  {
    var items := [Item(request, 0)];
    assert items[1..] == [];
  }

  /** `execute`: a run goes through whichever protocol the server speaks. */
  method ExecuteRun<S>(run: Run, server: Server<S>, s0: S, encoder: Encoder, useWriteCommands: bool, ordered: bool)
    returns (s: S, report: Report)
    requires run.writeRequests != [] && encoder.Valid()
    ensures Executed(s, report) == OneByOne(server, s0, Numbered(run.writeRequests, 0), ordered)
  {
    if useWriteCommands {
      s, report := WriteWithCommandProtocol(server, s0, run.writeRequests, encoder, ordered);
    } else {
      s, report := ExecuteWriteProtocol(server, s0, run.writeRequests, ordered);
    }
  }

  // ---- the whole bulk write ----

  datatype BulkResult<S> = NoOperations | Done(state: S, report: Report)

  /** The requests at some indexes, as items under their original indexes. */
  ghost function ItemsAt(requests: seq<Request>, order: seq<nat>): seq<Item>
    requires forall k :: 0 <= k < |order| ==> order[k] < |requests|
  {
    seq(|order|, k requires 0 <= k < |order| => Item(requests[order[k]], order[k]))
  }

  lemma RunRenames(run: RunView, requests: seq<Request>)
    requires Holds(run, requests)
    ensures forall k :: 0 <= k < |run.Indexes()| ==> run.Indexes()[k] < |requests|
    ensures Renames(Numbered(run.requests, 0), ItemsAt(requests, run.Indexes()), run.indexMap)
  {
  }

  /** The next ordered run, taken and executed. */
  method ExecuteNextOrdered<S>(runs: OrderedRunIterator, server: Server<S>, s0: S, encoder: Encoder,
                               useWriteCommands: bool)
    returns (s: S, result: Report, indexMap: map<nat, nat>)
    requires runs.Valid() && runs.curIndex < |runs.writeRequests| && encoder.Valid()
    modifies runs
    ensures runs.Valid() && old(runs.curIndex) < runs.curIndex
    ensures
      var part := runs.writeRequests[old(runs.curIndex)..runs.curIndex];
      && Executed(s, result) == OneByOne(server, s0, Numbered(part, 0), true)
      && Renames(Numbered(part, 0), Numbered(part, old(runs.curIndex)), indexMap)
  {
    var run := runs.Next();
    s, result := ExecuteRun(run, server, s0, encoder, useWriteCommands, true);
    indexMap := run.indexMap;
  }

  /** A run of an ordered bulk write in front of the requests that follow it. */
  lemma OrderedPart<S>(server: Server<S>, s: S, report: Report, requests: seq<Request>, a: nat, b: nat,
                       m: map<nat, nat>)
    requires a <= b <= |requests| && !ShouldStop(true, report)
    requires Renames(Numbered(requests[a..b], 0), Numbered(requests[a..b], a), m)
    ensures
      var x := OneByOne(server, s, Numbered(requests[a..b], 0), true);
      && Mapped(x.report, m)
      && var combined := Combine(report, x.report, m);
      && var all := Then(report, OneByOne(server, s, Numbered(requests[a..], a), true));
      && (ShouldStop(true, combined) ==> all == Executed(x.state, combined))
      && (!ShouldStop(true, combined) ==>
            all == Then(combined, OneByOne(server, x.state, Numbered(requests[b..], b), true)))
  {
    assert requests[a..][..b - a] == requests[a..b] && requests[a..][b - a..] == requests[b..];
    NumberedSplit(requests[a..], a, b - a);
    CombinePart(server, s, report, Numbered(requests[a..b], 0), Numbered(requests[a..b], a),
                Numbered(requests[b..], b), m, true);
  }

  /** An ordered bulk write is the requests executed one at a time up to the first failure, which is
      reported under its original index, however runs and messages are cut and whichever protocol is used. */
  method ExecuteOrdered<S>(writeRequests: seq<Request>, server: Server<S>, s0: S, encoder: Encoder,
                           maxBatchWriteSize: nat, useWriteCommands: bool)
    returns (r: BulkResult<S>, ghost cut: seq<nat>)
    requires maxBatchWriteSize >= 1 && encoder.Valid()
    ensures writeRequests == [] ==> r == NoOperations
    ensures writeRequests != [] ==>
              var all := OneByOne(server, s0, Numbered(writeRequests, 0), true);
              r == Done(all.state, all.report)
    ensures IsGreedyCut(cut, writeRequests, maxBatchWriteSize)
    ensures r.Done? && r.report.errors == [] ==> Complete(cut, writeRequests)
  {
    if writeRequests == [] {
      return NoOperations, [0];
    }
    var runs := new OrderedRunIterator(writeRequests, maxBatchWriteSize);
    var s, report := s0, EMPTY_REPORT;
    assert writeRequests[0..] == writeRequests;
    var more := true;
    while more
      invariant runs.Valid() && fresh(runs)
      invariant runs.writeRequests == writeRequests && runs.maxBatchWriteSize == maxBatchWriteSize
      invariant !ShouldStop(true, report)
      invariant OneByOne(server, s0, Numbered(writeRequests, 0), true) ==
                Then(report, OneByOne(server, s, Numbered(writeRequests[runs.curIndex..], runs.curIndex), true))
      invariant more <==> runs.curIndex < |writeRequests|
      decreases |writeRequests| - runs.curIndex
    {
      ghost var a := runs.curIndex;
      var s', result, indexMap := ExecuteNextOrdered(runs, server, s, encoder, useWriteCommands);
      OrderedPart(server, s, report, writeRequests, a, runs.curIndex, indexMap);
      report := Combine(report, result, indexMap);
      s := s';
      if ShouldStop(true, report) {
        return Done(s, report), runs.cut;
      }
      more := runs.HasNext();
    }
    NothingLeft(server, s, report, true);
    return Done(s, report), runs.cut;
  }

  /** The next unordered run, taken, executed and combined into the result. */
  method ExecuteNextUnordered<S>(runs: UnorderedRunIterator, server: Server<S>, ghost s0: S, s: S, report: Report,
                                 encoder: Encoder, useWriteCommands: bool)
    returns (s': S, report': Report)
    requires runs.Valid() && (runs.curIndex < |runs.writeRequests| || runs.runs.Keys != {}) && encoder.Valid()
    requires Accounted(server, s0, runs.writeRequests, runs.out, s, report)
    modifies runs, runs.runs.Values
    ensures runs.Valid() && fresh(runs.runs.Values - old(runs.runs.Values))
    ensures Accounted(server, s0, runs.writeRequests, runs.out, s', report')
    ensures |OrderOf(old(runs.out))| < |OrderOf(runs.out)| <= |runs.writeRequests|
  {
    ghost var before := runs.out;
    var run := runs.Next();
    var result;
    s', result := ExecuteRun(run, server, s, encoder, useWriteCommands, false);
    AppendRun(server, s0, s, report, runs.writeRequests, before, run.View());
    HandedOut(runs);
    report' := Combine(report, result, run.indexMap);
  }

  /** An unordered bulk write executes every request once, in the order of its runs, and reports each
      failure under its original index. */
  method ExecuteUnordered<S>(writeRequests: seq<Request>, server: Server<S>, s0: S, encoder: Encoder,
                             maxBatchWriteSize: nat, useWriteCommands: bool)
    returns (r: BulkResult<S>, ghost runs: seq<RunValue>)
    requires maxBatchWriteSize >= 1 && encoder.Valid()
    ensures writeRequests == [] ==> r == NoOperations
    ensures Tracks(writeRequests, maxBatchWriteSize, |writeRequests|, map[], runs)
    ensures forall k :: 0 <= k < |OrderOf(runs)| ==> OrderOf(runs)[k] < |writeRequests|
    ensures writeRequests != [] ==>
              var all := OneByOne(server, s0, ItemsAt(writeRequests, OrderOf(runs)), false);
              r == Done(all.state, all.report)
  {
    var runGenerator := new UnorderedRunIterator(writeRequests, maxBatchWriteSize);
    runs := [];
    var s, report := s0, EMPTY_REPORT;
    var more := runGenerator.HasNext();
    assert ItemsAt(writeRequests, []) == [];
    while more
      invariant runGenerator.Valid() && fresh(runGenerator) && fresh(runGenerator.runs.Values)
      invariant runGenerator.writeRequests == writeRequests && runGenerator.maxBatchWriteSize == maxBatchWriteSize
      invariant Accounted(server, s0, writeRequests, runGenerator.out, s, report)
      invariant more <==> runGenerator.curIndex < |writeRequests| || runGenerator.runs.Keys != {}
      decreases |writeRequests| - |OrderOf(runGenerator.out)|
    {
      s, report := ExecuteNextUnordered(runGenerator, server, s0, s, report, encoder, useWriteCommands);
      more := runGenerator.HasNext();
    }
    runs := runGenerator.out;
    AllHandedOut(runGenerator);
    return if writeRequests == [] then NoOperations else Done(s, report), runs;
  }

  ghost predicate InRange(order: seq<nat>, n: nat) {
    forall k :: 0 <= k < |order| ==> order[k] < n
  }

  /** The result so far is that of the requests in the runs so far. */
  ghost predicate Accounted<S>(server: Server<S>, s0: S, requests: seq<Request>, runs: seq<RunValue>, s: S,
                               report: Report) {
    InRange(OrderOf(runs), |requests|) &&
    OneByOne(server, s0, ItemsAt(requests, OrderOf(runs)), false) == Executed(s, report)
  }

  lemma HandedOut(it: UnorderedRunIterator)
    requires it.Valid()
    ensures |OrderOf(it.out)| <= |it.writeRequests|
  {
    OutBounded(it.writeRequests, it.maxBatchWriteSize, it.curIndex, Indexes(it.views), it.out);
  }

  lemma AllHandedOut(it: UnorderedRunIterator)
    requires it.Valid() && it.curIndex == |it.writeRequests| && it.runs.Keys == {}
    ensures Tracks(it.writeRequests, it.maxBatchWriteSize, |it.writeRequests|, map[], it.out)
  {
    assert Indexes(it.views) == map[];
  }

  lemma AppendItems<S>(server: Server<S>, s0: S, s: S, report: Report, requests: seq<Request>, order: seq<nat>,
                       run: RunView)
    requires InRange(order, |requests|) && Holds(run, requests)
    requires OneByOne(server, s0, ItemsAt(requests, order), false) == Executed(s, report)
    ensures
      var more := order + run.Indexes();
      var x := OneByOne(server, s, Numbered(run.requests, 0), false);
      && InRange(more, |requests|) && Mapped(x.report, run.indexMap)
      && OneByOne(server, s0, ItemsAt(requests, more), false) ==
         Executed(x.state, Combine(report, x.report, run.indexMap))
  {
    RunRenames(run, requests);
    assert ItemsAt(requests, order + run.Indexes()) == ItemsAt(requests, order) + ItemsAt(requests, run.Indexes());
    OneByOneConcat(server, s0, ItemsAt(requests, order), ItemsAt(requests, run.Indexes()), false);
    RemapExecution(server, s, Numbered(run.requests, 0), ItemsAt(requests, run.Indexes()), run.indexMap, false);
  }

  lemma OrderPush(runs: seq<RunValue>, r: RunValue)
    ensures OrderOf(runs + [r]) == OrderOf(runs) + r.indexes
  {
    assert (runs + [r])[..|runs|] == runs;
  }

  /** One more run after the ones executed, unordered: its result is combined through its index map. */
  lemma AppendRun<S>(server: Server<S>, s0: S, s: S, report: Report, requests: seq<Request>, runs: seq<RunValue>,
                     run: RunView)
    requires Accounted(server, s0, requests, runs, s, report) && Holds(run, requests)
    ensures
      var more := runs + [RunValue(run.kind, run.Indexes())];
      var x := OneByOne(server, s, Numbered(run.requests, 0), false);
      && Mapped(x.report, run.indexMap)
      && |OrderOf(more)| == |OrderOf(runs)| + |run.requests|
      && Accounted(server, s0, requests, more, x.state, Combine(report, x.report, run.indexMap))
  {
    OrderPush(runs, RunValue(run.kind, run.Indexes()));
    AppendItems(server, s0, s, report, requests, OrderOf(runs), run);
  }
}
