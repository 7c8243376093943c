/** `OrderedRunGenerator`: runs of one request type. */
module Runs {
  import opened WriteModel

  /** A run as a value: its requests and the map from local to original index. */
  datatype RunView = RunView(kind: WriteType, requests: seq<Request>, indexMap: map<nat, nat>) {
    /** Exactly the local indexes are mapped. */
    ghost predicate Valid() {
      forall k: nat :: k in indexMap <==> k < |requests|
    }

    /** The original indexes of the run's requests, in order. */
    function Indexes(): seq<nat>
      requires Valid()
    {
      seq(|requests|, k requires 0 <= k < |requests| && k in indexMap => indexMap[k])
    }

    function Added(request: Request, originalIndex: nat): RunView {
      RunView(kind, requests + [request], indexMap[|requests| := originalIndex])
    }
  }

  /** The run holds the requests of `all` at its indexes, and they are of its type. */
  ghost predicate Holds(run: RunView, all: seq<Request>) {
    && run.Valid()
    && forall k :: 0 <= k < |run.requests| ==>
         && run.indexMap[k] < |all| && run.requests[k] == all[run.indexMap[k]] && run.requests[k].kind == run.kind
  }

  lemma AddHolds(run: RunView, all: seq<Request>, i: nat)
    requires Holds(run, all) && i < |all| && all[i].kind == run.kind
    ensures Holds(run.Added(all[i], i), all)
    ensures run.Added(all[i], i).Indexes() == run.Indexes() + [i]
  {
  }

  /** The run holds exactly requests from..to of the list. */
  ghost predicate Spans(run: RunView, all: seq<Request>, from: nat, to: nat) {
    && Holds(run, all) && from <= to <= |all| && run.requests == all[from..to]
    && forall k: nat :: k < to - from ==> run.indexMap[k] == from + k
  }

  lemma SpansMore(run: RunView, all: seq<Request>, from: nat, i: nat)
    requires Spans(run, all, from, i) && i < |all| && all[i].kind == run.kind
    ensures Spans(run.Added(all[i], i), all, from, i + 1)
  {
    AddHolds(run, all, i);
  }

  /** A run under construction. */
  class Run {
    const kind: WriteType
    var writeRequests: seq<Request>
    var indexMap: map<nat, nat>

    constructor (kind: WriteType)
      ensures View() == RunView(kind, [], map[])
    {
      this.kind := kind;
      writeRequests, indexMap := [], map[];
    }

    ghost function View(): RunView
      reads this
    {
      RunView(kind, writeRequests, indexMap)
    }

    method Add(writeRequest: Request, originalIndex: nat)
      modifies this
      ensures View() == old(View()).Added(writeRequest, originalIndex)
    {
      indexMap := indexMap[|writeRequests| := originalIndex];
      writeRequests := writeRequests + [writeRequest];
    }

    method Size() returns (n: nat)
      ensures n == |writeRequests|
    {
      n := |writeRequests|;
    }
  }

  // ---- ordered runs ----

  /** Requests a..b may form one run. */
  ghost predicate IsRun(requests: seq<Request>, a: nat, b: nat, max: nat) {
    && a < b <= |requests| && b - a <= max
    && forall k :: a <= k < b ==> requests[k].kind == requests[a].kind
  }

  /** ... that cannot be made longer. */
  ghost predicate IsMaximalRun(requests: seq<Request>, a: nat, b: nat, max: nat) {
    IsRun(requests, a, b, max) && !IsRun(requests, a, b + 1, max)
  }

  /** The ends of consecutive runs from 0 on. */
  ghost predicate IsCut(cut: seq<nat>, requests: seq<Request>, max: nat) {
    && |cut| > 0 && cut[0] == 0
    && forall k :: 0 <= k < |cut| - 1 ==> IsRun(requests, cut[k], cut[k + 1], max)
  }

  ghost predicate IsGreedyCut(cut: seq<nat>, requests: seq<Request>, max: nat) {
    && |cut| > 0 && cut[0] == 0
    && forall k :: 0 <= k < |cut| - 1 ==> IsMaximalRun(requests, cut[k], cut[k + 1], max)
  }

  ghost predicate Complete(cut: seq<nat>, requests: seq<Request>) {
    |cut| > 0 && cut[|cut| - 1] == |requests|
  }

  lemma {:induction false} GreedyStaysAhead(greedy: seq<nat>, other: seq<nat>, requests: seq<Request>, max: nat, k: nat)
    requires IsGreedyCut(greedy, requests, max) && IsCut(other, requests, max) && k < |greedy| && k < |other|
    ensures greedy[k] >= other[k]
  {
    if k > 0 {
      GreedyStaysAhead(greedy, other, requests, max, k - 1);
      var a, b := greedy[k - 1], greedy[k];
      assert IsMaximalRun(requests, a, b, max) && IsRun(requests, other[k - 1], other[k], max);
    }
  }

  lemma {:induction false} CutIncreases(cut: seq<nat>, requests: seq<Request>, max: nat, a: nat, b: nat)
    requires IsCut(cut, requests, max) && a < b < |cut|
    ensures cut[a] < cut[b]
  {
    assert IsRun(requests, cut[b - 1], cut[b], max);
    if a < b - 1 { CutIncreases(cut, requests, max, a, b - 1); }
  }

  /** The runs of the ordered generator are as few as any cut into homogeneous runs of at most `max`. */
  lemma GreedyIsOptimal(greedy: seq<nat>, other: seq<nat>, requests: seq<Request>, max: nat)
    requires IsGreedyCut(greedy, requests, max) && Complete(greedy, requests)
    requires IsCut(other, requests, max) && Complete(other, requests)
    ensures |greedy| <= |other|
  {
    if |greedy| > |other| {
      var k := |other| - 1;
      GreedyStaysAhead(greedy, other, requests, max, k);
      CutIncreases(greedy, requests, max, k, |greedy| - 1);
      assert false;
    }
  }

  class OrderedRunIterator {
    const writeRequests: seq<Request>
    const maxBatchWriteSize: nat
    var curIndex: nat
    /** The ends of the runs handed out. */
    ghost var cut: seq<nat>

    constructor (writeRequests: seq<Request>, maxBatchWriteSize: nat)
      requires maxBatchWriteSize >= 1
      ensures this.writeRequests == writeRequests && this.maxBatchWriteSize == maxBatchWriteSize
      ensures Valid() && curIndex == 0 && cut == [0]
    {
      this.writeRequests, this.maxBatchWriteSize := writeRequests, maxBatchWriteSize;
      curIndex := 0;
      cut := [0];
    }

    ghost predicate Valid()
      reads this
    {
      && maxBatchWriteSize >= 1 && curIndex <= |writeRequests|
      && IsGreedyCut(cut, writeRequests, maxBatchWriteSize) && cut[|cut| - 1] == curIndex
    }

    method HasNext() returns (b: bool)
      requires Valid()
      ensures b == (curIndex < |writeRequests|)
    {
      b := curIndex < |writeRequests|;
    }

    method GetStartIndexOfNextRun() returns (end: nat)
      requires Valid() && curIndex < |writeRequests|
      ensures IsMaximalRun(writeRequests, curIndex, end, maxBatchWriteSize)
    {
      var kind := writeRequests[curIndex].kind;
      var i := curIndex;
      while i < |writeRequests|
        invariant curIndex <= i <= |writeRequests| && i <= curIndex + maxBatchWriteSize
        invariant forall k :: curIndex <= k < i ==> writeRequests[k].kind == kind
      {
        if i == curIndex + maxBatchWriteSize || writeRequests[i].kind != kind {
          return i;
        }
        i := i + 1;
      }
      return |writeRequests|;
    }

    /** The next run: the longest one from the current index on. */
    method Next() returns (run: Run)
      requires Valid() && curIndex < |writeRequests|
      modifies this`curIndex, this`cut
      ensures Valid() && fresh(run) && run.kind == writeRequests[old(curIndex)].kind
      ensures Spans(run.View(), writeRequests, old(curIndex), curIndex)
      ensures IsMaximalRun(writeRequests, old(curIndex), curIndex, maxBatchWriteSize)
      ensures cut == old(cut) + [curIndex]
    {
      run := new Run(writeRequests[curIndex].kind);
      var startIndexOfNextRun := GetStartIndexOfNextRun();
      var i := curIndex;
      while i < startIndexOfNextRun
        invariant curIndex <= i <= startIndexOfNextRun && fresh(run)
        invariant Spans(run.View(), writeRequests, curIndex, i)
        modifies run
      {
        SpansMore(run.View(), writeRequests, curIndex, i);
        run.Add(writeRequests[i], i);
        i := i + 1;
      }
      cut := cut + [startIndexOfNextRun];
      curIndex := startIndexOfNextRun;
    }
  }
}
