/** `UnorderedRunGenerator`: one pending run for each request type. */
module UnorderedRuns {
  import opened WriteModel
  import opened Runs

  /** A run as a value: its type and the original indexes of its requests. */
  datatype RunValue = RunValue(kind: WriteType, indexes: seq<nat>)

  /** The indexes below n of the requests of one type. */
  function IndexesOf(requests: seq<Request>, t: WriteType, n: nat): seq<nat>
    requires n <= |requests|
  {
    if n == 0 then []
    else IndexesOf(requests, t, n - 1) + (if requests[n - 1].kind == t then [n - 1] else [])
  }

  /** A list cut into pieces of `max`, the last one possibly shorter. */
  function ChunksOf(s: seq<nat>, max: nat): seq<seq<nat>>
    requires max >= 1
  {
    if s == [] then [] else if |s| <= max then [s] else [s[..max]] + ChunksOf(s[max..], max)
  }

  function RunsOfType(runs: seq<RunValue>, t: WriteType): seq<seq<nat>> {
    if runs == [] then []
    else RunsOfType(runs[..|runs| - 1], t) +
         (if runs[|runs| - 1].kind == t then [runs[|runs| - 1].indexes] else [])
  }

  /** The last piece has no room left. */
  predicate EndsFull(s: seq<nat>, max: nat)
    requires max >= 1
  {
    var c := ChunksOf(s, max);
    c == [] || |c[|c| - 1]| == max
  }

  lemma {:induction false} ChunksPush(s: seq<nat>, k: nat, max: nat)
    requires max >= 1
    ensures
      var c, d := ChunksOf(s, max), ChunksOf(s + [k], max);
      if EndsFull(s, max) then d == c + [[k]]
      else |c[|c| - 1]| < max && d == c[..|c| - 1] + [c[|c| - 1] + [k]]
  {
    if |s| > max {
      assert (s + [k])[..max] == s[..max] && (s + [k])[max..] == s[max..] + [k];
      ChunksPush(s[max..], k, max);
    } else if |s| == max {
      assert (s + [k])[..max] == s && (s + [k])[max..] == [k];
      assert ChunksOf(s, max) == [s] && ChunksOf([k], max) == [[k]];
      assert ChunksOf(s + [k], max) == [s] + ChunksOf([k], max);
    } else if s == [] {
      assert s + [k] == [k] && ChunksOf([k], max) == [[k]];
    }
  }

  /** What is handed out and what is pending make up, type by type, the requests read so far in pieces
      of `max`; a type with nothing pending has only full pieces. */
  ghost predicate Tracks(requests: seq<Request>, max: nat, cur: nat, pending: map<WriteType, seq<nat>>,
                         out: seq<RunValue>)
    requires max >= 1 && cur <= |requests|
  {
    forall t :: TracksType(requests, max, cur, pending, out, t)
  }

  function Tail(pending: map<WriteType, seq<nat>>, t: WriteType): seq<seq<nat>> {
    if t in pending then [pending[t]] else []
  }

  ghost predicate TracksType(requests: seq<Request>, max: nat, cur: nat, pending: map<WriteType, seq<nat>>,
                             out: seq<RunValue>, t: WriteType)
    requires max >= 1 && cur <= |requests|
  {
    && RunsOfType(out, t) + Tail(pending, t) == ChunksOf(IndexesOf(requests, t, cur), max)
    && (t in pending ==> 0 < |pending[t]| < max)
    && (t !in pending && cur < |requests| ==> EndsFull(IndexesOf(requests, t, cur), max))
  }

  /** The pending runs after request `cur` is added to the one of its type. */
  function Grown(requests: seq<Request>, cur: nat, pending: map<WriteType, seq<nat>>): map<WriteType, seq<nat>>
    requires cur < |requests|
  {
    var t := requests[cur].kind;
    pending[t := (if t in pending then pending[t] else []) + [cur]]
  }

  lemma PushRun(out: seq<RunValue>, r: RunValue, t: WriteType)
    ensures RunsOfType(out + [r], t) == RunsOfType(out, t) + (if r.kind == t then [r.indexes] else [])
  {
    assert (out + [r])[..|out|] == out;
  }

  /** Adding a request to the run of its type: the pieces of that type grow by it. */
  lemma GrowTracks(requests: seq<Request>, max: nat, cur: nat, pending: map<WriteType, seq<nat>>, out: seq<RunValue>)
    requires max >= 1 && cur < |requests| && TracksType(requests, max, cur, pending, out, requests[cur].kind)
    ensures
      var t := requests[cur].kind;
      var run := Grown(requests, cur, pending)[t];
      && |run| <= max && (|run| == max ==> EndsFull(IndexesOf(requests, t, cur + 1), max))
      && RunsOfType(out, t) + [run] == ChunksOf(IndexesOf(requests, t, cur + 1), max)
  {
    var t := requests[cur].kind;
    var s := IndexesOf(requests, t, cur);
    var c := ChunksOf(s, max);
    assert IndexesOf(requests, t, cur + 1) == s + [cur];
    ChunksPush(s, cur, max);
    if t in pending {
      assert c[|c| - 1] == pending[t];
      assert c[..|c| - 1] == RunsOfType(out, t);
    } else {
      assert RunsOfType(out, t) == RunsOfType(out, t) + Tail(pending, t) == c;
      assert Grown(requests, cur, pending)[t] == [cur];
    }
  }

  lemma GrowTracksAt(requests: seq<Request>, max: nat, cur: nat, pending: map<WriteType, seq<nat>>, out: seq<RunValue>)
    requires max >= 1 && cur < |requests| && Tracks(requests, max, cur, pending, out)
    ensures |Grown(requests, cur, pending)[requests[cur].kind]| <= max
  {
    assert TracksType(requests, max, cur, pending, out, requests[cur].kind);
    GrowTracks(requests, max, cur, pending, out);
  }

  lemma OtherTracks(requests: seq<Request>, max: nat, cur: nat, pending: map<WriteType, seq<nat>>, out: seq<RunValue>,
                    t: WriteType)
    requires max >= 1 && cur < |requests| && TracksType(requests, max, cur, pending, out, t) && t != requests[cur].kind
    ensures TracksType(requests, max, cur + 1, Grown(requests, cur, pending), out, t)
  {
    assert IndexesOf(requests, t, cur + 1) == IndexesOf(requests, t, cur);
  }

  /** While the run has room it stays pending. */
  lemma AddTracks(requests: seq<Request>, max: nat, cur: nat, pending: map<WriteType, seq<nat>>, out: seq<RunValue>)
    requires max >= 1 && cur < |requests| && Tracks(requests, max, cur, pending, out)
    requires |Grown(requests, cur, pending)[requests[cur].kind]| != max
    ensures Tracks(requests, max, cur + 1, Grown(requests, cur, pending), out)
  {
    var kind := requests[cur].kind;
    assert TracksType(requests, max, cur, pending, out, kind);
    GrowTracks(requests, max, cur, pending, out);
    var next, grown := cur + 1, Grown(requests, cur, pending);
    forall t ensures TracksType(requests, max, next, grown, out, t) {
      assert TracksType(requests, max, cur, pending, out, t);
      if t != kind { OtherTracks(requests, max, cur, pending, out, t); }
    }
  }

  /** Once the run is full it is handed out. */
  lemma FullTracks(requests: seq<Request>, max: nat, cur: nat, pending: map<WriteType, seq<nat>>, out: seq<RunValue>)
    requires max >= 1 && cur < |requests| && Tracks(requests, max, cur, pending, out)
    requires |Grown(requests, cur, pending)[requests[cur].kind]| == max
    ensures
      var kind, grown := requests[cur].kind, Grown(requests, cur, pending);
      Tracks(requests, max, cur + 1, grown - {kind}, out + [RunValue(kind, grown[kind])])
  {
    var kind, grown := requests[cur].kind, Grown(requests, cur, pending);
    var r := RunValue(kind, grown[kind]);
    assert TracksType(requests, max, cur, pending, out, kind);
    GrowTracks(requests, max, cur, pending, out);
    var next, less, more := cur + 1, grown - {kind}, out + [r];
    forall t ensures TracksType(requests, max, next, less, more, t) {
      assert TracksType(requests, max, cur, pending, out, t);
      PushRun(out, r, t);
      if t != kind {
        OtherTracks(requests, max, cur, pending, out, t);
        SameForType(requests, max, next, grown, less, out, more, t);
      }
    }
  }

  lemma SameForType(requests: seq<Request>, max: nat, cur: nat, pending: map<WriteType, seq<nat>>,
                    less: map<WriteType, seq<nat>>, out: seq<RunValue>, more: seq<RunValue>, t: WriteType)
    requires max >= 1 && cur <= |requests| && TracksType(requests, max, cur, pending, out, t)
    requires Tail(less, t) == Tail(pending, t) && RunsOfType(more, t) == RunsOfType(out, t)
    ensures TracksType(requests, max, cur, less, more, t)
  {
  }

  /** With everything read, handing out any pending run keeps track. */
  lemma DrainTracks(requests: seq<Request>, max: nat, pending: map<WriteType, seq<nat>>, out: seq<RunValue>,
                    kind: WriteType)
    requires max >= 1 && Tracks(requests, max, |requests|, pending, out) && kind in pending
    ensures Tracks(requests, max, |requests|, pending - {kind}, out + [RunValue(kind, pending[kind])])
  {
    forall t ensures TracksType(requests, max, |requests|, pending - {kind}, out + [RunValue(kind, pending[kind])], t) {
      assert TracksType(requests, max, |requests|, pending, out, t);
      PushRun(out, RunValue(kind, pending[kind]), t);
    }
  }

  // ---- what the runs amount to ----

  function Concat(pieces: seq<seq<nat>>): seq<nat> {
    if pieces == [] then [] else Concat(pieces[..|pieces| - 1]) + pieces[|pieces| - 1]
  }

  /** The original indexes in the order in which the runs hold them. */
  function OrderOf(runs: seq<RunValue>): seq<nat> {
    if runs == [] then [] else OrderOf(runs[..|runs| - 1]) + runs[|runs| - 1].indexes
  }

  /** The number of pieces of `max` that n elements take: n / max rounded up. */
  function PiecesFor(n: nat, max: nat): nat
    requires max >= 1
  {
    (n + max - 1) / max
  }

  lemma {:induction false} ConcatPrepend(a: seq<nat>, rest: seq<seq<nat>>)
    ensures Concat([a] + rest) == a + Concat(rest)
  {
    if rest == [] {
      assert [a] + rest == [a] && [a][..0] == [];
      assert Concat([a]) == Concat([]) + a;
    } else {
      var n := |rest| - 1;
      assert ([a] + rest)[..n + 1] == [a] + rest[..n];
      ConcatPrepend(a, rest[..n]);
    }
  }

  lemma {:induction false} ChunksConcat(s: seq<nat>, max: nat)
    requires max >= 1
    ensures Concat(ChunksOf(s, max)) == s && |ChunksOf(s, max)| == PiecesFor(|s|, max)
    ensures forall c :: c in ChunksOf(s, max) ==> 1 <= |c| <= max
  {
    if |s| > max {
      var a, rest := s[..max], s[max..];
      ChunksConcat(rest, max);
      ChunkInFront(s, a, rest, ChunksOf(rest, max), max);
    } else if s != [] {
      OneChunk(s, max);
    } else {
      PiecesZero(max);
    }
  }

  lemma ChunkInFront(s: seq<nat>, a: seq<nat>, rest: seq<nat>, pieces: seq<seq<nat>>, max: nat)
    requires max >= 1 && s == a + rest && |a| == max && Concat(pieces) == rest && |pieces| == PiecesFor(|rest|, max)
    ensures Concat([a] + pieces) == s && |[a] + pieces| == PiecesFor(|s|, max)
  {
    ConcatPrepend(a, pieces);
    PiecesStep(|rest|, max);
  }

  lemma OneChunk(s: seq<nat>, max: nat)
    requires 1 <= |s| <= max
    ensures Concat([s]) == s && PiecesFor(|s|, max) == 1
  {
    ConcatPrepend(s, []);
    assert [s] + [] == [s];
    PiecesOne(|s|, max);
  }

  lemma MulAtLeast(m: int, k: int)
    requires m > 0
    ensures (k >= 1 ==> m * k >= m) && (k <= -1 ==> m * k <= -m)
  {
    if k >= 1 { assert m * k == m + m * (k - 1); }
    if k <= -1 { assert m * k == m * (k + 1) - m; }
  }

  lemma PiecesStep(n: nat, max: nat)
    requires max >= 1
    ensures PiecesFor(n + max, max) == PiecesFor(n, max) + 1
  {
    var x := n + max - 1;
    var q, r, d, e := x / max, x % max, (x + max) / max, (x + max) % max;
    assert x == max * q + r && x + max == max * d + e;
    assert max * (d - q - 1) == r - e;
    MulAtLeast(max, d - q - 1);
  }

  lemma PiecesOne(n: nat, max: nat)
    requires 1 <= n <= max
    ensures PiecesFor(n, max) == 1
  {
  }

  lemma PiecesZero(max: nat)
    requires max >= 1
    ensures PiecesFor(0, max) == 0
  {
  }

  /** How often an index occurs. */
  function Times(s: seq<nat>, i: nat): nat {
    if s == [] then 0 else Times(s[..|s| - 1], i) + (if s[|s| - 1] == i then 1 else 0)
  }

  lemma {:induction false} TimesConcat(a: seq<nat>, b: seq<nat>, i: nat)
    ensures Times(a + b, i) == Times(a, i) + Times(b, i)
  {
    if b == [] {
      assert a + b == a;
    } else {
      var n := |b| - 1;
      assert (a + b)[..|a| + n] == a + b[..n];
      TimesConcat(a, b[..n], i);
    }
  }

  lemma RunsOfTypePush(init: seq<RunValue>, r: RunValue, t: WriteType)
    ensures Concat(RunsOfType(init + [r], t)) == Concat(RunsOfType(init, t)) + (if r.kind == t then r.indexes else [])
  {
    PushRun(init, r, t);
    var p := RunsOfType(init, t);
    if r.kind == t {
      assert (p + [r.indexes])[..|p|] == p;
    } else {
      assert p + [] == p;
    }
  }

  /** How often an index occurs in the runs of one type. */
  function TypeTimes(runs: seq<RunValue>, t: WriteType, i: nat): nat {
    if runs == [] then 0
    else
      var r := runs[|runs| - 1];
      TypeTimes(runs[..|runs| - 1], t, i) + (if r.kind == t then Times(r.indexes, i) else 0)
  }

  lemma {:induction false} TypeTimesConcat(runs: seq<RunValue>, t: WriteType, i: nat)
    ensures TypeTimes(runs, t, i) == Times(Concat(RunsOfType(runs, t)), i)
  {
    if runs != [] {
      var init, r := runs[..|runs| - 1], runs[|runs| - 1];
      TypeTimesConcat(init, t, i);
      assert runs == init + [r];
      RunsOfTypePush(init, r, t);
      TimesConcat(Concat(RunsOfType(init, t)), if r.kind == t then r.indexes else [], i);
    }
  }

  lemma {:induction false} TimesByType(runs: seq<RunValue>, i: nat)
    ensures Times(OrderOf(runs), i)
         == TypeTimes(runs, INSERT, i) + TypeTimes(runs, UPDATE, i)
          + TypeTimes(runs, REPLACE, i) + TypeTimes(runs, REMOVE, i)
  {
    if runs != [] {
      var init, r := runs[..|runs| - 1], runs[|runs| - 1];
      TimesByType(init, i);
      TimesConcat(OrderOf(init), r.indexes, i);
    }
  }

  lemma RunsByType(runs: seq<RunValue>, i: nat)
    ensures Times(OrderOf(runs), i)
         == Times(Concat(RunsOfType(runs, INSERT)), i) + Times(Concat(RunsOfType(runs, UPDATE)), i)
          + Times(Concat(RunsOfType(runs, REPLACE)), i) + Times(Concat(RunsOfType(runs, REMOVE)), i)
  {
    TimesByType(runs, i);
    TypeTimesConcat(runs, INSERT, i);
    TypeTimesConcat(runs, UPDATE, i);
    TypeTimesConcat(runs, REPLACE, i);
    TypeTimesConcat(runs, REMOVE, i);
  }

  lemma {:induction false} SizeByType(runs: seq<RunValue>)
    ensures |OrderOf(runs)|
         == |Concat(RunsOfType(runs, INSERT))| + |Concat(RunsOfType(runs, UPDATE))|
          + |Concat(RunsOfType(runs, REPLACE))| + |Concat(RunsOfType(runs, REMOVE))|
  {
    if runs != [] {
      var init, r := runs[..|runs| - 1], runs[|runs| - 1];
      SizeByType(init);
      assert runs == init + [r];
      RunsOfTypePush(init, r, INSERT);
      RunsOfTypePush(init, r, UPDATE);
      RunsOfTypePush(init, r, REPLACE);
      RunsOfTypePush(init, r, REMOVE);
    }
  }

  lemma {:induction false} CountByType(runs: seq<RunValue>)
    ensures |runs| == |RunsOfType(runs, INSERT)| + |RunsOfType(runs, UPDATE)|
                    + |RunsOfType(runs, REPLACE)| + |RunsOfType(runs, REMOVE)|
  {
    if runs != [] {
      CountByType(runs[..|runs| - 1]);
    }
  }

  lemma TimesIndexes(requests: seq<Request>, t: WriteType, n: nat, i: nat)
    requires 0 < n <= |requests|
    ensures Times(IndexesOf(requests, t, n), i)
         == Times(IndexesOf(requests, t, n - 1), i) + (if requests[n - 1].kind == t && i == n - 1 then 1 else 0)
  {
    TimesConcat(IndexesOf(requests, t, n - 1), if requests[n - 1].kind == t then [n - 1] else [], i);
  }

  lemma {:induction false} IndexesByType(requests: seq<Request>, n: nat, i: nat)
    requires n <= |requests|
    ensures Times(IndexesOf(requests, INSERT, n), i) + Times(IndexesOf(requests, UPDATE, n), i)
          + Times(IndexesOf(requests, REPLACE, n), i) + Times(IndexesOf(requests, REMOVE, n), i)
         == if i < n then 1 else 0
  {
    if n > 0 {
      IndexesByType(requests, n - 1, i);
      TimesIndexes(requests, INSERT, n, i);
      TimesIndexes(requests, UPDATE, n, i);
      TimesIndexes(requests, REPLACE, n, i);
      TimesIndexes(requests, REMOVE, n, i);
    }
  }

  lemma {:induction false} IndexCounts(requests: seq<Request>, n: nat)
    requires n <= |requests|
    ensures |IndexesOf(requests, INSERT, n)| + |IndexesOf(requests, UPDATE, n)|
          + |IndexesOf(requests, REPLACE, n)| + |IndexesOf(requests, REMOVE, n)| == n
  {
    if n > 0 {
      IndexCounts(requests, n - 1);
    }
  }

  lemma OutOfType(requests: seq<Request>, max: nat, cur: nat, pending: map<WriteType, seq<nat>>, out: seq<RunValue>,
                  t: WriteType)
    requires max >= 1 && cur <= |requests| && TracksType(requests, max, cur, pending, out, t)
    ensures |Concat(RunsOfType(out, t))| <= |IndexesOf(requests, t, cur)|
  {
    ChunksConcat(IndexesOf(requests, t, cur), max);
    var p := RunsOfType(out, t);
    if t in pending {
      assert (p + [pending[t]])[..|p|] == p;
    } else {
      assert p + [] == p;
    }
  }

  /** No more is ever handed out than was read: the measure by which the iteration ends. */
  lemma OutBounded(requests: seq<Request>, max: nat, cur: nat, pending: map<WriteType, seq<nat>>, out: seq<RunValue>)
    requires max >= 1 && cur <= |requests| && Tracks(requests, max, cur, pending, out)
    ensures |OrderOf(out)| <= cur
  {
    forall t ensures |Concat(RunsOfType(out, t))| <= |IndexesOf(requests, t, cur)| {
      assert TracksType(requests, max, cur, pending, out, t);
      OutOfType(requests, max, cur, pending, out, t);
    }
    SizeByType(out);
    IndexCounts(requests, cur);
  }

  /** Every request is in exactly one run, and no type has more runs than its requests need. */
  lemma RunsPartition(requests: seq<Request>, max: nat, runs: seq<RunValue>)
    requires max >= 1 && Tracks(requests, max, |requests|, map[], runs)
    ensures forall t :: RunsOfType(runs, t) == ChunksOf(IndexesOf(requests, t, |requests|), max)
    ensures forall i: nat :: Times(OrderOf(runs), i) == if i < |requests| then 1 else 0
    ensures
      var n := |requests|;
      |runs| == PiecesFor(|IndexesOf(requests, INSERT, n)|, max) + PiecesFor(|IndexesOf(requests, UPDATE, n)|, max)
              + PiecesFor(|IndexesOf(requests, REPLACE, n)|, max) + PiecesFor(|IndexesOf(requests, REMOVE, n)|, max)
  {
    var n := |requests|;
    forall t
      ensures RunsOfType(runs, t) == ChunksOf(IndexesOf(requests, t, n), max)
      ensures Concat(RunsOfType(runs, t)) == IndexesOf(requests, t, n)
      ensures |RunsOfType(runs, t)| == PiecesFor(|IndexesOf(requests, t, n)|, max)
    {
      assert TracksType(requests, max, n, map[], runs, t);
      assert RunsOfType(runs, t) + [] == RunsOfType(runs, t);
      ChunksConcat(IndexesOf(requests, t, n), max);
    }
    CountByType(runs);
    forall i: nat ensures Times(OrderOf(runs), i) == if i < n then 1 else 0 {
      RunsByType(runs, i);
      IndexesByType(requests, n, i);
    }
  }

  // ---- the iterator ----

  /** The order of the request types in the sorted map of pending runs. */
  function Rank(t: WriteType): nat {
    match t
    case INSERT => 0
    case UPDATE => 1
    case REPLACE => 2
    case REMOVE => 3
  }

  /** The original indexes in the pending runs. */
  ghost function Indexes(views: map<WriteType, RunView>): (m: map<WriteType, seq<nat>>)
    requires forall t :: t in views ==> views[t].Valid()
    ensures m.Keys == views.Keys
  {
    map t | t in views :: views[t].Indexes()
  }

  /** The pending runs, one a type, hold requests of the list. */
  ghost predicate AllHold(views: map<WriteType, RunView>, all: seq<Request>) {
    forall t :: t in views ==> views[t].kind == t && Holds(views[t], all)
  }

  /** The pending runs with request `cur` added. */
  ghost function Collected(views: map<WriteType, RunView>, all: seq<Request>, cur: nat): map<WriteType, RunView>
    requires cur < |all|
  {
    var t := all[cur].kind;
    views[t := (if t in views then views[t] else RunView(t, [], map[])).Added(all[cur], cur)]
  }

  lemma CollectedHolds(views: map<WriteType, RunView>, all: seq<Request>, cur: nat)
    requires cur < |all| && AllHold(views, all)
    ensures AllHold(Collected(views, all, cur), all)
    ensures Indexes(Collected(views, all, cur)) == Grown(all, cur, Indexes(views))
  {
    var t := all[cur].kind;
    AddHolds(if t in views then views[t] else RunView(t, [], map[]), all, cur);
  }

  lemma Collecting(all: seq<Request>, max: nat, cur: nat, views: map<WriteType, RunView>, out: seq<RunValue>)
    requires max >= 1 && cur < |all| && AllHold(views, all) && Tracks(all, max, cur, Indexes(views), out)
    ensures
      var t, more := all[cur].kind, Collected(views, all, cur);
      && AllHold(more, all) && 1 <= |more[t].requests| <= max
      && (|more[t].requests| != max ==> Tracks(all, max, cur + 1, Indexes(more), out))
      && (|more[t].requests| == max ==>
            Tracks(all, max, cur + 1, Indexes(more - {t}), out + [RunValue(t, more[t].Indexes())]))
  {
    var t, more := all[cur].kind, Collected(views, all, cur);
    CollectedHolds(views, all, cur);
    GrowTracksAt(all, max, cur, Indexes(views), out);
    assert Indexes(more - {t}) == Indexes(more) - {t};
    if |more[t].requests| == max {
      FullTracks(all, max, cur, Indexes(views), out);
    } else {
      AddTracks(all, max, cur, Indexes(views), out);
    }
  }

  lemma Draining(all: seq<Request>, max: nat, views: map<WriteType, RunView>, out: seq<RunValue>, t: WriteType)
    requires max >= 1 && t in views && AllHold(views, all) && Tracks(all, max, |all|, Indexes(views), out)
    ensures 1 <= |views[t].requests| <= max
    ensures Tracks(all, max, |all|, Indexes(views - {t}), out + [RunValue(t, views[t].Indexes())])
  {
    assert TracksType(all, max, |all|, Indexes(views), out, t);
    assert Indexes(views - {t}) == Indexes(views) - {t};
    DrainTracks(all, max, Indexes(views), out, t);
  }

  class UnorderedRunIterator {
    const writeRequests: seq<Request>
    const maxBatchWriteSize: nat
    var runs: map<WriteType, Run>
    var curIndex: nat
    /** The pending runs as values, and the runs handed out. */
    ghost var views: map<WriteType, RunView>
    ghost var out: seq<RunValue>

    constructor (writeRequests: seq<Request>, maxBatchWriteSize: nat)
      requires maxBatchWriteSize >= 1
      ensures this.writeRequests == writeRequests && this.maxBatchWriteSize == maxBatchWriteSize
      ensures Valid() && runs == map[] && curIndex == 0 && out == []
    {
      this.writeRequests, this.maxBatchWriteSize := writeRequests, maxBatchWriteSize;
      runs, curIndex, views, out := map[], 0, map[], [];
    }

    /** The map of pending runs is what `views` says. */
    ghost predicate Sound()
      reads this, runs.Values
    {
      && views.Keys == runs.Keys
      && forall t :: t in runs ==> runs[t].View() == views[t] && views[t].kind == t
    }

    ghost predicate Valid()
      reads this, runs.Values
    {
      && Sound() && maxBatchWriteSize >= 1 && curIndex <= |writeRequests| && AllHold(views, writeRequests)
      && Tracks(writeRequests, maxBatchWriteSize, curIndex, Indexes(views), out)
    }

    method HasNext() returns (b: bool)
      requires Valid()
      ensures b == (curIndex < |writeRequests| || runs.Keys != {})
    {
      b := curIndex < |writeRequests| || |runs| != 0;
    }

    /** The pending run of a type, a new one if there is none. */
    method RunFor(kind: WriteType) returns (run: Run)
      requires Sound()
      modifies this`runs, this`views
      ensures Sound() && kind in runs && runs[kind] == run && run.kind == kind
      ensures kind in old(runs) ==> runs == old(runs) && views == old(views)
      ensures kind !in old(runs) ==> views == old(views)[kind := RunView(kind, [], map[])]
      ensures fresh(runs.Values - old(runs.Values))
    {
      if kind !in runs {
        run := new Run(kind);
        runs := runs[kind := run];
        views := views[kind := RunView(kind, [], map[])];
      } else {
        run := runs[kind];
      }
    }

    /** Adds the current request to the run of its type. */
    method AddCurrent(run: Run)
      requires Sound() && curIndex < |writeRequests| && run.kind in runs && runs[run.kind] == run
      modifies this`curIndex, this`views, run
      ensures Sound() && curIndex == old(curIndex) + 1
      ensures views == old(views)[run.kind := old(views[run.kind]).Added(writeRequests[old(curIndex)], old(curIndex))]
    {
      views := views[run.kind := views[run.kind].Added(writeRequests[curIndex], curIndex)];
      run.Add(writeRequests[curIndex], curIndex);
      curIndex := curIndex + 1;
    }

    method Read() returns (run: Run)
      requires Sound() && curIndex < |writeRequests|
      modifies this`curIndex, this`runs, this`views, runs.Values
      ensures Sound() && fresh(runs.Values - old(runs.Values)) && curIndex == old(curIndex) + 1
      ensures views == Collected(old(views), writeRequests, old(curIndex))
      ensures run.kind == writeRequests[old(curIndex)].kind && run.kind in runs && runs[run.kind] == run
    {
      run := RunFor(writeRequests[curIndex].kind);
      AddCurrent(run);
    }

    /** One round of the reading loop; a run that is full is taken out. */
    method Collect() returns (full: bool, run: Run)
      requires Valid() && curIndex < |writeRequests|
      modifies this, runs.Values
      ensures Valid() && fresh(runs.Values - old(runs.Values)) && curIndex == old(curIndex) + 1
      ensures !full ==> out == old(out) && runs.Keys != {}
      ensures full ==> TakenOut(run, old(out)) && |run.writeRequests| == maxBatchWriteSize
    {
      Collecting(writeRequests, maxBatchWriteSize, curIndex, views, out);
      run := Read();
      var size := run.Size();
      full := size == maxBatchWriteSize;
      if full {
        run := TakeOut(run.kind);
      }
    }

    /** The run was handed out on top of what was out before: it holds requests, and no more than allowed. */
    ghost predicate TakenOut(run: Run, before: seq<RunValue>)
      reads this, run
    {
      && Holds(run.View(), writeRequests) && 1 <= |run.writeRequests| <= maxBatchWriteSize
      && out == before + [RunValue(run.kind, run.View().Indexes())]
    }

    /** The first type, in the order of the sorted map, that has a pending run. */
    method FirstKey() returns (kind: WriteType)
      requires runs.Keys != {}
      ensures kind in runs && forall t :: t in runs ==> Rank(kind) <= Rank(t)
    {
      if INSERT in runs {
        kind := INSERT;
      } else if UPDATE in runs {
        kind := UPDATE;
      } else if REPLACE in runs {
        kind := REPLACE;
      } else {
        kind := REMOVE;
        var t :| t in runs.Keys;
        assert t == REMOVE;
      }
    }

    /** Takes a pending run out. */
    method Remove(kind: WriteType) returns (run: Run)
      requires Sound() && kind in runs && views[kind].Valid()
      modifies this`runs, this`views, this`out
      ensures run == old(runs[kind]) && run.View() == old(views[kind])
      ensures runs == old(runs) - {kind} && views == old(views) - {kind}
      ensures out == old(out) + [RunValue(kind, old(views[kind]).Indexes())]
      ensures Sound()
    {
      run := runs[kind];
      out := out + [RunValue(kind, views[kind].Indexes())];
      runs := runs - {kind};
      views := views - {kind};
    }

    /** Hands a pending run out, when the rest keeps track. */
    method TakeOut(kind: WriteType) returns (run: Run)
      requires Sound() && AllHold(views, writeRequests) && kind in runs && curIndex <= |writeRequests|
      requires 1 <= |views[kind].requests| <= maxBatchWriteSize
      requires Tracks(writeRequests, maxBatchWriteSize, curIndex, Indexes(views - {kind}),
                      out + [RunValue(kind, views[kind].Indexes())])
      modifies this`runs, this`views, this`out
      ensures Valid() && TakenOut(run, old(out)) && run == old(runs[kind]) && runs == old(runs) - {kind}
    {
      assert AllHold(views - {kind}, writeRequests);
      run := Remove(kind);
    }

    /** Reads until a run is full or nothing is left to read. */
    method ReadOn() returns (run: Run?)
      requires Valid() && (curIndex < |writeRequests| || runs.Keys != {})
      modifies this, runs.Values
      ensures Valid() && fresh(runs.Values - old(runs.Values))
      ensures run == null ==> out == old(out) && runs.Keys != {} && curIndex == |writeRequests|
      ensures run != null ==> TakenOut(run, old(out)) && |run.writeRequests| == maxBatchWriteSize
    {
      run := null;
      while curIndex < |writeRequests|
        invariant Valid() && fresh(runs.Values - old(runs.Values))
        invariant out == old(out) && (curIndex < |writeRequests| || runs.Keys != {})
      {
        var full, r := Collect();
        if full {
          return r;
        }
      }
    }

    /** The next run: always there when `HasNext` says so, never empty, and fully accounted for. */
    method Next() returns (run: Run)
      requires Valid() && (curIndex < |writeRequests| || runs.Keys != {})
      modifies this, runs.Values
      ensures Valid() && TakenOut(run, old(out)) && fresh(runs.Values - old(runs.Values))
      ensures curIndex < |writeRequests| ==> |run.writeRequests| == maxBatchWriteSize
    {
      var full := ReadOn();
      if full != null {
        return full;
      }
      var kind := FirstKey();
      Draining(writeRequests, maxBatchWriteSize, views, out, kind);
      run := TakeOut(kind);
    }
  }
}
