/** `QueryResultIterator`: a cursor over query results, fetched in batches under a limit. */
module Cursor {

  type Doc = int

  function Abs(x: int): nat {
    if x < 0 then -x else x
  }

  function Min(a: int, b: int): int {
    if a <= b then a else b
  }

  /** The server's side of one query. How many documents an unsized request gets and whether a cursor that
      has just run out stays open are the server's choice. */
  class Server {
    const docs: seq<Doc>
    const unsized: nat -> nat
    const lingers: nat -> bool
    var pos: nat
    var open: bool
    /** The number asked for last. */
    ghost var asked: int

    constructor (docs: seq<Doc>, unsized: nat -> nat, lingers: nat -> bool)
      requires forall left: nat :: left > 0 ==> 1 <= unsized(left) <= left
      ensures this.docs == docs && pos == 0 && open && Valid()
    {
      this.docs, this.unsized, this.lingers := docs, unsized, lingers;
      pos, open, asked := 0, true, 0;
    }

    ghost predicate Valid()
      reads this
    {
      pos <= |docs| && forall left: nat :: left > 0 ==> 1 <= unsized(left) <= left
    }

    /** Exactly min(|n|, remaining) documents for a nonzero n, at least one of any remaining for n = 0. A
        negative n closes the cursor, and so does a request that finds nothing. */
    method Reply(n: int) returns (batch: seq<Doc>)
      requires Valid() && open
      modifies this
      ensures Valid() && old(pos) <= pos && batch == docs[old(pos)..pos] && asked == n
      ensures n != 0 ==> pos - old(pos) == Min(Abs(n), |docs| - old(pos))
      ensures n == 0 && old(pos) < |docs| ==> old(pos) < pos
      ensures n < 0 || batch == [] ==> !open
      ensures n >= 0 && pos < |docs| ==> open
    {
      var left := |docs| - pos;
      var count := if n != 0 then Min(Abs(n), left) else if left > 0 then unsized(left) else 0;
      batch := docs[pos..pos + count];
      pos, asked := pos + count, n;
      open := n >= 0 && count > 0 && (pos < |docs| || lingers(pos));
    }

    method Kill()
      requires Valid()
      modifies this
      ensures Valid() && pos == old(pos) && asked == old(asked) && !open
    {
      open := false;
    }
  }

  /** The batch size sent to the server: negative to have it close the cursor. */
  function ChooseBatchSize(batchSize: int, limit: int, fetched: int): int {
    var bs := Abs(batchSize);
    var remaining := if limit > 0 then limit - fetched else 0;
    var res :=
      if bs == 0 && remaining > 0 then remaining
      else if bs > 0 && remaining == 0 then bs
      else Min(bs, remaining);
    var signed := if batchSize < 0 then -res else res;
    if signed == 1 then -1 else signed
  }

  /** How many documents a batch is to have: no more than the batch size and no more than the limit leaves, if these are
      set; 0 leaves it to the server. */
  predicate IsBatch(batchSize: int, limit: int, fetched: nat, n: nat) {
    var size, left := Abs(batchSize), limit - fetched;
    if batchSize != 0 && limit > 0 then n == (if size <= left then size else left)
    else if batchSize != 0 then n == size
    else if limit > 0 then n == left
    else n == 0
  }

  /** The number asked for is that of the batch; it is negative exactly for a negative batch size or a single
      document. */
  lemma ChoiceIsBatch(batchSize: int, limit: int, fetched: nat)
    requires limit > 0 ==> fetched < limit
    ensures
      var n := ChooseBatchSize(batchSize, limit, fetched);
      IsBatch(batchSize, limit, fetched, Abs(n)) && (n < 0 <==> batchSize < 0 || Abs(n) == 1)
  {
  }

  /** What a request asks for and gets: exactly the documents of its batch, as far as the server has them. */
  ghost predicate IsReply(batchSize: int, limit: int, fetched: nat, left: nat, asked: int, got: nat) {
    && IsBatch(batchSize, limit, fetched, Abs(asked))
    && (asked < 0 <==> batchSize < 0 || Abs(asked) == 1)
    && (asked != 0 ==> got == (if Abs(asked) <= left then Abs(asked) else left))
  }

  /** What the limit promises: the first `limit` documents, or all of them without a limit. */
  function Promised(limit: int, total: nat): nat {
    if limit > 0 && limit < total then limit else total
  }

  /** The cursor is closed by the first batch. */
  predicate SingleBatch(batchSize: int) {
    batchSize == 1 || batchSize < 0
  }

  /** What is delivered: what is promised, but only a first batch's worth of it with a batch size that makes
      the server close the cursor. */
  function Delivered(batchSize: int, limit: int, total: nat): nat {
    if SingleBatch(batchSize) then Min(Abs(batchSize), Promised(limit, total)) else Promised(limit, total)
  }

  /** The promise is kept exactly for batch sizes 0 and from 2 on, or when one batch is enough. */
  lemma PromiseKept(batchSize: int, limit: int, total: nat)
    ensures Delivered(batchSize, limit, total) == Promised(limit, total)
       <==> batchSize == 0 || batchSize >= 2 || Promised(limit, total) <= Abs(batchSize)
  {
  }

  /** An instance: with a batch size of 1 a limit of 3 yields one document. */
  lemma PromiseInstance()
    ensures Promised(3, 5) == 3 && Delivered(1, 3, 5) == 1
  {
  }

  function Sum(s: seq<nat>): nat {
    if s == [] then 0 else Sum(s[..|s| - 1]) + s[|s| - 1]
  }

  datatype Answer<T> = Value(value: T) | IllegalState | NoSuchElement

  class QueryResultIterator {
    const server: Server
    const batchSize: int
    const limit: int
    /** Whether the cursor id is nonzero. */
    var hasCursor: bool
    var cur: seq<Doc>
    var curSize: nat
    var closed: bool
    var sizes: seq<nat>
    var numGetMores: nat
    var numFetched: nat
    /** The documents handed out. */
    ghost var delivered: seq<Doc>

    /** Everything fetched is accounted for, and is no more than promised. */
    ghost predicate Counted(batches: nat)
      reads this, server
    {
      && server.Valid() && numFetched == server.pos <= Total() && Sum(sizes) == numFetched && |sizes| == batches
      && delivered + cur == server.docs[..numFetched]
    }

    ghost predicate Valid()
      reads this, server
    {
      && Counted(numGetMores + 1)
      && (hasCursor ==> server.open && !closed && !SingleBatch(batchSize) && (limit > 0 ==> numFetched < limit))
      && (!hasCursor && !closed ==> numFetched == Total())
    }

    /** The number of documents this cursor delivers. */
    ghost function Total(): nat
      reads this
    {
      Delivered(batchSize, limit, |server.docs|)
    }

    /** `find`: sends the query and wraps the response. */
    constructor Find(server: Server, batchSize: int, limit: int)
      requires server.Valid() && server.pos == 0 && server.open
      modifies server
      ensures this.server == server && this.batchSize == batchSize && this.limit == limit
      ensures Valid() && delivered == [] && !closed
      ensures limit > 0 && numFetched >= limit ==> !hasCursor
      ensures IsReply(batchSize, limit, 0, |server.docs|, server.asked, curSize)
      ensures curSize <= |server.docs| && cur == server.docs[..curSize]
    {
      this.server, this.batchSize, this.limit := server, batchSize, limit;
      closed, sizes, numGetMores, numFetched, delivered := false, [], 0, 0, [];
      cur, curSize, hasCursor := [], 0, true;
      new;
      ChoiceIsBatch(batchSize, limit, 0);
      var batch := server.Reply(ChooseBatchSize(batchSize, limit, 0));
      Init(server.open, batch);
    }

    /** Takes a response in, and kills the cursor once the limit is met. */
    method Init(open: bool, batch: seq<Doc>)
      requires server.Valid() && open == server.open && server.pos == numFetched + |batch|
      requires Sum(sizes) == numFetched && |sizes| == numGetMores && delivered == server.docs[..numFetched]
      requires batch == server.docs[numFetched..server.pos] && !closed
      requires server.pos <= Total()
      requires open ==> !SingleBatch(batchSize)
      requires !open ==> server.pos == Total()
      modifies this, server
      ensures Valid() && delivered == old(delivered) && cur == batch && curSize == |batch|
      ensures !closed && numGetMores == old(numGetMores) && sizes == old(sizes) + [|batch|]
      ensures numFetched == old(numFetched) + |batch| && server.asked == old(server.asked)
      ensures limit > 0 && numFetched >= limit ==> !hasCursor
      ensures hasCursor ==> open
    {
      Take(batch);
      hasCursor := open;
      if hasCursor && limit > 0 && limit - numFetched <= 0 {
        KillCursor();
      }
    }

    /** Counts a batch in. */
    method Take(batch: seq<Doc>)
      requires server.Valid() && server.pos == numFetched + |batch| <= Total()
      requires Sum(sizes) == numFetched && delivered == server.docs[..numFetched]
      requires batch == server.docs[numFetched..server.pos]
      modifies this`cur, this`curSize, this`sizes, this`numFetched
      ensures Counted(old(|sizes|) + 1) && sizes == old(sizes) + [|batch|]
      ensures cur == batch && curSize == |batch| && numFetched == old(numFetched) + |batch|
    {
      curSize := |batch|;
      cur := batch;
      assert (sizes + [|batch|])[..|sizes|] == sizes;
      assert server.docs[..numFetched] + batch == server.docs[..server.pos];
      sizes := sizes + [|batch|];
      numFetched := numFetched + |batch|;
    }

    /** Killing the cursor succeeds. */
    method KillCursor()
      requires server.Valid()
      modifies this`hasCursor, server
      ensures server.Valid() && server.pos == old(server.pos) && server.asked == old(server.asked) && !hasCursor
      ensures !old(hasCursor) ==> server.open == old(server.open)
    {
      if !hasCursor {
        return;
      }
      server.Kill();
      hasCursor := false;
    }

    method GetMore()
      requires Valid() && hasCursor && cur == []
      modifies this, server
      ensures Valid() && !closed && delivered == old(delivered) && curSize == |cur|
      ensures numFetched == old(numFetched) + curSize
      ensures curSize == 0 ==> !hasCursor
      ensures limit > 0 && numFetched >= limit ==> !hasCursor
      ensures IsReply(batchSize, limit, old(numFetched), |server.docs| - old(numFetched), server.asked, curSize)
      ensures cur == server.docs[old(numFetched)..numFetched]
    {
      ChoiceIsBatch(batchSize, limit, numFetched);
      var batch := server.Reply(ChooseBatchSize(batchSize, limit, numFetched));
      numGetMores := numGetMores + 1;
      Init(server.open, batch);
    }

    /** Whether a document is left: true until exactly `Total()` are delivered. */
    method HasNext() returns (a: Answer<bool>)
      requires Valid()
      modifies this, server
      ensures Valid() && closed == old(closed) && delivered == old(delivered)
      ensures closed ==> a == IllegalState
      ensures !closed ==> a == Value(|delivered| < Total())
      ensures a == Value(true) ==> cur != []
    {
      if closed {
        return IllegalState;
      }
      if cur != [] {
        return Value(true);
      }
      while hasCursor
        invariant Valid() && !closed && delivered == old(delivered) && cur == []
        decreases hasCursor
      {
        GetMore();
        if curSize > 0 {
          return Value(true);
        }
      }
      return Value(false);
    }

    /** The next document, in the order of the results. */
    method Next() returns (a: Answer<Doc>)
      requires Valid()
      modifies this, server
      ensures Valid() && closed == old(closed)
      ensures closed ==> a == IllegalState && delivered == old(delivered)
      ensures !closed && |old(delivered)| == Total() ==> a == NoSuchElement && delivered == old(delivered)
      ensures !closed && |old(delivered)| < Total() ==>
                && |old(delivered)| < |server.docs|
                && a == Value(server.docs[|old(delivered)|])
                && delivered == old(delivered) + [server.docs[|old(delivered)|]]
    {
      if closed {
        return IllegalState;
      }
      var more := HasNext();
      if more != Value(true) {
        return NoSuchElement;
      }
      assert (delivered + cur)[|delivered|] == cur[0];
      a := Value(cur[0]);
      delivered, cur := delivered + [cur[0]], cur[1..];
    }

    method Close()
      requires Valid()
      modifies this, server
      ensures Valid() && closed && !hasCursor && delivered == old(delivered)
    {
      if !closed {
        closed := true;
        KillCursor();
      }
    }
  }

  /** A client that reads to the end gets the first `Delivered(...)` documents, whatever sizes the server
      chooses. */
  method ReadAll(server: Server, batchSize: int, limit: int) returns (docs: seq<Doc>)
    requires server.Valid() && server.pos == 0 && server.open
    modifies server
    ensures
      var n := Delivered(batchSize, limit, |server.docs|);
      n <= |server.docs| && docs == server.docs[..n]
  {
    var it := new QueryResultIterator.Find(server, batchSize, limit);
    docs := [];
    var more := it.HasNext();
    while more == Value(true)
      invariant it.Valid() && !it.closed && fresh(it) && it.server == server && it.batchSize == batchSize
      invariant it.limit == limit
      invariant docs == it.delivered && docs <= server.docs && |docs| <= it.Total()
      invariant more == Value(|docs| < it.Total())
      decreases it.Total() - |docs|
    {
      var d := it.Next();
      docs := docs + [d.value];
      more := it.HasNext();
    }
  }
}
