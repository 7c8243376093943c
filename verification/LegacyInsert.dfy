/** `insertWithWriteProtocol`: documents in messages. */
module LegacyInsert {

  /** An insert message: the documents put into it. */
  type Message = seq<int>

  function Concat(messages: seq<Message>): seq<int> {
    if messages == [] then [] else Concat(messages[..|messages| - 1]) + messages[|messages| - 1]
  }

  /** The size of the first `n` documents of a message with its header. */
  function Size(m: Message, n: nat, header: nat, docSize: int -> nat): nat
    requires n <= |m|
  {
    if n == 0 then header else Size(m, n - 1, header, docSize) + docSize(m[n - 1])
  }

  /** A message passes the limit with its last document at the earliest. */
  predicate Packed(m: Message, header: nat, docSize: int -> nat, limit: nat) {
    m != [] && forall k :: 1 <= k < |m| ==> Size(m, k, header, docSize) <= limit
  }

  lemma {:induction false} SizeOfPrefix(m: Message, doc: int, n: nat, header: nat, docSize: int -> nat)
    requires n <= |m|
    ensures Size(m + [doc], n, header, docSize) == Size(m, n, header, docSize)
  {
    if n > 0 { SizeOfPrefix(m, doc, n - 1, header, docSize); }
  }

  lemma PackedPush(m: Message, doc: int, header: nat, docSize: int -> nat, limit: nat)
    requires m == [] || (Packed(m, header, docSize, limit) && Size(m, |m|, header, docSize) <= limit)
    ensures Packed(m + [doc], header, docSize, limit)
    ensures Size(m + [doc], |m| + 1, header, docSize) == Size(m, |m|, header, docSize) + docSize(doc)
  {
    var more := m + [doc];
    SizeOfPrefix(m, doc, |m|, header, docSize);
    forall k | 1 <= k < |more| ensures Size(more, k, header, docSize) <= limit {
      SizeOfPrefix(m, doc, k, header, docSize);
    }
  }

  /** The inner loop: one message, from document `start` on. */
  method FillMessage(list: seq<int>, start: nat, header: nat, docSize: int -> nat, maxsize: nat)
    returns (om: Message, cur: nat)
    requires start < |list|
    ensures start < cur <= |list| && om == list[start..cur] && Packed(om, header, docSize, 2 * maxsize)
    ensures cur < |list| ==> Size(om, |om|, header, docSize) > 2 * maxsize
  {
    om, cur := [], start;
    var size := header;
    while cur < |list|
      invariant start <= cur <= |list| && om == list[start..cur] && size == Size(om, |om|, header, docSize)
      invariant om == [] || (Packed(om, header, docSize, 2 * maxsize) && size <= 2 * maxsize)
    {
      PackedPush(om, list[cur], header, docSize, 2 * maxsize);
      om := om + [list[cur]];
      size := size + docSize(list[cur]);
      cur := cur + 1;
      if size > 2 * maxsize {
        break;
      }
    }
  }

  /** Every document is sent once, in order, in messages that go out as soon as they pass the limit. */
  method InsertWithWriteProtocol(list: seq<int>, header: nat, docSize: int -> nat, maxsize: nat)
    returns (messages: seq<Message>)
    ensures Concat(messages) == list
    ensures forall k :: 0 <= k < |messages| ==> Packed(messages[k], header, docSize, 2 * maxsize)
    ensures forall k :: 0 <= k < |messages| - 1 ==> Size(messages[k], |messages[k]|, header, docSize) > 2 * maxsize
  {
    messages := [];
    var cur := 0;
    while cur < |list|
      invariant cur <= |list| && Concat(messages) == list[..cur]
      invariant forall k :: 0 <= k < |messages| ==> Packed(messages[k], header, docSize, 2 * maxsize)
      invariant forall k :: 0 <= k < |messages| - (if cur < |list| then 0 else 1) ==>
                  Size(messages[k], |messages[k]|, header, docSize) > 2 * maxsize
    {
      var om, next := FillMessage(list, cur, header, docSize, maxsize);
      assert (messages + [om])[..|messages|] == messages;
      assert list[..next] == list[..cur] + list[cur..next];
      messages := messages + [om];
      cur := next;
    }
    assert list[..cur] == list;
  }
}
