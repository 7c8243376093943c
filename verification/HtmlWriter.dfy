/** `htmlSanitizeWriter`: valid tags and their text. */
module HtmlWriter {
  import opened Options
  import opened HtmlEvents

  /** The writer's state: the special element being ignored, and what is written. */
  datatype Written = Written(ignore: Option<string>, out: seq<Out>)

  /** The writer on one event. Start tags are written with their attributes left aside. */
  function WriteOne(tables: Tables, w: Written, e: Event): Written {
    match e
    case Start(tag, _, unary) =>
      var ignore := if w.ignore == None && tag in tables.specialElements then Some(tag) else w.ignore;
      Written(ignore, if ignore == None && tag in tables.validElements
                      then w.out + [if unary then SelfClosed(tag) else Open(tag)] else w.out)
    case End(tag) =>
      Written(if w.ignore == Some(tag) then None else w.ignore,
              if w.ignore == None && tag in tables.validElements then w.out + [Close(tag)] else w.out)
    case Chars(text) => if w.ignore == None then w.(out := w.out + [Text(text)]) else w
    case Comment(_) => w
  }

  function Write(tables: Tables, events: seq<Event>): Written {
    if events == [] then Written(None, [])
    else WriteOne(tables, Write(tables, events[..|events| - 1]), events[|events| - 1])
  }

  lemma WritePush(tables: Tables, events: seq<Event>, e: Event)
    ensures Write(tables, events + [e]) == WriteOne(tables, Write(tables, events), e)
  {
    assert (events + [e])[..|events|] == events;
  }

  class SanitizeWriter {
    const tables: Tables
    var ignore: Option<string>
    var buf: seq<Out>

    constructor (tables: Tables)
      ensures this.tables == tables && State() == Written(None, [])
    {
      this.tables := tables;
      ignore, buf := None, [];
    }

    function State(): Written
      reads this
    {
      Written(ignore, buf)
    }

    method Start(tag: string, attrs: string, unary: bool)
      modifies this
      ensures State() == WriteOne(tables, old(State()), Event.Start(tag, attrs, unary))
    {
      if ignore == None && tag in tables.specialElements {
        ignore := Some(tag);
      }
      if ignore == None && tag in tables.validElements {
        if unary {
          buf := buf + [SelfClosed(tag)];
        } else {
          buf := buf + [Open(tag)];
        }
      }
    }

    method End(tag: string)
      modifies this
      ensures State() == WriteOne(tables, old(State()), Event.End(tag))
    {
      if ignore == None && tag in tables.validElements {
        buf := buf + [Close(tag)];
      }
      if ignore == Some(tag) {
        ignore := None;
      }
    }

    method Chars(chars: string)
      modifies this
      ensures State() == WriteOne(tables, old(State()), Event.Chars(chars))
    {
      if ignore == None {
        buf := buf + [Text(chars)];
      }
    }
  }

  // ---- the writer's tags are well nested ----

  predicate NoUnarySpecial(tables: Tables, events: seq<Event>) {
    forall k :: 0 <= k < |events| && events[k].Start? && events[k].unary ==> events[k].tag !in tables.specialElements
  }

  /** The open elements whose tags are written: the valid ones, without a special one. */
  function Shown(tables: Tables, stack: seq<string>): seq<string> {
    if stack == [] then []
    else
      var top := Last(stack);
      Shown(tables, stack[..|stack| - 1]) +
      (if top in tables.validElements && top !in tables.specialElements then [top] else [])
  }

  /** What the writer has done for nested events: it ignores exactly while a special element is open, and
      the tags open in its output are the shown elements. */
  ghost predicate Follows(tables: Tables, stack: seq<string>, w: Written) {
    && w.ignore == (if InSpecial(tables, stack) then Some(Last(stack)) else None)
    && OpenTags(w.out) == Some(Shown(tables, stack))
  }

  lemma ShownPush(tables: Tables, stack: seq<string>, tag: string)
    ensures Shown(tables, stack + [tag]) ==
            Shown(tables, stack) + (if tag in tables.validElements && tag !in tables.specialElements then [tag] else [])
  {
    var more := stack + [tag];
    assert more[..|stack|] == stack && Last(more) == tag;
  }

  /** Special elements sit only on top of the stack. */
  predicate SpecialOnTop(tables: Tables, stack: seq<string>) {
    forall k :: 0 <= k < |stack| - 1 ==> stack[k] !in tables.specialElements
  }

  lemma StartFollows(tables: Tables, stack: seq<string>, w: Written, tag: string, attrs: string, unary: bool)
    requires Follows(tables, stack, w) && SpecialOnTop(tables, stack) && !InSpecial(tables, stack)
    requires unary ==> tag !in tables.specialElements
    ensures
      var stack' := if unary then stack else stack + [tag];
      SpecialOnTop(tables, stack') && Follows(tables, stack', WriteOne(tables, w, Start(tag, attrs, unary)))
  {
    OpenTagsPush(w.out, if unary then SelfClosed(tag) else Open(tag));
    ShownPush(tables, stack, tag);
    assert Shown(tables, stack) + [] == Shown(tables, stack);
  }

  lemma LessIsPlain(tables: Tables, less: seq<string>, tag: string)
    requires SpecialOnTop(tables, less + [tag])
    ensures SpecialOnTop(tables, less) && !InSpecial(tables, less) && Last(less + [tag]) == tag
  {
    var stack := less + [tag];
    assert forall k :: 0 <= k < |less| ==> less[k] == stack[k];
  }

  lemma CloseShown(out: seq<Out>, shown: seq<string>, tag: string)
    requires OpenTags(out) == Some(shown + [tag])
    ensures OpenTags(out + [Close(tag)]) == Some(shown)
  {
    OpenTagsPush(out, Close(tag));
    assert (shown + [tag])[..|shown|] == shown;
  }

  /** `stack` is `less` with an element on top. */
  lemma EndFollows(tables: Tables, stack: seq<string>, less: seq<string>, w: Written, tag: string)
    requires stack == less + [tag] && Follows(tables, stack, w) && SpecialOnTop(tables, stack)
    ensures SpecialOnTop(tables, less) && Follows(tables, less, WriteOne(tables, w, End(tag)))
  {
    var shown := Shown(tables, less);
    ShownPush(tables, less, tag);
    LessIsPlain(tables, less, tag);
    if tag in tables.validElements && tag !in tables.specialElements {
      CloseShown(w.out, shown, tag);
    } else {
      assert Shown(tables, stack) == shown + [] == shown;
    }
  }

  lemma WriteOneFollows(tables: Tables, stack: seq<string>, w: Written, e: Event)
    requires Follows(tables, stack, w) && SpecialOnTop(tables, stack) && ReplayOne(tables, stack, e).Some?
    requires e.Start? && e.unary ==> e.tag !in tables.specialElements
    ensures
      var stack' := ReplayOne(tables, stack, e).value;
      SpecialOnTop(tables, stack') && Follows(tables, stack', WriteOne(tables, w, e))
  {
    match e
    case Start(tag, attrs, unary) => StartFollows(tables, stack, w, tag, attrs, unary);
    case End(tag) =>
      var less := stack[..|stack| - 1];
      assert stack == less + [tag];
      EndFollows(tables, stack, less, w, tag);
    case Chars(text) => OpenTagsPush(w.out, Text(text));
    case Comment(_) =>
  }

  lemma {:induction false} WriteFollows(tables: Tables, events: seq<Event>)
    requires Replay(tables, events).Some? && NoUnarySpecial(tables, events)
    ensures
      var stack := Replay(tables, events).value;
      SpecialOnTop(tables, stack) && Follows(tables, stack, Write(tables, events))
  {
    if events != [] {
      var init := events[..|events| - 1];
      WriteFollows(tables, init);
      WriteOneFollows(tables, Replay(tables, init).value, Write(tables, init), events[|events| - 1]);
    }
  }

  /** Main result: for events that nest and close, with no special tag closed on the spot, the written tags
      nest and close too. */
  lemma OutputIsWellNested(tables: Tables, events: seq<Event>)
    requires Replay(tables, events) == Some([]) && NoUnarySpecial(tables, events)
    ensures OpenTags(Write(tables, events).out) == Some([])
  {
    WriteFollows(tables, events);
  }

  /** While the writer ignores, it stays as it is until the element it ignores ends. */
  lemma {:induction false} NothingWritten(tables: Tables, events: seq<Event>, more: seq<Event>, special: string)
    requires Write(tables, events).ignore == Some(special)
    requires forall k :: 0 <= k < |more| ==> more[k] != End(special)
    ensures Write(tables, events + more) == Write(tables, events)
  {
    if more == [] {
      assert events + more == events;
    } else {
      var before, e := more[..|more| - 1], more[|more| - 1];
      NothingWritten(tables, events, before, special);
      WritePush(tables, events + before, e);
      assert events + more == (events + before) + [e];
    }
  }

  /** What a special tag closed on the spot does if its name is never closed afterwards: nothing more is written,
      so the output closes exactly if no element that is written was open there. */
  lemma UnarySpecialExact(tables: Tables, before: seq<Event>, special: string, attrs: string, after: seq<Event>)
    requires Replay(tables, before).Some? && NoUnarySpecial(tables, before)
    requires !InSpecial(tables, Replay(tables, before).value) && special in tables.specialElements
    requires forall k :: 0 <= k < |after| ==> after[k] != End(special)
    ensures
      var out := Write(tables, before + [Start(special, attrs, true)] + after).out;
      var open := Shown(tables, Replay(tables, before).value);
      OpenTags(out) == Some(open) && (OpenTags(out) == Some([]) <==> open == [])
  {
    WriteFollows(tables, before);
    DroppedForGood(tables, before, special, attrs, after);
  }

  /** Whatever was dropped before, such a tag ends the output. */
  lemma DroppedForGood(tables: Tables, before: seq<Event>, special: string, attrs: string, after: seq<Event>)
    requires Write(tables, before).ignore == None && special in tables.specialElements
    requires forall k :: 0 <= k < |after| ==> after[k] != End(special)
    ensures
      var w := Write(tables, before + [Start(special, attrs, true)] + after);
      w == Written(Some(special), Write(tables, before).out)
  {
    WritePush(tables, before, Start(special, attrs, true));
    NothingWritten(tables, before + [Start(special, attrs, true)], after, special);
  }

  // ---- when writing resumes ----

  /** The writer over some events, from a state of its own. */
  function WriteFrom(tables: Tables, w: Written, events: seq<Event>): Written {
    if events == [] then w else WriteOne(tables, WriteFrom(tables, w, events[..|events| - 1]), events[|events| - 1])
  }

  lemma {:induction false} WriteSplit(tables: Tables, a: seq<Event>, b: seq<Event>)
    ensures Write(tables, a + b) == WriteFrom(tables, Write(tables, a), b)
  {
    if b == [] {
      assert a + b == a;
    } else {
      var init, e := b[..|b| - 1], b[|b| - 1];
      var more := a + init;
      WriteSplit(tables, a, init);
      WritePush(tables, more, e);
      assert a + b == more + [e];
    }
  }

  /** What the writer writes for some events, which depends only on what it ignores. */
  function Word(tables: Tables, ignore: Option<string>, events: seq<Event>): Written {
    WriteFrom(tables, Written(ignore, []), events)
  }

  lemma WriteOneWord(tables: Tables, ignore: Option<string>, a: seq<Out>, b: seq<Out>, e: Event)
    ensures
      var w := WriteOne(tables, Written(ignore, b), e);
      WriteOne(tables, Written(ignore, a + b), e) == Written(w.ignore, a + w.out)
  {
  }

  lemma {:induction false} WriteFromWord(tables: Tables, w: Written, events: seq<Event>)
    ensures
      var word := Word(tables, w.ignore, events);
      WriteFrom(tables, w, events) == Written(word.ignore, w.out + word.out)
  {
    if events == [] {
      assert w.out + [] == w.out;
    } else {
      var init := events[..|events| - 1];
      var word := Word(tables, w.ignore, init);
      WriteFromWord(tables, w, init);
      WriteOneWord(tables, word.ignore, w.out, word.out, events[|events| - 1]);
    }
  }

  lemma {:induction false} ReplaySpecialOnTop(tables: Tables, events: seq<Event>)
    requires Replay(tables, events).Some?
    ensures SpecialOnTop(tables, Replay(tables, events).value)
  {
    if events != [] { ReplaySpecialOnTop(tables, events[..|events| - 1]); }
  }

  /** From a state that follows the events so far, the writer goes on following. */
  lemma {:induction false} FollowsOn(tables: Tables, soFar: seq<Event>, w: Written, more: seq<Event>)
    requires Replay(tables, soFar).Some? && Follows(tables, Replay(tables, soFar).value, w)
    requires Replay(tables, soFar + more).Some? && NoUnarySpecial(tables, more)
    ensures Follows(tables, Replay(tables, soFar + more).value, WriteFrom(tables, w, more))
  {
    if more == [] {
      assert soFar + more == soFar;
    } else {
      var init, e := more[..|more| - 1], more[|more| - 1];
      assert (soFar + more)[..|soFar + more| - 1] == soFar + init;
      FollowsOn(tables, soFar, w, init);
      ReplaySpecialOnTop(tables, soFar + init);
      WriteOneFollows(tables, Replay(tables, soFar + init).value, WriteFrom(tables, w, init), e);
    }
  }

  /** Start tags that leave some tags open. */
  function Opening(tags: seq<string>): seq<Out> {
    if tags == [] then [] else Opening(tags[..|tags| - 1]) + [Open(tags[|tags| - 1])]
  }

  lemma {:induction false} OpeningOpens(tags: seq<string>)
    ensures OpenTags(Opening(tags)) == Some(tags)
  {
    if tags != [] {
      var init, tag := tags[..|tags| - 1], tags[|tags| - 1];
      OpeningOpens(init);
      OpenTagsPush(Opening(init), Open(tag));
      assert Opening(tags) == Opening(init) + [Open(tag)];
      assert tags == init + [tag];
    }
  }

  // ---- what is dropped, said of the events ----

  /** The special element whose span the events end in: it begins with a start tag of the element and ends with the next
      end tag of that name. */
  function Dropping(tables: Tables, events: seq<Event>): Option<string> {
    if events == [] then None
    else
      var before, e := Dropping(tables, events[..|events| - 1]), events[|events| - 1];
      if before == None && e.Start? && e.tag in tables.specialElements then Some(e.tag)
      else if e.End? && before == Some(e.tag) then None
      else before
  }

  /** The events outside such spans. */
  function Outside(tables: Tables, events: seq<Event>): seq<Event> {
    if events == [] then []
    else
      var init := events[..|events| - 1];
      Outside(tables, init) +
      (if Dropping(tables, init) == None && Dropping(tables, events) == None then [events[|events| - 1]] else [])
  }

  /** The valid elements open after some events; `None` when one closes that is not the innermost. */
  function OpenAfter(tables: Tables, events: seq<Event>): Option<seq<string>> {
    if events == [] then Some([])
    else
      var e := events[|events| - 1];
      match OpenAfter(tables, events[..|events| - 1])
      case None => None
      case Some(open) =>
        if !(e.Start? || e.End?) || e.tag !in tables.validElements then Some(open)
        else if e.Start? then Some(if e.unary then open else open + [e.tag])
        else if open != [] && Last(open) == e.tag then Some(open[..|open| - 1])
        else None
  }

  lemma OpenAfterPush(tables: Tables, events: seq<Event>, e: Event)
    ensures OpenAfter(tables, events + [e]) ==
      match OpenAfter(tables, events)
      case None => None
      case Some(open) =>
        if !(e.Start? || e.End?) || e.tag !in tables.validElements then Some(open)
        else if e.Start? then Some(if e.unary then open else open + [e.tag])
        else if open != [] && Last(open) == e.tag then Some(open[..|open| - 1])
        else None
  {
    assert (events + [e])[..|events|] == events;
  }

  /** The tags open in the output are the valid elements left open by the events outside the spans. */
  lemma {:induction false} WrittenIsOutside(tables: Tables, events: seq<Event>)
    ensures Write(tables, events).ignore == Dropping(tables, events)
    ensures OpenTags(Write(tables, events).out) == OpenAfter(tables, Outside(tables, events))
  {
    if events != [] {
      var init, e := events[..|events| - 1], events[|events| - 1];
      WrittenIsOutside(tables, init);
      OneIsOutside(tables, Write(tables, init), e, Outside(tables, init));
      assert Outside(tables, init) + [] == Outside(tables, init);
    }
  }

  /** What is put out for an event that is not dropped: the tags of valid elements, and text. */
  function OutOf(tables: Tables, e: Event): seq<Out> {
    match e
    case Start(tag, _, unary) =>
      if tag in tables.validElements then [if unary then SelfClosed(tag) else Open(tag)] else []
    case End(tag) => if tag in tables.validElements then [Close(tag)] else []
    case Chars(text) => [Text(text)]
    case Comment(_) => []
  }

  function Rendition(tables: Tables, events: seq<Event>): seq<Out> {
    if events == [] then [] else Rendition(tables, events[..|events| - 1]) + OutOf(tables, events[|events| - 1])
  }

  lemma RenditionPush(tables: Tables, events: seq<Event>, e: Event)
    ensures Rendition(tables, events + [e]) == Rendition(tables, events) + OutOf(tables, e)
  {
    assert (events + [e])[..|events|] == events;
  }

  /** Main result for what is written: exactly the events outside the dropped spans, text and tags alike, each at its
      place. */
  lemma {:induction false} OutputIsOutside(tables: Tables, events: seq<Event>)
    ensures Write(tables, events).out == Rendition(tables, Outside(tables, events))
  {
    if events != [] {
      var init, e := events[..|events| - 1], events[|events| - 1];
      OutputIsOutside(tables, init);
      WrittenIsOutside(tables, init);
      WrittenIsOutside(tables, events);
      OneRendered(tables, Write(tables, init), e, Outside(tables, init));
      assert Outside(tables, init) + [] == Outside(tables, init);
    }
  }

  lemma OneRendered(tables: Tables, w: Written, e: Event, outside: seq<Event>)
    requires w.out == Rendition(tables, outside)
    ensures
      var next := WriteOne(tables, w, e);
      var more := if w.ignore == None && next.ignore == None then outside + [e] else outside;
      next.out == Rendition(tables, more)
  {
    RenditionPush(tables, outside, e);
    assert w.out + [] == w.out;
  }

  /** The events that are neither inside a script or style element nor its tags. */
  function Unhidden(tables: Tables, events: seq<Event>): seq<Event> {
    if events == [] then []
    else
      var init, e := events[..|events| - 1], events[|events| - 1];
      var hidden :=
        || Replay(tables, init).None? || InSpecial(tables, Replay(tables, init).value)
        || (e.Start? && e.tag in tables.specialElements);
      Unhidden(tables, init) + (if hidden then [] else [e])
  }

  /** Main result for nested events with no special tag closed on the spot: what is written is exactly the text and the
      valid tags reported outside script and style elements, each at its place. */
  lemma OutputIsUnhidden(tables: Tables, events: seq<Event>)
    requires Replay(tables, events).Some? && NoUnarySpecial(tables, events)
    ensures Write(tables, events).out == Rendition(tables, Unhidden(tables, events))
  {
    OutputIsOutside(tables, events);
    OutsideIsUnhidden(tables, events);
  }

  lemma {:induction false} OutsideIsUnhidden(tables: Tables, events: seq<Event>)
    requires Replay(tables, events).Some? && NoUnarySpecial(tables, events)
    ensures Outside(tables, events) == Unhidden(tables, events)
  {
    if events != [] {
      var init := events[..|events| - 1];
      OutsideIsUnhidden(tables, init);
      WriteFollows(tables, init);
      WriteFollows(tables, events);
      WrittenIsOutside(tables, init);
      WrittenIsOutside(tables, events);
    }
  }

  lemma OneIsOutside(tables: Tables, w: Written, e: Event, outside: seq<Event>)
    requires OpenTags(w.out) == OpenAfter(tables, outside)
    ensures
      var next := WriteOne(tables, w, e);
      var more := if w.ignore == None && next.ignore == None then outside + [e] else outside;
      OpenTags(next.out) == OpenAfter(tables, more)
  {
    var next := WriteOne(tables, w, e);
    OpenAfterPush(tables, outside, e);
    if next.out != w.out {
      var o := next.out[|next.out| - 1];
      assert next.out == w.out + [o];
      TagsConcat([], w.out, [o]);
      TagsOne(o);
    }
  }

  lemma TagsOne(o: Out)
    ensures forall open :: TagsAfter(open, [o]) == TagOne(open, o)
  {
    assert [o][..0] == [];
  }

  /** Wherever no span is open, whatever was dropped before: if no self-closed special tag follows, the whole output
      closes exactly if the valid elements left open by the events outside the spans are the shown ones of the open
      elements. */
  lemma ResumeExact(tables: Tables, soFar: seq<Event>, after: seq<Event>)
    requires Replay(tables, soFar).Some? && !InSpecial(tables, Replay(tables, soFar).value)
    requires Dropping(tables, soFar) == None
    requires Replay(tables, soFar + after) == Some([]) && NoUnarySpecial(tables, after)
    ensures
      OpenTags(Write(tables, soFar + after).out) == Some([])
      <==> OpenAfter(tables, Outside(tables, soFar)) == Some(Shown(tables, Replay(tables, soFar).value))
  {
    WrittenIsOutside(tables, soFar);
    ResumesWhere(tables, soFar, after);
  }

  /** The same, said of the tags open in the output. */
  lemma ResumesWhere(tables: Tables, soFar: seq<Event>, after: seq<Event>)
    requires Replay(tables, soFar).Some? && !InSpecial(tables, Replay(tables, soFar).value)
    requires Write(tables, soFar).ignore == None
    requires Replay(tables, soFar + after) == Some([]) && NoUnarySpecial(tables, after)
    ensures
      OpenTags(Write(tables, soFar + after).out) == Some([])
      <==> OpenTags(Write(tables, soFar).out) == Some(Shown(tables, Replay(tables, soFar).value))
  {
    var shown, w := Shown(tables, Replay(tables, soFar).value), Write(tables, soFar);
    var word, clean := Word(tables, None, after).out, Opening(shown);
    OpeningOpens(shown);
    FollowsOn(tables, soFar, Written(None, clean), after);
    WriteFromWord(tables, Written(None, clean), after);
    TagsConcat([], clean, word);
    assert TagsAfter(shown, word) == Some([]);
    WriteSplit(tables, soFar, after);
    WriteFromWord(tables, w, after);
    TagsConcat([], w.out, word);
    if OpenTags(w.out).Some? && TagsAfter(OpenTags(w.out).value, word) == Some([]) {
      TagsInjective(OpenTags(w.out).value, shown, word);
    }
  }

  /** A self-closed special tag whose name is closed later on: what is in between is dropped, and the output closes
      exactly if the same written elements are open before and after. */
  lemma DroppedBetweenExact(tables: Tables, before: seq<Event>, special: string, attrs: string, mid: seq<Event>,
                            after: seq<Event>)
    requires special in tables.specialElements && NoUnarySpecial(tables, before) && NoUnarySpecial(tables, after)
    requires forall k :: 0 <= k < |mid| ==> mid[k] != End(special)
    requires
      var dropped := before + [Start(special, attrs, true)] + mid + [End(special)];
      Replay(tables, before).Some? && Replay(tables, dropped).Some? && Replay(tables, dropped + after) == Some([])
      && !InSpecial(tables, Replay(tables, before).value)
    ensures
      var dropped := before + [Start(special, attrs, true)] + mid + [End(special)];
      OpenTags(Write(tables, dropped + after).out) == Some([])
      <==> Shown(tables, Replay(tables, before).value) == Shown(tables, Replay(tables, dropped).value)
  {
    var first := before + [Start(special, attrs, true)];
    var dropped := first + mid + [End(special)];
    WriteFollows(tables, before);
    WritePush(tables, before, Start(special, attrs, true));
    NothingWritten(tables, first, mid, special);
    WritePush(tables, first + mid, End(special));
    EndLeavesSpecial(tables, first + mid, special);
    ResumesWhere(tables, dropped, after);
  }

  lemma EndLeavesSpecial(tables: Tables, events: seq<Event>, tag: string)
    requires Replay(tables, events + [End(tag)]).Some?
    ensures !InSpecial(tables, Replay(tables, events + [End(tag)]).value)
  {
    assert (events + [End(tag)])[..|events|] == events;
    ReplaySpecialOnTop(tables, events);
  }

  /** The condition is needed: a special tag closed on the spot inside a valid element makes the writer drop
      that element's end tag. */
  lemma UnarySpecialBreaksNesting(tables: Tables, special: string, valid: string)
    requires special in tables.specialElements && valid in tables.validElements && valid !in tables.specialElements
    ensures
      var events := [Start(valid, "", false), Start(special, "", true), End(valid)];
      Replay(tables, events) == Some([]) && OpenTags(Write(tables, events).out) == Some([valid])
  {
    var e1, e2, e3 := Start(valid, "", false), Start(special, "", true), End(valid);
    OneOpen(tables, valid, e1);
    ReplayPush(tables, [e1], e2);
    ReplayPush(tables, [e1, e2], e3);
    assert [e1] + [e2] == [e1, e2] && [e1, e2] + [e3] == [e1, e2, e3];
    UnarySpecialExact(tables, [e1], special, "", [e3]);
  }

  lemma OneOpen(tables: Tables, valid: string, e: Event)
    requires valid in tables.validElements && valid !in tables.specialElements && e == Start(valid, "", false)
    ensures Replay(tables, [e]) == Some([valid]) && Shown(tables, [valid]) == [valid]
  {
    ReplayPush(tables, [], e);
    ShownPush(tables, [], valid);
    assert [] + [e] == [e] && [] + [valid] == [valid];
  }
}
