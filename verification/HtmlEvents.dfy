/** Element tables, parser events, and what it means for events and for written tags to be well nested: the
    elements that are left open, the events that close them, and the shape a stack of them keeps. */
module HtmlEvents {
  import opened Options

  /** The element tables. The first five are looked up for a truthy value, so every one of them also
      contains the one lower-case name that a plain object inherits, "constructor"; `valid` is compared
      with `true` and does not. */
  datatype Tables = Tables(
    voidElements: set<string>,
    optionalEndTagElements: set<string>,
    blockElements: set<string>,
    inlineElements: set<string>,
    specialElements: set<string>,
    validElements: set<string>)

  datatype Event =
    | Start(tag: string, attrs: string, unary: bool)
    | End(tag: string)
    | Chars(text: string)
    | Comment(text: string)

  function Last(stack: seq<string>): string {
    if stack == [] then "" else stack[|stack| - 1]
  }

  /** Inside a script or style element. */
  predicate InSpecial(tables: Tables, stack: seq<string>) {
    stack != [] && Last(stack) in tables.specialElements
  }

  /** The open elements after one more event; `None` when the event does not nest: an end tag that is not
      the innermost open element's, or a start tag inside a script or style element. */
  function ReplayOne(tables: Tables, stack: seq<string>, e: Event): Option<seq<string>> {
    match e
    case Start(tag, _, unary) =>
      if InSpecial(tables, stack) then None else Some(if unary then stack else stack + [tag])
    case End(tag) => if stack != [] && Last(stack) == tag then Some(stack[..|stack| - 1]) else None
    case Chars(_) => Some(stack)
    case Comment(_) => Some(stack)
  }

  function Replay(tables: Tables, events: seq<Event>): Option<seq<string>> {
    if events == [] then Some([])
    else
      match Replay(tables, events[..|events| - 1])
      case None => None
      case Some(stack) => ReplayOne(tables, stack, events[|events| - 1])
  }

  lemma ReplayPush(tables: Tables, events: seq<Event>, e: Event)
    requires Replay(tables, events).Some?
    ensures Replay(tables, events + [e]) == ReplayOne(tables, Replay(tables, events).value, e)
  {
    assert (events + [e])[..|events|] == events;
  }

  /** The end events that close the elements above position `pos`, innermost first. */
  function Closing(stack: seq<string>, pos: nat): seq<Event>
    requires pos <= |stack|
    decreases |stack| - pos
  {
    if pos == |stack| then [] else Closing(stack, pos + 1) + [End(stack[pos])]
  }

  lemma {:induction false} ReplayClosing(tables: Tables, events: seq<Event>, stack: seq<string>, pos: nat)
    requires pos <= |stack| && Replay(tables, events) == Some(stack)
    ensures Replay(tables, events + Closing(stack, pos)) == Some(stack[..pos])
    decreases |stack| - pos
  {
    if pos == |stack| {
      assert events + [] == events && stack[..pos] == stack;
    } else {
      ReplayClosing(tables, events, stack, pos + 1);
      var more := events + Closing(stack, pos + 1);
      ReplayPush(tables, more, End(stack[pos]));
      assert events + Closing(stack, pos) == more + [End(stack[pos])];
      assert stack[..pos + 1][..pos] == stack[..pos];
    }
  }

  /** The shape of the stack of open elements: no block element directly on an inline one, no element with
      an optional end tag directly on its twin, and nothing on a script or style element. */
  predicate Shape(tables: Tables, stack: seq<string>) {
    forall k {:trigger stack[k]} :: 0 < k < |stack| ==> MayHold(tables, stack[k - 1], stack[k])
  }

  predicate MayHold(tables: Tables, lower: string, upper: string) {
    && !(upper in tables.blockElements && lower in tables.inlineElements)
    && !(upper in tables.optionalEndTagElements && lower == upper)
    && lower !in tables.specialElements
  }

  // ---- what the writer puts out ----

  datatype Out = Open(tag: string) | SelfClosed(tag: string) | Close(tag: string) | Text(text: string)

  /** The tags open after one more output; `None` when a tag closes that is not the innermost. */
  function TagOne(open: seq<string>, o: Out): Option<seq<string>> {
    match o
    case Open(tag) => Some(open + [tag])
    case SelfClosed(_) => Some(open)
    case Close(tag) => if open != [] && Last(open) == tag then Some(open[..|open| - 1]) else None
    case Text(_) => Some(open)
  }

  /** The tags open after some output that starts with some tags open. */
  function TagsAfter(open: seq<string>, out: seq<Out>): Option<seq<string>> {
    if out == [] then Some(open)
    else
      match TagsAfter(open, out[..|out| - 1])
      case None => None
      case Some(stack) => TagOne(stack, out[|out| - 1])
  }

  /** The tags open after some output; `None` when it is not well nested. */
  function OpenTags(out: seq<Out>): Option<seq<string>> {
    TagsAfter([], out)
  }

  lemma OpenTagsPush(out: seq<Out>, o: Out)
    requires OpenTags(out).Some?
    ensures OpenTags(out + [o]) == TagOne(OpenTags(out).value, o)
  {
    assert (out + [o])[..|out|] == out;
  }

  lemma {:induction false} TagsConcat(open: seq<string>, a: seq<Out>, b: seq<Out>)
    ensures TagsAfter(open, a + b) ==
      match TagsAfter(open, a)
      case None => None
      case Some(stack) => TagsAfter(stack, b)
  {
    if b == [] {
      assert a + b == a;
    } else {
      var init := b[..|b| - 1];
      TagsConcat(open, a, init);
      assert (a + b)[..|a + b| - 1] == a + init;
    }
  }

  lemma TagOneInjective(u: seq<string>, v: seq<string>, o: Out)
    requires TagOne(u, o).Some? && TagOne(u, o) == TagOne(v, o)
    ensures u == v
  {
    match o
    case Open(tag) => assert (u + [tag])[..|u|] == u && (v + [tag])[..|v|] == v;
    case Close(tag) => assert u == u[..|u| - 1] + [tag] && v == v[..|v| - 1] + [tag];
    case SelfClosed(_) =>
    case Text(_) =>
  }

  /** The same output cannot lead from different open tags to the same ones. */
  lemma {:induction false} TagsInjective(u: seq<string>, v: seq<string>, out: seq<Out>)
    requires TagsAfter(u, out).Some? && TagsAfter(u, out) == TagsAfter(v, out)
    ensures u == v
  {
    if out != [] {
      var init, o := out[..|out| - 1], out[|out| - 1];
      TagOneInjective(TagsAfter(u, init).value, TagsAfter(v, init).value, o);
      TagsInjective(u, v, init);
    }
  }
}
