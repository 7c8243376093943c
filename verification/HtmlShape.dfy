/** The shape of the open elements at every moment of a run. */
module HtmlShape {
  import opened Options
  import opened HtmlEvents
  import opened HtmlRules
  import opened HtmlParser

  /** The events nest, and what they leave open has its shape. */
  ghost predicate IsShaped(tables: Tables, events: seq<Event>) {
    Replay(tables, events).Some? && Shape(tables, Replay(tables, events).value)
  }

  /** That holds after each of `more`. */
  ghost predicate StaysShaped(tables: Tables, before: seq<Event>, more: seq<Event>) {
    forall n :: 0 <= n <= |more| ==> IsShaped(tables, before + more[..n])
  }

  lemma StaysConcat(tables: Tables, before: seq<Event>, a: seq<Event>, b: seq<Event>)
    requires StaysShaped(tables, before, a) && StaysShaped(tables, before + a, b)
    ensures StaysShaped(tables, before, a + b)
  {
    forall n | 0 <= n <= |a + b| ensures IsShaped(tables, before + (a + b)[..n]) {
      if n <= |a| {
        assert (a + b)[..n] == a[..n];
      } else {
        assert before + (a + b)[..n] == (before + a) + b[..n - |a|];
      }
    }
  }

  lemma StaysPush(tables: Tables, before: seq<Event>, e: Event, stack: seq<string>)
    requires IsShaped(tables, before) && Shape(tables, stack)
    requires ReplayOne(tables, Replay(tables, before).value, e) == Some(stack)
    ensures StaysShaped(tables, before, [e]) && Replay(tables, before + [e]) == Some(stack)
  {
    ReplayPush(tables, before, e);
    assert [e][..0] == [] && [e][..1] == [e] && before + [] == before;
  }

  lemma {:induction false} StaysClosing(tables: Tables, before: seq<Event>, stack: seq<string>, pos: nat)
    requires pos <= |stack| && Replay(tables, before) == Some(stack) && Shape(tables, stack)
    ensures StaysShaped(tables, before, Closing(stack, pos))
    ensures Replay(tables, before + Closing(stack, pos)) == Some(stack[..pos]) && Shape(tables, stack[..pos])
    decreases |stack| - pos
  {
    ReplayClosing(tables, before, stack, pos);
    PrefixKeepsShape(tables, stack, pos);
    if pos == |stack| {
      assert before + [] == before;
    } else {
      var more := Closing(stack, pos + 1);
      StaysClosing(tables, before, stack, pos + 1);
      assert stack[..pos + 1][..pos] == stack[..pos];
      StaysPush(tables, before + more, End(stack[pos]), stack[..pos]);
      StaysConcat(tables, before, more, [End(stack[pos])]);
    }
  }

  /** Text and comments change nothing. */
  lemma StaysText(tables: Tables, before: seq<Event>, stack: seq<string>, e: Event)
    requires Replay(tables, before) == Some(stack) && Shape(tables, stack) && (e.Chars? || e.Comment?)
    ensures StaysShaped(tables, before, [e]) && Replay(tables, before + [e]) == Some(stack)
  {
    StaysPush(tables, before, e, stack);
  }

  lemma StaysStart(tables: Tables, before: seq<Event>, stack: seq<string>, tag: string, attrs: string, unary: bool)
    requires Replay(tables, before) == Some(stack) && Shape(tables, stack) && !InSpecial(tables, stack)
    ensures
      var kept := KeptUnder(tables, stack, tag);
      var events := Closing(stack, kept) + [Start(tag, attrs, unary)];
      var after := stack[..kept] + (if unary then [] else [tag]);
      StaysShaped(tables, before, events) && Replay(tables, before + events) == Some(after) && Shape(tables, after)
  {
    var kept := KeptUnder(tables, stack, tag);
    var closing, less := Closing(stack, kept), stack[..kept];
    StartKeepsShape(tables, stack, tag);
    StaysClosing(tables, before, stack, kept);
    assert less + [] == less;
    StaysPush(tables, before + closing, Start(tag, attrs, unary), if unary then less else less + [tag]);
    StaysConcat(tables, before, closing, [Start(tag, attrs, unary)]);
    assert before + (closing + [Start(tag, attrs, unary)]) == before + closing + [Start(tag, attrs, unary)];
  }

  lemma StaysRaw(tables: Tables, before: seq<Event>, stack: seq<string>, text: string)
    requires Replay(tables, before) == Some(stack) && Shape(tables, stack) && stack != []
    ensures
      var pos := |stack| - 1;
      var events := [Chars(text)] + Closing(stack, pos);
      && StaysShaped(tables, before, events) && Replay(tables, before + events) == Some(stack[..pos])
      && Shape(tables, stack[..pos])
  {
    var pos := |stack| - 1;
    StaysText(tables, before, stack, Chars(text));
    StaysClosing(tables, before + [Chars(text)], stack, pos);
    StaysConcat(tables, before, [Chars(text)], Closing(stack, pos));
    assert before + ([Chars(text)] + Closing(stack, pos)) == before + [Chars(text)] + Closing(stack, pos);
  }

  /** The events of a response keep the shape throughout, and it leaves open what they leave open. */
  ghost predicate Answers(tables: Tables, before: seq<Event>, r: Response) {
    && StaysShaped(tables, before, r.events) && Replay(tables, before + r.events) == Some(r.stack)
    && Shape(tables, r.stack)
  }

  lemma NothingAnswers(tables: Tables, before: seq<Event>, stack: seq<string>)
    requires Replay(tables, before) == Some(stack) && Shape(tables, stack)
    ensures Answers(tables, before, Response(stack, []))
  {
    assert before + [] == before;
  }

  /** A piece outside script and style. */
  lemma NextAnswers(tables: Tables, lexer: Lexer, before: seq<Event>, stack: seq<string>, p: Piece)
    requires Replay(tables, before) == Some(stack) && Shape(tables, stack) && !InSpecial(tables, stack)
    requires !p.Raw? && !p.Unended?
    ensures Answers(tables, before, Respond(tables, lexer, stack, p))
  {
    match p
    case Note(text, _) => StaysText(tables, before, stack, Comment(text));
    case Skipped(_) => NothingAnswers(tables, before, stack);
    case Ending(tag, _) => StaysClosing(tables, before, stack, AfterEnd(stack, lexer.lowercase(tag)));
    case Starting(tagName, attrs, unary, _) =>
      var tag := lexer.lowercase(tagName);
      StaysStart(tables, before, stack, tag, attrs, tag in tables.voidElements || unary);
    case Plain(text, _) => StaysText(tables, before, stack, Chars(lexer.decodeEntities(text)));
  }

  /** A piece inside script or style. */
  lemma SpecialAnswers(tables: Tables, lexer: Lexer, before: seq<Event>, stack: seq<string>, p: Piece)
    requires Replay(tables, before) == Some(stack) && Shape(tables, stack) && stack != [] && (p.Raw? || p.Unended?)
    ensures Answers(tables, before, Respond(tables, lexer, stack, p))
  {
    if p.Raw? {
      StaysRaw(tables, before, stack, lexer.decodeEntities(p.text));
    } else {
      StaysClosing(tables, before, stack, |stack| - 1);
    }
  }

  /** A round keeps the shape throughout. */
  lemma RoundStays(tables: Tables, lexer: Lexer, before: seq<Event>, stack: seq<string>, html: string)
    requires lexer.Valid() && Replay(tables, before) == Some(stack) && Shape(tables, stack)
    ensures Answers(tables, before, Respond(tables, lexer, stack, PieceOf(tables, lexer, html, stack)))
  {
    var p := PieceOf(tables, lexer, html, stack);
    if InSpecial(tables, stack) {
      SpecialAnswers(tables, lexer, before, stack, p);
    } else {
      NextAnswers(tables, lexer, before, stack, p);
    }
  }

  lemma {:induction false} RunStays(tables: Tables, lexer: Lexer, before: seq<Event>, stack: seq<string>, html: string)
    requires lexer.Valid() && Replay(tables, before) == Some(stack) && Shape(tables, stack)
    ensures StaysShaped(tables, before, Parsing(tables, lexer, html, stack).events)
    decreases |html|
  {
    if html == "" {
      StaysClosing(tables, before, stack, 0);
    } else {
      var p := PieceOf(tables, lexer, html, stack);
      var r := Respond(tables, lexer, stack, p);
      RoundStays(tables, lexer, before, stack, html);
      if p.rest != html {
        RunStays(tables, lexer, before + r.events, r.stack, p.rest);
        StaysConcat(tables, before, r.events, Parsing(tables, lexer, p.rest, r.stack).events);
      }
    }
  }

  /** Main result: at every moment of every run no block element stands on an inline one, no element with an optional
      end tag on its twin, and nothing on a script or style element. */
  lemma ShapeThroughout(tables: Tables, lexer: Lexer, html: string, n: nat)
    requires lexer.Valid() && n <= |Parsing(tables, lexer, html, []).events|
    ensures IsShaped(tables, Parsing(tables, lexer, html, []).events[..n])
  {
    RunStays(tables, lexer, [], [], html);
    AtMoment(tables, Parsing(tables, lexer, html, []).events, n);
  }

  lemma AtMoment(tables: Tables, events: seq<Event>, n: nat)
    requires StaysShaped(tables, [], events) && n <= |events|
    ensures IsShaped(tables, events[..n])
  {
    assert [] + events[..n] == events[..n];
    assert IsShaped(tables, [] + events[..n]);
  }
}
