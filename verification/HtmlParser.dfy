/** `htmlParser`: a stack machine over tag soup that reports events to a handler. */
module HtmlParser {
  import opened Options
  import opened HtmlEvents
  import opened HtmlWriter
  import opened HtmlRules

  lemma StackOn(tables: Tables, stack: seq<string>, tag: string)
    requires Shape(tables, stack) && (stack != [] ==> MayHold(tables, Last(stack), tag))
    ensures Shape(tables, stack + [tag])
  {
    var more := stack + [tag];
    forall k {:trigger more[k]} | 0 < k < |more| ensures MayHold(tables, more[k - 1], more[k]) {
      if k < |stack| { assert MayHold(tables, stack[k - 1], stack[k]); }
    }
  }

  /** What a start tag keeps open can hold it, and is not a special element. */
  lemma KeptMayHold(tables: Tables, stack: seq<string>, tag: string)
    requires Shape(tables, stack) && !InSpecial(tables, stack)
    ensures
      var pos := KeptUnder(tables, stack, tag);
      pos > 0 ==> MayHold(tables, stack[pos - 1], tag)
  {
    var pos := KeptUnder(tables, stack, tag);
    if 0 < pos < |stack| {
      assert MayHold(tables, stack[pos - 1], stack[pos]);
    }
  }

  /** A start tag put on what it keeps open fits the shape of the stack. */
  lemma StartKeepsShape(tables: Tables, stack: seq<string>, tag: string)
    requires Shape(tables, stack) && !InSpecial(tables, stack)
    ensures
      var kept := stack[..KeptUnder(tables, stack, tag)];
      Shape(tables, kept) && Shape(tables, kept + [tag]) && !InSpecial(tables, kept)
  {
    var pos := KeptUnder(tables, stack, tag);
    PrefixKeepsShape(tables, stack, pos);
    KeptMayHold(tables, stack, tag);
    StackOn(tables, stack[..pos], tag);
  }

  lemma PrefixKeepsShape(tables: Tables, stack: seq<string>, pos: nat)
    requires Shape(tables, stack) && pos <= |stack|
    ensures Shape(tables, stack[..pos])
  {
    forall k {:trigger stack[..pos][k]} | 0 < k < pos ensures MayHold(tables, stack[..pos][k - 1], stack[..pos][k]) {
      assert MayHold(tables, stack[k - 1], stack[k]);
    }
  }

  /** `events` are those before and the closing of `all` down to `stack`; with its top they close one more. */
  lemma CloseOneMore(before: seq<Event>, events: seq<Event>, all: seq<string>, stack: seq<string>, n: nat)
    requires n == |stack| - 1 < |all| && stack == all[..n + 1] && events == before + Closing(all, n + 1)
    ensures events + Closing(stack, n) == before + Closing(all, n) && stack[..n] == all[..n]
  {
    assert Closing(stack, n) == [] + [End(all[n])];
    assert Closing(all, n) == Closing(all, n + 1) + [End(all[n])];
  }

  /** The stack is what the events leave open, it has its shape, and its names are lower-case. */
  ghost predicate Consistent(tables: Tables, lexer: Lexer, events: seq<Event>, stack: seq<string>) {
    && lexer.Valid() && Replay(tables, events) == Some(stack) && Shape(tables, stack)
    && (forall k :: 0 <= k < |stack| ==> IsName(lexer, stack[k]))
  }

  /** A lower-case tag name. */
  ghost predicate IsName(lexer: Lexer, name: string) {
    name != "" && lexer.lowercase(name) == name
  }

  lemma CloseConsistent(tables: Tables, lexer: Lexer, events: seq<Event>, stack: seq<string>, pos: nat)
    requires Consistent(tables, lexer, events, stack) && pos <= |stack|
    ensures Consistent(tables, lexer, events + Closing(stack, pos), stack[..pos])
  {
    ReplayClosing(tables, events, stack, pos);
    PrefixKeepsShape(tables, stack, pos);
  }

  lemma OpenConsistent(tables: Tables, lexer: Lexer, events: seq<Event>, stack: seq<string>, tag: string,
                       attrs: string, unary: bool)
    requires Consistent(tables, lexer, events, stack) && !InSpecial(tables, stack) && IsName(lexer, tag)
    requires Shape(tables, stack + [tag])
    ensures Consistent(tables, lexer, events + [Start(tag, attrs, unary)], if unary then stack else stack + [tag])
  {
    var more := stack + [tag];
    ReplayPush(tables, events, Start(tag, attrs, unary));
    forall k | 0 <= k < |more| ensures IsName(lexer, more[k]) {
      assert k < |stack| ==> IsName(lexer, stack[k]);
    }
  }

  lemma TextConsistent(tables: Tables, lexer: Lexer, events: seq<Event>, stack: seq<string>, e: Event)
    requires Consistent(tables, lexer, events, stack) && (e.Chars? || e.Comment?)
    ensures Consistent(tables, lexer, events + [e], stack)
  {
    ReplayText(tables, events, stack, e);
  }

  lemma ReplayText(tables: Tables, events: seq<Event>, stack: seq<string>, e: Event)
    requires Replay(tables, events) == Some(stack) && (e.Chars? || e.Comment?)
    ensures Replay(tables, events + [e]) == Some(stack)
  {
    ReplayPush(tables, events, e);
  }

  lemma CommentUnwritten(tables: Tables, events: seq<Event>, text: string)
    ensures Write(tables, events + [Comment(text)]) == Write(tables, events)
  {
    WritePush(tables, events, Comment(text));
  }

  lemma ClosestIsTop(stack: seq<string>)
    requires stack != []
    ensures ClosestOpen(stack, Last(stack)) == |stack| - 1
  {
  }

  class Parser {
    const tables: Tables
    const lexer: Lexer
    const handler: SanitizeWriter
    var html: string
    var stack: seq<string>
    /** The events reported so far. */
    ghost var events: seq<Event>

    constructor (tables: Tables, lexer: Lexer, handler: SanitizeWriter, html: string)
      requires lexer.Valid() && handler.tables == tables && handler.State() == Written(None, [])
      ensures this.tables == tables && this.lexer == lexer && this.handler == handler
      ensures Valid() && this.html == html && stack == [] && events == []
    {
      this.tables, this.lexer, this.handler := tables, lexer, handler;
      this.html, stack, events := html, [], [];
    }

    /** The handler has seen the events. */
    ghost predicate Reported()
      reads this, handler
    {
      handler.tables == tables && handler.State() == Write(tables, events)
    }

    ghost predicate Valid()
      reads this, handler
    {
      Reported() && Consistent(tables, lexer, events, stack)
    }

    method ReportEnd(tag: string)
      requires Reported()
      modifies this`events, handler
      ensures Reported() && events == old(events) + [End(tag)]
    {
      WritePush(tables, events, End(tag));
      handler.End(tag);
      events := events + [End(tag)];
    }

    method ReportStart(tag: string, attrs: string, unary: bool)
      requires Reported()
      modifies this`events, handler
      ensures Reported() && events == old(events) + [Start(tag, attrs, unary)]
    {
      WritePush(tables, events, Start(tag, attrs, unary));
      handler.Start(tag, attrs, unary);
      events := events + [Start(tag, attrs, unary)];
    }

    method ReportChars(text: string)
      requires Valid()
      modifies this`events, handler
      ensures Valid() && events == old(events) + [Chars(text)]
    {
      WritePush(tables, events, Chars(text));
      TextConsistent(tables, lexer, events, stack, Chars(text));
      handler.Chars(text);
      events := events + [Chars(text)];
    }

    /** The writer has no comment handler; a comment is an event it does not act on. */
    method ReportComment(text: string)
      requires Valid()
      modifies this`events, handler
      ensures Valid() && events == old(events) + [Comment(text)]
    {
      CommentUnwritten(tables, events, text);
      TextConsistent(tables, lexer, events, stack, Comment(text));
      ghost var more := events + [Comment(text)];
      events := more;
    }

    /** `parseEndTag`: closes the closest open element of that name and all above it. */
    method ParseEndTag(tagName: string)
      requires Valid()
      modifies this`stack, this`events, handler
      ensures Valid()
      ensures
        var pos := AfterEnd(old(stack), lexer.lowercase(tagName));
        stack == old(stack)[..pos] && events == old(events) + Closing(old(stack), pos)
    {
      var pos := FindOpen(lexer.lowercase(tagName));
      if pos >= 0 {
        CloseAbove(pos);
        CloseConsistent(tables, lexer, old(events), stack, pos);
        stack := stack[..pos];
      } else {
        assert stack[..|stack|] == stack && events + [] == events;
      }
    }

    /** The position an end tag closes down to, or -1. */
    method FindOpen(tag: string) returns (pos: int)
      ensures pos == if tag == "" then 0 else ClosestOpen(stack, tag)
    {
      pos := 0;
      if tag != "" {
        pos := |stack| - 1;
        while pos >= 0
          invariant -1 <= pos < |stack| && forall k :: pos < k < |stack| ==> stack[k] != tag
        {
          if stack[pos] == tag {
            break;
          }
          pos := pos - 1;
        }
      }
    }

    method CloseAbove(pos: nat)
      requires Reported() && pos <= |stack|
      modifies this`events, handler
      ensures Reported() && events == old(events) + Closing(stack, pos)
    {
      var i := |stack| - 1;
      assert events + [] == events;
      while i >= pos
        invariant pos - 1 <= i < |stack| && Reported()
        invariant events == old(events) + Closing(stack, i + 1)
      {
        assert Closing(stack, i) == Closing(stack, i + 1) + [End(stack[i])];
        ReportEnd(stack[i]);
        i := i - 1;
      }
    }

    /** Closes the innermost element, as an end tag of its own name would. */
    method CloseTop()
      requires Valid() && stack != []
      modifies this`stack, this`events, handler
      ensures Valid() && stack == old(stack)[..|old(stack)| - 1]
      ensures events == old(events) + Closing(old(stack), |old(stack)| - 1)
    {
      ClosestIsTop(stack);
      assert IsName(lexer, Last(stack));
      ParseEndTag(Last(stack));
    }

    /** The loop of `parseStartTag` over inline elements under a block element. */
    method StripInline()
      requires Valid()
      modifies this`stack, this`events, handler
      ensures Valid() && stack == old(stack)[..BelowInline(tables, old(stack))]
      ensures events == old(events) + Closing(old(stack), BelowInline(tables, old(stack)))
    {
      ghost var all := stack;
      assert all[..|all|] == all && events + [] == events;
      while stack != [] && Last(stack) in tables.inlineElements
        invariant Valid() && |stack| <= |all| && stack == all[..|stack|]
        invariant BelowInline(tables, stack) == BelowInline(tables, all)
        invariant events == old(events) + Closing(all, |stack|)
        decreases |stack|
      {
        CloseOneMore(old(events), events, all, stack, |stack| - 1);
        CloseTop();
      }
    }

    /** `parseStartTag`: closes what the tag implies, opens it unless it is empty, and reports it. */
    method ParseStartTag(tagName0: string, rest: string, unary0: bool)
      requires Valid() && !InSpecial(tables, stack) && tagName0 != ""
      modifies this`stack, this`events, handler
      ensures Valid()
      ensures
        var tag := lexer.lowercase(tagName0);
        var unary := tag in tables.voidElements || unary0;
        var kept := KeptUnder(tables, old(stack), tag);
        && stack == old(stack)[..kept] + (if unary then [] else [tag])
        && events == old(events) + Closing(old(stack), kept) + [Start(tag, rest, unary)]
    {
      var tagName := lexer.lowercase(tagName0);
      assert lexer.Lowers(tagName0);
      ghost var kept := KeptUnder(tables, stack, tagName);
      StartKeepsShape(tables, stack, tagName);
      ghost var all := stack;
      CloseImplied(tagName);
      assert !InSpecial(tables, stack) && Shape(tables, stack + [tagName]);
      var unary := tagName in tables.voidElements || unary0;
      OpenConsistent(tables, lexer, events, stack, tagName, rest, unary);
      if !unary {
        stack := stack + [tagName];
      } else {
        assert stack + [] == stack;
      }
      ReportStart(tagName, rest, unary);
    }

    /** Closes the elements a start tag implies to be over. */
    method CloseImplied(tagName: string)
      requires Valid() && tagName != "" && lexer.lowercase(tagName) == tagName
      modifies this`stack, this`events, handler
      ensures Valid() && stack == old(stack)[..KeptUnder(tables, old(stack), tagName)]
      ensures events == old(events) + Closing(old(stack), KeptUnder(tables, old(stack), tagName))
    {
      ghost var all := stack;
      assert all[..|all|] == all && events + [] == events;
      if tagName in tables.blockElements {
        StripInline();
      }
      CloseTwin(tagName, all, if tagName in tables.blockElements then BelowInline(tables, all) else |all|, old(events));
    }

    /** The part of the stack that a block element leaves, without a twin of an element with an optional end. */
    method CloseTwin(tagName: string, ghost all: seq<string>, ghost pos: nat, ghost before: seq<Event>)
      requires Valid() && pos <= |all| && stack == all[..pos] && events == before + Closing(all, pos)
      modifies this`stack, this`events, handler
      ensures Valid()
      ensures
        var twin := tagName in tables.optionalEndTagElements && pos > 0 && all[pos - 1] == tagName;
        var kept := if twin then pos - 1 else pos;
        stack == all[..kept] && events == before + Closing(all, kept)
    {
      if tagName in tables.optionalEndTagElements && stack != [] && Last(stack) == tagName {
        CloseOneMore(before, events, all, stack, |stack| - 1);
        CloseTop();
      }
    }

    /** Text up to the next `<`, after what the caller has already read. */
    method ParseChars(text: string)
      requires Valid()
      modifies this`html, this`events, handler
      ensures Valid() && html == old(html)[TextLength(old(html))..]
      ensures events == old(events) + [Chars(lexer.decodeEntities(text + old(html)[..TextLength(old(html))]))]
    {
      var index := IndexOf(html, "<", 0);
      assert html[|html|..] == "" && html[..|html|] == html;
      ReportChars(lexer.decodeEntities(text + (if index < 0 then html else html[..index])));
      html := if index < 0 then "" else html[index..];
    }

    /** Either the piece at the start of the input is dealt with, or it is text that is still to be reported after
        `text`, from here on. */
    ghost predicate Handled(piece: Piece, chars: bool, text: string, was: seq<string>, reported: seq<Event>)
      reads this
    {
      if chars then stack == was && events == reported && piece == TextPiece(text, html)
      else html == Rest(piece) && Responded(Respond(tables, lexer, was, piece), reported)
    }

    /** A comment, if it ends before another "--". */
    method ParseComment() returns (chars: bool)
      requires Valid() && OccursAt(html, "<!--", 0)
      modifies this`html, this`events, handler
      ensures Valid() && Handled(NotePiece(old(html)), chars, "", old(stack), old(events))
    {
      chars := true;
      var index := IndexOf(html, "--", 4);
      if index >= 0 && OccursAt(html, "-->", index) {
        ReportComment(html[4..index]);
        html := html[index + 3..];
        chars := false;
      }
    }

    method ParseDoctype() returns (chars: bool)
      requires Valid() && lexer.doctype(html).Some?
      modifies this`html
      ensures Valid() && Handled(DoctypePiece(lexer, old(html)), chars, "", old(stack), old(events))
    {
      var m := lexer.doctype(html).value;
      assert events + [] == events;
      html := html[..m.start] + html[m.start + m.len..];
      chars := false;
    }

    method ParseEnding() returns (chars: bool)
      requires Valid()
      modifies this`html, this`stack, this`events, handler
      ensures Valid() && Handled(EndPiece(lexer, old(html)), chars, "", old(stack), old(events))
    {
      chars := true;
      var m := lexer.endTag(html);
      if m.Some? {
        html := html[m.value.len..];
        ParseEndTag(m.value.tagName);
        chars := false;
      }
    }

    method OpenTag(tagName: string, attrs: string, unary: bool)
      requires Valid() && !InSpecial(tables, stack) && tagName != ""
      modifies this`stack, this`events, handler
      ensures Valid()
      ensures Responded(Respond(tables, lexer, old(stack), Starting(tagName, attrs, unary, html)), old(events))
    {
      ghost var tag, open, before := lexer.lowercase(tagName), stack, events;
      ghost var kept := KeptUnder(tables, open, tag);
      ghost var start := Start(tag, attrs, tag in tables.voidElements || unary);
      Regroup(before, Closing(open, kept), [start]);
      assert Respond(tables, lexer, open, Starting(tagName, attrs, unary, html)).events ==
             Closing(open, kept) + [start];
      ParseStartTag(tagName, attrs, unary);
    }

    method TakeTag(m: StartMatch)
      requires Valid() && !InSpecial(tables, stack) && html != "" && lexer.startTag(html) == Some(m) && m.gt
      modifies this`html, this`stack, this`events, handler
      ensures Valid() && Handled(StartPiece(lexer, old(html)), false, "", old(stack), old(events))
    {
      html := html[m.len..];
      OpenTag(m.tagName, m.rest, m.unary);
    }

    /** A start tag, or a "<" that starts none. */
    method ParseStarting() returns (chars: bool, text: string)
      requires Valid() && !InSpecial(tables, stack) && html != ""
      modifies this`html, this`stack, this`events, handler
      ensures Valid() && Handled(StartPiece(lexer, old(html)), chars, text, old(stack), old(events))
    {
      text, chars := "", true;
      var m := lexer.startTag(html);
      if m.Some? {
        if m.value.gt {
          TakeTag(m.value);
        } else {
          assert StartPiece(lexer, html) == Skipped(html);
          assert events + [] == events;
        }
        chars := false;
      } else {
        assert StartPiece(lexer, html) == TextPiece("<", html[1..]);
        text := "<";
        html := html[1..];
      }
    }

    /** The tests for the kinds of markup, in order. */
    method ParseTag() returns (chars: bool, text: string)
      requires Valid() && html != "" && !InSpecial(tables, stack)
      modifies this`html, this`stack, this`events, handler
      ensures Valid() && Handled(NextPiece(lexer, old(html)), chars, text, old(stack), old(events))
    {
      text, chars := "", true;
      if OccursAt(html, "<!--", 0) {
        chars := ParseComment();
      } else if lexer.doctype(html).Some? {
        chars := ParseDoctype();
      } else if OccursAt(html, "</", 0) {
        chars := ParseEnding();
      } else if OccursAt(html, "<", 0) {
        chars, text := ParseStarting();
      }
    }

    /** One round outside script and style: a comment, a doctype, a tag, or text. */
    method ParseMarkup()
      requires Valid() && html != "" && !InSpecial(tables, stack)
      modifies this`html, this`stack, this`events, handler
      ensures Valid() && html == Rest(NextPiece(lexer, old(html)))
      ensures Responded(Respond(tables, lexer, old(stack), NextPiece(lexer, old(html))), old(events))
    {
      ghost var piece := NextPiece(lexer, html);
      var chars, text := ParseTag();
      if chars {
        ParseChars(text);
        assert html == Rest(piece) && Responded(Respond(tables, lexer, old(stack), piece), old(events));
      }
    }

    /** One round inside script or style: everything up to its end tag, and the element closes in any case. */
    method ParseSpecial()
      requires Valid() && InSpecial(tables, stack)
      modifies this`html, this`stack, this`events, handler
      ensures Valid() && html == Rest(SpecialPiece(lexer, old(html), Last(old(stack))))
      ensures Responded(Respond(tables, lexer, old(stack), SpecialPiece(lexer, old(html), Last(old(stack)))),
                        old(events))
    {
      var m := lexer.specialEnd(html, Last(stack));
      ghost var open, before := stack, events;
      ghost var piece := SpecialPiece(lexer, html, Last(stack));
      if m.Some? {
        ghost var text := Chars(lexer.decodeEntities(m.value.text));
        Regroup(before, [text], Closing(open, |open| - 1));
        assert Respond(tables, lexer, open, piece).events == [text] + Closing(open, |open| - 1);
        ReportChars(lexer.decodeEntities(m.value.text));
        html := html[m.value.len..];
      }
      CloseTop();
    }

    /** Stack and events are those of the response, on top of what was reported before. */
    ghost predicate Responded(r: Response, before: seq<Event>)
      reads this
    {
      stack == r.stack && events == before + r.events
    }

    /** One round of the loop. */
    method ParseRound()
      requires Valid() && html != ""
      modifies this`html, this`stack, this`events, handler
      ensures Valid() && html == Rest(PieceOf(tables, lexer, old(html), old(stack)))
      ensures Responded(Respond(tables, lexer, old(stack), PieceOf(tables, lexer, old(html), old(stack))), old(events))
    {
      if !InSpecial(tables, stack) {
        ParseMarkup();
      } else {
        ParseSpecial();
      }
    }

    /** The parser ends on every input: each round shortens it or the input is refused. It reports what the
        rounds one after another come to; when the input is not refused the events nest and close. */
    method Parse() returns (r: Result)
      requires Valid()
      modifies this, handler
      ensures Valid()
      ensures
        var run := Parsing(tables, lexer, old(html), old(stack));
        r == run.result && events == old(events) + run.events
      ensures r.Parsed? ==> stack == [] && html == "" && Replay(tables, events) == Some([])
      ensures r.BadParse? ==> html == r.html && html != ""
    {
      var last := html;
      ghost var run := Parsing(tables, lexer, html, stack);
      while html != ""
        invariant Valid() && last == html && Remains(tables, lexer, html, stack, run, old(events), events)
        decreases |html|
      {
        ghost var piece := PieceOf(tables, lexer, html, stack);
        RunStep(tables, lexer, html, stack, run, old(events), events, Rest(piece),
                Respond(tables, lexer, stack, piece));
        ParseRound();
        if html == last {
          return BadParse(html);
        }
        last := html;
      }
      assert lexer.Lowers("");
      ParseEndTag("");
      return Parsed;
    }
  }

  /** The sanitizer: what is written is the writer's output for the events of the run over the input. They nest,
      and close unless the input is refused, and so do the written tags when no special tag is closed on the spot. */
  method Sanitize(tables: Tables, lexer: Lexer, html: string) returns (r: Result, out: seq<Out>)
    requires lexer.Valid()
    ensures
      var run := Parsing(tables, lexer, html, []);
      && r == run.result && out == Write(tables, run.events).out
      && Replay(tables, run.events).Some? && (r.Parsed? ==> Replay(tables, run.events) == Some([]))
      && (NoUnarySpecial(tables, run.events) ==> OpenTags(out).Some? && (r.Parsed? ==> OpenTags(out) == Some([])))
  {
    var writer := new SanitizeWriter(tables);
    var parser := new Parser(tables, lexer, writer, html);
    ghost var run := Parsing(tables, lexer, html, []);
    r := parser.Parse();
    out := writer.buf;
    assert [] + run.events == run.events;
    if NoUnarySpecial(tables, run.events) {
      WriteFollows(tables, run.events);
    }
  }
}
