/** What a run says of its input: nothing is lost or said twice. */
module HtmlText {
  import opened Options
  import opened HtmlEvents
  import opened HtmlRules

  // ---- a piece is the front of the input ----

  /** The piece and what it leaves are the input: a comment runs up to its end, which is the first "--" in it; text runs
      up to the next `<`, but for one it starts with; a tag is what its expression matches; a doctype is cut out. */
  predicate IsCutFrom(lexer: Lexer, p: Piece, html: string, special: string) {
    match p
    case Note(text, rest) =>
      html == "<!--" + text + "-->" + rest && forall k :: 4 <= k < 4 + |text| ==> !OccursAt(html, "--", k)
    case Skipped(rest) =>
      || rest == html
      || (lexer.doctype(html).Some? && var m := lexer.doctype(html).value;
          m.start + m.len <= |html| && rest == html[..m.start] + html[m.start + m.len..])
    case Ending(tag, rest) =>
      OccursAt(html, "</", 0) && lexer.endTag(html).Some? && var m := lexer.endTag(html).value;
      tag == m.tagName && m.len <= |html| && rest == html[m.len..]
    case Starting(tag, attrs, unary, rest) =>
      !OccursAt(html, "</", 0) && lexer.startTag(html).Some? && var m := lexer.startTag(html).value;
      && m.gt && tag == m.tagName && attrs == m.rest && unary == m.unary
      && m.len <= |html| && rest == html[m.len..]
    case Plain(text, rest) =>
      html == text + rest && (rest != "" ==> rest[0] == '<') && forall k :: 1 <= k < |text| ==> text[k] != '<'
    case Raw(text, rest) =>
      lexer.specialEnd(html, special).Some? && var m := lexer.specialEnd(html, special).value;
      text == m.text && m.len <= |html| && rest == html[m.len..]
    case Unended(rest) => rest == html && lexer.specialEnd(html, special).None?
  }

  lemma NoteIsCut(lexer: Lexer, html: string, special: string)
    requires OccursAt(html, "<!--", 0)
    ensures IsCutFrom(lexer, NotePiece(html), html, special)
  {
    var index := IndexOf(html, "--", 4);
    if index >= 0 && OccursAt(html, "-->", index) {
      assert html[0..4] == "<!--" && html[index..index + 3] == "-->";
      assert html == html[0..4] + html[4..index] + html[index..index + 3] + html[index + 3..];
    } else {
      TextIsCut(lexer, "", html, html, special);
    }
  }

  /** Text that starts with what was taken before. */
  lemma TextIsCut(lexer: Lexer, before: string, rest: string, html: string, special: string)
    requires html == before + rest && |before| <= 1
    ensures IsCutFrom(lexer, TextPiece(before, rest), html, special)
  {
    var n := TextLength(rest);
    var text := before + rest[..n];
    assert text + rest[n..] == before + (rest[..n] + rest[n..]);
    assert rest[..n] + rest[n..] == rest;
    forall k | 1 <= k < |text| ensures text[k] != '<' {
      assert |before| <= k && text[k] == rest[k - |before|];
    }
  }

  lemma StartIsCut(lexer: Lexer, html: string, special: string)
    requires lexer.Valid() && html != "" && !OccursAt(html, "</", 0) && OccursAt(html, "<", 0)
    ensures IsCutFrom(lexer, StartPiece(lexer, html), html, special)
  {
    if lexer.startTag(html).None? {
      assert html[0..1] == "<" && html == "<" + html[1..];
      TextIsCut(lexer, "<", html[1..], html, special);
    }
  }

  /** Every piece is cut from the input; outside script and style it starts with what its kind starts with. */
  lemma PieceIsCut(tables: Tables, lexer: Lexer, html: string, stack: seq<string>)
    requires lexer.Valid() && html != ""
    ensures IsCutFrom(lexer, PieceOf(tables, lexer, html, stack), html, Last(stack))
  {
    var special := Last(stack);
    if !InSpecial(tables, stack) {
      if OccursAt(html, "<!--", 0) {
        NoteIsCut(lexer, html, special);
      } else if lexer.doctype(html).Some? {
      } else if OccursAt(html, "</", 0) {
        assert html == "" + html;
        TextIsCut(lexer, "", html, html, special);
      } else if OccursAt(html, "<", 0) {
        StartIsCut(lexer, html, special);
      } else {
        assert html == "" + html;
        TextIsCut(lexer, "", html, html, special);
      }
    }
  }

  /** A comment that ends with the first "--" in it. */
  predicate IsComment(html: string) {
    OccursAt(html, "<!--", 0) &&
    exists k :: 4 <= k < |html| && OccursAt(html, "-->", k) && forall m :: 4 <= m < k ==> !OccursAt(html, "--", m)
  }

  lemma DashesOfEnd(html: string, k: nat)
    requires OccursAt(html, "-->", k)
    ensures OccursAt(html, "--", k)
  {
    assert html[k..k + 2] == html[k..k + 3][..2] == "--";
  }

  /** A comment's end is the first "--" the parser finds. */
  lemma FoundEnd(html: string, k: nat)
    requires 4 <= k < |html| && OccursAt(html, "-->", k) && forall m :: 4 <= m < k ==> !OccursAt(html, "--", m)
    ensures IndexOf(html, "--", 4) == k
  {
    DashesOfEnd(html, k);
  }

  lemma StartsWithLess(html: string)
    requires OccursAt(html, "<!--", 0)
    ensures html != "" && html[0] == '<'
  {
    assert html[0] == html[0..4][0];
  }

  lemma CommentIsNote(html: string)
    requires OccursAt(html, "<!--", 0)
    ensures NotePiece(html).Note? <==> IsComment(html)
    ensures !IsComment(html) ==> NotePiece(html).text == ""
  {
    var index := IndexOf(html, "--", 4);
    if IsComment(html) {
      var k :| 4 <= k < |html| && OccursAt(html, "-->", k) && forall m :: 4 <= m < k ==> !OccursAt(html, "--", m);
      FoundEnd(html, k);
    } else {
      StartsWithLess(html);
      NothingTaken(html);
      assert index < 0 || !OccursAt(html, "-->", index);
    }
  }

  /** Before a `<` there is no text. */
  lemma NothingTaken(html: string)
    requires html != "" && html[0] == '<'
    ensures TextPiece("", html).text == ""
  {
  }

  /** Which kind of piece it is: inside script and style, text up to the end tag; else a comment, a doctype anywhere
      ahead, an end tag, a start tag, in this order, and text if it is none of them; before a `</` or an unended
      comment that text is empty, and the input is refused. */
  lemma KindOfPiece(tables: Tables, lexer: Lexer, html: string, stack: seq<string>)
    requires lexer.Valid() && html != ""
    ensures
      var p := PieceOf(tables, lexer, html, stack);
      var comment, end, start := OccursAt(html, "<!--", 0), OccursAt(html, "</", 0), OccursAt(html, "<", 0);
      if InSpecial(tables, stack) then p.Raw? || p.Unended?
      else if comment then (if IsComment(html) then p.Note? else p.Plain? && p.text == "")
      else if lexer.doctype(html).Some? then p.Skipped? && |p.rest| < |html|
      else if end then (if lexer.endTag(html).Some? then p.Ending? else p.Plain? && p.text == "")
      else if start then
        match lexer.startTag(html)
        case None => p.Plain? && p.text != ""
        case Some(m) => if m.gt then p.Starting? else p == Skipped(html)
      else p.Plain? && p.text != ""
  {
    if !InSpecial(tables, stack) {
      if OccursAt(html, "<!--", 0) {
        CommentIsNote(html);
      } else if lexer.doctype(html).Some? {
      } else if OccursAt(html, "</", 0) {
        assert html[0] == html[0..2][0] == '<';
        NothingTaken(html);
      } else if !OccursAt(html, "<", 0) {
        assert html[0..1] == [html[0]];
        assert TextLength(html) > 0;
      }
    }
  }

  // ---- a run says what its pieces say ----

  /** The pieces of a run, one for each round. */
  ghost function PiecesOf(tables: Tables, lexer: Lexer, html: string, stack: seq<string>): seq<Piece>
    requires lexer.Valid()
    decreases |html|
  {
    if html == "" then []
    else
      var p := PieceOf(tables, lexer, html, stack);
      if p.rest == html then [p]
      else [p] + PiecesOf(tables, lexer, p.rest, Respond(tables, lexer, stack, p).stack)
  }

  /** The events that are not end tags. */
  function Said(events: seq<Event>): seq<Event> {
    if events == [] then []
    else Said(events[..|events| - 1]) + (if events[|events| - 1].End? then [] else [events[|events| - 1]])
  }

  /** What one piece says: text is decoded, and a tag's name is in lower case. */
  function SaidBy(tables: Tables, lexer: Lexer, p: Piece): seq<Event> {
    match p
    case Note(text, _) => [Comment(text)]
    case Plain(text, _) => [Chars(lexer.decodeEntities(text))]
    case Raw(text, _) => [Chars(lexer.decodeEntities(text))]
    case Starting(tag, attrs, unary, _) =>
      var name := lexer.lowercase(tag);
      [Start(name, attrs, unary || name in tables.voidElements)]
    case Skipped(_) => []
    case Ending(_, _) => []
    case Unended(_) => []
  }

  function SaidByAll(tables: Tables, lexer: Lexer, ps: seq<Piece>): seq<Event> {
    if ps == [] then [] else SaidBy(tables, lexer, ps[0]) + SaidByAll(tables, lexer, ps[1..])
  }

  lemma {:induction false} SaidConcat(a: seq<Event>, b: seq<Event>)
    ensures Said(a + b) == Said(a) + Said(b)
  {
    if b == [] {
      assert a + b == a;
    } else {
      var init, e, all := b[..|b| - 1], b[|b| - 1], a + b;
      SaidConcat(a, init);
      assert all[..|all| - 1] == a + init && all[|all| - 1] == e;
      var last := if e.End? then [] else [e];
      assert Said(all) == Said(a + init) + last && Said(b) == Said(init) + last;
    }
  }

  lemma SaidOne(e: Event)
    ensures Said([e]) == if e.End? then [] else [e]
  {
    assert [e][..0] == [];
    assert Said([e]) == Said([]) + (if e.End? then [] else [e]);
  }

  lemma {:induction false} ClosingSaysNothing(stack: seq<string>, pos: nat)
    requires pos <= |stack|
    ensures Said(Closing(stack, pos)) == []
    decreases |stack| - pos
  {
    if pos < |stack| {
      ClosingSaysNothing(stack, pos + 1);
      SaidConcat(Closing(stack, pos + 1), [End(stack[pos])]);
      SaidOne(End(stack[pos]));
    }
  }

  lemma SaysOnly(closing: seq<Event>, e: Event)
    requires Said(closing) == [] && !e.End?
    ensures Said(closing + [e]) == [e] && Said([e] + closing) == [e]
  {
    SaidOne(e);
    SaidConcat(closing, [e]);
    SaidConcat([e], closing);
  }

  lemma ResponseSays(tables: Tables, lexer: Lexer, stack: seq<string>, p: Piece)
    ensures Said(Respond(tables, lexer, stack, p).events) == SaidBy(tables, lexer, p)
  {
    match p
    case Note(text, _) => SaidOne(Comment(text));
    case Skipped(_) =>
    case Ending(tag, _) => ClosingSaysNothing(stack, AfterEnd(stack, lexer.lowercase(tag)));
    case Starting(tagName, attrs, unary, _) =>
      var tag := lexer.lowercase(tagName);
      var kept := KeptUnder(tables, stack, tag);
      ClosingSaysNothing(stack, kept);
      SaysOnly(Closing(stack, kept), Start(tag, attrs, tag in tables.voidElements || unary));
    case Plain(text, _) => SaidOne(Chars(lexer.decodeEntities(text)));
    case Raw(text, _) =>
      var pos := if stack == [] then 0 else |stack| - 1;
      ClosingSaysNothing(stack, pos);
      SaysOnly(Closing(stack, pos), Chars(lexer.decodeEntities(text)));
    case Unended(_) => if stack != [] { ClosingSaysNothing(stack, |stack| - 1); }
  }

  /** Main result: but for the end tags, which nesting decides, a run reports exactly what its pieces say, in order. */
  lemma {:induction false} RunSays(tables: Tables, lexer: Lexer, html: string, stack: seq<string>)
    requires lexer.Valid()
    ensures
      Said(Parsing(tables, lexer, html, stack).events) == SaidByAll(tables, lexer, PiecesOf(tables, lexer, html, stack))
    decreases |html|
  {
    if html == "" {
      ClosingSaysNothing(stack, 0);
    } else {
      var p := PieceOf(tables, lexer, html, stack);
      var r := Respond(tables, lexer, stack, p);
      ResponseSays(tables, lexer, stack, p);
      if p.rest == html {
        assert [p][1..] == [] && SaidBy(tables, lexer, p) + [] == SaidBy(tables, lexer, p);
      } else {
        var more := PiecesOf(tables, lexer, p.rest, r.stack);
        RunSays(tables, lexer, p.rest, r.stack);
        SaidConcat(r.events, Parsing(tables, lexer, p.rest, r.stack).events);
        assert ([p] + more)[1..] == more;
      }
    }
  }
}
