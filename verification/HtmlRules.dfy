/** The rules of `htmlParser`: tokens, implied end tags, and whole runs. */
module HtmlRules {
  import opened Options
  import opened HtmlEvents

  datatype EndMatch = EndMatch(len: nat, tagName: string)
  datatype StartMatch = StartMatch(len: nat, tagName: string, rest: string, unary: bool, gt: bool)
  datatype SpecialMatch = SpecialMatch(len: nat, text: string)
  datatype Span = Span(start: nat, len: nat)

  /** The regular expressions and text functions the parser uses, each as the match it finds. */
  datatype Lexer = Lexer(
    doctype: string -> Option<Span>,
    endTag: string -> Option<EndMatch>,
    startTag: string -> Option<StartMatch>,
    specialEnd: (string, string) -> Option<SpecialMatch>,
    lowercase: string -> string,
    decodeEntities: string -> string)
  {
    /** What the expressions guarantee: a match is a nonempty piece of the input and a tag name is not
        empty; and lower-casing twice is lower-casing once. */
    ghost predicate Valid() {
      && (forall s: string :: doctype(s).Some? ==>
            doctype(s).value.len > 0 && doctype(s).value.start + doctype(s).value.len <= |s|)
      && (forall s: string :: endTag(s).Some? ==> 0 < endTag(s).value.len <= |s| && endTag(s).value.tagName != "")
      && (forall s: string :: startTag(s).Some? ==> 0 < startTag(s).value.len <= |s| && startTag(s).value.tagName != "")
      && (forall s: string, tag: string :: specialEnd(s, tag).Some? ==> 0 < specialEnd(s, tag).value.len <= |s|)
      && (forall s: string :: Lowers(s))
    }

    ghost predicate Lowers(s: string) {
      lowercase(lowercase(s)) == lowercase(s) && (lowercase(s) == "" <==> s == "")
    }
  }

  predicate OccursAt(s: string, pattern: string, k: int) {
    0 <= k && k + |pattern| <= |s| && s[k..k + |pattern|] == pattern
  }

  /** The first occurrence of `pattern` at or after `from`, or -1. */
  function IndexOf(s: string, pattern: string, from: nat): (r: int)
    ensures r == -1 || (from <= r && OccursAt(s, pattern, r))
    ensures forall k :: from <= k && (r == -1 || k < r) ==> !OccursAt(s, pattern, k)
    decreases if from <= |s| then |s| - from else 0
  {
    if from + |pattern| > |s| then -1
    else if OccursAt(s, pattern, from) then from
    else if from == |s| then -1
    else IndexOf(s, pattern, from + 1)
  }

  /** The closest open element of the same name, or -1. */
  function ClosestOpen(stack: seq<string>, tag: string): (pos: int)
    ensures -1 <= pos < |stack|
    ensures pos >= 0 ==> stack[pos] == tag && forall k :: pos < k < |stack| ==> stack[k] != tag
    ensures pos == -1 ==> tag !in stack
  {
    if stack == [] then -1
    else if Last(stack) == tag then |stack| - 1
    else ClosestOpen(stack[..|stack| - 1], tag)
  }

  /** The open elements after an end tag: everything above its closest open element closes with it; a tag
      that is not open is ignored, and no tag at all closes everything. */
  function AfterEnd(stack: seq<string>, tag: string): (pos: nat)
    ensures pos <= |stack| && (tag == "" ==> pos == 0) && (tag != "" && tag !in stack ==> pos == |stack|)
    ensures tag != "" && tag in stack ==> pos < |stack| && stack[pos] == tag && tag !in stack[pos + 1..]
  {
    if tag == "" then 0
    else
      var pos := ClosestOpen(stack, tag);
      if pos >= 0 then pos else |stack|
  }

  /** How far a start tag of a block element strips the inline elements off the stack. */
  function BelowInline(tables: Tables, stack: seq<string>): (pos: nat)
    ensures pos <= |stack| && (pos > 0 ==> stack[pos - 1] !in tables.inlineElements)
    ensures forall k :: pos <= k < |stack| ==> stack[k] in tables.inlineElements
  {
    if stack != [] && Last(stack) in tables.inlineElements then BelowInline(tables, stack[..|stack| - 1]) else |stack|
  }

  /** Element k and all above it are inline. */
  predicate InlineFrom(tables: Tables, stack: seq<string>, k: int) {
    0 <= k && forall m :: k <= m < |stack| ==> stack[m] in tables.inlineElements
  }

  /** A start tag implies that element k is over: it and all above it are inline and the tag is a block element's, or it
      is an element of the same name with an optional end tag, with nothing above it but such inline elements. */
  predicate IsOver(tables: Tables, stack: seq<string>, tag: string, k: nat)
    requires k < |stack|
  {
    || (tag in tables.blockElements && InlineFrom(tables, stack, k))
    || (&& tag in tables.optionalEndTagElements && stack[k] == tag
        && (k == |stack| - 1 || (tag in tables.blockElements && InlineFrom(tables, stack, k + 1))))
  }

  /** The elements that stay open under a start tag: all but those it implies to be over. */
  function KeptUnder(tables: Tables, stack: seq<string>, tag: string): (pos: nat)
    ensures pos <= |stack|
    ensures forall k: nat :: k < |stack| ==> (k >= pos <==> IsOver(tables, stack, tag, k))
  {
    var below := if tag in tables.blockElements then BelowInline(tables, stack) else |stack|;
    if tag in tables.optionalEndTagElements && below > 0 && stack[below - 1] == tag then below - 1 else below
  }

  // ---- one round ----

  /** What a round makes of the start of the input; `rest` is the input after it. */
  datatype Piece =
    | Note(text: string, rest: string)
    | Skipped(rest: string)
    | Ending(tag: string, rest: string)
    | Starting(tag: string, attrs: string, unary: bool, rest: string)
    | Plain(text: string, rest: string)
    | Raw(text: string, rest: string)
    | Unended(rest: string)

  function Rest(p: Piece): string {
    p.rest
  }

  /** How much of the input comes before its first `<`. */
  function TextLength(html: string): (n: nat)
    ensures n <= |html| && (n < |html| ==> html[n] == '<') && forall k :: 0 <= k < n ==> html[k] != '<'
  {
    var index := IndexOf(html, "<", 0);
    var n := if index < 0 then |html| else index;
    assert n < |html| ==> html[n..n + 1] == "<";
    assert forall k :: 0 <= k < n ==> !OccursAt(html, "<", k) && html[k..k + 1] == [html[k]];
    n
  }

  /** The round gets on with the input, or leaves it as it is. */
  predicate Shortens(p: Piece, html: string) {
    |p.rest| < |html| || p.rest == html
  }

  /** Text up to the next `<`, after what is already taken. */
  function TextPiece(before: string, html: string): (p: Piece)
    ensures Shortens(p, html)
  {
    assert html[0..] == html;
    Plain(before + html[..TextLength(html)], html[TextLength(html)..])
  }

  /** A comment, if it ends before another "--". */
  function NotePiece(html: string): (p: Piece)
    requires OccursAt(html, "<!--", 0)
    ensures Shortens(p, html)
  {
    var index := IndexOf(html, "--", 4);
    if index >= 0 && OccursAt(html, "-->", index) then Note(html[4..index], html[index + 3..]) else TextPiece("", html)
  }

  function DoctypePiece(lexer: Lexer, html: string): (p: Piece)
    requires lexer.Valid() && lexer.doctype(html).Some?
    ensures Shortens(p, html)
  {
    var m := lexer.doctype(html).value;
    Skipped(html[..m.start] + html[m.start + m.len..])
  }

  function EndPiece(lexer: Lexer, html: string): (p: Piece)
    requires lexer.Valid()
    ensures Shortens(p, html)
  {
    match lexer.endTag(html)
    case Some(m) => Ending(m.tagName, html[m.len..])
    case None => TextPiece("", html)
  }

  /** The piece at a `<` that is neither a comment, a doctype nor an end tag. */
  function StartPiece(lexer: Lexer, html: string): (p: Piece)
    requires lexer.Valid() && html != ""
    ensures Shortens(p, html)
  {
    match lexer.startTag(html)
    case Some(m) => if m.gt then Starting(m.tagName, m.rest, m.unary, html[m.len..]) else Skipped(html)
    case None => TextPiece("<", html[1..])
  }

  /** Outside script and style: a comment, a doctype anywhere ahead, an end tag, a start tag, or text. A start
      tag without its `>` is left where it is. */
  function NextPiece(lexer: Lexer, html: string): (p: Piece)
    requires lexer.Valid()
    ensures Shortens(p, html)
  {
    if OccursAt(html, "<!--", 0) then NotePiece(html)
    else if lexer.doctype(html).Some? then DoctypePiece(lexer, html)
    else if OccursAt(html, "</", 0) then EndPiece(lexer, html)
    else if OccursAt(html, "<", 0) then StartPiece(lexer, html)
    else TextPiece("", html)
  }

  /** Inside script or style: everything up to the end tag. */
  function SpecialPiece(lexer: Lexer, html: string, tag: string): (p: Piece)
    requires lexer.Valid()
    ensures Shortens(p, html)
  {
    match lexer.specialEnd(html, tag)
    case Some(m) => Raw(m.text, html[m.len..])
    case None => Unended(html)
  }

  /** What the next round does; it shortens the input or leaves it as it is. */
  function PieceOf(tables: Tables, lexer: Lexer, html: string, stack: seq<string>): (p: Piece)
    requires lexer.Valid()
    ensures |p.rest| < |html| || p.rest == html
  {
    if InSpecial(tables, stack) then SpecialPiece(lexer, html, Last(stack)) else NextPiece(lexer, html)
  }

  /** The elements open afterwards, and the events. */
  datatype Response = Response(stack: seq<string>, events: seq<Event>)

  function Closed(stack: seq<string>, pos: nat): Response
    requires pos <= |stack|
  {
    Response(stack[..pos], Closing(stack, pos))
  }

  /** How the stack machine responds to a piece. */
  function Respond(tables: Tables, lexer: Lexer, stack: seq<string>, p: Piece): Response {
    match p
    case Note(text, _) => Response(stack, [Comment(text)])
    case Skipped(_) => Response(stack, [])
    case Ending(tag, _) => Closed(stack, AfterEnd(stack, lexer.lowercase(tag)))
    case Starting(tagName, attrs, unary0, _) =>
      var tag := lexer.lowercase(tagName);
      var unary, kept := tag in tables.voidElements || unary0, Closed(stack, KeptUnder(tables, stack, tag));
      Response(kept.stack + (if unary then [] else [tag]), kept.events + [Start(tag, attrs, unary)])
    case Plain(text, _) => Response(stack, [Chars(lexer.decodeEntities(text))])
    case Raw(text, _) =>
      var top := if stack == [] then Closed(stack, 0) else Closed(stack, |stack| - 1);
      Response(top.stack, [Chars(lexer.decodeEntities(text))] + top.events)
    case Unended(_) => if stack == [] then Response(stack, []) else Closed(stack, |stack| - 1)
  }

  // ---- a whole run ----

  datatype Result = Parsed | BadParse(html: string)

  datatype Run = Run(events: seq<Event>, result: Result)

  /** The rounds one after another, until the input is used up or a round leaves it as it is; at the end
      everything open is closed. */
  ghost function Parsing(tables: Tables, lexer: Lexer, html: string, stack: seq<string>): Run
    requires lexer.Valid()
    decreases |html|
  {
    if html == "" then Run(Closing(stack, 0), Parsed)
    else
      var p := PieceOf(tables, lexer, html, stack);
      var r := Respond(tables, lexer, stack, p);
      if p.rest == html then Run(r.events, BadParse(html))
      else
        var more := Parsing(tables, lexer, p.rest, r.stack);
        Run(r.events + more.events, more.result)
  }

  lemma ParsingUnfolds(tables: Tables, lexer: Lexer, html: string, stack: seq<string>, rest: string, r: Response)
    requires lexer.Valid() && html != "" && rest == Rest(PieceOf(tables, lexer, html, stack))
    requires r == Respond(tables, lexer, stack, PieceOf(tables, lexer, html, stack))
    ensures Parsing(tables, lexer, html, stack) ==
      if rest == html then Run(r.events, BadParse(html))
      else
        var more := Parsing(tables, lexer, rest, r.stack);
        Run(r.events + more.events, more.result)
  {
  }

  /** What is reported before a round and what is still to come, after the round. */
  lemma RunStep(tables: Tables, lexer: Lexer, html: string, stack: seq<string>, run: Run, start: seq<Event>,
                before: seq<Event>, rest: string, r: Response)
    requires lexer.Valid() && html != "" && rest == Rest(PieceOf(tables, lexer, html, stack))
    requires r == Respond(tables, lexer, stack, PieceOf(tables, lexer, html, stack))
    requires Remains(tables, lexer, html, stack, run, start, before)
    ensures rest == html ==> run.result == BadParse(html) && start + run.events == before + r.events
    ensures rest != html ==> Remains(tables, lexer, rest, r.stack, run, start, before + r.events)
  {
    ParsingUnfolds(tables, lexer, html, stack, rest, r);
    if rest != html { Regroup(before, r.events, Parsing(tables, lexer, rest, r.stack).events); }
  }

  lemma Regroup(a: seq<Event>, b: seq<Event>, c: seq<Event>)
    ensures a + (b + c) == (a + b) + c
  {
  }

  /** What is reported and what is still to come are the whole run. */
  ghost predicate Remains(tables: Tables, lexer: Lexer, html: string, stack: seq<string>, run: Run, start: seq<Event>,
                          before: seq<Event>)
    requires lexer.Valid()
  {
    var rest := Parsing(tables, lexer, html, stack);
    run.result == rest.result && start + run.events == before + rest.events
  }
}
