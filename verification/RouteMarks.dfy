/** Templates whose keys carry the marks `?` and `*`. */
module RouteMarks {
  import opened RouteText
  import opened Routes

  function MarkText(m: Mark): string {
    match m
    case Plain => ""
    case Optional => "?"
    case Star => "*"
  }

  /** The template with a mark behind each key. */
  function Marked(t: seq<Segment>, marks: seq<Mark>): string
    requires |marks| == |t|
  {
    if t == [] then ""
    else
      (match t[0]
       case Literal(text) => "/" + text
       case Param(name) => "/:" + name + MarkText(marks[0]))
      + Marked(t[1..], marks[1..])
  }

  // ---- a mark is not part of the path ----

  /** Behind the first part, which they share, the parts of two texts are matched alike. */
  predicate Alike(a: seq<string>, b: seq<string>) {
    |a| == |b| > 0 && a[0] == b[0] && forall k :: 1 <= k < |a| ==> MatchPart(a[k]) == MatchPart(b[k])
  }

  lemma {:induction false} FillAlike(a: seq<string>, b: seq<string>, params: map<string, string>)
    requires |a| == |b| && forall k :: 0 <= k < |a| ==> MatchPart(a[k]) == MatchPart(b[k])
    ensures FillParts(a, params) == FillParts(b, params)
  {
    if a != [] {
      match MatchPart(a[0])
      case NoMatch =>
      case Part(key, _) => FillAlike(a[1..], b[1..], params - {key});
    }
  }

  lemma MatchMarked(name: string, mark: string, s: string)
    requires name != "" && AllWord(name) && (mark == "?" || mark == "*") && BetweenKeys(s)
    ensures MatchPart(name + mark + s) == RouteText.Part(name, s)
  {
    var t := name + mark + s;
    assert t == name + (mark + s);
    WordLengthOf(name, mark + s);
    assert FromWord(t) == t by { assert IsWord(t[0]); }
    assert t[..|name|] == name && t[|name|] == mark[0] && t[|name| + 1..] == s;
    ToLineEndOf(s);
  }

  lemma KeyParts(name: string, mark: string, s: string)
    requires AllWord(name) && (mark == "" || mark == "?" || mark == "*")
    ensures Split("/:" + name + mark + s) == ["/", name + mark + Split(s)[0]] + Split(s)[1..]
  {
    NoColon(name, mark);
    Regrouped("/:", name, mark, s);
    KeySplits(name + mark, s);
  }

  lemma Regrouped(a: string, b: string, c: string, d: string)
    ensures a + b + c + d == a + (b + c + d)
  {
  }

  lemma KeySplits(key: string, s: string)
    requires forall i :: 0 <= i < |key| ==> key[i] != ':'
    ensures Split("/:" + (key + s)) == ["/", key + Split(s)[0]] + Split(s)[1..]
  {
    SplitAfter(key, s);
    OpenSplits(key + s);
    InFront("/", key + Split(s)[0], Split(s)[1..]);
  }

  lemma InFront(a: string, b: string, rest: seq<string>)
    ensures [a] + ([b] + rest) == [a, b] + rest
  {
  }

  lemma NoColon(name: string, mark: string)
    requires AllWord(name) && (mark == "" || mark == "?" || mark == "*")
    ensures forall i :: 0 <= i < |name + mark| ==> (name + mark)[i] != ':'
  {
    WordHasNoColon(name);
  }

  lemma MarkedKeyAlike(name: string, mark: string, s: string, r: string)
    requires name != "" && AllWord(name) && (mark == "" || mark == "?" || mark == "*")
    requires Alike(Split(s), Split(r)) && BetweenKeys(Split(r)[0])
    ensures Alike(Split("/:" + name + mark + s), Split("/:" + name + r))
  {
    var a, b := Split(s), Split(r);
    var p, q := name + mark + a[0], name + b[0];
    KeyParts(name, mark, s);
    PlainParts(name, r);
    MatchAlike(name, mark, b[0], p, q);
    AlikeBehind(a, b, p, q);
    var c, d := Split("/:" + name + mark + s), Split("/:" + name + r);
    assert c == ["/", p] + a[1..];
    assert d == ["/", q] + b[1..];
  }

  lemma MatchAlike(name: string, mark: string, s: string, p: string, q: string)
    requires name != "" && AllWord(name) && (mark == "" || mark == "?" || mark == "*") && BetweenKeys(s)
    requires p == name + mark + s && q == name + s
    ensures MatchPart(p) == MatchPart(q)
  {
    MatchNamed(name, s);
    if mark == "" { assert p == q; } else { MatchMarked(name, mark, s); }
  }

  lemma PlainParts(name: string, s: string)
    requires AllWord(name)
    ensures Split("/:" + name + s) == ["/", name + Split(s)[0]] + Split(s)[1..]
  {
    KeyParts(name, "", s);
    assert "/:" + name + "" + s == "/:" + name + s && name + "" + Split(s)[0] == name + Split(s)[0];
  }

  lemma AlikeBehind(a: seq<string>, b: seq<string>, p: string, q: string)
    requires Alike(a, b) && MatchPart(p) == MatchPart(q)
    ensures Alike(["/", p] + a[1..], ["/", q] + b[1..])
  {
    var c, d := ["/", p] + a[1..], ["/", q] + b[1..];
    forall k | 1 <= k < |c| ensures MatchPart(c[k]) == MatchPart(d[k]) {
      if k > 1 { assert c[k] == a[k - 1] && d[k] == b[k - 1]; }
    }
  }

  lemma LiteralAlike(text: string, s: string, r: string)
    requires AllWord(text) && Alike(Split(s), Split(r))
    ensures Alike(Split("/" + text + s), Split("/" + text + r))
  {
    LiteralParts(text, s);
    LiteralParts(text, r);
  }

  lemma {:induction false} MarkedParts(t: seq<Segment>, marks: seq<Mark>)
    requires |marks| == |t| && forall i :: 0 <= i < |t| ==> SegmentOk(t[i])
    ensures Alike(Split(Marked(t, marks)), Split(Template(t)))
  {
    if t != [] {
      var s, r := Marked(t[1..], marks[1..]), Template(t[1..]);
      assert SegmentOk(t[0]);
      MarkedParts(t[1..], marks[1..]);
      match t[0]
      case Literal(text) => LiteralAlike(text, s, r);
      case Param(name) =>
        FirstPart(t[1..]);
        MarkedKeyAlike(name, MarkText(marks[0]), s, r);
    }
  }

  /** Main result: a template is filled as if its keys had no marks. */
  lemma MarksFillAlike(t: seq<Segment>, marks: seq<Mark>, params: map<string, string>)
    requires |marks| == |t| && forall i :: 0 <= i < |t| ==> SegmentOk(t[i])
    ensures Interpolated(Marked(t, marks), params) == Interpolated(Template(t), params)
  {
    MarkedParts(t, marks);
    FillAlike(Split(Marked(t, marks))[1..], Split(Template(t))[1..], params);
  }

  // ---- what a marked key matches ----

  lemma KeyTokens(name: string, m: Mark)
    requires name != "" && AllWord(name)
    ensures Tokens("/:" + name + MarkText(m)) == [Key(true, name, m)]
  {
    var mark := MarkText(m);
    var s := "/:" + name + mark;
    KeyAtStart(name, m, s);
    assert s[|s|..] == "" && Tokens("") == [];
    assert [Key(true, name, m)] + [] == [Key(true, name, m)];
  }

  lemma KeyAtStart(name: string, m: Mark, s: string)
    requires name != "" && AllWord(name) && s == "/:" + name + MarkText(m)
    ensures s != "" && KeyAt(s) == (Key(true, name, m), |s|)
  {
    var mark := MarkText(m);
    WordLengthOf(name, mark);
    assert s[0] == '/' && s[1] == ':' && s[2..] == name + mark;
    assert s[2..2 + |name|] == name;
    if m != Plain { assert s[2 + |name|] == mark[0]; }
  }

  /** A plain key takes one part of a path, not empty; an optional one may find nothing, or an empty part, and takes
      nothing then; a star takes all the rest of a line, slashes included. */
  lemma KeyMatches(name: string, m: Mark, s: string, v: string)
    ensures Matches([Key(true, name, m)], s, [v]) <==>
      match m
      case Plain => v != "" && NoSlash(v) && s == "/" + v
      case Star => v != "" && (forall i :: 0 <= i < |v| ==> !IsLineEnd(v[i])) && s == "/" + v
      case Optional => (v == "" && (s == "" || s == "/")) || (v != "" && NoSlash(v) && s == "/" + v)
  {
    var slashed := s != "" && s[0] == '/';
    var here := if slashed then s[1..] else s;
    AllTaken(here, v);
    Slashed(s, v);
    LastKey(Key(true, name, m), s, v);
  }

  /** All the rest of the text is taken. */
  lemma AllTaken(here: string, v: string)
    ensures v <= here && here[|v|..] == "" <==> here == v
  {
  }

  lemma Slashed(s: string, v: string)
    ensures s == "/" + v <==> s != "" && s[0] == '/' && s[1..] == v
  {
    assert ("/" + v)[1..] == v;
    if s != "" && s[0] == '/' { assert s == [s[0]] + s[1..]; }
  }

  /** A key that is the last token takes what is left of the text. */
  lemma LastKey(key: Token, s: string, v: string)
    requires key.Key? && key.slash
    ensures
      var slashed := s != "" && s[0] == '/';
      var here := if slashed then s[1..] else s;
      var taken := slashed && v != "" && v <= here && here[|v|..] == "";
      Matches([key], s, [v]) <==>
        match key.mark
        case Plain => taken && NoSlash(v)
        case Star => taken && forall i :: 0 <= i < |v| ==> !IsLineEnd(v[i])
        case Optional => (v == "" && (s == "" || (slashed && here == ""))) || (taken && NoSlash(v))
  {
    assert [key][1..] == [] && [v][1..] == [];
    assert Matches([], "", []);
  }
}
