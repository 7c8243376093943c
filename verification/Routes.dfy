/** Filling a route's template and matching the path again, in angular-route.js. */
module Routes {
  import opened RouteText

  datatype Segment = Literal(text: string) | Param(name: string)

  /** Words between slashes, some of them keys, no key twice. */
  predicate TemplateOk(t: seq<Segment>) {
    && (forall i :: 0 <= i < |t| ==> SegmentOk(t[i]))
    && (forall i, j :: 0 <= i < j < |t| && t[i].Param? && t[j].Param? ==> t[i].name != t[j].name)
  }

  predicate SegmentOk(g: Segment) {
    match g
    case Literal(text) => text != "" && AllWord(text)
    case Param(name) => name != "" && AllWord(name)
  }

  function Template(t: seq<Segment>): string {
    if t == [] then ""
    else (match t[0] case Literal(text) => "/" + text case Param(name) => "/:" + name) + Template(t[1..])
  }

  function Path(t: seq<Segment>, params: map<string, string>): string {
    if t == [] then ""
    else
      (match t[0] case Literal(text) => "/" + text case Param(name) => "/" + Lookup(params, name))
      + Path(t[1..], params)
  }

  function Names(t: seq<Segment>): set<string> {
    set i | 0 <= i < |t| && t[i].Param? :: t[i].name
  }

  function NameList(t: seq<Segment>): seq<string> {
    if t == [] then []
    else (if t[0].Param? then [t[0].name] else []) + NameList(t[1..])
  }

  function Values(t: seq<Segment>, params: map<string, string>): seq<string> {
    if t == [] then []
    else (if t[0].Param? then [Lookup(params, t[0].name)] else []) + Values(t[1..], params)
  }

  /** Every key of the template has a value, not empty and without a slash. */
  predicate Supplied(t: seq<Segment>, params: map<string, string>) {
    forall i :: 0 <= i < |t| && t[i].Param? ==>
      t[i].name in params && params[t[i].name] != "" && NoSlash(params[t[i].name])
  }

  // ---- interpolation fills a template ----

  lemma {:induction false} SplitAfter(a: string, s: string)
    requires forall i :: 0 <= i < |a| ==> a[i] != ':'
    ensures Split(a + s) == [a + Split(s)[0]] + Split(s)[1..]
  {
    if a == "" {
      assert a + s == s;
      assert a + Split(s)[0] == Split(s)[0];
    } else {
      assert (a + s)[0] == a[0] && (a + s)[1..] == a[1..] + s;
      SplitAfter(a[1..], s);
      var rest := Split(a[1..] + s);
      assert rest[0] == a[1..] + Split(s)[0] && rest[1..] == Split(s)[1..];
      assert [a[0]] + rest[0] == a + Split(s)[0];
    }
  }

  lemma WordHasNoColon(a: string)
    requires AllWord(a)
    ensures forall i :: 0 <= i < |a| ==> a[i] != ':'
    ensures forall i :: 0 <= i < |a| ==> !IsLineEnd(a[i]) && a[i] != '/'
  {
    forall i | 0 <= i < |a| ensures a[i] != ':' && !IsLineEnd(a[i]) && a[i] != '/' {
      assert IsWord(a[i]);
    }
  }

  lemma {:induction false} WordLengthOf(a: string, s: string)
    requires AllWord(a) && (s == "" || !IsWord(s[0]))
    ensures WordLength(a + s) == |a|
  {
    if a == "" {
      assert a + s == s;
    } else {
      assert (a + s)[1..] == a[1..] + s;
      WordLengthOf(a[1..], s);
    }
  }

  lemma {:induction false} ToLineEndOf(s: string)
    requires forall i :: 0 <= i < |s| ==> !IsLineEnd(s[i])
    ensures ToLineEnd(s) == s
  {
    if s != "" { ToLineEndOf(s[1..]); }
  }

  /** The text up to the next key: nothing, or words after slashes. */
  predicate BetweenKeys(s: string) {
    (s == "" || s[0] == '/') && forall i :: 0 <= i < |s| ==> !IsLineEnd(s[i])
  }

  lemma MatchNamed(name: string, s: string)
    requires name != "" && AllWord(name) && BetweenKeys(s)
    ensures MatchPart(name + s) == RouteText.Part(name, s)
  {
    WordLengthOf(name, s);
    assert FromWord(name + s) == name + s by { assert IsWord((name + s)[0]); }
    assert (name + s)[..|name|] == name && (name + s)[|name|..] == s;
    ToLineEndOf(s);
  }

  lemma {:induction false} FirstPart(t: seq<Segment>)
    requires forall i :: 0 <= i < |t| ==> SegmentOk(t[i])
    ensures BetweenKeys(Split(Template(t))[0])
  {
    if t != [] {
      assert SegmentOk(t[0]);
      FirstPart(t[1..]);
      match t[0]
      case Literal(text) => LiteralParts(text, Template(t[1..]));
      case Param(name) => ParamParts(name, Template(t[1..]));
    }
  }

  lemma LiteralParts(text: string, s: string)
    requires AllWord(text)
    ensures Split("/" + text + s) == ["/" + text + Split(s)[0]] + Split(s)[1..]
    ensures forall i :: 0 <= i < |text| ==> !IsLineEnd(text[i])
  {
    WordHasNoColon(text);
    SplitAfter("/" + text, s);
  }

  lemma ParamParts(name: string, s: string)
    requires AllWord(name)
    ensures Split("/:" + name + s) == ["/"] + Split(name + s)
  {
    var named := name + s;
    assert "/:" + name + s == "/:" + named;
    OpenSplits(named);
  }

  lemma NameParts(name: string, s: string)
    requires AllWord(name)
    ensures Split(name + s) == [name + Split(s)[0]] + Split(s)[1..]
  {
    WordHasNoColon(name);
    SplitAfter(name, s);
  }

  lemma OpenSplits(s: string)
    ensures Split("/:" + s) == ["/"] + Split(s)
  {
    var all := "/:" + s;
    assert all[0] == '/' && all[1..] == ":" + s;
    ColonSplits(s);
    assert ['/'] + "" == "/";
  }

  lemma ColonSplits(s: string)
    ensures Split(":" + s) == [""] + Split(s)
  {
    assert (":" + s)[1..] == s;
  }

  lemma PathWithout(t: seq<Segment>, params: map<string, string>, key: string)
    requires key !in Names(t)
    ensures Path(t, params - {key}) == Path(t, params)
  {
    if t != [] {
      assert t[0].Param? ==> t[0].name in Names(t);
      assert forall i :: 0 <= i < |t| - 1 ==> t[1..][i] == t[i + 1];
      PathWithout(t[1..], params, key);
    }
  }

  lemma NamesCons(t: seq<Segment>)
    requires t != []
    ensures Names(t) == Names(t[1..]) + (if t[0].Param? then {t[0].name} else {})
  {
    assert forall i :: 1 <= i < |t| ==> t[i] == t[1..][i - 1];
    assert forall i :: 0 <= i < |t| - 1 ==> t[1..][i] == t[i + 1];
  }

  lemma TemplateTail(t: seq<Segment>)
    requires t != [] && TemplateOk(t)
    ensures TemplateOk(t[1..]) && SegmentOk(t[0]) && (t[0].Param? ==> t[0].name !in Names(t[1..]))
  {
  }

  lemma InterpolatedIs(s: string, first: string, rest: seq<string>, params: map<string, string>)
    requires Split(s) == [first] + rest
    ensures Interpolated(s, params) == After(first, FillParts(rest, params))
  {
    assert Split(s)[1..] == rest;
  }

  lemma FillCons(part: string, rest: seq<string>, params: map<string, string>, name: string, after: string)
    requires MatchPart(part) == RouteText.Part(name, after)
    ensures FillParts([part] + rest, params) == After(Lookup(params, name) + after, FillParts(rest, params - {name}))
  {
    assert ([part] + rest)[1..] == rest;
  }

  lemma ParamOpened(name: string, s: string, params: map<string, string>)
    requires AllWord(name)
    ensures Interpolated("/:" + name + s, params)
         == After("/", FillParts([name + Split(s)[0]] + Split(s)[1..], params))
  {
    ParamParts(name, s);
    NameParts(name, s);
    InterpolatedIs("/:" + name + s, "/", Split(name + s), params);
  }

  lemma AfterRegrouped(a: string, b: string, c: string, o: Outcome)
    ensures After(a, After(b + c, o)) == After(a + b, After(c, o))
  {
    if o.Filled? { assert a + (b + c + o.text) == a + b + (c + o.text); }
  }

  lemma ParamFilled(name: string, s: string, params: map<string, string>)
    requires name != "" && AllWord(name) && BetweenKeys(Split(s)[0])
    ensures Interpolated("/:" + name + s, params)
         == After("/" + Lookup(params, name), Interpolated(s, params - {name}))
  {
    var first, rest := Split(s)[0], Split(s)[1..];
    ParamOpened(name, s, params);
    MatchNamed(name, first);
    FillCons(name + first, rest, params, name, first);
    AfterRegrouped("/", Lookup(params, name), first, FillParts(rest, params - {name}));
    InterpolatedIs(s, first, rest, params - {name});
  }

  lemma LiteralFilled(text: string, s: string, params: map<string, string>)
    requires AllWord(text)
    ensures Interpolated("/" + text + s, params) == After("/" + text, Interpolated(s, params))
  {
    var first, rest := Split(s)[0], Split(s)[1..];
    LiteralParts(text, s);
    InterpolatedIs("/" + text + s, "/" + text + first, rest, params);
    AfterTwice("/" + text, first, FillParts(rest, params));
    assert Split(s) == [first] + rest;
    InterpolatedIs(s, first, rest, params);
  }

  lemma LessNames(params: map<string, string>, name: string, names: set<string>)
    ensures params - {name} - names == params - (names + {name})
  {
  }

  lemma FillsParam(t: seq<Segment>, params: map<string, string>)
    requires t != [] && TemplateOk(t) && t[0].Param?
    requires
      var left := params - {t[0].name};
      Interpolated(Template(t[1..]), left) == Filled(Path(t[1..], left), left - Names(t[1..]))
    ensures Interpolated(Template(t), params) == Filled(Path(t, params), params - Names(t))
  {
    TemplateTail(t);
    FirstPart(t[1..]);
    PathWithout(t[1..], params, t[0].name);
    ParamFilled(t[0].name, Template(t[1..]), params);
    NamesCons(t);
    LessNames(params, t[0].name, Names(t[1..]));
  }

  lemma FillsLiteral(t: seq<Segment>, params: map<string, string>)
    requires t != [] && TemplateOk(t) && t[0].Literal?
    requires Interpolated(Template(t[1..]), params) == Filled(Path(t[1..], params), params - Names(t[1..]))
    ensures Interpolated(Template(t), params) == Filled(Path(t, params), params - Names(t))
  {
    assert SegmentOk(t[0]);
    LiteralFilled(t[0].text, Template(t[1..]), params);
    NamesCons(t);
  }

  /** `interpolate` puts each key's value in its place and takes exactly the keys of the template out of the map. */
  lemma {:induction false} FillsTemplate(t: seq<Segment>, params: map<string, string>)
    requires TemplateOk(t)
    ensures Interpolated(Template(t), params) == Filled(Path(t, params), params - Names(t))
  {
    if t == [] {
      assert params - Names(t) == params;
    } else {
      TemplateTail(t);
      if t[0].Literal? {
        FillsTemplate(t[1..], params);
        FillsLiteral(t, params);
      } else {
        FillsTemplate(t[1..], params - {t[0].name});
        FillsParam(t, params);
      }
    }
  }

  // ---- matching the path again ----

  function Chars(s: string): seq<Token> {
    if s == "" then [] else [Char(s[0])] + Chars(s[1..])
  }

  function Pattern(t: seq<Segment>): seq<Token> {
    if t == [] then []
    else
      (match t[0] case Literal(text) => [Char('/')] + Chars(text) case Param(name) => [Key(true, name, Plain)])
      + Pattern(t[1..])
  }

  lemma {:induction false} TokensOfWord(a: string, s: string)
    requires AllWord(a)
    ensures Tokens(a + s) == Chars(a) + Tokens(s)
  {
    if a == "" {
      assert a + s == s;
    } else {
      assert IsWord(a[0]);
      assert (a + s)[0] == a[0] && (a + s)[1..] == a[1..] + s;
      assert KeyAt(a + s).1 == 0;
      TokensOfWord(a[1..], s);
      assert [Char(a[0])] + (Chars(a[1..]) + Tokens(s)) == [Char(a[0])] + Chars(a[1..]) + Tokens(s);
    }
  }

  lemma TokensOfLiteral(text: string, s: string)
    requires text != "" && AllWord(text)
    ensures Tokens("/" + text + s) == [Char('/')] + Chars(text) + Tokens(s)
  {
    var all := "/" + text + s;
    assert all[0] == '/' && all[1..] == text + s;
    assert IsWord(text[0]) && all[1] == text[0];
    assert KeyAt(all).1 == 0;
    TokensOfWord(text, s);
    assert [Char('/')] + (Chars(text) + Tokens(s)) == [Char('/')] + Chars(text) + Tokens(s);
  }

  lemma TokensOfParam(name: string, s: string)
    requires name != "" && AllWord(name) && (s == "" || s[0] == '/')
    ensures Tokens("/:" + name + s) == [Key(true, name, Plain)] + Tokens(s)
  {
    var all := "/:" + name + s;
    KeyOfParam(name, s);
    assert all[2 + |name|..] == s;
  }

  lemma KeyOfParam(name: string, s: string)
    requires name != "" && AllWord(name) && (s == "" || s[0] == '/')
    ensures KeyAt("/:" + name + s) == (Key(true, name, Plain), 2 + |name|)
  {
    var all := "/:" + name + s;
    assert all[0] == '/' && all[1] == ':' && all[2..] == name + s;
    WordLengthOf(name, s);
    assert all[2..2 + |name|] == name;
    assert s != "" ==> all[2 + |name|] == s[0];
  }

  lemma TemplateStart(t: seq<Segment>)
    ensures Template(t) == "" || Template(t)[0] == '/'
  {
  }

  lemma {:induction false} TokensOfTemplate(t: seq<Segment>)
    requires forall i :: 0 <= i < |t| ==> SegmentOk(t[i])
    ensures Tokens(Template(t)) == Pattern(t)
  {
    if t != [] {
      assert SegmentOk(t[0]);
      TokensOfTemplate(t[1..]);
      TemplateStart(t[1..]);
      match t[0]
      case Literal(text) => TokensOfLiteral(text, Template(t[1..]));
      case Param(name) => TokensOfParam(name, Template(t[1..]));
    }
  }

  lemma {:induction false} KeysConcat(a: seq<Token>, b: seq<Token>)
    ensures Keys(a + b) == Keys(a) + Keys(b)
  {
    if a == [] {
      assert a + b == b;
    } else {
      assert (a + b)[1..] == a[1..] + b;
      KeysConcat(a[1..], b);
    }
  }

  lemma {:induction false} NoKeys(s: string)
    ensures Keys(Chars(s)) == []
  {
    if s != "" {
      NoKeys(s[1..]);
      assert Chars(s)[1..] == Chars(s[1..]);
    }
  }

  lemma {:induction false} KeysOfPattern(t: seq<Segment>)
    ensures Keys(Pattern(t)) == NameList(t)
  {
    if t != [] {
      KeysOfPattern(t[1..]);
      match t[0]
      case Literal(text) =>
        KeysConcat([Char('/')] + Chars(text), Pattern(t[1..]));
        KeysConcat([Char('/')], Chars(text));
        NoKeys(text);
      case Param(name) =>
        KeysConcat([Key(true, name, Plain)], Pattern(t[1..]));
        assert [Key(true, name, Plain)][1..] == [];
    }
  }

  lemma {:induction false} MatchChars(a: string, ts: seq<Token>, s: string, caps: seq<string>)
    ensures Matches(Chars(a) + ts, a + s, caps) <==> Matches(ts, s, caps)
  {
    if a == "" {
      assert Chars(a) + ts == ts && a + s == s;
    } else {
      var c, rest := a[0], a[1..];
      MatchChars(rest, ts, s, caps);
      assert Chars(a) == [Char(c)] + Chars(rest);
      assert Chars(a) + ts == [Char(c)] + (Chars(rest) + ts) && a + s == [c] + (rest + s);
      MatchOneChar(c, Chars(rest) + ts, rest + s, caps);
    }
  }

  lemma MatchOneChar(c: char, ts: seq<Token>, s: string, caps: seq<string>)
    ensures Matches([Char(c)] + ts, [c] + s, caps) <==> Matches(ts, s, caps)
  {
    assert ([Char(c)] + ts)[1..] == ts && ([c] + s)[1..] == s;
  }

  /** A slash-free text at the start of the value and what follows it lies within the value. */
  lemma WithinValue(v: string, value: string, s: string)
    requires NoSlash(v) && NoSlash(value) && (s == "" || s[0] == '/') && v <= value + s
    ensures |v| <= |value| && (value + s)[|v|..] == value[|v|..] + s && (|v| == |value| ==> v == value)
  {
    assert forall i :: 0 <= i < |v| ==> v[i] == (value + s)[i];
    assert s != "" ==> (value + s)[|value|] == '/';
  }

  lemma MatchesKey(name: string, ts: seq<Token>, s: string, caps: seq<string>)
    ensures Matches([Key(true, name, Plain)] + ts, "/" + s, caps) <==>
      (caps != [] && caps[0] != "" && NoSlash(caps[0]) && caps[0] <= s && Matches(ts, s[|caps[0]|..], caps[1..]))
  {
    var all, on := [Key(true, name, Plain)] + ts, "/" + s;
    assert all[0] == Key(true, name, Plain) && all[1..] == ts;
    assert on[0] == '/' && on[1..] == s;
  }

  /** Before a slash or the end there is only one slash-free prefix that leaves a match. */
  lemma MatchKey(name: string, value: string, ts: seq<Token>, s: string, caps: seq<string>)
    requires value != "" && NoSlash(value) && (s == "" || s[0] == '/')
    requires forall cs, k :: 0 < k < |value| ==> !Matches(ts, value[k..] + s, cs)
    ensures Matches([Key(true, name, Plain)] + ts, "/" + (value + s), caps)
       <==> caps != [] && caps[0] == value && Matches(ts, s, caps[1..])
  {
    MatchesKey(name, ts, value + s, caps);
    if caps != [] && NoSlash(caps[0]) && caps[0] <= value + s {
      WithinValue(caps[0], value, s);
      assert value[|value|..] + s == s;
    }
    assert (value + s)[|value|..] == s && value <= value + s;
  }

  /** No pattern of a template starts to match before a slash. */
  lemma NeedsSlash(t: seq<Segment>, s: string, caps: seq<string>)
    requires s != "" && s[0] != '/'
    ensures !Matches(Pattern(t), s, caps)
  {
    if t != [] {
      match t[0]
      case Literal(text) => assert Pattern(t)[0] == Char('/');
      case Param(name) => assert Pattern(t)[0] == Key(true, name, Plain);
    }
  }

  lemma PathStart(t: seq<Segment>, params: map<string, string>)
    ensures Path(t, params) == "" || Path(t, params)[0] == '/'
  {
  }

  /** The filled path matches the pattern in exactly one way: with the values that were filled in. */
  lemma {:induction false} MatchesOnlyValues(t: seq<Segment>, params: map<string, string>, caps: seq<string>)
    requires TemplateOk(t) && Supplied(t, params)
    ensures Matches(Pattern(t), Path(t, params), caps) <==> caps == Values(t, params)
  {
    if t != [] {
      TemplateTail(t);
      var ts, s := Pattern(t[1..]), Path(t[1..], params);
      match t[0]
      case Literal(text) =>
        MatchesOnlyValues(t[1..], params, caps);
        MatchLiteral(text, ts, s, caps);
      case Param(name) =>
        if caps != [] { MatchesOnlyValues(t[1..], params, caps[1..]); }
        PathStart(t[1..], params);
        var value := params[name];
        forall cs, k | 0 < k < |value| ensures !Matches(ts, value[k..] + s, cs) {
          assert (value[k..] + s)[0] == value[k];
          NeedsSlash(t[1..], value[k..] + s, cs);
        }
        MatchKey(name, value, ts, s, caps);
        assert "/" + value + s == "/" + (value + s);
        assert Values(t, params) == [value] + Values(t[1..], params);
        assert caps != [] ==> caps == [caps[0]] + caps[1..];
    }
  }

  lemma MatchLiteral(text: string, ts: seq<Token>, s: string, caps: seq<string>)
    ensures Matches([Char('/')] + Chars(text) + ts, "/" + text + s, caps) <==> Matches(ts, s, caps)
  {
    var a := "/" + text;
    assert a[0] == '/' && a[1..] == text;
    assert Chars(a) == [Char('/')] + Chars(text);
    MatchChars(a, ts, s, caps);
  }

  lemma SuppliedCons(t: seq<Segment>, params: map<string, string>)
    requires t != []
    ensures Supplied(t, params) <==>
      (Supplied([t[0]], params) && Supplied(t[1..], params))
  {
    assert forall i :: 1 <= i < |t| ==> t[i] == t[1..][i - 1];
    assert forall i :: 0 <= i < |t| - 1 ==> t[1..][i] == t[i + 1];
    assert [t[0]][0] == t[0];
  }

  lemma CapturedParam(name: string, value: string, ts: seq<Token>, s: string, caps: seq<string>)
    ensures Matches([Key(true, name, Plain)] + ts, "/" + value + s, [value] + caps) <==>
      (value != "" && NoSlash(value) && Matches(ts, s, caps))
  {
    MatchesKey(name, ts, value + s, [value] + caps);
    assert "/" + value + s == "/" + (value + s) && (value + s)[|value|..] == s && value <= value + s;
    assert ([value] + caps)[1..] == caps;
  }

  /** The values filled in are what the match captures exactly if none is missing or empty or has a slash. */
  lemma {:induction false} CapturedIffSupplied(t: seq<Segment>, params: map<string, string>)
    requires TemplateOk(t)
    ensures Matches(Pattern(t), Path(t, params), Values(t, params)) <==> Supplied(t, params)
  {
    if t != [] {
      TemplateTail(t);
      SuppliedCons(t, params);
      CapturedIffSupplied(t[1..], params);
      match t[0]
      case Literal(text) =>
        MatchLiteral(text, Pattern(t[1..]), Path(t[1..], params), Values(t[1..], params));
        assert Values(t, params) == Values(t[1..], params);
      case Param(name) =>
        CapturedParam(name, Lookup(params, name), Pattern(t[1..]), Path(t[1..], params), Values(t[1..], params));
    }
  }

  // ---- the round trip ----

  lemma {:induction false} CollectedConcat(a: seq<string>, av: seq<string>, b: seq<string>, bv: seq<string>)
    requires |a| == |av| && |b| == |bv|
    ensures Collected(a + b, av + bv) == Collected(a, av) + Collected(b, bv)
  {
    if b == [] {
      assert a + b == a && av + bv == av;
    } else {
      var n := |b| - 1;
      assert (a + b)[..|a| + n] == a + b[..n] && (av + bv)[..|a| + n] == av + bv[..n];
      CollectedConcat(a, av, b[..n], bv[..n]);
    }
  }

  lemma {:induction false} CountNames(t: seq<Segment>, params: map<string, string>)
    ensures |NameList(t)| == |Values(t, params)|
  {
    if t != [] { CountNames(t[1..], params); }
  }

  /** The parameters that the template names. */
  function Named(t: seq<Segment>, params: map<string, string>): map<string, string> {
    map k | k in params && k in Names(t) :: params[k]
  }

  lemma CollectedOne(name: string, value: string)
    requires value != ""
    ensures Collected([name], [value]) == map[name := value]
  {
    assert [name][..0] == [] && [value][..0] == [];
  }

  lemma {:induction false} CollectedValues(t: seq<Segment>, params: map<string, string>)
    requires TemplateOk(t) && Supplied(t, params)
    ensures |NameList(t)| == |Values(t, params)|
    ensures Collected(NameList(t), Values(t, params)) == Named(t, params)
  {
    CountNames(t, params);
    if t != [] {
      TemplateTail(t);
      NamesCons(t);
      CollectedValues(t[1..], params);
      if t[0].Param? {
        CollectedParam(t, params);
      } else {
        assert NameList(t) == NameList(t[1..]) && Values(t, params) == Values(t[1..], params);
        assert Named(t, params) == Named(t[1..], params);
      }
    }
  }

  lemma CollectedParam(t: seq<Segment>, params: map<string, string>)
    requires t != [] && TemplateOk(t) && Supplied(t, params) && t[0].Param?
    requires |NameList(t[1..])| == |Values(t[1..], params)|
    requires Collected(NameList(t[1..]), Values(t[1..], params)) == Named(t[1..], params)
    ensures |NameList(t)| == |Values(t, params)| && Collected(NameList(t), Values(t, params)) == Named(t, params)
  {
    var name := t[0].name;
    var value := params[name];
    assert NameList(t) == [name] + NameList(t[1..]) && Values(t, params) == [value] + Values(t[1..], params);
    CollectedConcat([name], [value], NameList(t[1..]), Values(t[1..], params));
    CollectedOne(name, value);
    NamedCons(t, params);
  }

  lemma NamedCons(t: seq<Segment>, params: map<string, string>)
    requires t != [] && t[0].Param? && t[0].name in params
    ensures Named(t, params) == map[t[0].name := params[t[0].name]] + Named(t[1..], params)
  {
    NamesCons(t);
  }

  /** What `parseRoute` makes of a match: the search parameters, overridden by those of the path. */
  function RouteParams(search: map<string, string>, pathParams: map<string, string>): map<string, string> {
    search + pathParams
  }

  /** Filling a template and matching the path again: exactly one match, whose parameters are those the template
      names; together with the rest, which becomes the query, they are the ones that were filled in. */
  lemma RoundTrip(t: seq<Segment>, params: map<string, string>, caps: seq<string>)
    requires TemplateOk(t) && Supplied(t, params)
    ensures
      var o, ts := Interpolated(Template(t), params), Tokens(Template(t));
      && o.Filled? && o.params == params - Names(t)
      && Matches(ts, o.text, Values(t, params))
      && (Matches(ts, o.text, caps) ==>
            && |caps| == |Keys(ts)| && Collected(Keys(ts), caps) == Named(t, params)
            && RouteParams(o.params, Collected(Keys(ts), caps)) == params)
  {
    FillsTemplate(t, params);
    TokensOfTemplate(t);
    KeysOfPattern(t);
    MatchesOnlyValues(t, params, caps);
    MatchesOnlyValues(t, params, Values(t, params));
    CollectedValues(t, params);
    NamedAndRest(t, params);
  }

  lemma NamedAndRest(t: seq<Segment>, params: map<string, string>)
    ensures (params - Names(t)) + Named(t, params) == params
  {
  }

  /** `updateParams`: the path and the query that the new parameters lead to. */
  method UpdateParams(template: string, current: map<string, string>, newParams0: map<string, string>)
    returns (o: Outcome)
    ensures o == Interpolated(template, current + newParams0)
  {
    var newParams := current + newParams0;
    o := Interpolate(template, newParams);
  }

  /** After `updateParams`, the route that is parsed from the new location has the current parameters, overridden
      by the new ones, whichever way the engine matches. */
  method UpdateThenParse(t: seq<Segment>, current: map<string, string>, newParams: map<string, string>,
                         caps: seq<string>)
    returns (params: map<string, string>)
    requires TemplateOk(t) && Supplied(t, current + newParams)
    requires
      var o := Interpolated(Template(t), current + newParams);
      o.Filled? ==> Matches(Tokens(Template(t)), o.text, caps)
    ensures params == current + newParams
  {
    RoundTrip(t, current + newParams, caps);
    var o := UpdateParams(Template(t), current, newParams);
    var matched := SwitchRouteMatcher(Keys(Tokens(Template(t))), true, caps);
    params := o.params + matched.values;
  }
}
