/** Filling in and compiling route templates, in angular-route.js. */
module RouteText {

  predicate IsWord(c: char) {
    'a' <= c <= 'z' || 'A' <= c <= 'Z' || '0' <= c <= '9' || c == '_'
  }

  predicate IsLineEnd(c: char) {
    c == '\n' || c == '\r' || c == '\U{2028}' || c == '\U{2029}'
  }

  predicate AllWord(s: string) {
    forall i :: 0 <= i < |s| ==> IsWord(s[i])
  }

  predicate NoSlash(s: string) {
    forall i :: 0 <= i < |s| ==> s[i] != '/'
  }

  // ---- pieces of text ----

  /** How many word characters the text starts with. */
  function WordLength(s: string): (n: nat)
    ensures n <= |s| && AllWord(s[..n]) && (n < |s| ==> !IsWord(s[n]))
  {
    if s == "" || !IsWord(s[0]) then 0
    else
      assert s[..1 + WordLength(s[1..])] == [s[0]] + s[1..][..WordLength(s[1..])];
      1 + WordLength(s[1..])
  }

  /** The text from its first word character on. */
  function FromWord(s: string): string {
    if s == "" || IsWord(s[0]) then s else FromWord(s[1..])
  }

  function ToLineEnd(s: string): string {
    if s == "" || IsLineEnd(s[0]) then "" else [s[0]] + ToLineEnd(s[1..])
  }

  /** The parts between colons. */
  function Split(s: string): (r: seq<string>)
    ensures r != []
  {
    if s == "" then [""]
    else
      var rest := Split(s[1..]);
      if s[0] == ':' then [""] + rest else [[s[0]] + rest[0]] + rest[1..]
  }

  // ---- interpolation ----

  datatype Part = NoMatch | Part(key: string, rest: string)

  /** A part after a colon: the first word in it, a possible mark, and the rest of the line. */
  function MatchPart(s: string): Part {
    var t := FromWord(s);
    var n := WordLength(t);
    if n == 0 then NoMatch
    else
      var m := if n < |t| && (t[n] == '?' || t[n] == '*') then n + 1 else n;
      Part(t[..n], ToLineEnd(t[m..]))
  }

  function Lookup(params: map<string, string>, key: string): string {
    if key in params then params[key] else ""
  }

  datatype Outcome = TypeError | Filled(text: string, params: map<string, string>)

  /** The parts after the first one, filled in from left to right; a parameter is used up by its first place. */
  function FillParts(parts: seq<string>, params: map<string, string>): Outcome {
    if parts == [] then Filled("", params)
    else
      match MatchPart(parts[0])
      case NoMatch => TypeError
      case Part(key, rest) =>
        match FillParts(parts[1..], params - {key})
        case TypeError => TypeError
        case Filled(text, left) => Filled(Lookup(params, key) + rest + text, left)
  }

  function Interpolated(s: string, params: map<string, string>): Outcome {
    var parts := Split(s);
    match FillParts(parts[1..], params)
    case TypeError => TypeError
    case Filled(text, left) => Filled(parts[0] + text, left)
  }

  /** Text put in front of an outcome. */
  function After(text: string, o: Outcome): Outcome {
    match o
    case TypeError => TypeError
    case Filled(t, left) => Filled(text + t, left)
  }

  /** `interpolate`: the parameters used are taken out of the map. */
  method Interpolate(s: string, params0: map<string, string>) returns (o: Outcome)
    ensures o == Interpolated(s, params0)
  {
    var parts := Split(s);
    var result, params := "", params0;
    var i := 0;
    while i < |parts|
      invariant 0 <= i <= |parts|
      invariant i == 0 ==> result == "" && params == params0
      invariant i > 0 ==> Interpolated(s, params0) == After(result, FillParts(parts[i..], params))
    {
      if i == 0 {
        result := result + parts[0];
      } else {
        assert parts[i..][0] == parts[i] && parts[i..][1..] == parts[i + 1..];
        match MatchPart(parts[i])
        case NoMatch => return TypeError;
        case Part(key, rest) =>
          var value := Lookup(params, key);
          AfterTwice(result, value + rest, FillParts(parts[i + 1..], params - {key}));
          result := result + (value + rest);
          params := params - {key};
      }
      i := i + 1;
    }
    assert parts[|parts|..] == [];
    o := Filled(result, params);
  }

  lemma AfterTwice(a: string, b: string, o: Outcome)
    ensures After(a, After(b, o)) == After(a + b, o)
  {
    if o.Filled? { assert a + (b + o.text) == (a + b) + o.text; }
  }

  // ---- patterns ----

  datatype Mark = Plain | Optional | Star

  /** A character to be met as it is, or a key to be captured, with the slash before it if there is one. */
  datatype Token = Char(c: char) | Key(slash: bool, name: string, mark: Mark)

  /** The key at the start of the text, and its length; length zero if there is none. */
  function KeyAt(s: string): (r: (Token, nat))
    ensures r.1 <= |s| && (r.1 > 0 ==> r.0.Key?)
  {
    var slash := |s| > 0 && s[0] == '/';
    var k := if slash then 1 else 0;
    if k < |s| && s[k] == ':' && WordLength(s[k + 1..]) > 0 then
      var n := k + 1 + WordLength(s[k + 1..]);
      var name := s[k + 1..n];
      if n < |s| && s[n] == '?' then (Key(slash, name, Optional), n + 1)
      else if n < |s| && s[n] == '*' then (Key(slash, name, Star), n + 1)
      else (Key(slash, name, Plain), n)
    else (Char('/'), 0)
  }

  function Tokens(s: string): seq<Token> {
    if s == "" then []
    else
      var (key, n) := KeyAt(s);
      if n > 0 then [key] + Tokens(s[n..]) else [Char(s[0])] + Tokens(s[1..])
  }

  function Keys(ts: seq<Token>): seq<string> {
    if ts == [] then []
    else (if ts[0].Key? then [ts[0].name] else []) + Keys(ts[1..])
  }

  /** The captures are a way for the pattern to match the whole text; one that took no part is empty. Which of
      several ways is chosen is up to the regular expression engine. */
  predicate Matches(ts: seq<Token>, s: string, caps: seq<string>) {
    if ts == [] then s == "" && caps == []
    else
      match ts[0]
      case Char(c) => s != "" && s[0] == c && Matches(ts[1..], s[1..], caps)
      case Key(slash, _, mark) =>
        && caps != []
        && var v, slashed := caps[0], s != "" && s[0] == '/';
           var here := if slash && slashed then s[1..] else s;
           match mark
           case Plain =>
             && (slash ==> slashed) && v != "" && NoSlash(v) && v <= here
             && Matches(ts[1..], here[|v|..], caps[1..])
           case Star =>
             && (slash ==> slashed) && v != "" && (forall i :: 0 <= i < |v| ==> !IsLineEnd(v[i]))
             && v <= here && Matches(ts[1..], here[|v|..], caps[1..])
           case Optional =>
             || (v == "" && (Matches(ts[1..], s, caps[1..]) || (slash && slashed && Matches(ts[1..], here, caps[1..]))))
             || (&& (slash ==> slashed) && v != "" && NoSlash(v) && v <= here
                 && Matches(ts[1..], here[|v|..], caps[1..]))
  }

  // ---- what a match yields ----

  /** The parameters of a match; an empty capture yields none, a later one of the same name wins. */
  function Collected(keys: seq<string>, caps: seq<string>): map<string, string>
    requires |keys| == |caps|
  {
    if keys == [] then map[]
    else
      var n := |keys| - 1;
      var before := Collected(keys[..n], caps[..n]);
      if caps[n] != "" then before[keys[n] := caps[n]] else before
  }

  lemma {:induction false} CapturePerKey(ts: seq<Token>, s: string, caps: seq<string>)
    requires Matches(ts, s, caps)
    ensures |caps| == |Keys(ts)|
    decreases |ts|
  {
    if ts != [] {
      match ts[0]
      case Char(_) => CapturePerKey(ts[1..], s[1..], caps);
      case Key(slash, _, mark) =>
        var here := if slash && s != "" && s[0] == '/' then s[1..] else s;
        if mark.Optional? && caps[0] == "" {
          if Matches(ts[1..], s, caps[1..]) {
            CapturePerKey(ts[1..], s, caps[1..]);
          } else {
            CapturePerKey(ts[1..], here, caps[1..]);
          }
        } else {
          CapturePerKey(ts[1..], here[|caps[0]|..], caps[1..]);
        }
    }
  }

  datatype Params = NoRoute | Params(values: map<string, string>)

  /** `switchRouteMatcher`, given the captures of the match if there is one. */
  method SwitchRouteMatcher(keys: seq<string>, matched: bool, caps: seq<string>) returns (r: Params)
    requires matched ==> |keys| == |caps|
    ensures r == if matched then Params(Collected(keys, caps)) else NoRoute
  {
    if !matched {
      return NoRoute;
    }
    var params := map[];
    var i := 0;
    while i < |caps|
      invariant 0 <= i <= |caps| && params == Collected(keys[..i], caps[..i])
    {
      assert keys[..i + 1][..i] == keys[..i] && caps[..i + 1][..i] == caps[..i];
      if caps[i] != "" {
        params := params[keys[i] := caps[i]];
      }
      i := i + 1;
    }
    assert keys[..i] == keys && caps[..i] == caps;
    r := Params(params);
  }
}
