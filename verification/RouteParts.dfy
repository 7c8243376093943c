/** What the pieces of route text mean, for any text: the parts of a template, and the captures of a match. */
module RouteParts {
  import opened RouteText

  lemma {:induction false} FromWordMeaning(s: string)
    ensures
      var r := FromWord(s);
      && |r| <= |s| && r == s[|s| - |r|..] && (r != "" ==> IsWord(r[0]))
      && forall i :: 0 <= i < |s| - |r| ==> !IsWord(s[i])
  {
    if s != "" && !IsWord(s[0]) {
      FromWordMeaning(s[1..]);
      var r := FromWord(s[1..]);
      assert s[1..][|s| - 1 - |r|..] == s[|s| - |r|..];
      assert forall i :: 1 <= i < |s| - |r| ==> s[i] == s[1..][i - 1];
    }
  }

  lemma {:induction false} ToLineEndMeaning(s: string)
    ensures
      var r := ToLineEnd(s);
      r <= s && (forall i :: 0 <= i < |r| ==> !IsLineEnd(r[i])) && (r != s ==> IsLineEnd(s[|r|]))
  {
    if s != "" && !IsLineEnd(s[0]) { ToLineEndMeaning(s[1..]); }
  }

  /** The keys of some parts. */
  function KeysOf(parts: seq<string>): set<string> {
    set i | 0 <= i < |parts| && MatchPart(parts[i]).Part? :: MatchPart(parts[i]).key
  }

  /** One more part behind what is filled in: a part without a word fails the whole; otherwise its key is filled in
      with what is left for it, and used up, and the rest of its line follows. */
  function FilledIn(o: Outcome, p: RouteText.Part): Outcome {
    if o.TypeError? || p.NoMatch? then TypeError
    else Filled(o.text + (Lookup(o.params, p.key) + p.rest), o.params - {p.key})
  }

  lemma FilledBehind(text: string, o: Outcome, p: RouteText.Part)
    ensures FilledIn(After(text, o), p) == After(text, FilledIn(o, p))
  {
    if o.Filled? && p.Part? {
      assert text + (o.text + (Lookup(o.params, p.key) + p.rest)) == text + o.text + (Lookup(o.params, p.key) + p.rest);
    }
  }

  lemma FillFirst(p: string, rest: seq<string>, params: map<string, string>)
    ensures MatchPart(p).NoMatch? ==> FillParts([p] + rest, params) == TypeError
    ensures
      MatchPart(p).Part? ==>
        var key := MatchPart(p).key;
        FillParts([p] + rest, params) ==
          After(Lookup(params, key) + MatchPart(p).rest, FillParts(rest, params - {key}))
  {
    assert ([p] + rest)[1..] == rest;
  }

  lemma FillNone(params: map<string, string>)
    ensures FillParts([], params) == Filled("", params)
  {
  }

  lemma FillOne(p: string, params: map<string, string>)
    ensures FillParts([p], params) == FilledIn(Filled("", params), MatchPart(p))
  {
    FillFirst(p, [], params);
    assert [p] + [] == [p];
    if MatchPart(p).Part? {
      var key, line := MatchPart(p).key, MatchPart(p).rest;
      FillNone(params - {key});
      assert "" + (Lookup(params, key) + line) == Lookup(params, key) + line + "";
    }
  }

  /** The parts are filled in one after another, each in its turn. */
  lemma {:induction false} FillLast(parts: seq<string>, p: string, params: map<string, string>)
    ensures FillParts(parts + [p], params) == FilledIn(FillParts(parts, params), MatchPart(p))
  {
    if parts == [] {
      assert parts + [p] == [p];
      FillOne(p, params);
      FillNone(params);
    } else {
      var first, rest := parts[0], parts[1..];
      FillFirst(first, rest, params);
      FillFirst(first, rest + [p], params);
      assert parts == [first] + rest && parts + [p] == [first] + (rest + [p]);
      if MatchPart(first).Part? {
        var key, line := MatchPart(first).key, MatchPart(first).rest;
        FillLast(rest, p, params - {key});
        FilledBehind(Lookup(params, key) + line, FillParts(rest, params - {key}), MatchPart(p));
      }
    }
  }

  /** What the keys of the parts name is used up, and nothing else. */
  lemma {:induction false} FillLeaves(parts: seq<string>, params: map<string, string>)
    requires FillParts(parts, params).Filled?
    ensures FillParts(parts, params).params == params - KeysOf(parts)
  {
    if parts == [] {
      FillNone(params);
    } else {
      FillFirst(parts[0], parts[1..], params);
      assert parts == [parts[0]] + parts[1..];
      FillLeaves(parts[1..], params - {MatchPart(parts[0]).key});
      KeysCons(parts);
    }
  }

  lemma KeysCons(parts: seq<string>)
    requires parts != [] && MatchPart(parts[0]).Part?
    ensures KeysOf(parts) == {MatchPart(parts[0]).key} + KeysOf(parts[1..])
  {
    assert forall i :: 1 <= i < |parts| ==> parts[i] == parts[1..][i - 1];
    assert forall i :: 0 <= i < |parts| - 1 ==> parts[1..][i] == parts[i + 1];
  }

  /** Capture k is the last one of its name that is not empty. */
  predicate IsLastOf(keys: seq<string>, caps: seq<string>, k: nat)
    requires |keys| == |caps|
  {
    k < |caps| && caps[k] != "" && forall j :: k < j < |caps| && keys[j] == keys[k] ==> caps[j] == ""
  }

  /** Exactly the last nonempty captures of each name are collected. */
  lemma {:induction false} CollectedMeaning(keys: seq<string>, caps: seq<string>, name: string, value: string)
    requires |keys| == |caps|
    ensures
      name in Collected(keys, caps) && Collected(keys, caps)[name] == value <==>
      exists k :: 0 <= k < |keys| && keys[k] == name && caps[k] == value && IsLastOf(keys, caps, k)
  {
    if keys != [] {
      var n := |keys| - 1;
      CollectedMeaning(keys[..n], caps[..n], name, value);
      forall k | 0 <= k < n
        ensures IsLastOf(keys, caps, k) <==>
                IsLastOf(keys[..n], caps[..n], k) && !(keys[n] == keys[k] && caps[n] != "")
      {
        assert IsLastOf(keys[..n], caps[..n], k) ==> forall j :: k < j < n ==> keys[..n][j] == keys[j];
      }
      assert IsLastOf(keys, caps, n) <==> caps[n] != "";
    }
  }
}
