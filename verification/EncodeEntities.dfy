/** `encodeEntities`: five passes, the single pass they are, a decoder. */
module EncodeEntities {

  type CodeUnit = x: int | 0 <= x < 0x10000

  type Text = seq<CodeUnit>

  const AMP_CHAR: CodeUnit := 0x26
  const LT_CHAR: CodeUnit := 0x3C
  const GT_CHAR: CodeUnit := 0x3E
  const HASH_CHAR: CodeUnit := 0x23
  const SEMICOLON: CodeUnit := 0x3B
  const QUOTE_CHAR: CodeUnit := 0x22

  /** `&amp;`, `&lt;` and `&gt;`. */
  const AMP: Text := [0x26, 0x61, 0x6D, 0x70, 0x3B]
  const LT: Text := [0x26, 0x6C, 0x74, 0x3B]
  const GT: Text := [0x26, 0x67, 0x74, 0x3B]

  predicate IsHigh(x: CodeUnit) {
    0xD800 <= x <= 0xDBFF
  }

  predicate IsLow(x: CodeUnit) {
    0xDC00 <= x <= 0xDFFF
  }

  /** The code point of a surrogate pair, per section 2.2 of RFC 2781. */
  function CodePoint(hi: CodeUnit, low: CodeUnit): (n: nat)
    requires IsHigh(hi) && IsLow(low)
    ensures 0x10000 <= n < 0x110000
  {
    (hi - 0xD800) * 0x400 + (low - 0xDC00) + 0x10000
  }

  /** Decimal digits. */
  function Decimal(n: nat): Text {
    if n < 10 then [0x30 + n] else Decimal(n / 10) + [0x30 + n % 10]
  }

  /** The numeric reference `&#n;`. */
  function Ref(n: nat): Text {
    [AMP_CHAR, HASH_CHAR] + Decimal(n) + [SEMICOLON]
  }

  /** What the non-alphanumeric expression leaves alone: `#` to `~`, the space and `!`. */
  predicate IsPlain(x: CodeUnit) {
    0x23 <= x <= 0x7E || x == 0x20 || x == 0x21
  }

  // ---- the five passes ----

  function EscapeAmp(x: CodeUnit): Text {
    if x == AMP_CHAR then AMP else [x]
  }

  function EscapeNonPlain(x: CodeUnit): Text {
    if IsPlain(x) then [x] else Ref(x)
  }

  function EscapeLt(x: CodeUnit): Text {
    if x == LT_CHAR then LT else [x]
  }

  function EscapeGt(x: CodeUnit): Text {
    if x == GT_CHAR then GT else [x]
  }

  /** A global replacement of single code units. */
  function ReplaceUnits(s: Text, f: CodeUnit -> Text): Text {
    if s == [] then [] else f(s[0]) + ReplaceUnits(s[1..], f)
  }

  predicate StartsWithPair(s: Text) {
    |s| >= 2 && IsHigh(s[0]) && IsLow(s[1])
  }

  /** The global replacement of surrogate pairs, found from the left. */
  function ReplacePairs(s: Text): Text {
    if s == [] then []
    else if StartsWithPair(s) then Ref(CodePoint(s[0], s[1])) + ReplacePairs(s[2..])
    else [s[0]] + ReplacePairs(s[1..])
  }

  function LastPasses(s: Text): Text {
    ReplaceUnits(ReplaceUnits(ReplaceUnits(s, EscapeNonPlain), EscapeLt), EscapeGt)
  }

  function Encode(s: Text): Text {
    LastPasses(ReplacePairs(ReplaceUnits(s, EscapeAmp)))
  }

  // ---- the single pass ----

  function EncodeUnit(x: CodeUnit): Text {
    if x == AMP_CHAR then AMP
    else if x == LT_CHAR then LT
    else if x == GT_CHAR then GT
    else if IsPlain(x) then [x]
    else Ref(x)
  }

  /** One character at a time: a pair as a reference to its code point, the rest unit by unit. */
  function EncodeOnce(s: Text): Text {
    if s == [] then []
    else if StartsWithPair(s) then Ref(CodePoint(s[0], s[1])) + EncodeOnce(s[2..])
    else EncodeUnit(s[0]) + EncodeOnce(s[1..])
  }

  lemma {:induction false} ReplaceUnitsConcat(a: Text, b: Text, f: CodeUnit -> Text)
    ensures ReplaceUnits(a + b, f) == ReplaceUnits(a, f) + ReplaceUnits(b, f)
  {
    if a == [] {
      assert a + b == b;
    } else {
      assert (a + b)[1..] == a[1..] + b;
      ReplaceUnitsConcat(a[1..], b, f);
    }
  }

  lemma LastPassesConcat(a: Text, b: Text)
    ensures LastPasses(a + b) == LastPasses(a) + LastPasses(b)
  {
    ReplaceUnitsConcat(a, b, EscapeNonPlain);
    var c, d := ReplaceUnits(a, EscapeNonPlain), ReplaceUnits(b, EscapeNonPlain);
    ReplaceUnitsConcat(c, d, EscapeLt);
    ReplaceUnitsConcat(ReplaceUnits(c, EscapeLt), ReplaceUnits(d, EscapeLt), EscapeGt);
  }

  /** Text the later passes have nothing to do with. */
  predicate IsSettled(s: Text) {
    forall k :: 0 <= k < |s| ==> IsPlain(s[k]) && s[k] != LT_CHAR && s[k] != GT_CHAR
  }

  lemma {:induction false} UnitsUntouched(s: Text, f: CodeUnit -> Text)
    requires forall k :: 0 <= k < |s| ==> f(s[k]) == [s[k]]
    ensures ReplaceUnits(s, f) == s
  {
    if s != [] { UnitsUntouched(s[1..], f); }
  }

  lemma SettledUntouched(s: Text)
    requires IsSettled(s)
    ensures LastPasses(s) == s
  {
    UnitsUntouched(s, EscapeNonPlain);
    UnitsUntouched(s, EscapeLt);
    UnitsUntouched(s, EscapeGt);
  }

  lemma {:induction false} DecimalDigits(n: nat)
    ensures Decimal(n) != [] && forall k :: 0 <= k < |Decimal(n)| ==> 0x30 <= Decimal(n)[k] <= 0x39
  {
    if n >= 10 { DecimalDigits(n / 10); }
  }

  lemma RefSettled(n: nat)
    ensures IsSettled(Ref(n))
  {
    DecimalDigits(n);
  }

  /** The last three passes on one unit. */
  lemma LastPassesUnit(x: CodeUnit)
    requires x != AMP_CHAR
    ensures LastPasses([x]) == EncodeUnit(x)
  {
    assert ReplaceUnits([x], EscapeNonPlain) == EscapeNonPlain(x) + ReplaceUnits([], EscapeNonPlain);
    if !IsPlain(x) {
      assert Ref(x) + [] == Ref(x);
      RefSettled(x);
      UnitsUntouched(Ref(x), EscapeLt);
      UnitsUntouched(Ref(x), EscapeGt);
    } else if x == LT_CHAR {
      assert ReplaceUnits([x], EscapeLt) == LT + ReplaceUnits([], EscapeLt);
      assert LT + [] == LT && [x] + [] == [x];
      UnitsUntouched(LT, EscapeGt);
    } else {
      assert ReplaceUnits([x], EscapeLt) == [x] + ReplaceUnits([], EscapeLt);
      assert ReplaceUnits([x], EscapeGt) == EscapeGt(x) + ReplaceUnits([], EscapeGt);
    }
  }

  /** Escaping ampersands neither makes nor breaks a pair at the front of the rest. */
  lemma AmpKeepsFront(s: Text)
    requires s != []
    ensures
      var t := ReplaceUnits(s, EscapeAmp);
      t != [] && (IsLow(t[0]) <==> IsLow(s[0]))
  {
  }

  lemma {:induction false} PairsAfterPlain(a: Text, b: Text)
    requires forall k :: 0 <= k < |a| ==> !IsHigh(a[k])
    ensures ReplacePairs(a + b) == a + ReplacePairs(b)
  {
    if a == [] {
      assert a + b == b;
    } else {
      assert (a + b)[1..] == a[1..] + b;
      PairsAfterPlain(a[1..], b);
    }
  }

  lemma PairPasses(s: Text)
    requires StartsWithPair(s)
    ensures ReplacePairs(ReplaceUnits(s, EscapeAmp))
            == Ref(CodePoint(s[0], s[1])) + ReplacePairs(ReplaceUnits(s[2..], EscapeAmp))
  {
    var rest, after := ReplaceUnits(s[1..], EscapeAmp), ReplaceUnits(s[2..], EscapeAmp);
    assert s[1..][1..] == s[2..];
    assert rest == [s[1]] + after;
    var t := ReplaceUnits(s, EscapeAmp);
    assert t == [s[0]] + rest;
    assert t[2..] == after;
  }

  lemma UnitsCons(s: Text, f: CodeUnit -> Text)
    requires s != []
    ensures ReplaceUnits(s, f) == f(s[0]) + ReplaceUnits(s[1..], f)
  {
  }

  lemma NoPairFirst(x: CodeUnit, rest: Text)
    requires !StartsWithPair([x] + rest)
    ensures ReplacePairs([x] + rest) == [x] + ReplacePairs(rest)
  {
    assert ([x] + rest)[1..] == rest;
  }

  lemma UnitPasses(s: Text)
    requires s != [] && !StartsWithPair(s) && s[0] != AMP_CHAR
    ensures ReplacePairs(ReplaceUnits(s, EscapeAmp)) == [s[0]] + ReplacePairs(ReplaceUnits(s[1..], EscapeAmp))
  {
    var rest := ReplaceUnits(s[1..], EscapeAmp);
    UnitsCons(s, EscapeAmp);
    if |s| > 1 { AmpKeepsFront(s[1..]); }
    NoPairFirst(s[0], rest);
  }

  /** The first two passes, by the first character of the text. */
  lemma FirstPasses(s: Text)
    requires s != []
    ensures
      ReplacePairs(ReplaceUnits(s, EscapeAmp)) ==
      if StartsWithPair(s) then Ref(CodePoint(s[0], s[1])) + ReplacePairs(ReplaceUnits(s[2..], EscapeAmp))
      else EscapeAmp(s[0]) + ReplacePairs(ReplaceUnits(s[1..], EscapeAmp))
  {
    if StartsWithPair(s) {
      PairPasses(s);
    } else if s[0] == AMP_CHAR {
      UnitsCons(s, EscapeAmp);
      PairsAfterPlain(AMP, ReplaceUnits(s[1..], EscapeAmp));
    } else {
      UnitPasses(s);
    }
  }

  /** Main result: the five passes are the single pass. */
  lemma {:induction false} EncodeIsEncodeOnce(s: Text)
    ensures Encode(s) == EncodeOnce(s)
    decreases |s|
  {
    if s != [] {
      FirstPasses(s);
      if StartsWithPair(s) {
        var n := CodePoint(s[0], s[1]);
        LastPassesConcat(Ref(n), ReplacePairs(ReplaceUnits(s[2..], EscapeAmp)));
        RefSettled(n);
        SettledUntouched(Ref(n));
        EncodeIsEncodeOnce(s[2..]);
      } else {
        LastPassesConcat(EscapeAmp(s[0]), ReplacePairs(ReplaceUnits(s[1..], EscapeAmp)));
        if s[0] == AMP_CHAR {
          SettledUntouched(AMP);
        } else {
          LastPassesUnit(s[0]);
        }
        EncodeIsEncodeOnce(s[1..]);
      }
    }
  }

  // ---- what is put out ----

  /** Printable ASCII without the characters that could open a tag or end an attribute value. */
  predicate IsSafe(x: CodeUnit) {
    0x20 <= x <= 0x7E && x != LT_CHAR && x != GT_CHAR && x != QUOTE_CHAR
  }

  lemma {:induction false} OutputIsSafe(s: Text)
    ensures forall k :: 0 <= k < |Encode(s)| ==> IsSafe(Encode(s)[k])
    decreases |s|
  {
    EncodeIsEncodeOnce(s);
    if s != [] {
      var rest := if StartsWithPair(s) then s[2..] else s[1..];
      OutputIsSafe(rest);
      EncodeIsEncodeOnce(rest);
      if StartsWithPair(s) { RefSettled(CodePoint(s[0], s[1])); } else { RefSettled(s[0]); }
    }
  }

  // ---- decoding ----

  predicate IsDigit(x: CodeUnit) {
    0x30 <= x <= 0x39
  }

  /** The number of digits at the front. */
  function DigitCount(s: Text): (k: nat)
    ensures k <= |s|
  {
    if s != [] && IsDigit(s[0]) then 1 + DigitCount(s[1..]) else 0
  }

  function Number(s: Text): nat
    requires forall k :: 0 <= k < |s| ==> IsDigit(s[k])
  {
    if s == [] then 0 else
      assert IsDigit(s[|s| - 1]);
      10 * Number(s[..|s| - 1]) + (s[|s| - 1] as int - 0x30)
  }

  lemma {:induction false} DigitsAtFront(s: Text)
    ensures forall k :: 0 <= k < DigitCount(s) ==> IsDigit(s[k])
  {
    if s != [] && IsDigit(s[0]) {
      DigitsAtFront(s[1..]);
      assert forall k :: 0 < k < DigitCount(s) ==> s[k] == s[1..][k - 1];
    }
  }

  /** The UTF-16 form of a code point. */
  function Utf16(n: nat): Text {
    if n < 0x10000 then [n]
    else if n < 0x110000 then [0xD800 + (n - 0x10000) / 0x400, 0xDC00 + (n - 0x10000) % 0x400]
    else []
  }

  function Decode(s: Text): Text
    decreases |s|
  {
    if s == [] then []
    else if AMP <= s then [AMP_CHAR] + Decode(s[5..])
    else if LT <= s then [LT_CHAR] + Decode(s[4..])
    else if GT <= s then [GT_CHAR] + Decode(s[4..])
    else if [AMP_CHAR, HASH_CHAR] <= s then
      var k := DigitCount(s[2..]);
      DigitsAtFront(s[2..]);
      if 2 + k < |s| && s[2 + k] == SEMICOLON then Utf16(Number(s[2..2 + k])) + Decode(s[3 + k..])
      else [s[0]] + Decode(s[1..])
    else [s[0]] + Decode(s[1..])
  }

  lemma {:induction false} NumberOfDecimal(n: nat)
    ensures (forall k :: 0 <= k < |Decimal(n)| ==> IsDigit(Decimal(n)[k])) && Number(Decimal(n)) == n
  {
    DecimalDigits(n);
    if n < 10 {
      assert Number([]) == 0;
      assert Decimal(n)[..0] == [];
    } else {
      NumberOfDecimal(n / 10);
      var d := Decimal(n);
      assert d[..|d| - 1] == Decimal(n / 10);
    }
  }

  lemma {:induction false} CountDigits(d: Text, rest: Text)
    requires forall k :: 0 <= k < |d| ==> IsDigit(d[k])
    requires rest != [] && !IsDigit(rest[0])
    ensures DigitCount(d + rest) == |d|
  {
    if d == [] {
      assert d + rest == rest;
    } else {
      assert (d + rest)[1..] == d[1..] + rest;
      CountDigits(d[1..], rest);
    }
  }

  lemma DecodeRef(n: nat, rest: Text)
    ensures Decode(Ref(n) + rest) == Utf16(n) + Decode(rest)
  {
    var s, d := Ref(n) + rest, Decimal(n);
    NumberOfDecimal(n);
    CountDigits(d, [SEMICOLON] + rest);
    assert s == [AMP_CHAR, HASH_CHAR] + d + ([SEMICOLON] + rest);
    assert s[2..] == d + ([SEMICOLON] + rest);
    assert s[1] == HASH_CHAR && s[0] == AMP_CHAR;
    assert s[2..2 + |d|] == d && s[2 + |d|] == SEMICOLON && s[3 + |d|..] == rest;
  }

  lemma Utf16OfCodePoint(hi: CodeUnit, low: CodeUnit)
    requires IsHigh(hi) && IsLow(low)
    ensures Utf16(CodePoint(hi, low)) == [hi, low]
  {
    var h, l := hi - 0xD800, low - 0xDC00;
    assert (h * 0x400 + l) / 0x400 == h && (h * 0x400 + l) % 0x400 == l;
  }

  lemma DecodeUnit(x: CodeUnit, rest: Text)
    ensures Decode(EncodeUnit(x) + rest) == [x] + Decode(rest)
  {
    var s := EncodeUnit(x) + rest;
    if x == AMP_CHAR {
      assert s[5..] == rest && s[..5] == AMP;
    } else if x == LT_CHAR {
      assert s[4..] == rest && s[..4] == LT && s[1] != AMP[1];
    } else if x == GT_CHAR {
      assert s[4..] == rest && s[..4] == GT && s[1] != AMP[1] && s[1] != LT[1];
    } else if IsPlain(x) {
      assert s[0] == x && s[1..] == rest;
    } else {
      DecodeRef(x, rest);
    }
  }

  /** Main result: the decoder undoes the encoding. */
  lemma {:induction false} DecodeEncode(s: Text)
    ensures Decode(Encode(s)) == s
    decreases |s|
  {
    EncodeIsEncodeOnce(s);
    if s != [] {
      var rest := if StartsWithPair(s) then s[2..] else s[1..];
      DecodeEncode(rest);
      EncodeIsEncodeOnce(rest);
      if StartsWithPair(s) {
        DecodeRef(CodePoint(s[0], s[1]), EncodeOnce(rest));
        Utf16OfCodePoint(s[0], s[1]);
      } else {
        DecodeUnit(s[0], EncodeOnce(rest));
      }
    }
  }

  /** So no two texts are encoded the same. */
  lemma EncodeInjective(a: Text, b: Text)
    requires Encode(a) == Encode(b)
    ensures a == b
  {
    DecodeEncode(a);
    DecodeEncode(b);
  }

  // ---- which characters stay ----

  /** The space and the printable characters of ASCII but for `"`, `&`, `<` and `>`. */
  predicate Stays(x: CodeUnit) {
    0x20 <= x <= 0x7E && x != 0x22 && x != 0x26 && x != 0x3C && x != 0x3E
  }

  lemma UnitStays(x: CodeUnit)
    ensures Stays(x) <==> EncodeUnit(x) == [x]
    ensures !Stays(x) ==> |EncodeUnit(x)| > 1
  {
    if !IsPlain(x) { DecimalDigits(x); }
  }

  lemma {:induction false} StaysOnce(s: Text)
    ensures if forall k :: 0 <= k < |s| ==> Stays(s[k]) then EncodeOnce(s) == s else |EncodeOnce(s)| > |s|
    decreases |s|
  {
    if s != [] {
      if StartsWithPair(s) {
        assert !Stays(s[0]);
        DecimalDigits(CodePoint(s[0], s[1]));
        StaysOnce(s[2..]);
      } else {
        UnitStays(s[0]);
        StaysOnce(s[1..]);
        assert s == [s[0]] + s[1..];
        assert forall k :: 0 < k < |s| ==> s[k] == s[1..][k - 1];
      }
    }
  }

  /** A text stays as it is exactly if all its characters do; any other gets longer. */
  lemma EncodeStays(s: Text)
    ensures Encode(s) == s <==> forall k :: 0 <= k < |s| ==> Stays(s[k])
    ensures Encode(s) != s ==> |Encode(s)| > |s|
  {
    EncodeIsEncodeOnce(s);
    StaysOnce(s);
  }

  /** The three named entities. */
  lemma NamedEntities()
    ensures Encode([0x26]) == [0x26, 0x61, 0x6D, 0x70, 0x3B]
    ensures Encode([0x3C]) == [0x26, 0x6C, 0x74, 0x3B] && Encode([0x3E]) == [0x26, 0x67, 0x74, 0x3B]
  {
    forall x: CodeUnit ensures Encode([x]) == EncodeUnit(x) {
      EncodeIsEncodeOnce([x]);
      assert [x][1..] == [] && EncodeUnit(x) + [] == EncodeUnit(x);
    }
  }
}
