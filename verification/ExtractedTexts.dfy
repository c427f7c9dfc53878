/**
 The other ways through the gateway's extraction: what stripping removes, a reply that is a JSON text, a
 fenced one, and an array in prose.
 */
module ExtractedTexts {
  import opened Wrappers
  import opened JsonSyntax
  import opened JsonReader
  import opened JsonExtraction
  import opened Sequences
  import opened Unicode
  import opened EmbeddedObjects
  import JsonDocuments
  import WriterTheorems

  // ---------------------------------------------------------------- what stripping removes

  /** The characters for which Python's `str.isspace` holds. */
  predicate IsSpacePoint(cp: nat) {
    9 <= cp <= 13 || 0x1C <= cp <= 0x20 || cp == 0x85 || cp == 0xA0 || cp == 0x1680 || 0x2000 <= cp <= 0x200A
    || cp == 0x2028 || cp == 0x2029 || cp == 0x202F || cp == 0x205F || cp == 0x3000
  }

  /** The byte patterns of the search are the encodings of those characters. */
  lemma {:induction false} SpaceCharIs(cp: Scalar)
    ensures IsSpaceChar(Utf8(cp)) <==> IsSpacePoint(cp)
  {
  }

  lemma {:induction false} SpaceCharDecodes(c: Bytes)
    requires IsSpaceChar(c)
    ensures Decode(c).Char? && Decode(c).rest == [] && IsSpacePoint(Decode(c).cp)
  {
    assert CharLength(c) == |c|;
    DecodedIsEncoded(c);
    assert c == Utf8(Decode(c).cp);
    SpaceCharIs(Decode(c).cp);
  }

  /** A text of white space. */
  predicate IsSpaceText(s: Bytes) {
    var t := DecodeAll(s);
    t.Some? && forall i | 0 <= i < |t.value| :: IsSpacePoint(t.value[i])
  }

  lemma {:induction false} FirstChar(a: Bytes, b: Bytes)
    requires Decode(a).Char?
    ensures Decode(a + b) == Char(Decode(a).cp, Decode(a).rest + b)
  {
    var n := CharLength(a);
    assert forall i | 0 <= i < n :: (a + b)[i] == a[i];
    assert CharLength(a + b) == n;
    assert (a + b)[..n] == a[..n];
    DropOfConcat(a, b, n);
  }

  lemma {:induction false} DecodeStep(s: Bytes)
    requires s != [] && Decode(s).Char?
    ensures var more := DecodeAll(Decode(s).rest);
            DecodeAll(s) == if more.None? then None else Some([Decode(s).cp] + more.value)
  {
    hide Decode;
  }

  lemma {:induction false} DecodeConcat(a: Bytes, b: Bytes)
    requires DecodeAll(a).Some? && DecodeAll(b).Some?
    ensures DecodeAll(a + b) == Some(DecodeAll(a).value + DecodeAll(b).value)
    decreases |a|
  {
    if a == [] {
      assert a + b == b;
      assert [] + DecodeAll(b).value == DecodeAll(b).value;
    } else {
      assert Decode(a).Char?;
      FirstChar(a, b);
      DecodeStep(a);
      DecodeStep(a + b);
      assert |Decode(a).rest| < |a|;
      hide Decode, DecodeAll;
      DecodeConcat(Decode(a).rest, b);
      Assoc([Decode(a).cp], DecodeAll(Decode(a).rest).value, DecodeAll(b).value);
    }
  }

  lemma {:induction false} SpaceTextGrows(c: Bytes, s: Bytes)
    requires IsSpaceChar(c) && IsSpaceText(s)
    ensures IsSpaceText(c + s) && IsSpaceText(s + c)
  {
    SpaceCharDecodes(c);
    hide IsSpaceChar, Decode;
    assert DecodeAll([]) == Some([]);
    assert [Decode(c).cp] + [] == [Decode(c).cp];
    assert DecodeAll(c) == Some([Decode(c).cp]);
    hide DecodeAll;
    DecodeConcat(c, s);
    DecodeConcat(s, c);
  }

  lemma {:induction false} LeftIsSpace(s: Bytes) returns (a: Bytes)
    ensures s == a + StripLeft(s) && IsSpaceText(a) && SpaceAtStart(StripLeft(s)) == 0
    decreases |s|
  {
    hide IsSpaceChar, SpaceAtStart, Decode;
    var n := SpaceAtStart(s);
    if n == 0 {
      a := [];
    } else {
      assert StripLeft(s) == StripLeft(s[n..]);
      hide IsSpaceText, StripLeft;
      var more := LeftIsSpace(s[n..]);
      a := s[..n] + more;
      SpaceTextGrows(s[..n], more);
      assert s == s[..n] + s[n..];
    }
  }

  lemma {:induction false} RightIsSpace(s: Bytes) returns (b: Bytes)
    ensures s == StripRight(s) + b && IsSpaceText(b) && SpaceAtEnd(StripRight(s)) == 0
    decreases |s|
  {
    hide IsSpaceChar, SpaceAtEnd, Decode;
    var n := SpaceAtEnd(s);
    if n == 0 {
      b := [];
    } else {
      var m := |s| - n;
      assert StripRight(s) == StripRight(s[..m]);
      hide IsSpaceText, StripRight;
      var more := RightIsSpace(s[..m]);
      b := more + s[m..];
      SpaceTextGrows(s[m..], more);
      assert s == s[..m] + s[m..];
    }
  }

  lemma {:induction false} StartStays(t: Bytes, u: Bytes)
    requires u <= t && SpaceAtStart(t) == 0
    ensures SpaceAtStart(u) == 0
  {
    hide IsSpaceChar;
    assert forall n | 1 <= n <= 3 && n <= |u| :: t[..n] == u[..n];
  }

  /** Stripping takes white space from both ends, and all of it. */
  lemma {:induction false} StripTakesSpace(s: Bytes) returns (a: Bytes, b: Bytes)
    ensures s == a + Strip(s) + b && IsSpaceText(a) && IsSpaceText(b)
    ensures SpaceAtStart(Strip(s)) == 0 && SpaceAtEnd(Strip(s)) == 0
  {
    a := LeftIsSpace(s);
    b := RightIsSpace(StripLeft(s));
    hide IsSpaceText, SpaceAtStart, SpaceAtEnd, StripLeft, StripRight;
    Assoc(a, Strip(s), b);
    StartStays(StripLeft(s), Strip(s));
  }

  // ---------------------------------------------------------------- a reply that is a JSON text

  lemma {:induction false} ExponentEnd(t: Bytes)
    requires IsExponent(t) && t != []
    ensures IsDigit(t[|t| - 1])
  {
    var skip := if |t| > 1 && t[1] in {PLUS, MINUS} then 2 else 1;
    assert t[|t| - 1] == t[skip..][|t| - 1 - skip];
  }

  lemma {:induction false} FractionEnd(t: Bytes)
    requires IsFraction(t) && t != []
    ensures IsDigit(t[|t| - 1])
  {
    hide IsExponent;
    if t[0] == DOT {
      var n := DigitRun(t[1..]);
      if 1 + n < |t| {
        ExponentEnd(t[1 + n..]);
      } else {
        assert t[|t| - 1] == t[1..][n - 1];
      }
    } else {
      ExponentEnd(t);
    }
  }

  lemma {:induction false} UnsignedEnd(t: Bytes)
    requires IsUnsignedNumber(t)
    ensures t != [] && IsDigit(t[|t| - 1])
  {
    hide IsFraction;
    var n := DigitRun(t);
    if n < |t| {
      FractionEnd(t[n..]);
    }
  }

  lemma {:induction false} TreeEdges(t: JsonDocuments.Tree)
    requires JsonDocuments.Valid(t)
    ensures var s := JsonDocuments.SpellTree(t); s != [] && IsEdge(s[0]) && IsEdge(s[|s| - 1])
  {
    match t {
      case Numeral(token) =>
        JsonDocuments.NumberStart(token);
        UnsignedEnd(if token[0] == MINUS then token[1..] else token);
      case _ =>
    }
  }

  lemma {:induction false} BlankLeft(before: Bytes, rest: Bytes)
    requires IsBlank(before) && rest != [] && IsEdge(rest[0])
    ensures StripLeft(before + rest) == rest
    decreases before
  {
    var s := before + rest;
    if before == [] {
      assert s == rest;
      assert SpaceAtStart(s) == 0;
    } else {
      assert s[..1] == [before[0]] && IsSpaceChar(s[..1]);
      assert SpaceAtStart(s) == 1;
      hide IsSpaceChar, SpaceAtStart;
      DropOfConcat(before, rest, 1);
      BlankLeft(before[1..], rest);
    }
  }

  lemma {:induction false} BlankRight(rest: Bytes, after: Bytes)
    requires IsBlank(after) && rest != [] && IsEdge(rest[|rest| - 1])
    ensures StripRight(rest + after) == rest
    decreases after
  {
    var s := rest + after;
    if after == [] {
      assert s == rest;
      assert SpaceAtEnd(s) == 0;
    } else {
      assert s[|s| - 1..] == [after[|after| - 1]] && IsSpaceChar(s[|s| - 1..]);
      assert SpaceAtEnd(s) == 1;
      hide IsSpaceChar, SpaceAtEnd;
      assert s[..|s| - 1] == rest + after[..|after| - 1];
      BlankRight(rest, after[..|after| - 1]);
    }
  }

  /** A reply that is a JSON text is returned as what it says, fences and braces in it or not. */
  lemma {:induction false} JsonTextIsReturned(
    text: Bytes, v: Json, fence: Bytes -> Option<Bytes>, r: Option<Json>)
    requires ReadDocument(text) == Some(v) && IsExtraction(text, ReadDocument, fence, r)
    ensures r == Some(v)
  {
    JsonDocuments.ReaderDecidesGrammar(text, v);
    var item: JsonDocuments.Item :|
      JsonDocuments.ValidItem(item) && JsonDocuments.SpellItem(item) == text && JsonDocuments.Meaning(item.tree) == v;
    var s := JsonDocuments.SpellTree(item.tree);
    TreeEdges(item.tree);
    BlankRight(s, item.after);
    BlankLeft(item.before, s + item.after);
    Assoc(item.before, s, item.after);
    assert Strip(text) == s;
    hide ReadDocument, Strip;
    var bare := JsonDocuments.Item([], item.tree, []);
    assert JsonDocuments.SpellItem(bare) == s;
    JsonDocuments.ReaderDecidesGrammar(s, v);
  }

  // ---------------------------------------------------------------- fenced blocks and arrays

  /** A fence that matches has the last word: nothing is searched for when its text is no JSON. */
  lemma {:induction false} FenceDecides(
    text: Bytes, loads: Bytes -> Option<Json>, fence: Bytes -> Option<Bytes>, r: Option<Json>)
    requires Strip(text) != [] && loads(Strip(text)).None? && fence(Strip(text)).Some?
    requires IsExtraction(text, loads, fence, r)
    ensures r == loads(fence(Strip(text)).value)
  {
  }

  lemma {:induction false} DepthFree(s: Bytes)
    requires LBRACKET !in s && RBRACKET !in s
    ensures Depth(s, LBRACKET, RBRACKET) == 0
    decreases s
  {
    if s != [] {
      DepthFree(s[1..]);
    }
  }

  /** A pair of brackets around a text without any is found by the scan. */
  lemma {:induction false} FlatBlock(p: Bytes, body: Bytes, q: Bytes)
    requires LBRACKET !in p && LBRACKET !in body && RBRACKET !in body
    ensures var r := [LBRACKET] + body + [RBRACKET];
            var s := p + r + q;
            && Find(s, LBRACKET) == |p|
            && IsBlockEnd(s, |p|, |p| + |r| - 1, LBRACKET, RBRACKET)
            && s[|p|..|p| + |r|] == r
  {
    var r := [LBRACKET] + body + [RBRACKET];
    var s := p + r + q;
    var end := |p| + |r| - 1;
    assert s[..|p|] == p;
    FindIsFirst(s, LBRACKET, |p|);
    forall k | |p| < k <= end ensures DepthAt(s, |p|, k, LBRACKET, RBRACKET) == 1 {
      var n := k - |p| - 1;
      assert s[|p|..k] == [LBRACKET] + body[..n];
      DepthFree(body[..n]);
      DepthConcat([LBRACKET], body[..n], LBRACKET, RBRACKET);
      assert Depth([LBRACKET], LBRACKET, RBRACKET) == 1 by { assert [LBRACKET][1..] == []; }
    }
    assert s[|p|..end + 1] == s[|p|..end] + [RBRACKET];
    DepthSnoc(s[|p|..end], RBRACKET, LBRACKET, RBRACKET);
    assert DepthAt(s, |p|, end, LBRACKET, RBRACKET) == 1;
  }

  lemma {:induction false} NumbersAreFlat(items: seq<Json>)
    requires forall i | 0 <= i < |items| :: items[i].Number? && IsNumber(items[i].token)
    ensures forall b | b in RenderItems(items) :: WriterTheorems.IsPlain(b)
    decreases items
  {
    if items != [] {
      WriterTheorems.NumberIsPlain(items[0].token);
      NumbersAreFlat(items[1..]);
    }
  }

  lemma {:induction false} RenderedArray(items: seq<Json>)
    requires forall i | 0 <= i < |items| :: items[i].Number? && IsNumber(items[i].token)
    ensures var text := Render(Array(items));
            && text == [LBRACKET] + RenderItems(items) + [RBRACKET]
            && LBRACE !in text && LBRACKET !in RenderItems(items) && RBRACKET !in RenderItems(items)
            && ReadDocument(text) == Some(Array(items))
  {
    NumbersAreFlat(items);
    var text := Render(Array(items));
    JsonDocuments.RenderReadsBack([], Array(items), []);
    assert [] + text + [] == text;
    hide ReadDocument;
  }

  lemma {:induction false} BracketsDecide(s: Bytes, start: nat, end: nat, r: Option<Json>)
    requires Find(s, LBRACE) == -1 && Find(s, LBRACKET) == start && IsBlockEnd(s, start, end, LBRACKET, RBRACKET)
    requires IsFallback(s, ReadDocument, r)
    ensures r == ReadDocument(s[start..end + 1])
  {
    hide ReadDocument, Depth;
    var braces: Option<Json>, brackets: Option<Json> :|
      && IsBlockResult(s, LBRACE, RBRACE, ReadDocument, braces)
      && IsBlockResult(s, LBRACKET, RBRACKET, ReadDocument, brackets)
      && r == if braces.Some? then braces else brackets;
    assert DepthAt(s, start, end + 1, LBRACKET, RBRACKET) == 0;
    var e :| IsBlockEnd(s, start, e, LBRACKET, RBRACKET) && brackets == ReadDocument(s[start..e + 1]);
    BlockEndUnique(s, start, e, end, LBRACKET, RBRACKET);
  }

  /** An array of numbers in prose without braces and earlier brackets is found by the second search. */
  lemma {:induction false} NumberArrayReturned(
    before: Bytes, items: seq<Json>, after: Bytes, fence: Bytes -> Option<Bytes>, r: Option<Json>)
    requires forall i | 0 <= i < |items| :: items[i].Number? && IsNumber(items[i].token)
    requires LBRACE !in before && LBRACKET !in before && LBRACE !in after
    requires var s := Strip(before + Render(Array(items)) + after); ReadDocument(s) == None && fence(s) == None
    requires IsExtraction(before + Render(Array(items)) + after, ReadDocument, fence, r)
    ensures r == Some(Array(items))
  {
    var text := Render(Array(items));
    RenderedArray(items);
    hide Render, RenderItems, ReadDocument, Strip, Depth, Find, IsNumber;
    var p, q := StripAround(before, text, after);
    var s := p + text + q;
    FlatBlock(p, RenderItems(items), q);
    assert Find(s, LBRACE) == -1;
    assert IsFallback(s, ReadDocument, r);
    BracketsDecide(s, |p|, |p| + |text| - 1, r);
  }
}
