/**
 Objects of the JSON writer inside prose: exactly when the gateway's brace scan cuts such an object out of
 the text around it, and so when the whole extraction returns it.
 */
module EmbeddedObjects {
  import opened Wrappers
  import opened JsonSyntax
  import opened JsonReader
  import opened JsonExtraction
  import opened Sequences
  import WriterTheorems
  import JsonDocuments

  // ---------------------------------------------------------------- levels

  function BraceDepth(s: Bytes): int {
    Depth(s, LBRACE, RBRACE)
  }

  /** Reading `s` from level `d`, the level never falls below zero. */
  predicate StaysAbove(s: Bytes, d: int) {
    d >= 0 && (s == [] || StaysAbove(s[1..], d + Weight(s[0], LBRACE, RBRACE)))
  }

  lemma {:induction false} StaysAboveConcat(s: Bytes, t: Bytes, d: int)
    ensures StaysAbove(s + t, d) <==> StaysAbove(s, d) && StaysAbove(t, d + BraceDepth(s))
    decreases s
  {
    if s == [] {
      assert s + t == t;
    } else {
      StaysAboveConcat(s[1..], t, d + Weight(s[0], LBRACE, RBRACE));
      assert (s + t)[1..] == s[1..] + t;
    }
  }

  lemma {:induction false} StaysAboveShift(s: Bytes, d: int, e: int)
    requires StaysAbove(s, d) && d <= e
    ensures StaysAbove(s, e)
    decreases s
  {
    if s != [] {
      StaysAboveShift(s[1..], d + Weight(s[0], LBRACE, RBRACE), e + Weight(s[0], LBRACE, RBRACE));
    }
  }

  lemma {:induction false} StaysAbovePrefixes(s: Bytes, d: int)
    ensures StaysAbove(s, d) <==> forall k | 0 <= k <= |s| :: d + BraceDepth(s[..k]) >= 0
    decreases s
  {
    if s == [] {
      assert s[..0] == [];
    } else {
      var w := Weight(s[0], LBRACE, RBRACE);
      StaysAbovePrefixes(s[1..], d + w);
      assert s[..0] == [];
      forall k | 0 <= k < |s| ensures d + BraceDepth(s[..k + 1]) == d + w + BraceDepth(s[1..][..k]) {
        assert s[..k + 1][0] == s[0] && s[..k + 1][1..] == s[1..][..k];
      }
      if forall k | 0 <= k <= |s| :: d + BraceDepth(s[..k]) >= 0 {
        forall k | 0 <= k < |s| ensures d + w + BraceDepth(s[1..][..k]) >= 0 {
          assert d + BraceDepth(s[..k + 1]) >= 0;
        }
        assert d + BraceDepth(s[..0]) >= 0;
      }
      if StaysAbove(s, d) {
        forall k | 0 <= k <= |s| ensures d + BraceDepth(s[..k]) >= 0 {
          if k > 0 { assert d + w + BraceDepth(s[1..][..k - 1]) >= 0; }
        }
      }
    }
  }

  lemma {:induction false} BraceFree(s: Bytes, d: int)
    requires LBRACE !in s && RBRACE !in s
    ensures BraceDepth(s) == 0 && (StaysAbove(s, d) <==> d >= 0)
    decreases s
  {
    if s != [] {
      BraceFree(s[1..], d);
    }
  }

  /** Escaping changes nothing: no escape holds a brace, and braces are not escaped. */
  lemma {:induction false} EscapeKeepsLevel(s: Bytes, d: int)
    ensures BraceDepth(Escape(s)) == BraceDepth(s)
    ensures StaysAbove(Escape(s), d) <==> StaysAbove(s, d)
    decreases s
  {
    if s != [] {
      var e := EscapeByte(s[0]);
      EscapeKeepsLevel(s[1..], d + Weight(s[0], LBRACE, RBRACE));
      DepthConcat(e, Escape(s[1..]), LBRACE, RBRACE);
      StaysAboveConcat(e, Escape(s[1..]), d);
      EscapedByteLevel(s[0], d);
      LevelIsOpen(Escape(s[1..]), d + Weight(s[0], LBRACE, RBRACE));
    }
  }

  lemma {:induction false} EscapedByteLevel(b: byte, d: int)
    ensures BraceDepth(EscapeByte(b)) == Weight(b, LBRACE, RBRACE)
    ensures StaysAbove(EscapeByte(b), d) <==> d >= 0 && d + Weight(b, LBRACE, RBRACE) >= 0
  {
    var e := EscapeByte(b);
    if |e| == 1 {
      assert e == [b] && e[1..] == [];
      assert BraceDepth(e) == Weight(b, LBRACE, RBRACE) + BraceDepth(e[1..]);
    } else {
      BraceFree(e, d);
    }
  }

  lemma {:induction false} LevelIsOpen(s: Bytes, d: int)
    ensures StaysAbove(s, d) ==> d >= 0
  {
  }

  lemma {:induction false} QuoteKeepsLevel(s: Bytes, d: int)
    ensures BraceDepth(Quote(s)) == BraceDepth(s)
    ensures StaysAbove(Quote(s), d) <==> StaysAbove(s, d)
  {
    EscapeKeepsLevel(s, d);
    BraceFree([QUOTE], d);
    BraceFree([QUOTE], d + BraceDepth(s));
    DepthConcat([QUOTE], Escape(s), LBRACE, RBRACE);
    DepthConcat([QUOTE] + Escape(s), [QUOTE], LBRACE, RBRACE);
    StaysAboveConcat([QUOTE], Escape(s), d);
    StaysAboveConcat([QUOTE] + Escape(s), [QUOTE], d);
    EndLevel(s, d);
  }

  lemma {:induction false} EndLevel(s: Bytes, d: int)
    ensures StaysAbove(s, d) ==> d >= 0 && d + BraceDepth(s) >= 0
  {
    StaysAbovePrefixes(s, d);
    assert s[..|s|] == s && s[..0] == [];
  }

  // ---------------------------------------------------------------- the condition

  /** Openers minus closers in the keys and strings of a value. */
  function TextWeight(v: Json): int
    decreases v, 0
  {
    match v
    case String(text) => BraceDepth(text)
    case Array(items) => ItemsWeight(items)
    case Object(members) => MembersWeight(members)
    case _ => 0
  }

  function ItemsWeight(items: seq<Json>): int
    decreases items, 1
  {
    if items == [] then 0 else TextWeight(items[0]) + ItemsWeight(items[1..])
  }

  function MembersWeight(members: seq<Member>): int
    decreases members, 1
  {
    if members == [] then 0
    else BraceDepth(members[0].key) + TextWeight(members[0].value) + MembersWeight(members[1..])
  }

  /**
   Going through the keys and strings of a value in order, from level `d`: their closers never use up
   more than the openers of texts so far and the containers around them have provided.
   */
  predicate Fits(v: Json, d: int)
    decreases v, 0
  {
    match v
    case String(text) => StaysAbove(text, d)
    case Array(items) => ItemsFit(items, d)
    case Object(members) => d >= 0 && MembersFit(members, d + 1) && d + MembersWeight(members) >= 0
    case _ => d >= 0
  }

  predicate ItemsFit(items: seq<Json>, d: int)
    decreases items, 1
  {
    if items == [] then d >= 0
    else Fits(items[0], d) && ItemsFit(items[1..], d + TextWeight(items[0]))
  }

  predicate MembersFit(members: seq<Member>, d: int)
    decreases members, 1
  {
    if members == [] then d >= 0
    else
      var m := members[0];
      && StaysAbove(m.key, d)
      && Fits(m.value, d + BraceDepth(m.key))
      && MembersFit(members[1..], d + BraceDepth(m.key) + TextWeight(m.value))
  }

  /** The condition for an object: its texts fit inside it and leave no brace open. */
  predicate TextsFit(members: seq<Member>) {
    MembersFit(members, 0) && MembersWeight(members) == 0
  }

  // ---------------------------------------------------------------- the level of a rendering

  lemma {:induction false} FitsIsOpen(v: Json, d: int)
    requires Fits(v, d)
    ensures d >= 0
    decreases v, 0
  {
    match v {
      case Array(items) => if items != [] { FitsIsOpen(items[0], d); }
      case _ =>
    }
  }

  lemma {:induction false} RenderLevel(v: Json, d: int)
    requires Writable(v)
    ensures BraceDepth(Render(v)) == TextWeight(v)
    ensures StaysAbove(Render(v), d) <==> Fits(v, d)
    decreases v, 0
  {
    match v {
      case Null => BraceFree(Render(v), d);
      case Bool(_) => BraceFree(Render(v), d);
      case Number(token) =>
        WriterTheorems.NumberIsPlain(token);
        BraceFree(token, d);
      case String(text) => QuoteKeepsLevel(text, d);
      case Array(items) =>
        ItemsLevel(items, d);
        Bracketed(RenderItems(items), d);
      case Object(members) =>
        MembersLevel(members, d + 1);
        Braced(RenderMembers(members), d);
    }
  }

  lemma {:induction false} Bracketed(body: Bytes, d: int)
    ensures BraceDepth([LBRACKET] + body + [RBRACKET]) == BraceDepth(body)
    ensures StaysAbove([LBRACKET] + body + [RBRACKET], d) <==> StaysAbove(body, d)
  {
    BraceFree([LBRACKET], d);
    BraceFree([RBRACKET], d + BraceDepth(body));
    DepthConcat([LBRACKET], body, LBRACE, RBRACE);
    DepthConcat([LBRACKET] + body, [RBRACKET], LBRACE, RBRACE);
    StaysAboveConcat([LBRACKET], body, d);
    StaysAboveConcat([LBRACKET] + body, [RBRACKET], d);
    EndLevel(body, d);
  }

  lemma {:induction false} Braced(body: Bytes, d: int)
    ensures BraceDepth([LBRACE] + body + [RBRACE]) == BraceDepth(body)
    ensures StaysAbove([LBRACE] + body + [RBRACE], d)
       <==> d >= 0 && StaysAbove(body, d + 1) && d + BraceDepth(body) >= 0
  {
    assert [LBRACE][1..] == [] && [RBRACE][1..] == [];
    DepthConcat([LBRACE], body, LBRACE, RBRACE);
    DepthConcat([LBRACE] + body, [RBRACE], LBRACE, RBRACE);
    StaysAboveConcat([LBRACE], body, d);
    StaysAboveConcat([LBRACE] + body, [RBRACE], d);
    EndLevel(body, d + 1);
  }

  /** A separator between two parts changes nothing. */
  lemma {:induction false} Separated(a: Bytes, sep: byte, b: Bytes, d: int)
    requires sep != LBRACE && sep != RBRACE
    ensures BraceDepth(a + [sep] + b) == BraceDepth(a) + BraceDepth(b)
    ensures StaysAbove(a + [sep] + b, d) <==> StaysAbove(a, d) && StaysAbove(b, d + BraceDepth(a))
  {
    BraceFree([sep], d + BraceDepth(a));
    DepthConcat(a, [sep], LBRACE, RBRACE);
    DepthConcat(a + [sep], b, LBRACE, RBRACE);
    StaysAboveConcat(a, [sep], d);
    StaysAboveConcat(a + [sep], b, d);
    LevelIsOpen(b, d + BraceDepth(a));
  }

  lemma {:induction false} ItemsLevel(items: seq<Json>, d: int)
    requires forall i | 0 <= i < |items| :: Writable(items[i])
    ensures BraceDepth(RenderItems(items)) == ItemsWeight(items)
    ensures StaysAbove(RenderItems(items), d) <==> ItemsFit(items, d)
    decreases items, 1
  {
    if items != [] {
      hide StaysAbove, Fits, Depth, Render, Writable;
      RenderLevel(items[0], d);
      ItemsLevel(items[1..], d + TextWeight(items[0]));
      FirstItemLevel(items, d);
    }
  }

  lemma {:induction false} FirstItemLevel(items: seq<Json>, d: int)
    requires items != []
    ensures var first, rest := Render(items[0]), RenderItems(items[1..]);
            && BraceDepth(RenderItems(items)) == BraceDepth(first) + BraceDepth(rest)
            && (StaysAbove(RenderItems(items), d) <==>
                  StaysAbove(first, d) && StaysAbove(rest, d + BraceDepth(first)))
  {
    hide Render;
    var first := Render(items[0]);
    if |items| > 1 {
      Separated(first, COMMA, RenderItems(items[1..]), d);
    } else {
      assert items[1..] == [];
      EndLevel(first, d);
    }
  }

  lemma {:induction false} MemberLevel(m: Member, d: int)
    requires Writable(m.value)
    ensures BraceDepth(RenderMember(m)) == BraceDepth(m.key) + TextWeight(m.value)
    ensures StaysAbove(RenderMember(m), d) <==> StaysAbove(m.key, d) && Fits(m.value, d + BraceDepth(m.key))
    decreases m, 2
  {
    hide StaysAbove, Fits, Depth, Quote, Render;
    QuoteKeepsLevel(m.key, d);
    RenderLevel(m.value, d + BraceDepth(m.key));
    Separated(Quote(m.key), COLON, Render(m.value), d);
  }

  lemma {:induction false} MembersLevel(members: seq<Member>, d: int)
    requires forall i | 0 <= i < |members| :: Writable(members[i].value)
    ensures BraceDepth(RenderMembers(members)) == MembersWeight(members)
    ensures StaysAbove(RenderMembers(members), d) <==> MembersFit(members, d)
    decreases members, 3
  {
    if members != [] {
      var m := members[0];
      hide StaysAbove, Fits, Depth, RenderMember, Writable;
      MemberLevel(m, d);
      MembersLevel(members[1..], d + BraceDepth(m.key) + TextWeight(m.value));
      FirstMemberLevel(members, d);
    }
  }

  lemma {:induction false} FirstMemberLevel(members: seq<Member>, d: int)
    requires members != []
    ensures var first, rest := RenderMember(members[0]), RenderMembers(members[1..]);
            && BraceDepth(RenderMembers(members)) == BraceDepth(first) + BraceDepth(rest)
            && (StaysAbove(RenderMembers(members), d) <==>
                  StaysAbove(first, d) && StaysAbove(rest, d + BraceDepth(first)))
  {
    hide RenderMember;
    var first := RenderMember(members[0]);
    if |members| > 1 {
      Separated(first, COMMA, RenderMembers(members[1..]), d);
    } else {
      assert members[1..] == [];
      EndLevel(first, d);
    }
  }

  // ---------------------------------------------------------------- the cut

  lemma {:induction false} ObjectPrefix(body: Bytes, k: nat)
    requires 0 < k <= |body| + 1
    ensures BraceDepth(([LBRACE] + body + [RBRACE])[..k]) == 1 + BraceDepth(body[..k - 1])
  {
    assert ([LBRACE] + body + [RBRACE])[..k] == [LBRACE] + body[..k - 1];
    DepthConcat([LBRACE], body[..k - 1], LBRACE, RBRACE);
    assert [LBRACE][1..] == [];
  }

  /** The depth is positive at every proper prefix and zero at the end exactly when the texts fit. */
  lemma {:induction false} ObjectDepthIff(members: seq<Member>)
    requires Writable(Object(members))
    ensures var r := Render(Object(members));
            TextsFit(members) <==>
              BraceDepth(r) == 0 && forall k | 0 < k < |r| :: BraceDepth(r[..k]) > 0
  {
    var body := RenderMembers(members);
    var r := Render(Object(members));
    MembersLevel(members, 0);
    Braced(body, 0);
    StaysAbovePrefixes(body, 0);
    forall k | 0 < k < |r| ensures BraceDepth(r[..k]) == 1 + BraceDepth(body[..k - 1]) {
      ObjectPrefix(body, k);
    }
    if forall k | 0 < k < |r| :: BraceDepth(r[..k]) > 0 {
      forall k | 0 <= k <= |body| ensures 0 + BraceDepth(body[..k]) >= 0 {
        assert BraceDepth(r[..k + 1]) > 0;
      }
    }
  }

  /** The scan cuts exactly the rendered object out of the text around it if and only if its texts fit. */
  lemma {:induction false} CutIsExactIff(before: Bytes, members: seq<Member>, after: Bytes)
    requires Writable(Object(members)) && LBRACE !in before
    ensures var r := Render(Object(members));
            var s := before + r + after;
            && Find(s, LBRACE) == |before|
            && s[|before|..|before| + |r|] == r
            && (IsBlockEnd(s, |before|, |before| + |r| - 1, LBRACE, RBRACE) <==> TextsFit(members))
  {
    var r := Render(Object(members));
    var s := before + r + after;
    var n := |before|;
    ObjectDepthIff(members);
    assert s[n] == r[0] == LBRACE;
    forall k | 0 < k <= |r| ensures DepthAt(s, n, n + k, LBRACE, RBRACE) == BraceDepth(r[..k]) {
      assert s[n..n + k] == r[..k];
    }
    assert r[..|r|] == r && s[n..n + |r|] == r && s[..n] == before;
    FindIsFirst(s, LBRACE, n);
    if TextsFit(members) {
      forall k | n < k <= n + |r| - 1 ensures DepthAt(s, n, k, LBRACE, RBRACE) > 0 {
        assert DepthAt(s, n, n + (k - n), LBRACE, RBRACE) == BraceDepth(r[..k - n]);
      }
    }
    if IsBlockEnd(s, n, n + |r| - 1, LBRACE, RBRACE) {
      forall k | 0 < k < |r| ensures BraceDepth(r[..k]) > 0 {
        assert DepthAt(s, n, n + k, LBRACE, RBRACE) > 0;
      }
      assert DepthAt(s, n, n + |r|, LBRACE, RBRACE) == 0;
    }
  }

  // ---------------------------------------------------------------- a simple sufficient condition

  /** As many closing as opening braces, and never more closing ones so far. */
  predicate Balanced(s: Bytes) {
    StaysAbove(s, 0) && BraceDepth(s) == 0
  }

  /** Every key and every string of the tree is balanced; in particular if none holds a brace. */
  predicate BalancedTexts(v: Json)
    decreases v
  {
    match v
    case String(text) => Balanced(text)
    case Array(items) => forall i | 0 <= i < |items| :: BalancedTexts(items[i])
    case Object(members) =>
      forall i | 0 <= i < |members| :: Balanced(members[i].key) && BalancedTexts(members[i].value)
    case _ => true
  }

  lemma {:induction false} BalancedFits(v: Json, d: int)
    requires BalancedTexts(v) && d >= 0
    ensures Fits(v, d) && TextWeight(v) == 0
    decreases v, 0
  {
    match v {
      case String(text) => StaysAboveShift(text, 0, d);
      case Array(items) => BalancedItemsFit(items, d);
      case Object(members) => BalancedMembersFit(members, d + 1);
      case _ =>
    }
  }

  lemma {:induction false} BalancedItemsFit(items: seq<Json>, d: int)
    requires (forall i | 0 <= i < |items| :: BalancedTexts(items[i])) && d >= 0
    ensures ItemsFit(items, d) && ItemsWeight(items) == 0
    decreases items, 1
  {
    if items != [] {
      BalancedFits(items[0], d);
      BalancedItemsFit(items[1..], d);
    }
  }

  lemma {:induction false} BalancedMembersFit(members: seq<Member>, d: int)
    requires forall i | 0 <= i < |members| :: Balanced(members[i].key) && BalancedTexts(members[i].value)
    requires d >= 0
    ensures MembersFit(members, d) && MembersWeight(members) == 0
    decreases members, 1
  {
    if members != [] {
      StaysAboveShift(members[0].key, 0, d);
      BalancedFits(members[0].value, d);
      BalancedMembersFit(members[1..], d);
    }
  }

  lemma {:induction false} CutIsExact(before: Bytes, members: seq<Member>, after: Bytes)
    requires Writable(Object(members)) && BalancedTexts(Object(members))
    requires LBRACE !in before
    ensures var r := Render(Object(members));
            var s := before + r + after;
            && Find(s, LBRACE) == |before|
            && IsBlockEnd(s, |before|, |before| + |r| - 1, LBRACE, RBRACE)
            && s[|before|..|before| + |r|] == r
  {
    BalancedMembersFit(members, 0);
    CutIsExactIff(before, members, after);
  }

  // ---------------------------------------------------------------- stripping

  /** A byte that no white space begins or ends with. */
  predicate IsEdge(b: byte) {
    0x21 <= b < 0x80
  }

  lemma {:induction false} NoSpaceChar(c: Bytes, i: nat)
    requires i < |c| && IsEdge(c[i])
    ensures !IsSpaceChar(c)
  {
  }

  lemma {:induction false} StripLeftKeeps(before: Bytes, rest: Bytes)
    requires rest != [] && IsEdge(rest[0])
    ensures exists p :: StripLeft(before + rest) == p + rest && forall b | b in p :: b in before
    decreases |before|
  {
    hide IsSpaceChar;
    var s := before + rest;
    var n := SpaceAtStart(s);
    if n > |before| {
      assert s[..n][|before|] == rest[0];
      NoSpaceChar(s[..n], |before|);
    } else if n > 0 {
      DropOfConcat(before, rest, n);
      StripLeftKeeps(before[n..], rest);
    }
  }

  lemma {:induction false} StripRightKeeps(rest: Bytes, after: Bytes)
    requires rest != [] && IsEdge(rest[|rest| - 1])
    ensures exists q :: StripRight(rest + after) == rest + q && forall b | b in q :: b in after
    decreases |after|
  {
    hide IsSpaceChar;
    var s := rest + after;
    var n := SpaceAtEnd(s);
    if n == 0 {
      assert StripRight(s) == rest + after;
    } else if n > |after| {
      assert s[|s| - n..][n - |after| - 1] == rest[|rest| - 1];
      NoSpaceChar(s[|s| - n..], n - |after| - 1);
    } else {
      assert s[..|s| - n] == rest + after[..|after| - n];
      StripRightKeeps(rest, after[..|after| - n]);
    }
  }

  /** Stripping keeps a text whose ends are no white space, and adds nothing to what is around it. */
  lemma {:induction false} StripAround(before: Bytes, r: Bytes, after: Bytes) returns (p: Bytes, q: Bytes)
    requires r != [] && IsEdge(r[0]) && IsEdge(r[|r| - 1])
    ensures Strip(before + r + after) == p + r + q
    ensures (forall b | b in p :: b in before) && forall b | b in q :: b in after
  {
    Assoc(before, r, after);
    StripLeftKeeps(before, r + after);
    p :| StripLeft(before + (r + after)) == p + (r + after) && forall b | b in p :: b in before;
    Assoc(p, r, after);
    StripRightKeeps(p + r, after);
    q :| StripRight(p + r + after) == p + r + q && forall b | b in q :: b in after;
  }

  // ---------------------------------------------------------------- the whole call

  /**
   If its texts fit, the object is decoded from the text around it, whatever the decoder, once decoding
   the whole text and the fence pattern have given nothing.
   */
  lemma {:induction false} ObjectRecovered(
    before: Bytes, members: seq<Member>, after: Bytes, loads: Bytes -> Option<Json>, r: Option<Json>)
    requires Writable(Object(members)) && TextsFit(members) && LBRACE !in before
    requires loads(Render(Object(members))).Some?
    requires IsFallback(Strip(before + Render(Object(members)) + after), loads, r)
    ensures r == loads(Render(Object(members)))
  {
    hide Render, TextsFit, Writable, Strip, IsFallback, IsBlockEnd;
    var text := Render(Object(members));
    RenderedEdges(members);
    var p, q := StripAround(before, text, after);
    CutIsExactIff(p, members, q);
    ExactCutIsLoaded(p, text, q, loads, r);
  }

  lemma {:induction false} ExactCutIsLoaded(
    p: Bytes, text: Bytes, q: Bytes, loads: Bytes -> Option<Json>, r: Option<Json>)
    requires Find(p + text + q, LBRACE) == |p| && (p + text + q)[|p|..|p| + |text|] == text
    requires IsBlockEnd(p + text + q, |p|, |p| + |text| - 1, LBRACE, RBRACE) && loads(text).Some?
    requires IsFallback(p + text + q, loads, r)
    ensures r == loads(text)
  {
    hide Depth;
    var s := p + text + q;
    var last := |p| + |text| - 1;
    var braces: Option<Json>, brackets :|
      && IsBlockResult(s, LBRACE, RBRACE, loads, braces)
      && IsBlockResult(s, LBRACKET, RBRACKET, loads, brackets)
      && r == if braces.Some? then braces else brackets;
    assert DepthAt(s, |p|, last + 1, LBRACE, RBRACE) == 0;
    var end :| IsBlockEnd(s, |p|, end, LBRACE, RBRACE) && braces == loads(s[|p|..end + 1]);
    BlockEndUnique(s, |p|, end, last, LBRACE, RBRACE);
  }

  lemma {:induction false} RenderedEdges(members: seq<Member>)
    ensures var r := Render(Object(members)); r != [] && r[0] == LBRACE && r[|r| - 1] == RBRACE
  {
  }

  lemma {:induction false} RenderedIsDocument(members: seq<Member>)
    requires Writable(Object(members))
    ensures var r := Render(Object(members));
            r != [] && r[0] == LBRACE && r[|r| - 1] == RBRACE && ReadDocument(r) == Some(Object(members))
  {
    JsonDocuments.RenderReadsBack([], Object(members), []);
    assert [] + Render(Object(members)) + [] == Render(Object(members));
  }

  /** No other text from brace to brace at the same place is a document. */
  lemma {:induction false} NoOtherBlock(r: Bytes, v: Json, block: Bytes, w: Json)
    requires r != [] && r[0] == LBRACE && r[|r| - 1] == RBRACE && ReadDocument(r) == Some(v)
    requires block != [] && block[|block| - 1] == RBRACE && ReadDocument(block) == Some(w)
    requires block <= r || r <= block
    ensures block == r
  {
    assert block[0] == LBRACE;
    if block <= r {
      var rest := r[|block|..];
      assert r == block + rest;
      JsonDocuments.BracedDocument(block, w, rest);
      BlankHasNoBrace(rest);
      TailHasLast(block, rest);
    } else {
      var rest := block[|r|..];
      assert block == r + rest;
      JsonDocuments.BracedDocument(r, v, rest);
      BlankHasNoBrace(rest);
      TailHasLast(r, rest);
    }
  }

  lemma {:induction false} TailHasLast(a: Bytes, rest: Bytes)
    ensures rest != [] ==> (a + rest)[|a + rest| - 1] in rest
  {
    if rest != [] {
      assert (a + rest)[|a + rest| - 1] == rest[|rest| - 1];
    }
  }

  lemma {:induction false} BlankHasNoBrace(s: Bytes)
    requires SkipSpace(s) == []
    ensures RBRACE !in s
    decreases s
  {
    if s != [] {
      BlankHasNoBrace(s[1..]);
    }
  }

  lemma {:induction false} OpeningBrace()
    ensures BraceDepth([LBRACE]) == 1
  {
    DepthSnoc([], LBRACE, LBRACE, RBRACE);
    assert [] + [LBRACE] == [LBRACE];
  }

  lemma {:induction false} LastIsCloser(s: Bytes, start: nat, end: nat)
    requires start < |s| && s[start] == LBRACE && IsBlockEnd(s, start, end, LBRACE, RBRACE)
    ensures s[end] == RBRACE
  {
    OpeningBrace();
    assert s[start..start + 1] == [LBRACE];
    assert DepthAt(s, start, start + 1, LBRACE, RBRACE) == 1;
    assert s[start..end + 1] == s[start..end] + [s[end]];
    DepthSnoc(s[start..end], s[end], LBRACE, RBRACE);
    assert DepthAt(s, start, end, LBRACE, RBRACE) == 0 || start < end;
  }

  lemma {:induction false} BracketsGiveNoObject(s: Bytes, brackets: Option<Json>)
    requires IsBlockResult(s, LBRACKET, RBRACKET, ReadDocument, brackets)
    ensures brackets.Some? ==> brackets.value.Array?
  {
    var start := Find(s, LBRACKET);
    if brackets.Some? {
      var end :| IsBlockEnd(s, start, end, LBRACKET, RBRACKET) && brackets == ReadDocument(s[start..end + 1]);
      assert s[start..end + 1][0] == LBRACKET;
    }
  }

  /** If the braces give the object, they were cut exactly around it. */
  lemma {:induction false} BracesWereExact(p: Bytes, members: seq<Member>, q: Bytes, w: Json)
    requires Writable(Object(members)) && LBRACE !in p
    requires IsBlockResult(p + Render(Object(members)) + q, LBRACE, RBRACE, ReadDocument, Some(w))
    ensures TextsFit(members)
  {
    hide Render, DepthAt, ReadDocument, TextsFit, Writable;
    var text := Render(Object(members));
    var s := p + text + q;
    CutIsExactIff(p, members, q);
    RenderedIsDocument(members);
    var end :| IsBlockEnd(s, |p|, end, LBRACE, RBRACE) && ReadDocument(s[|p|..end + 1]) == Some(w);
    var block := BlockFacts(p, text, q, end);
    NoOtherBlock(text, Object(members), block, w);
  }

  lemma {:induction false} BlockFacts(p: Bytes, text: Bytes, q: Bytes, end: nat) returns (block: Bytes)
    requires text != [] && text[0] == LBRACE && IsBlockEnd(p + text + q, |p|, end, LBRACE, RBRACE)
    ensures block == (p + text + q)[|p|..end + 1] && block != [] && block[|block| - 1] == RBRACE
    ensures block <= text || text <= block
    ensures block == text ==> end == |p| + |text| - 1
  {
    var s := p + text + q;
    block := s[|p|..end + 1];
    LastIsCloser(s, |p|, end);
    assert s[|p|..] == text + q;
    TwoPrefixes(text + q, text, block);
  }

  lemma {:induction false} TwoPrefixes(s: Bytes, a: Bytes, b: Bytes)
    requires a <= s && b <= s
    ensures a <= b || b <= a
  {
  }

  /**
   The whole call, once its first two attempts have given nothing: it returns the object that stands in
   the text if and only if the object's texts fit.
   */
  lemma {:induction false} WrittenObjectReturnedIff(
    before: Bytes, members: seq<Member>, after: Bytes, fence: Bytes -> Option<Bytes>, r: Option<Json>)
    requires Writable(Object(members)) && LBRACE !in before
    requires var s := Strip(before + Render(Object(members)) + after); ReadDocument(s) == None && fence(s) == None
    requires IsExtraction(before + Render(Object(members)) + after, ReadDocument, fence, r)
    ensures r == Some(Object(members)) <==> TextsFit(members)
  {
    var text := Render(Object(members));
    RenderedIsDocument(members);
    var p, q := StripAround(before, text, after);
    var s := p + text + q;
    assert IsFallback(s, ReadDocument, r);
    if TextsFit(members) {
      ObjectRecovered(before, members, after, ReadDocument, r);
    }
    var braces: Option<Json>, brackets :|
      && IsBlockResult(s, LBRACE, RBRACE, ReadDocument, braces)
      && IsBlockResult(s, LBRACKET, RBRACKET, ReadDocument, brackets)
      && r == if braces.Some? then braces else brackets;
    BracketsGiveNoObject(s, brackets);
    if braces.Some? {
      BracesWereExact(p, members, q, braces.value);
    }
  }

  /** Whole path: writer, prose around it, extraction, reader. */
  method ExtractWritten(before: Bytes, members: seq<Member>, after: Bytes, fence: Bytes -> Option<Bytes>)
    returns (r: Option<Json>)
    requires Writable(Object(members)) && LBRACE !in before
    requires var s := Strip(before + Render(Object(members)) + after); ReadDocument(s) == None && fence(s) == None
    ensures r == Some(Object(members)) <==> TextsFit(members)
  {
    r := ExtractJson(before + Render(Object(members)) + after, ReadDocument, fence);
    WrittenObjectReturnedIff(before, members, after, fence, r);
  }

  // ---------------------------------------------------------------- what fits and what does not

  const LETTER_A: Bytes := [0x61]
  const LETTER_B: Bytes := [0x62]
  const PROSE: Bytes := [0x78]

  /** `x{"a":"}"}` followed by anything: the object is lost. */
  lemma {:induction false} UnbalancedStringIsLost(after: Bytes, fence: Bytes -> Option<Bytes>, r: Option<Json>)
    requires var text := PROSE + Render(Object([Member(LETTER_A, String([RBRACE]))])) + after;
             fence(Strip(text)) == None && IsExtraction(text, ReadDocument, fence, r)
    ensures r != Some(Object([Member(LETTER_A, String([RBRACE]))]))
  {
    var m := Member(LETTER_A, String([RBRACE]));
    var text := Render(Object([m]));
    assert !TextsFit([m]) by {
      BraceFree(LETTER_A, 0);
      assert [m][0] == m;
      assert !StaysAbove([RBRACE], 0);
      assert !Fits(m.value, 0);
    }
    var s := PROSE + (text + after);
    Assoc(PROSE, text, after);
    StartsWithProse(s);
    WrittenObjectReturnedIff(PROSE, [m], after, fence, r);
  }

  lemma {:induction false} StartsWithProse(text: Bytes)
    requires text != [] && text[0] == 0x78
    ensures ReadDocument(Strip(text)) == None
  {
    assert SpaceAtStart(text) == 0;
    StripRightStart(text);
    var s := Strip(text);
    if s != [] {
      assert s[0] == 0x78;
      JsonDocuments.DoesNotStart(s, NULL_TEXT);
      JsonDocuments.DoesNotStart(s, TRUE_TEXT);
      JsonDocuments.DoesNotStart(s, FALSE_TEXT);
      assert ScanNumber(s) < 0;
    }
  }

  lemma {:induction false} StripRightStart(s: Bytes)
    ensures StripRight(s) <= s
    decreases |s|
  {
    hide IsSpaceChar, SpaceAtEnd;
    var n := SpaceAtEnd(s);
    if n > 0 {
      StripRightStart(s[..|s| - n]);
      hide StripRight;
      PrefixOfTake(StripRight(s[..|s| - n]), s, |s| - n);
    }
  }

  lemma {:induction false} PrefixOfTake(a: Bytes, s: Bytes, n: nat)
    requires n <= |s| && a <= s[..n]
    ensures a <= s
  {
    assert forall i | 0 <= i < |a| :: a[i] == s[..n][i] == s[i];
  }

  /** `{"a":"{","b":"}"}`: neither string is balanced, and the object is cut exactly all the same. */
  lemma {:induction false} BalanceIsNotNeeded()
    ensures var members := [Member(LETTER_A, String([LBRACE])), Member(LETTER_B, String([RBRACE]))];
            TextsFit(members) && !BalancedTexts(Object(members))
  {
    var a, b := Member(LETTER_A, String([LBRACE])), Member(LETTER_B, String([RBRACE]));
    var members := [a, b];
    assert [LBRACE][1..] == [] && [RBRACE][1..] == [];
    BraceFree(LETTER_A, 0);
    BraceFree(LETTER_B, 1);
    assert members[1..] == [b] && [b][1..] == [];
    assert BraceDepth([LBRACE]) == 1 && BraceDepth([RBRACE]) == -1;
    assert MembersWeight([b]) == -1;
    assert MembersWeight(members) == 1 + MembersWeight(members[1..]);
    assert !BalancedTexts(members[0].value);
  }
}
