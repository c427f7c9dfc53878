/**
 Whole runs of the writer: what holds after every prefix of a disciplined call sequence, what a
 complete run has written, and a driver that writes any tree.
 */
module WriterTheorems {
  import opened Wrappers
  import opened JsonSyntax
  import opened JsonReader
  import opened JsonWriter
  import opened WriterRuns
  import opened Sequences
  import JsonDocuments

  // ---------------------------------------------------------------- runs

  /** Every call of the sequence is allowed where it is made. */
  predicate Disciplined(calls: seq<Call>, b: Builder)
    requires Sound(b)
  {
    calls == [] || (Allowed(calls[0], b) && Disciplined(calls[1..], Build(calls[0], b)))
  }

  function RunBuilder(calls: seq<Call>, b: Builder): (r: Builder)
    requires Sound(b) && Disciplined(calls, b)
    ensures Sound(r)
  {
    if calls == [] then b else RunBuilder(calls[1..], Build(calls[0], b))
  }

  /** The writer after a sequence of calls, or None if one of them pops an empty stack. */
  function RunWriter(calls: seq<Call>, w: State): Option<State> {
    if calls == [] then Some(w)
    else if !Callable(calls[0], w) then None
    else RunWriter(calls[1..], After(calls[0], w))
  }

  lemma {:induction false} RunTracks(calls: seq<Call>, b: Builder, w: State)
    requires Tracks(b, w) && Disciplined(calls, b)
    ensures RunWriter(calls, w).Some? && Tracks(RunBuilder(calls, b), RunWriter(calls, w).value)
  {
    if calls != [] {
      CallTracks(calls[0], b, w);
      RunTracks(calls[1..], Build(calls[0], b), After(calls[0], w));
    }
  }

  lemma {:induction false} RunsCompose(first: seq<Call>, second: seq<Call>, b: Builder)
    requires Sound(b) && Disciplined(first, b) && Disciplined(second, RunBuilder(first, b))
    ensures Disciplined(first + second, b)
    ensures RunBuilder(first + second, b) == RunBuilder(second, RunBuilder(first, b))
  {
    if first == [] {
      assert first + second == second;
    } else {
      var all := first + second;
      RunsCompose(first[1..], second, Build(first[0], b));
      DropOfConcat(first, second, 1);
      assert all[0] == first[0] && all != [];
    }
  }

  // ---------------------------------------------------------------- brackets seen from outside

  datatype Mode = Outside | InString | AfterBackslash

  /** A scan of a text: the brackets still open outside strings, and where the scan is. */
  datatype Scan = Scan(open: seq<char>, mode: Mode)

  function ScanByte(s: Scan, b: byte): Scan {
    match s.mode
    case AfterBackslash => s.(mode := InString)
    case InString =>
      if b == QUOTE then s.(mode := Outside)
      else if b == BACKSLASH then s.(mode := AfterBackslash)
      else s
    case Outside =>
      if b == QUOTE then s.(mode := InString)
      else if b == LBRACE then s.(open := s.open + ['o'])
      else if b == LBRACKET then s.(open := s.open + ['a'])
      else if b in {RBRACE, RBRACKET} && s.open != [] then s.(open := Pop(s.open))
      else s
  }

  function ScanText(s: Scan, text: Bytes): Scan
    decreases text
  {
    if text == [] then s else ScanText(ScanByte(s, text[0]), text[1..])
  }

  function UnclosedBrackets(text: Bytes): seq<char> {
    ScanText(Scan([], Outside), text).open
  }

  lemma {:induction false} ScanConcat(s: Scan, t: Bytes, u: Bytes)
    ensures ScanText(s, t + u) == ScanText(ScanText(s, t), u)
    decreases t
  {
    if t == [] {
      assert t + u == u;
    } else {
      ScanConcat(ScanByte(s, t[0]), t[1..], u);
      assert (t + u)[1..] == t[1..] + u;
    }
  }

  lemma {:induction false} ScanOne(s: Scan, b: byte)
    ensures ScanText(s, [b]) == ScanByte(s, b)
  {
    assert [b][1..] == [];
  }

  lemma {:induction false} ScanEscaped(s: Scan, text: Bytes)
    requires s.mode == InString
    ensures ScanText(s, Escape(text)) == s
  {
    if text != [] {
      var e := EscapeByte(text[0]);
      ScanConcat(s, e, Escape(text[1..]));
      assert ScanText(s, e) == s by {
        if |e| == 1 {
          ScanOne(s, e[0]);
        } else {
          assert e == [BACKSLASH] + ([e[1]] + e[2..]);
          ScanConcat(s, [BACKSLASH], [e[1]] + e[2..]);
          ScanOne(s, BACKSLASH);
          ScanConcat(s.(mode := AfterBackslash), [e[1]], e[2..]);
          ScanOne(s.(mode := AfterBackslash), e[1]);
          ScanPlain(s, e[2..]);
        }
      }
      ScanEscaped(s, text[1..]);
    }
  }

  predicate IsPlain(b: byte) {
    b !in {QUOTE, BACKSLASH, LBRACE, RBRACE, LBRACKET, RBRACKET}
  }

  lemma {:induction false} ScanPlain(s: Scan, text: Bytes)
    requires s.mode != AfterBackslash && forall i | 0 <= i < |text| :: IsPlain(text[i])
    ensures ScanText(s, text) == s
  {
    if text != [] {
      ScanPlain(s, text[1..]);
    }
  }

  lemma {:induction false} ScanQuoted(s: Scan, text: Bytes)
    requires s.mode == Outside
    ensures ScanText(s, Quote(text)) == s
  {
    var inside := s.(mode := InString);
    Assoc([QUOTE], Escape(text), [QUOTE]);
    ScanConcat(s, [QUOTE], Escape(text) + [QUOTE]);
    ScanOne(s, QUOTE);
    ScanConcat(inside, Escape(text), [QUOTE]);
    ScanEscaped(inside, text);
    ScanOne(inside, QUOTE);
  }

  lemma {:induction false} ExponentIsPlain(t: Bytes)
    requires IsExponent(t)
    ensures forall i | 0 <= i < |t| :: IsPlain(t[i])
  {
    if t != [] {
      var skip := if |t| > 1 && t[1] in {PLUS, MINUS} then 2 else 1;
      forall i | skip <= i < |t| ensures IsPlain(t[i]) {
        assert IsDigit(t[skip..][i - skip]);
      }
    }
  }

  lemma {:induction false} FractionIsPlain(t: Bytes)
    requires IsFraction(t)
    ensures forall i | 0 <= i < |t| :: IsPlain(t[i])
  {
    hide DigitRun;
    if t != [] && t[0] == DOT {
      var n := DigitRun(t[1..]);
      ExponentIsPlain(t[1 + n..]);
      forall i | 1 <= i < |t| ensures IsPlain(t[i]) {
        if i <= n { assert IsDigit(t[1..][i - 1]); } else { assert t[i] == t[1 + n..][i - 1 - n]; }
      }
    } else {
      ExponentIsPlain(t);
    }
  }

  lemma {:induction false} UnsignedIsPlain(t: Bytes)
    requires IsUnsignedNumber(t)
    ensures forall i | 0 <= i < |t| :: IsPlain(t[i])
  {
    var n := DigitRun(t);
    FractionIsPlain(t[n..]);
    forall i | n <= i < |t| ensures IsPlain(t[i]) {
      assert t[i] == t[n..][i - n];
    }
  }

  /** A number token holds no quote, backslash or bracket. */
  lemma {:induction false} NumberIsPlain(t: Bytes)
    requires IsNumber(t)
    ensures t != [] && forall i | 0 <= i < |t| :: IsPlain(t[i])
  {
    if t != [] && t[0] == MINUS {
      UnsignedIsPlain(t[1..]);
      forall i | 1 <= i < |t| ensures IsPlain(t[i]) {
        assert t[i] == t[1..][i - 1];
      }
    } else {
      UnsignedIsPlain(t);
    }
  }

  /** Scanning a whole value leaves the open brackets as they were. */
  lemma {:induction false} ScanValue(s: Scan, v: Json)
    requires s.mode == Outside && Writable(v)
    ensures ScanText(s, Render(v)) == s
    decreases v, 0
  {
    match v {
      case Null => ScanPlain(s, Render(v));
      case Bool(_) => ScanPlain(s, Render(v));
      case Number(token) =>
        NumberIsPlain(token);
        ScanPlain(s, token);
      case String(text) => ScanQuoted(s, text);
      case Array(items) =>
        ScanItems(s.(open := s.open + ['a']), items);
        ScanBracketed(s, LBRACKET, RenderItems(items), RBRACKET);
      case Object(members) =>
        ScanMembers(s.(open := s.open + ['o']), members);
        ScanBracketed(s, LBRACE, RenderMembers(members), RBRACE);
    }
  }

  lemma {:induction false} ScanBracketed(s: Scan, open: byte, body: Bytes, close: byte)
    requires s.mode == Outside
    requires (open == LBRACE && close == RBRACE) || (open == LBRACKET && close == RBRACKET)
    requires ScanText(ScanByte(s, open), body) == ScanByte(s, open)
    ensures ScanText(s, [open] + body + [close]) == s
  {
    ScanConcat(s, [open] + body, [close]);
    ScanConcat(s, [open], body);
    ScanOne(s, open);
    ScanOne(ScanByte(s, open), close);
  }

  lemma {:induction false} ScanItems(s: Scan, items: seq<Json>)
    requires s.mode == Outside && forall i | 0 <= i < |items| :: Writable(items[i])
    ensures ScanText(s, RenderItems(items)) == s
    decreases items, 1
  {
    if items != [] {
      ScanValue(s, items[0]);
      if |items| > 1 {
        ScanItems(s, items[1..]);
        ScanConcat(s, Render(items[0]) + [COMMA], RenderItems(items[1..]));
        ScanConcat(s, Render(items[0]), [COMMA]);
        ScanOne(s, COMMA);
      }
    }
  }

  lemma {:induction false} ScanMember(s: Scan, m: Member)
    requires s.mode == Outside && Writable(m.value)
    ensures ScanText(s, RenderMember(m)) == s
    decreases m, 2
  {
    ScanConcat(s, Quote(m.key) + [COLON], Render(m.value));
    ScanConcat(s, Quote(m.key), [COLON]);
    ScanQuoted(s, m.key);
    ScanOne(s, COLON);
    ScanValue(s, m.value);
  }

  lemma {:induction false} ScanMembers(s: Scan, members: seq<Member>)
    requires s.mode == Outside && forall i | 0 <= i < |members| :: Writable(members[i].value)
    ensures ScanText(s, RenderMembers(members)) == s
    decreases members, 3
  {
    if members != [] {
      ScanMember(s, members[0]);
      if |members| > 1 {
        ScanMembers(s, members[1..]);
        ScanConcat(s, RenderMember(members[0]) + [COMMA], RenderMembers(members[1..]));
        ScanConcat(s, RenderMember(members[0]), [COMMA]);
        ScanOne(s, COMMA);
      }
    }
  }

  lemma {:induction false} ScanComma(s: Scan, first: bool)
    requires s.mode == Outside
    ensures ScanText(s, CommaUnless(first)) == s
  {
    if !first { ScanOne(s, COMMA); }
  }

  /** One open container adds exactly its own bracket. */
  lemma {:induction false} ScanFrame(s: Scan, f: Frame, inside: bool)
    requires s.mode == Outside && WritableFrame(f)
    ensures ScanText(s, FrameText(f, inside)) == s.(open := s.open + [Kind(f)])
  {
    var t := s.(open := s.open + [Kind(f)]);
    match f {
      case ArrayFrame(items) =>
        var comma := if inside then CommaUnless(items == []) else [];
        ScanConcat(s, [LBRACKET] + RenderItems(items), comma);
        ScanConcat(s, [LBRACKET], RenderItems(items));
        ScanOne(s, LBRACKET);
        ScanItems(t, items);
        ScanComma(t, items == []);
      case ObjectFrame(members, key) =>
        ScanConcat(s, [LBRACE], RenderMembers(members));
        ScanOne(s, LBRACE);
        ScanMembers(t, members);
        if key.Some? {
          var head := [LBRACE] + RenderMembers(members);
          var comma := CommaUnless(members == []);
          ScanConcat(s, head + comma + Quote(key.value), [COLON]);
          ScanConcat(s, head + comma, Quote(key.value));
          ScanConcat(s, head, comma);
          ScanComma(t, members == []);
          ScanQuoted(t, key.value);
          ScanOne(t, COLON);
        }
    }
  }

  lemma {:induction false} KindsSnoc(frames: seq<Frame>)
    ensures frames == [] ==> Kinds(frames) == []
    ensures frames != [] ==> Kinds(frames) == Kinds(Outer(frames)) + [Kind(frames[|frames| - 1])]
  {
  }

  lemma {:induction false} ScanOpenText(frames: seq<Frame>)
    requires forall i | 0 <= i < |frames| :: WritableFrame(frames[i])
    ensures ScanText(Scan([], Outside), OpenText(frames)) == Scan(Kinds(frames), Outside)
  {
    if frames != [] {
      var f := frames[|frames| - 1];
      ScanOpenText(Outer(frames));
      ScanConcat(Scan([], Outside), OpenText(Outer(frames)), FrameText(f, true));
      ScanFrame(Scan(Kinds(Outer(frames)), Outside), f, true);
    }
    KindsSnoc(frames);
  }

  lemma {:induction false} ScanBuilderText(b: Builder)
    requires Sound(b)
    ensures ScanText(Scan([], Outside), BuilderText(b)) == Scan(Kinds(b.frames), Outside)
  {
    assert ScanText(Scan([], Outside), []) == Scan([], Outside);
    KindsSnoc(b.frames);
    hide FrameText, OpenText, Render, ScanText, WritableFrame, Kinds;
    if b.frames != [] {
      ScanOpenText(Outer(b.frames));
      ScanConcat(Scan([], Outside), OpenText(Outer(b.frames)), FrameText(Top(b), false));
      ScanFrame(Scan(Kinds(Outer(b.frames)), Outside), Top(b), false);
    } else if b.root.Some? {
      ScanValue(Scan([], Outside), b.root.value);
    }
  }

  // ---------------------------------------------------------------- the last byte

  predicate EndsWithOpener(text: Bytes) {
    text != [] && text[|text| - 1] in {LBRACE, LBRACKET}
  }

  lemma {:induction false} ValueEnd(v: Json)
    requires Writable(v)
    ensures Render(v) != [] && !EndsWithOpener(Render(v))
  {
    if v.Number? {
      NumberIsPlain(v.token);
      assert IsPlain(v.token[|v.token| - 1]);
    }
  }

  lemma {:induction false} LastByte(a: Bytes, b: Bytes)
    requires b != []
    ensures EndsWithOpener(a + b) <==> EndsWithOpener(b)
  {
  }

  lemma {:induction false} ItemsEnd(items: seq<Json>)
    requires items != [] && forall i | 0 <= i < |items| :: Writable(items[i])
    ensures RenderItems(items) != [] && !EndsWithOpener(RenderItems(items))
  {
    var last := items[|items| - 1];
    InitLast(items);
    RenderItemsSnoc(items[..|items| - 1], last);
    ValueEnd(last);
    hide Render, RenderItems, EndsWithOpener, Writable;
    LastByte(RenderItems(items[..|items| - 1]) + CommaUnless(items[..|items| - 1] == []), Render(last));
  }

  lemma {:induction false} MembersEnd(members: seq<Member>)
    requires members != [] && forall i | 0 <= i < |members| :: Writable(members[i].value)
    ensures RenderMembers(members) != [] && !EndsWithOpener(RenderMembers(members))
  {
    var last := members[|members| - 1];
    InitLast(members);
    RenderMembersSnoc(members[..|members| - 1], last);
    ValueEnd(last.value);
    assert RenderMember(last) == Quote(last.key) + [COLON] + Render(last.value);
    hide Render, RenderMembers, RenderMember, Quote, EndsWithOpener, Writable;
    LastByte(Quote(last.key) + [COLON], Render(last.value));
    LastByte(RenderMembers(members[..|members| - 1]) + CommaUnless(members[..|members| - 1] == []), RenderMember(last));
  }

  lemma {:induction false} FrameEnd(f: Frame)
    requires WritableFrame(f)
    ensures FrameText(f, false) != []
    ensures EndsWithOpener(FrameText(f, false)) <==> IsFresh(f)
    ensures IsFresh(f) ==> FrameText(f, false) == [if f.ObjectFrame? then LBRACE else LBRACKET]
  {
    match f {
      case ArrayFrame(items) => ArrayFrameEnd(items);
      case ObjectFrame(members, key) => ObjectFrameEnd(members, key);
    }
  }

  lemma {:induction false} ArrayFrameEnd(items: seq<Json>)
    requires forall i | 0 <= i < |items| :: Writable(items[i])
    ensures EndsWithOpener(FrameText(ArrayFrame(items), false)) <==> items == []
    ensures FrameText(ArrayFrame(items), false) == [LBRACKET] + RenderItems(items)
    ensures items == [] ==> RenderItems(items) == []
  {
    assert FrameText(ArrayFrame(items), false) == [LBRACKET] + RenderItems(items);
    if items == [] {
      assert RenderItems(items) == [];
    } else {
      ItemsEnd(items);
    }
    hide FrameText, RenderItems, Writable;
    if items != [] {
      LastByte([LBRACKET], RenderItems(items));
    }
  }

  lemma {:induction false} ObjectFrameEnd(members: seq<Member>, key: Option<Bytes>)
    requires forall i | 0 <= i < |members| :: Writable(members[i].value)
    ensures EndsWithOpener(FrameText(ObjectFrame(members, key), false)) <==> members == [] && key.None?
    ensures key.None? ==> FrameText(ObjectFrame(members, key), false) == [LBRACE] + RenderMembers(members)
    ensures members == [] ==> RenderMembers(members) == []
    ensures FrameText(ObjectFrame(members, key), false) != []
  {
    if key.None? && members != [] {
      hide Render, RenderMembers, Writable, CommaUnless;
      MembersEnd(members);
      LastByte([LBRACE], RenderMembers(members));
    }
  }

  // ---------------------------------------------------------------- closing what is open

  /** The closing brackets for a container stack, innermost first. */
  function Closers(containers: seq<char>): Bytes {
    if containers == [] then []
    else
      [if containers[|containers| - 1] == 'o' then RBRACE else RBRACKET] + Closers(Pop(containers))
  }

  /** A value has begun and no key waits for one. */
  predicate CanFinish(b: Builder) {
    !HasPendingKey(b) && (b.frames != [] || b.root.Some?)
  }

  /** The tree that results when every open container is closed now. */
  function Finished(b: Builder): (v: Json)
    requires Sound(b) && CanFinish(b)
    ensures Writable(v)
    decreases |b.frames|
  {
    if b.frames == [] then b.root.value else Finished(Close(b))
  }

  lemma {:induction false} ClosingText(b: Builder)
    requires Sound(b) && CanFinish(b)
    ensures BuilderText(b) + Closers(Kinds(b.frames)) == Render(Finished(b))
    decreases |b.frames|
  {
    if b.frames == [] {
      assert Kinds(b.frames) == [];
    } else {
      CloseText(b);
      ClosingText(Close(b));
      Assoc(BuilderText(b), [Closer(Top(b))], Closers(Kinds(Close(b).frames)));
    }
  }

  // ---------------------------------------------------------------- the main results

  /** After any disciplined calls the two stacks agree with the brackets left open in the output. */
  lemma {:induction false} StacksMatchOutput(calls: seq<Call>)
    requires Disciplined(calls, START)
    ensures var run := RunWriter(calls, INITIAL);
            && run.Some?
            && run.value.containers == UnclosedBrackets(run.value.out)
            && |run.value.first| == |run.value.containers|
  {
    RunTracks(calls, START, INITIAL);
    ScanBuilderText(RunBuilder(calls, START));
  }

  /** The innermost flag is '1' exactly when nothing follows that container's opening bracket. */
  lemma {:induction false} FlagMatchesLastByte(calls: seq<Call>)
    requires Disciplined(calls, START)
    ensures var run := RunWriter(calls, INITIAL);
            && run.Some?
            && var w := run.value;
            |w.first| == |w.containers| &&
            (w.first != [] ==>
              && (w.first[|w.first| - 1] == '1' <==> EndsWithOpener(w.out))
              && (w.first[|w.first| - 1] == '1' ==>
                    w.out[|w.out| - 1] == if w.containers[|w.first| - 1] == 'o' then LBRACE else LBRACKET)
              && forall i | 0 <= i < |w.first| - 1 :: w.first[i] == '0')
  {
    RunTracks(calls, START, INITIAL);
    var b := RunBuilder(calls, START);
    if b.frames != [] {
      FrameEnd(Top(b));
      var w := RunWriter(calls, INITIAL).value;
      assert w.out[|w.out| - 1] == FrameText(Top(b), false)[|FrameText(Top(b), false)| - 1];
    }
  }

  /** Once a value has begun and no key is pending, closing the open containers gives a JSON text. */
  lemma {:induction false} ClosingMakesDocument(calls: seq<Call>)
    requires Disciplined(calls, START)
    ensures var run := RunWriter(calls, INITIAL);
            && run.Some?
            && var w := run.value;
            var b := RunBuilder(calls, START);
            (w.out != [] && !w.pending ==>
              CanFinish(b) && ReadDocument(w.out + Closers(w.containers)) == Some(Finished(b)))
  {
    StartTracks();
    hide ReadDocument, Closers, Render, Finished, Kinds, Flags, Disciplined, RunWriter, RunBuilder;
    RunTracks(calls, START, INITIAL);
    var b := RunBuilder(calls, START);
    var w := RunWriter(calls, INITIAL).value;
    if w.out != [] && !w.pending {
      ClosingText(b);
      JsonDocuments.RenderReadsBack([], Finished(b), []);
      assert [] + Render(Finished(b)) + [] == Render(Finished(b));
    }
  }

  /** The output of the calls, before and after a value: the value's rendering and nothing else. */
  lemma {:induction false} PutDelta(b: Builder, v: Json)
    requires Sound(b) && TakesValue(b) && Writable(v)
    ensures BuilderText(Put(b, v))
         == BuilderText(b) + CommaUnless(b.frames == [] || HasPendingKey(b) || IsFresh(Top(b))) + Render(v)
  {
    PutText(b, v);
    if b.frames != [] && Top(b).ArrayFrame? {
      Assoc(OpenText(Outer(b.frames)), FrameText(Top(b), false), CommaUnless(Top(b).items == []));
      assert FrameText(Top(b), false) == [LBRACKET] + RenderItems(Top(b).items);
    }
  }

  // ---------------------------------------------------------------- writing a tree

  /** The calls that write a tree. */
  function CallsOf(v: Json): seq<Call>
    decreases v, 1
  {
    match v
    case Null => [Value(NullScalar)]
    case Bool(b) => [Value(BoolScalar(b))]
    case Number(token) => [Value(RawNumber(token))]
    case String(text) => [Value(StringScalar(text))]
    case Array(items) => [BeginArray] + ItemCalls(items) + [EndArray]
    case Object(members) => [BeginObject] + MemberCalls(members) + [EndObject]
  }

  function ItemCalls(items: seq<Json>): seq<Call>
    decreases items, 0
  {
    if items == [] then [] else CallsOf(items[0]) + ItemCalls(items[1..])
  }

  function MemberCalls(members: seq<Member>): seq<Call>
    decreases members, 0
  {
    if members == [] then []
    else [Key(members[0].key)] + CallsOf(members[0].value) + MemberCalls(members[1..])
  }

  lemma {:induction false} OneCall(c: Call, b: Builder)
    requires Sound(b) && Allowed(c, b)
    ensures Disciplined([c], b) && RunBuilder([c], b) == Build(c, b)
  {
    assert [c][1..] == [];
  }

  /** Driving the writer through a tree is disciplined and adds exactly that tree. */
  lemma {:induction false} CallsPutTree(v: Json, b: Builder)
    requires Sound(b) && TakesValue(b) && Writable(v)
    ensures Disciplined(CallsOf(v), b) && RunBuilder(CallsOf(v), b) == Put(b, v)
    decreases v, 1
  {
    match v {
      case Null => OneCall(Value(NullScalar), b);
      case Bool(x) => OneCall(Value(BoolScalar(x)), b);
      case Number(token) => OneCall(Value(RawNumber(token)), b);
      case String(text) => OneCall(Value(StringScalar(text)), b);
      case Array(items) =>
        ItemCallsFill(items, [], b);
        assert [] + items == items;
        BracketedCalls(BeginArray, ItemCalls(items), EndArray, b, ArrayFrame(items));
      case Object(members) =>
        MemberCallsFill(members, [], b);
        assert [] + members == members;
        BracketedCalls(BeginObject, MemberCalls(members), EndObject, b, ObjectFrame(members, None));
    }
  }

  lemma {:induction false} FilledCloses(b: Builder, f: Frame)
    requires Sound(b) && TakesValue(b) && WritableFrame(f)
    ensures Close(Push(b, f)) == Put(b, Closed(f))
  {
    assert Outer(Push(b, f).frames) == b.frames;
  }

  lemma {:induction false} BracketedCalls(open: Call, body: seq<Call>, close: Call, b: Builder, f: Frame)
    requires Sound(b) && TakesValue(b) && WritableFrame(f)
    requires (open == BeginArray && close == EndArray && f.ArrayFrame?)
          || (open == BeginObject && close == EndObject && f.ObjectFrame? && f.key.None?)
    requires Disciplined(body, Build(open, b)) && RunBuilder(body, Build(open, b)) == Push(b, f)
    ensures Disciplined([open] + body + [close], b)
    ensures RunBuilder([open] + body + [close], b) == Put(b, Closed(f))
  {
    OneCall(open, b);
    RunsCompose([open], body, b);
    OneCall(close, Push(b, f));
    RunsCompose([open] + body, [close], b);
    FilledCloses(b, f);
  }

  lemma {:induction false} ItemCallsFill(items: seq<Json>, done: seq<Json>, b: Builder)
    requires Sound(b) && TakesValue(b)
    requires WritableFrame(ArrayFrame(done)) && WritableFrame(ArrayFrame(items))
    ensures WritableFrame(ArrayFrame(done + items))
    ensures var inside := Push(b, ArrayFrame(done));
            && Disciplined(ItemCalls(items), inside)
            && RunBuilder(ItemCalls(items), inside) == Push(b, ArrayFrame(done + items))
    decreases items, 0
  {
    if items == [] {
      assert done + items == done;
    } else {
      hide Put, CallsOf, Disciplined, RunBuilder, Writable, Sound;
      var inside := Push(b, ArrayFrame(done));
      ItemCallsPut(items[0], done, b);
      ItemCallsFill(items[1..], done + [items[0]], b);
      RunsCompose(CallsOf(items[0]), ItemCalls(items[1..]), inside);
      HeadTail(items);
      Assoc(done, [items[0]], items[1..]);
    }
  }

  lemma {:induction false} ItemCallsPut(v: Json, done: seq<Json>, b: Builder)
    requires Sound(b) && TakesValue(b) && WritableFrame(ArrayFrame(done)) && Writable(v)
    ensures WritableFrame(ArrayFrame(done + [v]))
    ensures var inside := Push(b, ArrayFrame(done));
            Disciplined(CallsOf(v), inside) && RunBuilder(CallsOf(v), inside) == Push(b, ArrayFrame(done + [v]))
    decreases v, 2
  {
    ItemAdded(done, v, b);
    CallsPutTree(v, Push(b, ArrayFrame(done)));
  }

  lemma {:induction false} ItemAdded(done: seq<Json>, v: Json, b: Builder)
    requires Sound(b) && TakesValue(b) && WritableFrame(ArrayFrame(done)) && Writable(v)
    ensures WritableFrame(ArrayFrame(done + [v]))
    ensures Put(Push(b, ArrayFrame(done)), v) == Push(b, ArrayFrame(done + [v]))
  {
  }

  lemma {:induction false} MemberAdded(done: seq<Member>, m: Member, b: Builder)
    requires Sound(b) && TakesValue(b) && WritableFrame(ObjectFrame(done, None)) && Writable(m.value)
    ensures WritableFrame(ObjectFrame(done + [m], None))
    ensures var keyed := Push(b, ObjectFrame(done, Some(m.key)));
            && Allowed(Key(m.key), Push(b, ObjectFrame(done, None)))
            && Build(Key(m.key), Push(b, ObjectFrame(done, None))) == keyed
            && Put(keyed, m.value) == Push(b, ObjectFrame(done + [m], None))
  {
    assert Member(m.key, m.value) == m;
  }

  lemma {:induction false} MemberCallsPut(m: Member, done: seq<Member>, b: Builder)
    requires Sound(b) && TakesValue(b) && WritableFrame(ObjectFrame(done, None)) && Writable(m.value)
    ensures WritableFrame(ObjectFrame(done + [m], None))
    ensures var inside := Push(b, ObjectFrame(done, None));
            var calls := [Key(m.key)] + CallsOf(m.value);
            && Disciplined(calls, inside)
            && RunBuilder(calls, inside) == Push(b, ObjectFrame(done + [m], None))
    decreases m, 2
  {
    var inside := Push(b, ObjectFrame(done, None));
    MemberAdded(done, m, b);
    OneCall(Key(m.key), inside);
    CallsPutTree(m.value, Push(b, ObjectFrame(done, Some(m.key))));
    RunsCompose([Key(m.key)], CallsOf(m.value), inside);
  }

  lemma {:induction false} MemberCallsFill(members: seq<Member>, done: seq<Member>, b: Builder)
    requires Sound(b) && TakesValue(b)
    requires WritableFrame(ObjectFrame(done, None)) && WritableFrame(ObjectFrame(members, None))
    ensures WritableFrame(ObjectFrame(done + members, None))
    ensures var inside := Push(b, ObjectFrame(done, None));
            && Disciplined(MemberCalls(members), inside)
            && RunBuilder(MemberCalls(members), inside) == Push(b, ObjectFrame(done + members, None))
    decreases members, 3
  {
    if members == [] {
      assert done + members == done;
    } else {
      hide Put, CallsOf, Disciplined, RunBuilder, Writable, Sound;
      var m := members[0];
      MemberCallsPut(m, done, b);
      MemberCallsFill(members[1..], done + [m], b);
      RunsCompose([Key(m.key)] + CallsOf(m.value), MemberCalls(members[1..]), Push(b, ObjectFrame(done, None)));
      assert done + [m] + members[1..] == done + members;
    }
  }

  /**
   Writing a tree wherever a value may stand appends its rendering (after a comma if it is not the
   first), leaves the container stack alone and leaves no key pending.
   */
  lemma {:induction false} TreeAppends(v: Json, b: Builder, w: State)
    requires Tracks(b, w) && TakesValue(b) && Writable(v)
    ensures var run := RunWriter(CallsOf(v), w);
            && run.Some?
            && run.value.out
                 == w.out + CommaUnless(b.frames == [] || HasPendingKey(b) || IsFresh(Top(b))) + Render(v)
            && run.value.containers == w.containers
            && run.value.first == Zeros(|w.first|)
            && !run.value.pending
  {
    CallsPutTree(v, b);
    RunTracks(CallsOf(v), b, w);
    PutDelta(b, v);
    PutShape(b, v);
  }

  lemma {:induction false} FreshWriterWrites(v: Json)
    requires Writable(v)
    ensures RunWriter(CallsOf(v), INITIAL) == Some(State(Render(v), [], [], false))
  {
    TreeAppends(v, START, INITIAL);
    assert [] + Render(v) == Render(v);
  }

  /** The writer and the reader are inverse: a fresh writer driven through a tree, then read. */
  lemma {:induction false} WriterReaderRoundTrip(v: Json, after: Bytes)
    requires Writable(v) && IsBlank(after)
    ensures var run := RunWriter(CallsOf(v), INITIAL);
            && run == Some(State(Render(v), [], [], false))
            && ReadDocument(run.value.out + after) == Some(v)
  {
    FreshWriterWrites(v);
    JsonDocuments.RenderReadsBack([], v, after);
    assert [] + Render(v) == Render(v);
  }

  /** Any complete disciplined run, not only one that follows a tree, reads back as what was built. */
  lemma {:induction false} CompleteRunReadsBack(calls: seq<Call>)
    requires Disciplined(calls, START)
    requires RunBuilder(calls, START).root.Some?
    ensures var run := RunWriter(calls, INITIAL);
            && run.Some? && run.value.containers == []
            && ReadDocument(run.value.out) == RunBuilder(calls, START).root
  {
    RunTracks(calls, START, INITIAL);
    var b := RunBuilder(calls, START);
    var v := b.root.value;
    assert b.frames == [];
    assert BuilderText(b) == Render(v);
    assert [] + Render(v) + [] == Render(v);
    JsonDocuments.RenderReadsBack([], v, []);
  }

  /** What the reader's value for a scalar has to say. */
  predicate Says(v: Json, scalar: Scalar) {
    match scalar
    case NullScalar => v == Null
    case BoolScalar(b) => v == Bool(b)
    case IntScalar(i) => DenotesInt(v, i)
    case UintScalar(u) => DenotesInt(v, u)
    case StringScalar(s) => v == String(s)
    case RawNumber(token) => v == Number(token)
  }

  predicate DenotesInt(v: Json, n: int) {
    v.Number? && v.token != []
    && var sign := if v.token[0] == MINUS then 1 else 0;
       (forall i | sign <= i < |v.token| :: IsDigit(v.token[i])) && TokenInt(v.token) == n
  }

  /** A scalar written by a fresh writer is read as that null, truth value, integer, string or number token. */
  lemma {:induction false} ScalarReadsBack(scalar: Scalar)
    requires scalar.RawNumber? ==> IsNumber(scalar.token)
    ensures var run := RunWriter([Value(scalar)], INITIAL);
            run.Some? && ReadDocument(run.value.out).Some? && Says(ReadDocument(run.value.out).value, scalar)
  {
    OneScalar(scalar);
    hide *;
    CompleteRunReadsBack([Value(scalar)]);
    ScalarSays(scalar);
  }

  lemma {:induction false} OneScalar(scalar: Scalar)
    requires scalar.RawNumber? ==> IsNumber(scalar.token)
    ensures Disciplined([Value(scalar)], START)
    ensures RunBuilder([Value(scalar)], START).root == Some(ScalarValue(scalar))
  {
    hide IsNumber, ScalarValue, Writable;
    assert [Value(scalar)][1..] == [];
    assert Allowed(Value(scalar), START);
  }

  lemma {:induction false} ScalarSays(scalar: Scalar)
    requires scalar.RawNumber? ==> IsNumber(scalar.token)
    ensures Says(ScalarValue(scalar), scalar)
  {
    hide IsNumber, IntToken;
    match scalar {
      case IntScalar(i) => IntIsSaid(i);
      case UintScalar(u) => IntIsSaid(u);
      case _ =>
    }
  }

  lemma {:induction false} IntIsSaid(n: int)
    ensures DenotesInt(Number(IntToken(n)), n)
  {
    IntTokenDenotes(n);
  }

  // ---------------------------------------------------------------- a driver of the object

  /** Writes a tree through the object's methods, as the hwprobe sections do for theirs. */
  method WriteTree(w: Writer, v: Json, ghost b: Builder)
    requires Tracks(b, w.Now()) && TakesValue(b) && Writable(v)
    modifies w
    ensures Tracks(Put(b, v), w.Now())
    ensures w.out == old(w.out)
                     + CommaUnless(b.frames == [] || HasPendingKey(b) || IsFresh(Top(b))) + Render(v)
    ensures w.containerStack == old(w.containerStack) && !w.pendingKey
    decreases v, 1
  {
    hide OpenText, FrameText, CallsOf, Render, Kinds, Flags;
    PutDelta(b, v);
    PutShape(b, v);
    match v {
      case Null =>
        CallTracks(Value(NullScalar), b, w.Now());
        w.ValueNull();
      case Bool(x) =>
        CallTracks(Value(BoolScalar(x)), b, w.Now());
        w.ValueBool(x);
      case Number(token) =>
        CallTracks(Value(RawNumber(token)), b, w.Now());
        w.ValueRawNumberString(token);
      case String(text) =>
        CallTracks(Value(StringScalar(text)), b, w.Now());
        w.ValueString(text);
      case Array(items) =>
        CallTracks(BeginArray, b, w.Now());
        w.BeginArray();
        WriteItems(w, items, b);
        FilledCloses(b, ArrayFrame(items));
        CallTracks(EndArray, Push(b, ArrayFrame(items)), w.Now());
        w.EndArray();
      case Object(members) =>
        CallTracks(BeginObject, b, w.Now());
        w.BeginObject();
        WriteMembers(w, members, b);
        FilledCloses(b, ObjectFrame(members, None));
        CallTracks(EndObject, Push(b, ObjectFrame(members, None)), w.Now());
        w.EndObject();
    }
  }

  /** Fills a freshly opened array; `b` is the builder before it was opened. */
  method WriteItems(w: Writer, items: seq<Json>, ghost b: Builder)
    requires Sound(b) && TakesValue(b) && WritableFrame(ArrayFrame(items))
    requires Tracks(Push(b, ArrayFrame([])), w.Now())
    modifies w
    ensures Tracks(Push(b, ArrayFrame(items)), w.Now())
    decreases items, 0
  {
    hide Put, Tracks, Sound, Writable, Render, BuilderText, CallsOf, CommaUnless;
    var i := 0;
    while i < |items|
      invariant 0 <= i <= |items|
      invariant Tracks(Push(b, ArrayFrame(items[..i])), w.Now())
    {
      ItemAdded(items[..i], items[i], b);
      WriteTree(w, items[i], Push(b, ArrayFrame(items[..i])));
      assert items[..i + 1] == items[..i] + [items[i]];
      i := i + 1;
    }
    assert items[..i] == items;
  }

  /** Fills a freshly opened object. */
  method WriteMembers(w: Writer, members: seq<Member>, ghost b: Builder)
    requires Sound(b) && TakesValue(b) && WritableFrame(ObjectFrame(members, None))
    requires Tracks(Push(b, ObjectFrame([], None)), w.Now())
    modifies w
    ensures Tracks(Push(b, ObjectFrame(members, None)), w.Now())
    decreases members, 3
  {
    hide Put, Tracks, Sound, Writable, Render, BuilderText, CallsOf, CommaUnless;
    var i := 0;
    while i < |members|
      invariant 0 <= i <= |members|
      invariant Tracks(Push(b, ObjectFrame(members[..i], None)), w.Now())
    {
      WriteMember(w, members[i], members[..i], b);
      assert members[..i + 1] == members[..i] + [members[i]];
      i := i + 1;
    }
    assert members[..i] == members;
  }

  /** A key and its value, in an object that already holds `done`. */
  method WriteMember(w: Writer, m: Member, ghost done: seq<Member>, ghost b: Builder)
    requires Sound(b) && TakesValue(b) && WritableFrame(ObjectFrame(done, None)) && Writable(m.value)
    requires Tracks(Push(b, ObjectFrame(done, None)), w.Now())
    modifies w
    ensures WritableFrame(ObjectFrame(done + [m], None))
    ensures Tracks(Push(b, ObjectFrame(done + [m], None)), w.Now())
    decreases m, 2
  {
    hide Put, Sound, Writable, Render, BuilderText, CallsOf, CommaUnless, Kinds, Flags;
    MemberAdded(done, m, b);
    CallTracks(Key(m.key), Push(b, ObjectFrame(done, None)), w.Now());
    w.Key(m.key);
    WriteTree(w, m.value, Push(b, ObjectFrame(done, Some(m.key))));
  }
}
