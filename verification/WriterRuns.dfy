/**
 What a disciplined caller gets from the writer. A builder that knows the tree under construction
 runs beside the writer; every call keeps the writer's four fields equal to what the builder's open
 frames say they must be.
 */
module WriterRuns {
  import opened Wrappers
  import opened JsonSyntax
  import opened JsonWriter
  import opened Sequences

  // ---------------------------------------------------------------- the tree under construction

  /** An open container: what is complete inside it, and the key that waits for its value. */
  datatype Frame =
    | ObjectFrame(members: seq<Member>, key: Option<Bytes>)
    | ArrayFrame(items: seq<Json>)

  /** The open containers, outermost first, and the top-level value once it is complete. */
  datatype Builder = Builder(frames: seq<Frame>, root: Option<Json>)

  const START := Builder([], None)

  predicate AwaitsValue(f: Frame) {
    f.ArrayFrame? || f.key.Some?
  }

  predicate TakesValue(b: Builder) {
    if b.frames == [] then b.root.None? else AwaitsValue(b.frames[|b.frames| - 1])
  }

  predicate WritableFrame(f: Frame) {
    match f
    case ObjectFrame(members, _) => forall i | 0 <= i < |members| :: Writable(members[i].value)
    case ArrayFrame(items) => forall i | 0 <= i < |items| :: Writable(items[i])
  }

  /** Every container but the innermost is waiting for the value being written inside it. */
  predicate Sound(b: Builder) {
    && (forall i | 0 <= i < |b.frames| :: WritableFrame(b.frames[i]))
    && (forall i | 0 <= i < |b.frames| - 1 :: AwaitsValue(b.frames[i]))
    && (b.frames != [] ==> b.root.None?)
    && (b.root.Some? ==> Writable(b.root.value))
  }

  /** In an object, key then value; in an array, values; one top-level value; closers that match. */
  predicate Allowed(c: Call, b: Builder) {
    var open := b.frames != [];
    match c
    case Key(_) => open && Top(b).ObjectFrame? && Top(b).key.None?
    case EndObject => open && Top(b).ObjectFrame? && Top(b).key.None?
    case EndArray => open && Top(b).ArrayFrame?
    case Value(RawNumber(token)) => TakesValue(b) && IsNumber(token)
    case _ => TakesValue(b)
  }

  function Top(b: Builder): Frame
    requires b.frames != []
  {
    b.frames[|b.frames| - 1]
  }

  function Outer(frames: seq<Frame>): seq<Frame>
    requires frames != []
  {
    frames[..|frames| - 1]
  }

  function PutInFrame(f: Frame, v: Json): Frame
    requires AwaitsValue(f)
  {
    match f
    case ArrayFrame(items) => ArrayFrame(items + [v])
    case ObjectFrame(members, key) => ObjectFrame(members + [Member(key.value, v)], None)
  }

  function Put(b: Builder, v: Json): (r: Builder)
    requires Sound(b) && TakesValue(b) && Writable(v)
    ensures Sound(r) && |r.frames| == |b.frames|
  {
    if b.frames == [] then Builder([], Some(v))
    else Builder(Outer(b.frames) + [PutInFrame(Top(b), v)], None)
  }

  function Push(b: Builder, f: Frame): (r: Builder)
    requires Sound(b) && TakesValue(b) && WritableFrame(f)
    ensures Sound(r)
  {
    Builder(b.frames + [f], None)
  }

  function Closed(f: Frame): (v: Json)
    requires WritableFrame(f)
    ensures Writable(v)
  {
    match f
    case ObjectFrame(members, _) => Object(members)
    case ArrayFrame(items) => Array(items)
  }

  /** The closed container becomes a value of the one around it. */
  function Close(b: Builder): (r: Builder)
    requires Sound(b) && b.frames != []
    ensures Sound(r) && |r.frames| == |b.frames| - 1
  {
    Put(Builder(Outer(b.frames), None), Closed(Top(b)))
  }

  function ScalarValue(scalar: Scalar): (v: Json)
    requires scalar.RawNumber? ==> IsNumber(scalar.token)
    ensures Writable(v)
  {
    match scalar
    case NullScalar => Null
    case BoolScalar(b) => Bool(b)
    case IntScalar(i) => IntTokenDenotes(i); Number(IntToken(i))
    case UintScalar(u) => IntTokenDenotes(u); Number(IntToken(u))
    case StringScalar(s) => String(s)
    case RawNumber(token) => Number(token)
  }

  function Build(c: Call, b: Builder): (r: Builder)
    requires Sound(b) && Allowed(c, b)
    ensures Sound(r)
  {
    match c
    case BeginObject => Push(b, ObjectFrame([], None))
    case BeginArray => Push(b, ArrayFrame([]))
    case EndObject => Close(b)
    case EndArray => Close(b)
    case Key(k) => b.(frames := Outer(b.frames) + [Top(b).(key := Some(k))])
    case Value(scalar) => Put(b, ScalarValue(scalar))
  }

  // ---------------------------------------------------------------- what the builder says of the writer

  /** The text of one open container; `inside` says that a value is being written inside it. */
  function FrameText(f: Frame, inside: bool): Bytes {
    match f
    case ArrayFrame(items) =>
      [LBRACKET] + RenderItems(items) + (if inside then CommaUnless(items == []) else [])
    case ObjectFrame(members, None) => [LBRACE] + RenderMembers(members)
    case ObjectFrame(members, Some(k)) =>
      [LBRACE] + RenderMembers(members) + CommaUnless(members == []) + Quote(k) + [COLON]
  }

  /** The text up to the next value, when every frame has a value being written inside it. */
  function OpenText(frames: seq<Frame>): Bytes {
    if frames == [] then []
    else OpenText(Outer(frames)) + FrameText(frames[|frames| - 1], true)
  }

  function BuilderText(b: Builder): Bytes {
    if b.frames != [] then OpenText(Outer(b.frames)) + FrameText(Top(b), false)
    else if b.root.Some? then Render(b.root.value)
    else []
  }

  function Kind(f: Frame): char {
    if f.ObjectFrame? then 'o' else 'a'
  }

  function Kinds(frames: seq<Frame>): seq<char> {
    seq(|frames|, i requires 0 <= i < |frames| => Kind(frames[i]))
  }

  predicate IsFresh(f: Frame) {
    match f
    case ObjectFrame(members, key) => members == [] && key.None?
    case ArrayFrame(items) => items == []
  }

  function Flags(frames: seq<Frame>): seq<char> {
    seq(|frames|, i requires 0 <= i < |frames| =>
      if i == |frames| - 1 && IsFresh(frames[i]) then '1' else '0')
  }

  predicate HasPendingKey(b: Builder) {
    b.frames != [] && Top(b).ObjectFrame? && Top(b).key.Some?
  }

  /** The writer's fields are exactly what the builder predicts. */
  predicate Tracks(b: Builder, w: State) {
    && Sound(b)
    && w.out == BuilderText(b)
    && w.containers == Kinds(b.frames)
    && w.first == Flags(b.frames)
    && w.pending == HasPendingKey(b)
  }

  function Zeros(n: nat): seq<char> {
    seq(n, _ => '0')
  }

  lemma {:induction false} StartTracks()
    ensures Tracks(START, State([], [], [], false))
  {
  }

  // ---------------------------------------------------------------- one call

  lemma {:induction false} BeforeValueTracks(b: Builder, w: State)
    requires Tracks(b, w) && TakesValue(b)
    ensures BeforeValue(w) == State(OpenText(b.frames), Kinds(b.frames), Zeros(|b.frames|), false)
  {
    var r := BeforeValue(w);
    if b.frames != [] {
      var top := Top(b);
      assert r.first == Zeros(|b.frames|);
      if top.ArrayFrame? {
        assert IsFresh(top) <==> w.first[|w.first| - 1] == '1';
        Assoc(OpenText(Outer(b.frames)), FrameText(top, false), CommaUnless(top.items == []));
        assert FrameText(top, false) == [LBRACKET] + RenderItems(top.items);
        assert r.out == w.out + CommaUnless(top.items == []);
      }
    }
  }

  lemma {:induction false} PutItemText(items: seq<Json>, v: Json)
    ensures FrameText(ArrayFrame(items + [v]), false) == FrameText(ArrayFrame(items), true) + Render(v)
  {
    var comma := CommaUnless(items == []);
    RenderItemsSnoc(items, v);
    Assoc4([LBRACKET], RenderItems(items), comma, Render(v));
  }

  lemma {:induction false} PutMemberText(members: seq<Member>, key: Bytes, v: Json)
    ensures FrameText(ObjectFrame(members + [Member(key, v)], None), false)
         == FrameText(ObjectFrame(members, Some(key)), true) + Render(v)
  {
    var comma := CommaUnless(members == []);
    var open := [LBRACE] + RenderMembers(members) + comma;
    RenderMembersSnoc(members, Member(key, v));
    Assoc4([LBRACE], RenderMembers(members), comma, RenderMember(Member(key, v)));
    Assoc4(open, Quote(key), [COLON], Render(v));
  }

  /** A value completes the text of the frame it goes into. */
  lemma {:induction false} PutFrameText(f: Frame, v: Json)
    requires AwaitsValue(f)
    ensures FrameText(PutInFrame(f, v), false) == FrameText(f, true) + Render(v)
  {
    match f {
      case ArrayFrame(items) => PutItemText(items, v);
      case ObjectFrame(members, key) => PutMemberText(members, key.value, v);
    }
  }

  lemma {:induction false} PutText(b: Builder, v: Json)
    requires Sound(b) && TakesValue(b) && Writable(v)
    ensures BuilderText(Put(b, v)) == OpenText(b.frames) + Render(v)
  {
    if b.frames != [] {
      PutFrameText(Top(b), v);
      var r := Put(b, v);
      assert Outer(r.frames) == Outer(b.frames);
      Assoc(OpenText(Outer(b.frames)), FrameText(Top(b), true), Render(v));
    }
  }

  lemma {:induction false} PutShape(b: Builder, v: Json)
    requires Sound(b) && TakesValue(b) && Writable(v)
    ensures Kinds(Put(b, v).frames) == Kinds(b.frames)
    ensures Flags(Put(b, v).frames) == Zeros(|b.frames|)
    ensures !HasPendingKey(Put(b, v))
  {
  }

  lemma {:induction false} ScalarTracks(scalar: Scalar, b: Builder, w: State)
    requires Tracks(b, w) && Allowed(Value(scalar), b)
    ensures Tracks(Build(Value(scalar), b), After(Value(scalar), w))
  {
    var v := ScalarValue(scalar);
    BeforeValueTracks(b, w);
    PutText(b, v);
    PutShape(b, v);
    assert ScalarText(scalar) == Render(v);
  }

  lemma {:induction false} BeginTracks(c: Call, b: Builder, w: State)
    requires Tracks(b, w) && Allowed(c, b) && (c.BeginObject? || c.BeginArray?)
    ensures Tracks(Build(c, b), After(c, w))
  {
    hide Render, OpenText;
    BeforeValueTracks(b, w);
    var r := Build(c, b);
    assert Outer(r.frames) == b.frames;
    assert Kinds(r.frames) == Kinds(b.frames) + [Kind(Top(r))];
    assert Flags(r.frames) == Zeros(|b.frames|) + ['1'];
    assert FrameText(Top(r), false) == if c.BeginObject? then [LBRACE] else [LBRACKET];
  }

  lemma {:induction false} OuterShape(frames: seq<Frame>)
    requires frames != []
    ensures Pop(Kinds(frames)) == Kinds(Outer(frames))
    ensures Pop(Flags(frames)) == Zeros(|frames| - 1)
  {
  }

  function Closer(f: Frame): byte {
    if f.ObjectFrame? then RBRACE else RBRACKET
  }

  /** A closing bracket turns the innermost frame into a value of the one around it. */
  lemma {:induction false} CloseText(b: Builder)
    requires Sound(b) && b.frames != [] && !HasPendingKey(b)
    ensures BuilderText(b) + [Closer(Top(b))] == BuilderText(Close(b))
    ensures Kinds(Close(b).frames) == Pop(Kinds(b.frames))
    ensures Flags(Close(b).frames) == Pop(Flags(b.frames))
    ensures !HasPendingKey(Close(b))
  {
    var outer := Builder(Outer(b.frames), None);
    var v := Closed(Top(b));
    PutText(outer, v);
    PutShape(outer, v);
    OuterShape(b.frames);
    assert FrameText(Top(b), false) + [Closer(Top(b))] == Render(v) by {
      if Top(b).ArrayFrame? { assert FrameText(Top(b), false) == [LBRACKET] + RenderItems(Top(b).items); }
    }
    Assoc(OpenText(Outer(b.frames)), FrameText(Top(b), false), [Closer(Top(b))]);
  }

  lemma {:induction false} EndTracks(c: Call, b: Builder, w: State)
    requires Tracks(b, w) && Allowed(c, b) && (c.EndObject? || c.EndArray?)
    ensures Callable(c, w) && Tracks(Build(c, b), After(c, w))
  {
    CloseText(b);
  }

  lemma {:induction false} KeyTracks(k: Bytes, b: Builder, w: State)
    requires Tracks(b, w) && Allowed(Key(k), b)
    ensures Tracks(Build(Key(k), b), After(Key(k), w))
  {
    hide RenderMembers, Writable, Quote, OpenText;
    var r := Build(Key(k), b);
    var top := Top(b);
    assert Outer(r.frames) == Outer(b.frames);
    var comma := CommaUnless(top.members == []);
    assert NeedsComma(w) <==> top.members != [];
    assert After(Key(k), w).out == w.out + comma + Quote(k) + [COLON];
    Assoc5(OpenText(Outer(b.frames)), FrameText(top, false), comma, Quote(k), [COLON]);
    Assoc4(FrameText(top, false), comma, Quote(k), [COLON]);
    assert FrameText(Top(r), false) == FrameText(top, false) + comma + Quote(k) + [COLON];
    assert OpenText(Outer(b.frames)) + (FrameText(top, false) + comma + Quote(k)) + [COLON]
        == OpenText(Outer(b.frames)) + FrameText(top, false) + comma + Quote(k) + [COLON];
    assert Kinds(r.frames) == Kinds(b.frames);
    assert Flags(r.frames) == SetLast(w.first, '0');
  }

  /** One disciplined call: it is defined, and the writer again holds what the builder predicts. */
  lemma {:induction false} CallTracks(c: Call, b: Builder, w: State)
    requires Tracks(b, w) && Allowed(c, b)
    ensures Callable(c, w) && Tracks(Build(c, b), After(c, w))
  {
    match c {
      case BeginObject => BeginTracks(c, b, w);
      case BeginArray => BeginTracks(c, b, w);
      case EndObject => EndTracks(c, b, w);
      case EndArray => EndTracks(c, b, w);
      case Key(k) => KeyTracks(k, b, w);
      case Value(scalar) => ScalarTracks(scalar, b, w);
    }
  }
}
