/**
 The streaming JSON writer of hwprobe: an object that appends to an output stream and decides commas
 from a stack of first-element flags and one pending-key bit.
 */
module JsonWriter {
  import opened JsonSyntax
  import opened Sequences

  /** A value of the writer's four fields. */
  datatype State = State(out: Bytes, containers: seq<char>, first: seq<char>, pending: bool)

  const INITIAL := State([], [], [], false)

  /** One call of the public interface. */
  datatype Call =
    | BeginObject | EndObject | BeginArray | EndArray
    | Key(k: Bytes)
    | Value(scalar: Scalar)

  datatype Scalar =
    | NullScalar
    | BoolScalar(b: bool)
    | IntScalar(i: int64)
    | UintScalar(u: uint64)
    | StringScalar(s: Bytes)
    | RawNumber(token: Bytes)

  /** Popping an empty stack is undefined in the original: the closing calls demand both to be non-empty. */
  predicate Callable(c: Call, w: State) {
    c.EndObject? || c.EndArray? ==> w.containers != [] && w.first != []
  }

  function SetLast(s: seq<char>, c: char): seq<char>
    requires s != []
  {
    s[|s| - 1 := c]
  }

  function Pop(s: seq<char>): seq<char>
    requires s != []
  {
    s[..|s| - 1]
  }

  predicate NeedsComma(w: State) {
    w.first != [] && w.first[|w.first| - 1] == '0'
  }

  /** What `maybe_comma` does before a value. */
  function BeforeValue(w: State): State {
    if w.pending then w.(pending := false)
    else if w.first == [] then w
    else if NeedsComma(w) then w.(out := w.out + [COMMA])
    else w.(first := SetLast(w.first, '0'))
  }

  function Append(w: State, text: Bytes): State {
    w.(out := w.out + text)
  }

  /** The state after one call. */
  function After(c: Call, w: State): State
    requires Callable(c, w)
  {
    match c
    case BeginObject =>
      var b := BeforeValue(w);
      State(b.out + [LBRACE], b.containers + ['o'], b.first + ['1'], false)
    case BeginArray =>
      var b := BeforeValue(w);
      State(b.out + [LBRACKET], b.containers + ['a'], b.first + ['1'], b.pending)
    case EndObject => State(w.out + [RBRACE], Pop(w.containers), Pop(w.first), w.pending)
    case EndArray => State(w.out + [RBRACKET], Pop(w.containers), Pop(w.first), w.pending)
    case Key(k) =>
      State((if NeedsComma(w) then w.out + [COMMA] else w.out) + Quote(k) + [COLON],
            w.containers, if w.first == [] then [] else SetLast(w.first, '0'), true)
    case Value(scalar) => Append(BeforeValue(w), ScalarText(scalar))
  }

  function ScalarText(scalar: Scalar): Bytes {
    match scalar
    case NullScalar => NULL_TEXT
    case BoolScalar(b) => if b then TRUE_TEXT else FALSE_TEXT
    case IntScalar(i) => IntToken(i)
    case UintScalar(u) => IntToken(u)
    case StringScalar(s) => Quote(s)
    case RawNumber(token) => token
  }

  class Writer {
    var out: Bytes
    var containerStack: seq<char>  // a letter for each open container, o for objects and a for arrays
    var firstFlag: seq<char>       // a flag for each of them, cleared from '1' by its first element
    var pendingKey: bool

    function Now(): State
      reads this
    {
      State(out, containerStack, firstFlag, pendingKey)
    }

    constructor ()
      ensures Now() == INITIAL
    {
      out := [];
      containerStack, firstFlag, pendingKey := [], [], false;
    }

    method BeginObject()
      modifies this
      ensures Now() == After(Call.BeginObject, old(Now()))
    {
      MaybeComma();
      out := out + [LBRACE];
      containerStack := containerStack + ['o'];
      firstFlag := firstFlag + ['1'];
      pendingKey := false;
    }

    method EndObject()
      requires containerStack != [] && firstFlag != []
      modifies this
      ensures Now() == After(Call.EndObject, old(Now()))
    {
      out := out + [RBRACE];
      containerStack := containerStack[..|containerStack| - 1];
      firstFlag := firstFlag[..|firstFlag| - 1];
    }

    method BeginArray()
      modifies this
      ensures Now() == After(Call.BeginArray, old(Now()))
    {
      MaybeComma();
      out := out + [LBRACKET];
      containerStack := containerStack + ['a'];
      firstFlag := firstFlag + ['1'];
    }

    method EndArray()
      requires containerStack != [] && firstFlag != []
      modifies this
      ensures Now() == After(Call.EndArray, old(Now()))
    {
      out := out + [RBRACKET];
      containerStack := containerStack[..|containerStack| - 1];
      firstFlag := firstFlag[..|firstFlag| - 1];
    }

    method Key(k: Bytes)
      modifies this
      ensures Now() == After(Call.Key(k), old(Now()))
    {
      if firstFlag != [] && firstFlag[|firstFlag| - 1] == '0' {
        out := out + [COMMA];
      }
      if firstFlag != [] {
        firstFlag := firstFlag[|firstFlag| - 1 := '0'];
      }
      WriteString(k);
      out := out + [COLON];
      pendingKey := true;
    }

    method MaybeComma()
      modifies this
      ensures Now() == BeforeValue(old(Now()))
    {
      if pendingKey {
        pendingKey := false;
        return;
      }
      if firstFlag != [] {
        if firstFlag[|firstFlag| - 1] == '0' {
          out := out + [COMMA];
        } else {
          firstFlag := firstFlag[|firstFlag| - 1 := '0'];
        }
      }
    }

    method ValueNull()
      modifies this
      ensures Now() == After(Value(NullScalar), old(Now()))
    {
      MaybeComma();
      out := out + NULL_TEXT;
    }

    method ValueBool(b: bool)
      modifies this
      ensures Now() == After(Value(BoolScalar(b)), old(Now()))
    {
      MaybeComma();
      out := out + (if b then TRUE_TEXT else FALSE_TEXT);
    }

    method ValueInt(i: int64)
      modifies this
      ensures Now() == After(Value(IntScalar(i)), old(Now()))
    {
      MaybeComma();
      out := out + IntToken(i);
    }

    method ValueUint(u: uint64)
      modifies this
      ensures Now() == After(Value(UintScalar(u)), old(Now()))
    {
      MaybeComma();
      out := out + IntToken(u);
    }

    method ValueString(s: Bytes)
      modifies this
      ensures Now() == After(Value(StringScalar(s)), old(Now()))
    {
      MaybeComma();
      WriteString(s);
    }

    method ValueRawNumberString(token: Bytes)
      modifies this
      ensures Now() == After(Value(RawNumber(token)), old(Now()))
    {
      MaybeComma();
      out := out + token;
    }

    method WriteString(s: Bytes)
      modifies this`out
      ensures out == old(out) + Quote(s)
    {
      out := out + [QUOTE];
      var i := 0;
      while i < |s|
        invariant 0 <= i <= |s|
        invariant out == old(out) + [QUOTE] + Escape(s[..i])
      {
        WriteByte(s[i]);
        assert s[..i + 1] == s[..i] + [s[i]];
        EscapeSnoc(s[..i], s[i]);
        Assoc(old(out) + [QUOTE], Escape(s[..i]), EscapeByte(s[i]));
        i := i + 1;
      }
      assert s[..|s|] == s;
      Assoc4(old(out), [QUOTE], Escape(s), [QUOTE]);
      out := out + [QUOTE];
    }

    /** The switch inside the loop of `write_string`. */
    method WriteByte(c: byte)
      modifies this`out
      ensures out == old(out) + EscapeByte(c)
    {
      match c {
        case 0x22 => out := out + [BACKSLASH, QUOTE];
        case 0x5C => out := out + [BACKSLASH, BACKSLASH];
        case 0x0A => out := out + [BACKSLASH, 0x6E];
        case 0x0D => out := out + [BACKSLASH, 0x72];
        case 0x09 => out := out + [BACKSLASH, 0x74];
        case 0x08 => out := out + [BACKSLASH, 0x62];
        case 0x0C => out := out + [BACKSLASH, 0x66];
        case _ =>
          if c < 0x20 {
            out := out + ([BACKSLASH, 0x75] + Hex04(c));
          } else {
            out := out + [c];
          }
      }
    }
  }

  /** The `%04x` conversion for a control character. */
  function Hex04(c: byte): (h: Bytes)
    requires c < 0x20
  {
    [0x30, 0x30, HexDigit(c / 16), HexDigit(c % 16)]
  }
}
