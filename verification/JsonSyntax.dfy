/**
 JSON values as byte strings: the tree, its compact rendering, and the lexical grammar of
 RFC 8259 sections 2, 6 and 7 (white space, numbers, strings).
 */
module JsonSyntax {

  type byte = b: int | 0 <= b < 256
  type Bytes = seq<byte>

  type int64 = n: int | -0x8000_0000_0000_0000 <= n < 0x8000_0000_0000_0000
  type uint64 = n: int | 0 <= n < 0x1_0000_0000_0000_0000

  /** Numbers keep their token: neither this writer nor this reader rounds one. */
  datatype Json =
    | Null
    | Bool(b: bool)
    | Number(token: Bytes)
    | String(text: Bytes)
    | Array(items: seq<Json>)
    | Object(members: seq<Member>)

  datatype Member = Member(key: Bytes, value: Json)

  const QUOTE: byte := 0x22
  const BACKSLASH: byte := 0x5C
  const LBRACE: byte := 0x7B
  const RBRACE: byte := 0x7D
  const LBRACKET: byte := 0x5B
  const RBRACKET: byte := 0x5D
  const COMMA: byte := 0x2C
  const COLON: byte := 0x3A
  const MINUS: byte := 0x2D
  const PLUS: byte := 0x2B
  const DOT: byte := 0x2E

  const NULL_TEXT: Bytes := [0x6E, 0x75, 0x6C, 0x6C]
  const TRUE_TEXT: Bytes := [0x74, 0x72, 0x75, 0x65]
  const FALSE_TEXT: Bytes := [0x66, 0x61, 0x6C, 0x73, 0x65]

  // ---------------------------------------------------------------- white space (section 2)

  predicate IsSpace(b: byte) {
    b == 0x20 || b == 0x09 || b == 0x0A || b == 0x0D
  }

  predicate IsBlank(s: Bytes) {
    forall i | 0 <= i < |s| :: IsSpace(s[i])
  }

  // ---------------------------------------------------------------- numbers (section 6)

  predicate IsDigit(b: byte) {
    0x30 <= b <= 0x39
  }

  /** Length of the longest prefix of digits. */
  function DigitRun(s: Bytes): (n: nat)
    ensures n <= |s|
    ensures forall i | 0 <= i < n :: IsDigit(s[i])
    ensures n < |s| ==> !IsDigit(s[n])
  {
    if s == [] || !IsDigit(s[0]) then 0 else 1 + DigitRun(s[1..])
  }

  predicate IsExponent(s: Bytes) {
    s == [] ||
    (s[0] in {0x65, 0x45} &&
     var digits := if |s| > 1 && s[1] in {PLUS, MINUS} then s[2..] else s[1..];
     digits != [] && DigitRun(digits) == |digits|)
  }

  predicate IsFraction(s: Bytes) {
    if s != [] && s[0] == DOT then
      var n := DigitRun(s[1..]);
      n > 0 && IsExponent(s[1 + n..])
    else
      IsExponent(s)
  }

  predicate IsUnsignedNumber(s: Bytes) {
    var n := DigitRun(s);
    n > 0 && (s[0] == 0x30 ==> n == 1) && IsFraction(s[n..])
  }

  predicate IsNumber(s: Bytes) {
    if s != [] && s[0] == MINUS then IsUnsignedNumber(s[1..]) else IsUnsignedNumber(s)
  }

  /** The decimal text that `std::ostream` prints for a non-negative integer. */
  function Decimal(n: nat): (s: Bytes)
    ensures |s| > 0 && DigitRun(s) == |s|
    ensures s[0] == 0x30 ==> |s| == 1 && n == 0
  {
    if n < 10 then
      assert DigitRun([0x30 + n][1..]) == 0;
      [0x30 + n]
    else
      var front := Decimal(n / 10);
      DigitRunAll(front + [0x30 + n % 10]);
      front + [0x30 + n % 10]
  }

  lemma DigitRunAll(s: Bytes)
    requires forall i | 0 <= i < |s| :: IsDigit(s[i])
    ensures DigitRun(s) == |s|
  {
  }

  function IntToken(n: int): Bytes {
    if n < 0 then [MINUS] + Decimal(-n) else Decimal(n)
  }

  /** The integer that a run of digits denotes. */
  function DigitsValue(s: Bytes): int
    requires forall i | 0 <= i < |s| :: IsDigit(s[i])
  {
    if s == [] then 0 else 10 * DigitsValue(s[..|s| - 1]) + (s[|s| - 1] as int - 0x30)
  }

  function TokenInt(s: Bytes): int
    requires s != []
    requires forall i | (if s[0] == MINUS then 1 else 0) <= i < |s| :: IsDigit(s[i])
  {
    if s[0] == MINUS then -DigitsValue(s[1..]) else DigitsValue(s)
  }

  lemma {:induction false} DecimalDenotes(n: nat)
    ensures DigitsValue(Decimal(n)) == n
  {
    if n < 10 {
      assert [0x30 + n][..0] == [];
      assert DigitsValue([0x30 + n]) == 10 * DigitsValue([0x30 + n][..0]) + n;
    } else {
      DecimalDenotes(n / 10);
      var front := Decimal(n / 10);
      assert Decimal(n)[..|front|] == front;
    }
  }

  /** An integer is written as a number token of the grammar that denotes that integer. */
  lemma IntTokenDenotes(n: int)
    ensures IsNumber(IntToken(n))
    ensures TokenInt(IntToken(n)) == n
  {
    var digits := Decimal(if n < 0 then -n else n);
    DecimalDenotes(if n < 0 then -n else n);
    assert digits[|digits|..] == [];
    assert IsUnsignedNumber(digits);
    if n < 0 {
      assert IntToken(n)[1..] == digits;
    } else {
      assert IsDigit(digits[0]);
    }
  }

  // ---------------------------------------------------------------- strings (section 7)

  function HexDigit(n: nat): byte
    requires n < 16
  {
    if n < 10 then 0x30 + n else 0x61 + n - 10
  }

  /** What the writer puts between the quotes for one byte. */
  function EscapeByte(b: byte): (e: Bytes) {
    if b == QUOTE then [BACKSLASH, QUOTE]
    else if b == BACKSLASH then [BACKSLASH, BACKSLASH]
    else if b == 0x0A then [BACKSLASH, 0x6E]
    else if b == 0x0D then [BACKSLASH, 0x72]
    else if b == 0x09 then [BACKSLASH, 0x74]
    else if b == 0x08 then [BACKSLASH, 0x62]
    else if b == 0x0C then [BACKSLASH, 0x66]
    else if b < 0x20 then [BACKSLASH, 0x75, 0x30, 0x30, HexDigit(b / 16), HexDigit(b % 16)]
    else [b]
  }

  function Escape(s: Bytes): Bytes {
    if s == [] then [] else EscapeByte(s[0]) + Escape(s[1..])
  }

  lemma {:induction false} EscapeSnoc(s: Bytes, b: byte)
    ensures Escape(s + [b]) == Escape(s) + EscapeByte(b)
  {
    if s == [] {
      assert Escape([b]) == EscapeByte(b) + Escape([b][1..]);
    } else {
      EscapeSnoc(s[1..], b);
      assert (s + [b])[1..] == s[1..] + [b];
    }
  }

  function Quote(s: Bytes): Bytes {
    [QUOTE] + Escape(s) + [QUOTE]
  }

  // ---------------------------------------------------------------- rendering

  function Render(v: Json): (r: Bytes)
    decreases v, 1
  {
    match v
    case Null => NULL_TEXT
    case Bool(b) => if b then TRUE_TEXT else FALSE_TEXT
    case Number(token) => token
    case String(text) => Quote(text)
    case Array(items) => [LBRACKET] + RenderItems(items) + [RBRACKET]
    case Object(members) => [LBRACE] + RenderMembers(members) + [RBRACE]
  }

  function RenderItems(items: seq<Json>): Bytes
    decreases items, 0
  {
    if items == [] then []
    else if |items| == 1 then Render(items[0])
    else Render(items[0]) + [COMMA] + RenderItems(items[1..])
  }

  function RenderMember(m: Member): Bytes
    decreases m, 2
  {
    Quote(m.key) + [COLON] + Render(m.value)
  }

  function RenderMembers(members: seq<Member>): Bytes
    decreases members, 3
  {
    if members == [] then []
    else if |members| == 1 then RenderMember(members[0])
    else RenderMember(members[0]) + [COMMA] + RenderMembers(members[1..])
  }

  function CommaUnless(first: bool): Bytes {
    if first then [] else [COMMA]
  }

  lemma {:induction false} RenderItemsSnoc(items: seq<Json>, v: Json)
    ensures RenderItems(items + [v]) == RenderItems(items) + CommaUnless(items == []) + Render(v)
    decreases items
  {
    if |items| > 0 {
      RenderItemsSnoc(items[1..], v);
      assert (items + [v])[1..] == items[1..] + [v];
      if |items| == 1 {
        assert items[1..] == [];
      }
    }
  }

  lemma {:induction false} RenderMembersSnoc(members: seq<Member>, m: Member)
    ensures RenderMembers(members + [m])
         == RenderMembers(members) + CommaUnless(members == []) + RenderMember(m)
    decreases members
  {
    if |members| > 0 {
      RenderMembersSnoc(members[1..], m);
      assert (members + [m])[1..] == members[1..] + [m];
      if |members| == 1 {
        assert members[1..] == [];
      }
    }
  }

  /** Every number token of the tree follows the number grammar. */
  predicate Writable(v: Json)
    decreases v
  {
    match v
    case Number(token) => IsNumber(token)
    case Array(items) => forall i | 0 <= i < |items| :: Writable(items[i])
    case Object(members) => forall i | 0 <= i < |members| :: Writable(members[i].value)
    case _ => true
  }
}
