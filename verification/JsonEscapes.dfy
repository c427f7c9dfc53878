/**
 What the strings of a JSON text mean as Unicode text: any mixture of plain characters, two-character
 escapes and `\u` escapes (surrogate pairs included) is read as UTF-8 of the characters meant.
 */
module JsonEscapes {
  import opened Wrappers
  import opened JsonSyntax
  import opened JsonReader
  import opened JsonGrammar
  import opened Sequences
  import opened Unicode

  // ---------------------------------------------------------------- four hexadecimal digits

  function DigitText(n: nat, capital: bool): byte
    requires n < 16
  {
    if n < 10 then 0x30 + n else (if capital then 0x41 else 0x61) + (n - 10)
  }

  /** A 16-bit number in hexadecimal, each digit in either case. */
  function FourDigits(n: nat, capitals: seq<bool>): Bytes
    requires n < 0x1_0000 && |capitals| == 4
  {
    [DigitText(n / 0x1000, capitals[0]), DigitText(n / 0x100 % 0x10, capitals[1]),
     DigitText(n / 0x10 % 0x10, capitals[2]), DigitText(n % 0x10, capitals[3])]
  }

  lemma {:induction false} FourDigitsRead(n: nat, capitals: seq<bool>)
    requires n < 0x1_0000 && |capitals| == 4
    ensures IsHex4(FourDigits(n, capitals)) && Hex4(FourDigits(n, capitals)) == n
  {
    assert n / 0x100 == n / 0x1000 * 0x10 + n / 0x100 % 0x10;
    assert n / 0x10 == n / 0x100 * 0x10 + n / 0x10 % 0x10;
    assert n == n / 0x10 * 0x10 + n % 0x10;
    forall d: nat, c: bool | d < 16 ensures IsHex(DigitText(d, c)) && HexValue(DigitText(d, c)) == d {
    }
    hide DigitText, IsHex, HexValue;
  }

  // ---------------------------------------------------------------- surrogate pairs

  /** RFC 8259 section 7: a character outside the basic plane is written as a pair. */
  function HighHalf(cp: nat): nat
    requires 0x1_0000 <= cp < 0x11_0000
  {
    0xD800 + (cp - 0x1_0000) / 0x400
  }

  function LowHalf(cp: nat): nat
    requires 0x1_0000 <= cp < 0x11_0000
  {
    0xDC00 + (cp - 0x1_0000) % 0x400
  }

  lemma {:induction false} HalvesCombine(cp: nat)
    requires 0x1_0000 <= cp < 0x11_0000
    ensures IsHighSurrogate(HighHalf(cp)) && IsLowSurrogate(LowHalf(cp)) && Combine(HighHalf(cp), LowHalf(cp)) == cp
  {
  }

  // ---------------------------------------------------------------- one character

  const LETTERS := "\"\\/bfnrt"
  const MEANT := "\"\\/\U{8}\U{C}\n\r\t"

  /** A character as a string may spell it; `Short` is the two-character escape of a letter above. */
  datatype Spelling = Plain(cp: Scalar) | Short(k: nat) | Escaped(cp: Scalar, capitals: seq<bool>)
  {
    predicate Valid() {
      match this
      case Plain(cp) => cp >= 0x20 && cp != '\"' as int && cp != '\\' as int
      case Short(k) => k < 8
      case Escaped(_, capitals) => |capitals| == 8
    }

    /** The character that is meant. */
    function Meaning(): nat
      requires Valid()
    {
      if Short? then MEANT[k] as int else cp
    }

    function Text(): Bytes
      requires Valid()
    {
      match this
      case Plain(cp) => Utf8(cp)
      case Short(k) => [BACKSLASH, LETTERS[k] as int]
      case Escaped(cp, capitals) =>
        if cp < 0x1_0000 then [BACKSLASH, 0x75] + FourDigits(cp, capitals[..4])
        else [BACKSLASH, 0x75] + FourDigits(HighHalf(cp), capitals[..4])
             + [BACKSLASH, 0x75] + FourDigits(LowHalf(cp), capitals[4..])
    }
  }

  lemma {:induction false} EscapeIsRead(x: Spelling, rest: Bytes)
    requires x.Valid() && x.Escaped?
    ensures ReadEscape(x.Text() + rest) == Accepted(Utf8(x.cp), rest)
  {
    hide Hex4, IsHex4, Utf8, FourDigits;
    var cp := x.cp;
    if cp < 0x1_0000 {
      FourDigitsRead(cp, x.capitals[..4]);
      var p := Unit(FourDigits(cp, x.capitals[..4]));
      assert x.Text() == Spell(p);
      ReadPiece(p, rest);
    } else {
      HalvesCombine(cp);
      FourDigitsRead(HighHalf(cp), x.capitals[..4]);
      FourDigitsRead(LowHalf(cp), x.capitals[4..]);
      var p := Pair(FourDigits(HighHalf(cp), x.capitals[..4]), FourDigits(LowHalf(cp), x.capitals[4..]));
      assert x.Text() == Spell(p);
      ReadPiece(p, rest);
    }
  }

  lemma {:induction false} ShortIsRead(k: nat, rest: Bytes)
    requires k < 8
    ensures ReadEscape([BACKSLASH, LETTERS[k] as int] + rest) == Accepted(Utf8(MEANT[k] as int), rest)
  {
    var s := [BACKSLASH, LETTERS[k] as int] + rest;
    assert s[2..] == rest;
    assert MEANT[k] as int < 0x80;
    assert IsShortEscape(s[1]) && ShortMeaning(s[1]) == MEANT[k] as int;
  }

  /** There is no other two-character escape. */
  lemma {:induction false} ShortEscapesAre(c: byte, rest: Bytes)
    requires c != 'u' as int
    ensures ReadEscape([BACKSLASH, c] + rest).Accepted? <==> exists k | 0 <= k < 8 :: LETTERS[k] as int == c
  {
    var s := [BACKSLASH, c] + rest;
    if IsShortEscape(c) {
      var k := if c == 0x22 then 0 else if c == 0x5C then 1 else if c == 0x2F then 2 else if c == 0x62 then 3
               else if c == 0x66 then 4 else if c == 0x6E then 5 else if c == 0x72 then 6 else 7;
      assert LETTERS[k] as int == c;
    }
    assert s[1] == c;
  }

  /** Half of a surrogate pair means nothing alone. */
  lemma {:induction false} LoneHalfIsRejected(n: nat, capitals: seq<bool>, rest: Bytes)
    requires 0xD800 <= n < 0xE000 && |capitals| == 4
    requires n >= 0xDC00 || |rest| < 2 || rest[0] != BACKSLASH || rest[1] != 'u' as int
    ensures ReadEscape([BACKSLASH, 0x75] + FourDigits(n, capitals) + rest).Rejected?
  {
    FourDigitsRead(n, capitals);
    hide Hex4, IsHex4;
    var h := FourDigits(n, capitals);
    assert |h| == 4;
    hide FourDigits;
    var s := [BACKSLASH, 0x75] + h + rest;
    assert s[2..6] == h && s[6..] == rest;
    assert |rest| >= 2 ==> s[6] == rest[0] && s[7] == rest[1];
  }

  // ---------------------------------------------------------------- a string

  lemma {:induction false} PlainBytesAreRead(b: Bytes, rest: Bytes)
    requires (forall i | 0 <= i < |b| :: b[i] >= 0x20 && b[i] != QUOTE && b[i] != BACKSLASH) && ReadString(rest).Accepted?
    ensures ReadString(b + rest) == Accepted(b + ReadString(rest).value, ReadString(rest).rest)
    decreases b
  {
    hide ReadEscape;
    if b == [] {
      assert b + rest == rest;
      assert b + ReadString(rest).value == ReadString(rest).value;
    } else {
      PlainBytesAreRead(b[1..], rest);
      DropOfConcat(b, rest, 1);
      assert (b + rest)[0] == b[0];
      assert [b[0]] + (b[1..] + ReadString(rest).value) == b + ReadString(rest).value;
    }
  }

  lemma {:induction false} SpellingIsRead(x: Spelling, rest: Bytes)
    requires x.Valid() && ReadString(rest).Accepted?
    ensures ReadString(x.Text() + rest) == Accepted(Utf8(x.Meaning()) + ReadString(rest).value, ReadString(rest).rest)
  {
    match x {
      case Plain(cp) =>
        PlainBytesAreRead(Utf8(cp), rest);
      case Short(k) =>
        ShortIsRead(k, rest);
        hide ReadEscape, Utf8;
        assert (x.Text() + rest)[0] == BACKSLASH;
      case Escaped(_, _) =>
        EscapeIsRead(x, rest);
        assert x.Text() != [] && x.Text()[0] == BACKSLASH;
        hide ReadEscape, Utf8;
        assert (x.Text() + rest)[0] == BACKSLASH;
    }
  }

  predicate AllValid(xs: seq<Spelling>) {
    forall i | 0 <= i < |xs| :: xs[i].Valid()
  }

  function Texts(xs: seq<Spelling>): Bytes
    requires AllValid(xs)
  {
    if xs == [] then [] else xs[0].Text() + Texts(xs[1..])
  }

  function Meanings(xs: seq<Spelling>): seq<nat>
    requires AllValid(xs)
  {
    if xs == [] then [] else [xs[0].Meaning()] + Meanings(xs[1..])
  }

  lemma {:induction false} MeaningIsScalar(x: Spelling)
    requires x.Valid()
    ensures x.Meaning() < 0xD800 || 0xE000 <= x.Meaning() < 0x11_0000
  {
  }

  /** However a text is spelled, reading it as a string gives UTF-8 of that text. */
  lemma {:induction false} SpelledTextIsRead(xs: seq<Spelling>, rest: Bytes)
    requires AllValid(xs)
    ensures var r := ReadString(Texts(xs) + [QUOTE] + rest);
            r.Accepted? && r.rest == rest && DecodeAll(r.value) == Some(Meanings(xs))
    decreases xs
  {
    hide ReadEscape, Decode, Utf8;
    if xs == [] {
      assert ([QUOTE] + rest)[1..] == rest;
      assert Texts(xs) + [QUOTE] + rest == [QUOTE] + rest;
    } else {
      var tail := Texts(xs[1..]) + [QUOTE] + rest;
      SpelledTextIsRead(xs[1..], rest);
      SpellingIsRead(xs[0], tail);
      assert Texts(xs) + [QUOTE] + rest == xs[0].Text() + tail;
      MeaningIsScalar(xs[0]);
      EncodedTextDecodes(xs[0].Meaning(), ReadString(tail).value);
    }
  }

  /** A control character has to be escaped. */
  lemma {:induction false} ControlIsRejected(b: byte, rest: Bytes)
    ensures b < 0x20 ==> ReadString([b] + rest).Rejected?
  {
    assert ([b] + rest)[0] == b;
  }

  const BLANKS := " \t\n\r"

  lemma {:induction false} NullIsNoLiteral(s: Bytes)
    requires |s| == 5 && s[1..] == NULL_TEXT
    ensures ReadLiteral(s).Rejected? || ReadLiteral(s).rest == NULL_TEXT
  {
    assert s[1] == s[1..][0] && s[2] == s[1..][1] && s[3] == s[1..][2] && s[4] == s[1..][3];
    assert s[..4] != NULL_TEXT by { assert s[..4][1] == s[1]; }
    assert s[..4] != TRUE_TEXT by { assert s[..4][1] == s[1]; }
    assert s[..5] != FALSE_TEXT by { assert s[..5][1] == s[1]; }
    assert DigitRun(NULL_TEXT) == 0 && DigitRun(s) <= 1 && ScanFraction(NULL_TEXT) == 0;
    assert ScanUnsigned(NULL_TEXT) == -1;
    assert ScanNumber(s) == -1 || ScanNumber(s) == 1;
  }

  lemma {:induction false} NullIsNoDocument(s: Bytes)
    requires |s| == 5 && s[1..] == NULL_TEXT && !IsSpace(s[0]) && SkipSpace(s) == s
    ensures ReadDocument(s).None?
  {
    assert s[1] == s[1..][0] && s[2] == s[1..][1] && s[3] == s[1..][2] && s[4] == s[1..][3];
    assert SkipSpace(NULL_TEXT) == NULL_TEXT;
    if s[0] == QUOTE {
      NullEndsNoString();
    } else if s[0] == LBRACKET {
      assert ReadItems(s[1..]).Rejected?;
    } else if s[0] == LBRACE {
      assert ReadKey(s[1..]).Rejected?;
      assert ReadMembers(s[1..]).Rejected?;
    } else {
      NullIsNoLiteral(s);
      hide ReadLiteral;
      assert ReadValue(s) == ReadLiteral(s);
    }
  }

  lemma {:induction false} NullEndsNoString()
    ensures ReadString(NULL_TEXT).Rejected?
  {
    assert NULL_TEXT[1..] == [0x75, 0x6C, 0x6C] && [0x75, 0x6C, 0x6C][1..] == [0x6C, 0x6C];
    assert [0x6C, 0x6C][1..] == [0x6C] && [0x6C][1..] == [];
    assert ReadString([0x6C]).Rejected? && ReadString([0x6C, 0x6C]).Rejected?;
    assert ReadString([0x75, 0x6C, 0x6C]).Rejected?;
  }

  /** The white space around a value is exactly the four characters of section 2. */
  lemma {:induction false} WhiteSpaceIs(b: byte)
    ensures ReadDocument([b] + NULL_TEXT).Some? <==> exists k | 0 <= k < 4 :: BLANKS[k] as int == b
  {
    var s := [b] + NULL_TEXT;
    assert s == [b, 0x6E, 0x75, 0x6C, 0x6C];
    assert s[1..] == NULL_TEXT && NULL_TEXT[4..] == [];
    assert SkipSpace(NULL_TEXT) == NULL_TEXT && ReadValue(NULL_TEXT) == Accepted(Null, []);
    if IsSpace(b) {
      var k := if b == 0x20 then 0 else if b == 0x09 then 1 else if b == 0x0A then 2 else 3;
      assert BLANKS[k] as int == b;
      assert SkipSpace(s) == NULL_TEXT;
    } else {
      assert SkipSpace(s) == s;
      NullIsNoDocument(s);
    }
  }

  /** The writer escapes no more than it must, and never at greater length. */
  lemma {:induction false} EscapeIsShortest(b: byte, p: Piece)
    requires ValidPiece(p) && PieceMeaning(p) == [b]
    ensures |EscapeByte(b)| <= |Spell(p)|
    ensures |EscapeByte(b)| == |Spell(p)| && !p.Unit? ==> EscapeByte(b) == Spell(p)
  {
  }
}
