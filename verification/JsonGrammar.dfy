/**
 The grammar of RFC 8259 as concrete syntax trees, and the proof that the reader decides it:
 a text is accepted with value `v` exactly when some syntax tree spells the text and means `v`.
 */
module JsonGrammar {
  import opened JsonSyntax
  import opened Sequences
  import opened JsonReader

  // ---------------------------------------------------------------- spelled strings

  /** One character of a string as it may be spelled. */
  datatype Piece =
    | Raw(b: byte)
    | Short(c: byte)
    | Unit(h: Bytes)
    | Pair(hi: Bytes, lo: Bytes)

  predicate ValidPiece(p: Piece) {
    match p
    case Raw(b) => b >= 0x20 && b != QUOTE && b != BACKSLASH
    case Short(c) => IsShortEscape(c)
    case Unit(h) => IsHex4(h) && !IsHighSurrogate(Hex4(h)) && !IsLowSurrogate(Hex4(h))
    case Pair(hi, lo) =>
      IsHex4(hi) && IsHighSurrogate(Hex4(hi)) && IsHex4(lo) && IsLowSurrogate(Hex4(lo))
  }

  function Spell(p: Piece): (s: Bytes)
    ensures |s| > 0
  {
    match p
    case Raw(b) => [b]
    case Short(c) => [BACKSLASH, c]
    case Unit(h) => [BACKSLASH, 0x75] + h
    case Pair(hi, lo) => [BACKSLASH, 0x75] + hi + [BACKSLASH, 0x75] + lo
  }

  function PieceMeaning(p: Piece): Bytes
    requires ValidPiece(p)
  {
    match p
    case Raw(b) => [b]
    case Short(c) => [ShortMeaning(c)]
    case Unit(h) => Utf8(Hex4(h))
    case Pair(hi, lo) => Utf8(Combine(Hex4(hi), Hex4(lo)))
  }

  predicate ValidPieces(ps: seq<Piece>) {
    forall i | 0 <= i < |ps| :: ValidPiece(ps[i])
  }

  function SpellAll(ps: seq<Piece>): Bytes {
    if ps == [] then [] else Spell(ps[0]) + SpellAll(ps[1..])
  }

  function TextMeaning(ps: seq<Piece>): Bytes
    requires ValidPieces(ps)
  {
    if ps == [] then [] else PieceMeaning(ps[0]) + TextMeaning(ps[1..])
  }

  lemma {:induction false} ReadPiece(p: Piece, rest: Bytes)
    requires ValidPiece(p) && !p.Raw?
    ensures ReadEscape(Spell(p) + rest) == Accepted(PieceMeaning(p), rest)
  {
    var s := Spell(p) + rest;
    match p {
      case Short(c) =>
        assert s[2..] == rest;
      case Unit(h) =>
        assert s[2..6] == h && s[6..] == rest;
      case Pair(hi, lo) =>
        assert s[2..6] == hi && s[8..12] == lo && s[12..] == rest;
    }
  }

  /** Every spelling of a string, with any of the escapes of section 7, reads back as its meaning. */
  lemma {:induction false} ReadSpelledString(ps: seq<Piece>, rest: Bytes)
    requires ValidPieces(ps)
    ensures ReadString(SpellAll(ps) + [QUOTE] + rest) == Accepted(TextMeaning(ps), rest)
  {
    var s := SpellAll(ps) + [QUOTE] + rest;
    if ps == [] {
      assert s[1..] == rest;
    } else {
      var tail := SpellAll(ps[1..]) + [QUOTE] + rest;
      assert s == Spell(ps[0]) + tail;
      ReadSpelledString(ps[1..], rest);
      if ps[0].Raw? {
        assert s[1..] == tail;
      } else {
        ReadPiece(ps[0], tail);
      }
    }
  }

  lemma {:induction false} ReadEscapeSound(s: Bytes) returns (p: Piece)
    requires s != [] && s[0] == BACKSLASH && ReadEscape(s).Accepted?
    ensures ValidPiece(p) && s == Spell(p) + ReadEscape(s).rest
    ensures PieceMeaning(p) == ReadEscape(s).value
  {
    if IsShortEscape(s[1]) {
      p := Short(s[1]);
    } else if !IsHighSurrogate(Hex4(s[2..6])) {
      p := Unit(s[2..6]);
    } else {
      p := Pair(s[2..6], s[8..12]);
    }
  }

  /** Nothing but a spelled string is read as a string. */
  lemma {:induction false} ReadStringSound(s: Bytes) returns (ps: seq<Piece>)
    requires ReadString(s).Accepted?
    ensures ValidPieces(ps) && s == SpellAll(ps) + [QUOTE] + ReadString(s).rest
    ensures TextMeaning(ps) == ReadString(s).value
    decreases |s|
  {
    if s[0] == QUOTE {
      ps := [];
    } else {
      var p, rest := ReadPieceSound(s);
      hide ValidPiece, Spell, PieceMeaning, ReadEscape;
      var more := ReadStringSound(rest);
      ps := [p] + more;
      TailOfCons(p, more);
      Assoc4(Spell(p), SpellAll(more), [QUOTE], ReadString(s).rest);
    }
  }

  /** The first piece of a string, and what the reader goes on with. */
  lemma {:induction false} ReadPieceSound(s: Bytes) returns (p: Piece, rest: Bytes)
    requires ReadString(s).Accepted? && s[0] != QUOTE
    ensures ValidPiece(p) && |rest| < |s| && s == Spell(p) + rest && ReadString(rest).Accepted?
    ensures ReadString(s).value == PieceMeaning(p) + ReadString(rest).value
    ensures ReadString(s).rest == ReadString(rest).rest
  {
    if s[0] == BACKSLASH {
      p := ReadEscapeSound(s);
      rest := ReadEscape(s).rest;
    } else {
      p, rest := Raw(s[0]), s[1..];
    }
  }

  // ---------------------------------------------------------------- numbers

  /** What may follow a value inside a document: nothing that would extend a number. */
  predicate Delimited(rest: Bytes) {
    rest == [] || IsSpace(rest[0]) || rest[0] in {COMMA, RBRACKET, RBRACE}
  }

  lemma {:induction false} DigitRunExtends(s: Bytes, rest: Bytes)
    requires rest == [] || !IsDigit(rest[0])
    ensures DigitRun(s) < |s| ==> DigitRun(s + rest) == DigitRun(s)
    ensures DigitRun(s) == |s| ==> DigitRun(s + rest) == |s|
  {
    if s == [] {
      assert s + rest == rest;
    } else if IsDigit(s[0]) {
      DigitRunExtends(s[1..], rest);
      DropOfConcat(s, rest, 1);
    }
  }

  lemma {:induction false} ScanExponentComplete(s: Bytes, rest: Bytes)
    requires IsExponent(s) && Delimited(rest)
    ensures ScanExponent(s + rest) == |s|
  {
    if s == [] {
      assert s + rest == rest;
    } else {
      var skip := if |s| > 1 && s[1] in {PLUS, MINUS} then 2 else 1;
      DigitRunExtends(s[skip..], rest);
      DropOfConcat(s, rest, skip);
    }
  }

  lemma {:induction false} ScanFractionComplete(s: Bytes, rest: Bytes)
    requires IsFraction(s) && Delimited(rest)
    ensures ScanFraction(s + rest) == |s|
  {
    var t := s + rest;
    if s != [] && s[0] == DOT {
      var n := DigitRun(s[1..]);
      DigitRunExtends(s[1..], rest);
      DropOfConcat(s, rest, 1);
      DropOfConcat(s, rest, 1 + n);
      ScanExponentComplete(s[1 + n..], rest);
      assert t[0] == DOT;
    } else {
      ScanExponentComplete(s, rest);
      if s != [] {
        assert t[0] == s[0];
      } else {
        assert t == rest;
      }
    }
  }

  lemma {:induction false} ScanUnsignedComplete(s: Bytes, rest: Bytes)
    requires IsUnsignedNumber(s) && Delimited(rest)
    ensures ScanUnsigned(s + rest) == |s|
  {
    var n := DigitRun(s);
    DigitRunExtends(s, rest);
    DropOfConcat(s, rest, n);
    ScanFractionComplete(s[n..], rest);
  }

  lemma {:induction false} ScanNumberComplete(s: Bytes, rest: Bytes)
    requires IsNumber(s) && Delimited(rest)
    ensures ScanNumber(s + rest) == |s|
  {
    var t := s + rest;
    if s != [] && s[0] == MINUS {
      var u := s[1..];
      ScanUnsignedComplete(u, rest);
      DropOfConcat(s, rest, 1);
      assert t[0] == MINUS;
    } else {
      ScanUnsignedComplete(s, rest);
      assert s != [] && t[0] == s[0];
    }
  }

  lemma {:induction false} DigitRunPrefix(s: Bytes, n: nat)
    requires n <= |s|
    ensures DigitRun(s[..n]) == if DigitRun(s) < n then DigitRun(s) else n
  {
    if n > 0 && IsDigit(s[0]) {
      DigitRunPrefix(s[1..], n - 1);
      DropOfTake(s, n, 1);
    }
  }

  lemma {:induction false} ScanExponentSound(s: Bytes)
    requires ScanExponent(s) >= 0
    ensures IsExponent(s[..ScanExponent(s)])
  {
    var n := ScanExponent(s);
    if n > 0 {
      var skip := if |s| > 1 && s[1] in {PLUS, MINUS} then 2 else 1;
      DigitRunPrefix(s[skip..], n - skip);
      DropOfTake(s, n, skip);
    }
  }

  lemma {:induction false} FractionParts(s: Bytes, d: nat)
    requires 0 < d < |s| && s[0] == DOT && DigitRun(s[1..]) == d && IsExponent(s[1 + d..])
    ensures IsFraction(s)
  {
  }

  lemma {:induction false} ScanFractionSound(s: Bytes)
    requires ScanFraction(s) >= 0
    ensures IsFraction(s[..ScanFraction(s)])
  {
    hide DigitRun, IsExponent, ScanExponent;
    var n := ScanFraction(s);
    if s != [] && s[0] == DOT {
      var d := DigitRun(s[1..]);
      var t := s[..n];
      DropOfTake(s, n, 1);
      DigitRunPrefix(s[1..], n - 1);
      DropOfTake(s, n, 1 + d);
      ScanExponentSound(s[1 + d..]);
      FractionParts(t, d);
    } else {
      ScanExponentSound(s);
    }
  }

  lemma {:induction false} ScanUnsignedSound(s: Bytes)
    requires ScanUnsigned(s) >= 0
    ensures IsUnsignedNumber(s[..ScanUnsigned(s)])
  {
    var n := ScanUnsigned(s);
    var d := DigitRun(s);
    ScanFractionSound(s[d..]);
    DigitRunPrefix(s, n);
    DropOfTake(s, n, d);
  }

  lemma {:induction false} ScanNumberSound(s: Bytes)
    requires ScanNumber(s) >= 0
    ensures IsNumber(s[..ScanNumber(s)])
  {
    hide ScanUnsigned, IsUnsignedNumber;
    var n := ScanNumber(s);
    if s[0] == MINUS {
      ScanUnsignedSound(s[1..]);
      DropOfTake(s, n, 1);
    } else {
      ScanUnsignedSound(s);
    }
  }
}
