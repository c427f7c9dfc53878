/**
 An independent JSON reader for RFC 8259 sections 2 to 7: white space, literals, numbers, strings
 with every escape of section 7, arrays and objects. It reads bytes, as serde_json does.
 */
module JsonReader {
  import opened Wrappers
  import opened JsonSyntax

  datatype Parsed<+T> = Rejected | Accepted(value: T, rest: Bytes)

  function SkipSpace(s: Bytes): (r: Bytes)
    ensures |r| <= |s|
    ensures r != [] ==> !IsSpace(r[0])
  {
    if s != [] && IsSpace(s[0]) then SkipSpace(s[1..]) else s
  }

  predicate StartsWith(s: Bytes, prefix: Bytes) {
    |prefix| <= |s| && s[..|prefix|] == prefix
  }

  // ---------------------------------------------------------------- numbers

  /** Length of the exponent part at the start of `s`, or None if an exponent starts but is broken. */
  function ScanExponent(s: Bytes): (n: int)
    ensures -1 <= n <= |s|
  {
    if s == [] || s[0] !in {0x65, 0x45} then 0
    else
      var skip := if |s| > 1 && s[1] in {PLUS, MINUS} then 2 else 1;
      var n := DigitRun(s[skip..]);
      if n == 0 then -1 else skip + n
  }

  function ScanFraction(s: Bytes): (n: int)
    ensures -1 <= n <= |s|
  {
    if s == [] || s[0] != DOT then ScanExponent(s)
    else
      var n := DigitRun(s[1..]);
      if n == 0 then -1
      else
        var e := ScanExponent(s[1 + n..]);
        if e < 0 then -1 else 1 + n + e
  }

  function ScanUnsigned(s: Bytes): (n: int)
    ensures n == -1 || 0 < n <= |s|
  {
    var n := DigitRun(s);
    if n == 0 || (s[0] == 0x30 && n > 1) then -1
    else
      var f := ScanFraction(s[n..]);
      if f < 0 then -1 else n + f
  }

  /** Length of the number token at the start of `s`, or -1. */
  function ScanNumber(s: Bytes): (n: int)
    ensures n == -1 || 0 < n <= |s|
  {
    if s != [] && s[0] == MINUS then
      var n := ScanUnsigned(s[1..]);
      if n < 0 then -1 else 1 + n
    else
      ScanUnsigned(s)
  }

  // ---------------------------------------------------------------- strings

  predicate IsHex(b: byte) {
    IsDigit(b) || 0x61 <= b <= 0x66 || 0x41 <= b <= 0x46
  }

  function HexValue(b: byte): (v: nat)
    requires IsHex(b)
    ensures v < 16
  {
    if b <= 0x39 then b - 0x30 else if b <= 0x46 then b - 0x41 + 10 else b - 0x61 + 10
  }

  predicate IsHex4(h: Bytes) {
    |h| == 4 && IsHex(h[0]) && IsHex(h[1]) && IsHex(h[2]) && IsHex(h[3])
  }

  function Hex4(h: Bytes): (v: nat)
    requires IsHex4(h)
    ensures v < 0x1_0000
  {
    ((HexValue(h[0]) * 16 + HexValue(h[1])) * 16 + HexValue(h[2])) * 16 + HexValue(h[3])
  }

  predicate IsHighSurrogate(u: nat) { 0xD800 <= u < 0xDC00 }

  predicate IsLowSurrogate(u: nat) { 0xDC00 <= u < 0xE000 }

  /** The code point of a surrogate pair. */
  function Combine(hi: nat, lo: nat): (cp: nat)
    requires IsHighSurrogate(hi) && IsLowSurrogate(lo)
    ensures 0x1_0000 <= cp < 0x11_0000
  {
    0x1_0000 + (hi - 0xD800) * 0x400 + (lo - 0xDC00)
  }

  /** UTF-8 (RFC 3629 section 3). */
  function Utf8(cp: nat): Bytes
    requires cp < 0x11_0000
  {
    if cp < 0x80 then [cp]
    else if cp < 0x800 then [0xC0 + cp / 0x40, 0x80 + cp % 0x40]
    else if cp < 0x1_0000 then [0xE0 + cp / 0x1000, 0x80 + cp / 0x40 % 0x40, 0x80 + cp % 0x40]
    else [0xF0 + cp / 0x4_0000, 0x80 + cp / 0x1000 % 0x40, 0x80 + cp / 0x40 % 0x40, 0x80 + cp % 0x40]
  }

  predicate IsShortEscape(c: byte) {
    c in {QUOTE, BACKSLASH, 0x2F, 0x62, 0x66, 0x6E, 0x72, 0x74}
  }

  function ShortMeaning(c: byte): byte
    requires IsShortEscape(c)
  {
    if c == 0x62 then 0x08
    else if c == 0x66 then 0x0C
    else if c == 0x6E then 0x0A
    else if c == 0x72 then 0x0D
    else if c == 0x74 then 0x09
    else c
  }

  /** One escape sequence at the start of `s`, which begins with a backslash. */
  function ReadEscape(s: Bytes): (r: Parsed<Bytes>)
    requires s != [] && s[0] == BACKSLASH
    ensures r.Accepted? ==> |r.rest| < |s|
  {
    if |s| < 2 then Rejected
    else if IsShortEscape(s[1]) then Accepted([ShortMeaning(s[1])], s[2..])
    else if s[1] != 0x75 || |s| < 6 || !IsHex4(s[2..6]) then Rejected
    else
      var u := Hex4(s[2..6]);
      if IsLowSurrogate(u) then Rejected
      else if !IsHighSurrogate(u) then Accepted(Utf8(u), s[6..])
      else if |s| < 12 || s[6] != BACKSLASH || s[7] != 0x75 || !IsHex4(s[8..12]) then Rejected
      else
        var lo := Hex4(s[8..12]);
        if IsLowSurrogate(lo) then Accepted(Utf8(Combine(u, lo)), s[12..]) else Rejected
  }

  /** The rest of a string, after its opening quote. */
  function ReadString(s: Bytes): (r: Parsed<Bytes>)
    ensures r.Accepted? ==> |r.rest| < |s|
    decreases |s|
  {
    if s == [] || s[0] < 0x20 then Rejected
    else if s[0] == QUOTE then Accepted([], s[1..])
    else
      var head := if s[0] == BACKSLASH then ReadEscape(s) else Accepted([s[0]], s[1..]);
      if head.Rejected? then Rejected
      else
        var tail := ReadString(head.rest);
        if tail.Rejected? then Rejected else Accepted(head.value + tail.value, tail.rest)
  }

  // ---------------------------------------------------------------- values

  function ReadLiteral(s: Bytes): (r: Parsed<Json>)
    ensures r.Accepted? ==> |r.rest| < |s|
  {
    if StartsWith(s, NULL_TEXT) then Accepted(Null, s[4..])
    else if StartsWith(s, TRUE_TEXT) then Accepted(Bool(true), s[4..])
    else if StartsWith(s, FALSE_TEXT) then Accepted(Bool(false), s[5..])
    else
      var n := ScanNumber(s);
      if n < 0 then Rejected else Accepted(Number(s[..n]), s[n..])
  }

  function ReadValue(input: Bytes): (r: Parsed<Json>)
    ensures r.Accepted? ==> |r.rest| < |input|
    decreases |input|, 0
  {
    var s := SkipSpace(input);
    if s == [] then Rejected
    else if s[0] == LBRACE then
      var t := SkipSpace(s[1..]);
      if t != [] && t[0] == RBRACE then Accepted(Object([]), t[1..])
      else
        var r := ReadMembers(s[1..]);
        if r.Rejected? then Rejected else Accepted(Object(r.value), r.rest)
    else if s[0] == LBRACKET then
      var t := SkipSpace(s[1..]);
      if t != [] && t[0] == RBRACKET then Accepted(Array([]), t[1..])
      else
        var r := ReadItems(s[1..]);
        if r.Rejected? then Rejected else Accepted(Array(r.value), r.rest)
    else if s[0] == QUOTE then
      var r := ReadString(s[1..]);
      if r.Rejected? then Rejected else Accepted(String(r.value), r.rest)
    else
      ReadLiteral(s)
  }

  /** One or more items up to the closing bracket. */
  function ReadItems(s: Bytes): (r: Parsed<seq<Json>>)
    ensures r.Accepted? ==> |r.rest| < |s|
    decreases |s|, 1
  {
    var v := ReadValue(s);
    if v.Rejected? then Rejected
    else
      var t := SkipSpace(v.rest);
      if t == [] then Rejected
      else if t[0] == RBRACKET then Accepted([v.value], t[1..])
      else if t[0] != COMMA then Rejected
      else
        var more := ReadItems(t[1..]);
        if more.Rejected? then Rejected else Accepted([v.value] + more.value, more.rest)
  }

  /** A member name and its colon. */
  function ReadKey(input: Bytes): (r: Parsed<Bytes>)
    ensures r.Accepted? ==> |r.rest| < |input|
  {
    var s := SkipSpace(input);
    if s == [] || s[0] != QUOTE then Rejected
    else
      var k := ReadString(s[1..]);
      if k.Rejected? then Rejected
      else
        var t := SkipSpace(k.rest);
        if t == [] || t[0] != COLON then Rejected else Accepted(k.value, t[1..])
  }

  /** One or more members up to the closing brace. */
  function ReadMembers(s: Bytes): (r: Parsed<seq<Member>>)
    ensures r.Accepted? ==> |r.rest| < |s|
    decreases |s|, 1
  {
    var k := ReadKey(s);
    if k.Rejected? then Rejected
    else
      var v := ReadValue(k.rest);
      if v.Rejected? then Rejected
      else
        var m := Member(k.value, v.value);
        var t := SkipSpace(v.rest);
        if t == [] then Rejected
        else if t[0] == RBRACE then Accepted([m], t[1..])
        else if t[0] != COMMA then Rejected
        else
          var more := ReadMembers(t[1..]);
          if more.Rejected? then Rejected else Accepted([m] + more.value, more.rest)
  }

  /** A whole JSON text: one value, with white space around it and nothing else. */
  function ReadDocument(s: Bytes): Option<Json> {
    var r := ReadValue(s);
    if r.Accepted? && SkipSpace(r.rest) == [] then Some(r.value) else None
  }
}
