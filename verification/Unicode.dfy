/** UTF-8 as the syntax of RFC 3629 section 4 reads it, and the code points that the readers' bytes stand for. */
module Unicode {
  import opened Wrappers
  import opened JsonSyntax
  import opened JsonReader

  type Scalar = cp: nat | cp < 0xD800 || 0xE000 <= cp < 0x11_0000

  predicate IsTail(b: byte) {
    0x80 <= b <= 0xBF
  }

  /** How long a well-formed character at the start of `s` is, or 0 if there is none. */
  function CharLength(s: Bytes): (n: nat)
    ensures n <= |s|
  {
    if |s| >= 1 && s[0] <= 0x7F then 1
    else if |s| >= 2 && 0xC2 <= s[0] <= 0xDF && IsTail(s[1]) then 2
    else if |s| >= 3 && IsTail(s[2])
      && ((s[0] == 0xE0 && 0xA0 <= s[1] <= 0xBF) || (0xE1 <= s[0] <= 0xEC && IsTail(s[1]))
          || (s[0] == 0xED && 0x80 <= s[1] <= 0x9F) || (0xEE <= s[0] <= 0xEF && IsTail(s[1]))) then 3
    else if |s| >= 4 && IsTail(s[2]) && IsTail(s[3])
      && ((s[0] == 0xF0 && 0x90 <= s[1] <= 0xBF) || (0xF1 <= s[0] <= 0xF3 && IsTail(s[1]))
          || (s[0] == 0xF4 && 0x80 <= s[1] <= 0x8F)) then 4
    else 0
  }

  /** Six more bits. */
  function Shifted(bits: nat, tail: byte): nat {
    bits * 0x40 + tail % 0x40
  }

  /** The number that the payload bits of a character spell. */
  function Payload(c: Bytes): nat
    requires 1 <= |c| <= 4
  {
    if |c| == 1 then c[0]
    else if |c| == 2 then Shifted(c[0] % 0x20, c[1])
    else if |c| == 3 then Shifted(Shifted(c[0] % 0x10, c[1]), c[2])
    else Shifted(Shifted(Shifted(c[0] % 0x08, c[1]), c[2]), c[3])
  }

  /** The first character of a text, and what follows. */
  datatype Decoded = Malformed | Char(cp: nat, rest: Bytes)

  function Decode(s: Bytes): Decoded {
    var n := CharLength(s);
    if n == 0 then Malformed else Char(Payload(s[..n]), s[n..])
  }

  /** The code points of a text, or None if it is not UTF-8. */
  function DecodeAll(s: Bytes): Option<seq<nat>>
    decreases |s|
  {
    if s == [] then Some([])
    else
      var first := Decode(s);
      if first.Malformed? then None
      else
        var more := DecodeAll(first.rest);
        if more.None? then None else Some([first.cp] + more.value)
  }

  lemma {:induction false} EncodedLength(cp: Scalar, rest: Bytes)
    ensures CharLength(Utf8(cp) + rest) == |Utf8(cp)|
  {
    var s := Utf8(cp) + rest;
    if cp >= 0x80 {
      assert s[0] == Utf8(cp)[0] && s[1] == Utf8(cp)[1];
    }
    if cp >= 0x800 {
      assert s[2] == Utf8(cp)[2] && IsTail(s[2]);
    }
    if cp >= 0x1_0000 {
      assert s[3] == Utf8(cp)[3] && IsTail(s[3]);
    }
  }

  lemma {:induction false} LowBits(n: nat)
    ensures Shifted(n / 0x40, 0x80 + n % 0x40) == n
  {
  }

  lemma {:induction false} LeadBits(cp: nat)
    ensures cp < 0x800 ==> (0xC0 + cp / 0x40) % 0x20 == cp / 0x40
    ensures cp < 0x1_0000 ==> (0xE0 + cp / 0x1000) % 0x10 == cp / 0x1000
    ensures cp < 0x11_0000 ==> (0xF0 + cp / 0x4_0000) % 0x08 == cp / 0x4_0000
    ensures cp / 0x1000 == cp / 0x40 / 0x40 && cp / 0x4_0000 == cp / 0x1000 / 0x40
  {
  }

  lemma {:induction false} EncodedPayload(cp: Scalar)
    ensures Payload(Utf8(cp)) == cp
  {
    LowBits(cp);
    LowBits(cp / 0x40);
    LowBits(cp / 0x1000);
    LeadBits(cp);
    hide Shifted;
  }

  /** What the encoder writes for a scalar value is one character of UTF-8 and stands for that value. */
  lemma {:induction false} EncodedDecodes(cp: Scalar, rest: Bytes)
    ensures Decode(Utf8(cp) + rest) == Char(cp, rest)
  {
    EncodedLength(cp, rest);
    EncodedPayload(cp);
    hide CharLength, Payload;
    var c := Utf8(cp);
    assert |c| > 0;
    hide Utf8;
    assert (c + rest)[..|c|] == c && (c + rest)[|c|..] == rest;
  }

  lemma {:induction false} EncodedTextDecodes(cp: Scalar, rest: Bytes)
    requires DecodeAll(rest).Some?
    ensures DecodeAll(Utf8(cp) + rest) == Some([cp] + DecodeAll(rest).value)
  {
    EncodedDecodes(cp, rest);
    hide Decode;
  }

  lemma {:induction false} ShiftedBack(bits: nat, tail: byte)
    requires IsTail(tail)
    ensures Shifted(bits, tail) / 0x40 == bits && 0x80 + Shifted(bits, tail) % 0x40 == tail
  {
  }

  lemma {:induction false} ThreeEncode(a: byte, b: byte, c: byte)
    requires 0xE0 <= a <= 0xEF && IsTail(b) && IsTail(c)
    requires (a == 0xE0 ==> b >= 0xA0) && (a == 0xED ==> b <= 0x9F)
    ensures var cp := Payload([a, b, c]);
            (0x800 <= cp < 0xD800 || 0xE000 <= cp < 0x1_0000) && Utf8(cp) == [a, b, c]
  {
    var bits := Shifted(a % 0x10, b);
    var cp := Shifted(bits, c);
    assert a % 0x10 == a - 0xE0;
    ShiftedBack(a % 0x10, b);
    ShiftedBack(bits, c);
    assert cp / 0x1000 == cp / 0x40 / 0x40;
  }

  lemma {:induction false} Quotients(high: nat, c: nat, d: nat)
    requires c < 0x40 && d < 0x40
    ensures var cp := (high * 0x40 + c) * 0x40 + d;
            cp / 0x1000 == high && cp / 0x40 % 0x40 == c && cp % 0x40 == d && cp / 0x4_0000 == high / 0x40
  {
    var bits := high * 0x40 + c;
    var cp := bits * 0x40 + d;
    assert cp / 0x40 == bits && bits / 0x40 == high;
    assert cp / 0x1000 == cp / 0x40 / 0x40;
    assert cp / 0x4_0000 == cp / 0x1000 / 0x40;
  }

  lemma {:induction false} FourPayload(a: byte, b: byte, c: byte, d: byte)
    requires 0xF0 <= a <= 0xF4 && IsTail(b) && IsTail(c) && IsTail(d)
    ensures Payload([a, b, c, d]) == (((a - 0xF0) * 0x40 + (b - 0x80)) * 0x40 + (c - 0x80)) * 0x40 + (d - 0x80)
  {
    assert a % 0x08 == a - 0xF0 && b % 0x40 == b - 0x80 && c % 0x40 == c - 0x80 && d % 0x40 == d - 0x80;
  }

  lemma {:induction false} FourEncode(a: byte, b: byte, c: byte, d: byte)
    requires 0xF0 <= a <= 0xF4 && IsTail(b) && IsTail(c) && IsTail(d)
    requires (a == 0xF0 ==> b >= 0x90) && (a == 0xF4 ==> b <= 0x8F)
    ensures var cp := Payload([a, b, c, d]);
            0x1_0000 <= cp < 0x11_0000 && Utf8(cp) == [a, b, c, d]
  {
    FourPayload(a, b, c, d);
    hide Payload;
    var high := (a - 0xF0) * 0x40 + (b - 0x80);
    assert high / 0x40 == a - 0xF0 && high % 0x40 == b - 0x80 && 0x10 <= high < 0x110;
    Quotients(high, c - 0x80, d - 0x80);
  }

  lemma {:induction false} TwoEncode(a: byte, b: byte)
    requires 0xC2 <= a <= 0xDF && IsTail(b)
    ensures var cp := Payload([a, b]); 0x80 <= cp < 0x800 && Utf8(cp) == [a, b]
  {
    assert a % 0x20 == a - 0xC0;
    ShiftedBack(a % 0x20, b);
  }

  lemma {:induction false} PayloadEncodes(c: Bytes)
    requires 1 <= |c| <= 4 && CharLength(c) == |c|
    ensures var cp := Payload(c); (cp < 0xD800 || 0xE000 <= cp < 0x11_0000) && Utf8(cp) == c
  {
    if |c| == 2 {
      TwoEncode(c[0], c[1]);
      assert c == [c[0], c[1]];
    } else if |c| == 3 {
      ThreeEncode(c[0], c[1], c[2]);
      assert c == [c[0], c[1], c[2]];
    } else if |c| == 4 {
      FourEncode(c[0], c[1], c[2], c[3]);
      assert c == [c[0], c[1], c[2], c[3]];
    } else {
      assert c == [c[0]];
    }
  }

  /** Nothing else decodes: a well-formed character is the encoding of a scalar value. */
  lemma {:induction false} DecodedIsEncoded(s: Bytes)
    requires Decode(s).Char?
    ensures var cp := Decode(s).cp;
            (cp < 0xD800 || 0xE000 <= cp < 0x11_0000) && s == Utf8(cp) + Decode(s).rest
  {
    var n := CharLength(s);
    assert s == s[..n] + s[n..];
    assert CharLength(s[..n]) == n;
    PayloadEncodes(s[..n]);
  }
}
