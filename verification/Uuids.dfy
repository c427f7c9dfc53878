/** UUIDs: the canonical text that the services write, and what Python's `UUID()` reads. */
module Uuids {
  import opened Wrappers

  const HEX_OR_DASH: set<char> :=
    set c: char | '0' <= c <= '9' || 'a' <= c <= 'f' || 'A' <= c <= 'F' || c == '-'

  function Lower(c: char): char {
    if 'A' <= c <= 'F' then (c as int + 32) as char else c
  }

  function Upper(c: char): char {
    if 'a' <= c <= 'f' then (c as int - 32) as char else c
  }

  function UpperAll(s: string): string {
    seq(|s|, i requires 0 <= i < |s| => Upper(s[i]))
  }

  /** The digits of an id as `UUID()` reads them: dashes anywhere are dropped, case is ignored. */
  function Digits(id: string): (d: string)
    ensures (forall i | 0 <= i < |id| :: id[i] in HEX_OR_DASH) ==>
              forall i | 0 <= i < |d| :: '0' <= d[i] <= '9' || 'a' <= d[i] <= 'f'
  {
    if id == "" then ""
    else if id[0] == '-' then Digits(id[1..])
    else [Lower(id[0])] + Digits(id[1..])
  }

  /** A UUID by its 32 lower-case hexadecimal digits. */
  predicate IsUuid(u: string) {
    |u| == 32 && forall i | 0 <= i < 32 :: '0' <= u[i] <= '9' || 'a' <= u[i] <= 'f'
  }

  /** `str(UUID)`. */
  function Canonical(u: string): (s: string)
    requires IsUuid(u)
    ensures |s| == 36
  {
    u[..8] + "-" + u[8..12] + "-" + u[12..16] + "-" + u[16..20] + "-" + u[20..]
  }

  lemma {:induction false} DashesStand(u: string)
    requires IsUuid(u)
    ensures forall i | 0 <= i < 36 :: Canonical(u)[i] == '-' <==> i == 8 || i == 13 || i == 18 || i == 23
  {
  }

  lemma {:induction false} DigitsConcat(a: string, b: string)
    ensures Digits(a + b) == Digits(a) + Digits(b)
    decreases a
  {
    hide Lower;
    if a == "" {
      assert a + b == b;
    } else {
      DigitsConcat(a[1..], b);
      DropFirst(a, b);
    }
  }

  lemma {:induction false} DropFirst(a: string, b: string)
    requires a != ""
    ensures a + b != "" && (a + b)[0] == a[0] && (a + b)[1..] == a[1..] + b
  {
  }

  lemma {:induction false} DigitsOfLower(a: string)
    requires forall i | 0 <= i < |a| :: '0' <= a[i] <= '9' || 'a' <= a[i] <= 'f'
    ensures Digits(a) == a
    decreases a
  {
    if a != "" {
      DigitsOfLower(a[1..]);
    }
  }

  lemma {:induction false} DigitsAfterDash(a: string, b: string)
    ensures Digits(a + "-" + b) == Digits(a) + Digits(b)
  {
    DigitsConcat(a + "-", b);
    DigitsConcat(a, "-");
    assert Digits("-") == "" by { assert "-"[1..] == ""; }
  }

  /** Reading the canonical text of a UUID gives that UUID back. */
  lemma {:induction false} CanonicalReadsBack(u: string)
    requires IsUuid(u)
    ensures Digits(Canonical(u)) == u
  {
    DigitsOfLower(u);
    assert u == u[..8] + u[8..12] + u[12..16] + u[16..20] + u[20..];
    hide Digits;
    DashedDigits(u[..8], u[8..12], u[12..16], u[16..20], u[20..]);
    LowerJoin(u[..8], u[8..12], u[12..16], u[16..20], u[20..]);
  }

  lemma {:induction false} DashedDigits(a: string, b: string, c: string, d: string, e: string)
    ensures Digits(a + "-" + b + "-" + c + "-" + d + "-" + e)
         == Digits(a) + Digits(b) + Digits(c) + Digits(d) + Digits(e)
  {
    DigitsAfterDash(a, b);
    DigitsAfterDash(a + "-" + b, c);
    DigitsAfterDash(a + "-" + b + "-" + c, d);
    DigitsAfterDash(a + "-" + b + "-" + c + "-" + d, e);
  }

  lemma {:induction false} LowerJoin(a: string, b: string, c: string, d: string, e: string)
    ensures Digits(a + b + c + d + e) == Digits(a) + Digits(b) + Digits(c) + Digits(d) + Digits(e)
  {
    DigitsConcat(a, b);
    DigitsConcat(a + b, c);
    DigitsConcat(a + b + c, d);
    DigitsConcat(a + b + c + d, e);
  }

  lemma {:induction false} DigitsIgnoreCase(id: string)
    ensures Digits(UpperAll(id)) == Digits(id)
    decreases id
  {
    if id != "" {
      DigitsIgnoreCase(id[1..]);
      assert UpperAll(id)[1..] == UpperAll(id[1..]);
    }
  }

  const NIL: string := "00000000000000000000000000000000"

  type Uuid = u: string | IsUuid(u) witness NIL

  /**
   `UUID(text)`. On text of hexadecimal digits and dashes it takes the digits and wants 32 of them; what it
   makes of other spellings (braces, `urn:uuid:`) is up to `other`.
   */
  function ReadUuid(other: string -> Option<Uuid>, text: string): Option<Uuid> {
    if forall i | 0 <= i < |text| :: text[i] in HEX_OR_DASH then
      if IsUuid(Digits(text)) then Some(Digits(text)) else None
    else other(text)
  }

  lemma {:induction false} CanonicalChars(u: Uuid)
    ensures forall i | 0 <= i < 36 :: Canonical(u)[i] in HEX_OR_DASH
  {
    forall i | 0 <= i < 36 ensures Canonical(u)[i] in HEX_OR_DASH {
      var s := Canonical(u);
      if i < 8 { assert s[i] == u[i]; }
      else if 8 < i < 13 { assert s[i] == u[i - 1]; }
      else if 13 < i < 18 { assert s[i] == u[i - 2]; }
      else if 18 < i < 23 { assert s[i] == u[i - 3]; }
      else if 23 < i { assert s[i] == u[i - 4]; }
    }
  }

  lemma {:induction false} CanonicalIsRead(other: string -> Option<Uuid>, u: Uuid)
    ensures ReadUuid(other, Canonical(u)) == Some(u)
  {
    CanonicalChars(u);
    CanonicalReadsBack(u);
  }
}
