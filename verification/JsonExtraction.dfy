/**
 The gateway's best-effort JSON extraction: the whole text, then a fenced block, then the first
 balanced block. The text is modelled as its UTF-8 bytes; no byte of a longer UTF-8 sequence is a
 brace, so positions of braces are the same.
 */
module JsonExtraction {
  import opened Wrappers
  import opened JsonSyntax
  import opened JsonReader

  // ---------------------------------------------------------------- depth

  function Weight(b: byte, opener: byte, closer: byte): int {
    if b == opener then 1 else if b == closer then -1 else 0
  }

  /** Openers minus closers. */
  function Depth(s: Bytes, opener: byte, closer: byte): int {
    if s == [] then 0 else Weight(s[0], opener, closer) + Depth(s[1..], opener, closer)
  }

  lemma {:induction false} DepthConcat(s: Bytes, t: Bytes, opener: byte, closer: byte)
    ensures Depth(s + t, opener, closer) == Depth(s, opener, closer) + Depth(t, opener, closer)
    decreases s
  {
    if s == [] {
      assert s + t == t;
    } else {
      DepthConcat(s[1..], t, opener, closer);
      assert (s + t)[1..] == s[1..] + t;
    }
  }

  lemma {:induction false} DepthSnoc(s: Bytes, b: byte, opener: byte, closer: byte)
    ensures Depth(s + [b], opener, closer) == Depth(s, opener, closer) + Weight(b, opener, closer)
  {
    DepthConcat(s, [b], opener, closer);
    assert [b][1..] == [];
  }

  // ---------------------------------------------------------------- the search

  /** The UTF-8 bytes of a character that `str.strip` removes. */
  predicate IsSpaceChar(c: Bytes) {
    if |c| == 1 then c[0] == 0x20 || 0x09 <= c[0] <= 0x0D || 0x1C <= c[0] <= 0x1F
    else if |c| == 2 then c[0] == 0xC2 && (c[1] == 0x85 || c[1] == 0xA0)
    else
      |c| == 3 &&
      ((c[0] == 0xE1 && c[1] == 0x9A && c[2] == 0x80)
       || (c[0] == 0xE2 && c[1] == 0x80 && (0x80 <= c[2] <= 0x8A || c[2] == 0xA8 || c[2] == 0xA9 || c[2] == 0xAF))
       || (c[0] == 0xE2 && c[1] == 0x81 && c[2] == 0x9F)
       || (c[0] == 0xE3 && c[1] == 0x80 && c[2] == 0x80))
  }

  /** The length of the white space character at the start of a text, 0 if there is none. */
  function SpaceAtStart(s: Bytes): (n: nat)
    ensures n <= |s| && (n > 0 ==> IsSpaceChar(s[..n]))
  {
    if |s| >= 1 && IsSpaceChar(s[..1]) then 1
    else if |s| >= 2 && IsSpaceChar(s[..2]) then 2
    else if |s| >= 3 && IsSpaceChar(s[..3]) then 3
    else 0
  }

  function SpaceAtEnd(s: Bytes): (n: nat)
    ensures n <= |s| && (n > 0 ==> IsSpaceChar(s[|s| - n..]))
  {
    if |s| >= 1 && IsSpaceChar(s[|s| - 1..]) then 1
    else if |s| >= 2 && IsSpaceChar(s[|s| - 2..]) then 2
    else if |s| >= 3 && IsSpaceChar(s[|s| - 3..]) then 3
    else 0
  }

  function StripLeft(s: Bytes): Bytes {
    var n := SpaceAtStart(s);
    if n > 0 then StripLeft(s[n..]) else s
  }

  function StripRight(s: Bytes): Bytes {
    var n := SpaceAtEnd(s);
    if n > 0 then StripRight(s[..|s| - n]) else s
  }

  function Strip(s: Bytes): Bytes {
    StripRight(StripLeft(s))
  }

  /** `str.find` of one character: its first position, or -1. */
  function Find(s: Bytes, b: byte): (i: int)
    ensures i == -1 ==> b !in s
    ensures i != -1 ==> 0 <= i < |s| && s[i] == b && b !in s[..i]
  {
    if s == [] then -1
    else if s[0] == b then 0
    else
      var i := Find(s[1..], b);
      if i == -1 then -1
      else
        assert s[..i + 1] == [s[0]] + s[1..][..i];
        i + 1
  }

  lemma {:induction false} FindIsFirst(s: Bytes, b: byte, i: nat)
    requires i < |s| && s[i] == b && b !in s[..i]
    ensures Find(s, b) == i
    decreases s
  {
    if i > 0 {
      assert s[0] == s[..i][0];
      assert s[1..][..i - 1] == s[..i][1..];
      FindIsFirst(s[1..], b, i - 1);
    }
  }

  /** The depth reached after the bytes from `start` up to `k`. */
  function DepthAt(s: Bytes, start: nat, k: nat, opener: byte, closer: byte): int
    requires start <= k <= |s|
  {
    Depth(s[start..k], opener, closer)
  }

  /** `end` is the first position at which the block opened at `start` is balanced. */
  ghost predicate IsBlockEnd(s: Bytes, start: nat, end: int, opener: byte, closer: byte) {
    && start <= end < |s|
    && DepthAt(s, start, end + 1, opener, closer) == 0
    && forall k | start < k <= end :: DepthAt(s, start, k, opener, closer) > 0
  }

  ghost predicate NeverCloses(s: Bytes, start: nat, opener: byte, closer: byte) {
    forall k | start < k <= |s| :: DepthAt(s, start, k, opener, closer) > 0
  }

  /** The inner loop: the end of the block, or -1 when the text ends first. */
  method BlockEnd(s: Bytes, start: nat, opener: byte, closer: byte) returns (end: int)
    requires start < |s| && s[start] == opener && opener != closer
    ensures end == -1 ==> NeverCloses(s, start, opener, closer)
    ensures end != -1 ==> IsBlockEnd(s, start, end, opener, closer)
  {
    var depth := 0;
    var i := start;
    while i < |s|
      invariant start <= i <= |s|
      invariant depth == Depth(s[start..i], opener, closer)
      invariant i > start ==> depth > 0
      invariant forall k | start < k <= i :: DepthAt(s, start, k, opener, closer) > 0
    {
      assert s[start..i + 1] == s[start..i] + [s[i]];
      DepthSnoc(s[start..i], s[i], opener, closer);
      if s[i] == opener {
        depth := depth + 1;
      } else if s[i] == closer {
        depth := depth - 1;
        if depth == 0 {
          return i;
        }
      }
      i := i + 1;
    }
    return -1;
  }

  /** At most one position is the end of a block. */
  lemma {:induction false} BlockEndUnique(s: Bytes, start: nat, e: int, f: int, opener: byte, closer: byte)
    requires IsBlockEnd(s, start, e, opener, closer) && IsBlockEnd(s, start, f, opener, closer)
    ensures e == f
  {
  }

  /** What one round of the fallback loop gives: the decoded block, or None to go on. */
  ghost predicate IsBlockResult(s: Bytes, opener: byte, closer: byte, loads: Bytes -> Option<Json>, r: Option<Json>) {
    var start := Find(s, opener);
    if start == -1 || NeverCloses(s, start, opener, closer) then r == None
    else exists end :: IsBlockEnd(s, start, end, opener, closer) && r == loads(s[start..end + 1])
  }

  method TryBlock(s: Bytes, opener: byte, closer: byte, loads: Bytes -> Option<Json>) returns (r: Option<Json>)
    requires opener != closer
    ensures IsBlockResult(s, opener, closer, loads, r)
  {
    var start := Find(s, opener);
    if start == -1 {
      return None;
    }
    var end := BlockEnd(s, start, opener, closer);
    if end == -1 {
      return None;
    }
    assert DepthAt(s, start, end + 1, opener, closer) == 0;
    r := loads(s[start..end + 1]);
  }

  /** The value that the fallback search must return. */
  ghost predicate IsFallback(s: Bytes, loads: Bytes -> Option<Json>, r: Option<Json>) {
    exists braces, brackets ::
      && IsBlockResult(s, LBRACE, RBRACE, loads, braces)
      && IsBlockResult(s, LBRACKET, RBRACKET, loads, brackets)
      && r == if braces.Some? then braces else brackets
  }

  ghost predicate IsExtraction(
    text: Bytes, loads: Bytes -> Option<Json>, fence: Bytes -> Option<Bytes>, r: Option<Json>)
  {
    var s := Strip(text);
    if s == [] then r == None
    else if loads(s).Some? then r == loads(s)
    else if fence(s).Some? then r == loads(fence(s).value)
    else IsFallback(s, loads, r)
  }

  /**
   `extract_json`. `loads` is the JSON decoder (None when it raises) and `fence` the text captured by
   the code-fence pattern, if it matches.
   */
  method ExtractJson(text: Bytes, loads: Bytes -> Option<Json>, fence: Bytes -> Option<Bytes>)
    returns (r: Option<Json>)
    ensures IsExtraction(text, loads, fence, r)
  {
    var s := Strip(text);
    if s == [] {
      return None;
    }
    if loads(s).Some? {
      return loads(s);
    }
    if fence(s).Some? {
      return loads(fence(s).value);
    }
    var braces := TryBlock(s, LBRACE, RBRACE, loads);
    var brackets := TryBlock(s, LBRACKET, RBRACKET, loads);
    r := if braces.Some? then braces else brackets;
  }
}
