/**
 Leftmost, non-overlapping replacement of a fixed-length pattern: the `replace_all` and `re.sub` of
 the two places where such a pattern is rewritten (access keys and observation markers).
 */
module Rewriting {

  /** One set of characters for each position of a match. */
  type Pattern = p: seq<set<char>> | |p| > 0 witness [{}]

  function Repeat(cls: set<char>, n: nat): seq<set<char>> {
    seq(n, _ => cls)
  }

  predicate MatchesAt(p: Pattern, s: string, i: nat) {
    i + |p| <= |s| && forall k | i <= k < i + |p| :: s[k] in p[k - i]
  }

  predicate IsMatch(p: Pattern, m: string) {
    |m| == |p| && MatchesAt(p, m, 0)
  }

  predicate HasMatch(p: Pattern, s: string) {
    exists i | 0 <= i < |s| :: MatchesAt(p, s, i)
  }

  /** The leftmost match at or after `from`, or -1. */
  function FindMatch(p: Pattern, s: string, from: nat): (i: int)
    requires from <= |s|
    ensures i == -1 || (from <= i && MatchesAt(p, s, i))
    ensures forall k: nat | from <= k < (if i == -1 then |s| else i) :: !MatchesAt(p, s, k)
    decreases |s| - from
  {
    if from == |s| then -1
    else if MatchesAt(p, s, from) then from
    else FindMatch(p, s, from + 1)
  }

  /** A text cut into stretches without a match and matches. */
  datatype Segment = Plain(text: string) | Match(text: string)

  function Segments(p: Pattern, s: string): (segs: seq<Segment>)
    decreases |s|
  {
    var i := FindMatch(p, s, 0);
    if i == -1 then [Plain(s)]
    else [Plain(s[..i]), Match(s[i..i + |p|])] + Segments(p, s[i + |p|..])
  }

  function Rewrite(seg: Segment, f: string -> string): string {
    if seg.Match? then f(seg.text) else seg.text
  }

  function Assemble(segs: seq<Segment>, f: string -> string): string {
    if segs == [] then "" else Rewrite(segs[0], f) + Assemble(segs[1..], f)
  }

  function Source(segs: seq<Segment>): string {
    if segs == [] then "" else segs[0].text + Source(segs[1..])
  }

  /** The library call: every match replaced, scanning from left to right. */
  function ReplaceAll(p: Pattern, f: string -> string, s: string): string
    decreases |s|
  {
    var i := FindMatch(p, s, 0);
    if i == -1 then s
    else s[..i] + f(s[i..i + |p|]) + ReplaceAll(p, f, s[i + |p|..])
  }

  // ---------------------------------------------------------------- what is kept

  predicate WellCut(p: Pattern, seg: Segment) {
    if seg.Match? then IsMatch(p, seg.text) else !HasMatch(p, seg.text)
  }

  lemma {:induction false} SegmentsSpell(p: Pattern, s: string)
    ensures Source(Segments(p, s)) == s
    decreases |s|
  {
    var i := FindMatch(p, s, 0);
    if i == -1 {
      assert Segments(p, s)[1..] == [];
    } else {
      var a, m, rest := s[..i], s[i..i + |p|], s[i + |p|..];
      SegmentsSpell(p, rest);
      SourceTwo(Plain(a), Match(m), Segments(p, rest));
      assert s == a + m + rest;
    }
  }

  lemma {:induction false} SourceTwo(a: Segment, b: Segment, rest: seq<Segment>)
    ensures Source([a, b] + rest) == a.text + b.text + Source(rest)
  {
    var segs := [a, b] + rest;
    assert segs[1..] == [b] + rest;
    assert segs[1..][1..] == rest;
  }

  lemma {:induction false} SegmentsWellCut(p: Pattern, s: string)
    ensures forall k | 0 <= k < |Segments(p, s)| :: WellCut(p, Segments(p, s)[k])
    decreases |s|
  {
    var i := FindMatch(p, s, 0);
    if i == -1 {
      assert !HasMatch(p, s);
    } else {
      var rest := Segments(p, s[i + |p|..]);
      SegmentsWellCut(p, s[i + |p|..]);
      PrefixHasNoMatch(p, s, i);
      assert WellCut(p, Plain(s[..i]));
      assert WellCut(p, Match(s[i..i + |p|]));
      var segs := Segments(p, s);
      assert segs == [Plain(s[..i]), Match(s[i..i + |p|])] + rest;
      forall k | 0 <= k < |segs| ensures WellCut(p, segs[k]) {
        if k >= 2 { assert segs[k] == rest[k - 2]; }
      }
    }
  }

  /** The segments spell the text, every match is one, and no plain stretch holds a match. */
  lemma {:induction false} SegmentsCover(p: Pattern, s: string)
    ensures Source(Segments(p, s)) == s
    ensures forall k | 0 <= k < |Segments(p, s)| :: WellCut(p, Segments(p, s)[k])
  {
    SegmentsSpell(p, s);
    SegmentsWellCut(p, s);
  }

  /** A match that lies within one part of a text is a match of that part. */
  lemma {:induction false} MatchInPart(p: Pattern, a: string, t: string, b: string, k: nat)
    requires |a| <= k && k + |p| <= |a| + |t|
    ensures MatchesAt(p, a + t + b, k) <==> MatchesAt(p, t, k - |a|)
  {
    var s := a + t + b;
    var i := k - |a|;
    if MatchesAt(p, s, k) {
      forall j | i <= j < i + |p| ensures t[j] in p[j - i] {
        assert s[|a| + j] == t[j] && s[|a| + j] in p[|a| + j - k];
      }
    }
    if MatchesAt(p, t, i) {
      forall j | k <= j < k + |p| ensures s[j] in p[j - k] {
        assert s[j] == t[j - |a|];
      }
    }
  }

  lemma {:induction false} PrefixHasNoMatch(p: Pattern, s: string, i: nat)
    requires i <= |s| && forall k: nat | k < i :: !MatchesAt(p, s, k)
    ensures !HasMatch(p, s[..i])
  {
    assert "" + s[..i] + s[i..] == s;
    forall k: nat | k < i ensures !MatchesAt(p, s[..i], k) {
      if k + |p| <= i { MatchInPart(p, "", s[..i], s[i..], k); }
    }
  }

  lemma {:induction false} AssembleTwo(a: Segment, b: Segment, rest: seq<Segment>, f: string -> string)
    ensures Assemble([a, b] + rest, f) == Rewrite(a, f) + Rewrite(b, f) + Assemble(rest, f)
  {
    var segs := [a, b] + rest;
    assert segs[1..] == [b] + rest;
    assert segs[1..][1..] == rest;
  }

  /** Replacement keeps every plain stretch, in order, and rewrites exactly the matches. */
  lemma {:induction false} ReplaceAllIsPiecewise(p: Pattern, f: string -> string, s: string)
    ensures ReplaceAll(p, f, s) == Assemble(Segments(p, s), f)
    decreases |s|
  {
    var i := FindMatch(p, s, 0);
    if i == -1 {
      assert Segments(p, s)[1..] == [];
    } else {
      ReplaceAllIsPiecewise(p, f, s[i + |p|..]);
      AssembleTwo(Plain(s[..i]), Match(s[i..i + |p|]), Segments(p, s[i + |p|..]), f);
    }
  }

  lemma {:induction false} NoMatchNoChange(p: Pattern, f: string -> string, s: string)
    requires !HasMatch(p, s)
    ensures ReplaceAll(p, f, s) == s
  {
    var i := FindMatch(p, s, 0);
    assert i == -1;
  }

  // ---------------------------------------------------------------- what is left

  /** No match begins inside the replacement: each start meets a character that does not fit. */
  predicate NothingStartsIn(p: Pattern, t: string) {
    forall a | 0 <= a < |t| :: BlockedFrom(p, t, a)
  }

  predicate BlockedFrom(p: Pattern, t: string, a: nat) {
    exists j | a <= j < |t| :: j - a < |p| && t[j] !in p[j - a]
  }

  /** From offset `d` of the pattern on, the text fits it as far as both go. */
  predicate FitsFrom(p: Pattern, t: string, d: nat) {
    forall j | 0 <= j < |t| && d + j < |p| :: t[j] in p[d + j]
  }

  /** A match that runs into the replacement would have run into the original text as well. */
  predicate NothingRunsInto(p: Pattern, m: string, t: string) {
    forall d | 1 <= d < |p| :: FitsFrom(p, t, d) ==> FitsFrom(p, m, d)
  }

  /** The replacement `t` of the match `m` cannot take part in a new match. */
  predicate Seals(p: Pattern, m: string, t: string) {
    NothingStartsIn(p, t) && NothingRunsInto(p, m, t)
  }

  lemma {:induction false} MatchInside(p: Pattern, a: string, t: string, b: string)
    requires HasMatch(p, t)
    ensures HasMatch(p, a + t + b)
  {
    var i: nat :| i < |t| && MatchesAt(p, t, i);
    MatchInPart(p, a, t, b, |a| + i);
  }

  lemma {:induction false} NoMatchAfter(p: Pattern, head: string, rest: string, k: nat)
    requires |head| <= k && !HasMatch(p, rest)
    ensures !MatchesAt(p, head + rest, k)
  {
    assert head + rest + "" == head + rest;
    if k + |p| <= |head| + |rest| { MatchInPart(p, head, rest, "", k); }
  }

  lemma {:induction false} NoMatchInside(p: Pattern, head: string, t: string, rest: string, a: nat)
    requires a < |t| && BlockedFrom(p, t, a)
    ensures !MatchesAt(p, head + t + rest, |head| + a)
  {
    var out := head + t + rest;
    var j :| a <= j < |t| && j - a < |p| && t[j] !in p[j - a];
    assert out[|head| + j] == t[j];
  }

  lemma {:induction false} MatchBeforeWasThere(p: Pattern, s: string, i: nat, t: string, rest: string, k: nat)
    requires k < i && MatchesAt(p, s, i) && NothingRunsInto(p, s[i..i + |p|], t)
    requires MatchesAt(p, s[..i] + t + rest, k)
    ensures MatchesAt(p, s, k)
  {
    var out := s[..i] + t + rest;
    var d := i - k;
    var m := s[i..i + |p|];
    forall j | k <= j < i && j < k + |p| ensures s[j] in p[j - k] {
      assert out[j] == s[j];
    }
    if d < |p| {
      forall j | 0 <= j < |t| && d + j < |p| ensures t[j] in p[d + j] {
        assert out[i + j] == t[j];
      }
      assert FitsFrom(p, t, d);
      assert FitsFrom(p, m, d);
      forall j | i <= j < k + |p| ensures s[j] in p[j - k] {
        assert s[j] == m[j - i];
      }
    }
  }

  lemma {:induction false} NoMatchBefore(p: Pattern, s: string, i: nat, t: string, rest: string, k: nat)
    requires k < i && MatchesAt(p, s, i) && !MatchesAt(p, s, k)
    requires NothingRunsInto(p, s[i..i + |p|], t)
    ensures !MatchesAt(p, s[..i] + t + rest, k)
  {
    if MatchesAt(p, s[..i] + t + rest, k) {
      MatchBeforeWasThere(p, s, i, t, rest, k);
    }
  }

  lemma {:induction false} NoNewMatchAt(p: Pattern, s: string, i: nat, t: string, rest: string, k: nat)
    requires MatchesAt(p, s, i) && forall j: nat | j < i :: !MatchesAt(p, s, j)
    requires Seals(p, s[i..i + |p|], t) && !HasMatch(p, rest)
    ensures !MatchesAt(p, s[..i] + t + rest, k)
  {
    if k < i {
      NoMatchBefore(p, s, i, t, rest, k);
    } else if k < i + |t| {
      NoMatchInside(p, s[..i], t, rest, k - i);
    } else {
      NoMatchAfter(p, s[..i] + t, rest, k);
    }
  }

  /** A pass whose replacements seal leaves no match anywhere, inside a replacement or across one. */
  lemma {:induction false} SealedPassIsComplete(p: Pattern, f: string -> string, s: string)
    requires forall m | IsMatch(p, m) && m in MatchTexts(p, s) :: Seals(p, m, f(m))
    ensures !HasMatch(p, ReplaceAll(p, f, s))
    decreases |s|
  {
    hide Seals, Source;
    var i := FindMatch(p, s, 0);
    if i != -1 {
      var m := s[i..i + |p|];
      var rest := s[i + |p|..];
      MatchTextsStep(p, s);
      SegmentsCover(p, s);
      assert IsMatch(p, m) by { assert Segments(p, s)[1] == Match(m); }
      SealedPassIsComplete(p, f, rest);
      forall k: nat ensures !MatchesAt(p, ReplaceAll(p, f, s), k) {
        NoNewMatchAt(p, s, i, f(m), ReplaceAll(p, f, rest), k);
      }
    }
  }

  /** The matches that a pass replaces. */
  function MatchTexts(p: Pattern, s: string): set<string> {
    set seg | seg in Segments(p, s) && seg.Match? :: seg.text
  }

  lemma {:induction false} MatchTextsStep(p: Pattern, s: string)
    requires FindMatch(p, s, 0) != -1
    ensures var i := FindMatch(p, s, 0);
            MatchTexts(p, s) == {s[i..i + |p|]} + MatchTexts(p, s[i + |p|..])
  {
    var i := FindMatch(p, s, 0);
    var segs := Segments(p, s);
    var rest := Segments(p, s[i + |p|..]);
    assert segs[1] == Match(s[i..i + |p|]);
    forall seg | seg in rest ensures seg in segs {
      var k :| 0 <= k < |rest| && rest[k] == seg;
      assert segs[k + 2] == seg;
    }
  }
}
