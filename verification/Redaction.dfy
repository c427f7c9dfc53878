/** Secret redaction: the access-key pass exactly, and the walk over parsed evidence for any rules. */
module Redaction {
  import opened Wrappers
  import opened Rewriting
  import opened Strings
  import T = TreeRedaction

  // ---------------------------------------------------------------- the access-key pass

  const UPPER_OR_DIGIT: set<char> := set c: char | '0' <= c <= '9' || 'A' <= c <= 'Z'
  const LETTER_OR_DIGIT: set<char> :=
    set c: char | '0' <= c <= '9' || 'A' <= c <= 'Z' || 'a' <= c <= 'z'

  const AWS_KEY: Pattern := [{'A'}, {'K'}, {'I'}, {'A'}] + Repeat(UPPER_OR_DIGIT, 16)
  const GITHUB_PAT: Pattern := [{'g'}, {'h'}, {'p'}, {'_'}] + Repeat(LETTER_OR_DIGIT, 36)

  /** The correlation handle of a secret: eight lower-case hexadecimal digits. */
  predicate IsHandle(h: string) {
    |h| == 8 && forall i | 0 <= i < 8 :: '0' <= h[i] <= '9' || 'a' <= h[i] <= 'f'
  }

  /** Any hash to such handles. */
  type Hash = h: string -> string | forall m :: IsHandle(h(m)) witness (m => "00000000")

  function Token(id: string, handle: string): string {
    "REDACTED:" + id + ":" + handle
  }

  const AWS_ID := "aws_access_key_id"
  const GITHUB_ID := "github_pat"

  function AwsPass(hash: Hash, s: string): string {
    ReplaceAll(AWS_KEY, m => Token(AWS_ID, hash(m)), s)
  }

  function GithubPass(hash: Hash, s: string): string {
    ReplaceAll(GITHUB_PAT, m => Token(GITHUB_ID, hash(m)), s)
  }

  /** A token names the rule and carries the handle. */
  lemma {:induction false} TokenReadsBack(id: string, h: string)
    requires IsHandle(h) && ':' !in id
    ensures Split(':', Token(id, h)) == ["REDACTED", id, h]
  {
    assert Token(id, h) == "REDACTED" + [':'] + (id + [':'] + h);
    SplitOnce(':', id, h);
    FindAfter(':', "REDACTED", id + [':'] + h);
    var t := Token(id, h);
    assert t[..8] == "REDACTED" && t[9..] == id + [':'] + h;
  }

  lemma {:induction false} HandleHasNoUpper(h: string)
    requires IsHandle(h)
    ensures forall a | 27 <= a < 35 :: Token(AWS_ID, h)[a] != 'A'
  {
    forall a | 27 <= a < 35 ensures Token(AWS_ID, h)[a] != 'A' {
      assert Token(AWS_ID, h)[a] == h[a - 27];
    }
  }

  /** No key starts in a token: after its `REDACTED:` there is no upper-case letter. */
  lemma {:induction false} NoKeyStartsInToken(h: string)
    requires IsHandle(h)
    ensures NothingStartsIn(AWS_KEY, Token(AWS_ID, h))
  {
    var t := Token(AWS_ID, h);
    assert t == "REDACTED:aws_access_key_id:" + h;
    forall a | 0 <= a < |t| ensures BlockedFrom(AWS_KEY, t, a) {
      if t[a] == 'A' {
        HandleHasNoUpper(h);
        assert a == 3;
        assert t[4] == 'C' && t[4] !in AWS_KEY[1];
      } else {
        assert t[a] !in AWS_KEY[a - a];
      }
    }
  }

  /** A key that runs into a token would have run into the secret that the token replaced. */
  lemma {:induction false} NoKeyRunsIntoToken(m: string, h: string)
    requires IsMatch(AWS_KEY, m) && IsHandle(h)
    ensures NothingRunsInto(AWS_KEY, m, Token(AWS_ID, h))
  {
    var t := Token(AWS_ID, h);
    forall d | 1 <= d < 20 ensures FitsFrom(AWS_KEY, t, d) ==> FitsFrom(AWS_KEY, m, d) {
      if d < 4 {
        assert t[0] == 'R' && t[0] !in AWS_KEY[d + 0];
      } else if d + 8 < 20 {
        assert t[8] == ':' && t[8] !in AWS_KEY[d + 8];
      } else {
        forall j | 0 <= j < |m| && d + j < 20 ensures m[j] in AWS_KEY[d + j] {
          assert m[j] in AWS_KEY[j - 0];
        }
      }
    }
  }

  /** After the access-key pass no key is left, in a token or across one, and the pass is idempotent. */
  lemma {:induction false} AwsPassIsComplete(hash: Hash, s: string)
    ensures !HasMatch(AWS_KEY, AwsPass(hash, s))
    ensures AwsPass(hash, AwsPass(hash, s)) == AwsPass(hash, s)
  {
    var f := m => Token(AWS_ID, hash(m));
    forall m | IsMatch(AWS_KEY, m) && m in MatchTexts(AWS_KEY, s) ensures Seals(AWS_KEY, m, f(m)) {
      NoKeyStartsInToken(hash(m));
      NoKeyRunsIntoToken(m, hash(m));
    }
    SealedPassIsComplete(AWS_KEY, f, s);
    assert AwsPass(hash, s) == ReplaceAll(AWS_KEY, f, s);
    NoMatchNoChange(AWS_KEY, m => Token(AWS_ID, hash(m)), AwsPass(hash, s));
  }

  /** The text outside the secrets is kept, piece by piece and in order. */
  lemma {:induction false} AwsPassIsPiecewise(hash: Hash, s: string)
    ensures var segs := Segments(AWS_KEY, s);
            && Source(segs) == s
            && (forall k | 0 <= k < |segs| :: WellCut(AWS_KEY, segs[k]))
            && AwsPass(hash, s) == Assemble(segs, m => Token(AWS_ID, hash(m)))
  {
    SegmentsCover(AWS_KEY, s);
    ReplaceAllIsPiecewise(AWS_KEY, m => Token(AWS_ID, hash(m)), s);
  }

  /** The first rule of the table. */
  function AwsRule(hash: Hash): T.Rule {
    T.Rule(AWS_ID, s => HasMatch(AWS_KEY, s), s => AwsPass(hash, s))
  }

  // ---------------------------------------------------------------- what a later pass can undo

  /** The text ends with `AKIA` and then 8 to 15 capitals or digits. */
  predicate EndsLikeKey(a: string) {
    exists n: nat | 12 <= n < 20 :: EndsWithKeyStart(a, n)
  }

  predicate EndsWithKeyStart(a: string, n: nat) {
    n <= |a| && IsKeyStart(a[|a| - n..])
  }

  predicate IsKeyStart(a: string) {
    |a| <= |AWS_KEY| && forall j | 0 <= j < |a| :: a[j] in AWS_KEY[j]
  }

  /** The id of a rule other than the first one holds no capital A. */
  type RuleId = id: string | forall i | 0 <= i < |id| :: id[i] != 'A' witness ""

  lemma {:induction false} CapitalsOfToken(id: string, h: string, x: nat)
    requires x < 8
    ensures |Token(id, h)| > 8 && Token(id, h)[x] in UPPER_OR_DIGIT && Token(id, h)[8] == ':'
  {
    var t := Token(id, h);
    assert t == "REDACTED:" + (id + ":" + h);
    assert t[0] == 'R' && t[1] == 'E' && t[2] == 'D' && t[3] == 'A';
    assert t[4] == 'C' && t[5] == 'T' && t[6] == 'E' && t[7] == 'D';
  }

  lemma {:induction false} TokenCompletesKey(a: string, id: string, h: string, rest: string)
    requires EndsLikeKey(a)
    ensures HasMatch(AWS_KEY, a + Token(id, h) + rest)
  {
    var n: nat :| 12 <= n < 20 && EndsWithKeyStart(a, n);
    var t := Token(id, h);
    var out := a + t + rest;
    var k := |a| - n;
    forall j | k <= j < k + 20 ensures out[j] in AWS_KEY[j - k] {
      if j < |a| {
        assert out[j] == a[|a| - n..][j - k];
      } else {
        CapitalsOfToken(id, h, j - |a|);
        assert out[j] == t[j - |a|] && AWS_KEY[j - k] == UPPER_OR_DIGIT;
      }
    }
    assert MatchesAt(AWS_KEY, out, k);
  }

  lemma {:induction false} NoKeyStartsIn(id: RuleId, h: string, a: nat)
    requires IsHandle(h) && a < |Token(id, h)|
    ensures BlockedFrom(AWS_KEY, Token(id, h), a)
  {
    var t := Token(id, h);
    assert t == "REDACTED:" + id + ":" + h;
    if a == 3 {
      assert t[4] == 'C' && t[4] !in AWS_KEY[4 - a];
    } else {
      assert t[a] != 'A' by {
        if 9 <= a < 9 + |id| { assert t[a] == id[a - 9]; }
        if 10 + |id| <= a { assert t[a] == h[a - 10 - |id|]; }
      }
      assert t[a] !in AWS_KEY[a - a];
    }
  }

  lemma {:induction false} ColonIsNoKeyChar(out: string, k: nat, q: nat)
    requires MatchesAt(AWS_KEY, out, k) && k <= q < |out| && out[q] == ':'
    ensures k + 20 <= q
  {
    assert forall j | 0 <= j < 20 :: ':' !in AWS_KEY[j];
  }

  lemma {:induction false} KeyCrossesInto(a: string, id: string, h: string, rest: string, k: nat)
    requires MatchesAt(AWS_KEY, a + Token(id, h) + rest, k) && k < |a| < k + 20
    ensures EndsLikeKey(a)
  {
    var t := Token(id, h);
    var out := a + t + rest;
    var n := |a| - k;
    CapitalsOfToken(id, h, 0);
    assert out[|a| + 8] == t[8] == ':';
    ColonIsNoKeyChar(out, k, |a| + 8);
    forall j | 0 <= j < n ensures a[|a| - n..][j] in AWS_KEY[j] {
      assert out[k + j] == a[k + j] && out[k + j] in AWS_KEY[k + j - k];
    }
    assert EndsWithKeyStart(a, n);
  }

  lemma {:induction false} TokenDecides(a: string, id: RuleId, h: string, r: string)
    requires IsHandle(h)
    ensures HasMatch(AWS_KEY, a + Token(id, h) + r)
       <==> HasMatch(AWS_KEY, a) || EndsLikeKey(a) || HasMatch(AWS_KEY, r)
  {
    var t := Token(id, h);
    var out := a + t + r;
    assert "" + a + (t + r) == out && a + t + r + "" == out;
    if HasMatch(AWS_KEY, a) {
      MatchInside(AWS_KEY, "", a, t + r);
    } else if EndsLikeKey(a) {
      TokenCompletesKey(a, id, h, r);
    } else if HasMatch(AWS_KEY, r) {
      MatchInside(AWS_KEY, a + t, r, "");
    } else {
      forall k: nat ensures !MatchesAt(AWS_KEY, out, k) {
        NoKeyAround(a, id, h, r, k);
      }
    }
  }

  lemma {:induction false} NoKeyAround(a: string, id: RuleId, h: string, r: string, k: nat)
    requires IsHandle(h) && !HasMatch(AWS_KEY, a) && !EndsLikeKey(a) && !HasMatch(AWS_KEY, r)
    ensures !MatchesAt(AWS_KEY, a + Token(id, h) + r, k)
  {
    var t := Token(id, h);
    if k + 20 <= |a| {
      NoMatchWithin(a, t + r, k);
      assert a + (t + r) == a + t + r;
    } else if k < |a| {
      if MatchesAt(AWS_KEY, a + t + r, k) { KeyCrossesInto(a, id, h, r, k); }
    } else if k < |a| + |t| {
      NoKeyStartsIn(id, h, k - |a|);
      NoMatchInside(AWS_KEY, a, t, r, k - |a|);
    } else {
      NoMatchAfter(AWS_KEY, a + t, r, k);
    }
  }

  lemma {:induction false} NoMatchWithin(a: string, b: string, k: nat)
    requires !HasMatch(AWS_KEY, a) && k + 20 <= |a|
    ensures !MatchesAt(AWS_KEY, a + b, k)
  {
    MatchInPart(AWS_KEY, "", a, b, k);
    assert "" + a + b == a + b;
  }

  // ---------------------------------------------------------------- one later rule

  /** A text cut into kept stretches and secrets in turn, as any expression engine cuts it. */
  predicate IsCut(segs: seq<Segment>) {
    |segs| % 2 == 1 && forall k | 0 <= k < |segs| :: segs[k].Plain? <==> k % 2 == 0
  }

  /** What a rule's expression makes of each text. */
  type Cutting = c: string -> seq<Segment> | forall s :: IsCut(c(s)) && Source(c(s)) == s
    witness (s => [Plain(s)])

  function TokenFor(id: string, hash: Hash): string -> string {
    m => Token(id, hash(m))
  }

  predicate KeptKeyAt(segs: seq<Segment>, k: nat) {
    k < |segs| && segs[k].Plain? && HasMatch(AWS_KEY, segs[k].text)
  }

  predicate ExposedAt(segs: seq<Segment>, k: nat) {
    k + 1 < |segs| && segs[k].Plain? && segs[k + 1].Match? && EndsLikeKey(segs[k].text)
  }

  /** A kept stretch holds a key. */
  predicate KeepsKey(segs: seq<Segment>) {
    exists k: nat | k < |segs| :: KeptKeyAt(segs, k)
  }

  /** A secret stands right after text that ends like a key. */
  predicate ExposesKey(segs: seq<Segment>) {
    exists k: nat | k < |segs| :: ExposedAt(segs, k)
  }

  lemma {:induction false} ShiftedWitness(segs: seq<Segment>)
    requires |segs| >= 2 && segs[0].Plain? && segs[1].Match?
    ensures KeepsKey(segs) <==> HasMatch(AWS_KEY, segs[0].text) || KeepsKey(segs[2..])
    ensures ExposesKey(segs) <==> EndsLikeKey(segs[0].text) || ExposesKey(segs[2..])
  {
    hide HasMatch, EndsLikeKey;
    var rest := segs[2..];
    assert forall k: nat | k < |rest| :: rest[k] == segs[k + 2];
    assert KeptKeyAt(segs, 0) <==> HasMatch(AWS_KEY, segs[0].text);
    assert ExposedAt(segs, 0) <==> EndsLikeKey(segs[0].text);
    forall k: nat ensures KeptKeyAt(rest, k) <==> KeptKeyAt(segs, k + 2)
                  ensures ExposedAt(rest, k) <==> ExposedAt(segs, k + 2) {
    }
    if k: nat :| k < |segs| && KeptKeyAt(segs, k) {
      assert k >= 2 ==> KeptKeyAt(rest, k - 2);
    }
    if k: nat :| k < |segs| && ExposedAt(segs, k) {
      assert k >= 2 ==> ExposedAt(rest, k - 2);
    }
    if k: nat :| k < |rest| && KeptKeyAt(rest, k) {
      assert KeptKeyAt(segs, k + 2);
    }
    if k: nat :| k < |rest| && ExposedAt(rest, k) {
      assert ExposedAt(segs, k + 2);
    }
  }

  lemma {:induction false} OneStretch(segs: seq<Segment>)
    requires |segs| == 1 && segs[0].Plain?
    ensures KeepsKey(segs) <==> HasMatch(AWS_KEY, segs[0].text)
    ensures !ExposesKey(segs)
  {
    assert KeptKeyAt(segs, 0) <==> HasMatch(AWS_KEY, segs[0].text);
  }

  /**
   Exactly when a text holds a key after a later rule, whatever its expression: when a stretch that it
   kept holds one, or a secret that it replaced stood right after `AKIA` and 8 to 15 capitals or digits.
   */
  lemma {:induction false} PassHoldsKeyIff(segs: seq<Segment>, id: RuleId, hash: Hash)
    requires IsCut(segs)
    ensures HasMatch(AWS_KEY, Assemble(segs, TokenFor(id, hash))) <==> KeepsKey(segs) || ExposesKey(segs)
    decreases |segs|
  {
    hide HasMatch, EndsLikeKey, KeepsKey, ExposesKey, Token;
    var f := TokenFor(id, hash);
    if |segs| == 1 {
      OneStretch(segs);
      OnlyStretch(segs, f);
    } else {
      var a, rest := segs[0].text, segs[2..];
      CutTail(segs);
      hide IsCut, Assemble;
      PassHoldsKeyIff(rest, id, hash);
      AssembleTwo(segs[0], segs[1], rest, f);
      TokenDecides(a, id, hash(segs[1].text), Assemble(rest, f));
      ShiftedWitness(segs);
    }
  }

  lemma {:induction false} CutTail(segs: seq<Segment>)
    requires IsCut(segs) && |segs| != 1
    ensures |segs| >= 3 && segs[0].Plain? && segs[1].Match? && IsCut(segs[2..])
    ensures segs == [segs[0], segs[1]] + segs[2..]
  {
    forall k | 0 <= k < |segs| - 2 ensures segs[2..][k] == segs[k + 2] && (segs[k + 2].Plain? <==> k % 2 == 0) {
      assert (k + 2) % 2 == k % 2;
    }
  }

  lemma {:induction false} CutCons(a: string, m: string, rest: seq<Segment>)
    requires IsCut(rest)
    ensures IsCut([Plain(a), Match(m)] + rest)
  {
    var segs := [Plain(a), Match(m)] + rest;
    forall k | 2 <= k < |segs| ensures segs[k] == rest[k - 2] && (segs[k].Plain? <==> k % 2 == 0) {
      assert (k - 2) % 2 == k % 2;
    }
  }

  lemma {:induction false} OnlyStretch(segs: seq<Segment>, f: string -> string)
    requires |segs| == 1 && segs[0].Plain?
    ensures Assemble(segs, f) == segs[0].text && Source(segs) == segs[0].text
  {
    assert segs[1..] == [];
    assert segs[0].text + "" == segs[0].text;
  }

  lemma {:induction false} KeptKeyIsFromSource(segs: seq<Segment>)
    requires KeepsKey(segs)
    ensures HasMatch(AWS_KEY, Source(segs))
    decreases |segs|
  {
    var k: nat :| k < |segs| && KeptKeyAt(segs, k);
    var rest := Source(segs[1..]);
    assert "" + segs[0].text + rest == Source(segs) && segs[0].text + rest + "" == Source(segs);
    if k == 0 {
      MatchInside(AWS_KEY, "", segs[0].text, rest);
    } else {
      assert KeptKeyAt(segs[1..], k - 1);
      KeptKeyIsFromSource(segs[1..]);
      MatchInside(AWS_KEY, segs[0].text, rest, "");
    }
  }

  lemma {:induction false} SegmentsAreCut(p: Pattern, s: string)
    ensures IsCut(Segments(p, s)) && Source(Segments(p, s)) == s
    decreases |s|
  {
    hide Source;
    var i := FindMatch(p, s, 0);
    SegmentsSpell(p, s);
    if i != -1 {
      SegmentsAreCut(p, s[i + |p|..]);
      CutCons(s[..i], s[i..i + |p|], Segments(p, s[i + |p|..]));
    }
  }

  /** The same for a rule whose pattern has a fixed length, with the leftmost matches. */
  lemma {:induction false} LaterPassExposesKeyIff(p: Pattern, id: RuleId, hash: Hash, s: string)
    ensures HasMatch(AWS_KEY, ReplaceAll(p, TokenFor(id, hash), s))
       <==> KeepsKey(Segments(p, s)) || ExposesKey(Segments(p, s))
  {
    SegmentsAreCut(p, s);
    ReplaceAllIsPiecewise(p, TokenFor(id, hash), s);
    PassHoldsKeyIff(Segments(p, s), id, hash);
  }

  // ---------------------------------------------------------------- the whole table

  /** A rule after the first: its id and how its expression cuts a text. */
  datatype Later = Later(id: RuleId, cut: Cutting)

  /** `is_match` and `replace_all` of such a rule. */
  function RuleOf(p: Later, hash: Hash): T.Rule {
    T.Rule(p.id, s => |p.cut(s)| > 1, s => Assemble(p.cut(s), TokenFor(p.id, hash)))
  }

  /** The table: the access-key rule and then the later ones. */
  function Table(hash: Hash, later: seq<Later>): seq<T.Rule> {
    if later == [] then [AwsRule(hash)]
    else Table(hash, later[..|later| - 1]) + [RuleOf(later[|later| - 1], hash)]
  }

  /** The ids of the eight rules after the first. */
  const LATER_IDS: seq<RuleId> := [
    "aws_secret_access_key", "private_key_pem", "jwt", "bearer_token", "github_pat", "slack_token",
    "password_assignment", "generic_secret_assignment"]

  /** The rules of the source, whatever their expressions match. */
  function LaterRules(cuts: seq<Cutting>): seq<Later>
    requires |cuts| == |LATER_IDS|
  {
    seq(|cuts|, i requires 0 <= i < |cuts| => Later(LATER_IDS[i], cuts[i]))
  }

  /** The text after the first rule and these later ones. */
  function Redacted(hash: Hash, later: seq<Later>, s: string): string {
    T.RedactText(Table(hash, later), s).text
  }

  lemma {:induction false} FirstRuleLeavesNoKey(hash: Hash, s: string)
    ensures !HasMatch(AWS_KEY, Redacted(hash, [], s))
  {
    var rules := Table(hash, []);
    assert rules[..0] == [];
    assert T.RedactText(rules[..0], s) == T.Redacted(s, []);
    AwsPassIsComplete(hash, s);
  }

  lemma {:induction false} RuleApplies(p: Later, hash: Hash, s: string)
    ensures (if RuleOf(p, hash).hits(s) then RuleOf(p, hash).rewrite(s) else s)
         == Assemble(p.cut(s), TokenFor(p.id, hash))
  {
    var segs := p.cut(s);
    assert IsCut(segs) && Source(segs) == s;
    if |segs| == 1 { OnlyStretch(segs, TokenFor(p.id, hash)); }
    hide Assemble, Source;
  }

  /** A later rule cuts what the rules before it left; a rule that does not fire cuts nothing. */
  lemma {:induction false} LastRuleAssembles(hash: Hash, later: seq<Later>, s: string)
    requires later != []
    ensures var n := |later| - 1;
            Redacted(hash, later, s)
              == Assemble(later[n].cut(Redacted(hash, later[..n], s)), TokenFor(later[n].id, hash))
  {
    var n := |later| - 1;
    T.RedactTextSnoc(Table(hash, later[..n]), RuleOf(later[n], hash), s);
    RuleApplies(later[n], hash, Redacted(hash, later[..n], s));
    hide T.RedactText, Assemble, RuleOf;
  }

  /** How rule `j` cuts the text that reaches it. */
  function CutAt(hash: Hash, later: seq<Later>, s: string, j: nat): seq<Segment>
    requires j < |later|
  {
    later[j].cut(Redacted(hash, later[..j], s))
  }

  /** Rule `j` exposes a key, and no rule after it replaces all keys again. */
  predicate ReturnsAt(hash: Hash, later: seq<Later>, s: string, j: nat) {
    && j < |later| && ExposesKey(CutAt(hash, later, s, j))
    && forall i | j < i < |later| :: KeepsKey(CutAt(hash, later, s, i))
  }

  predicate KeyReturns(hash: Hash, later: seq<Later>, s: string) {
    exists j: nat | j < |later| :: ReturnsAt(hash, later, s, j)
  }

  lemma {:induction false} SameCuts(hash: Hash, later: seq<Later>, s: string, j: nat)
    requires j < |later| - 1
    ensures CutAt(hash, later[..|later| - 1], s, j) == CutAt(hash, later, s, j)
  {
    assert later[..|later| - 1][..j] == later[..j];
  }

  lemma {:induction false} ReturnsStep(hash: Hash, later: seq<Later>, s: string)
    requires later != []
    ensures var n := |later| - 1;
            KeyReturns(hash, later, s) <==>
              || ExposesKey(CutAt(hash, later, s, n))
              || (KeyReturns(hash, later[..n], s) && KeepsKey(CutAt(hash, later, s, n)))
  {
    hide ExposesKey, KeepsKey, CutAt;
    var n := |later| - 1;
    var init := later[..n];
    forall j: nat | j < n
      ensures ReturnsAt(hash, later, s, j) <==> ReturnsAt(hash, init, s, j) && KeepsKey(CutAt(hash, later, s, n))
    {
      forall i: nat | i < n ensures CutAt(hash, init, s, i) == CutAt(hash, later, s, i) {
        SameCuts(hash, later, s, i);
      }
    }
    assert ReturnsAt(hash, later, s, n) <==> ExposesKey(CutAt(hash, later, s, n));
  }

  /**
   Exactly when a redacted string holds a key: some later rule exposed one, and in every rule after it
   a kept stretch still held one.
   */
  lemma {:induction false} RedactedHasKeyIff(hash: Hash, later: seq<Later>, s: string)
    ensures HasMatch(AWS_KEY, Redacted(hash, later, s)) <==> KeyReturns(hash, later, s)
    decreases later
  {
    if later == [] {
      FirstRuleLeavesNoKey(hash, s);
    } else {
      hide HasMatch, KeyReturns, Redacted, Assemble, ExposesKey, KeepsKey;
      var n := |later| - 1;
      var segs := CutAt(hash, later, s, n);
      RedactedHasKeyIff(hash, later[..n], s);
      LastRuleAssembles(hash, later, s);
      PassHoldsKeyIff(segs, later[n].id, hash);
      if KeepsKey(segs) { KeptKeyIsFromSource(segs); }
      ReturnsStep(hash, later, s);
    }
  }

  predicate HoldsKey(v: Option<T.Value>) {
    v.Some? && v.value.Text? && HasMatch(AWS_KEY, v.value.text)
  }

  predicate KeyReturnsIn(hash: Hash, later: seq<Later>, v: Option<T.Value>) {
    v.Some? && v.value.Text? && KeyReturns(hash, later, v.value.text)
  }

  lemma {:induction false} NodeHasKeyIff(
    hash: Hash, later: seq<Later>, node: Option<T.Value>, out: Option<T.Value>)
    requires T.NodeRedacted(Table(hash, later), node, out)
    ensures HoldsKey(out) <==> KeyReturnsIn(hash, later, node)
  {
    hide KeyReturns, HasMatch, Table, T.RedactText, T.Trace;
    if node.Some? && node.value.Text? {
      RedactedHasKeyIff(hash, later, node.value.text);
      T.RedactTextFollowsTrace(Table(hash, later), node.value.text);
      assert out.value.text == Redacted(hash, later, node.value.text);
    }
  }

  /** For a whole document under the whole table, string by string and so for all of them. */
  lemma {:induction false} RedactedTreeHasKeyIff(hash: Hash, cuts: seq<Cutting>, v: T.Value, r: T.Value)
    requires |cuts| == |LATER_IDS| && T.IsRedactionOf(Table(hash, LaterRules(cuts)), v, r)
    ensures forall path: seq<nat> ::
              HoldsKey(T.At(r, path)) <==> KeyReturnsIn(hash, LaterRules(cuts), T.At(v, path))
  {
    var later := LaterRules(cuts);
    forall path: seq<nat> ensures HoldsKey(T.At(r, path)) <==> KeyReturnsIn(hash, later, T.At(v, path)) {
      NodeHasKeyIff(hash, later, T.At(v, path), T.At(r, path));
    }
  }

  /**
   A later pass can complete a key again: eight upper-case characters after `AKIA` and then a token
   make a match, so a redacted string is not always free of matches of the first rule.
   */
  lemma {:induction false} LaterTokenCompletesKey(hash: Hash, u: string, pat: string)
    requires |u| == 8 && forall i | 0 <= i < 8 :: u[i] in UPPER_OR_DIGIT
    requires IsMatch(GITHUB_PAT, pat) && !HasMatch(AWS_KEY, pat)
    ensures AwsPass(hash, "AKIA" + u + pat) == "AKIA" + u + pat
    ensures GithubPass(hash, AwsPass(hash, "AKIA" + u + pat)) == "AKIA" + u + Token(GITHUB_ID, hash(pat))
    ensures MatchesAt(AWS_KEY, "AKIA" + u + Token(GITHUB_ID, hash(pat)), 0)
  {
    var s := "AKIA" + u + pat;
    NoKeyBeforePat(u, pat);
    NoMatchNoChange(AWS_KEY, m => Token(AWS_ID, hash(m)), s);
    hide MatchesAt, HasMatch, Token;
    GithubReplaces(hash, u, pat);
    HeadAndTokenMatch(u, GITHUB_ID, hash(pat));
  }

  lemma {:induction false} GithubReplaces(hash: Hash, u: string, pat: string)
    requires |u| == 8 && forall i | 0 <= i < 8 :: u[i] in UPPER_OR_DIGIT
    requires IsMatch(GITHUB_PAT, pat)
    ensures GithubPass(hash, "AKIA" + u + pat) == "AKIA" + u + Token(GITHUB_ID, hash(pat))
  {
    var s := "AKIA" + u + pat;
    PatIsFirst(u, pat);
    hide MatchesAt, Token;
    assert s[..12] == "AKIA" + u && s[12..12 + |GITHUB_PAT|] == pat && s[12 + |GITHUB_PAT|..] == "";
    var f := m => Token(GITHUB_ID, hash(m));
    assert ReplaceAll(GITHUB_PAT, f, "") == "";
    assert ReplaceAll(GITHUB_PAT, f, s) == "AKIA" + u + f(pat) + "";
    assert "AKIA" + u + f(pat) + "" == "AKIA" + u + f(pat);
  }

  lemma {:induction false} HeadAndTokenMatch(u: string, id: string, h: string)
    requires |u| == 8 && forall i | 0 <= i < 8 :: u[i] in UPPER_OR_DIGIT
    ensures MatchesAt(AWS_KEY, "AKIA" + u + Token(id, h), 0)
  {
    var t := Token(id, h);
    var out := "AKIA" + u + t;
    CapitalsOfToken(id, h, 0);
    hide Token;
    forall k | 0 <= k < 20 ensures out[k] in AWS_KEY[k - 0] {
      if 4 <= k < 12 {
        assert out[k] == u[k - 4];
      } else if k >= 12 {
        CapitalsOfToken(id, h, k - 12);
        assert out[k] == t[k - 12];
      }
    }
  }

  lemma {:induction false} NoKeyBeforePat(u: string, pat: string)
    requires |u| == 8 && IsMatch(GITHUB_PAT, pat) && !HasMatch(AWS_KEY, pat)
    ensures !HasMatch(AWS_KEY, "AKIA" + u + pat)
  {
    var s := "AKIA" + u + pat;
    assert pat[0] in GITHUB_PAT[0 - 0];
    assert s[12] == 'g';
    forall k: nat ensures !MatchesAt(AWS_KEY, s, k) {
      if k > 12 {
        NoMatchAfter(AWS_KEY, "AKIA" + u, pat, k);
      } else if k + 20 <= |s| {
        assert s[12] !in AWS_KEY[12 - k];
      }
    }
  }

  lemma {:induction false} PatIsFirst(u: string, pat: string)
    requires |u| == 8 && forall i | 0 <= i < 8 :: u[i] in UPPER_OR_DIGIT
    requires IsMatch(GITHUB_PAT, pat)
    ensures FindMatch(GITHUB_PAT, "AKIA" + u + pat, 0) == 12
  {
    var s := "AKIA" + u + pat;
    forall k: nat | k < 12 ensures !MatchesAt(GITHUB_PAT, s, k) {
      assert k >= 4 ==> s[k] == u[k - 4];
      assert s[k] !in GITHUB_PAT[k - k];
    }
    forall j | 12 <= j < 52 ensures s[j] in GITHUB_PAT[j - 12] {
      assert s[j] == pat[j - 12] && pat[j - 12] in GITHUB_PAT[j - 12 - 0];
    }
    assert MatchesAt(GITHUB_PAT, s, 12);
  }
}
