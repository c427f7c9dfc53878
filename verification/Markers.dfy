/**
 Observation markers `[[observation:UUID]]`: the report generator expands them, the orchestrator
 checks them. Both use the same pattern; they look the id up differently.
 */
module Markers {
  import opened Rewriting
  import opened Sequences
  import opened Uuids

  // ---------------------------------------------------------------- the pattern

  const OPENING := "[[observation:"
  const CLOSING := "]]"

  function Literal(text: string): seq<set<char>> {
    seq(|text|, i requires 0 <= i < |text| => {text[i]})
  }

  const MARKER: Pattern := Literal(OPENING) + Repeat(HEX_OR_DASH, 36) + Literal(CLOSING)

  /** The captured id of a marker. */
  function MarkerId(m: string): (id: string)
    requires IsMatch(MARKER, m)
    ensures |id| == 36 && forall i | 0 <= i < 36 :: id[i] in HEX_OR_DASH
  {
    assert forall i | 0 <= i < 36 :: m[14..50][i] == m[14 + i] && MARKER[14 + i] == HEX_OR_DASH;
    m[14..50]
  }

  lemma StarFitsNowhere(i: nat)
    requires i < |MARKER|
    ensures '*' !in MARKER[i]
  {
  }

  // ---------------------------------------------------------------- expansion

  const UNKNOWN := "(unknown observation)"

  /** What stands between the asterisks. */
  function CiteText(topics: map<string, string>, m: string): string {
    if IsMatch(MARKER, m) && MarkerId(m) in topics && topics[MarkerId(m)] != ""
    then topics[MarkerId(m)] else UNKNOWN
  }

  function Cite(topics: map<string, string>, m: string): string {
    "*" + CiteText(topics, m) + "*"
  }

  function ExpandMarkers(topics: map<string, string>, body: string): string {
    ReplaceAll(MARKER, m => Cite(topics, m), body)
  }

  lemma {:induction false} CiteSeals(m: string, x: string)
    requires !HasMatch(MARKER, x)
    ensures Seals(MARKER, m, "*" + x + "*")
  {
    var t := "*" + x + "*";
    forall a | 0 <= a < |t| ensures BlockedFrom(MARKER, t, a) {
      if a == 0 {
        StarFitsNowhere(0);
        assert t[0] !in MARKER[0 - a];
      } else if a - 1 + |MARKER| <= |x| {
        assert !MatchesAt(MARKER, x, a - 1);
        var k :| a - 1 <= k < a - 1 + |MARKER| && x[k] !in MARKER[k - (a - 1)];
        assert t[k + 1] == x[k];
      } else {
        StarFitsNowhere(|t| - 1 - a);
        assert t[|t| - 1] == '*';
      }
    }
    forall d | 1 <= d < |MARKER| ensures FitsFrom(MARKER, t, d) ==> FitsFrom(MARKER, m, d) {
      StarFitsNowhere(d);
      assert t[0] == '*' && t[0] !in MARKER[d + 0];
    }
  }

  lemma {:induction false} AssembledHolds(p: Pattern, segs: seq<Segment>, f: string -> string, k: nat)
    requires k < |segs| && HasMatch(p, Rewrite(segs[k], f))
    ensures HasMatch(p, Assemble(segs, f))
    decreases |segs|
  {
    var rest := Assemble(segs[1..], f);
    if k == 0 {
      MatchInside(p, "", Rewrite(segs[0], f), rest);
      assert "" + Rewrite(segs[0], f) + rest == Assemble(segs, f);
    } else {
      AssembledHolds(p, segs[1..], f, k - 1);
      MatchInside(p, Rewrite(segs[0], f), rest, "");
      assert Rewrite(segs[0], f) + rest + "" == Assemble(segs, f);
    }
  }

  /** The expanded body holds no marker exactly when no topic that was put in holds one. */
  lemma {:induction false} ExpansionIsComplete(topics: map<string, string>, body: string)
    ensures !HasMatch(MARKER, ExpandMarkers(topics, body))
       <==> forall m | m in MatchTexts(MARKER, body) :: !HasMatch(MARKER, CiteText(topics, m))
  {
    var f := m => Cite(topics, m);
    assert ExpandMarkers(topics, body) == ReplaceAll(MARKER, f, body);
    if forall m | m in MatchTexts(MARKER, body) :: !HasMatch(MARKER, CiteText(topics, m)) {
      forall m | IsMatch(MARKER, m) && m in MatchTexts(MARKER, body) ensures Seals(MARKER, m, f(m)) {
        CiteSeals(m, CiteText(topics, m));
      }
      SealedPassIsComplete(MARKER, f, body);
    } else {
      var m :| m in MatchTexts(MARKER, body) && HasMatch(MARKER, CiteText(topics, m));
      var segs := Segments(MARKER, body);
      var k :| 0 <= k < |segs| && segs[k] == Match(m);
      MatchInside(MARKER, "*", CiteText(topics, m), "*");
      AssembledHolds(MARKER, segs, f, k);
      ReplaceAllIsPiecewise(MARKER, f, body);
    }
  }

  /** Topics without markers: nothing is left to expand, so expanding again changes nothing. */
  lemma {:induction false} ExpansionIsIdempotent(topics: map<string, string>, body: string)
    requires forall id | id in topics :: !HasMatch(MARKER, topics[id])
    ensures !HasMatch(MARKER, ExpandMarkers(topics, body))
    ensures ExpandMarkers(topics, ExpandMarkers(topics, body)) == ExpandMarkers(topics, body)
  {
    ExpansionIsComplete(topics, body);
    assert !HasMatch(MARKER, UNKNOWN);
    NoMatchNoChange(MARKER, m => Cite(topics, m), ExpandMarkers(topics, body));
  }

  /** The body outside markers is kept piece by piece, and each marker becomes its own citation. */
  lemma {:induction false} ExpansionIsPiecewise(topics: map<string, string>, body: string)
    ensures var segs := Segments(MARKER, body);
            && Source(segs) == body
            && (forall k | 0 <= k < |segs| :: WellCut(MARKER, segs[k]))
            && ExpandMarkers(topics, body) == Assemble(segs, m => Cite(topics, m))
  {
    SegmentsCover(MARKER, body);
    ReplaceAllIsPiecewise(MARKER, m => Cite(topics, m), body);
  }

  // ---------------------------------------------------------------- the validation twin

  /** Observations of a run: topic by UUID. */
  type Observations = o: map<string, string> | forall u | u in o :: IsUuid(u) witness map[]

  lemma {:induction false} CanonicalIsInjective(ids: set<string>)
    requires forall u | u in ids :: IsUuid(u)
    ensures forall u, v | u in ids && v in ids && Canonical(u) == Canonical(v) :: u == v
  {
    forall u, v | u in ids && v in ids && Canonical(u) == Canonical(v) ensures u == v {
      CanonicalReadsBack(u);
      CanonicalReadsBack(v);
    }
  }

  /** The generator's lookup table, keyed by canonical text. */
  function Topics(obs: Observations): (t: map<string, string>)
    ensures forall u | u in obs :: Canonical(u) in t && t[Canonical(u)] == obs[u]
    ensures forall s | s in t :: exists u | u in obs :: s == Canonical(u)
  {
    CanonicalIsInjective(obs.Keys);
    map u | u in obs :: Canonical(u) := obs[u]
  }

  /** The orchestrator's test of one inline marker id. */
  predicate IsUnknown(id: string, obs: Observations) {
    !IsUuid(Digits(id)) || Digits(id) !in obs
  }

  function Ids(segs: seq<Segment>): seq<string>
    requires forall k | 0 <= k < |segs| :: WellCut(MARKER, segs[k])
  {
    if segs == [] then []
    else
      assert WellCut(MARKER, segs[0]);
      (if segs[0].Match? then [MarkerId(segs[0].text)] else []) + Ids(segs[1..])
  }

  /** `findall`: the ids of the markers of a body, in order. */
  function FindAll(body: string): seq<string> {
    SegmentsWellCut(MARKER, body);
    Ids(Segments(MARKER, body))
  }

  function UnknownIds(ids: seq<string>, obs: Observations): seq<string> {
    Filter(ids, (id: string) => IsUnknown(id, obs))
  }

  lemma {:induction false} UnknownIdsSnoc(ids: seq<string>, id: string, obs: Observations)
    ensures UnknownIds(ids + [id], obs) == UnknownIds(ids, obs) + if IsUnknown(id, obs) then [id] else []
  {
    FilterSnoc(ids, id, (i: string) => IsUnknown(i, obs));
  }

  /** The loop of `assemble_report` over inline markers. */
  method FlagInlineMarkers(body: string, obs: Observations, refs: seq<string>) returns (unknownRefs: seq<string>)
    ensures unknownRefs == refs + UnknownIds(FindAll(body), obs)
    ensures refs <= unknownRefs && exists ks ::
              && Selection(ks, FindAll(body), unknownRefs[|refs|..])
              && forall i | 0 <= i < |FindAll(body)| :: i in ks <==> IsUnknown(FindAll(body)[i], obs)
    ensures forall id | id in FindAll(body) && IsUnknown(id, obs) :: id in unknownRefs
  {
    hide FindAll, Digits;
    var ids := FindAll(body);
    unknownRefs := refs;
    assert UnknownIds([], obs) == [];
    var i := 0;
    while i < |ids|
      invariant 0 <= i <= |ids|
      invariant unknownRefs == refs + UnknownIds(ids[..i], obs)
      invariant forall k | 0 <= k < i :: IsUnknown(ids[k], obs) ==> ids[k] in unknownRefs
    {
      TakeOneMore(ids, i);
      UnknownIdsSnoc(ids[..i], ids[i], obs);
      if !IsUuid(Digits(ids[i])) || Digits(ids[i]) !in obs {
        unknownRefs := unknownRefs + [ids[i]];
      }
      i := i + 1;
    }
    assert ids[..i] == ids;
    assert unknownRefs[|refs|..] == UnknownIds(ids, obs);
    ghost var ks := UnknownIdsSelect(ids, obs);
  }

  lemma {:induction false} FindAllStep(s: string)
    requires FindMatch(MARKER, s, 0) != -1
    ensures var i := FindMatch(MARKER, s, 0);
            var m := s[i..i + |MARKER|];
            IsMatch(MARKER, m) && FindAll(s) == [MarkerId(m)] + FindAll(s[i + |MARKER|..])
  {
    var i := FindMatch(MARKER, s, 0);
    var rest := Segments(MARKER, s[i + |MARKER|..]);
    SegmentsWellCut(MARKER, s);
    SegmentsWellCut(MARKER, s[i + |MARKER|..]);
    var segs := Segments(MARKER, s);
    assert segs == [Plain(s[..i]), Match(s[i..i + |MARKER|])] + rest;
    assert WellCut(MARKER, segs[1]);
    assert segs[1..] == [Match(s[i..i + |MARKER|])] + rest && segs[1..][1..] == rest;
    hide IsMatch, HasMatch;
    assert Ids(segs) == [] + Ids(segs[1..]);
  }

  lemma {:induction false} NothingFound(s: string)
    requires FindMatch(MARKER, s, 0) == -1
    ensures FindAll(s) == []
  {
    SegmentsWellCut(MARKER, s);
    assert Segments(MARKER, s) == [Plain(s)] && [Plain(s)][1..] == [];
    assert Ids([Plain(s)]) == [] + Ids([]);
  }

  /** The marker of that id stands at the place. */
  predicate IsMarkerAt(s: string, place: nat, id: string) {
    && place + 52 <= |s| && IsMatch(MARKER, s[place..place + 52]) && id == MarkerId(s[place..place + 52])
  }

  /** The ids as they stand in the text: from left to right, without overlap. */
  predicate AreFoundAt(s: string, ids: seq<string>, places: seq<nat>) {
    && |places| == |ids| && (forall j | 0 <= j < |ids| :: IsMarkerAt(s, places[j], ids[j]))
    && forall j | 0 <= j < |places| - 1 :: places[j] + 52 <= places[j + 1]
  }

  lemma {:induction false} FoundFirst(s: string, i: nat, id: string, ids: seq<string>, more: seq<nat>)
    returns (places: seq<nat>)
    requires IsMarkerAt(s, i, id) && AreFoundAt(s[i + 52..], ids, more)
    ensures AreFoundAt(s, [id] + ids, places)
  {
    hide IsMatch, MarkerId, MARKER;
    var start := i + 52;
    places := [i] + seq(|more|, j requires 0 <= j < |more| => more[j] + start);
    forall j | 0 <= j < |ids| ensures IsMarkerAt(s, more[j] + start, ids[j]) {
      assert IsMarkerAt(s[start..], more[j], ids[j]);
      assert s[start..][more[j]..more[j] + 52] == s[more[j] + start..more[j] + start + 52];
    }
  }

  lemma {:induction false} FoundInOrder(s: string) returns (places: seq<nat>)
    ensures AreFoundAt(s, FindAll(s), places)
    decreases |s|
  {
    var i := FindMatch(MARKER, s, 0);
    if i == -1 {
      NothingFound(s);
      places := [];
    } else {
      FindAllStep(s);
      assert |MARKER| == 52;
      hide FindAll, MarkerId, IsMatch, MARKER;
      var more := FoundInOrder(s[i + 52..]);
      assert IsMarkerAt(s, i, MarkerId(s[i..i + 52]));
      hide AreFoundAt, IsMarkerAt;
      places := FoundFirst(s, i, MarkerId(s[i..i + 52]), FindAll(s[i + 52..]), more);
    }
  }

  /**
   The two services agree: a flagged marker is rendered as unknown, and an unflagged one as its topic
   exactly when its id is the canonical spelling and the topic is not empty, otherwise as unknown.
   */
  lemma {:induction false} ValidationMatchesRendering(m: string, obs: Observations)
    requires IsMatch(MARKER, m)
    ensures var id := MarkerId(m);
            var shown := CiteText(Topics(obs), m);
            if IsUnknown(id, obs) then shown == UNKNOWN
            else if id == Canonical(Digits(id)) && obs[Digits(id)] != "" then shown == obs[Digits(id)]
            else shown == UNKNOWN
  {
    var id := MarkerId(m);
    if id in Topics(obs) {
      var u :| u in obs && id == Canonical(u);
      CanonicalReadsBack(u);
      assert Digits(id) == u;
    }
  }

  lemma {:induction false} IdsHoldEachMatch(segs: seq<Segment>, k: nat)
    requires forall j | 0 <= j < |segs| :: WellCut(MARKER, segs[j])
    requires k < |segs| && segs[k].Match?
    ensures IsMatch(MARKER, segs[k].text) && MarkerId(segs[k].text) in Ids(segs)
    decreases |segs|
  {
    assert WellCut(MARKER, segs[k]);
    if k > 0 {
      IdsHoldEachMatch(segs[1..], k - 1);
      assert segs[1..][k - 1] == segs[k];
    }
  }

  lemma {:induction false} UnknownIdsAreFlagged(ids: seq<string>, obs: Observations, id: string)
    ensures id in UnknownIds(ids, obs) <==> id in ids && IsUnknown(id, obs)
  {
  }

  /** The unknown ids in their order, each as often as it is cited. */
  lemma {:induction false} UnknownIdsSelect(ids: seq<string>, obs: Observations) returns (ks: seq<nat>)
    ensures Selection(ks, ids, UnknownIds(ids, obs))
    ensures forall i | 0 <= i < |ids| :: i in ks <==> IsUnknown(ids[i], obs)
  {
    ks := FilterSelects(ids, (id: string) => IsUnknown(id, obs));
  }

  /** Over a whole body: a marker is reported as unknown only if it is rendered as unknown. */
  lemma {:induction false} ReportAgreesWithRendering(body: string, obs: Observations)
    ensures var segs := Segments(MARKER, body);
            var f := (m: string) => Cite(Topics(obs), m);
            forall k | 0 <= k < |segs| && segs[k].Match? ::
              && IsMatch(MARKER, segs[k].text)
              && var id := MarkerId(segs[k].text);
              && (id in UnknownIds(FindAll(body), obs) <==> IsUnknown(id, obs))
              && (id in UnknownIds(FindAll(body), obs) ==> Rewrite(segs[k], f) == "*" + UNKNOWN + "*")
  {
    var segs := Segments(MARKER, body);
    SegmentsWellCut(MARKER, body);
    forall k | 0 <= k < |segs| && segs[k].Match?
      ensures IsMatch(MARKER, segs[k].text)
      ensures var id := MarkerId(segs[k].text);
              && (id in UnknownIds(FindAll(body), obs) <==> IsUnknown(id, obs))
              && (IsUnknown(id, obs) ==> CiteText(Topics(obs), segs[k].text) == UNKNOWN)
    {
      IdsHoldEachMatch(segs, k);
      UnknownIdsAreFlagged(FindAll(body), obs, MarkerId(segs[k].text));
      ValidationMatchesRendering(segs[k].text, obs);
    }
  }

  /** An upper-case spelling of a known id passes validation and is still rendered as unknown. */
  lemma {:induction false} UpperCaseSlipsThrough(u: string, obs: Observations, i: nat, m: string)
    requires u in obs && i < 36 && 'a' <= Canonical(u)[i] <= 'f'
    requires IsMatch(MARKER, m) && MarkerId(m) == UpperAll(Canonical(u))
    ensures !IsUnknown(MarkerId(m), obs) && CiteText(Topics(obs), m) == UNKNOWN
  {
    CanonicalReadsBack(u);
    DigitsIgnoreCase(Canonical(u));
    ValidationMatchesRendering(m, obs);
    assert MarkerId(m)[i] != Canonical(u)[i];
  }
}
