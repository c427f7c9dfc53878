/**
 Where replays end. Two runs that complete every item that can be completed end with the same results,
 links and attributes.
 */
module ReplayOutcome {
  import opened Wrappers
  import opened EvidenceTables
  import opened Pipeline
  import opened Confluence
  import opened CrashReplay

  /** Every row that was pending and can be parsed has its result. */
  predicate Complete(w: World, t0: Tables, t: Tables) {
    forall id | id in t0.evidence && Goal(w, t0, id).Some? :: id in t.evidence && t.evidence[id].parsed.Some?
  }

  /** The row's asset is the one with this key. */
  predicate NamesAsset(t: Tables, id: EvidenceId, key: AssetKey) {
    && id in t.evidence && key in t.assets
    && t.evidence[id].assetId == Some(t.assets[key].id)
  }

  /** The tables agree on everything but generated ids and on who inserted an asset first. */
  ghost predicate SameOutcome(t: Tables, u: Tables) {
    && t.evidence.Keys == u.evidence.Keys && t.assets.Keys == u.assets.Keys
    && (forall id | id in t.evidence ::
          && t.evidence[id].parsed == u.evidence[id].parsed
          && t.evidence[id].confidence == u.evidence[id].confidence
          && t.evidence[id].redactions == u.evidence[id].redactions)
    && (forall id, key :: NamesAsset(t, id, key) <==> NamesAsset(u, id, key))
    && (forall key, attr :: Lookup(t.assets, key, attr) == Lookup(u.assets, key, attr))
  }

  /** A completed row in a replay: its result and its asset are those of its goal. */
  lemma {:induction false} CompleteRow(w: World, t0: Tables, s: State, id: EvidenceId)
    requires OnCourse(w, t0, s) && Complete(w, t0, s.t) && id in t0.evidence
    ensures Goal(w, t0, id).None? ==> s.t.evidence[id] == t0.evidence[id]
    ensures Goal(w, t0, id).Some? ==>
      var n := Goal(w, t0, id).value;
      var r := s.t.evidence[id];
      && r.parsed == Some(n.parsed) && r.confidence == n.confidence && r.redactions == n.redactions
      && (n.hint.None? ==> r.assetId == t0.evidence[id].assetId)
      && (n.hint.Some? ==>
            && Applied(w, s.t.assets, n.hint.value)
            && r.assetId == Some(s.t.assets[KeyOf(w, n.hint.value)].id))
  {
    assert RowOnCourse(w, t0, s.t, id);
  }

  lemma {:induction false} CompleteLookup(w: World, t0: Tables, s: State, key: AssetKey, attr: string)
    requires AgreeingWriters(w, t0) && OnCourse(w, t0, s) && Complete(w, t0, s.t)
    ensures forall id | id in t0.evidence && Targets(w, t0, id, key, attr) ::
      Lookup(s.t.assets, key, attr) == Some(HintOf(w, t0, id).attributes[attr])
    ensures (forall id | id in t0.evidence :: !Targets(w, t0, id, key, attr)) ==>
      Lookup(s.t.assets, key, attr) == Lookup(t0.assets, key, attr)
  {
    forall id | id in t0.evidence && Targets(w, t0, id, key, attr)
      ensures Lookup(s.t.assets, key, attr) == Some(HintOf(w, t0, id).attributes[attr])
    {
      CompleteRow(w, t0, s, id);
    }
    assert AttributeOnCourse(w, t0, s.t, key, attr);
  }

  lemma {:induction false} SameLookup(w: World, t0: Tables, s: State, u: State, key: AssetKey, attr: string)
    requires AgreeingWriters(w, t0)
    requires OnCourse(w, t0, s) && Complete(w, t0, s.t) && OnCourse(w, t0, u) && Complete(w, t0, u.t)
    ensures Lookup(s.t.assets, key, attr) == Lookup(u.t.assets, key, attr)
  {
    CompleteLookup(w, t0, s, key, attr);
    CompleteLookup(w, t0, u, key, attr);
  }

  lemma {:induction false} CompleteKey(w: World, t0: Tables, s: State, u: State, key: AssetKey)
    requires OnCourse(w, t0, s) && OnCourse(w, t0, u) && Complete(w, t0, u.t) && key in s.t.assets
    ensures key in u.t.assets
  {
    assert AssetOnCourse(w, t0, s.t, key);
    if key !in t0.assets {
      var id :| id in t0.evidence && HasHint(w, t0, id) && KeyOf(w, HintOf(w, t0, id)) == key;
      CompleteRow(w, t0, u, id);
    }
  }

  /** A row that kept its asset id still names the same asset, and no other. */
  lemma {:induction false} KeptLink(s0: State, s: State, id: EvidenceId, key: AssetKey)
    requires Safe(s0) && Safe(s) && Grows(s0, s)
    requires id in s0.t.evidence && id in s.t.evidence && s.t.evidence[id].assetId == s0.t.evidence[id].assetId
    ensures NamesAsset(s.t, id, key) <==> NamesAsset(s0.t, id, key)
  {
    if NamesAsset(s.t, id, key) {
      assert IsAssetId(s0.t, s0.t.evidence[id].assetId.value);
      var k :| k in s0.t.assets && s0.t.assets[k].id == s0.t.evidence[id].assetId.value;
      assert k in s.t.assets && s.t.assets[k].id == s.t.assets[key].id;
    }
  }

  lemma {:induction false} ReplayLink(w: World, s0: State, s: State, id: EvidenceId, key: AssetKey)
    requires Safe(s0) && Safe(s) && Grows(s0, s)
    requires OnCourse(w, s0.t, s) && Complete(w, s0.t, s.t) && id in s0.t.evidence
    ensures NamesAsset(s.t, id, key) <==>
      if HasHint(w, s0.t, id) then key == KeyOf(w, HintOf(w, s0.t, id)) else NamesAsset(s0.t, id, key)
  {
    CompleteRow(w, s0.t, s, id);
    if !HasHint(w, s0.t, id) {
      KeptLink(s0, s, id, key);
    }
  }

  /** A state in which a replay from `s0` may end. */
  ghost predicate IsReplayEnd(w: World, s0: State, s: State) {
    Safe(s) && Grows(s0, s) && OnCourse(w, s0.t, s) && Complete(w, s0.t, s.t)
  }

  lemma {:induction false} SameRows(w: World, s0: State, s: State, u: State, id: EvidenceId)
    requires IsReplayEnd(w, s0, s) && IsReplayEnd(w, s0, u) && id in s0.t.evidence
    ensures s.t.evidence[id].parsed == u.t.evidence[id].parsed
    ensures s.t.evidence[id].confidence == u.t.evidence[id].confidence
    ensures s.t.evidence[id].redactions == u.t.evidence[id].redactions
  {
    CompleteRow(w, s0.t, s, id);
    CompleteRow(w, s0.t, u, id);
  }

  lemma {:induction false} SameLinks(w: World, s0: State, s: State, u: State, id: EvidenceId, key: AssetKey)
    requires Safe(s0) && IsReplayEnd(w, s0, s) && IsReplayEnd(w, s0, u)
    ensures NamesAsset(s.t, id, key) <==> NamesAsset(u.t, id, key)
  {
    if id in s0.t.evidence {
      ReplayLink(w, s0, s, id, key);
      ReplayLink(w, s0, u, id, key);
    }
  }

  lemma {:induction false} SameEvidenceKeys(w: World, s0: State, s: State, u: State)
    requires IsReplayEnd(w, s0, s) && IsReplayEnd(w, s0, u)
    ensures s.t.evidence.Keys == s0.t.evidence.Keys == u.t.evidence.Keys
  {
  }

  lemma {:induction false} ReplayEndsAgree(w: World, s0: State, s: State, u: State)
    requires Safe(s0) && AgreeingWriters(w, s0.t) && IsReplayEnd(w, s0, s) && IsReplayEnd(w, s0, u)
    ensures SameOutcome(s.t, u.t)
  {
    SameEvidenceKeys(w, s0, s, u);
    hide OnCourse, Complete, Safe, Grows, AgreeingWriters, Lookup, NamesAsset;
    forall id | id in s.t.evidence
      ensures s.t.evidence[id].parsed == u.t.evidence[id].parsed
      ensures s.t.evidence[id].confidence == u.t.evidence[id].confidence
      ensures s.t.evidence[id].redactions == u.t.evidence[id].redactions
    {
      SameRows(w, s0, s, u, id);
    }
    forall id, key ensures NamesAsset(s.t, id, key) <==> NamesAsset(u.t, id, key) {
      SameLinks(w, s0, s, u, id, key);
    }
    forall key, attr ensures Lookup(s.t.assets, key, attr) == Lookup(u.t.assets, key, attr) {
      SameLookup(w, s0.t, s, u, key, attr);
    }
    forall key ensures key in s.t.assets <==> key in u.t.assets {
      if key in s.t.assets { CompleteKey(w, s0.t, s, u, key); }
      if key in u.t.assets { CompleteKey(w, s0.t, u, s, key); }
    }
  }

  /**
   Any two runs from the same tables, with any faults, crashes and restarts, that complete every item
   that can be completed, end with the same results, the same links and the same attributes.
   */
  lemma {:induction false} ReplaysAgree(w: World, s0: State, one: seq<Event>, other: seq<Event>)
    requires Safe(s0) && s0.tasks == multiset{} && AgreeingWriters(w, s0.t)
    requires CanRun(w, s0, one) && NoArrivals(one) && Complete(w, s0.t, Run(w, s0, one).t)
    requires CanRun(w, s0, other) && NoArrivals(other) && Complete(w, s0.t, Run(w, s0, other).t)
    ensures SameOutcome(Run(w, s0, one).t, Run(w, s0, other).t)
  {
    StartOnCourse(w, s0);
    RunOnCourse(w, s0.t, s0, one);
    RunOnCourse(w, s0.t, s0, other);
    RunsAreSafe(w, s0, one);
    RunsAreSafe(w, s0, other);
    ReplayEndsAgree(w, s0, Run(w, s0, one), Run(w, s0, other));
  }
}
