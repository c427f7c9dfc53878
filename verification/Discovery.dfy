/**
 Discovery: each agent describes the evidence of its categories, and only observations that cite that
 evidence and concern assets of the run are written.
 */
module Discovery {
  import opened Wrappers
  import opened Uuids
  import opened Sequences

  // ---------------------------------------------------------------- data

  datatype EvidenceRow = EvidenceRow(id: Uuid, category: string)

  /** A value of a reply where an id is expected. */
  datatype Value = Text(text: string) | NotText

  datatype RawObservation = RawObservation(
    evidenceIds: seq<Value>, assetId: Value, relatedIds: seq<Value>, topic: string, content: string)

  /** A decoded reply of an agent; `parsed` is None for null and for an empty object. */
  datatype Parsed = Parsed(observations: seq<RawObservation>, coverage: seq<string>)
  datatype Reply = Reply(parsed: Option<Parsed>, cost: real)

  datatype Observation = Observation(
    run: nat, asset: Uuid, domain: string, topic: string, content: string,
    related: seq<Uuid>, evidence: seq<Uuid>, agent: string, version: string)

  datatype Reason = CitesNothing | NotAnId(at: nat) | Fabricated(at: nat) | NotRunAsset

  datatype Dropped =
    | SchemaFailed
    | Rejected(index: nat, reason: Reason)
    | NoAgentFor(category: string)
    | NotInRegistry(agent: string)

  datatype DomainResult = DomainResult(
    observations: seq<Observation>, dropped: seq<Dropped>, coverage: seq<string>, cost: real)

  /** What one agent is given. */
  datatype Context = Context(
    run: nat, agent: string, version: string, domain: string, evidence: set<Uuid>, assets: set<Uuid>,
    otherUuid: string -> Option<Uuid>)

  // ---------------------------------------------------------------- one observation

  function ReadId(ctx: Context, v: Value): Option<Uuid> {
    if v.Text? then ReadUuid(ctx.otherUuid, v.text) else None
  }

  predicate InSet(ctx: Context, v: Value, ids: set<Uuid>) {
    ReadId(ctx, v).Some? && ReadId(ctx, v).value in ids
  }

  predicate IsSourced(ctx: Context, raw: RawObservation) {
    raw.evidenceIds != [] && forall i | 0 <= i < |raw.evidenceIds| :: InSet(ctx, raw.evidenceIds[i], ctx.evidence)
  }

  predicate IsKept(ctx: Context, raw: RawObservation) {
    IsSourced(ctx, raw) && InSet(ctx, raw.assetId, ctx.assets)
  }

  /** The ids that can be read and are in the set, in order. */
  function Resolved(ctx: Context, values: seq<Value>, ids: set<Uuid>): (r: seq<Uuid>)
    ensures forall u | u in r :: u in ids
    ensures (forall i | 0 <= i < |values| :: InSet(ctx, values[i], ids)) ==>
              |r| == |values| && forall i | 0 <= i < |values| :: Some(r[i]) == ReadId(ctx, values[i])
  {
    if values == [] then []
    else
      var last := values[|values| - 1];
      Resolved(ctx, values[..|values| - 1], ids) + if InSet(ctx, last, ids) then [ReadId(ctx, last).value] else []
  }

  /** The row that a kept observation becomes. */
  function RowOf(ctx: Context, raw: RawObservation): (o: Observation)
    requires IsKept(ctx, raw)
    ensures HasProvenance(ctx, o) && |o.evidence| == |raw.evidenceIds|
  {
    Observation(ctx.run, ReadId(ctx, raw.assetId).value, ctx.domain, raw.topic, raw.content,
                Resolved(ctx, raw.relatedIds, ctx.assets), Resolved(ctx, raw.evidenceIds, ctx.evidence),
                ctx.agent, ctx.version)
  }

  /** Cited, and only from what the agent was given. */
  predicate HasProvenance(ctx: Context, o: Observation) {
    && o.run == ctx.run && o.domain == ctx.domain && o.agent == ctx.agent
    && o.evidence != [] && (forall u | u in o.evidence :: u in ctx.evidence)
    && o.asset in ctx.assets && (forall u | u in o.related :: u in ctx.assets)
  }

  predicate AreResolved(ctx: Context, values: seq<Value>, ids: set<Uuid>, r: seq<Uuid>, ks: seq<nat>) {
    && Increasing(ks) && |r| == |ks|
    && (forall j | 0 <= j < |ks| :: ks[j] < |values| && ReadId(ctx, values[ks[j]]) == Some(r[j]))
    && forall i | 0 <= i < |values| :: i in ks <==> InSet(ctx, values[i], ids)
  }

  /** Exactly the readable ids that are in the set, in the order of the reply. */
  ghost predicate IsResolved(ctx: Context, values: seq<Value>, ids: set<Uuid>, r: seq<Uuid>) {
    exists ks :: AreResolved(ctx, values, ids, r, ks)
  }

  lemma {:induction false} ResolvedGrows(
    ctx: Context, values: seq<Value>, v: Value, ids: set<Uuid>, r: seq<Uuid>, ks: seq<nat>)
    requires AreResolved(ctx, values, ids, r, ks)
    ensures IsResolved(ctx, values + [v], ids, if InSet(ctx, v, ids) then r + [ReadId(ctx, v).value] else r)
  {
    var n := |values|;
    if InSet(ctx, v, ids) {
      var u := ReadId(ctx, v).value;
      hide ReadId, InSet;
      assert forall i :: i in ks + [n] <==> i in ks || i == n;
      assert AreResolved(ctx, values + [v], ids, r + [u], ks + [n]);
    } else {
      hide ReadId, InSet;
      assert n !in ks;
      assert AreResolved(ctx, values + [v], ids, r, ks);
    }
  }

  lemma {:induction false} ResolvedSelects(ctx: Context, values: seq<Value>, ids: set<Uuid>)
    ensures IsResolved(ctx, values, ids, Resolved(ctx, values, ids))
    decreases values
  {
    hide ReadUuid;
    if values == [] {
      assert AreResolved(ctx, [], ids, [], []);
    } else {
      hide AreResolved;
      var n := |values| - 1;
      ResolvedSelects(ctx, values[..n], ids);
      var ks :| AreResolved(ctx, values[..n], ids, Resolved(ctx, values[..n], ids), ks);
      var r := Resolved(ctx, values[..n], ids);
      ResolvedGrows(ctx, values[..n], values[n], ids, r, ks);
      InitLast(values);
      hide IsResolved;
      assert Resolved(ctx, values, ids) == if InSet(ctx, values[n], ids) then r + [ReadId(ctx, values[n]).value] else r;
    }
  }

  /** The row says what the reply says, under the agent's name. */
  ghost predicate IsRowOf(ctx: Context, raw: RawObservation, o: Observation) {
    && o.run == ctx.run && o.domain == ctx.domain && o.agent == ctx.agent && o.version == ctx.version
    && ReadId(ctx, raw.assetId) == Some(o.asset) && o.topic == raw.topic && o.content == raw.content
    && |o.evidence| == |raw.evidenceIds|
    && (forall i | 0 <= i < |o.evidence| :: ReadId(ctx, raw.evidenceIds[i]) == Some(o.evidence[i]))
    && IsResolved(ctx, raw.relatedIds, ctx.assets, o.related)
  }

  lemma {:induction false} RowSays(ctx: Context, raw: RawObservation)
    requires IsKept(ctx, raw)
    ensures IsRowOf(ctx, raw, RowOf(ctx, raw))
  {
    hide IsResolved, ReadId;
    ResolvedSelects(ctx, raw.relatedIds, ctx.assets);
  }

  predicate IsReason(ctx: Context, raw: RawObservation, reason: Reason) {
    match reason
    case CitesNothing => raw.evidenceIds == []
    case NotAnId(at) =>
      at < |raw.evidenceIds| && ReadId(ctx, raw.evidenceIds[at]).None?
      && forall i | 0 <= i < at :: InSet(ctx, raw.evidenceIds[i], ctx.evidence)
    case Fabricated(at) =>
      at < |raw.evidenceIds| && ReadId(ctx, raw.evidenceIds[at]).Some? && !InSet(ctx, raw.evidenceIds[at], ctx.evidence)
      && forall i | 0 <= i < at :: InSet(ctx, raw.evidenceIds[i], ctx.evidence)
    case NotRunAsset => IsSourced(ctx, raw) && !InSet(ctx, raw.assetId, ctx.assets)
  }

  method ValidateEvidence(ctx: Context, raw: RawObservation) returns (ids: seq<Uuid>, reason: Option<Reason>)
    ensures reason.None? <==> IsSourced(ctx, raw)
    ensures reason.None? ==> ids == Resolved(ctx, raw.evidenceIds, ctx.evidence)
    ensures reason.Some? ==> IsReason(ctx, raw, reason.value) && !reason.value.NotRunAsset?
  {
    hide ReadId, ReadUuid;
    if raw.evidenceIds == [] {
      return [], Some(CitesNothing);
    }
    ids := [];
    var i := 0;
    while i < |raw.evidenceIds|
      invariant 0 <= i <= |raw.evidenceIds|
      invariant forall k | 0 <= k < i :: InSet(ctx, raw.evidenceIds[k], ctx.evidence)
      invariant ids == Resolved(ctx, raw.evidenceIds[..i], ctx.evidence)
    {
      assert raw.evidenceIds[..i + 1][..i] == raw.evidenceIds[..i];
      var u := ReadId(ctx, raw.evidenceIds[i]);
      if u.None? {
        return [], Some(NotAnId(i));
      }
      if u.value !in ctx.evidence {
        return [], Some(Fabricated(i));
      }
      ids := ids + [u.value];
      i := i + 1;
    }
    assert raw.evidenceIds[..i] == raw.evidenceIds;
    reason := None;
  }

  // ---------------------------------------------------------------- one agent

  /**
   The accounting of a reply with `n` observations looked at so far: the kept ones become rows in their
   order, each other one is dropped with its reason, and nothing is lost or counted twice.
   */
  ghost predicate Accounted(ctx: Context, raws: seq<RawObservation>, n: nat, kept: seq<nat>,
                            writes: seq<Observation>, dropped: seq<Dropped>)
    requires n <= |raws|
  {
    && Increasing(kept)
    && (forall k | 0 <= k < |kept| :: kept[k] < n && IsKept(ctx, raws[kept[k]]))
    && (forall i | 0 <= i < n && IsKept(ctx, raws[i]) :: i in kept)
    && |writes| == |kept| && (forall k | 0 <= k < |kept| :: writes[k] == RowOf(ctx, raws[kept[k]]))
    && |writes| + |dropped| == n
    && (forall k | 0 <= k < |dropped| ::
          dropped[k].Rejected? && dropped[k].index < n && IsReason(ctx, raws[dropped[k].index], dropped[k].reason))
    && (forall k, l | 0 <= k < l < |dropped| :: dropped[k].index < dropped[l].index)
  }

  ghost predicate IsAccounted(
    ctx: Context, raws: seq<RawObservation>, writes: seq<Observation>, dropped: seq<Dropped>)
  {
    exists kept :: Accounted(ctx, raws, |raws|, kept, writes, dropped)
  }

  ghost predicate IsResult(ctx: Context, reply: Reply, r: DomainResult) {
    && r.cost == reply.cost
    && (reply.parsed.None? ==> r == DomainResult([], [SchemaFailed], [], reply.cost))
    && (reply.parsed.Some? ==>
          && r.coverage == reply.parsed.value.coverage
          && IsAccounted(ctx, reply.parsed.value.observations, r.observations, r.dropped))
  }

  lemma {:induction false} KeepOne(ctx: Context, raws: seq<RawObservation>, n: nat, kept: seq<nat>,
                                   writes: seq<Observation>, dropped: seq<Dropped>)
    requires n < |raws| && Accounted(ctx, raws, n, kept, writes, dropped) && IsKept(ctx, raws[n])
    ensures Accounted(ctx, raws, n + 1, kept + [n], writes + [RowOf(ctx, raws[n])], dropped)
  {
    hide IsKept, RowOf, IsReason;
  }

  lemma {:induction false} DropOne(ctx: Context, raws: seq<RawObservation>, n: nat, kept: seq<nat>,
                                   writes: seq<Observation>, dropped: seq<Dropped>, reason: Reason)
    requires n < |raws| && Accounted(ctx, raws, n, kept, writes, dropped)
    requires !IsKept(ctx, raws[n]) && IsReason(ctx, raws[n], reason)
    ensures Accounted(ctx, raws, n + 1, kept, writes, dropped + [Rejected(n, reason)])
  {
    hide IsKept, RowOf, IsReason;
  }

  method RunDomain(ctx: Context, reply: Reply) returns (r: DomainResult)
    ensures IsResult(ctx, reply, r)
  {
    if reply.parsed.None? {
      return DomainResult([], [SchemaFailed], [], reply.cost);
    }
    var raws := reply.parsed.value.observations;
    var writes: seq<Observation>, dropped: seq<Dropped> := [], [];
    ghost var kept: seq<nat> := [];
    assert Accounted(ctx, raws, 0, kept, writes, dropped);
    hide Accounted, ReadUuid, Resolved, IsReason, IsSourced;
    var i := 0;
    while i < |raws|
      invariant 0 <= i <= |raws|
      invariant Accounted(ctx, raws, i, kept, writes, dropped)
    {
      var raw := raws[i];
      var evidence, reason := ValidateEvidence(ctx, raw);
      if reason.Some? {
        DropOne(ctx, raws, i, kept, writes, dropped, reason.value);
        dropped := dropped + [Rejected(i, reason.value)];
      } else if !InSet(ctx, raw.assetId, ctx.assets) {
        DropOne(ctx, raws, i, kept, writes, dropped, NotRunAsset);
        dropped := dropped + [Rejected(i, NotRunAsset)];
      } else {
        KeepOne(ctx, raws, i, kept, writes, dropped);
        kept := kept + [i];
        writes := writes + [Observation(
          ctx.run, ReadId(ctx, raw.assetId).value, ctx.domain, raw.topic, raw.content,
          Resolved(ctx, raw.relatedIds, ctx.assets), evidence, ctx.agent, ctx.version)];
      }
      i := i + 1;
    }
    r := DomainResult(writes, dropped, reply.parsed.value.coverage, reply.cost);
  }

  /** The rows are the kept observations of the reply, all of them and in its order, and say what those say. */
  ghost predicate RowsSay(ctx: Context, raws: seq<RawObservation>, kept: seq<nat>, rows: seq<Observation>) {
    && Increasing(kept) && |rows| == |kept|
    && (forall k | 0 <= k < |kept| :: kept[k] < |raws| && IsRowOf(ctx, raws[kept[k]], rows[k]))
    && forall i | 0 <= i < |raws| :: i in kept <==> IsKept(ctx, raws[i])
  }

  lemma {:induction false} AccountedSays(
    ctx: Context, raws: seq<RawObservation>, kept: seq<nat>, rows: seq<Observation>, dropped: seq<Dropped>)
    requires Accounted(ctx, raws, |raws|, kept, rows, dropped)
    ensures RowsSay(ctx, raws, kept, rows)
  {
    hide HasProvenance, RowOf, IsKept, IsRowOf, IsReason;
    forall k | 0 <= k < |kept| ensures IsRowOf(ctx, raws[kept[k]], rows[k]) {
      RowSays(ctx, raws[kept[k]]);
    }
    assert forall i | 0 <= i < |raws| :: i in kept ==> IsKept(ctx, raws[i]);
  }

  /** Whatever the agent replies, every row that comes out has its provenance. */
  lemma {:induction false} ResultHasProvenance(ctx: Context, reply: Reply, r: DomainResult)
    requires IsResult(ctx, reply, r)
    ensures forall o | o in r.observations :: HasProvenance(ctx, o)
    ensures reply.parsed.Some? ==>
              var raws := reply.parsed.value.observations;
              && |r.observations| + |r.dropped| == |raws|
              && exists kept :: RowsSay(ctx, raws, kept, r.observations)
  {
    hide HasProvenance, RowOf, IsKept, IsRowOf, RowsSay;
    if reply.parsed.Some? {
      var raws := reply.parsed.value.observations;
      var kept :| Accounted(ctx, raws, |raws|, kept, r.observations, r.dropped);
      forall o | o in r.observations ensures HasProvenance(ctx, o) {
        var k :| 0 <= k < |kept| && r.observations[k] == o;
        assert o == RowOf(ctx, raws[kept[k]]);
      }
      AccountedSays(ctx, raws, kept, r.observations, r.dropped);
    }
  }

  // ---------------------------------------------------------------- grouping

  datatype Binding = Binding(domain: string, agent: string)

  function BindingFor(category: string): Option<Binding> {
    if category == "security" then Some(Binding("security", "security_analysis"))
    else if category == "performance" then Some(Binding("performance", "performance_analysis"))
    else if category == "cloud" then Some(Binding("cloud", "cloud_analysis"))
    else if category == "kubernetes" then Some(Binding("k8s", "kubernetes"))
    else if category == "database" then Some(Binding("db", "database"))
    else if category == "hardware" || category == "inventory" then Some(Binding("hardware", "hardware"))
    else None
  }

  /** An entry of the dictionary by agent, in insertion order. */
  datatype Group = Group(agent: string, domain: string, categories: seq<string>)

  predicate IsBoundTo(category: string, agent: string) {
    BindingFor(category).Some? && BindingFor(category).value.agent == agent
  }

  /** The categories of an agent, in order. */
  function BoundTo(categories: seq<string>, agent: string): (r: seq<string>)
    ensures forall c :: c in r <==> c in categories && IsBoundTo(c, agent)
  {
    Filter(categories, (c: string) => IsBoundTo(c, agent))
  }

  function Unbound(categories: seq<string>): seq<Dropped> {
    if categories == [] then []
    else
      var last := categories[|categories| - 1];
      Unbound(categories[..|categories| - 1]) + if BindingFor(last).None? then [NoAgentFor(last)] else []
  }

  /** The groups partition the bound categories: one group for each agent, holding exactly its own. */
  ghost predicate Partitions(groups: seq<Group>, categories: seq<string>) {
    && (forall i, j | 0 <= i < j < |groups| :: groups[i].agent != groups[j].agent)
    && (forall i | 0 <= i < |groups| :: IsGroup(groups[i], categories))
    && (forall c | c in categories && BindingFor(c).Some? ::
          exists i :: 0 <= i < |groups| && groups[i].agent == BindingFor(c).value.agent)
  }

  predicate IsGroup(g: Group, categories: seq<string>) {
    g.categories != [] && g.categories == BoundTo(categories, g.agent)
    && forall c | c in g.categories :: BindingFor(c).value.domain == g.domain
  }

  lemma {:induction false} OneDomainPerAgent(c: string, d: string)
    requires BindingFor(c).Some? && IsBoundTo(d, BindingFor(c).value.agent)
    ensures BindingFor(d).value.domain == BindingFor(c).value.domain
  {
  }

  lemma {:induction false} BoundToSnoc(categories: seq<string>, c: string, agent: string)
    ensures BoundTo(categories + [c], agent) == BoundTo(categories, agent) + if IsBoundTo(c, agent) then [c] else []
  {
    FilterSnoc(categories, c, (d: string) => IsBoundTo(d, agent));
  }

  lemma {:induction false} SkipCategory(groups: seq<Group>, categories: seq<string>, c: string)
    requires Partitions(groups, categories) && BindingFor(c).None?
    ensures Partitions(groups, categories + [c])
  {
    forall i | 0 <= i < |groups| ensures IsGroup(groups[i], categories + [c]) {
      BoundToSnoc(categories, c, groups[i].agent);
    }
  }

  lemma {:induction false} OtherGroupStays(g: Group, categories: seq<string>, c: string, agent: string)
    requires IsGroup(g, categories) && IsBoundTo(c, agent) && g.agent != agent
    ensures IsGroup(g, categories + [c])
  {
    BoundToSnoc(categories, c, g.agent);
  }

  lemma {:induction false} GroupGrows(g: Group, categories: seq<string>, c: string)
    requires IsGroup(g, categories) && IsBoundTo(c, g.agent)
    ensures IsGroup(g.(categories := g.categories + [c]), categories + [c])
  {
    BoundToSnoc(categories, c, g.agent);
    assert g.categories[0] in BoundTo(categories, g.agent);
    assert IsBoundTo(g.categories[0], g.agent);
    forall d | d in g.categories + [c] ensures BindingFor(d).value.domain == g.domain {
      OneDomainPerAgent(g.categories[0], d);
    }
  }

  lemma {:induction false} NoneBound(categories: seq<string>, agent: string)
    requires forall d | d in categories :: !IsBoundTo(d, agent)
    ensures BoundTo(categories, agent) == []
    decreases categories
  {
    if categories != [] {
      var n := |categories| - 1;
      NoneBound(categories[..n], agent);
      BoundToSnoc(categories[..n], categories[n], agent);
      InitLast(categories);
    }
  }

  lemma {:induction false} GroupStarts(categories: seq<string>, c: string, b: Binding)
    requires BindingFor(c) == Some(b) && forall d | d in categories :: !IsBoundTo(d, b.agent)
    ensures IsGroup(Group(b.agent, b.domain, [c]), categories + [c])
  {
    BoundToSnoc(categories, c, b.agent);
    NoneBound(categories, b.agent);
  }

  lemma {:induction false} ExtendGroup(groups: seq<Group>, categories: seq<string>, c: string, k: nat)
    requires Partitions(groups, categories) && k < |groups| && IsBoundTo(c, groups[k].agent)
    ensures Partitions(groups[k := groups[k].(categories := groups[k].categories + [c])], categories + [c])
  {
    hide BindingFor, IsGroup, BoundTo;
    var next := groups[k := groups[k].(categories := groups[k].categories + [c])];
    forall i | 0 <= i < |next| ensures IsGroup(next[i], categories + [c]) && next[i].agent == groups[i].agent {
      if i == k {
        GroupGrows(groups[k], categories, c);
      } else {
        OtherGroupStays(groups[i], categories, c, groups[k].agent);
      }
    }
    forall d | d in categories + [c] && BindingFor(d).Some?
      ensures exists i :: 0 <= i < |next| && next[i].agent == BindingFor(d).value.agent
    {
      if d == c {
        assert next[k].agent == BindingFor(d).value.agent;
      } else {
        var i :| 0 <= i < |groups| && groups[i].agent == BindingFor(d).value.agent;
        assert next[i].agent == BindingFor(d).value.agent;
      }
    }
  }

  lemma {:induction false} NewGroup(groups: seq<Group>, categories: seq<string>, c: string, b: Binding)
    requires Partitions(groups, categories) && BindingFor(c) == Some(b)
    requires forall i | 0 <= i < |groups| :: groups[i].agent != b.agent
    ensures Partitions(groups + [Group(b.agent, b.domain, [c])], categories + [c])
  {
    hide BindingFor, IsGroup, BoundTo;
    var next := groups + [Group(b.agent, b.domain, [c])];
    forall i | 0 <= i < |groups| ensures IsGroup(next[i], categories + [c]) {
      OtherGroupStays(groups[i], categories, c, b.agent);
    }
    GroupStarts(categories, c, b);
    forall d | d in categories + [c] && BindingFor(d).Some?
      ensures exists i :: 0 <= i < |next| && next[i].agent == BindingFor(d).value.agent
    {
      if d == c {
        assert next[|groups|].agent == BindingFor(d).value.agent;
      } else {
        var i :| 0 <= i < |groups| && groups[i].agent == BindingFor(d).value.agent;
        assert next[i].agent == BindingFor(d).value.agent;
      }
    }
  }

  /** Where the first category of each group stands: the groups come in that order. */
  predicate AreFirsts(groups: seq<Group>, categories: seq<string>, firsts: seq<nat>) {
    && Increasing(firsts) && |firsts| == |groups|
    && (forall k | 0 <= k < |groups| :: firsts[k] < |categories| && IsBoundTo(categories[firsts[k]], groups[k].agent))
    && forall k, j | 0 <= k < |groups| && 0 <= j < firsts[k] :: !IsBoundTo(categories[j], groups[k].agent)
  }

  /** As a dictionary keeps them: in the order in which the agents come up. */
  ghost predicate InOrder(groups: seq<Group>, categories: seq<string>) {
    exists firsts :: AreFirsts(groups, categories, firsts)
  }

  lemma {:induction false} OrderStays(groups: seq<Group>, next: seq<Group>, categories: seq<string>, c: string)
    requires InOrder(groups, categories) && |next| == |groups|
    requires forall i | 0 <= i < |groups| :: next[i].agent == groups[i].agent
    ensures InOrder(next, categories + [c])
  {
    hide IsBoundTo;
    var firsts: seq<nat> :| AreFirsts(groups, categories, firsts);
    assert AreFirsts(next, categories + [c], firsts);
  }

  lemma {:induction false} OrderGrows(groups: seq<Group>, categories: seq<string>, c: string, b: Binding)
    requires InOrder(groups, categories) && Partitions(groups, categories) && BindingFor(c) == Some(b)
    requires forall i | 0 <= i < |groups| :: groups[i].agent != b.agent
    ensures InOrder(groups + [Group(b.agent, b.domain, [c])], categories + [c])
  {
    hide BindingFor, IsGroup;
    var firsts: seq<nat> :| AreFirsts(groups, categories, firsts);
    forall j | 0 <= j < |categories| ensures !IsBoundTo(categories[j], b.agent) {
      assert categories[j] in categories;
    }
    assert IsBoundTo(c, b.agent);
    hide IsBoundTo;
    var next := groups + [Group(b.agent, b.domain, [c])];
    var more := firsts + [|categories|];
    forall k, j | 0 <= k < |next| && 0 <= j < more[k] ensures !IsBoundTo((categories + [c])[j], next[k].agent) {
      assert (categories + [c])[j] == categories[j];
    }
    assert AreFirsts(next, categories + [c], more);
  }

  predicate AreNotes(notes: seq<Dropped>, categories: seq<string>, ks: seq<nat>) {
    && Increasing(ks) && |notes| == |ks|
    && (forall j | 0 <= j < |ks| :: ks[j] < |categories| && notes[j] == NoAgentFor(categories[ks[j]]))
    && forall i | 0 <= i < |categories| :: i in ks <==> BindingFor(categories[i]).None?
  }

  lemma {:induction false} NotesGrow(notes: seq<Dropped>, categories: seq<string>, c: string, ks: seq<nat>)
    returns (more: seq<nat>)
    requires AreNotes(notes, categories, ks)
    ensures AreNotes(notes + if BindingFor(c).None? then [NoAgentFor(c)] else [], categories + [c], more)
  {
    hide BindingFor;
    if BindingFor(c).None? {
      more := ks + [|categories|];
      assert forall i :: i in more <==> i in ks || i == |categories|;
    } else {
      more := ks;
      assert |categories| !in ks;
    }
  }

  /** One note for each category without an agent, in their order. */
  lemma {:induction false} UnboundNotes(categories: seq<string>) returns (ks: seq<nat>)
    ensures AreNotes(Unbound(categories), categories, ks)
    decreases categories
  {
    hide BindingFor;
    if categories == [] {
      ks := [];
    } else {
      var n := |categories| - 1;
      var before := UnboundNotes(categories[..n]);
      hide AreNotes;
      ks := NotesGrow(Unbound(categories[..n]), categories[..n], categories[n], before);
      InitLast(categories);
    }
  }

  /** A category bound to an agent goes to its group, in its place among that agent's categories. */
  lemma {:induction false} GroupSelects(g: Group, categories: seq<string>) returns (ks: seq<nat>)
    requires IsGroup(g, categories)
    ensures Selection(ks, categories, g.categories)
    ensures forall i | 0 <= i < |categories| :: i in ks <==> IsBoundTo(categories[i], g.agent)
  {
    ks := FilterSelects(categories, (c: string) => IsBoundTo(c, g.agent));
  }

  lemma {:induction false} BoundByBinding(c: string, b: Binding)
    requires BindingFor(c) == Some(b)
    ensures IsBoundTo(c, b.agent)
  {
  }

  /** `setdefault` and `append`: the category joins the group of its agent, which is new if there is none yet. */
  method AddCategory(byAgent: seq<Group>, ghost before: seq<string>, c: string, b: Binding) returns (next: seq<Group>)
    requires BindingFor(c) == Some(b) && Partitions(byAgent, before) && InOrder(byAgent, before)
    ensures Partitions(next, before + [c]) && InOrder(next, before + [c])
  {
    BoundByBinding(c, b);
    hide *;
    var k := IndexOf(byAgent, b.agent);
    if k < |byAgent| {
      ExtendGroup(byAgent, before, c, k);
      next := byAgent[k := byAgent[k].(categories := byAgent[k].categories + [c])];
      OrderStays(byAgent, next, before, c);
    } else {
      NewGroup(byAgent, before, c, b);
      OrderGrows(byAgent, before, c, b);
      next := byAgent + [Group(b.agent, b.domain, [c])];
    }
  }

  lemma {:induction false} UnboundSnoc(categories: seq<string>, c: string)
    ensures Unbound(categories + [c]) == Unbound(categories) + if BindingFor(c).None? then [NoAgentFor(c)] else []
  {
    InitOfSnoc(categories, c);
  }

  lemma {:induction false} NoGroupsYet()
    ensures Partitions([], []) && InOrder([], [])
  {
    assert AreFirsts([], [], []);
  }

  /** The grouping loop of `discover_run`. */
  method GroupByAgent(categories: seq<string>) returns (byAgent: seq<Group>, notes: seq<Dropped>)
    ensures Partitions(byAgent, categories) && InOrder(byAgent, categories)
    ensures notes == Unbound(categories)
  {
    byAgent, notes := [], [];
    var i := 0;
    NoGroupsYet();
    assert Unbound([]) == [];
    hide *;
    ghost var seen: seq<string> := [];
    while i < |categories|
      invariant 0 <= i <= |categories| && seen == categories[..i]
      invariant Partitions(byAgent, seen) && InOrder(byAgent, seen)
      invariant notes == Unbound(seen)
    {
      var c := categories[i];
      TakeOneMore(categories, i);
      UnboundSnoc(seen, c);
      var binding := BindingFor(c);
      if binding.None? {
        SkipCategory(byAgent, seen, c);
        OrderStays(byAgent, byAgent, seen, c);
        notes := notes + [NoAgentFor(c)];
      } else {
        byAgent := AddCategory(byAgent, seen, c, binding.value);
      }
      seen := seen + [c];
      i := i + 1;
    }
    assert categories[..i] == categories;
  }

  /** Where the dictionary holds the agent, or its size. */
  function IndexOf(groups: seq<Group>, agent: string): (k: nat)
    ensures k <= |groups| && (k < |groups| ==> groups[k].agent == agent)
    ensures k == |groups| ==> forall i | 0 <= i < |groups| :: groups[i].agent != agent
  {
    if groups == [] then 0
    else if groups[0].agent == agent then 0
    else
      var k := IndexOf(groups[1..], agent) + 1;
      assert k == |groups| ==> forall i | 1 <= i < |groups| :: groups[i] == groups[1..][i - 1];
      k
  }

  // ---------------------------------------------------------------- the whole run

  class RunReport {
    var observationsWritten: nat
    var dropped: seq<Dropped>
    var coverage: seq<string>
    var cost: real
    var domainsRun: seq<string>

    constructor ()
      ensures observationsWritten == 0 && dropped == [] && coverage == [] && cost == 0.0 && domainsRun == []
    {
      observationsWritten, dropped, coverage, cost, domainsRun := 0, [], [], 0.0, [];
    }

    method Add(agent: string, written: nat, r: DomainResult)
      modifies this
      ensures observationsWritten == old(observationsWritten) + written
      ensures dropped == old(dropped) + r.dropped && coverage == old(coverage) + r.coverage
      ensures cost == old(cost) + r.cost && domainsRun == old(domainsRun) + [agent]
    {
      observationsWritten := observationsWritten + written;
      dropped := dropped + r.dropped;
      coverage := coverage + r.coverage;
      cost := cost + r.cost;
      domainsRun := domainsRun + [agent];
    }
  }

  class Repo {
    var observations: seq<Observation>
    var status: string

    method WriteObservations(rows: seq<Observation>) returns (written: nat)
      modifies `observations
      ensures observations == old(observations) + rows && written == |rows|
    {
      observations := observations + rows;
      written := |rows|;
    }
  }

  function EvidenceFor(rows: seq<EvidenceRow>, category: string): (r: seq<EvidenceRow>)
    ensures forall e :: e in r <==> e in rows && e.category == category
  {
    Filter(rows, (e: EvidenceRow) => e.category == category)
  }

  /** The union of the evidence of an agent's categories. */
  function EvidenceOf(rows: seq<EvidenceRow>, categories: seq<string>): (r: seq<EvidenceRow>)
    ensures forall e :: e in r <==> e in rows && e.category in categories
  {
    if categories == [] then []
    else EvidenceFor(rows, categories[0]) + EvidenceOf(rows, categories[1..])
  }

  /** Category by category, in the order of the group. */
  lemma {:induction false} EvidenceInOrder(rows: seq<EvidenceRow>, a: seq<string>, b: seq<string>)
    ensures EvidenceOf(rows, a + b) == EvidenceOf(rows, a) + EvidenceOf(rows, b)
    decreases a
  {
    if a == [] {
      assert a + b == b;
    } else {
      EvidenceInOrder(rows, a[1..], b);
      DropOfConcat(a, b, 1);
      Assoc(EvidenceFor(rows, a[0]), EvidenceOf(rows, a[1..]), EvidenceOf(rows, b));
    }
  }

  function IdsOf(rows: seq<EvidenceRow>): set<Uuid> {
    set e | e in rows :: e.id
  }

  /**
   The tables of a run as discovery reads them, the agents that exist with their versions, and the
   gateway: what it replies to an agent's evidence, or None if the call raises.
   */
  datatype Setting = Setting(
    run: nat, rows: seq<EvidenceRow>, assets: set<Uuid>, registry: map<string, string>,
    gateway: (string, seq<EvidenceRow>) -> Option<Reply>, otherUuid: string -> Option<Uuid>)

  /** Whether the agent of a group is called at all. */
  predicate IsCalled(s: Setting, g: Group) {
    g.agent in s.registry && EvidenceOf(s.rows, g.categories) != []
  }

  function Asked(s: Setting, g: Group): Option<Reply> {
    s.gateway(g.agent, EvidenceOf(s.rows, g.categories))
  }

  function ContextFor(s: Setting, g: Group): Context
    requires g.agent in s.registry
  {
    Context(s.run, g.agent, s.registry[g.agent], g.domain, IdsOf(EvidenceOf(s.rows, g.categories)),
            s.assets, s.otherUuid)
  }

  /** A call of an agent for its group, and what came of it. */
  datatype Call = Call(group: Group, reply: Reply, result: DomainResult)

  ghost predicate IsCall(s: Setting, categories: seq<string>, c: Call) {
    && c.group.agent in s.registry && IsGroup(c.group, categories) && Asked(s, c.group) == Some(c.reply)
    && IsResult(ContextFor(s, c.group), c.reply, c.result)
  }

  ghost function Written(calls: seq<Call>): seq<Observation> {
    if calls == [] then []
    else Written(calls[..|calls| - 1]) + calls[|calls| - 1].result.observations
  }

  ghost function Coverage(calls: seq<Call>): seq<string> {
    if calls == [] then []
    else Coverage(calls[..|calls| - 1]) + calls[|calls| - 1].result.coverage
  }

  ghost function Cost(calls: seq<Call>): real {
    if calls == [] then 0.0
    else Cost(calls[..|calls| - 1]) + calls[|calls| - 1].result.cost
  }

  ghost function Agents(calls: seq<Call>): seq<string> {
    if calls == [] then []
    else Agents(calls[..|calls| - 1]) + [calls[|calls| - 1].group.agent]
  }

  /** The notes of a run, group by group: an agent that does not exist, or what its call dropped. */
  ghost function Drops(s: Setting, groups: seq<Group>, calls: seq<Call>): seq<Dropped>
    decreases groups
  {
    if groups == [] then []
    else
      var before, g := groups[..|groups| - 1], groups[|groups| - 1];
      if g.agent !in s.registry then Drops(s, before, calls) + [NotInRegistry(g.agent)]
      else if calls != [] && calls[|calls| - 1].group == g
      then Drops(s, before, calls[..|calls| - 1]) + calls[|calls| - 1].result.dropped
      else Drops(s, before, calls)
  }

  /** The note for an agent that does not exist. */
  predicate IsMissing(s: Setting, g: Group, d: Dropped) {
    g.agent !in s.registry && d == NotInRegistry(g.agent)
  }

  /** Every agent that does not exist is noted; all other notes are of calls. */
  lemma {:induction false} NotesAre(s: Setting, groups: seq<Group>, calls: seq<Call>, d: Dropped)
    ensures (exists g :: g in groups && IsMissing(s, g, d)) ==> d in Drops(s, groups, calls)
    ensures d in Drops(s, groups, calls) ==>
              || (exists g :: g in groups && IsMissing(s, g, d))
              || (exists c :: c in calls && d in c.result.dropped)
    decreases groups
  {
    if groups != [] {
      var n := |groups| - 1;
      NotesAre(s, groups[..n], calls, d);
      assert groups == groups[..n] + [groups[n]] && groups[n] in groups;
      if calls != [] {
        NotesAre(s, groups[..n], calls[..|calls| - 1], d);
        assert calls == calls[..|calls| - 1] + [calls[|calls| - 1]] && calls[|calls| - 1] in calls;
      }
      assert d in Drops(s, groups, calls) && groups[n].agent !in s.registry && d !in Drops(s, groups[..n], calls) ==>
               IsMissing(s, groups[n], d);
    }
  }

  lemma {:induction false} DropsMissing(s: Setting, groups: seq<Group>, n: nat, calls: seq<Call>)
    requires n < |groups| && groups[n].agent !in s.registry
    ensures Drops(s, groups[..n + 1], calls) == Drops(s, groups[..n], calls) + [NotInRegistry(groups[n].agent)]
  {
    TakeOneMore(groups, n);
    InitOfSnoc(groups[..n], groups[n]);
  }

  lemma {:induction false} DropsCalled(s: Setting, groups: seq<Group>, n: nat, calls: seq<Call>, c: Call)
    requires n < |groups| && groups[n].agent in s.registry && c.group == groups[n]
    ensures Drops(s, groups[..n + 1], calls + [c]) == Drops(s, groups[..n], calls) + c.result.dropped
  {
    TakeOneMore(groups, n);
    InitOfSnoc(groups[..n], groups[n]);
    InitOfSnoc(calls, c);
  }

  lemma {:induction false} DropsIdle(s: Setting, categories: seq<string>, groups: seq<Group>, n: nat, calls: seq<Call>)
    requires n < |groups| && groups[n].agent in s.registry
    requires Partitions(groups, categories) && CallsFor(s, categories, groups, n, calls)
    ensures Drops(s, groups[..n + 1], calls) == Drops(s, groups[..n], calls)
  {
    hide IsCall, IsGroup, Drops;
    TakeOneMore(groups, n);
    InitOfSnoc(groups[..n], groups[n]);
    var ks: seq<nat> :| AreCalls(groups, n, calls, ks);
    assert calls != [] ==> calls[|calls| - 1].group.agent != groups[n].agent;
    OneMoreGroup(s, groups[..n], groups[n], calls);
  }

  lemma {:induction false} OneMoreGroup(s: Setting, groups: seq<Group>, g: Group, calls: seq<Call>)
    requires g.agent in s.registry && (calls != [] ==> calls[|calls| - 1].group != g)
    ensures Drops(s, groups + [g], calls) == Drops(s, groups, calls)
  {
    InitOfSnoc(groups, g);
  }

  lemma {:induction false} TotalsSnoc(calls: seq<Call>, c: Call)
    ensures Written(calls + [c]) == Written(calls) + c.result.observations
    ensures Coverage(calls + [c]) == Coverage(calls) + c.result.coverage
    ensures Cost(calls + [c]) == Cost(calls) + c.result.cost
    ensures Agents(calls + [c]) == Agents(calls) + [c.group.agent]
  {
    assert (calls + [c])[..|calls|] == calls;
  }

  predicate AreCalls(groups: seq<Group>, n: nat, calls: seq<Call>, ks: seq<nat>)
    requires n <= |groups|
  {
    Increasing(ks) && |ks| == |calls| && forall k | 0 <= k < |calls| :: ks[k] < n && calls[k].group == groups[ks[k]]
  }

  /** The calls made for the first `n` groups: each for its own group, in their order, so no agent twice. */
  ghost predicate CallsFor(s: Setting, categories: seq<string>, groups: seq<Group>, n: nat, calls: seq<Call>)
    requires n <= |groups|
  {
    && (forall k | 0 <= k < |calls| :: IsCall(s, categories, calls[k]))
    && (exists ks :: AreCalls(groups, n, calls, ks))
    && (forall k, l | 0 <= k < l < |calls| :: calls[k].group.agent != calls[l].group.agent)
  }

  /** No agent that has evidence was passed over. */
  ghost predicate AllCalled(s: Setting, groups: seq<Group>, n: nat, calls: seq<Call>)
    requires n <= |groups|
  {
    forall i | 0 <= i < n && IsCalled(s, groups[i]) :: exists k :: 0 <= k < |calls| && calls[k].group == groups[i]
  }

  lemma {:induction false} CalledStays(s: Setting, groups: seq<Group>, n: nat, calls: seq<Call>, c: Call)
    requires n < |groups| && AllCalled(s, groups, n, calls) && c.group == groups[n]
    ensures AllCalled(s, groups, n + 1, calls + [c])
  {
    var more := calls + [c];
    forall i | 0 <= i < n + 1 && IsCalled(s, groups[i])
      ensures exists k :: 0 <= k < |more| && more[k].group == groups[i]
    {
      if i == n {
        assert more[|calls|].group == groups[i];
      } else {
        var k :| 0 <= k < |calls| && calls[k].group == groups[i];
        assert more[k].group == groups[i];
      }
    }
  }

  lemma {:induction false} SkipOrCall(s: Setting, groups: seq<Group>, n: nat, calls: seq<Call>)
    requires n < |groups| && AllCalled(s, groups, n, calls)
    ensures !(groups[n].agent in s.registry && EvidenceOf(s.rows, groups[n].categories) != []) ==>
              AllCalled(s, groups, n + 1, calls)
  {
  }

  lemma {:induction false} CallFailed(s: Setting, groups: seq<Group>, g: Group)
    requires g in groups && g.agent in s.registry && EvidenceOf(s.rows, g.categories) != []
    requires s.gateway(g.agent, EvidenceOf(s.rows, g.categories)).None?
    ensures exists g :: g in groups && IsCalled(s, g) && Asked(s, g).None?
  {
    assert IsCalled(s, g) && Asked(s, g).None?;
  }

  lemma {:induction false} OneMoreCall(
    s: Setting, categories: seq<string>, groups: seq<Group>, n: nat, calls: seq<Call>, c: Call)
    requires n < |groups| && Partitions(groups, categories) && CallsFor(s, categories, groups, n, calls)
    requires c.group == groups[n] && IsCall(s, categories, c)
    ensures CallsFor(s, categories, groups, n + 1, calls + [c])
  {
    hide IsCall, IsGroup;
    var ks: seq<nat> :| AreCalls(groups, n, calls, ks);
    assert AreCalls(groups, n + 1, calls + [c], ks + [n]);
    forall k | 0 <= k < |calls| ensures calls[k].group.agent != c.group.agent {
      assert groups[ks[k]].agent != groups[n].agent;
    }
  }

  lemma {:induction false} NoMoreCall(s: Setting, categories: seq<string>, groups: seq<Group>, n: nat, calls: seq<Call>)
    requires n < |groups| && CallsFor(s, categories, groups, n, calls)
    ensures CallsFor(s, categories, groups, n + 1, calls)
  {
    hide IsCall;
    var ks: seq<nat> :| AreCalls(groups, n, calls, ks);
    assert AreCalls(groups, n + 1, calls, ks);
  }

  /**
   `discover_run`. A gateway that fails ends the run where it is: what was written stays and the status
   says "discovering".
   */
  method DiscoverRun(repo: Repo, s: Setting, categories: seq<string>)
    returns (report: RunReport, completed: bool, ghost groups: seq<Group>, ghost calls: seq<Call>)
    modifies repo
    ensures Partitions(groups, categories) && InOrder(groups, categories)
    ensures CallsFor(s, categories, groups, |groups|, calls)
    ensures repo.observations == old(repo.observations) + Written(calls)
    ensures repo.status == if completed then "reporting" else "discovering"
    ensures if completed then AllCalled(s, groups, |groups|, calls)
            else exists g :: g in groups && IsCalled(s, g) && Asked(s, g).None?
    ensures completed ==>
              && report.observationsWritten == |Written(calls)|
              && report.dropped == Unbound(categories) + Drops(s, groups, calls)
              && report.coverage == Coverage(calls) && report.cost == Cost(calls) && report.domainsRun == Agents(calls)
  {
    hide *;
    repo.status := "discovering";
    report := new RunReport();
    calls := [];
    var byAgent, notes := GroupByAgent(categories);
    groups := byAgent;
    report.dropped := notes;
    EmptyTotals(s, categories, groups);
    var i := 0;
    while i < |byAgent|
      invariant 0 <= i <= |byAgent|
      invariant CallsFor(s, categories, groups, i, calls) && AllCalled(s, groups, i, calls)
      invariant repo.observations == old(repo.observations) + Written(calls)
      invariant repo.status == "discovering"
      invariant report.observationsWritten == |Written(calls)|
      invariant report.dropped == notes + Drops(s, byAgent[..i], calls)
      invariant report.coverage == Coverage(calls) && report.cost == Cost(calls) && report.domainsRun == Agents(calls)
    {
      var g := byAgent[i];
      NoMoreCall(s, categories, groups, i, calls);
      SkipOrCall(s, groups, i, calls);
      if g.agent !in s.registry {
        DropsMissing(s, byAgent, i, calls);
        report.dropped := report.dropped + [NotInRegistry(g.agent)];
      } else {
        var evidence := EvidenceOf(s.rows, g.categories);
        if evidence != [] {
          var reply := s.gateway(g.agent, evidence);
          if reply.None? {
            AllCallsSoFar(s, categories, groups, i + 1, calls);
            CallFailed(s, groups, g);
            return report, false, groups, calls;
          }
          var ctx := Context(s.run, g.agent, s.registry[g.agent], g.domain, IdsOf(evidence), s.assets, s.otherUuid);
          var result := RunDomain(ctx, reply.value);
          ghost var call := Call(g, reply.value, result);
          CallMade(s, categories, groups, i, ctx, call);
          OneMoreCall(s, categories, groups, i, calls, call);
          CalledStays(s, groups, i, calls, call);
          TotalsSnoc(calls, call);
          DropsCalled(s, byAgent, i, calls, call);
          calls := calls + [call];
          var written := repo.WriteObservations(result.observations);
          report.Add(g.agent, written, result);
        } else {
          DropsIdle(s, categories, groups, i, calls);
        }
      }
      i := i + 1;
    }
    assert byAgent[..i] == groups;
    repo.status := "reporting";
    completed := true;
  }

  lemma {:induction false} EmptyTotals(s: Setting, categories: seq<string>, groups: seq<Group>)
    ensures CallsFor(s, categories, groups, 0, []) && AllCalled(s, groups, 0, [])
    ensures Written([]) == [] && Coverage([]) == [] && Cost([]) == 0.0 && Agents([]) == []
    ensures Drops(s, groups[..0], []) == []
  {
    assert AreCalls(groups, 0, [], []);
  }

  lemma {:induction false} CallMade(
    s: Setting, categories: seq<string>, groups: seq<Group>, n: nat, ctx: Context, c: Call)
    requires n < |groups| && Partitions(groups, categories) && c.group == groups[n] && c.group.agent in s.registry
    requires ctx == Context(s.run, c.group.agent, s.registry[c.group.agent], c.group.domain,
                            IdsOf(EvidenceOf(s.rows, c.group.categories)), s.assets, s.otherUuid)
    requires IsResult(ctx, c.reply, c.result)
    requires s.gateway(c.group.agent, EvidenceOf(s.rows, c.group.categories)) == Some(c.reply)
    ensures IsCall(s, categories, c)
  {
    hide IsResult, IsGroup;
  }

  lemma {:induction false} AllCallsSoFar(
    s: Setting, categories: seq<string>, groups: seq<Group>, n: nat, calls: seq<Call>)
    requires n <= |groups| && CallsFor(s, categories, groups, n, calls)
    ensures CallsFor(s, categories, groups, |groups|, calls)
  {
    hide IsCall;
    var ks: seq<nat> :| AreCalls(groups, n, calls, ks);
    assert AreCalls(groups, |groups|, calls, ks);
  }

  /** Provenance in terms of the run's tables. */
  ghost predicate IsFromRun(s: Setting, categories: seq<string>, o: Observation) {
    && o.run == s.run
    && o.evidence != []
    && (forall u | u in o.evidence ::
          exists e :: e in s.rows && e.id == u && e.category in categories && IsBoundTo(e.category, o.agent))
    && o.asset in s.assets && (forall u | u in o.related :: u in s.assets)
    && (exists c :: c in categories && BindingFor(c) == Some(Binding(o.domain, o.agent)))
  }

  lemma {:induction false} CallIsFromRun(s: Setting, categories: seq<string>, c: Call, o: Observation)
    requires IsCall(s, categories, c) && o in c.result.observations
    ensures IsFromRun(s, categories, o)
  {
    hide IsResult, ReadUuid, EvidenceOf, BoundTo;
    var ctx := ContextFor(s, c.group);
    ResultHasProvenance(ctx, c.reply, c.result);
    assert HasProvenance(ctx, o);
    var first := c.group.categories[0];
    assert first in categories && BindingFor(first) == Some(Binding(o.domain, o.agent));
    forall u | u in o.evidence
      ensures exists e :: e in s.rows && e.id == u && e.category in categories && IsBoundTo(e.category, o.agent)
    {
      var e :| e in EvidenceOf(s.rows, c.group.categories) && e.id == u;
      assert e in s.rows && e.category in BoundTo(categories, o.agent);
    }
  }

  lemma {:induction false} FewerCalls(s: Setting, categories: seq<string>, groups: seq<Group>, calls: seq<Call>, n: nat)
    requires n <= |calls| && CallsFor(s, categories, groups, |groups|, calls)
    ensures CallsFor(s, categories, groups, |groups|, calls[..n])
  {
    hide IsCall;
    var ks: seq<nat> :| AreCalls(groups, |groups|, calls, ks);
    assert AreCalls(groups, |groups|, calls[..n], ks[..n]);
  }

  /** Every observation that a run writes, finished or not, is sourced from what its agent was given. */
  lemma {:induction false} WrittenIsFromRun(s: Setting, categories: seq<string>, groups: seq<Group>, calls: seq<Call>)
    requires CallsFor(s, categories, groups, |groups|, calls)
    ensures forall o | o in Written(calls) :: IsFromRun(s, categories, o)
    decreases calls
  {
    hide IsCall, IsFromRun;
    if calls != [] {
      var n := |calls| - 1;
      FewerCalls(s, categories, groups, calls, n);
      WrittenIsFromRun(s, categories, groups, calls[..n]);
      forall o | o in calls[n].result.observations ensures IsFromRun(s, categories, o) {
        CallIsFromRun(s, categories, calls[n], o);
      }
    }
  }
}
