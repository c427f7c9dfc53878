/**
 The tables that ingestion and normalization share, each SQL statement as one atomic step, and the
 database object whose methods perform them.
 */
module EvidenceTables {
  import opened Wrappers

  type EvidenceId = nat
  type RunId = nat
  type AssetId = nat
  type TenantId = nat

  /** Key of a raw object in the store: `runs/<run>/items/<item>.raw`. */
  datatype Ref = Ref(run: RunId, item: EvidenceId)

  /** A row of `evidence_items`; `parsed` is None until the item has been normalized. */
  datatype Row = Row(
    run: RunId, tool: string, version: string, category: string, rawRef: Ref, createdAt: int,
    assetId: Option<AssetId>, parsed: Option<string>, confidence: real, redactions: seq<string>)

  datatype AssetKey = AssetKey(tenant: TenantId, naturalKey: string)

  /** A row of `assets`. */
  datatype Asset = Asset(id: AssetId, run: RunId, kind: string, name: string, attributes: map<string, string>)

  datatype AuditRun = AuditRun(scope: string, status: string)

  datatype Tables = Tables(
    evidence: map<EvidenceId, Row>,
    assets: map<AssetKey, Asset>,
    objects: map<Ref, string>,
    runs: map<RunId, AuditRun>)

  /** What a parser says about the asset that a piece of evidence describes. */
  datatype Hint = Hint(kind: string, naturalKey: string, name: string, attributes: map<string, string>)

  // ---------------------------------------------------------------- ingestion

  datatype Item = Item(id: EvidenceId, tool: string, version: string, category: string, raw: string)

  function NewRow(run: RunId, item: Item, now: int): Row {
    Row(run, item.tool, item.version, item.category, Ref(run, item.id), now, None, None, 0.0, [])
  }

  /** Store the raw bytes, then INSERT ... ON CONFLICT (id) DO NOTHING. */
  function IngestItem(t: Tables, run: RunId, item: Item, now: int): Tables {
    t.(objects := t.objects[Ref(run, item.id) := item.raw],
       evidence := if item.id in t.evidence then t.evidence
                   else t.evidence[item.id := NewRow(run, item, now)])
  }

  function IngestItems(t: Tables, run: RunId, items: seq<Item>, now: int): Tables {
    if items == [] then t
    else IngestItem(IngestItems(t, run, items[..|items| - 1], now), run, items[|items| - 1], now)
  }

  /** The row counts of those INSERTs, added up. */
  function Inserted(t: Tables, run: RunId, items: seq<Item>, now: int): nat {
    if items == [] then 0
    else
      var before := items[..|items| - 1];
      Inserted(t, run, before, now)
        + if items[|items| - 1].id in IngestItems(t, run, before, now).evidence then 0 else 1
  }

  /** The transaction of one uploaded bundle; the run status is set whatever it was. */
  function IngestBundle(t: Tables, run: RunId, items: seq<Item>, now: int): Tables {
    if run !in t.runs then t
    else
      var u := IngestItems(t, run, items, now);
      u.(runs := t.runs[run := t.runs[run].(status := "normalizing")])
  }

  /** The `accepted` field of the reply. */
  function Accepted(t: Tables, run: RunId, items: seq<Item>, now: int): nat {
    if run in t.runs then Inserted(t, run, items, now) else 0
  }

  // ---------------------------------------------------------------- normalization statements

  predicate IsPending(t: Tables, scope: Option<RunId>, id: EvidenceId) {
    id in t.evidence && t.evidence[id].parsed.None? && (scope.None? || t.evidence[id].run == scope.value)
  }

  function Pending(t: Tables, scope: Option<RunId>): set<EvidenceId> {
    set id | id in t.evidence && IsPending(t, scope, id)
  }

  function Members(batch: seq<EvidenceId>): set<EvidenceId> {
    set id | id in batch
  }

  function Min(a: nat, b: nat): nat {
    if a < b then a else b
  }

  predicate Distinct(batch: seq<EvidenceId>) {
    forall i, j | 0 <= i < j < |batch| :: batch[i] != batch[j]
  }

  /**
   What SELECT ... WHERE parsed IS NULL ORDER BY created_at LIMIT n may return. Rows of one transaction
   share their creation time, so the choice among equally old rows is open.
   */
  ghost predicate IsFetch(t: Tables, scope: Option<RunId>, limit: nat, batch: seq<EvidenceId>) {
    && Distinct(batch)
    && Members(batch) <= Pending(t, scope)
    && |batch| == Min(limit, |Pending(t, scope)|)
    && InOrder(t, batch)
    && NoneOlder(t, batch, Pending(t, scope) - Members(batch))
  }

  function Age(t: Tables, id: EvidenceId): int {
    if id in t.evidence then t.evidence[id].createdAt else 0
  }

  predicate InOrder(t: Tables, batch: seq<EvidenceId>) {
    forall i, j | 0 <= i < j < |batch| :: Age(t, batch[i]) <= Age(t, batch[j])
  }

  /** Nothing left out is older than anything taken. */
  ghost predicate NoneOlder(t: Tables, batch: seq<EvidenceId>, rest: set<EvidenceId>) {
    forall i, id | 0 <= i < |batch| && id in rest :: Age(t, batch[i]) <= Age(t, id)
  }

  /** A fetch under way: `rest` is what is still to choose from. */
  ghost predicate IsPartialFetch(
    t: Tables, scope: Option<RunId>, limit: nat, batch: seq<EvidenceId>, rest: set<EvidenceId>)
  {
    && rest <= Pending(t, scope) && Members(batch) == Pending(t, scope) - rest
    && Distinct(batch) && InOrder(t, batch) && NoneOlder(t, batch, rest)
    && |batch| <= limit && |batch| + |rest| == |Pending(t, scope)|
  }

  lemma {:induction false} TakeNext(
    t: Tables, scope: Option<RunId>, limit: nat, batch: seq<EvidenceId>, rest: set<EvidenceId>, next: EvidenceId)
    requires IsPartialFetch(t, scope, limit, batch, rest) && |batch| < limit
    requires next in rest && forall id | id in rest :: Age(t, next) <= Age(t, id)
    ensures IsPartialFetch(t, scope, limit, batch + [next], rest - {next})
  {
    assert next !in Members(batch);
    assert forall i | 0 <= i < |batch| :: batch[i] in Members(batch);
    assert Members(batch + [next]) == Members(batch) + {next};
    assert Members(batch + [next]) == Pending(t, scope) - (rest - {next});
  }

  lemma {:induction false} FetchDone(
    t: Tables, scope: Option<RunId>, limit: nat, batch: seq<EvidenceId>, rest: set<EvidenceId>)
    requires IsPartialFetch(t, scope, limit, batch, rest) && (|batch| == limit || rest == {})
    ensures IsFetch(t, scope, limit, batch)
  {
    assert Pending(t, scope) - Members(batch) == rest;
  }

  /** In terms of the columns: pending rows of the scope, and the left out ones are no older. */
  lemma {:induction false} FetchMeans(t: Tables, scope: Option<RunId>, limit: nat, batch: seq<EvidenceId>)
    requires IsFetch(t, scope, limit, batch)
    ensures forall id | id in batch ::
              id in t.evidence && t.evidence[id].parsed.None? && (scope.Some? ==> t.evidence[id].run == scope.value)
    ensures forall id | id in t.evidence && t.evidence[id].parsed.None? && id !in batch
                        && (scope.Some? ==> t.evidence[id].run == scope.value) ::
              |batch| == limit && forall other | other in batch :: t.evidence[other].createdAt <= t.evidence[id].createdAt
  {
    assert forall id :: id in batch <==> id in Members(batch);
    forall id | id in t.evidence && t.evidence[id].parsed.None? && id !in batch
                && (scope.Some? ==> t.evidence[id].run == scope.value)
      ensures |batch| == limit && forall other | other in batch :: t.evidence[other].createdAt <= t.evidence[id].createdAt
    {
      assert id in Pending(t, scope) - Members(batch);
      DistinctMembers(batch);
      assert Members(batch) + {id} <= Pending(t, scope);
      SubsetSize(Members(batch) + {id}, Pending(t, scope));
      forall other | other in batch ensures t.evidence[other].createdAt <= t.evidence[id].createdAt {
        var i :| 0 <= i < |batch| && batch[i] == other;
        assert Age(t, batch[i]) <= Age(t, id);
      }
    }
  }

  lemma {:induction false} SubsetSize<T>(a: set<T>, b: set<T>)
    requires a <= b
    ensures |a| <= |b| && |b - a| == |b| - |a|
  {
    assert b == a + (b - a);
  }

  lemma {:induction false} DistinctMembers(batch: seq<EvidenceId>)
    requires Distinct(batch)
    ensures |Members(batch)| == |batch|
    decreases batch
  {
    if batch != [] {
      var n := |batch| - 1;
      DistinctMembers(batch[..n]);
      assert Members(batch) == Members(batch[..n]) + {batch[n]};
      assert batch[n] !in Members(batch[..n]);
    }
  }

  /** INSERT ... ON CONFLICT (tenant_id, natural_key) DO UPDATE: attributes are merged, the new ones win. */
  function UpsertAsset(t: Tables, tenant: TenantId, run: RunId, hint: Hint, newId: AssetId): Tables {
    var key := AssetKey(tenant, hint.naturalKey);
    t.(assets := t.assets[key :=
      if key in t.assets
      then t.assets[key].(attributes := t.assets[key].attributes + hint.attributes)
      else Asset(newId, run, hint.kind, hint.name, hint.attributes)])
  }

  datatype Normalized = Normalized(
    parsed: string, confidence: real, redactions: seq<string>, hint: Option<Hint>)

  function FinishedRow(row: Row, asset: Option<AssetId>, n: Normalized): Row {
    row.(parsed := Some(n.parsed), assetId := if asset.Some? then asset else row.assetId,
         confidence := n.confidence, redactions := n.redactions)
  }

  /** UPDATE evidence_items SET parsed, asset_id = COALESCE(new, old), confidence, redactions. */
  function WriteParsed(t: Tables, id: EvidenceId, asset: Option<AssetId>, n: Normalized): Tables {
    if id in t.evidence then t.(evidence := t.evidence[id := FinishedRow(t.evidence[id], asset, n)]) else t
  }

  // ---------------------------------------------------------------- parsing

  /** The eight tools that have a parser. */
  const TOOLS := {"lscpu", "lsblk", "lspci", "uname", "hwprobe", "ip", "ss", "findmnt"}

  datatype ParseResult = ParseResult(parsed: string, confidence: real, hint: Option<Hint>)
  datatype Redacted = Redacted(value: string, rules: seq<string>)

  /** The deterministic parts that the steps call: parsers by tool (raw, version, scope), redaction. */
  datatype World = World(
    tenant: TenantId,
    parse: (string, string, string, string) -> Option<ParseResult>,
    redact: string -> Redacted)

  /** What normalizing a row yields, or None if it has no parser, its inputs are missing or parsing fails. */
  function Outcome(w: World, t: Tables, row: Row): Option<Normalized> {
    if row.tool !in TOOLS || row.rawRef !in t.objects || row.run !in t.runs then None
    else
      match w.parse(row.tool, t.objects[row.rawRef], row.version, t.runs[row.run].scope)
      case None => None
      case Some(r) =>
        var red := w.redact(r.parsed);
        Some(Normalized(red.value, r.confidence, red.rules, r.hint))
  }

  // ---------------------------------------------------------------- the database object

  class Database {
    var evidence: map<EvidenceId, Row>
    var assets: map<AssetKey, Asset>
    var objects: map<Ref, string>
    var runs: map<RunId, AuditRun>

    function Now(): Tables
      reads this
    {
      Tables(evidence, assets, objects, runs)
    }

    constructor ()
      ensures Now() == Tables(map[], map[], map[], map[])
    {
      evidence, assets, objects, runs := map[], map[], map[], map[];
    }

    method Ingest(run: RunId, items: seq<Item>, now: int) returns (accepted: Option<nat>)
      modifies this
      ensures Now() == IngestBundle(old(Now()), run, items, now)
      ensures run !in old(runs) ==> Now() == old(Now())
      ensures run in old(runs) ==> runs == old(runs)[run := old(runs[run]).(status := "normalizing")]
      ensures accepted.Some? <==> run in old(runs)
      ensures accepted.Some? ==> accepted.value == Accepted(old(Now()), run, items, now)
    {
      if run !in runs {
        return None;
      }
      var inserted := 0;
      var i := 0;
      while i < |items|
        invariant 0 <= i <= |items|
        invariant Now() == IngestItems(old(Now()), run, items[..i], now)
        invariant runs == old(runs)
        invariant inserted == Inserted(old(Now()), run, items[..i], now)
      {
        var item := items[i];
        assert items[..i + 1][..i] == items[..i];
        objects := objects[Ref(run, item.id) := item.raw];
        if item.id !in evidence {
          evidence := evidence[item.id := NewRow(run, item, now)];
          inserted := inserted + 1;
        }
        i := i + 1;
      }
      assert items[..i] == items;
      runs := runs[run := runs[run].(status := "normalizing")];
      accepted := Some(inserted);
    }

    method Oldest(ids: set<EvidenceId>) returns (oldest: EvidenceId)
      requires ids != {} && ids <= evidence.Keys
      ensures oldest in ids && forall id | id in ids :: Age(Now(), oldest) <= Age(Now(), id)
    {
      oldest :| oldest in ids;
      var rest := ids - {oldest};
      while rest != {}
        invariant rest <= ids && oldest in ids
        invariant forall id | id in ids - rest :: Age(Now(), oldest) <= Age(Now(), id)
        decreases rest
      {
        var id :| id in rest;
        if evidence[id].createdAt < evidence[oldest].createdAt {
          oldest := id;
        }
        rest := rest - {id};
      }
    }

    method FetchPending(scope: Option<RunId>, limit: nat) returns (batch: seq<EvidenceId>)
      ensures IsFetch(Now(), scope, limit, batch)
      ensures forall id | id in batch ::
                id in evidence && evidence[id].parsed.None? && (scope.Some? ==> evidence[id].run == scope.value)
      ensures forall id | id in evidence && evidence[id].parsed.None? && id !in batch
                          && (scope.Some? ==> evidence[id].run == scope.value) ::
                |batch| == limit && forall other | other in batch :: evidence[other].createdAt <= evidence[id].createdAt
    {
      var rest := Pending(Now(), scope);
      batch := [];
      while |batch| < limit && rest != {}
        invariant IsPartialFetch(Now(), scope, limit, batch, rest)
        decreases rest
      {
        var next := Oldest(rest);
        TakeNext(Now(), scope, limit, batch, rest, next);
        batch := batch + [next];
        rest := rest - {next};
      }
      FetchDone(Now(), scope, limit, batch, rest);
      FetchMeans(Now(), scope, limit, batch);
    }

    method Upsert(tenant: TenantId, run: RunId, hint: Hint, newId: AssetId) returns (id: AssetId)
      modifies this`assets
      ensures Now() == UpsertAsset(old(Now()), tenant, run, hint, newId)
      ensures AssetKey(tenant, hint.naturalKey) in assets && id == assets[AssetKey(tenant, hint.naturalKey)].id
    {
      var key := AssetKey(tenant, hint.naturalKey);
      if key in assets {
        var asset := assets[key];
        assets := assets[key := asset.(attributes := asset.attributes + hint.attributes)];
      } else {
        assets := assets[key := Asset(newId, run, hint.kind, hint.name, hint.attributes)];
      }
      id := assets[key].id;
    }

    method Write(id: EvidenceId, asset: Option<AssetId>, n: Normalized)
      modifies this`evidence
      ensures Now() == WriteParsed(old(Now()), id, asset, n)
    {
      if id in evidence {
        var row := evidence[id];
        evidence := evidence[id := row.(
          parsed := Some(n.parsed), assetId := if asset.Some? then asset else row.assetId,
          confidence := n.confidence, redactions := n.redactions)];
      }
    }
  }
}
