/**
 Where everything in the tables comes from. Over any run from empty tables, interleaved, faulty and crashing
 as it may be: rows and raw objects come from the uploads, results are redacted outputs of the row's parser on
 bytes that were uploaded for it, and assets and links come from what those outputs say.
 */
module Provenance {
  import opened Wrappers
  import opened EvidenceTables
  import opened Pipeline
  import Sequences

  // ---------------------------------------------------------------- uploads

  /** One item of an accepted upload. */
  datatype Upload = Upload(run: RunId, item: Item, now: int)

  function UploadsOf(run: RunId, items: seq<Item>, now: int): (h: seq<Upload>)
    ensures |h| == |items| && forall i | 0 <= i < |items| :: h[i] == Upload(run, items[i], now)
  {
    seq(|items|, i requires 0 <= i < |items| => Upload(run, items[i], now))
  }

  /** An upload for a run that does not exist is refused. */
  function UploadsIn(known: set<RunId>, e: Event): seq<Upload> {
    if e.Ingest? && e.run in known then UploadsOf(e.run, e.items, e.now) else []
  }

  function Uploads(known: set<RunId>, events: seq<Event>): seq<Upload> {
    if events == [] then [] else UploadsIn(known, events[0]) + Uploads(known, events[1..])
  }

  /** Where the id was uploaded first, or the length. */
  function FirstOf(h: seq<Upload>, id: EvidenceId): (k: nat)
    ensures k <= |h| && (k < |h| ==> h[k].item.id == id) && forall j | 0 <= j < k :: h[j].item.id != id
  {
    if h == [] then 0
    else
      var n := |h| - 1;
      var k := FirstOf(h[..n], id);
      if k < n || h[n].item.id == id then k else |h|
  }

  /** Where bytes for the reference were uploaded last, or -1. */
  function LastOf(h: seq<Upload>, ref: Ref): (k: int)
    ensures -1 <= k < |h| && (k != -1 ==> Ref(h[k].run, h[k].item.id) == ref)
    ensures forall j | k < j < |h| :: Ref(h[j].run, h[j].item.id) != ref
  {
    if h == [] then -1
    else
      var n := |h| - 1;
      if Ref(h[n].run, h[n].item.id) == ref then n else LastOf(h[..n], ref)
  }

  // ---------------------------------------------------------------- what is kept

  /** Rows are those of the first upload of their id, objects hold the bytes of the last one. */
  ghost predicate Stored(scopes: map<RunId, string>, h: seq<Upload>, t: Tables) {
    ScopesKept(scopes, t) && RowsStored(h, t) && ObjectsStored(h, t)
  }

  predicate ScopesKept(scopes: map<RunId, string>, t: Tables) {
    t.runs.Keys == scopes.Keys && forall run | run in scopes :: t.runs[run].scope == scopes[run]
  }

  ghost predicate RowsStored(h: seq<Upload>, t: Tables) {
    && (forall id :: id in t.evidence <==> FirstOf(h, id) < |h|)
    && (forall id | id in t.evidence :: IsRowOf(t.evidence[id], h[FirstOf(h, id)]))
  }

  ghost predicate ObjectsStored(h: seq<Upload>, t: Tables) {
    && (forall ref :: ref in t.objects <==> LastOf(h, ref) != -1)
    && (forall ref | ref in t.objects :: t.objects[ref] == h[LastOf(h, ref)].item.raw)
  }

  /** The columns that the row got when it was inserted. */
  predicate IsRowOf(row: Row, u: Upload) {
    && row.run == u.run && row.tool == u.item.tool && row.version == u.item.version
    && row.category == u.item.category && row.rawRef == Ref(u.run, u.item.id) && row.createdAt == u.now
  }

  /** The row's parser made `n` of the uploaded bytes, redacted. */
  predicate IsResultOf(w: World, scopes: map<RunId, string>, row: Row, u: Upload, n: Normalized) {
    && Ref(u.run, u.item.id) == row.rawRef && row.run in scopes && row.tool in TOOLS
    && var r := w.parse(row.tool, u.item.raw, row.version, scopes[row.run]);
       && r.Some? && n.parsed == w.redact(r.value.parsed).value && n.redactions == w.redact(r.value.parsed).rules
       && n.confidence == r.value.confidence && n.hint == r.value.hint
  }

  predicate IsResult(w: World, scopes: map<RunId, string>, h: seq<Upload>, row: Row, n: Normalized) {
    exists k | 0 <= k < |h| :: IsResultOf(w, scopes, row, h[k], n)
  }

  /** Some row's result says so. */
  ghost predicate IsSaid(w: World, scopes: map<RunId, string>, h: seq<Upload>, t: Tables, run: RunId, hint: Hint) {
    exists id, n: Normalized :: id in t.evidence && t.evidence[id].run == run && n.hint == Some(hint)
      && IsResult(w, scopes, h, t.evidence[id], n)
  }

  ghost predicate ResultsKept(w: World, scopes: map<RunId, string>, h: seq<Upload>, t: Tables) {
    forall id | id in t.evidence && t.evidence[id].parsed.Some? :: HasResult(w, scopes, h, t, t.evidence[id])
  }

  /** A result is linked to the asset it names, if it names one. */
  ghost predicate HasResult(w: World, scopes: map<RunId, string>, h: seq<Upload>, t: Tables, row: Row)
    requires row.parsed.Some?
  {
    exists hint ::
      && IsResult(w, scopes, h, row, Normalized(row.parsed.value, row.confidence, row.redactions, hint))
      && IsLinked(w, t, row, hint)
  }

  predicate IsLinked(w: World, t: Tables, row: Row, hint: Option<Hint>) {
    hint.Some? ==> row.assetId.Some? && IsAssetOf(w, t, hint.value, row.assetId.value)
  }

  ghost predicate TasksKept(w: World, scopes: map<RunId, string>, h: seq<Upload>, s: State) {
    forall task | task in s.tasks && !task.stage.Fetched? ::
      && task.id in s.t.evidence && IsResult(w, scopes, h, s.t.evidence[task.id], task.stage.n)
      && (task.stage.Linked? ==> task.stage.n.hint.Some? && IsAssetOf(w, s.t, task.stage.n.hint.value, task.stage.asset))
  }

  predicate IsAssetOf(w: World, t: Tables, hint: Hint, asset: AssetId) {
    var key := AssetKey(w.tenant, hint.naturalKey);
    key in t.assets && t.assets[key].id == asset
  }

  /** An asset and its links: created as some result said, every attribute written by one that says so. */
  ghost predicate AssetsKept(w: World, scopes: map<RunId, string>, h: seq<Upload>, t: Tables) {
    forall key | key in t.assets :: AssetKept(w, scopes, h, t, key)
  }

  ghost predicate AssetKept(w: World, scopes: map<RunId, string>, h: seq<Upload>, t: Tables, key: AssetKey)
    requires key in t.assets
  {
    var asset := t.assets[key];
    && key.tenant == w.tenant
    && (exists hint :: IsSaid(w, scopes, h, t, asset.run, hint) && hint.naturalKey == key.naturalKey
                       && hint.kind == asset.kind && hint.name == asset.name)
    && forall attr | attr in asset.attributes :: AttributeKept(w, scopes, h, t, key, attr)
  }

  ghost predicate AttributeKept(
    w: World, scopes: map<RunId, string>, h: seq<Upload>, t: Tables, key: AssetKey, attr: string)
    requires key in t.assets && attr in t.assets[key].attributes
  {
    exists run, hint :: IsSaid(w, scopes, h, t, run, hint) && hint.naturalKey == key.naturalKey
      && attr in hint.attributes && hint.attributes[attr] == t.assets[key].attributes[attr]
  }

  ghost predicate LinksKept(w: World, scopes: map<RunId, string>, h: seq<Upload>, t: Tables) {
    forall id | id in t.evidence && t.evidence[id].assetId.Some? :: LinkKept(w, scopes, h, t, t.evidence[id])
  }

  ghost predicate LinkKept(w: World, scopes: map<RunId, string>, h: seq<Upload>, t: Tables, row: Row)
    requires row.assetId.Some?
  {
    exists n: Normalized :: IsResult(w, scopes, h, row, n) && n.hint.Some? && IsAssetOf(w, t, n.hint.value, row.assetId.value)
  }

  ghost predicate Kept(w: World, scopes: map<RunId, string>, h: seq<Upload>, s: State) {
    && Stored(scopes, h, s.t) && ResultsKept(w, scopes, h, s.t) && TasksKept(w, scopes, h, s)
    && AssetsKept(w, scopes, h, s.t) && LinksKept(w, scopes, h, s.t)
  }

  // ---------------------------------------------------------------- uploads keep it

  lemma {:induction false} OneMoreUpload(h: seq<Upload>, u: Upload, id: EvidenceId, ref: Ref)
    ensures FirstOf(h + [u], id) == if FirstOf(h, id) < |h| || u.item.id == id then FirstOf(h, id) else |h| + 1
    ensures LastOf(h + [u], ref) == if Ref(u.run, u.item.id) == ref then |h| else LastOf(h, ref)
  {
    assert (h + [u])[..|h|] == h;
  }

  lemma {:induction false} OneRowStored(h: seq<Upload>, t: Tables, run: RunId, item: Item, now: int)
    requires RowsStored(h, t)
    ensures RowsStored(h + [Upload(run, item, now)], IngestItem(t, run, item, now))
  {
    var more := h + [Upload(run, item, now)];
    var u := IngestItem(t, run, item, now);
    hide FirstOf, LastOf;
    forall id ensures id in u.evidence <==> FirstOf(more, id) < |more|
              ensures id in u.evidence ==> IsRowOf(u.evidence[id], more[FirstOf(more, id)])
    {
      OneMoreUpload(h, Upload(run, item, now), id, Ref(run, id));
    }
  }

  lemma {:induction false} OneObjectStored(h: seq<Upload>, t: Tables, run: RunId, item: Item, now: int)
    requires ObjectsStored(h, t)
    ensures ObjectsStored(h + [Upload(run, item, now)], IngestItem(t, run, item, now))
  {
    var more := h + [Upload(run, item, now)];
    var u := IngestItem(t, run, item, now);
    hide FirstOf, LastOf;
    forall ref ensures ref in u.objects <==> LastOf(more, ref) != -1
               ensures ref in u.objects ==> u.objects[ref] == more[LastOf(more, ref)].item.raw
    {
      OneMoreUpload(h, Upload(run, item, now), item.id, ref);
    }
  }

  lemma {:induction false} OneItemStored(
    scopes: map<RunId, string>, h: seq<Upload>, t: Tables, run: RunId, item: Item, now: int)
    requires Stored(scopes, h, t)
    ensures Stored(scopes, h + [Upload(run, item, now)], IngestItem(t, run, item, now))
  {
    OneRowStored(h, t, run, item, now);
    OneObjectStored(h, t, run, item, now);
    hide RowsStored, ObjectsStored;
  }

  lemma {:induction false} ItemsStored(
    scopes: map<RunId, string>, h: seq<Upload>, t: Tables, run: RunId, items: seq<Item>, now: int)
    requires Stored(scopes, h, t)
    ensures Stored(scopes, h + UploadsOf(run, items, now), IngestItems(t, run, items, now))
    decreases items
  {
    hide Stored;
    if items == [] {
      assert h + UploadsOf(run, items, now) == h;
    } else {
      var n := |items| - 1;
      var before := UploadsOf(run, items[..n], now);
      ItemsStored(scopes, h, t, run, items[..n], now);
      OneItemStored(scopes, h + before, IngestItems(t, run, items[..n], now), run, items[n], now);
      assert h + UploadsOf(run, items, now) == h + before + [Upload(run, items[n], now)];
    }
  }

  /** Later uploads take nothing back. */
  lemma {:induction false} ResultStays(
    w: World, scopes: map<RunId, string>, h: seq<Upload>, more: seq<Upload>, row: Row, later: Row, n: Normalized)
    requires IsResult(w, scopes, h, row, n) && SameOrigin(row, later)
    ensures IsResult(w, scopes, h + more, later, n)
  {
    var k :| 0 <= k < |h| && IsResultOf(w, scopes, row, h[k], n);
    assert (h + more)[k] == h[k];
    assert IsResultOf(w, scopes, later, (h + more)[k], n);
  }

  lemma {:induction false} HasResultStays(
    w: World, scopes: map<RunId, string>, h: seq<Upload>, more: seq<Upload>, s: State, u: State, row: Row)
    requires row.parsed.Some? && HasResult(w, scopes, h, s.t, row) && Grows(s, u)
    ensures HasResult(w, scopes, h + more, u.t, row)
  {
    hide IsResult;
    var hint :| IsResult(w, scopes, h, row, Normalized(row.parsed.value, row.confidence, row.redactions, hint))
                && IsLinked(w, s.t, row, hint);
    ResultStays(w, scopes, h, more, row, row, Normalized(row.parsed.value, row.confidence, row.redactions, hint));
  }

  lemma {:induction false} SaidStays(
    w: World, scopes: map<RunId, string>, h: seq<Upload>, more: seq<Upload>, s: State, u: State, run: RunId, hint: Hint)
    requires IsSaid(w, scopes, h, s.t, run, hint) && Grows(s, u)
    ensures IsSaid(w, scopes, h + more, u.t, run, hint)
  {
    hide IsResult;
    var id, n: Normalized :| id in s.t.evidence && s.t.evidence[id].run == run && n.hint == Some(hint)
                             && IsResult(w, scopes, h, s.t.evidence[id], n);
    ResultStays(w, scopes, h, more, s.t.evidence[id], u.t.evidence[id], n);
  }

  lemma {:induction false} AttributeStays(
    w: World, scopes: map<RunId, string>, h: seq<Upload>, more: seq<Upload>, s: State, u: State, key: AssetKey,
    attr: string)
    requires key in s.t.assets && attr in s.t.assets[key].attributes && Grows(s, u)
    requires AttributeKept(w, scopes, h, s.t, key, attr)
    requires u.t.assets[key].attributes[attr] == s.t.assets[key].attributes[attr]
    ensures AttributeKept(w, scopes, h + more, u.t, key, attr)
  {
    hide IsSaid;
    var run, hint :| IsSaid(w, scopes, h, s.t, run, hint) && hint.naturalKey == key.naturalKey
                     && attr in hint.attributes && hint.attributes[attr] == s.t.assets[key].attributes[attr];
    SaidStays(w, scopes, h, more, s, u, run, hint);
  }

  lemma {:induction false} AssetStays(
    w: World, scopes: map<RunId, string>, h: seq<Upload>, more: seq<Upload>, s: State, u: State, key: AssetKey)
    requires key in s.t.assets && AssetKept(w, scopes, h, s.t, key) && Grows(s, u)
    requires u.t.assets[key] == s.t.assets[key]
    ensures AssetKept(w, scopes, h + more, u.t, key)
  {
    hide IsSaid;
    var asset := s.t.assets[key];
    var hint :| IsSaid(w, scopes, h, s.t, asset.run, hint) && hint.naturalKey == key.naturalKey
                && hint.kind == asset.kind && hint.name == asset.name;
    SaidStays(w, scopes, h, more, s, u, asset.run, hint);
    forall attr | attr in asset.attributes ensures AttributeKept(w, scopes, h + more, u.t, key, attr) {
      AttributeStays(w, scopes, h, more, s, u, key, attr);
    }
  }

  lemma {:induction false} LinkStays(
    w: World, scopes: map<RunId, string>, h: seq<Upload>, more: seq<Upload>, s: State, u: State, row: Row, later: Row)
    requires row.assetId.Some? && LinkKept(w, scopes, h, s.t, row) && Grows(s, u)
    requires SameOrigin(row, later) && later.assetId == row.assetId
    ensures LinkKept(w, scopes, h + more, u.t, later)
  {
    hide IsResult;
    var n: Normalized :| IsResult(w, scopes, h, row, n) && n.hint.Some?
                         && IsAssetOf(w, s.t, n.hint.value, row.assetId.value);
    ResultStays(w, scopes, h, more, row, later, n);
  }

  lemma {:induction false} TasksStay(
    w: World, scopes: map<RunId, string>, h: seq<Upload>, more: seq<Upload>, s: State, u: State)
    requires TasksKept(w, scopes, h, s) && Grows(s, u)
    requires forall task | task in u.tasks && !task.stage.Fetched? :: task in s.tasks
    ensures TasksKept(w, scopes, h + more, u)
  {
    hide IsResult;
    forall task | task in u.tasks && !task.stage.Fetched?
      ensures task.id in u.t.evidence && IsResult(w, scopes, h + more, u.t.evidence[task.id], task.stage.n)
    {
      ResultStays(w, scopes, h, more, s.t.evidence[task.id], u.t.evidence[task.id], task.stage.n);
    }
  }

  /** Whatever a step leaves as it was stays accounted for. */
  lemma {:induction false} RowsStay(
    w: World, scopes: map<RunId, string>, h: seq<Upload>, more: seq<Upload>, s: State, u: State)
    requires ResultsKept(w, scopes, h, s.t) && LinksKept(w, scopes, h, s.t) && Grows(s, u)
    requires forall id | id in u.t.evidence ::
               if id in s.t.evidence then u.t.evidence[id] == s.t.evidence[id]
               else u.t.evidence[id].parsed.None? && u.t.evidence[id].assetId.None?
    ensures ResultsKept(w, scopes, h + more, u.t) && LinksKept(w, scopes, h + more, u.t)
  {
    hide HasResult, LinkKept;
    forall id | id in u.t.evidence && u.t.evidence[id].parsed.Some?
      ensures HasResult(w, scopes, h + more, u.t, u.t.evidence[id])
    {
      HasResultStays(w, scopes, h, more, s, u, s.t.evidence[id]);
    }
    forall id | id in u.t.evidence && u.t.evidence[id].assetId.Some?
      ensures LinkKept(w, scopes, h + more, u.t, u.t.evidence[id])
    {
      LinkStays(w, scopes, h, more, s, u, s.t.evidence[id], u.t.evidence[id]);
    }
  }

  lemma {:induction false} AssetsStay(
    w: World, scopes: map<RunId, string>, h: seq<Upload>, more: seq<Upload>, s: State, u: State)
    requires AssetsKept(w, scopes, h, s.t) && Grows(s, u) && u.t.assets == s.t.assets
    ensures AssetsKept(w, scopes, h + more, u.t)
  {
    hide AssetKept;
    forall key | key in u.t.assets ensures AssetKept(w, scopes, h + more, u.t, key) {
      AssetStays(w, scopes, h, more, s, u, key);
    }
  }

  lemma {:induction false} BundleStored(scopes: map<RunId, string>, h: seq<Upload>, t: Tables, e: Event)
    requires Stored(scopes, h, t) && e.Ingest?
    ensures Stored(scopes, h + UploadsIn(scopes.Keys, e), IngestBundle(t, e.run, e.items, e.now))
  {
    if e.run in scopes {
      ItemsStored(scopes, h, t, e.run, e.items, e.now);
    } else {
      assert h + UploadsIn(scopes.Keys, e) == h;
    }
    hide IngestItems, FirstOf, LastOf;
  }

  lemma {:induction false} IngestKeeps(w: World, scopes: map<RunId, string>, h: seq<Upload>, s: State, e: Event)
    requires Kept(w, scopes, h, s) && Enabled(w, s, e) && e.Ingest?
    ensures Kept(w, scopes, h + UploadsIn(scopes.Keys, e), Next(w, s, e))
  {
    var u := Next(w, s, e);
    var more := UploadsIn(scopes.Keys, e);
    StepGrows(w, s, e);
    BundleStored(scopes, h, s.t, e);
    IngestItemsKeep(s.t, e.run, e.items, e.now);
    assert u.t == IngestBundle(s.t, e.run, e.items, e.now) && u.tasks == s.tasks;
    hide Next, Enabled, UploadsIn, IngestItems;
    hide Grows, Stored, ResultsKept, LinksKept, AssetsKept, TasksKept;
    RowsStay(w, scopes, h, more, s, u);
    AssetsStay(w, scopes, h, more, s, u);
    TasksStay(w, scopes, h, more, s, u);
  }

  // ---------------------------------------------------------------- normalization keeps it

  /** What a parse yields is the redacted output of the row's parser on the bytes stored for it. */
  lemma {:induction false} ParsedIsRedacted(w: World, s: State, e: Event)
    requires Enabled(w, s, e) && e.Parse?
    ensures var n := TaskOutcome(w, s, e.task).value;
            var row := s.t.evidence[e.task.id];
            && e.task.id in s.t.evidence && row.rawRef in s.t.objects && row.run in s.t.runs && row.tool in TOOLS
            && Next(w, s, e).tasks == s.tasks - multiset{e.task} + multiset{Task(e.task.id, Parsed(n))}
            && var r := w.parse(row.tool, s.t.objects[row.rawRef], row.version, s.t.runs[row.run].scope);
               && r.Some? && n.parsed == w.redact(r.value.parsed).value && n.redactions == w.redact(r.value.parsed).rules
               && n.confidence == r.value.confidence && n.hint == r.value.hint
  {
  }

  lemma {:induction false} ParseKeeps(w: World, scopes: map<RunId, string>, h: seq<Upload>, s: State, e: Event)
    requires Kept(w, scopes, h, s) && Enabled(w, s, e) && e.Parse?
    ensures Kept(w, scopes, h, Next(w, s, e))
  {
    ParsedIsRedacted(w, s, e);
    var u := Next(w, s, e);
    var n := TaskOutcome(w, s, e.task).value;
    var row := s.t.evidence[e.task.id];
    var k := LastOf(h, row.rawRef);
    assert IsResultOf(w, scopes, row, h[k], n);
    assert IsResult(w, scopes, h, row, n);
    assert u.t == s.t;
    hide Stored, ResultsKept, LinksKept, AssetsKept, IsResult, IsAssetOf, Enabled, Next, Outcome;
    assert forall task | task in u.tasks :: task in s.tasks || task == Task(e.task.id, Parsed(n));
  }

  lemma {:induction false} LossKeeps(w: World, scopes: map<RunId, string>, h: seq<Upload>, s: State, e: Event)
    requires Kept(w, scopes, h, s) && Enabled(w, s, e) && (e.Fetch? || e.Drop? || e.Fault? || e.Crash?)
    ensures Kept(w, scopes, h, Next(w, s, e))
  {
    var u := Next(w, s, e);
    assert u.t == s.t;
    hide Stored, ResultsKept, LinksKept, AssetsKept, IsResult, IsAssetOf;
    forall task | task in u.tasks && !task.stage.Fetched? ensures task in s.tasks {
      if e.Fetch? { FreshTask(e.batch, task); }
    }
  }

  lemma {:induction false} SaidByRow(
    w: World, scopes: map<RunId, string>, h: seq<Upload>, t: Tables, id: EvidenceId, n: Normalized)
    requires id in t.evidence && IsResult(w, scopes, h, t.evidence[id], n) && n.hint.Some?
    ensures IsSaid(w, scopes, h, t, t.evidence[id].run, n.hint.value)
  {
    hide IsResult;
  }

  lemma {:induction false} UpsertedKept(
    w: World, scopes: map<RunId, string>, h: seq<Upload>, s: State, u: State, run: RunId, hint: Hint, newId: AssetId)
    requires AssetsKept(w, scopes, h, s.t) && IsSaid(w, scopes, h, s.t, run, hint) && Grows(s, u)
    requires u.t == UpsertAsset(s.t, w.tenant, run, hint, newId)
    ensures AssetsKept(w, scopes, h, u.t)
  {
    hide IsSaid;
    var key := AssetKey(w.tenant, hint.naturalKey);
    assert h + [] == h;
    SaidStays(w, scopes, h, [], s, u, run, hint);
    forall k | k in u.t.assets ensures AssetKept(w, scopes, h, u.t, k) {
      if k != key {
        AssetStays(w, scopes, h, [], s, u, k);
      } else {
        UpsertedAssetKept(w, scopes, h, s, u, run, hint, newId);
      }
    }
  }

  lemma {:induction false} UpsertedAssetKept(
    w: World, scopes: map<RunId, string>, h: seq<Upload>, s: State, u: State, run: RunId, hint: Hint, newId: AssetId)
    requires AssetsKept(w, scopes, h, s.t) && IsSaid(w, scopes, h, u.t, run, hint) && Grows(s, u)
    requires u.t == UpsertAsset(s.t, w.tenant, run, hint, newId)
    ensures AssetKept(w, scopes, h, u.t, AssetKey(w.tenant, hint.naturalKey))
  {
    var key := AssetKey(w.tenant, hint.naturalKey);
    var after := u.t.assets[key];
    assert h + [] == h;
    hide IsSaid;
    if key in s.t.assets {
      var before := s.t.assets[key];
      assert after == before.(attributes := before.attributes + hint.attributes);
      assert AssetKept(w, scopes, h, s.t, key);
      MergedAssetKept(w, scopes, h, s, u, key, run, hint);
    }
  }

  lemma {:induction false} MergedAssetKept(
    w: World, scopes: map<RunId, string>, h: seq<Upload>, s: State, u: State, key: AssetKey, run: RunId, hint: Hint)
    requires key in s.t.assets && AssetKept(w, scopes, h, s.t, key) && Grows(s, u)
    requires IsSaid(w, scopes, h, u.t, run, hint) && key == AssetKey(w.tenant, hint.naturalKey)
    requires u.t.assets[key] == s.t.assets[key].(attributes := s.t.assets[key].attributes + hint.attributes)
    ensures AssetKept(w, scopes, h, u.t, key)
  {
    hide IsSaid;
    var before, after := s.t.assets[key], u.t.assets[key];
    assert h + [] == h;
    var first :| IsSaid(w, scopes, h, s.t, before.run, first) && first.naturalKey == key.naturalKey
                 && first.kind == before.kind && first.name == before.name;
    SaidStays(w, scopes, h, [], s, u, before.run, first);
    forall attr | attr in after.attributes ensures AttributeKept(w, scopes, h, u.t, key, attr) {
      if attr !in hint.attributes {
        AttributeStays(w, scopes, h, [], s, u, key, attr);
      }
    }
  }

  lemma {:induction false} LinkedTasksKept(
    w: World, scopes: map<RunId, string>, h: seq<Upload>, s: State, u: State, task: Task, asset: AssetId)
    requires TasksKept(w, scopes, h, s) && Grows(s, u) && task in s.tasks && task.stage.Parsed?
    requires task.stage.n.hint.Some? && IsAssetOf(w, u.t, task.stage.n.hint.value, asset)
    requires u.tasks == Replace(s.tasks, task, Task(task.id, Linked(task.stage.n, asset)))
    requires u.t.evidence == s.t.evidence
    ensures TasksKept(w, scopes, h, u)
  {
    hide IsResult;
    assert forall x | x in u.tasks :: x in s.tasks || x == Task(task.id, Linked(task.stage.n, asset));
  }

  lemma {:induction false} LinkKeeps(w: World, scopes: map<RunId, string>, h: seq<Upload>, s: State, e: Event)
    requires Kept(w, scopes, h, s) && Enabled(w, s, e) && e.Link?
    ensures Kept(w, scopes, h, Next(w, s, e))
  {
    var u := Next(w, s, e);
    var n := e.task.stage.n;
    var row := s.t.evidence[e.task.id];
    var key := AssetKey(w.tenant, n.hint.value.naturalKey);
    assert h + [] == h;
    assert u.t.evidence == s.t.evidence && u.t.objects == s.t.objects && u.t.runs == s.t.runs;
    assert u.t == UpsertAsset(s.t, w.tenant, row.run, n.hint.value, e.newId);
    assert u.tasks == Replace(s.tasks, e.task, Task(e.task.id, Linked(n, u.t.assets[key].id)));
    assert key in u.t.assets;
    StepGrows(w, s, e);
    SaidByRow(w, scopes, h, s.t, e.task.id, n);
    assert Stored(scopes, h, u.t);
    hide IsResult, IsSaid, Stored, ResultsKept, LinksKept, AssetsKept, TasksKept, Grows, UpsertAsset, Next, Enabled;
    UpsertedKept(w, scopes, h, s, u, row.run, n.hint.value, e.newId);
    RowsStay(w, scopes, h, [], s, u);
    LinkedTasksKept(w, scopes, h, s, u, e.task, u.t.assets[key].id);
  }

  lemma {:induction false} WrittenRowsKept(
    w: World, scopes: map<RunId, string>, h: seq<Upload>, s: State, u: State, id: EvidenceId, asset: Option<AssetId>,
    n: Normalized)
    requires ResultsKept(w, scopes, h, s.t) && LinksKept(w, scopes, h, s.t) && Grows(s, u)
    requires id in s.t.evidence && IsResult(w, scopes, h, s.t.evidence[id], n)
    requires asset.Some? <==> n.hint.Some?
    requires asset.Some? ==> IsAssetOf(w, s.t, n.hint.value, asset.value)
    requires u.t == WriteParsed(s.t, id, asset, n)
    ensures ResultsKept(w, scopes, h, u.t) && LinksKept(w, scopes, h, u.t)
  {
    var done := u.t.evidence[id];
    assert h + [] == h;
    ResultStays(w, scopes, h, [], s.t.evidence[id], done, n);
    assert Normalized(done.parsed.value, done.confidence, done.redactions, n.hint) == n;
    hide IsResult;
    assert HasResult(w, scopes, h, u.t, done);
    assert asset.Some? ==> LinkKept(w, scopes, h, u.t, done);
    hide HasResult, LinkKept;
    assert forall i | i in u.t.evidence && i != id :: u.t.evidence[i] == s.t.evidence[i];
    forall i | i in u.t.evidence && u.t.evidence[i].parsed.Some? ensures HasResult(w, scopes, h, u.t, u.t.evidence[i]) {
      if i != id {
        HasResultStays(w, scopes, h, [], s, u, s.t.evidence[i]);
      }
    }
    forall i | i in u.t.evidence && u.t.evidence[i].assetId.Some? ensures LinkKept(w, scopes, h, u.t, u.t.evidence[i]) {
      if i != id || asset.None? {
        LinkStays(w, scopes, h, [], s, u, s.t.evidence[i], u.t.evidence[i]);
      }
    }
  }

  lemma {:induction false} FinishKeeps(w: World, scopes: map<RunId, string>, h: seq<Upload>, s: State, e: Event)
    requires Kept(w, scopes, h, s) && Enabled(w, s, e) && e.Finish?
    ensures Kept(w, scopes, h, Next(w, s, e))
  {
    var u := Next(w, s, e);
    assert h + [] == h;
    assert u.t == WriteParsed(s.t, e.task.id, TaskAsset(e.task), e.task.stage.n);
    assert u.tasks == s.tasks - multiset{e.task};
    assert e.task in s.tasks && ReadyToFinish(e.task);
    hide Next, Enabled;
    StepGrows(w, s, e);
    WrittenStored(scopes, h, s.t, e.task.id, TaskAsset(e.task), e.task.stage.n);
    hide Stored, AssetsKept, ResultsKept, LinksKept, Grows, IsResult, IsAssetOf;
    WrittenRowsKept(w, scopes, h, s, u, e.task.id, TaskAsset(e.task), e.task.stage.n);
    hide TasksKept;
    TasksStay(w, scopes, h, [], s, u);
    AssetsStay(w, scopes, h, [], s, u);
  }

  lemma {:induction false} WrittenStored(
    scopes: map<RunId, string>, h: seq<Upload>, t: Tables, id: EvidenceId, asset: Option<AssetId>, n: Normalized)
    requires Stored(scopes, h, t)
    ensures Stored(scopes, h, WriteParsed(t, id, asset, n))
  {
    hide FirstOf, LastOf;
  }

  lemma {:induction false} StepKeeps(w: World, scopes: map<RunId, string>, h: seq<Upload>, s: State, e: Event)
    requires Kept(w, scopes, h, s) && Enabled(w, s, e)
    ensures Kept(w, scopes, h + UploadsIn(scopes.Keys, e), Next(w, s, e))
  {
    hide Kept, Next, Enabled;
    assert !e.Ingest? ==> h + UploadsIn(scopes.Keys, e) == h;
    match e {
      case Ingest(_, _, _) => IngestKeeps(w, scopes, h, s, e);
      case Parse(_) => ParseKeeps(w, scopes, h, s, e);
      case Link(_, _) => LinkKeeps(w, scopes, h, s, e);
      case Finish(_) => FinishKeeps(w, scopes, h, s, e);
      case _ => LossKeeps(w, scopes, h, s, e);
    }
  }

  lemma {:induction false} RunKeeps(w: World, scopes: map<RunId, string>, h: seq<Upload>, s: State, events: seq<Event>)
    requires Kept(w, scopes, h, s) && CanRun(w, s, events)
    ensures Kept(w, scopes, h + Uploads(scopes.Keys, events), Run(w, s, events))
    decreases events
  {
    hide Kept, Next, Enabled;
    if events == [] {
      assert h + Uploads(scopes.Keys, events) == h;
    } else {
      StepKeeps(w, scopes, h, s, events[0]);
      var more := UploadsIn(scopes.Keys, events[0]);
      RunKeeps(w, scopes, h + more, Next(w, s, events[0]), events[1..]);
      Sequences.Assoc(h, more, Uploads(scopes.Keys, events[1..]));
    }
  }

  // ---------------------------------------------------------------- whole runs

  function Scopes(runs: map<RunId, AuditRun>): map<RunId, string> {
    map run | run in runs :: runs[run].scope
  }

  function Start(runs: map<RunId, AuditRun>): State {
    State(Tables(map[], map[], map[], runs), multiset{}, 0)
  }

  lemma {:induction false} RunIsKept(w: World, runs: map<RunId, AuditRun>, events: seq<Event>)
    requires CanRun(w, Start(runs), events)
    ensures Kept(w, Scopes(runs), Uploads(runs.Keys, events), Run(w, Start(runs), events))
  {
    assert Kept(w, Scopes(runs), [], Start(runs));
    assert Scopes(runs).Keys == runs.Keys;
    hide Kept;
    RunKeeps(w, Scopes(runs), [], Start(runs), events);
    assert [] + Uploads(runs.Keys, events) == Uploads(runs.Keys, events);
  }

  /** The rows are the uploaded ids, each with the columns of the first upload of its id. */
  ghost predicate RowsOfFirst(h: seq<Upload>, t: Tables) {
    && (forall id :: id in t.evidence <==> exists k | 0 <= k < |h| :: h[k].item.id == id)
    && forall k | 0 <= k < |h| && (forall j | 0 <= j < k :: h[j].item.id != h[k].item.id) ::
         h[k].item.id in t.evidence && IsRowOf(t.evidence[h[k].item.id], h[k])
  }

  /** The object behind a reference holds the bytes of the last upload for it. */
  ghost predicate ObjectsOfLast(h: seq<Upload>, t: Tables) {
    && (forall ref :: ref in t.objects <==> exists k | 0 <= k < |h| :: Ref(h[k].run, h[k].item.id) == ref)
    && forall k | 0 <= k < |h| && (forall j | k < j < |h| ::
                    Ref(h[j].run, h[j].item.id) != Ref(h[k].run, h[k].item.id)) ::
         var ref := Ref(h[k].run, h[k].item.id);
         ref in t.objects && t.objects[ref] == h[k].item.raw
  }

  lemma {:induction false} RowsMean(h: seq<Upload>, t: Tables)
    requires RowsStored(h, t)
    ensures RowsOfFirst(h, t)
  {
    hide IsRowOf;
  }

  lemma {:induction false} ObjectsMean(h: seq<Upload>, t: Tables)
    requires ObjectsStored(h, t)
    ensures ObjectsOfLast(h, t)
  {
  }

  /**
   Rows come from the first upload of their id and objects from the last one for their reference, so that a
   repeated upload of other bytes changes what a row that is not yet normalized will say, and nothing else of it.
   */
  lemma {:induction false} RowsAreUploads(w: World, runs: map<RunId, AuditRun>, events: seq<Event>)
    requires CanRun(w, Start(runs), events)
    ensures var t := Run(w, Start(runs), events).t;
            var h := Uploads(runs.Keys, events);
            RowsOfFirst(h, t) && ObjectsOfLast(h, t)
  {
    RunIsKept(w, runs, events);
    hide RowsOfFirst, ObjectsOfLast, RowsStored, ObjectsStored, Run, CanRun, Uploads;
    RowsMean(Uploads(runs.Keys, events), Run(w, Start(runs), events).t);
    ObjectsMean(Uploads(runs.Keys, events), Run(w, Start(runs), events).t);
  }

  /**
   The result came out of the row's parser on bytes uploaded for the row, and out of redaction; the row is
   linked to the asset that the parser named, if it named one.
   */
  ghost predicate ComesFrom(w: World, runs: map<RunId, AuditRun>, t: Tables, row: Row, u: Upload) {
    && row.parsed.Some? && row.run in runs && row.tool in TOOLS && u.run == row.rawRef.run && u.item.id == row.rawRef.item
    && var r := w.parse(row.tool, u.item.raw, row.version, runs[row.run].scope);
       && r.Some? && row.parsed == Some(w.redact(r.value.parsed).value)
       && row.redactions == w.redact(r.value.parsed).rules && row.confidence == r.value.confidence
       && (r.value.hint.Some? ==>
             var key := AssetKey(w.tenant, r.value.hint.value.naturalKey);
             key in t.assets && row.assetId == Some(t.assets[key].id))
  }

  /** Every result that ever appears is the redacted output of the row's parser on bytes uploaded for that row. */
  lemma {:induction false} ResultsAreRedacted(w: World, runs: map<RunId, AuditRun>, events: seq<Event>)
    requires CanRun(w, Start(runs), events)
    ensures var t := Run(w, Start(runs), events).t;
            var h := Uploads(runs.Keys, events);
            forall id | id in t.evidence && t.evidence[id].parsed.Some? ::
              exists k | 0 <= k < |h| :: ComesFrom(w, runs, t, t.evidence[id], h[k])
  {
    RunIsKept(w, runs, events);
    var t := Run(w, Start(runs), events).t;
    var h := Uploads(runs.Keys, events);
    hide Run, CanRun, Uploads;
    forall id | id in t.evidence && t.evidence[id].parsed.Some?
      ensures exists k | 0 <= k < |h| :: ComesFrom(w, runs, t, t.evidence[id], h[k])
    {
      var row := t.evidence[id];
      assert HasResult(w, Scopes(runs), h, t, row);
      var hint :| IsResult(w, Scopes(runs), h, row, Normalized(row.parsed.value, row.confidence, row.redactions, hint))
                  && IsLinked(w, t, row, hint);
      var n := Normalized(row.parsed.value, row.confidence, row.redactions, hint);
      var k :| 0 <= k < |h| && IsResultOf(w, Scopes(runs), row, h[k], n);
      assert ComesFrom(w, runs, t, row, h[k]);
    }
  }

  /**
   Every asset was created as the result of some row of its run said (kind, name, natural key, tenant), each of
   its attributes has a value that some result gave for that asset, and a row is linked to nothing but an asset
   that a result of its own named.
   */
  lemma {:induction false} AssetsComeFromResults(w: World, runs: map<RunId, AuditRun>, events: seq<Event>)
    requires CanRun(w, Start(runs), events)
    ensures var t := Run(w, Start(runs), events).t;
            var scopes, h := Scopes(runs), Uploads(runs.Keys, events);
            && (forall key | key in t.assets :: AssetKept(w, scopes, h, t, key))
            && (forall id | id in t.evidence && t.evidence[id].assetId.Some? :: LinkKept(w, scopes, h, t, t.evidence[id]))
  {
    RunIsKept(w, runs, events);
  }
}
