/**
 Ingestion and normalization as one step system. Items in flight are independent tasks: any worker's
 steps interleave with any other's, a task can fail at any point, and a crash loses all of them.
 */
module Pipeline {
  import opened Wrappers
  import opened EvidenceTables

  const FETCH_LIMIT: nat := 500

  /** How far `normalize_one` has got with an item. */
  datatype Stage =
    | Fetched
    | Parsed(n: Normalized)
    | Linked(n: Normalized, asset: AssetId)

  datatype Task = Task(id: EvidenceId, stage: Stage)

  datatype State = State(t: Tables, tasks: multiset<Task>, accepted: nat)

  datatype Event =
    | Ingest(run: RunId, items: seq<Item>, now: int)
    | Fetch(scope: Option<RunId>, batch: seq<EvidenceId>)
    | Parse(task: Task)
    | Drop(task: Task)                  // no parser, or the row cannot be parsed
    | Link(task: Task, newId: AssetId)  // the asset upsert
    | Finish(task: Task)                // the write of the parsed result
    | Fault(task: Task)                 // any error of storage or database
    | Crash

  function TaskOutcome(w: World, s: State, task: Task): Option<Normalized> {
    if task.id in s.t.evidence then Outcome(w, s.t, s.t.evidence[task.id]) else None
  }

  /** The result that a task is about to write, once it has gone through the asset upsert it needs. */
  predicate ReadyToFinish(task: Task) {
    task.stage.Linked? || (task.stage.Parsed? && task.stage.n.hint.None?)
  }

  ghost predicate Enabled(w: World, s: State, e: Event) {
    match e
    case Ingest(_, _, _) => true
    case Fetch(scope, batch) => IsFetch(s.t, scope, FETCH_LIMIT, batch)
    case Parse(task) => task in s.tasks && task.stage.Fetched? && TaskOutcome(w, s, task).Some?
    case Drop(task) => task in s.tasks && task.stage.Fetched? && TaskOutcome(w, s, task).None?
    case Link(task, newId) =>
      task in s.tasks && task.stage.Parsed? && task.stage.n.hint.Some? && task.id in s.t.evidence
      && !IsAssetId(s.t, newId)
    case Finish(task) => task in s.tasks && ReadyToFinish(task)
    case Fault(task) => task in s.tasks
    case Crash => true
  }

  ghost predicate IsAssetId(t: Tables, id: AssetId) {
    exists key :: key in t.assets && t.assets[key].id == id
  }

  function Fresh(batch: seq<EvidenceId>): multiset<Task> {
    multiset(seq(|batch|, i requires 0 <= i < |batch| => Task(batch[i], Fetched)))
  }

  function Replace(tasks: multiset<Task>, old_: Task, new_: Task): multiset<Task> {
    tasks - multiset{old_} + multiset{new_}
  }

  function TaskAsset(task: Task): Option<AssetId> {
    if task.stage.Linked? then Some(task.stage.asset) else None
  }

  ghost function Next(w: World, s: State, e: Event): State
    requires Enabled(w, s, e)
  {
    match e
    case Ingest(run, items, now) =>
      State(IngestBundle(s.t, run, items, now), s.tasks, s.accepted + Accepted(s.t, run, items, now))
    case Fetch(_, batch) => s.(tasks := s.tasks + Fresh(batch))
    case Parse(task) =>
      s.(tasks := Replace(s.tasks, task, Task(task.id, Parsed(TaskOutcome(w, s, task).value))))
    case Drop(task) => s.(tasks := s.tasks - multiset{task})
    case Link(task, newId) =>
      var hint := task.stage.n.hint.value;
      var t := UpsertAsset(s.t, w.tenant, s.t.evidence[task.id].run, hint, newId);
      var asset := t.assets[AssetKey(w.tenant, hint.naturalKey)].id;
      State(t, Replace(s.tasks, task, Task(task.id, Linked(task.stage.n, asset))), s.accepted)
    case Finish(task) =>
      State(WriteParsed(s.t, task.id, TaskAsset(task), task.stage.n), s.tasks - multiset{task}, s.accepted)
    case Fault(task) => s.(tasks := s.tasks - multiset{task})
    case Crash => s.(tasks := multiset{})
  }

  ghost predicate CanRun(w: World, s: State, events: seq<Event>)
    decreases events
  {
    events == [] || (Enabled(w, s, events[0]) && CanRun(w, Next(w, s, events[0]), events[1..]))
  }

  ghost function Run(w: World, s: State, events: seq<Event>): State
    requires CanRun(w, s, events)
    decreases events
  {
    if events == [] then s else Run(w, Next(w, s, events[0]), events[1..])
  }

  // ---------------------------------------------------------------- what ingestion keeps

  /** Old rows are untouched and rows only appear. */
  predicate RowsKept(t: Tables, u: Tables) {
    t.evidence.Keys <= u.evidence.Keys && forall id | id in t.evidence :: u.evidence[id] == t.evidence[id]
  }

  lemma {:induction false} IngestItemsKeep(t: Tables, run: RunId, items: seq<Item>, now: int)
    ensures var u := IngestItems(t, run, items, now);
            && RowsKept(t, u) && u.assets == t.assets && u.runs == t.runs
            && (forall id | id in u.evidence && id !in t.evidence ::
                  u.evidence[id].assetId.None? && u.evidence[id].parsed.None?)
    decreases items
  {
    if items != [] {
      IngestItemsKeep(t, run, items[..|items| - 1], now);
    }
  }

  lemma {:induction false} SubmapSize<K, V>(a: map<K, V>, b: map<K, V>)
    requires a.Keys <= b.Keys
    ensures |a| <= |b|
  {
    assert b.Keys == a.Keys + (b.Keys - a.Keys);
    assert |a.Keys| == |a| && |b.Keys| == |b|;
  }

  /** The reply of an upload counts the rows that it added, items with an id seen before not counted. */
  lemma {:induction false} AcceptedIsGrowth(t: Tables, run: RunId, items: seq<Item>, now: int)
    ensures |IngestBundle(t, run, items, now).evidence| == |t.evidence| + Accepted(t, run, items, now)
  {
    InsertedIsGrowth(t, run, items, now);
  }

  lemma {:induction false} InsertedIsGrowth(t: Tables, run: RunId, items: seq<Item>, now: int)
    ensures |IngestItems(t, run, items, now).evidence| == |t.evidence| + Inserted(t, run, items, now)
    decreases items
  {
    if items != [] {
      var last := items[|items| - 1];
      var before := IngestItems(t, run, items[..|items| - 1], now);
      InsertedIsGrowth(t, run, items[..|items| - 1], now);
      if last.id !in before.evidence {
        var after := IngestItems(t, run, items, now);
        assert after.evidence.Keys == before.evidence.Keys + {last.id};
        assert |after.evidence.Keys| == |after.evidence| && |before.evidence.Keys| == |before.evidence|;
      }
    }
  }

  lemma {:induction false} IngestedIdsPresent(t: Tables, run: RunId, items: seq<Item>, now: int)
    ensures forall i | 0 <= i < |items| :: items[i].id in IngestItems(t, run, items, now).evidence
    decreases items
  {
    if items != [] {
      IngestedIdsPresent(t, run, items[..|items| - 1], now);
      forall i | 0 <= i < |items| ensures items[i].id in IngestItems(t, run, items, now).evidence {
        if i < |items| - 1 { assert items[..|items| - 1][i] == items[i]; }
      }
    }
  }

  lemma {:induction false} KnownIdsAddNothing(t: Tables, run: RunId, items: seq<Item>, now: int)
    requires forall i | 0 <= i < |items| :: items[i].id in t.evidence
    ensures IngestItems(t, run, items, now).evidence == t.evidence
    decreases items
  {
    if items != [] {
      KnownIdsAddNothing(t, run, items[..|items| - 1], now);
    }
  }

  /** Uploading a bundle again, after anything that kept its rows, accepts nothing and keeps every row. */
  lemma {:induction false} ReingestKeepsRows(t: Tables, u: Tables, run: RunId, items: seq<Item>, now: int, later: int)
    requires run in t.runs && IngestBundle(t, run, items, now).evidence.Keys <= u.evidence.Keys
    ensures IngestBundle(u, run, items, later).evidence == u.evidence
  {
    IngestedIdsPresent(t, run, items, now);
    if run in u.runs {
      KnownIdsAddNothing(u, run, items, later);
    }
  }

  // ---------------------------------------------------------------- safety

  /** No two assets share an id, so an id names one (tenant, natural key). */
  ghost predicate AssetIdsDistinct(t: Tables) {
    forall k, l | k in t.assets && l in t.assets && t.assets[k].id == t.assets[l].id :: k == l
  }

  /** Every asset id stored in a row, or held by a task, names an existing asset. */
  ghost predicate LinksExist(s: State) {
    && (forall id | id in s.t.evidence && s.t.evidence[id].assetId.Some? ::
          IsAssetId(s.t, s.t.evidence[id].assetId.value))
    && (forall task | task in s.tasks && task.stage.Linked? :: IsAssetId(s.t, task.stage.asset))
  }

  ghost predicate Safe(s: State) {
    && AssetIdsDistinct(s.t)
    && LinksExist(s)
    && s.accepted == |s.t.evidence|
    && forall task | task in s.tasks :: task.id in s.t.evidence
  }

  /** The columns that no later step changes. */
  predicate SameOrigin(r: Row, q: Row) {
    && q.run == r.run && q.tool == r.tool && q.version == r.version && q.category == r.category
    && q.rawRef == r.rawRef && q.createdAt == r.createdAt
  }

  /** From one state to a later one: rows and assets stay, results never go back to NULL. */
  ghost predicate Grows(s: State, u: State) {
    && (forall id | id in s.t.evidence ::
          && id in u.t.evidence
          && SameOrigin(s.t.evidence[id], u.t.evidence[id])
          && (s.t.evidence[id].parsed.Some? ==> u.t.evidence[id].parsed.Some?)
          && (s.t.evidence[id].assetId.Some? ==> u.t.evidence[id].assetId.Some?))
    && (forall key | key in s.t.assets ::
          && key in u.t.assets
          && u.t.assets[key].id == s.t.assets[key].id
          && u.t.assets[key].run == s.t.assets[key].run
          && u.t.assets[key].kind == s.t.assets[key].kind
          && u.t.assets[key].name == s.t.assets[key].name
          && s.t.assets[key].attributes.Keys <= u.t.assets[key].attributes.Keys)
    && s.t.runs.Keys <= u.t.runs.Keys
  }

  lemma {:induction false} AssetIdsStay(s: State, u: State, id: AssetId)
    requires Grows(s, u) && IsAssetId(s.t, id)
    ensures IsAssetId(u.t, id)
  {
    var key :| key in s.t.assets && s.t.assets[key].id == id;
    assert key in u.t.assets && u.t.assets[key].id == id;
  }

  lemma {:induction false} FreshTask(batch: seq<EvidenceId>, task: Task)
    ensures task in Fresh(batch) <==> task.stage.Fetched? && task.id in batch
  {
    var tasks := seq(|batch|, i requires 0 <= i < |batch| => Task(batch[i], Fetched));
    if task in tasks {
      var i :| 0 <= i < |tasks| && tasks[i] == task;
      assert batch[i] == task.id;
    }
    if task.stage.Fetched? && task.id in batch {
      var i :| 0 <= i < |batch| && batch[i] == task.id;
      assert tasks[i] == task;
    }
  }

  lemma {:induction false} StepGrows(w: World, s: State, e: Event)
    requires Enabled(w, s, e)
    ensures Grows(s, Next(w, s, e))
  {
    hide Grows, Enabled, Next, CanRun;
    match e {
      case Ingest(_, _, _) => IngestGrowsState(w, s, e);
      case Link(_, _) => LinkGrows(w, s, e);
      case Finish(_) => FinishGrows(w, s, e);
      case _ => TablesStay(w, s, e);
    }
  }

  lemma {:induction false} IngestGrowsState(w: World, s: State, e: Event)
    requires Enabled(w, s, e) && e.Ingest?
    ensures Grows(s, Next(w, s, e))
  {
    IngestItemsKeep(s.t, e.run, e.items, e.now);
    hide IngestItems, Inserted;
  }

  lemma {:induction false} LinkGrows(w: World, s: State, e: Event)
    requires Enabled(w, s, e) && e.Link?
    ensures Grows(s, Next(w, s, e))
  {
  }

  lemma {:induction false} FinishGrows(w: World, s: State, e: Event)
    requires Enabled(w, s, e) && e.Finish?
    ensures Grows(s, Next(w, s, e))
  {
  }

  lemma {:induction false} TablesStay(w: World, s: State, e: Event)
    requires Enabled(w, s, e) && !e.Ingest? && !e.Link? && !e.Finish?
    ensures Grows(s, Next(w, s, e))
  {
    assert Next(w, s, e).t == s.t;
  }

  lemma {:induction false} IngestIsSafe(w: World, s: State, e: Event)
    requires Safe(s) && e.Ingest?
    ensures Safe(Next(w, s, e))
  {
    IngestItemsKeep(s.t, e.run, e.items, e.now);
    AcceptedIsGrowth(s.t, e.run, e.items, e.now);
    var u := Next(w, s, e);
    assert u.t.assets == s.t.assets;
    forall id | IsAssetId(s.t, id) ensures IsAssetId(u.t, id) {
      AssetIdsStay(s, u, id) by { StepGrows(w, s, e); }
    }
  }

  lemma {:induction false} FetchIsSafe(w: World, s: State, e: Event)
    requires Safe(s) && e.Fetch? && Enabled(w, s, e)
    ensures Safe(Next(w, s, e))
  {
    var u := Next(w, s, e);
    forall task | task in u.tasks ensures task in s.tasks || (task.stage.Fetched? && task.id in s.t.evidence) {
      FreshTask(e.batch, task);
      if task !in s.tasks { assert task.id in Members(e.batch); }
    }
  }

  lemma {:induction false} LinkIsSafe(w: World, s: State, e: Event)
    requires Safe(s) && e.Link? && Enabled(w, s, e)
    ensures Safe(Next(w, s, e))
  {
    LinkKeepsDistinct(w, s, e);
    LinkKeepsLinks(w, s, e);
    hide AssetIdsDistinct, LinksExist;
    assert Next(w, s, e).t.evidence == s.t.evidence;
  }

  lemma {:induction false} LinkKeepsDistinct(w: World, s: State, e: Event)
    requires AssetIdsDistinct(s.t) && e.Link? && Enabled(w, s, e)
    ensures AssetIdsDistinct(Next(w, s, e).t)
  {
    var u := Next(w, s, e);
    var key := AssetKey(w.tenant, e.task.stage.n.hint.value.naturalKey);
    assert forall k | k in u.t.assets && k != key :: k in s.t.assets && u.t.assets[k] == s.t.assets[k];
    assert forall k | k in s.t.assets :: IsAssetId(s.t, s.t.assets[k].id);
  }

  lemma {:induction false} LinkKeepsLinks(w: World, s: State, e: Event)
    requires LinksExist(s) && e.Link? && Enabled(w, s, e)
    ensures LinksExist(Next(w, s, e))
  {
    var u := Next(w, s, e);
    StepGrows(w, s, e);
    var key := AssetKey(w.tenant, e.task.stage.n.hint.value.naturalKey);
    var done := Task(e.task.id, Linked(e.task.stage.n, u.t.assets[key].id));
    assert IsAssetId(u.t, u.t.assets[key].id);
    forall task | task in u.tasks ensures task == done || task in s.tasks {
    }
    forall id | IsAssetId(s.t, id) ensures IsAssetId(u.t, id) {
      AssetIdsStay(s, u, id);
    }
    hide IsAssetId, Grows;
    assert u.t.evidence == s.t.evidence;
  }

  lemma {:induction false} FinishIsSafe(w: World, s: State, e: Event)
    requires Safe(s) && e.Finish? && Enabled(w, s, e)
    ensures Safe(Next(w, s, e))
  {
    var u := Next(w, s, e);
    assert e.task.id in s.t.evidence;
    assert u.t.evidence.Keys == s.t.evidence.Keys;
    SubmapSize(s.t.evidence, u.t.evidence);
    SubmapSize(u.t.evidence, s.t.evidence);
    assert u.t.assets == s.t.assets;
    forall id ensures IsAssetId(u.t, id) <==> IsAssetId(s.t, id) {
      assert forall key :: key in u.t.assets <==> key in s.t.assets;
    }
  }

  lemma {:induction false} ParseIsSafe(w: World, s: State, e: Event)
    requires Safe(s) && e.Parse? && Enabled(w, s, e)
    ensures Safe(Next(w, s, e))
  {
    assert forall x | x in Next(w, s, e).tasks :: x in s.tasks || (x.id == e.task.id && x.stage.Parsed?);
  }

  lemma {:induction false} LosingTasksIsSafe(w: World, s: State, e: Event)
    requires Safe(s) && (e.Drop? || e.Fault? || e.Crash?) && Enabled(w, s, e)
    ensures Safe(Next(w, s, e))
  {
    assert forall x | x in Next(w, s, e).tasks :: x in s.tasks;
  }

  lemma {:induction false} StepIsSafe(w: World, s: State, e: Event)
    requires Safe(s) && Enabled(w, s, e)
    ensures Safe(Next(w, s, e))
  {
    hide Safe, Next, Enabled;
    match e {
      case Ingest(_, _, _) => IngestIsSafe(w, s, e);
      case Fetch(_, _) => FetchIsSafe(w, s, e);
      case Link(_, _) => LinkIsSafe(w, s, e);
      case Finish(_) => FinishIsSafe(w, s, e);
      case Parse(_) => ParseIsSafe(w, s, e);
      case _ => LosingTasksIsSafe(w, s, e);
    }
  }

  lemma {:induction false} GrowsTransitive(s: State, u: State, v: State)
    requires Grows(s, u) && Grows(u, v)
    ensures Grows(s, v)
  {
    forall key | key in s.t.assets
      ensures key in v.t.assets && v.t.assets[key].id == s.t.assets[key].id
      ensures v.t.assets[key].run == s.t.assets[key].run && v.t.assets[key].name == s.t.assets[key].name
      ensures v.t.assets[key].kind == s.t.assets[key].kind
      ensures s.t.assets[key].attributes.Keys <= v.t.assets[key].attributes.Keys
    {
      assert key in u.t.assets;
    }
  }

  /**
   Safety over every interleaving of uploads, drains, faults and crashes. In particular a result never
   returns to NULL, whatever is ingested again.
   */
  lemma {:induction false} RunsAreSafe(w: World, s: State, events: seq<Event>)
    requires Safe(s) && CanRun(w, s, events)
    ensures Safe(Run(w, s, events)) && Grows(s, Run(w, s, events))
    decreases events
  {
    if events != [] {
      var next := Next(w, s, events[0]);
      StepIsSafe(w, s, events[0]);
      StepGrows(w, s, events[0]);
      RunsAreSafe(w, next, events[1..]);
      GrowsTransitive(s, next, Run(w, next, events[1..]));
    }
  }

  /** From empty tables: the accepted counts add up to the rows, and every link has its asset. */
  lemma {:induction false} AllRunsFromStartAreSafe(w: World, runs: map<RunId, AuditRun>, events: seq<Event>)
    requires CanRun(w, State(Tables(map[], map[], map[], runs), multiset{}, 0), events)
    ensures var u := Run(w, State(Tables(map[], map[], map[], runs), multiset{}, 0), events);
            && u.accepted == |u.t.evidence|
            && AssetIdsDistinct(u.t) && LinksExist(u)
  {
    RunsAreSafe(w, State(Tables(map[], map[], map[], runs), multiset{}, 0), events);
  }
}
