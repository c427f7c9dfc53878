/**
 Crashes and faults between the asset upsert and the write of the result. With the raw bytes fixed and
 agreeing writers, every row, task and attribute stays where it was or is where its one possible result
 puts it, however often an item is started and wherever it is interrupted.
 */
module CrashReplay {
  import opened Wrappers
  import opened EvidenceTables
  import opened Pipeline
  import opened Confluence

  /** What normalizing a row that was pending at the start must yield. */
  function Goal(w: World, t0: Tables, id: EvidenceId): Option<Normalized> {
    if id in t0.evidence && t0.evidence[id].parsed.None? then Outcome(w, t0, t0.evidence[id]) else None
  }

  predicate HasHint(w: World, t0: Tables, id: EvidenceId) {
    Goal(w, t0, id).Some? && Goal(w, t0, id).value.hint.Some?
  }

  function HintOf(w: World, t0: Tables, id: EvidenceId): Hint
    requires HasHint(w, t0, id)
  {
    Goal(w, t0, id).value.hint.value
  }

  function KeyOf(w: World, hint: Hint): AssetKey {
    AssetKey(w.tenant, hint.naturalKey)
  }

  /** Normalizing the row sets this attribute of this asset. */
  predicate Targets(w: World, t0: Tables, id: EvidenceId, key: AssetKey, attr: string) {
    HasHint(w, t0, id) && KeyOf(w, HintOf(w, t0, id)) == key && attr in HintOf(w, t0, id).attributes
  }

  /** Items about one asset report the same value for every attribute that they share. */
  predicate AgreeingWriters(w: World, t0: Tables) {
    forall i, j | i in t0.evidence && j in t0.evidence && HasHint(w, t0, i) && HasHint(w, t0, j) ::
      Compatible(HintOf(w, t0, i), HintOf(w, t0, j))
  }

  predicate Compatible(g: Hint, h: Hint) {
    g.naturalKey == h.naturalKey ==>
      forall attr | attr in g.attributes && attr in h.attributes :: g.attributes[attr] == h.attributes[attr]
  }

  /** The hint's attributes are in the table. */
  predicate Applied(w: World, assets: Assets, hint: Hint) {
    && KeyOf(w, hint) in assets
    && forall attr | attr in hint.attributes ::
         Lookup(assets, KeyOf(w, hint), attr) == Some(hint.attributes[attr])
  }

  // ---------------------------------------------------------------- the invariant of a replay

  /** The row as it was, or as its one possible result leaves it. */
  predicate RowOnCourse(w: World, t0: Tables, t: Tables, id: EvidenceId)
    requires id in t0.evidence && id in t.evidence
  {
    var r0 := t0.evidence[id];
    var r := t.evidence[id];
    r == r0 ||
    (Goal(w, t0, id).Some? &&
     var n := Goal(w, t0, id).value;
     && r == FinishedRow(r0, r.assetId, n)
     && (n.hint.None? ==> r.assetId == r0.assetId)
     && (n.hint.Some? ==>
           && Applied(w, t.assets, n.hint.value)
           && r.assetId == Some(t.assets[KeyOf(w, n.hint.value)].id)))
  }

  predicate TaskOnCourse(w: World, t0: Tables, t: Tables, task: Task) {
    && task.id in t0.evidence && t0.evidence[task.id].parsed.None?
    && (task.stage.Fetched? || Goal(w, t0, task.id) == Some(task.stage.n))
    && (task.stage.Linked? ==>
          && task.stage.n.hint.Some?
          && Applied(w, t.assets, task.stage.n.hint.value)
          && task.stage.asset == t.assets[KeyOf(w, task.stage.n.hint.value)].id)
  }

  /** An attribute holds its old value or the agreed one; without a writer it holds the old one. */
  ghost predicate AttributeOnCourse(w: World, t0: Tables, t: Tables, key: AssetKey, attr: string) {
    Lookup(t.assets, key, attr) == Lookup(t0.assets, key, attr) ||
    exists id :: id in t0.evidence && Targets(w, t0, id, key, attr)
      && Lookup(t.assets, key, attr) == Some(HintOf(w, t0, id).attributes[attr])
  }

  ghost predicate AssetOnCourse(w: World, t0: Tables, t: Tables, key: AssetKey) {
    key in t.assets ==>
      key in t0.assets || exists id :: id in t0.evidence && HasHint(w, t0, id) && KeyOf(w, HintOf(w, t0, id)) == key
  }

  ghost predicate OnCourse(w: World, t0: Tables, s: State) {
    && s.t.objects == t0.objects && s.t.runs == t0.runs
    && s.t.evidence.Keys == t0.evidence.Keys
    && t0.assets.Keys <= s.t.assets.Keys
    && (forall id | id in t0.evidence :: RowOnCourse(w, t0, s.t, id))
    && (forall task | task in s.tasks :: TaskOnCourse(w, t0, s.t, task))
    && (forall key, attr :: AttributeOnCourse(w, t0, s.t, key, attr))
    && (forall key :: AssetOnCourse(w, t0, s.t, key))
  }

  lemma {:induction false} FetchOnCourse(w: World, t0: Tables, s: State, e: Event)
    requires OnCourse(w, t0, s) && Enabled(w, s, e) && e.Fetch?
    ensures OnCourse(w, t0, Next(w, s, e))
  {
    var u := Next(w, s, e);
    forall task | task in u.tasks ensures TaskOnCourse(w, t0, u.t, task) {
      FreshTask(e.batch, task);
      if task !in s.tasks {
        assert task.id in Members(e.batch);
        assert RowOnCourse(w, t0, s.t, task.id);
      }
    }
  }

  lemma {:induction false} ParseOnCourse(w: World, t0: Tables, s: State, e: Event)
    requires OnCourse(w, t0, s) && Enabled(w, s, e) && e.Parse?
    ensures OnCourse(w, t0, Next(w, s, e))
  {
    var u := Next(w, s, e);
    assert TaskOnCourse(w, t0, s.t, e.task) && RowOnCourse(w, t0, s.t, e.task.id);
    var done := Task(e.task.id, Parsed(TaskOutcome(w, s, e.task).value));
    forall task | task in u.tasks ensures TaskOnCourse(w, t0, u.t, task) {
      assert task in s.tasks || task == done;
    }
  }

  /** An upsert by an agreeing writer leaves applied whatever was applied. */
  lemma {:induction false} LinkKeepsApplied(
    w: World, t0: Tables, t: Tables, run: RunId, hint: Hint, newId: AssetId, other: Hint)
    requires Compatible(hint, other) && Applied(w, t.assets, other)
    ensures Applied(w, UpsertAsset(t, w.tenant, run, hint, newId).assets, other)
  {
  }

  lemma {:induction false} LinkApplies(w: World, t: Tables, run: RunId, hint: Hint, newId: AssetId)
    ensures Applied(w, UpsertAsset(t, w.tenant, run, hint, newId).assets, hint)
  {
  }

  lemma {:induction false} LinkRowsOnCourse(w: World, t0: Tables, s: State, e: Event, id: EvidenceId)
    requires AgreeingWriters(w, t0) && OnCourse(w, t0, s) && Enabled(w, s, e) && e.Link? && id in t0.evidence
    ensures id in Next(w, s, e).t.evidence && RowOnCourse(w, t0, Next(w, s, e).t, id)
  {
    assert RowOnCourse(w, t0, s.t, id) && TaskOnCourse(w, t0, s.t, e.task);
    var hint := e.task.stage.n.hint.value;
    assert HintOf(w, t0, e.task.id) == hint;
    if s.t.evidence[id] != t0.evidence[id] && HasHint(w, t0, id) {
      assert Compatible(hint, HintOf(w, t0, id));
      LinkKeepsApplied(w, t0, s.t, s.t.evidence[e.task.id].run, hint, e.newId, HintOf(w, t0, id));
    }
  }

  lemma {:induction false} LinkTasksOnCourse(w: World, t0: Tables, s: State, e: Event, task: Task)
    requires AgreeingWriters(w, t0) && OnCourse(w, t0, s) && Enabled(w, s, e) && e.Link?
    ensures task in Next(w, s, e).tasks ==> TaskOnCourse(w, t0, Next(w, s, e).t, task)
  {
    hide Lookup, Goal, Outcome;
    assert TaskOnCourse(w, t0, s.t, e.task);
    var hint := e.task.stage.n.hint.value;
    var run := s.t.evidence[e.task.id].run;
    assert HintOf(w, t0, e.task.id) == hint;
    if task in s.tasks {
      assert TaskOnCourse(w, t0, s.t, task);
      if task.stage.Linked? {
        assert HintOf(w, t0, task.id) == task.stage.n.hint.value;
        assert Compatible(hint, task.stage.n.hint.value);
        LinkKeepsApplied(w, t0, s.t, run, hint, e.newId, task.stage.n.hint.value);
      }
    } else {
      LinkApplies(w, s.t, run, hint, e.newId);
    }
  }

  lemma {:induction false} LinkAttributesOnCourse(w: World, t0: Tables, s: State, e: Event, key: AssetKey, attr: string)
    requires OnCourse(w, t0, s) && Enabled(w, s, e) && e.Link?
    ensures AttributeOnCourse(w, t0, Next(w, s, e).t, key, attr)
    ensures AssetOnCourse(w, t0, Next(w, s, e).t, key)
  {
    assert TaskOnCourse(w, t0, s.t, e.task);
    assert AttributeOnCourse(w, t0, s.t, key, attr) && AssetOnCourse(w, t0, s.t, key);
    var hint := e.task.stage.n.hint.value;
    assert HintOf(w, t0, e.task.id) == hint;
    MergeSetsAttribute(w.tenant, s.t.assets, Write("", s.t.evidence[e.task.id].run, hint, e.newId), key, attr);
  }

  lemma {:induction false} LinkOnCourse(w: World, t0: Tables, s: State, e: Event)
    requires AgreeingWriters(w, t0) && OnCourse(w, t0, s) && Enabled(w, s, e) && e.Link?
    ensures OnCourse(w, t0, Next(w, s, e))
  {
    var u := Next(w, s, e);
    forall id | id in t0.evidence ensures id in u.t.evidence && RowOnCourse(w, t0, u.t, id) {
      LinkRowsOnCourse(w, t0, s, e, id);
    }
    forall task | task in u.tasks ensures TaskOnCourse(w, t0, u.t, task) {
      LinkTasksOnCourse(w, t0, s, e, task);
    }
    forall key, attr ensures AttributeOnCourse(w, t0, u.t, key, attr) {
      LinkAttributesOnCourse(w, t0, s, e, key, attr);
    }
    forall key ensures AssetOnCourse(w, t0, u.t, key) {
      LinkAttributesOnCourse(w, t0, s, e, key, "");
    }
  }

  lemma {:induction false} FinishRowOnCourse(w: World, t0: Tables, s: State, e: Event, id: EvidenceId)
    requires OnCourse(w, t0, s) && Enabled(w, s, e) && e.Finish? && id in t0.evidence
    ensures id in Next(w, s, e).t.evidence && RowOnCourse(w, t0, Next(w, s, e).t, id)
  {
    hide Applied, Lookup, Outcome;
    assert TaskOnCourse(w, t0, s.t, e.task) && RowOnCourse(w, t0, s.t, id);
  }

  lemma {:induction false} FinishOnCourse(w: World, t0: Tables, s: State, e: Event)
    requires OnCourse(w, t0, s) && Enabled(w, s, e) && e.Finish?
    ensures OnCourse(w, t0, Next(w, s, e))
  {
    hide Applied, Lookup, Outcome, RowOnCourse;
    var u := Next(w, s, e);
    assert TaskOnCourse(w, t0, s.t, e.task);
    assert u.t.assets == s.t.assets;
    forall id | id in t0.evidence ensures RowOnCourse(w, t0, u.t, id) {
      FinishRowOnCourse(w, t0, s, e, id);
    }
    forall task | task in u.tasks ensures TaskOnCourse(w, t0, u.t, task) {
      assert task in s.tasks && TaskOnCourse(w, t0, s.t, task);
    }
    forall key, attr ensures AttributeOnCourse(w, t0, u.t, key, attr) {
      assert AttributeOnCourse(w, t0, s.t, key, attr);
    }
    forall key ensures AssetOnCourse(w, t0, u.t, key) {
      assert AssetOnCourse(w, t0, s.t, key);
    }
  }

  lemma {:induction false} LosingTasksOnCourse(w: World, t0: Tables, s: State, u: State)
    requires OnCourse(w, t0, s) && u.t == s.t && u.tasks <= s.tasks
    ensures OnCourse(w, t0, u)
  {
    forall task | task in u.tasks ensures TaskOnCourse(w, t0, u.t, task) {
      assert task in s.tasks;
    }
  }

  lemma {:induction false} StepOnCourse(w: World, t0: Tables, s: State, e: Event)
    requires AgreeingWriters(w, t0) && OnCourse(w, t0, s) && Enabled(w, s, e) && !e.Ingest?
    ensures OnCourse(w, t0, Next(w, s, e))
  {
    if e.Fetch? {
      FetchOnCourse(w, t0, s, e);
    } else if e.Parse? {
      ParseOnCourse(w, t0, s, e);
    } else if e.Link? {
      LinkOnCourse(w, t0, s, e);
    } else if e.Finish? {
      FinishOnCourse(w, t0, s, e);
    } else {
      LosingTasksOnCourse(w, t0, s, Next(w, s, e));
    }
  }

  predicate NoArrivals(events: seq<Event>) {
    forall i | 0 <= i < |events| :: !events[i].Ingest?
  }

  lemma {:induction false} RunOnCourse(w: World, t0: Tables, s: State, events: seq<Event>)
    requires AgreeingWriters(w, t0) && OnCourse(w, t0, s) && CanRun(w, s, events) && NoArrivals(events)
    ensures OnCourse(w, t0, Run(w, s, events))
    decreases events
  {
    if events != [] {
      StepOnCourse(w, t0, s, events[0]);
      RunOnCourse(w, t0, Next(w, s, events[0]), events[1..]);
    }
  }

  lemma {:induction false} StartOnCourse(w: World, s: State)
    requires s.tasks == multiset{}
    ensures OnCourse(w, s.t, s)
  {
  }
}
