/**
 The normalizer worker as it is written: one item after the other against the database object. Its
 effect is one of the interleavings of the step system.
 */
module Normalizer {
  import opened Wrappers
  import opened EvidenceTables
  import opened Pipeline
  import opened DrainProgress

  /** Where storage or the database may fail while an item is normalized. */
  datatype FaultPoint = NoFault | AtFetch | AtUpsert | AtWrite | AtAudit

  /** The tables after one item, with a fault at the given point. */
  function Effect(w: World, t: Tables, id: EvidenceId, newId: AssetId, fault: FaultPoint): Tables {
    if id !in t.evidence || fault.AtFetch? then t
    else
      var row := t.evidence[id];
      match Outcome(w, t, row)
      case None => t
      case Some(n) =>
        if n.hint.None? then
          if fault.AtWrite? then t else WriteParsed(t, id, None, n)
        else if fault.AtUpsert? then t
        else
          var u := UpsertAsset(t, w.tenant, row.run, n.hint.value, newId);
          if fault.AtWrite? then u
          else WriteParsed(u, id, Some(u.assets[AssetKey(w.tenant, n.hint.value.naturalKey)].id), n)
  }

  /** Whether the call returns Ok: a row without a parser is skipped, all else has to go through. */
  predicate Succeeds(w: World, t: Tables, row: Row, fault: FaultPoint) {
    row.tool !in TOOLS ||
    (var n := Outcome(w, t, row);
     n.Some? && (fault.NoFault? || (fault.AtUpsert? && n.value.hint.None?)))
  }

  /**
   What Ok says: of a row with a parser that had no result, that it has one now, and that the audit entry
   went through as well. An Err does not say that there is no result.
   */
  lemma {:induction false} OkMeansDone(w: World, t: Tables, id: EvidenceId, newId: AssetId, fault: FaultPoint)
    requires id in t.evidence && t.evidence[id].tool in TOOLS && t.evidence[id].parsed.None?
    ensures Succeeds(w, t, t.evidence[id], fault)
       <==> Effect(w, t, id, newId, fault).evidence[id].parsed.Some? && !fault.AtAudit?
    ensures fault.AtAudit? && Outcome(w, t, t.evidence[id]).Some? ==>
              Effect(w, t, id, newId, fault).evidence[id].parsed.Some? && !Succeeds(w, t, t.evidence[id], fault)
  {
  }

  /** `normalize_one`: true for Ok, false for Err. */
  method NormalizeOne(db: Database, w: World, id: EvidenceId, newId: AssetId, fault: FaultPoint) returns (ok: bool)
    requires id in db.evidence
    modifies db
    ensures id in db.evidence
    ensures db.evidence[id] != old(db.evidence[id]) ==>
              var row := old(db.evidence[id]);
              && row.tool in TOOLS && row.rawRef in old(db.objects) && row.run in old(db.runs)
              && var r := w.parse(row.tool, old(db.objects)[row.rawRef], row.version, old(db.runs)[row.run].scope);
                 && r.Some?
                 && db.evidence[id].parsed == Some(w.redact(r.value.parsed).value)
                 && db.evidence[id].redactions == w.redact(r.value.parsed).rules
                 && db.evidence[id].confidence == r.value.confidence
                 && if r.value.hint.None? then db.evidence[id].assetId == row.assetId
                    else
                      var key := AssetKey(w.tenant, r.value.hint.value.naturalKey);
                      key in db.assets && db.evidence[id].assetId == Some(db.assets[key].id)
    ensures db.Now() == Effect(w, old(db.Now()), id, newId, fault)
    ensures ok <==> Succeeds(w, old(db.Now()), old(db.evidence[id]), fault)
  {
    var row := db.evidence[id];
    if row.tool !in TOOLS {
      return true;
    }
    if fault.AtFetch? || row.rawRef !in db.objects {
      return false;
    }
    var raw := db.objects[row.rawRef];
    if row.run !in db.runs {
      return false;
    }
    var result := w.parse(row.tool, raw, row.version, db.runs[row.run].scope);
    if result.None? {
      return false;
    }
    var red := w.redact(result.value.parsed);
    var n := Normalized(red.value, result.value.confidence, red.rules, result.value.hint);
    var asset: Option<AssetId> := None;
    if n.hint.Some? {
      if fault.AtUpsert? {
        return false;
      }
      var assetId := db.Upsert(w.tenant, row.run, n.hint.value, newId);
      asset := Some(assetId);
    }
    if fault.AtWrite? {
      return false;
    }
    db.Write(id, asset, n);
    ok := !fault.AtAudit?;
  }

  /** The steps that one call performs for its task. */
  ghost function StepsOf(w: World, s: State, id: EvidenceId, newId: AssetId, fault: FaultPoint): seq<Event> {
    var task := Task(id, Fetched);
    if fault.AtFetch? then [Fault(task)]
    else
      match TaskOutcome(w, s, task)
      case None => [Drop(task)]
      case Some(n) =>
        var parsed := Task(id, Parsed(n));
        if n.hint.None? then
          [Parse(task), if fault.AtWrite? then Fault(parsed) else Finish(parsed)]
        else if fault.AtUpsert? then [Parse(task), Fault(parsed)]
        else
          var t := UpsertAsset(s.t, w.tenant, s.t.evidence[id].run, n.hint.value, newId);
          var linked := Task(id, Linked(n, t.assets[AssetKey(w.tenant, n.hint.value.naturalKey)].id));
          [Parse(task), Link(parsed, newId), if fault.AtWrite? then Fault(linked) else Finish(linked)]
  }

  lemma {:induction false} RunOne(w: World, s: State, a: Event)
    requires Enabled(w, s, a)
    ensures CanRun(w, s, [a]) && Run(w, s, [a]) == Next(w, s, a)
  {
    assert [a][1..] == [];
    assert CanRun(w, Next(w, s, a), []);
  }

  lemma {:induction false} RunCons(w: World, s: State, a: Event, rest: seq<Event>)
    requires Enabled(w, s, a) && CanRun(w, Next(w, s, a), rest)
    ensures CanRun(w, s, [a] + rest) && Run(w, s, [a] + rest) == Run(w, Next(w, s, a), rest)
  {
    assert ([a] + rest)[1..] == rest;
  }

  lemma {:induction false} RunAppend(w: World, s: State, first: seq<Event>, second: seq<Event>)
    requires CanRun(w, s, first) && CanRun(w, Run(w, s, first), second)
    ensures CanRun(w, s, first + second) && Run(w, s, first + second) == Run(w, Run(w, s, first), second)
    decreases first
  {
    if first == [] {
      assert first + second == second;
    } else {
      RunAppend(w, Next(w, s, first[0]), first[1..], second);
      assert first + second == [first[0]] + (first[1..] + second);
      RunCons(w, s, first[0], first[1..] + second);
    }
  }

  lemma {:induction false} SwapBack(tasks: multiset<Task>, a: Task, b: Task)
    requires a in tasks
    ensures b in Replace(tasks, a, b) && Replace(tasks, a, b) - multiset{b} == tasks - multiset{a}
    ensures forall c :: Replace(Replace(tasks, a, b), b, c) == Replace(tasks, a, c)
  {
  }

  /** The call with its fault is a run of the step system that takes the item out of flight. */
  lemma {:induction false} CallIsRun(w: World, s: State, id: EvidenceId, newId: AssetId, fault: FaultPoint)
    requires Task(id, Fetched) in s.tasks && id in s.t.evidence && !IsAssetId(s.t, newId)
    ensures CanRun(w, s, StepsOf(w, s, id, newId, fault))
    ensures Run(w, s, StepsOf(w, s, id, newId, fault))
         == State(Effect(w, s.t, id, newId, fault), s.tasks - multiset{Task(id, Fetched)}, s.accepted)
  {
    var task := Task(id, Fetched);
    if fault.AtFetch? {
      RunOne(w, s, Fault(task));
    } else if TaskOutcome(w, s, task).None? {
      RunOne(w, s, Drop(task));
    } else {
      ParsedIsRun(w, s, id, newId, fault);
    }
  }

  lemma {:induction false} ParsedIsRun(w: World, s: State, id: EvidenceId, newId: AssetId, fault: FaultPoint)
    requires Task(id, Fetched) in s.tasks && id in s.t.evidence && !IsAssetId(s.t, newId)
    requires !fault.AtFetch? && TaskOutcome(w, s, Task(id, Fetched)).Some?
    ensures CanRun(w, s, StepsOf(w, s, id, newId, fault))
    ensures Run(w, s, StepsOf(w, s, id, newId, fault))
         == State(Effect(w, s.t, id, newId, fault), s.tasks - multiset{Task(id, Fetched)}, s.accepted)
  {
    var task := Task(id, Fetched);
    var n := TaskOutcome(w, s, task).value;
    var parsed := Task(id, Parsed(n));
    var s1 := Next(w, s, Parse(task));
    SwapBack(s.tasks, task, parsed);
    var rest := StepsOf(w, s, id, newId, fault)[1..];
    assert StepsOf(w, s, id, newId, fault) == [Parse(task)] + rest;
    if n.hint.None? || fault.AtUpsert? {
      RunOne(w, s1, rest[0]);
      assert rest == [rest[0]];
    } else {
      LinkedIsRun(w, s1, id, n, newId, fault);
      var linked := LinkedTask(w, s1, id, n, newId);
      assert rest == [Link(parsed, newId), if fault.AtWrite? then Fault(linked) else Finish(linked)];
    }
    RunCons(w, s, Parse(task), rest);
  }

  ghost function LinkedTask(w: World, s: State, id: EvidenceId, n: Normalized, newId: AssetId): Task
    requires id in s.t.evidence && n.hint.Some?
  {
    var t := UpsertAsset(s.t, w.tenant, s.t.evidence[id].run, n.hint.value, newId);
    Task(id, Linked(n, t.assets[AssetKey(w.tenant, n.hint.value.naturalKey)].id))
  }

  lemma {:induction false} LinkedIsRun(
    w: World, s: State, id: EvidenceId, n: Normalized, newId: AssetId, fault: FaultPoint)
    requires n.hint.Some? && Task(id, Parsed(n)) in s.tasks && id in s.t.evidence && !IsAssetId(s.t, newId)
    ensures var linked := LinkedTask(w, s, id, n, newId);
            var t := UpsertAsset(s.t, w.tenant, s.t.evidence[id].run, n.hint.value, newId);
            var events := [Link(Task(id, Parsed(n)), newId),
                           if fault.AtWrite? then Fault(linked) else Finish(linked)];
            && CanRun(w, s, events)
            && Run(w, s, events)
                 == State(if fault.AtWrite? then t else WriteParsed(t, id, Some(linked.stage.asset), n),
                          s.tasks - multiset{Task(id, Parsed(n))}, s.accepted)
  {
    var parsed := Task(id, Parsed(n));
    var linked := LinkedTask(w, s, id, n, newId);
    var s1 := Next(w, s, Link(parsed, newId));
    SwapBack(s.tasks, parsed, linked);
    var last := if fault.AtWrite? then Fault(linked) else Finish(linked);
    RunOne(w, s1, last);
    RunCons(w, s, Link(parsed, newId), [last]);
    assert [Link(parsed, newId)] + [last] == [Link(parsed, newId), last];
  }

  // ---------------------------------------------------------------- a drain

  /** Ids that the database may generate: distinct and not in use. */
  ghost predicate AreNewIds(t: Tables, newIds: seq<AssetId>, from: nat) {
    && (forall i, j | 0 <= i < j < |newIds| :: newIds[i] != newIds[j])
    && (forall i | from <= i < |newIds| :: !IsAssetId(t, newIds[i]))
  }

  lemma {:induction false} IdsOfEffect(
    w: World, t: Tables, id: EvidenceId, newId: AssetId, fault: FaultPoint, a: AssetId)
    requires IsAssetId(Effect(w, t, id, newId, fault), a)
    ensures IsAssetId(t, a) || a == newId
  {
    var u := Effect(w, t, id, newId, fault);
    var key :| key in u.assets && u.assets[key].id == a;
    if key in t.assets {
      assert t.assets[key].id == a;
    }
  }

  lemma {:induction false} OneIdUsed(
    w: World, t: Tables, id: EvidenceId, newIds: seq<AssetId>, i: nat, fault: FaultPoint)
    requires AreNewIds(t, newIds, i) && i < |newIds|
    ensures AreNewIds(Effect(w, t, id, newIds[i], fault), newIds, i + 1)
  {
    forall j | i + 1 <= j < |newIds| && IsAssetId(Effect(w, t, id, newIds[i], fault), newIds[j])
      ensures IsAssetId(t, newIds[j]) || newIds[j] == newIds[i]
    {
      IdsOfEffect(w, t, id, newIds[i], fault, newIds[j]);
    }
  }

  lemma {:induction false} EffectKeepsRows(w: World, t: Tables, id: EvidenceId, newId: AssetId, fault: FaultPoint)
    ensures Effect(w, t, id, newId, fault).evidence.Keys == t.evidence.Keys
  {
  }

  /** The tasks still to be started when `done` items of the batch are finished. */
  ghost function Remaining(batch: seq<EvidenceId>, done: nat): multiset<Task>
    requires done <= |batch|
  {
    Fresh(batch[done..])
  }

  lemma {:induction false} NextRemaining(batch: seq<EvidenceId>, i: nat)
    requires i < |batch|
    ensures Task(batch[i], Fetched) in Remaining(batch, i)
    ensures Remaining(batch, i) - multiset{Task(batch[i], Fetched)} == Remaining(batch, i + 1)
  {
    var here := seq(|batch[i..]|, k requires 0 <= k < |batch[i..]| => Task(batch[i..][k], Fetched));
    var next := seq(|batch[i + 1..]|, k requires 0 <= k < |batch[i + 1..]| => Task(batch[i + 1..][k], Fetched));
    assert here == [Task(batch[i], Fetched)] + next;
  }

  lemma {:induction false} NothingRemains(batch: seq<EvidenceId>)
    ensures Remaining(batch, |batch|) == multiset{}
    ensures Remaining(batch, 0) == Fresh(batch)
  {
    assert batch[0..] == batch;
  }

  lemma {:induction false} BatchIsStored(t: Tables, scope: Option<RunId>, batch: seq<EvidenceId>)
    requires IsFetch(t, scope, FETCH_LIMIT, batch)
    ensures forall k | 0 <= k < |batch| :: batch[k] in t.evidence
  {
    forall k | 0 <= k < |batch| ensures batch[k] in t.evidence {
      assert batch[k] in Members(batch);
    }
  }

  /** The drain between two items: `steps` are what the finished items of the batch have done. */
  ghost predicate Midway(w: World, start: State, batch: seq<EvidenceId>, newIds: seq<AssetId>,
                         t: Tables, steps: seq<Event>, i: nat)
    requires i <= |batch|
  {
    && Distinct(batch) && (forall k | 0 <= k < |batch| :: batch[k] in t.evidence)
    && AreNewIds(t, newIds, i)
    && Waiting(start.t, t, batch, i)
    && CanRun(w, start, steps)
    && Run(w, start, steps) == State(t, Remaining(batch, i), 0)
  }

  /** The rest of the batch is as it was fetched. */
  predicate Waiting(t0: Tables, t: Tables, batch: seq<EvidenceId>, i: nat) {
    && t.objects == t0.objects && t.runs == t0.runs
    && forall k | i <= k < |batch| ::
         batch[k] in t.evidence && batch[k] in t0.evidence && t.evidence[batch[k]] == t0.evidence[batch[k]]
  }

  lemma {:induction false} EffectIsLocal(
    w: World, t: Tables, id: EvidenceId, newId: AssetId, fault: FaultPoint, other: EvidenceId)
    requires other != id && other in t.evidence
    ensures var u := Effect(w, t, id, newId, fault);
            u.objects == t.objects && u.runs == t.runs && other in u.evidence && u.evidence[other] == t.evidence[other]
  {
  }

  lemma {:induction false} StillWaiting(
    w: World, t0: Tables, t: Tables, batch: seq<EvidenceId>, i: nat, newId: AssetId, fault: FaultPoint)
    requires Distinct(batch) && i < |batch| && Waiting(t0, t, batch, i)
    ensures Waiting(t0, Effect(w, t, batch[i], newId, fault), batch, i + 1)
  {
    hide Effect;
    var u := Effect(w, t, batch[i], newId, fault);
    EffectKeepsTables(w, t, batch[i], newId, fault);
    forall k | i + 1 <= k < |batch|
      ensures batch[k] in u.evidence && u.evidence[batch[k]] == t.evidence[batch[k]]
    {
      EffectIsLocal(w, t, batch[i], newId, fault, batch[k]);
    }
  }

  lemma {:induction false} EffectKeepsTables(w: World, t: Tables, id: EvidenceId, newId: AssetId, fault: FaultPoint)
    ensures var u := Effect(w, t, id, newId, fault); u.objects == t.objects && u.runs == t.runs
  {
  }

  lemma {:induction false} ItemKeepsMidway(w: World, start: State, batch: seq<EvidenceId>, newIds: seq<AssetId>,
                                           t: Tables, steps: seq<Event>, i: nat, fault: FaultPoint)
    requires i < |batch| && i < |newIds| && Midway(w, start, batch, newIds, t, steps, i)
    ensures Midway(w, start, batch, newIds, Effect(w, t, batch[i], newIds[i], fault),
                   steps + StepsOf(w, State(t, Remaining(batch, i), 0), batch[i], newIds[i], fault), i + 1)
  {
    hide Effect, StepsOf, Remaining, AreNewIds, Waiting, Next, Enabled, CanRun, Run;
    var s := State(t, Remaining(batch, i), 0);
    NextRemaining(batch, i);
    NewIdIsFree(t, newIds, i);
    CallIsRun(w, s, batch[i], newIds[i], fault);
    RunAppend(w, start, steps, StepsOf(w, s, batch[i], newIds[i], fault));
    OneIdUsed(w, t, batch[i], newIds, i, fault);
    EffectKeepsRows(w, t, batch[i], newIds[i], fault);
    StillWaiting(w, start.t, t, batch, i, newIds[i], fault);
  }

  lemma {:induction false} NewIdIsFree(t: Tables, newIds: seq<AssetId>, i: nat)
    requires AreNewIds(t, newIds, i) && i < |newIds|
    ensures !IsAssetId(t, newIds[i])
  {
  }

  lemma {:induction false} StepsAreFaultFree(w: World, s: State, id: EvidenceId, newId: AssetId, steps: seq<Event>)
    requires FaultFree(steps)
    ensures FaultFree(steps + StepsOf(w, s, id, newId, NoFault))
  {
    var call := StepsOf(w, s, id, newId, NoFault);
    assert FaultFree(call);
    forall i | 0 <= i < |steps + call|
      ensures (steps + call)[i] == if i < |steps| then steps[i] else call[i - |steps|]
    {
    }
  }

  /** How many items of a batch fail, judged by the rows as they were fetched. */
  function Failures(w: World, t: Tables, batch: seq<EvidenceId>, faults: EvidenceId -> FaultPoint): nat
    requires forall k | 0 <= k < |batch| :: batch[k] in t.evidence
  {
    if batch == [] then 0
    else
      var id := batch[|batch| - 1];
      Failures(w, t, batch[..|batch| - 1], faults)
        + if Succeeds(w, t, t.evidence[id], faults(id)) then 0 else 1
  }

  /** The items of the batch that fail. */
  function Failing(w: World, t: Tables, batch: seq<EvidenceId>, faults: EvidenceId -> FaultPoint): set<nat>
    requires forall k | 0 <= k < |batch| :: batch[k] in t.evidence
  {
    set k: nat | k < |batch| && !Succeeds(w, t, t.evidence[batch[k]], faults(batch[k]))
  }

  lemma {:induction false} FailuresCount(
    w: World, t: Tables, batch: seq<EvidenceId>, faults: EvidenceId -> FaultPoint)
    requires forall k | 0 <= k < |batch| :: batch[k] in t.evidence
    ensures Failures(w, t, batch, faults) == |Failing(w, t, batch, faults)|
    decreases batch
  {
    hide Succeeds;
    if batch != [] {
      var n := |batch| - 1;
      FailuresCount(w, t, batch[..n], faults);
      var last := if Succeeds(w, t, t.evidence[batch[n]], faults(batch[n])) then {} else {n};
      assert Failing(w, t, batch, faults) == Failing(w, t, batch[..n], faults) + last;
    }
  }

  lemma {:induction false} OneMoreFailure(
    w: World, t0: Tables, t: Tables, batch: seq<EvidenceId>, faults: EvidenceId -> FaultPoint, i: nat)
    requires i < |batch| && (forall k | 0 <= k < |batch| :: batch[k] in t0.evidence) && Waiting(t0, t, batch, i)
    ensures Failures(w, t0, batch[..i + 1], faults)
         == Failures(w, t0, batch[..i], faults)
              + if Succeeds(w, t, t.evidence[batch[i]], faults(batch[i])) then 0 else 1
  {
    assert batch[..i + 1][..i] == batch[..i];
    assert Outcome(w, t, t.evidence[batch[i]]) == Outcome(w, t0, t0.evidence[batch[i]]);
  }

  lemma {:induction false} MidwayWaits(
    w: World, start: State, batch: seq<EvidenceId>, newIds: seq<AssetId>, t: Tables, steps: seq<Event>, i: nat)
    requires i <= |batch| && Midway(w, start, batch, newIds, t, steps, i)
    ensures Waiting(start.t, t, batch, i) && forall k | 0 <= k < |batch| :: batch[k] in t.evidence
  {
  }

  /** The items of a fetched batch, one at a time. */
  method NormalizeBatch(
    db: Database, w: World, batch: seq<EvidenceId>, newIds: seq<AssetId>, faults: EvidenceId -> FaultPoint,
    ghost start: State)
    returns (failed: nat, ghost steps: seq<Event>)
    requires |newIds| >= |batch| && start.t == db.Now() && Midway(w, start, batch, newIds, db.Now(), [], 0)
    modifies db
    ensures forall k | 0 <= k < |batch| :: batch[k] in start.t.evidence
    ensures failed == Failures(w, start.t, batch, faults)
    ensures Midway(w, start, batch, newIds, db.Now(), steps, |batch|)
    ensures (forall id :: faults(id).NoFault?) ==> FaultFree(steps)
  {
    hide Remaining, CanRun, Run;
    MidwayWaits(w, start, batch, newIds, db.Now(), [], 0);
    assert FaultFree([]);
    hide Midway, StepsOf, Effect, Succeeds, Waiting, FaultFree;
    failed, steps := 0, [];
    var i := 0;
    while i < |batch|
      invariant 0 <= i <= |batch|
      invariant Midway(w, start, batch, newIds, db.Now(), steps, i)
      invariant failed == Failures(w, start.t, batch[..i], faults)
      invariant (forall id :: faults(id).NoFault?) ==> FaultFree(steps)
    {
      var id := batch[i];
      ghost var s := State(db.Now(), Remaining(batch, i), 0);
      MidwayWaits(w, start, batch, newIds, db.Now(), steps, i);
      OneMoreFailure(w, start.t, db.Now(), batch, faults, i);
      ItemKeepsMidway(w, start, batch, newIds, db.Now(), steps, i, faults(id));
      if faults(id).NoFault? && FaultFree(steps) {
        StepsAreFaultFree(w, s, id, newIds[i], steps);
      }
      var ok := NormalizeOne(db, w, id, newIds[i], faults(id));
      if !ok {
        failed := failed + 1;
      }
      steps := steps + StepsOf(w, s, id, newIds[i], faults(id));
      i := i + 1;
    }
    assert batch[..i] == batch;
  }

  lemma {:induction false} FetchIsMidway(
    w: World, t: Tables, scope: Option<RunId>, batch: seq<EvidenceId>, newIds: seq<AssetId>)
    requires IsFetch(t, scope, FETCH_LIMIT, batch) && AreNewIds(t, newIds, 0)
    ensures var s := State(t, multiset{}, 0);
            Enabled(w, s, Fetch(scope, batch))
            && var start := Next(w, s, Fetch(scope, batch));
               start.t == t && Midway(w, start, batch, newIds, t, [], 0)
  {
    NothingRemains(batch);
    BatchIsStored(t, scope, batch);
  }

  lemma {:induction false} WholeDrain(
    w: World, t: Tables, scope: Option<RunId>, batch: seq<EvidenceId>, newIds: seq<AssetId>, u: Tables,
    steps: seq<Event>)
    requires var s := State(t, multiset{}, 0);
             Enabled(w, s, Fetch(scope, batch))
             && Midway(w, Next(w, s, Fetch(scope, batch)), batch, newIds, u, steps, |batch|)
    ensures var s := State(t, multiset{}, 0);
            var events := [Fetch(scope, batch)] + steps;
            && CanRun(w, s, events) && Run(w, s, events) == State(u, multiset{}, 0) && events[1..] == steps
  {
    NothingRemains(batch);
    RunCons(w, State(t, multiset{}, 0), Fetch(scope, batch), steps);
  }

  /**
   `drain_pending` with items taken one at a time: the counts of fetched and of failed items, and the
   tables that a run of the step system from the fetch to the last item leaves. Without faults that run is
   a whole drain.
   */
  method DrainPending(
    db: Database, w: World, scope: Option<RunId>, newIds: seq<AssetId>, faults: EvidenceId -> FaultPoint)
    returns (count: nat, failed: nat, ghost batch: seq<EvidenceId>, ghost events: seq<Event>)
    requires AreNewIds(db.Now(), newIds, 0) && |newIds| >= FETCH_LIMIT
    modifies db
    ensures IsFetch(old(db.Now()), scope, FETCH_LIMIT, batch) && count == |batch|
    ensures forall k | 0 <= k < |batch| :: batch[k] in old(db.Now()).evidence
    ensures failed == |Failing(w, old(db.Now()), batch, faults)|
    ensures var s := State(old(db.Now()), multiset{}, 0);
            && CanRun(w, s, events) && Run(w, s, events) == State(db.Now(), multiset{}, 0)
            && events != [] && events[0] == Fetch(scope, batch)
            && ((forall id :: faults(id).NoFault?) ==> FaultFree(events[1..]))
  {
    hide Midway, CanRun, Run, FaultFree, Failures;
    var fetched := db.FetchPending(scope, FETCH_LIMIT);
    batch := fetched;
    count := |fetched|;
    ghost var t := db.Now();
    FetchIsMidway(w, t, scope, batch, newIds);
    ghost var start := Next(w, State(t, multiset{}, 0), Fetch(scope, batch));
    ghost var steps;
    failed, steps := NormalizeBatch(db, w, fetched, newIds, faults, start);
    FailuresCount(w, t, batch, faults);
    hide Failing;
    WholeDrain(w, t, scope, batch, newIds, db.Now(), steps);
    events := [Fetch(scope, batch)] + steps;
  }

  /** A fault-free global drain of the worker makes the progress that every such drain makes. */
  method DrainEverything(db: Database, w: World, newIds: seq<AssetId>) returns (count: nat)
    requires AreNewIds(db.Now(), newIds, 0) && |newIds| >= FETCH_LIMIT
    requires |Stuck(w, db.Now())| < FETCH_LIMIT
    modifies db
    ensures Stuck(w, db.Now()) == old(Stuck(w, db.Now()))
    ensures |Parseable(w, db.Now())| <= old(|Parseable(w, db.Now())|)
              - Min(old(|Parseable(w, db.Now())|), FETCH_LIMIT - old(|Stuck(w, db.Now())|))
  {
    ghost var s := State(db.Now(), multiset{}, 0);
    ghost var batch, events;
    var failed;
    count, failed, batch, events := DrainPending(db, w, None, newIds, _ => NoFault);
    DrainMakesProgress(w, s, events);
  }
}
