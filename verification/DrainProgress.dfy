/**
 How fast drains empty the queue. A drain takes at most 500 pending rows, oldest first; rows that can
 never be normalized stay pending and take up places.
 */
module DrainProgress {
  import opened Wrappers
  import opened EvidenceTables
  import opened Pipeline
  import opened CrashReplay

  /** The pending rows that normalization can complete, and those that it cannot. */
  function Parseable(w: World, t: Tables): set<EvidenceId> {
    set id | id in Pending(t, None) && Goal(w, t, id).Some?
  }

  function Stuck(w: World, t: Tables): set<EvidenceId> {
    set id | id in Pending(t, None) && Goal(w, t, id).None?
  }

  predicate FaultFree(events: seq<Event>) {
    forall i | 0 <= i < |events| ::
      events[i].Parse? || events[i].Drop? || events[i].Link? || events[i].Finish?
  }

  /** A whole drain without faults: one fetch, then steps of its items in any order until none is left. */
  ghost predicate IsDrain(w: World, s: State, events: seq<Event>) {
    && s.tasks == multiset{}
    && events != [] && events[0].Fetch? && events[0].scope.None?
    && FaultFree(events[1..])
    && CanRun(w, s, events) && Run(w, s, events).tasks == multiset{}
  }

  // ---------------------------------------------------------------- one drain

  predicate InFlight(tasks: multiset<Task>, id: EvidenceId) {
    exists task | task in tasks :: task.id == id
  }

  /** Only parseable rows of the batch have changed. */
  predicate TablesDraining(w: World, t0: Tables, batch: seq<EvidenceId>, t: Tables) {
    && t.objects == t0.objects && t.runs == t0.runs && t.evidence.Keys == t0.evidence.Keys
    && (forall id | id in t0.evidence && (id !in batch || Goal(w, t0, id).None?) :: t.evidence[id] == t0.evidence[id])
    && (forall id | id in t0.evidence :: SameOrigin(t0.evidence[id], t.evidence[id]))
  }

  /** A parseable row of the batch is completed or still in flight. */
  predicate RowsServed(w: World, t0: Tables, batch: seq<EvidenceId>, s: State)
    requires s.t.evidence.Keys == t0.evidence.Keys
  {
    forall id | id in batch && id in t0.evidence && Goal(w, t0, id).Some? ::
      s.t.evidence[id].parsed.Some? || InFlight(s.tasks, id)
  }

  predicate TasksDraining(w: World, t0: Tables, batch: seq<EvidenceId>, tasks: multiset<Task>) {
    forall task | task in tasks ::
      && task.id in batch && task.id in t0.evidence && t0.evidence[task.id].parsed.None?
      && (!task.stage.Fetched? ==> Goal(w, t0, task.id).Some?)
  }

  /** During a drain of `batch` that began in `t0`. */
  ghost predicate Draining(w: World, t0: Tables, batch: seq<EvidenceId>, s: State) {
    TablesDraining(w, t0, batch, s.t) && RowsServed(w, t0, batch, s) && TasksDraining(w, t0, batch, s.tasks)
  }

  lemma {:induction false} SameGoal(w: World, t0: Tables, batch: seq<EvidenceId>, s: State, task: Task)
    requires Draining(w, t0, batch, s) && task in s.tasks
    ensures TaskOutcome(w, s, task) == Goal(w, t0, task.id)
  {
    assert SameOrigin(t0.evidence[task.id], s.t.evidence[task.id]);
  }

  lemma {:induction false} FetchStartsDrain(w: World, s: State, batch: seq<EvidenceId>)
    requires s.tasks == multiset{} && IsFetch(s.t, None, FETCH_LIMIT, batch)
    ensures Draining(w, s.t, batch, Next(w, s, Fetch(None, batch)))
  {
    hide Goal, Outcome, Distinct, InOrder, NoneOlder;
    var u := Next(w, s, Fetch(None, batch));
    forall id | id in batch ensures InFlight(u.tasks, id) && IsPending(s.t, None, id) {
      FreshTask(batch, Task(id, Fetched));
      assert Task(id, Fetched) in u.tasks;
      assert id in Members(batch);
    }
    forall task | task in u.tasks ensures task.id in batch && task.stage.Fetched? {
      FreshTask(batch, task);
    }
  }

  lemma {:induction false} RemovedTask(tasks: multiset<Task>, task: Task, id: EvidenceId)
    requires InFlight(tasks, id) && task.id != id
    ensures InFlight(tasks - multiset{task}, id)
  {
    var other :| other in tasks && other.id == id;
    assert other in tasks - multiset{task};
  }

  lemma {:induction false} ReplacedTask(tasks: multiset<Task>, task: Task, next: Task, id: EvidenceId)
    requires InFlight(tasks, id) && next.id == task.id
    ensures InFlight(Replace(tasks, task, next), id)
  {
    if task.id == id {
      assert next in Replace(tasks, task, next);
    } else {
      RemovedTask(tasks, task, id);
      var other :| other in tasks - multiset{task} && other.id == id;
      assert other in Replace(tasks, task, next);
    }
  }

  lemma {:induction false} AdvanceDrains(w: World, t0: Tables, batch: seq<EvidenceId>, s: State, e: Event)
    requires Draining(w, t0, batch, s) && Enabled(w, s, e) && (e.Parse? || e.Link?)
    ensures Draining(w, t0, batch, Next(w, s, e))
  {
    var u := Next(w, s, e);
    SameGoal(w, t0, batch, s, e.task);
    var next := if e.Parse? then Task(e.task.id, Parsed(TaskOutcome(w, s, e.task).value))
                else Task(e.task.id, Linked(e.task.stage.n,
                       u.t.assets[AssetKey(w.tenant, e.task.stage.n.hint.value.naturalKey)].id));
    assert u.tasks == Replace(s.tasks, e.task, next);
    assert u.t.evidence == s.t.evidence;
    forall id | id in batch && id in t0.evidence && Goal(w, t0, id).Some?
      ensures u.t.evidence[id].parsed.Some? || InFlight(u.tasks, id)
    {
      if s.t.evidence[id].parsed.None? { ReplacedTask(s.tasks, e.task, next, id); }
    }
    forall task | task in u.tasks ensures task in s.tasks || task == next {
    }
  }

  lemma {:induction false} DropDrains(w: World, t0: Tables, batch: seq<EvidenceId>, s: State, e: Event)
    requires Draining(w, t0, batch, s) && Enabled(w, s, e) && e.Drop?
    ensures Draining(w, t0, batch, Next(w, s, e))
  {
    hide Goal, InFlight, TaskOutcome, Outcome, SameOrigin;
    var u := Next(w, s, e);
    SameGoal(w, t0, batch, s, e.task);
    forall id | id in batch && id in t0.evidence && Goal(w, t0, id).Some?
      ensures u.t.evidence[id].parsed.Some? || InFlight(u.tasks, id)
    {
      if u.t.evidence[id].parsed.None? { RemovedTask(s.tasks, e.task, id); }
    }
    forall task | task in u.tasks ensures task in s.tasks {
    }
  }

  lemma {:induction false} FinishChanges(w: World, s: State, e: Event)
    requires Enabled(w, s, e) && e.Finish? && e.task.id in s.t.evidence
    ensures var u := Next(w, s, e);
            && u.tasks == s.tasks - multiset{e.task} && u.t.objects == s.t.objects && u.t.runs == s.t.runs
            && u.t.evidence.Keys == s.t.evidence.Keys
            && u.t.evidence[e.task.id].parsed.Some? && SameOrigin(s.t.evidence[e.task.id], u.t.evidence[e.task.id])
            && forall id | id in s.t.evidence && id != e.task.id :: u.t.evidence[id] == s.t.evidence[id]
  {
  }

  lemma {:induction false} FinishDrainsTables(w: World, t0: Tables, batch: seq<EvidenceId>, s: State, e: Event)
    requires Draining(w, t0, batch, s) && Enabled(w, s, e) && e.Finish?
    ensures TablesDraining(w, t0, batch, Next(w, s, e).t)
  {
    FinishChanges(w, s, e);
    assert ReadyToFinish(e.task) && e.task in s.tasks;
    hide Goal, RowsServed, Next, Enabled;
  }

  lemma {:induction false} FinishDrains(w: World, t0: Tables, batch: seq<EvidenceId>, s: State, e: Event)
    requires Draining(w, t0, batch, s) && Enabled(w, s, e) && e.Finish?
    ensures Draining(w, t0, batch, Next(w, s, e))
  {
    FinishDrainsTables(w, t0, batch, s, e);
    FinishChanges(w, s, e);
    hide Goal, InFlight, Next, Enabled, SameOrigin;
    var u := Next(w, s, e);
    forall id | id in batch && id in t0.evidence && Goal(w, t0, id).Some?
      ensures u.t.evidence[id].parsed.Some? || InFlight(u.tasks, id)
    {
      if u.t.evidence[id].parsed.None? { RemovedTask(s.tasks, e.task, id); }
    }
    assert forall task | task in u.tasks :: task in s.tasks;
  }

  lemma {:induction false} StepsDrain(w: World, t0: Tables, batch: seq<EvidenceId>, s: State, events: seq<Event>)
    requires Draining(w, t0, batch, s) && CanRun(w, s, events) && FaultFree(events)
    ensures Draining(w, t0, batch, Run(w, s, events))
    decreases events
  {
    if events != [] {
      var e := events[0];
      if e.Parse? || e.Link? {
        AdvanceDrains(w, t0, batch, s, e);
      } else if e.Drop? {
        DropDrains(w, t0, batch, s, e);
      } else {
        FinishDrains(w, t0, batch, s, e);
      }
      StepsDrain(w, t0, batch, Next(w, s, e), events[1..]);
    }
  }

  /** The effect of a drain on the queue: the parseable rows of its batch are gone, the rest is as before. */
  ghost predicate DrainedBatch(w: World, t: Tables, u: Tables, batch: seq<EvidenceId>) {
    && Parseable(w, u) == Parseable(w, t) - Members(batch)
    && Stuck(w, u) == Stuck(w, t)
  }

  lemma {:induction false} DrainedIds(w: World, t0: Tables, batch: seq<EvidenceId>, s: State, id: EvidenceId)
    requires Draining(w, t0, batch, s) && s.tasks == multiset{}
    ensures id in Parseable(w, s.t) <==> id in Parseable(w, t0) - Members(batch)
    ensures id in Stuck(w, s.t) <==> id in Stuck(w, t0)
  {
    if id in t0.evidence {
      assert SameOrigin(t0.evidence[id], s.t.evidence[id]);
      if id in batch && Goal(w, t0, id).Some? {
        assert !InFlight(s.tasks, id);
        assert s.t.evidence[id].parsed.Some?;
      } else {
        assert s.t.evidence[id] == t0.evidence[id];
        assert Goal(w, s.t, id) == Goal(w, t0, id);
      }
    }
  }

  /** Every interleaving of a fault-free drain completes exactly the parseable rows of its batch. */
  lemma {:induction false} DrainCompletesItsBatch(w: World, s: State, events: seq<Event>)
    requires IsDrain(w, s, events)
    ensures DrainedBatch(w, s.t, Run(w, s, events).t, events[0].batch)
  {
    var batch := events[0].batch;
    var start := Next(w, s, events[0]);
    var u := Run(w, s, events);
    FetchStartsDrain(w, s, batch);
    StepsDrain(w, s.t, batch, start, events[1..]);
    assert u == Run(w, start, events[1..]);
    forall id
      ensures id in Parseable(w, u.t) <==> id in Parseable(w, s.t) - Members(batch)
      ensures id in Stuck(w, u.t) <==> id in Stuck(w, s.t)
    {
      DrainedIds(w, s.t, batch, u, id);
    }
  }

  // ---------------------------------------------------------------- counting

  /** A batch takes at least min(p, 500 - f) parseable rows out of the queue. */
  lemma {:induction false} BatchTakesEnough(w: World, t: Tables, batch: seq<EvidenceId>)
    requires IsFetch(t, None, FETCH_LIMIT, batch) && |Stuck(w, t)| < FETCH_LIMIT
    ensures |Parseable(w, t) - Members(batch)|
         <= |Parseable(w, t)| - Min(|Parseable(w, t)|, FETCH_LIMIT - |Stuck(w, t)|)
  {
    hide Goal, IsPending, InOrder, NoneOlder;
    var p := Parseable(w, t);
    var f := Stuck(w, t);
    var b := Members(batch);
    DistinctMembers(batch);
    assert Pending(t, None) == p + f;
    assert |p + f| == |p| + |f|;
    assert b == (b * p) + (b * f);
    assert |b| == |b * p| + |b * f|;
    SubsetSize(b * f, f);
    assert p - b == p - (b * p);
    SubsetSize(b * p, p);
  }

  /** The progress of one fault-free drain, whatever the creation times and the interleaving. */
  lemma {:induction false} DrainMakesProgress(w: World, s: State, events: seq<Event>)
    requires IsDrain(w, s, events) && |Stuck(w, s.t)| < FETCH_LIMIT
    ensures var u := Run(w, s, events);
            && |Parseable(w, u.t)| <= |Parseable(w, s.t)| - Min(|Parseable(w, s.t)|, FETCH_LIMIT - |Stuck(w, s.t)|)
            && Stuck(w, u.t) == Stuck(w, s.t)
  {
    DrainCompletesItsBatch(w, s, events);
    BatchTakesEnough(w, s.t, events[0].batch);
  }

  // ---------------------------------------------------------------- many drains

  ghost predicate AreDrains(w: World, s: State, drains: seq<seq<Event>>)
    decreases drains
  {
    drains == [] || (IsDrain(w, s, drains[0]) && AreDrains(w, Run(w, s, drains[0]), drains[1..]))
  }

  ghost function AfterDrains(w: World, s: State, drains: seq<seq<Event>>): State
    requires AreDrains(w, s, drains)
    decreases drains
  {
    if drains == [] then s else AfterDrains(w, Run(w, s, drains[0]), drains[1..])
  }

  /** ceil(p / (500 - f)). */
  function DrainsNeeded(p: nat, f: nat): nat
    requires f < FETCH_LIMIT
  {
    (p + (FETCH_LIMIT - f) - 1) / (FETCH_LIMIT - f)
  }

  lemma {:induction false} CeilingCovers(p: nat, k: int)
    requires k > 0
    ensures k * ((p + k - 1) / k) >= p
  {
    var a := p + k - 1;
    assert a == k * (a / k) + a % k;
  }

  lemma {:induction false} OneLess(n: int, k: int)
    ensures k * (n - 1) == k * n - k
  {
  }

  lemma {:induction false} EnoughDrains(w: World, s: State, drains: seq<seq<Event>>)
    requires AreDrains(w, s, drains) && |Stuck(w, s.t)| < FETCH_LIMIT
    requires (FETCH_LIMIT - |Stuck(w, s.t)|) * |drains| >= |Parseable(w, s.t)|
    ensures Parseable(w, AfterDrains(w, s, drains).t) == {}
    decreases drains
  {
    if drains != [] {
      var k := FETCH_LIMIT - |Stuck(w, s.t)|;
      DrainMakesProgress(w, s, drains[0]);
      OneLess(|drains|, k);
      EnoughDrains(w, Run(w, s, drains[0]), drains[1..]);
    }
  }

  /** ceil(p / (500 - f)) fault-free drains leave nothing that can be normalized. */
  lemma {:induction false} DrainsEmptyTheQueue(w: World, s: State, drains: seq<seq<Event>>)
    requires AreDrains(w, s, drains) && |Stuck(w, s.t)| < FETCH_LIMIT
    requires |drains| == DrainsNeeded(|Parseable(w, s.t)|, |Stuck(w, s.t)|)
    ensures Parseable(w, AfterDrains(w, s, drains).t) == {}
  {
    CeilingCovers(|Parseable(w, s.t)|, FETCH_LIMIT - |Stuck(w, s.t)|);
    EnoughDrains(w, s, drains);
  }

  // ---------------------------------------------------------------- one row

  /** Stuck rows that a fetch may take rather than this one: all that are not younger. */
  function StuckAhead(w: World, t: Tables, id: EvidenceId): set<EvidenceId> {
    set f | f in Stuck(w, t) && Age(t, f) <= Age(t, id)
  }

  /** Stuck rows that a fetch must take rather than this one: all that are older. */
  function StuckOlder(w: World, t: Tables, id: EvidenceId): set<EvidenceId> {
    set f | f in Stuck(w, t) && Age(t, f) < Age(t, id)
  }

  /** Parseable rows that are not younger, the row itself among them. */
  function Ahead(w: World, t: Tables, id: EvidenceId): set<EvidenceId> {
    set p | p in Parseable(w, t) && Age(t, p) <= Age(t, id)
  }

  predicate Completed(t: Tables, id: EvidenceId) {
    id in t.evidence && t.evidence[id].parsed.Some?
  }

  /** A batch that misses a row is full of rows that are not younger. */
  lemma {:induction false} MissedBatch(w: World, t: Tables, batch: seq<EvidenceId>, id: EvidenceId)
    requires IsFetch(t, None, FETCH_LIMIT, batch) && id in Parseable(w, t) && id !in Members(batch)
    ensures |Members(batch)| == FETCH_LIMIT
    ensures Members(batch) <= StuckAhead(w, t, id) + Ahead(w, t, id)
  {
    hide Goal, InOrder;
    var b := Members(batch);
    DistinctMembers(batch);
    SubsetSize(b + {id}, Pending(t, None));
    assert |b + {id}| == |b| + 1;
    forall x | x in b ensures x in StuckAhead(w, t, id) + Ahead(w, t, id) {
      var i :| 0 <= i < |batch| && batch[i] == x;
      assert id in Pending(t, None) - b;
      assert Age(t, batch[i]) <= Age(t, id);
    }
  }

  lemma {:induction false} MissedBatchServes(w: World, t: Tables, batch: seq<EvidenceId>, id: EvidenceId)
    requires IsFetch(t, None, FETCH_LIMIT, batch) && id in Parseable(w, t) && id !in Members(batch)
    ensures |Ahead(w, t, id) - Members(batch)| <= |Ahead(w, t, id)| + |StuckAhead(w, t, id)| - FETCH_LIMIT
  {
    hide Goal, IsFetch, StuckAhead, Ahead;
    var b, f, p := Members(batch), StuckAhead(w, t, id), Ahead(w, t, id);
    MissedBatch(w, t, batch, id);
    assert b == (b * f) + (b - f) && b - f <= b * p;
    assert |b| == |b * f| + |b - f|;
    SubsetSize(b * f, f);
    SubsetSize(b - f, b * p);
    SubsetSize(b * p, p);
    assert p - b == p - (b * p);
  }

  /** A batch that takes a row has room for all older ones. */
  lemma {:induction false} TakenBatch(w: World, t: Tables, batch: seq<EvidenceId>, id: EvidenceId)
    requires IsFetch(t, None, FETCH_LIMIT, batch) && id in Parseable(w, t) && id in Members(batch)
    ensures |StuckOlder(w, t, id)| < FETCH_LIMIT
  {
    hide Goal, InOrder;
    var f, b := StuckOlder(w, t, id), Members(batch);
    DistinctMembers(batch);
    var i :| 0 <= i < |batch| && batch[i] == id;
    assert Age(t, batch[i]) == Age(t, id);
    forall x | x in f ensures x in b {
      assert x in Pending(t, None) - b || x in b;
    }
    assert f + {id} <= b;
    SubsetSize(f + {id}, b);
    assert |f + {id}| == |f| + 1;
  }

  lemma {:induction false} RunGrows(w: World, s: State, events: seq<Event>)
    requires CanRun(w, s, events)
    ensures Grows(s, Run(w, s, events))
    decreases events
  {
    hide Grows;
    if events == [] {
      GrowsReflexive(s);
    } else {
      var next := Next(w, s, events[0]);
      StepGrows(w, s, events[0]);
      RunGrows(w, next, events[1..]);
      GrowsTransitive(s, next, Run(w, next, events[1..]));
    }
  }

  lemma {:induction false} GrowsReflexive(s: State)
    ensures Grows(s, s)
  {
  }

  lemma {:induction false} CompletedStays(s: State, u: State, id: EvidenceId)
    requires Grows(s, u) && Completed(s.t, id)
    ensures Completed(u.t, id)
  {
  }

  /** One drain from the point of view of a row. */
  lemma {:induction false} DrainSeenByRow(w: World, s: State, events: seq<Event>, id: EvidenceId)
    requires IsDrain(w, s, events) && id in Parseable(w, s.t)
    ensures var u := Run(w, s, events);
            var b := Members(events[0].batch);
            && (id in b ==> Completed(u.t, id))
            && (id !in b ==> id in Parseable(w, u.t) && !Completed(u.t, id))
            && StuckAhead(w, u.t, id) == StuckAhead(w, s.t, id)
            && StuckOlder(w, u.t, id) == StuckOlder(w, s.t, id)
            && Ahead(w, u.t, id) == Ahead(w, s.t, id) - b
  {
    var u := Run(w, s, events);
    DrainCompletesItsBatch(w, s, events);
    RunGrows(w, s, events);
    if id in Members(events[0].batch) { BatchCompleted(w, s, events, id); }
    hide Goal, IsDrain, Run, CanRun;
    assert forall x | x in s.t.evidence :: x in u.t.evidence && Age(u.t, x) == Age(s.t, x);
  }

  lemma {:induction false} BatchCompleted(w: World, s: State, events: seq<Event>, id: EvidenceId)
    requires IsDrain(w, s, events) && id in Parseable(w, s.t) && id in Members(events[0].batch)
    ensures Completed(Run(w, s, events).t, id)
  {
    var batch := events[0].batch;
    var start := Next(w, s, events[0]);
    FetchStartsDrain(w, s, batch);
    StepsDrain(w, s.t, batch, start, events[1..]);
    var u := Run(w, start, events[1..]);
    assert u == Run(w, s, events);
    assert !InFlight(u.tasks, id);
  }

  /**
   A row that fewer than 500 stuck rows can precede is completed within ceil(k / (500 - g)) drains, where
   g counts those and k the parseable rows that are not younger.
   */
  lemma {:induction false} RowIsServed(w: World, s: State, drains: seq<seq<Event>>, id: EvidenceId)
    requires AreDrains(w, s, drains) && id in Parseable(w, s.t) && |StuckAhead(w, s.t, id)| < FETCH_LIMIT
    requires (FETCH_LIMIT - |StuckAhead(w, s.t, id)|) * |drains| >= |Ahead(w, s.t, id)|
    ensures Completed(AfterDrains(w, s, drains).t, id)
    decreases drains
  {
    hide StuckAhead, Ahead, Completed, Parseable, Run, CanRun, FaultFree;
    RowIsAhead(w, s.t, id);
    if drains == [] {
      assert false;
    } else {
      var k := FETCH_LIMIT - |StuckAhead(w, s.t, id)|;
      var next := Run(w, s, drains[0]);
      var batch := drains[0][0].batch;
      DrainSeenByRow(w, s, drains[0], id);
      if id in Members(batch) {
        DrainsGrow(w, next, drains[1..]);
        CompletedStays(next, AfterDrains(w, next, drains[1..]), id);
      } else {
        FetchOfDrain(w, s, drains[0]);
        MissedBatchServes(w, s.t, batch, id);
        OneLess(|drains|, k);
        RowIsServed(w, next, drains[1..], id);
      }
    }
  }

  lemma {:induction false} RowIsAhead(w: World, t: Tables, id: EvidenceId)
    requires id in Parseable(w, t)
    ensures id in Ahead(w, t, id) && |Ahead(w, t, id)| > 0
  {
    assert id in Ahead(w, t, id);
  }

  lemma {:induction false} FetchOfDrain(w: World, s: State, events: seq<Event>)
    requires IsDrain(w, s, events)
    ensures IsFetch(s.t, None, FETCH_LIMIT, events[0].batch)
  {
  }

  lemma {:induction false} DrainsGrow(w: World, s: State, drains: seq<seq<Event>>)
    requires AreDrains(w, s, drains)
    ensures Grows(s, AfterDrains(w, s, drains))
    decreases drains
  {
    hide Grows;
    if drains == [] {
      GrowsReflexive(s);
    } else {
      var next := Run(w, s, drains[0]);
      RunGrows(w, s, drains[0]);
      DrainsGrow(w, next, drains[1..]);
      GrowsTransitive(s, next, AfterDrains(w, next, drains[1..]));
    }
  }

  /** A row behind 500 older stuck rows is never completed, by any number of drains. */
  lemma {:induction false} OldStuckRowsStarveTheRow(w: World, s: State, drains: seq<seq<Event>>, id: EvidenceId)
    requires AreDrains(w, s, drains) && id in Parseable(w, s.t) && |StuckOlder(w, s.t, id)| >= FETCH_LIMIT
    ensures id in Parseable(w, AfterDrains(w, s, drains).t) && !Completed(AfterDrains(w, s, drains).t, id)
    decreases drains
  {
    hide StuckOlder, Goal, Run, CanRun, FaultFree;
    if drains != [] {
      var batch := drains[0][0].batch;
      FetchOfDrain(w, s, drains[0]);
      if id in Members(batch) { TakenBatch(w, s.t, batch, id); }
      DrainSeenByRow(w, s, drains[0], id);
      OldStuckRowsStarveTheRow(w, Run(w, s, drains[0]), drains[1..], id);
    }
  }

  /**
   Exactly which rows fault-free drains complete, given enough of them: those that fewer than 500 stuck
   rows precede. Among rows of one creation time the query leaves the order open, so no stuck row may
   share the row's.
   */
  lemma {:induction false} RowIsServedIff(w: World, s: State, drains: seq<seq<Event>>, id: EvidenceId)
    requires AreDrains(w, s, drains) && id in Parseable(w, s.t)
    requires forall f | f in Stuck(w, s.t) :: Age(s.t, f) != Age(s.t, id)
    requires |StuckOlder(w, s.t, id)| < FETCH_LIMIT ==>
               |drains| >= DrainsNeeded(|Ahead(w, s.t, id)|, |StuckOlder(w, s.t, id)|)
    ensures Completed(AfterDrains(w, s, drains).t, id) <==> |StuckOlder(w, s.t, id)| < FETCH_LIMIT
  {
    var g := |StuckOlder(w, s.t, id)|;
    assert StuckAhead(w, s.t, id) == StuckOlder(w, s.t, id);
    if g < FETCH_LIMIT {
      var k := FETCH_LIMIT - g;
      CeilingCovers(|Ahead(w, s.t, id)|, k);
      AtLeast(k, DrainsNeeded(|Ahead(w, s.t, id)|, g), |drains|);
      RowIsServed(w, s, drains, id);
    } else {
      OldStuckRowsStarveTheRow(w, s, drains, id);
    }
  }

  lemma {:induction false} AtLeast(k: int, m: int, n: int)
    requires k > 0 && m <= n
    ensures k * m <= k * n
  {
  }

  /** When 500 stuck rows are older than each row that can be completed, no drain ever completes any. */
  lemma {:induction false} OldStuckRowsStarveTheQueue(w: World, s: State, drains: seq<seq<Event>>)
    requires AreDrains(w, s, drains)
    requires forall p | p in Parseable(w, s.t) :: |StuckOlder(w, s.t, p)| >= FETCH_LIMIT
    ensures Parseable(w, AfterDrains(w, s, drains).t) == Parseable(w, s.t)
    decreases drains
  {
    hide StuckOlder, Goal, Run, CanRun, FaultFree;
    if drains != [] {
      var next := Run(w, s, drains[0]);
      FetchOfDrain(w, s, drains[0]);
      DrainCompletesItsBatch(w, s, drains[0]);
      forall p | p in Parseable(w, s.t)
        ensures p in Parseable(w, next.t) && |StuckOlder(w, next.t, p)| >= FETCH_LIMIT
      {
        if p in Members(drains[0][0].batch) { TakenBatch(w, s.t, drains[0][0].batch, p); }
        DrainSeenByRow(w, s, drains[0], p);
      }
      OldStuckRowsStarveTheQueue(w, next, drains[1..]);
    }
  }
}
