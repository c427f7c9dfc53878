/**
 Two drains of one batch. Each upserts every hint of the batch exactly once, in whatever order, so they
 leave the same attributes wherever the batch's writers agree.
 */
module DrainConfluence {
  import opened Wrappers
  import opened EvidenceTables
  import opened Pipeline
  import opened Confluence
  import opened CrashReplay
  import opened DrainProgress

  // ---------------------------------------------------------------- what a batch writes

  /** The upsert that normalizing a row performs, but for the generated id. */
  function WriteOf(w: World, t0: Tables, id: EvidenceId): Write
    requires HasHint(w, t0, id)
  {
    Write(t0.evidence[id].tool, t0.evidence[id].run, HintOf(w, t0, id), 0)
  }

  ghost predicate AllHaveHints(w: World, t0: Tables, ids: seq<EvidenceId>) {
    forall i | 0 <= i < |ids| :: HasHint(w, t0, ids[i])
  }

  ghost function WritesOf(w: World, t0: Tables, ids: seq<EvidenceId>): (writes: seq<Write>)
    requires AllHaveHints(w, t0, ids)
    ensures |writes| == |ids| && forall i | 0 <= i < |ids| :: writes[i] == WriteOf(w, t0, ids[i])
  {
    if ids == [] then [] else WritesOf(w, t0, ids[..|ids| - 1]) + [WriteOf(w, t0, ids[|ids| - 1])]
  }

  /** The rows of a batch that upsert something. */
  function Writers(w: World, t0: Tables, batch: seq<EvidenceId>): set<EvidenceId> {
    set id | id in batch && HasHint(w, t0, id)
  }

  // ---------------------------------------------------------------- who has been linked

  /** Some task of the row has not reached the upsert. */
  predicate Unlinked(tasks: multiset<Task>, id: EvidenceId) {
    exists task | task in tasks :: task.id == id && !task.stage.Linked?
  }

  predicate OneTaskEach(tasks: multiset<Task>) {
    && (forall task | task in tasks :: tasks[task] == 1)
    && (forall a, b | a in tasks && b in tasks && a.id == b.id :: a == b)
  }

  /** `linked` are the rows whose upserts are done, in their order; the other writers wait in `tasks`. */
  ghost predicate Waiting(
    w: World, t0: Tables, batch: seq<EvidenceId>, tasks: multiset<Task>, linked: seq<EvidenceId>)
  {
    && OneTaskEach(tasks)
    && (forall task | task in tasks && !task.stage.Fetched? :: Goal(w, t0, task.id) == Some(task.stage.n))
    && Distinct(linked) && Members(linked) <= Writers(w, t0, batch)
    && (forall id | id in Writers(w, t0, batch) :: id in linked <==> !Unlinked(tasks, id))
  }

  ghost predicate Linking(w: World, t0: Tables, batch: seq<EvidenceId>, s: State, linked: seq<EvidenceId>) {
    Draining(w, t0, batch, s) && Waiting(w, t0, batch, s.tasks, linked)
  }

  lemma {:induction false} FetchStartsLinking(w: World, s: State, batch: seq<EvidenceId>)
    requires s.tasks == multiset{} && IsFetch(s.t, None, FETCH_LIMIT, batch)
    ensures Linking(w, s.t, batch, Next(w, s, Fetch(None, batch)), [])
  {
    hide Goal, InOrder, NoneOlder, Draining;
    var u := Next(w, s, Fetch(None, batch));
    FetchStartsDrain(w, s, batch);
    FreshOnce(batch);
    assert u.tasks == Fresh(batch);
    forall task | task in u.tasks ensures task.stage.Fetched? && task.id in batch {
      FreshTask(batch, task);
    }
    forall id | id in Writers(w, s.t, batch) ensures Unlinked(u.tasks, id) {
      FreshTask(batch, Task(id, Fetched));
      assert Task(id, Fetched) in u.tasks;
    }
  }

  lemma {:induction false} FreshOnce(batch: seq<EvidenceId>)
    requires Distinct(batch)
    ensures OneTaskEach(Fresh(batch))
    decreases batch
  {
    var tasks := Fresh(batch);
    forall task | task in tasks ensures tasks[task] == 1 && task.stage.Fetched? {
      FreshTask(batch, task);
      FreshCount(batch, task);
    }
  }

  lemma {:induction false} FreshCount(batch: seq<EvidenceId>, task: Task)
    requires Distinct(batch)
    ensures Fresh(batch)[task] <= 1
    decreases batch
  {
    if batch == [] {
      assert Fresh(batch) == multiset{};
    } else {
      var n := |batch| - 1;
      FreshCount(batch[..n], task);
      FreshTask(batch[..n], task);
      FreshSnoc(batch, n);
    }
  }

  lemma {:induction false} FreshSnoc(batch: seq<EvidenceId>, n: nat)
    requires |batch| == n + 1
    ensures Fresh(batch) == Fresh(batch[..n]) + multiset{Task(batch[n], Fetched)}
  {
    var all := seq(|batch|, i requires 0 <= i < |batch| => Task(batch[i], Fetched));
    var init := seq(|batch[..n]|, i requires 0 <= i < |batch[..n]| => Task(batch[..n][i], Fetched));
    assert all == init + [Task(batch[n], Fetched)];
  }

  lemma {:induction false} SwapOne(tasks: multiset<Task>, a: Task, b: Task)
    requires OneTaskEach(tasks) && a in tasks && b.id == a.id
    ensures OneTaskEach(Replace(tasks, a, b))
    ensures forall c :: c in Replace(tasks, a, b) <==> c == b || (c in tasks && c != a)
  {
    var next := Replace(tasks, a, b);
    assert b in tasks ==> b == a;
    forall c ensures c in next <==> c == b || (c in tasks && c != a) {
    }
    forall c | c in next ensures next[c] == 1 {
    }
  }

  lemma {:induction false} RemoveOne(tasks: multiset<Task>, a: Task)
    requires OneTaskEach(tasks) && a in tasks
    ensures OneTaskEach(tasks - multiset{a})
    ensures forall c :: c in tasks - multiset{a} <==> c in tasks && c != a
  {
  }

  lemma {:induction false} UnlinkedAfterSwap(tasks: multiset<Task>, a: Task, b: Task, id: EvidenceId)
    requires OneTaskEach(tasks) && a in tasks && b.id == a.id
    ensures Unlinked(Replace(tasks, a, b), id)
       <==> if id == a.id then !b.stage.Linked? else Unlinked(tasks, id)
  {
    SwapOne(tasks, a, b);
    var next := Replace(tasks, a, b);
    if Unlinked(tasks, id) && id != a.id {
      var c :| c in tasks && c.id == id && !c.stage.Linked?;
      assert c in next;
    }
    if id == a.id && !b.stage.Linked? {
      assert b in next;
    }
  }

  lemma {:induction false} UnlinkedAfterLeave(tasks: multiset<Task>, a: Task, id: EvidenceId)
    requires OneTaskEach(tasks) && a in tasks
    ensures Unlinked(tasks - multiset{a}, id) <==> id != a.id && Unlinked(tasks, id)
  {
    RemoveOne(tasks, a);
    if Unlinked(tasks, id) && id != a.id {
      var c :| c in tasks && c.id == id && !c.stage.Linked?;
      assert c in tasks - multiset{a};
    }
  }

  lemma {:induction false} ParseWaits(
    w: World, t0: Tables, batch: seq<EvidenceId>, tasks: multiset<Task>, linked: seq<EvidenceId>, a: Task, b: Task)
    requires Waiting(w, t0, batch, tasks, linked) && a in tasks && a.stage.Fetched?
    requires b.id == a.id && b.stage.Parsed? && Goal(w, t0, a.id) == Some(b.stage.n)
    ensures Waiting(w, t0, batch, Replace(tasks, a, b), linked)
  {
    hide Goal, Writers, Replace, OneTaskEach;
    SwapOne(tasks, a, b);
    assert Unlinked(tasks, a.id);
    forall id | id in Writers(w, t0, batch) ensures Unlinked(Replace(tasks, a, b), id) <==> Unlinked(tasks, id) {
      UnlinkedAfterSwap(tasks, a, b, id);
    }
  }

  lemma {:induction false} LinkWaits(
    w: World, t0: Tables, batch: seq<EvidenceId>, tasks: multiset<Task>, linked: seq<EvidenceId>, a: Task, b: Task)
    requires Waiting(w, t0, batch, tasks, linked) && a in tasks && a.stage.Parsed?
    requires b.id == a.id && b.stage.Linked? && b.stage.n == a.stage.n
    requires a.id in Writers(w, t0, batch) && a.id !in linked
    ensures Waiting(w, t0, batch, Replace(tasks, a, b), linked + [a.id])
  {
    hide Goal, Writers, Replace, OneTaskEach;
    SwapOne(tasks, a, b);
    DistinctSnoc(linked, a.id);
    forall id | id in Writers(w, t0, batch)
      ensures Unlinked(Replace(tasks, a, b), id) <==> id != a.id && Unlinked(tasks, id)
    {
      UnlinkedAfterSwap(tasks, a, b, id);
    }
  }

  lemma {:induction false} LeaveWaits(
    w: World, t0: Tables, batch: seq<EvidenceId>, tasks: multiset<Task>, linked: seq<EvidenceId>, a: Task)
    requires Waiting(w, t0, batch, tasks, linked) && a in tasks
    requires a.id in Writers(w, t0, batch) ==> !Unlinked(tasks, a.id)
    ensures Waiting(w, t0, batch, tasks - multiset{a}, linked)
  {
    hide Goal, Writers, OneTaskEach;
    RemoveOne(tasks, a);
    forall id | id in Writers(w, t0, batch) ensures Unlinked(tasks - multiset{a}, id) <==> Unlinked(tasks, id) {
      UnlinkedAfterLeave(tasks, a, id);
    }
  }

  lemma {:induction false} ParseLinks(
    w: World, t0: Tables, batch: seq<EvidenceId>, s: State, linked: seq<EvidenceId>, e: Event)
    requires Linking(w, t0, batch, s, linked) && Enabled(w, s, e) && e.Parse?
    ensures Linking(w, t0, batch, Next(w, s, e), linked)
  {
    hide Draining, Goal, Waiting, TaskOutcome;
    AdvanceDrains(w, t0, batch, s, e);
    SameGoal(w, t0, batch, s, e.task);
    ParseWaits(w, t0, batch, s.tasks, linked, e.task, Task(e.task.id, Parsed(TaskOutcome(w, s, e.task).value)));
  }

  /** The upsert of a task is that of its row, and the row had none before. */
  lemma {:induction false} LinkWrites(
    w: World, t0: Tables, batch: seq<EvidenceId>, s: State, linked: seq<EvidenceId>, e: Event)
    requires Linking(w, t0, batch, s, linked) && Enabled(w, s, e) && e.Link?
    ensures e.task.id in Writers(w, t0, batch) && e.task.id !in linked && HasHint(w, t0, e.task.id)
    ensures UpsertsIn(w, s, e) == [WriteOf(w, t0, e.task.id).(newId := e.newId)]
  {
    hide Outcome;
    var id := e.task.id;
    assert Goal(w, t0, id) == Some(e.task.stage.n);
    assert SameOrigin(t0.evidence[id], s.t.evidence[id]);
    assert Unlinked(s.tasks, id);
  }

  lemma {:induction false} DistinctSnoc(linked: seq<EvidenceId>, id: EvidenceId)
    requires Distinct(linked) && id !in linked
    ensures Distinct(linked + [id]) && Members(linked + [id]) == Members(linked) + {id}
  {
  }

  lemma {:induction false} LinkLinks(
    w: World, t0: Tables, batch: seq<EvidenceId>, s: State, linked: seq<EvidenceId>, e: Event)
    requires Linking(w, t0, batch, s, linked) && Enabled(w, s, e) && e.Link?
    ensures Linking(w, t0, batch, Next(w, s, e), linked + [e.task.id])
  {
    hide Draining, Goal, Waiting, UpsertsIn, WriteOf, HasHint, UpsertAsset;
    var u := Next(w, s, e);
    AdvanceDrains(w, t0, batch, s, e);
    LinkWrites(w, t0, batch, s, linked, e);
    var key := AssetKey(w.tenant, e.task.stage.n.hint.value.naturalKey);
    LinkedAsset(w, s, e);
    LinkWaits(w, t0, batch, s.tasks, linked, e.task, Task(e.task.id, Linked(e.task.stage.n, u.t.assets[key].id)));
  }

  lemma {:induction false} LinkedAsset(w: World, s: State, e: Event)
    requires Enabled(w, s, e) && e.Link?
    ensures var u := Next(w, s, e);
            var key := AssetKey(w.tenant, e.task.stage.n.hint.value.naturalKey);
            key in u.t.assets
            && u.tasks == Replace(s.tasks, e.task, Task(e.task.id, Linked(e.task.stage.n, u.t.assets[key].id)))
  {
  }

  /** A task that leaves has been linked or has nothing to link. */
  lemma {:induction false} LeaversAreDone(
    w: World, t0: Tables, batch: seq<EvidenceId>, s: State, linked: seq<EvidenceId>, e: Event)
    requires Linking(w, t0, batch, s, linked) && Enabled(w, s, e) && (e.Drop? || e.Finish?)
    ensures e.task.id in Writers(w, t0, batch) ==> !Unlinked(s.tasks, e.task.id)
  {
    hide Outcome;
    SameGoal(w, t0, batch, s, e.task);
    if e.Finish? && e.task.stage.Linked? {
      assert forall task | task in s.tasks && task.id == e.task.id :: task == e.task;
    }
  }

  lemma {:induction false} LeaveLinks(
    w: World, t0: Tables, batch: seq<EvidenceId>, s: State, linked: seq<EvidenceId>, e: Event)
    requires Linking(w, t0, batch, s, linked) && Enabled(w, s, e) && (e.Drop? || e.Finish?)
    ensures Linking(w, t0, batch, Next(w, s, e), linked)
  {
    hide Draining, Goal, Waiting, WriteParsed, TaskOutcome;
    if e.Drop? { DropDrains(w, t0, batch, s, e); } else { FinishDrains(w, t0, batch, s, e); }
    LeaversAreDone(w, t0, batch, s, linked, e);
    LeaveWaits(w, t0, batch, s.tasks, linked, e.task);
  }

  lemma {:induction false} OtherStepLinks(
    w: World, t0: Tables, batch: seq<EvidenceId>, s: State, linked: seq<EvidenceId>, e: Event)
    requires Linking(w, t0, batch, s, linked) && Enabled(w, s, e) && (e.Parse? || e.Drop? || e.Finish?)
    ensures Linking(w, t0, batch, Next(w, s, e), linked) && UpsertsIn(w, s, e) == []
  {
    hide Linking, Next;
    if e.Parse? {
      ParseLinks(w, t0, batch, s, linked, e);
    } else {
      LeaveLinks(w, t0, batch, s, linked, e);
    }
  }

  lemma {:induction false} UpsertsSplit(w: World, s: State, events: seq<Event>)
    requires events != [] && CanRun(w, s, events)
    ensures Enabled(w, s, events[0]) && CanRun(w, Next(w, s, events[0]), events[1..])
    ensures Run(w, s, events) == Run(w, Next(w, s, events[0]), events[1..])
    ensures UpsertsOf(w, s, events) == UpsertsIn(w, s, events[0]) + UpsertsOf(w, Next(w, s, events[0]), events[1..])
  {
  }

  lemma {:induction false} FirstIsFaultFree(events: seq<Event>)
    requires events != [] && FaultFree(events)
    ensures FaultFree(events[1..])
    ensures events[0].Parse? || events[0].Drop? || events[0].Link? || events[0].Finish?
  {
  }

  lemma {:induction false} NothingLinks(w: World, t0: Tables, s: State)
    ensures CanRun(w, s, []) && Run(w, s, []) == s
    ensures AllHaveHints(w, t0, []) && Unnumbered(UpsertsOf(w, s, [])) == WritesOf(w, t0, [])
  {
  }

  /** The rows that the rest of a drain links, in their order: the others of the batch, each once. */
  lemma {:induction false} RestLinks(
    w: World, t0: Tables, batch: seq<EvidenceId>, s: State, linked: seq<EvidenceId>, events: seq<Event>)
    returns (more: seq<EvidenceId>)
    requires Linking(w, t0, batch, s, linked) && CanRun(w, s, events) && FaultFree(events)
    ensures Linking(w, t0, batch, Run(w, s, events), linked + more)
    ensures AllHaveHints(w, t0, more)
    ensures Unnumbered(UpsertsOf(w, s, events)) == WritesOf(w, t0, more)
    decreases events
  {
    hide *;
    if events == [] {
      more := [];
      NothingLinks(w, t0, s);
      assert linked + [] == linked;
    } else {
      var e := events[0];
      UpsertsSplit(w, s, events);
      FirstIsFaultFree(events);
      var next := Next(w, s, e);
      if e.Link? {
        LinkLinks(w, t0, batch, s, linked, e);
        LinkWrites(w, t0, batch, s, linked, e);
        var rest := RestLinks(w, t0, batch, next, linked + [e.task.id], events[1..]);
        FirstWrite(w, t0, e.task.id, rest, e.newId, UpsertsOf(w, next, events[1..]));
        assert linked + [e.task.id] + rest == linked + ([e.task.id] + rest);
        more := [e.task.id] + rest;
      } else {
        OtherStepLinks(w, t0, batch, s, linked, e);
        more := RestLinks(w, t0, batch, next, linked, events[1..]);
        assert [] + UpsertsOf(w, next, events[1..]) == UpsertsOf(w, next, events[1..]);
      }
    }
  }

  lemma {:induction false} FirstWrite(
    w: World, t0: Tables, id: EvidenceId, more: seq<EvidenceId>, newId: AssetId, writes: seq<Write>)
    requires HasHint(w, t0, id) && AllHaveHints(w, t0, more)
    requires Unnumbered(writes) == WritesOf(w, t0, more)
    ensures AllHaveHints(w, t0, [id] + more)
    ensures Unnumbered([WriteOf(w, t0, id).(newId := newId)] + writes) == WritesOf(w, t0, [id] + more)
  {
    var first := WriteOf(w, t0, id).(newId := newId);
    UnnumberedCons(first, writes);
    WritesOfCons(w, t0, id, more);
  }

  lemma {:induction false} UnnumberedCons(first: Write, writes: seq<Write>)
    ensures Unnumbered([first] + writes) == [first.(newId := 0)] + Unnumbered(writes)
    decreases writes
  {
    var all := [first] + writes;
    if writes == [] {
      assert all == [first] && all[..0] == [];
    } else {
      var n := |writes| - 1;
      UnnumberedCons(first, writes[..n]);
      assert all[..n + 1] == [first] + writes[..n];
    }
  }

  lemma {:induction false} WritesOfCons(w: World, t0: Tables, id: EvidenceId, more: seq<EvidenceId>)
    requires HasHint(w, t0, id) && AllHaveHints(w, t0, more)
    ensures AllHaveHints(w, t0, [id] + more)
    ensures WritesOf(w, t0, [id] + more) == [WriteOf(w, t0, id)] + WritesOf(w, t0, more)
    decreases more
  {
    var all := [id] + more;
    if more == [] {
      assert all == [id] && all[..0] == [];
    } else {
      var n := |more| - 1;
      WritesOfCons(w, t0, id, more[..n]);
      assert all[..n + 1] == [id] + more[..n];
    }
  }

  lemma {:induction false} DrainBegins(w: World, s: State, events: seq<Event>)
    requires IsDrain(w, s, events)
    ensures events != [] && events[0].Fetch? && Enabled(w, s, events[0]) && FaultFree(events[1..])
    ensures CanRun(w, s, events) && CanRun(w, Next(w, s, events[0]), events[1..])
    ensures Linking(w, s.t, events[0].batch, Next(w, s, events[0]), [])
    ensures UpsertsIn(w, s, events[0]) == [] && Run(w, s, events).tasks == multiset{}
  {
    hide Linking, FaultFree, Run;
    FetchStartsLinking(w, s, events[0].batch);
  }

  /** A drain upserts every hint of its batch exactly once. */
  lemma {:induction false} DrainUpsertsItsBatch(w: World, s: State, events: seq<Event>)
    returns (linked: seq<EvidenceId>)
    requires IsDrain(w, s, events)
    ensures Distinct(linked) && Members(linked) == Writers(w, s.t, events[0].batch)
    ensures AllHaveHints(w, s.t, linked)
    ensures Unnumbered(UpsertsOf(w, s, events)) == WritesOf(w, s.t, linked)
  {
    hide *;
    DrainBegins(w, s, events);
    var batch := events[0].batch;
    var start := Next(w, s, events[0]);
    UpsertsSplit(w, s, events);
    linked := RestLinks(w, s.t, batch, start, [], events[1..]);
    assert [] + linked == linked;
    assert [] + UpsertsOf(w, start, events[1..]) == UpsertsOf(w, start, events[1..]);
    AllLinked(w, s.t, batch, Run(w, s, events), linked);
  }

  lemma {:induction false} AllLinked(
    w: World, t0: Tables, batch: seq<EvidenceId>, u: State, linked: seq<EvidenceId>)
    requires Linking(w, t0, batch, u, linked) && u.tasks == multiset{}
    ensures Distinct(linked) && Members(linked) == Writers(w, t0, batch)
  {
    hide Goal, Draining;
    forall id | id in Writers(w, t0, batch) ensures id in linked {
      assert !Unlinked(u.tasks, id);
    }
  }

  // ---------------------------------------------------------------- two drains

  lemma {:induction false} SameWrites(w: World, t0: Tables, a: seq<EvidenceId>, b: seq<EvidenceId>)
    requires Distinct(a) && Distinct(b) && Members(a) == Members(b)
    requires AllHaveHints(w, t0, a) && AllHaveHints(w, t0, b)
    ensures multiset(WritesOf(w, t0, a)) == multiset(WritesOf(w, t0, b))
    decreases a
  {
    if a == [] {
      NoMembers(b);
    } else {
      var n := |a| - 1;
      assert a[n] in Members(b);
      var k :| 0 <= k < |b| && b[k] == a[n];
      var rest := b[..k] + b[k + 1..];
      RestMembers(a, b, k);
      SameWrites(w, t0, a[..n], rest);
      WritesOfMoved(w, t0, b, k);
    }
  }

  lemma {:induction false} NoMembers(b: seq<EvidenceId>)
    ensures Members([]) == {} && (Members(b) == {} ==> b == [])
  {
    if b != [] {
      assert b[0] in Members(b);
    }
  }

  lemma {:induction false} RestMembers(a: seq<EvidenceId>, b: seq<EvidenceId>, k: nat)
    requires Distinct(a) && Distinct(b) && Members(a) == Members(b) && a != [] && k < |b| && b[k] == a[|a| - 1]
    ensures var rest := b[..k] + b[k + 1..]; Distinct(rest) && Members(rest) == Members(a[..|a| - 1])
  {
    var n := |a| - 1;
    var rest := b[..k] + b[k + 1..];
    forall i | 0 <= i < |rest| ensures rest[i] == b[if i < k then i else i + 1] && rest[i] != b[k] {
    }
    forall x ensures x in rest <==> x in b && x != b[k] {
      if x in b && x != b[k] {
        var i :| 0 <= i < |b| && b[i] == x;
        assert rest[if i < k then i else i - 1] == x;
      }
    }
    forall x ensures x in a[..n] <==> x in a && x != a[n] {
      assert a == a[..n] + [a[n]];
    }
    forall x ensures x in Members(rest) <==> x in Members(a[..n]) {
      assert x in a <==> x in Members(a);
      assert x in b <==> x in Members(b);
    }
  }

  lemma {:induction false} WritesOfMoved(w: World, t0: Tables, b: seq<EvidenceId>, k: nat)
    requires AllHaveHints(w, t0, b) && k < |b|
    ensures AllHaveHints(w, t0, b[..k] + b[k + 1..]) && HasHint(w, t0, b[k])
    ensures multiset(WritesOf(w, t0, b))
         == multiset(WritesOf(w, t0, b[..k] + b[k + 1..])) + multiset{WriteOf(w, t0, b[k])}
  {
    hide WriteOf, HasHint, WritesOf;
    var rest := b[..k] + b[k + 1..];
    assert AllHaveHints(w, t0, rest);
    var all, less := WritesOf(w, t0, b), WritesOf(w, t0, rest);
    assert less[..k] == all[..k] && less[k..] == all[k + 1..];
    assert less == all[..k] + all[k + 1..];
    assert all == all[..k] + [all[k]] + all[k + 1..];
  }

  /** The writers of a batch agree on an attribute of an asset. */
  ghost predicate BatchAgrees(w: World, t0: Tables, batch: seq<EvidenceId>, key: AssetKey, attr: string) {
    forall i, j | i in Writers(w, t0, batch) && j in Writers(w, t0, batch)
                  && Targets(w, t0, i, key, attr) && Targets(w, t0, j, key, attr) ::
      HintOf(w, t0, i).attributes[attr] == HintOf(w, t0, j).attributes[attr]
  }

  lemma {:induction false} WritesAgree(
    w: World, t0: Tables, batch: seq<EvidenceId>, linked: seq<EvidenceId>, key: AssetKey, attr: string)
    requires BatchAgrees(w, t0, batch, key, attr) && Members(linked) == Writers(w, t0, batch)
    requires AllHaveHints(w, t0, linked)
    ensures WritersAgree(w.tenant, WritesOf(w, t0, linked), key, attr)
  {
    hide Goal, WritesOf;
    var writes := WritesOf(w, t0, linked);
    forall i, j | 0 <= i < |writes| && 0 <= j < |writes|
                  && Sets(w.tenant, writes[i], key, attr) && Sets(w.tenant, writes[j], key, attr)
      ensures writes[i].hint.attributes[attr] == writes[j].hint.attributes[attr]
    {
      assert linked[i] in Members(linked) && linked[j] in Members(linked);
      assert Targets(w, t0, linked[i], key, attr) && Targets(w, t0, linked[j], key, attr);
    }
  }

  /** Two drains of one batch, however they interleave its items, agree where the batch's writers agree. */
  lemma {:induction false} DrainsOfOneBatchAgree(
    w: World, s: State, one: seq<Event>, other: seq<Event>, key: AssetKey, attr: string)
    requires IsDrain(w, s, one) && IsDrain(w, s, other) && one[0].batch == other[0].batch
    requires BatchAgrees(w, s.t, one[0].batch, key, attr)
    ensures Lookup(Run(w, s, one).t.assets, key, attr) == Lookup(Run(w, s, other).t.assets, key, attr)
  {
    var a := DrainUpsertsItsBatch(w, s, one);
    var b := DrainUpsertsItsBatch(w, s, other);
    SameWrites(w, s.t, a, b);
    WritesAgree(w, s.t, one[0].batch, a, key, attr);
    InterleavedRunsAgree(w, s, one, other, key, attr);
  }

  // ---------------------------------------------------------------- the parsers

  /** Each parser writes the attribute keys of the table. */
  ghost predicate ParsersFollowTable(w: World) {
    forall tool, raw, version, scope | tool in TOOLS && w.parse(tool, raw, version, scope).Some? ::
      var hint := w.parse(tool, raw, version, scope).value.hint;
      hint.Some? ==> tool in ATTRIBUTES && hint.value.attributes.Keys == ATTRIBUTES[tool]
  }

  /** No two rows of a batch come from one tool and describe one asset. */
  ghost predicate OneRowPerToolAndHost(w: World, t0: Tables, batch: seq<EvidenceId>) {
    forall i, j | i in Writers(w, t0, batch) && j in Writers(w, t0, batch) && i != j ::
      || t0.evidence[i].tool != t0.evidence[j].tool
      || HintOf(w, t0, i).naturalKey != HintOf(w, t0, j).naturalKey
  }

  lemma {:induction false} HintFollowsTable(w: World, t0: Tables, id: EvidenceId)
    requires ParsersFollowTable(w) && HasHint(w, t0, id)
    ensures id in t0.evidence && t0.evidence[id].tool in ATTRIBUTES
    ensures HintOf(w, t0, id).attributes.Keys == ATTRIBUTES[t0.evidence[id].tool]
  {
    hide ATTRIBUTES;
    var row := t0.evidence[id];
    assert w.parse(row.tool, t0.objects[row.rawRef], row.version, t0.runs[row.run].scope).Some?;
  }

  /** With one row for each tool and host in the batch, only `numa_nodes` can depend on the order. */
  lemma {:induction false} OnlyNumaNodesDependsOnDrain(
    w: World, s: State, one: seq<Event>, other: seq<Event>, key: AssetKey, attr: string)
    requires IsDrain(w, s, one) && IsDrain(w, s, other) && one[0].batch == other[0].batch
    requires ParsersFollowTable(w) && OneRowPerToolAndHost(w, s.t, one[0].batch) && attr != "numa_nodes"
    ensures Lookup(Run(w, s, one).t.assets, key, attr) == Lookup(Run(w, s, other).t.assets, key, attr)
  {
    hide Goal, ATTRIBUTES, ParsersFollowTable, CanRun, Run, FaultFree, Outcome;
    var batch := one[0].batch;
    forall i, j | i in Writers(w, s.t, batch) && j in Writers(w, s.t, batch)
                  && Targets(w, s.t, i, key, attr) && Targets(w, s.t, j, key, attr)
      ensures i == j
    {
      HintFollowsTable(w, s.t, i);
      HintFollowsTable(w, s.t, j);
      if i != j {
        OnlyNumaNodesIsShared(s.t.evidence[i].tool, s.t.evidence[j].tool, attr);
      }
    }
    DrainsOfOneBatchAgree(w, s, one, other, key, attr);
  }
}
