// A reachable state in which two contending runs both have an unfinished pod: the first run was failed
// for a pod pending too long, its pod stayed, and the second run got the workspace.
module LivePodsWitness {
  import opened Common
  import opened Conditions
  import opened Commands
  import opened RunLifecycle
  import opened Approvals
  import opened WorkspaceQueue
  import opened CombinedQueue
  import opened Cluster
  import opened LivePods

  const LATE: int := POD_PENDING_TIMEOUT + SECOND

  const CREATED: RunStatus := RunStatus(PhaseProvisioning, [Condition(CompleteCondition, False, PodCreated, 0)], None)
  const EXPIRED: RunStatus := RunStatus(PhaseFailed,
    [Condition(CompleteCondition, False, PodPending, 0),
     Condition(FailedCondition, True, PodPendingTimeout, LATE)], None)

  function A(st: RunStatus): Run { Run("a", "apply", "w", st) }
  function B(st: RunStatus): Run { Run("b", "apply", "w", st) }

  const IDLE := QueueStatus("", [])
  const A_FIRST := QueueStatus("a", ["b"])
  const B_ONLY := QueueStatus("b", [])
  const NEW_POD := Pod(PodPhase.Pending, NoStatus)

  function World(now: int, history: seq<QueueStatus>, cursor: nat, runs: map<string, Run>, cache: map<string, Run>,
      pods: map<string, Pod>): State
    requires history != []
  {
    State(now, WorkspaceState("w", [], map[], history[|history| - 1]), true,
          runs, runs.Keys, cache, pods, history, cursor, cursor > 0)
  }

  lemma Create(now: int, history: seq<QueueStatus>, name: string, runs: map<string, Run>, cache: map<string, Run>,
      pods: map<string, Pod>)
    requires history != [] && name != "" && '/' !in name && name !in runs
    ensures OrderedNext(World(now, history, 0, runs, cache, pods),
                        World(now, history, 0, runs[name := Run(name, "apply", "w", NEW_STATUS)], cache, pods))
  {
    var s := World(now, history, 0, runs, cache, pods);
    var e := CreateRun(name, "apply", "w");
    assert runs[name := Run(name, "apply", "w", NEW_STATUS)].Keys == runs.Keys + {name};
    assert Enabled(s, e) && InOrder(s, e);
    assert Apply(s, e) == World(now, history, 0, runs[name := Run(name, "apply", "w", NEW_STATUS)], cache, pods);
  }

  lemma Sync(now: int, history: seq<QueueStatus>, cursor: nat, name: string, runs: map<string, Run>,
      cache: map<string, Run>, pods: map<string, Pod>)
    requires history != [] && name in runs
    ensures OrderedNext(World(now, history, cursor, runs, cache, pods),
                        World(now, history, cursor, runs, cache[name := runs[name]], pods))
  {
    var s := World(now, history, cursor, runs, cache, pods);
    var e := SyncRun(name);
    assert Enabled(s, e) && InOrder(s, e);
    assert Apply(s, e) == World(now, history, cursor, runs, cache[name := runs[name]], pods);
  }

  lemma TimePasses(history: seq<QueueStatus>, cursor: nat, runs: map<string, Run>, cache: map<string, Run>,
      pods: map<string, Pod>)
    requires history != []
    ensures OrderedNext(World(0, history, cursor, runs, cache, pods), World(LATE, history, cursor, runs, cache, pods))
  {
    var s, e := World(0, history, cursor, runs, cache, pods), Tick(LATE);
    assert Enabled(s, e) && InOrder(s, e);
    assert Apply(s, e) == World(LATE, history, cursor, runs, cache, pods);
  }

  lemma ApplyIsQueueable()
    ensures IsQueueable("apply")
  {
  }

  lemma Requeued(now: int, history: seq<QueueStatus>, cursor: nat, a: RunStatus, runs: map<string, Run>,
      pods: map<string, Pod>, next: QueueStatus)
    requires history != []
    requires var eligible := (if IsDone(a.conditions) then [] else ["a"]) + ["b"];
      next == Split(NextQueue(Combined(history[|history| - 1]), eligible))
    ensures var cache := map["a" := A(a), "b" := B(NEW_STATUS)];
      OrderedNext(World(now, history, cursor, runs, cache, pods),
                  World(now, history + [next], cursor, runs, cache, pods))
  {
    var cache := map["a" := A(a), "b" := B(NEW_STATUS)];
    var s := World(now, history, cursor, runs, cache, pods);
    var list := [A(a), B(NEW_STATUS)];
    var e := ReconcileWorkspace(list, true);
    assert Lists(list, cache) by {
      assert list[0] in list && list[1] in list;
    }
    assert Enabled(s, e) && InOrder(s, e);
    assert Pruned(map[], cache) == map[];
    ApplyIsQueueable();
    assert list[..1] == [list[0]] && list[..1][..0] == [];
    assert EligibleNames("w", [], map[], list[..1]) == if IsDone(a.conditions) then [] else ["a"];
    assert EligibleNames("w", [], map[], list) == (if IsDone(a.conditions) then [] else ["a"]) + ["b"];
    assert Apply(s, e) == World(now, history + [next], cursor, runs, cache, pods);
  }

  /** The active run gets its pod. */
  lemma Started(now: int, history: seq<QueueStatus>, cursor: nat, i: nat, run: Run, runs: map<string, Run>,
      cache: map<string, Run>, pods: map<string, Pod>)
    requires now == Stamp(now)
    requires 0 < i && cursor <= i < |history| && run.name in runs && runs[run.name] == run && run.name !in pods
    requires run.workspace == "w" && history[i].active == run.name && run.status == NEW_STATUS
    ensures var st := RunStatus(PhaseProvisioning, [Condition(CompleteCondition, False, PodCreated, now)], None);
      OrderedNext(World(now, history, cursor, runs, cache, pods),
                  World(now, history, i, runs[run.name := run.(status := st)], cache, pods[run.name := NEW_POD]))
  {
    var s := World(now, history, cursor, runs, cache, pods);
    var e := ReconcileRun(run.name, Snapshot(i), NotFound(true), true);
    var st := RunStatus(PhaseProvisioning, [Condition(CompleteCondition, False, PodCreated, now)], None);
    assert Enabled(s, e) && InOrder(s, e);
    assert Reconciled(run, Some(history[i]), NotFound(true), now) == st;
    assert runs[run.name := run.(status := st)].Keys == runs.Keys;
    assert Apply(s, e)
        == World(now, history, i, runs[run.name := run.(status := st)], cache, pods[run.name := NEW_POD]);
  }

  lemma ExpiryReconciled(ws: QueueStatus)
    requires ws.active == "a"
    ensures Reconciled(A(CREATED), Some(ws), Found(PodPhase.Pending, NoStatus), LATE) == EXPIRED
  {
    var c := [Condition(CompleteCondition, False, PodPending, 0)];
    assert Set(CREATED.conditions, CompleteCondition, False, PodPending, LATE) == c;
    SetAppends(c, PodPendingTimeout, LATE);
    assert EXPIRED.conditions[1..] == [EXPIRED.conditions[1]];
  }

  lemma Expires(history: seq<QueueStatus>, runs: map<string, Run>, cache: map<string, Run>, pods: map<string, Pod>)
    requires |history| > 1 && history[1].active == "a" && "a" in runs && runs["a"] == A(CREATED)
    requires "a" in pods && pods["a"] == NEW_POD
    ensures OrderedNext(World(LATE, history, 1, runs, cache, pods),
                        World(LATE, history, 1, runs["a" := A(EXPIRED)], cache, pods))
  {
    var s := World(LATE, history, 1, runs, cache, pods);
    var e := ReconcileRun("a", Snapshot(1), Found(PodPhase.Pending, NoStatus), true);
    assert Enabled(s, e) && InOrder(s, e);
    ExpiryReconciled(history[1]);
    assert runs["a" := A(EXPIRED)].Keys == runs.Keys;
    assert Apply(s, e) == World(LATE, history, 1, runs["a" := A(EXPIRED)], cache, pods);
  }

  lemma Extend(t: seq<State>, s: State)
    requires IsOrderedTrace(t) && OrderedNext(t[|t| - 1], s)
    ensures IsOrderedTrace(t + [s])
  {
    forall i: nat | i + 1 < |t + [s]|
      ensures OrderedStepAt(t + [s], i)
    {
      if i + 1 < |t| {
        assert OrderedStepAt(t, i);
      }
    }
  }

  /** The first run has failed, and the workspace's controller knows. */
  lemma ToExpiry() returns (t: seq<State>)
    ensures IsOrderedTrace(t)
    ensures t[|t| - 1] == World(LATE, [IDLE, A_FIRST], 1, map["a" := A(EXPIRED), "b" := B(NEW_STATUS)],
                                map["a" := A(EXPIRED), "b" := B(NEW_STATUS)], map["a" := NEW_POD])
  {
    t := ToFirstPod();
    var h, pods := [IDLE, A_FIRST], map["a" := NEW_POD];
    var cache := map["a" := A(NEW_STATUS), "b" := B(NEW_STATUS)];
    var runs := map["a" := A(CREATED), "b" := B(NEW_STATUS)];

    TimePasses(h, 1, runs, cache, pods);
    var s := World(LATE, h, 1, runs, cache, pods);
    Extend(t, s); t := t + [s];

    Expires(h, runs, cache, pods);
    var after := map["a" := A(EXPIRED), "b" := B(NEW_STATUS)];
    assert runs["a" := A(EXPIRED)] == after;
    s := World(LATE, h, 1, after, cache, pods);
    Extend(t, s); t := t + [s];

    Sync(LATE, h, 1, "a", after, cache, pods);
    assert cache["a" := A(EXPIRED)] == after;
    s := World(LATE, h, 1, after, after, pods);
    Extend(t, s); t := t + [s];
  }

  /** The second run has become active. */
  lemma ToHandover() returns (t: seq<State>)
    ensures IsOrderedTrace(t)
    ensures t[|t| - 1] == World(LATE, [IDLE, A_FIRST, B_ONLY], 1, map["a" := A(EXPIRED), "b" := B(NEW_STATUS)],
                                map["a" := A(EXPIRED), "b" := B(NEW_STATUS)], map["a" := NEW_POD])
  {
    t := ToExpiry();
    var h, pods := [IDLE, A_FIRST], map["a" := NEW_POD];
    var runs := map["a" := A(EXPIRED), "b" := B(NEW_STATUS)];
    ExpiredIsDone();
    OnlySuccessor();
    Requeued(LATE, h, 1, EXPIRED, runs, pods, B_ONLY);
    assert h + [B_ONLY] == [IDLE, A_FIRST, B_ONLY];
    var s := World(LATE, [IDLE, A_FIRST, B_ONLY], 1, runs, runs, pods);
    Extend(t, s); t := t + [s];
  }

  const STARTED: RunStatus :=
    RunStatus(PhaseProvisioning, [Condition(CompleteCondition, False, PodCreated, LATE)], None)

  /** Where the trace ends. */
  const BOTH: State := World(LATE, [IDLE, A_FIRST, B_ONLY], 2, map["a" := A(EXPIRED), "b" := B(STARTED)],
    map["a" := A(EXPIRED), "b" := B(NEW_STATUS)], map["a" := NEW_POD, "b" := NEW_POD])

  /** Two runs, two unfinished pods, one live workspace. */
  lemma TwoUnfinishedPods() returns (t: seq<State>)
    ensures IsOrderedTrace(t) && t[|t| - 1] == BOTH
    ensures var s := t[|t| - 1];
      && s.alive && "a" in s.pods && "b" in s.pods && "a" in s.runs && "b" in s.runs
      && Contends(s, s.runs["a"]) && Contends(s, s.runs["b"])
      && !s.pods["a"].phase.Terminated() && !s.pods["b"].phase.Terminated()
  {
    t := ToHandover();
    var h, pods := [IDLE, A_FIRST, B_ONLY], map["a" := NEW_POD];
    var runs := map["a" := A(EXPIRED), "b" := B(NEW_STATUS)];
    Started(LATE, h, 1, 2, B(NEW_STATUS), runs, runs, pods);
    assert runs["b" := B(STARTED)] == BOTH.runs && pods["b" := NEW_POD] == BOTH.pods;
    Extend(t, BOTH); t := t + [BOTH];
    ApplyIsQueueable();
  }

  lemma OnlySuccessor()
    ensures B_ONLY == Split(NextQueue(Combined(A_FIRST), [] + ["b"]))
  {
  }

  lemma ExpiredIsDone()
    ensures IsDone(EXPIRED.conditions)
  {
    assert EXPIRED.conditions[1].truth == True;
  }

  /** A run read before its workspace shows in the run controller's cache is failed. */
  lemma FailedTooSoon() returns (t: seq<State>)
    ensures IsOrderedTrace(t)
    ensures var s := t[|t| - 1];
      s.alive && "a" in s.runs && s.runs["a"].workspace == s.ws.name
      && FailedFor(s.runs["a"].status.conditions, WorkspaceNotFound)
  {
    var s := World(0, [IDLE], 0, map[], map[], map[]);
    t := [s];
    var none: map<string, Run> := map[];
    assert none.Keys == {};
    Create(0, [IDLE], "a", map[], map[], map[]);
    s := World(0, [IDLE], 0, map["a" := A(NEW_STATUS)], map[], map[]);
    Extend(t, s); t := t + [s];

    var e := ReconcileRun("a", Gone, ReadError, true);
    assert Enabled(s, e) && InOrder(s, e);
    Extend(t, Apply(s, e)); t := t + [Apply(s, e)];
    SetAppends([], WorkspaceNotFound, 0);
  }

  lemma ToFirstPod() returns (t: seq<State>)
    ensures IsOrderedTrace(t)
    ensures t[|t| - 1] == World(0, [IDLE, A_FIRST], 1, map["a" := A(CREATED), "b" := B(NEW_STATUS)],
                                map["a" := A(NEW_STATUS), "b" := B(NEW_STATUS)], map["a" := NEW_POD])
  {
    var a, b := A(NEW_STATUS), B(NEW_STATUS);
    var s := World(0, [IDLE], 0, map[], map[], map[]);
    t := [s];
    var none: map<string, Run> := map[];
    assert none.Keys == {};

    Create(0, [IDLE], "a", map[], map[], map[]);
    s := World(0, [IDLE], 0, map["a" := a], map[], map[]);
    Extend(t, s); t := t + [s];

    Create(0, [IDLE], "b", map["a" := a], map[], map[]);
    var runs := map["a" := a, "b" := b];
    s := World(0, [IDLE], 0, runs, map[], map[]);
    Extend(t, s); t := t + [s];

    Sync(0, [IDLE], 0, "a", runs, map[], map[]);
    s := World(0, [IDLE], 0, runs, map["a" := a], map[]);
    Extend(t, s); t := t + [s];

    Sync(0, [IDLE], 0, "b", runs, map["a" := a], map[]);
    s := World(0, [IDLE], 0, runs, runs, map[]);
    Extend(t, s); t := t + [s];

    assert Combined(IDLE) == [];
    NextQueueEmpty(["a", "b"]);
    assert ["a"] + ["b"] == ["a", "b"];
    Requeued(0, [IDLE], 0, NEW_STATUS, runs, map[], A_FIRST);
    assert [IDLE] + [A_FIRST] == [IDLE, A_FIRST];
    s := World(0, [IDLE, A_FIRST], 0, runs, runs, map[]);
    Extend(t, s); t := t + [s];

    Started(0, [IDLE, A_FIRST], 0, 1, a, runs, runs, map[]);
    s := World(0, [IDLE, A_FIRST], 1, runs["a" := A(CREATED)], runs, map["a" := NEW_POD]);
    assert runs["a" := A(CREATED)] == map["a" := A(CREATED), "b" := b];
    Extend(t, s); t := t + [s];
  }
}
