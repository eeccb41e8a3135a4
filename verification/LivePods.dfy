// How far exclusion reaches when pods rather than runs are counted. Here the run reconciler's view of
// the workspace never moves backwards (one cache), which the exclusion of runs did not need.
module LivePods {
  import opened Conditions
  import opened RunLifecycle
  import opened Cluster

  ghost predicate InOrder(s: State, e: Event) {
    e.ReconcileRun? ==>
      match e.read
      case Snapshot(i) => s.cursor <= i
      case Gone => !s.alive || !s.seen
      case Foreign(_) => true
  }

  ghost predicate OrderedNext(s: State, s': State) {
    exists e :: Enabled(s, e) && InOrder(s, e) && s' == Apply(s, e)
  }

  ghost predicate OrderedStepAt(t: seq<State>, i: nat)
    requires i + 1 < |t|
  {
    OrderedNext(t[i], t[i + 1])
  }

  ghost predicate IsOrderedTrace(t: seq<State>) {
    && t != [] && Init(t[0])
    && forall i: nat :: i + 1 < |t| ==> OrderedStepAt(t, i)
  }

  lemma OrderedIsTrace(t: seq<State>)
    requires IsOrderedTrace(t)
    ensures IsTrace(t)
  {
    forall i: nat | i + 1 < |t|
      ensures StepAt(t, i)
    {
      assert OrderedStepAt(t, i);
    }
  }

  ghost predicate Pending(s: State, x: string) {
    x in s.runs && !s.runs[x].Done()
  }

  /** Activity is one unbroken stretch for as long as the run is pending. */
  ghost predicate SteadyFrom(s: State, i: nat)
    requires i < |s.history|
  {
    Pending(s, s.history[i].active) && s.history[i].active != "" ==>
      forall j :: i <= j < |s.history| ==> s.history[j].active == s.history[i].active
  }

  ghost predicate Steady(s: State) {
    forall i: nat :: i < |s.history| ==> SteadyFrom(s, i)
  }

  ghost predicate FailedFor(cs: seq<Condition>, reason: Reason) {
    Is(cs, FailedCondition, True) && Find(cs, FailedCondition).value.reason == reason
  }

  ghost predicate PodOk(s: State, p: string)
    requires p in s.pods && p in s.runs
  {
    var cs := s.runs[p].status.conditions;
    && (!s.runs[p].Done() ==> forall j :: s.cursor <= j < |s.history| ==> s.history[j].active == p)
    && (Is(cs, CompleteCondition, True) ==> s.pods[p].phase.Terminated())
    && (Is(cs, FailedCondition, True) ==> FailedFor(cs, PodPendingTimeout) || FailedFor(cs, WorkspaceNotFound))
  }

  /** A run is failed for want of its workspace before the workspace is first seen, and then has no pod,
      or after it is deleted. */
  ghost predicate Lost(s: State) {
    forall n :: n in s.runs && Contends(s, s.runs[n]) && FailedFor(s.runs[n].status.conditions, WorkspaceNotFound) ==>
      !s.alive || n !in s.pods
  }

  ghost predicate PodsSeen(s: State) {
    forall p :: p in s.pods && p in s.runs && Contends(s, s.runs[p]) ==> s.seen
  }

  ghost predicate PodsAccounted(s: State) {
    forall p :: p in s.pods && p in s.runs && Contends(s, s.runs[p]) ==> PodOk(s, p)
  }

  /** A run that has made way for another was done by then, and has no pod if it lacked its workspace. */
  ghost predicate MadeWay(s: State, x: string)
    requires x in s.runs
  {
    s.runs[x].Done() && (FailedFor(s.runs[x].status.conditions, WorkspaceNotFound) ==> x !in s.pods)
  }

  ghost predicate Superseded(s: State) {
    forall x :: x in s.runs && WasActive(s, x) && x != s.ws.status.active && Contends(s, s.runs[x]) && x != "" ==>
      MadeWay(s, x)
  }

  ghost predicate Live(s: State) {
    Steady(s) && Lost(s) && PodsSeen(s) && PodsAccounted(s) && Superseded(s)
  }

  lemma CommitSuperseded(s: State, list: seq<Run>)
    requires Inv(s) && Live(s) && Lists(list, s.cache) && s.alive
    ensures var status := Requeue(s.ws, list);
            Superseded(s.(ws := s.ws.(status := status), history := s.history + [status]))
  {
    var status := Requeue(s.ws, list);
    if Pending(s, s.ws.status.active) {
      ActiveStays(s, list);
    }
    forall x | ActiveIn(s.history + [status], x) && x != status.active
      ensures WasActive(s, x)
    {
      var i :| 0 <= i < |s.history + [status]| && (s.history + [status])[i].active == x;
      assert s.history[i].active == x;
    }
  }

  lemma SupersededKept(s: State, s': State)
    requires HistoryOk(s) && Superseded(s)
    requires s'.history == s.history && s'.ws.status == s.ws.status && s'.ws.name == s.ws.name
    requires forall x :: x in s.used && x in s'.runs ==>
      && x in s.runs && s'.runs[x] == s.runs[x].(status := s'.runs[x].status)
      && (s.runs[x].Done() ==> s'.runs[x] == s.runs[x] && (x in s'.pods ==> x in s.pods))
    ensures Superseded(s')
  {
  }

  lemma CommitSteady(s: State, list: seq<Run>)
    requires Inv(s) && Steady(s) && Lists(list, s.cache)
    ensures var status := Requeue(s.ws, list);
            Steady(s.(ws := s.ws.(status := status), history := s.history + [status]))
  {
    var status := Requeue(s.ws, list);
    var s' := s.(ws := s.ws.(status := status), history := s.history + [status]);
    var last := |s.history| - 1;
    if Pending(s, s.ws.status.active) {
      ActiveStays(s, list);
    }
    forall i: nat | i < |s'.history|
      ensures SteadyFrom(s', i)
    {
      if i < |s.history| {
        assert SteadyFrom(s, i);
        if Pending(s, s.history[i].active) && s.history[i].active != "" {
          assert s.history[last].active == s.history[i].active;
        }
      }
    }
  }

  lemma CommitPods(s: State, list: seq<Run>)
    requires Inv(s) && PodsAccounted(s) && Lists(list, s.cache)
    ensures var status := Requeue(s.ws, list);
            PodsAccounted(s.(ws := s.ws.(status := status), history := s.history + [status]))
  {
    var status := Requeue(s.ws, list);
    var s' := s.(ws := s.ws.(status := status), history := s.history + [status]);
    if Pending(s, s.ws.status.active) {
      ActiveStays(s, list);
    }
    forall p | p in s.pods && p in s.runs && Contends(s, s.runs[p])
      ensures PodOk(s', p)
    {
      assert PodOk(s, p);
      if Pending(s, p) {
        assert s.history[|s.history| - 1].active == p;
      }
    }
  }

  lemma CommitLive(s: State, list: seq<Run>)
    requires Inv(s) && Live(s) && Lists(list, s.cache) && s.alive
    ensures var status := Requeue(s.ws, list);
            Live(s.(ws := s.ws.(status := status), history := s.history + [status]))
  {
    CommitSuperseded(s, list);
    CommitSteady(s, list);
    CommitPods(s, list);
  }

  /** What following its pod can do to a pending run's conditions. */
  lemma FollowVerdict(st: RunStatus, pod: PodRead, now: int)
    requires Sound(st, now) && !IsDone(st.conditions)
    ensures var cs := Follow(st, pod, now).conditions;
      && (Is(cs, CompleteCondition, True) ==> pod.Found? && pod.phase.Terminated())
      && (Is(cs, FailedCondition, True) ==> FailedFor(cs, PodPendingTimeout))
      && !FailedFor(cs, WorkspaceNotFound)
  {
  }

  lemma WaitVerdict(cs: seq<Condition>, name: string, ws: QueueStatus, now: int)
    requires Shape(cs, now) && !IsDone(cs)
    ensures !FailedFor(Wait(cs, name, ws, now), WorkspaceNotFound)
  {
  }

  /** The verdicts a reconcile of a contending run can reach, by how it read the workspace. */
  lemma ReconcileVerdict(s: State, name: string, read: WorkspaceRead, pod: PodRead)
    requires NamesOk(s) && StatusesOk(s) && Enabled(s, ReconcileRun(name, read, pod, true))
    requires Contends(s, s.runs[name]) && Pending(s, name)
    ensures var cs := Reconciled(s.runs[name], View(s, read), pod, s.now).conditions;
      && (FailedFor(cs, WorkspaceNotFound) ==> read.Gone?)
      && (Is(cs, CompleteCondition, True) ==> name in s.pods && s.pods[name].phase.Terminated())
      && (read.Snapshot? && s.history[read.i].active == name && Is(cs, FailedCondition, True) ==>
            FailedFor(cs, PodPendingTimeout))
  {
    var run := s.runs[name];
    ShapeFacts(run.status.conditions, s.now);
    if read.Snapshot? {
      if s.history[read.i].active == name {
        FollowVerdict(run.status, pod, s.now);
      } else {
        WaitVerdict(run.status.conditions, name, s.history[read.i], s.now);
        WaitShape(run.status.conditions, name, s.history[read.i], s.now, s.now);
      }
    } else {
      SetAppends(run.status.conditions, WorkspaceNotFound, s.now);
    }
  }

  lemma RunReconcileLost(s: State, name: string, read: WorkspaceRead, pod: PodRead, commit: bool)
    requires NamesOk(s) && StatusesOk(s) && Lost(s) && PodsSeen(s)
    requires Enabled(s, ReconcileRun(name, read, pod, commit)) && InOrder(s, ReconcileRun(name, read, pod, commit))
    ensures Lost(RunReconciled(s, name, read, pod, commit))
  {
    RunReconcileFrame(s, name, read, pod, commit);
    if Contends(s, s.runs[name]) && Pending(s, name) {
      ReconcileVerdict(s, name, read, pod);
    }
  }

  lemma RunReconcileSeen(s: State, name: string, read: WorkspaceRead, pod: PodRead, commit: bool)
    requires PodsSeen(s) && Enabled(s, ReconcileRun(name, read, pod, commit))
    ensures PodsSeen(RunReconciled(s, name, read, pod, commit))
  {
  }

  lemma NewPodOk(s: State, name: string, read: WorkspaceRead, pod: PodRead, commit: bool)
    requires Enabled(s, ReconcileRun(name, read, pod, commit)) && InOrder(s, ReconcileRun(name, read, pod, commit))
    requires Inv(s) && Live(s) && Contends(s, s.runs[name]) && name !in s.pods
    requires name in RunReconciled(s, name, read, pod, commit).pods
    ensures name in RunReconciled(s, name, read, pod, commit).runs
    ensures PodOk(RunReconciled(s, name, read, pod, commit), name)
  {
    assert read.Snapshot? && s.history[read.i].active == name && SteadyFrom(s, read.i);
    ReconcileVerdict(s, name, read, pod);
  }

  lemma RunReconcileAccounted(s: State, name: string, read: WorkspaceRead, pod: PodRead, commit: bool)
    requires Inv(s) && Live(s)
    requires Enabled(s, ReconcileRun(name, read, pod, commit)) && InOrder(s, ReconcileRun(name, read, pod, commit))
    ensures PodsAccounted(RunReconciled(s, name, read, pod, commit))
  {
    RunReconcileFrame(s, name, read, pod, commit);
    var s' := RunReconciled(s, name, read, pod, commit);
    forall p | p in s'.pods && p in s'.runs && Contends(s', s'.runs[p])
      ensures PodOk(s', p)
    {
      if p in s.pods {
        assert PodOk(s, p);
        OldPodOk(s, name, read, pod, commit, p);
      } else {
        NewPodOk(s, name, read, pod, commit);
      }
    }
  }

  lemma RunReconcileHistory(s: State, name: string, read: WorkspaceRead, pod: PodRead, commit: bool)
    requires Inv(s) && Steady(s) && Superseded(s) && Enabled(s, ReconcileRun(name, read, pod, commit))
    ensures Steady(RunReconciled(s, name, read, pod, commit)) && Superseded(RunReconciled(s, name, read, pod, commit))
  {
    RunReconcileFrame(s, name, read, pod, commit);
    SteadyKept(s, RunReconciled(s, name, read, pod, commit));
    SupersededKept(s, RunReconciled(s, name, read, pod, commit));
  }

  lemma RunReconcileLive(s: State, name: string, read: WorkspaceRead, pod: PodRead, commit: bool)
    requires Inv(s) && Live(s)
    requires Enabled(s, ReconcileRun(name, read, pod, commit)) && InOrder(s, ReconcileRun(name, read, pod, commit))
    ensures Live(RunReconciled(s, name, read, pod, commit))
  {
    RunReconcileHistory(s, name, read, pod, commit);
    RunReconcileLost(s, name, read, pod, commit);
    RunReconcileSeen(s, name, read, pod, commit);
    RunReconcileAccounted(s, name, read, pod, commit);
  }

  lemma OldPodOk(s: State, name: string, read: WorkspaceRead, pod: PodRead, commit: bool, p: string)
    requires Inv(s) && p in s.pods && p in s.runs && Contends(s, s.runs[p]) && PodOk(s, p)
    requires Enabled(s, ReconcileRun(name, read, pod, commit)) && InOrder(s, ReconcileRun(name, read, pod, commit))
    ensures p in RunReconciled(s, name, read, pod, commit).runs
    ensures PodOk(RunReconciled(s, name, read, pod, commit), p)
  {
    RunReconcileFrame(s, name, read, pod, commit);
    if p == name && Pending(s, name) {
      ReconcileVerdict(s, name, read, pod);
      OldPodVerdict(s, name, read, pod);
    }
  }

  /** Without the workspace the run is failed; otherwise it is still active, its activity being unbroken. */
  lemma OldPodVerdict(s: State, name: string, read: WorkspaceRead, pod: PodRead)
    requires StatusesOk(s) && name in s.pods && name in s.runs && PodOk(s, name) && Pending(s, name)
    requires Contends(s, s.runs[name])
    requires Enabled(s, ReconcileRun(name, read, pod, true)) && InOrder(s, ReconcileRun(name, read, pod, true))
    ensures read.Snapshot? ==> s.history[read.i].active == name
    ensures !read.Snapshot? ==>
      FailedFor(Reconciled(s.runs[name], View(s, read), pod, s.now).conditions, WorkspaceNotFound)
  {
  }

  lemma OtherFrame(s: State, e: Event)
    requires Inv(s) && Enabled(s, e)
    requires !e.ReconcileRun? && !(e.ReconcileWorkspace? && e.commit)
    ensures var s' := Apply(s, e);
      && s'.history == s.history && s'.cursor == s.cursor && s'.seen == s.seen
      && s'.ws.name == s.ws.name && s'.ws.status == s.ws.status
      && (forall x :: x in s.used && x in s'.runs ==> x in s.runs && s'.runs[x] == s.runs[x])
      && forall p :: p in s'.pods ==>
           p in s.runs && p in s.used && p in s.pods && (s.pods[p].phase.Terminated() ==> s'.pods[p] == s.pods[p])
  {
  }

  lemma OtherLost(s: State, e: Event)
    requires Lost(s) && Enabled(s, e)
    requires !e.ReconcileRun? && !(e.ReconcileWorkspace? && e.commit)
    ensures Lost(Apply(s, e))
  {
  }

  lemma SteadyKept(s: State, s': State)
    requires Steady(s) && HistoryOk(s) && s'.history == s.history
    requires forall x :: x in s.used && Pending(s', x) ==> Pending(s, x)
    ensures Steady(s')
  {
    forall i: nat | i < |s'.history|
      ensures SteadyFrom(s', i)
    {
      assert SteadyFrom(s, i);
      assert s.history[i].active != "" ==> s.history[i].active in s.used;
    }
  }

  lemma OtherPods(s: State, e: Event)
    requires Inv(s) && PodsAccounted(s) && PodsSeen(s) && Enabled(s, e)
    requires !e.ReconcileRun? && !(e.ReconcileWorkspace? && e.commit)
    ensures PodsAccounted(Apply(s, e)) && PodsSeen(Apply(s, e))
  {
    var s' := Apply(s, e);
    OtherFrame(s, e);
    forall p | p in s'.pods && p in s'.runs && Contends(s', s'.runs[p])
      ensures PodOk(s', p)
    {
      assert PodOk(s, p);
    }
  }

  lemma OtherLive(s: State, e: Event)
    requires Inv(s) && Live(s) && Enabled(s, e)
    requires !e.ReconcileRun? && !(e.ReconcileWorkspace? && e.commit)
    ensures Live(Apply(s, e))
  {
    OtherFrame(s, e);
    SteadyKept(s, Apply(s, e));
    SupersededKept(s, Apply(s, e));
    OtherLost(s, e);
    OtherPods(s, e);
  }

  lemma CommittedLive(s: State, list: seq<Run>)
    requires Inv(s) && Live(s) && Enabled(s, ReconcileWorkspace(list, true))
    ensures Live(WorkspaceReconciled(s, list, true))
  {
    WorkspaceReconcilePreserves(s, list, false);
    OtherLive(s, ReconcileWorkspace(list, false));
    CommitLive(WorkspaceReconciled(s, list, false), list);
  }

  lemma StepLive(s: State, s': State)
    requires Inv(s) && Live(s) && OrderedNext(s, s')
    ensures Live(s')
  {
    var e :| Enabled(s, e) && InOrder(s, e) && s' == Apply(s, e);
    if e.ReconcileRun? {
      RunReconcileLive(s, e.name, e.read, e.pod, e.commit);
    } else if e.ReconcileWorkspace? && e.commit {
      CommittedLive(s, e.list);
    } else {
      OtherLive(s, e);
    }
  }

  lemma OrderedInv(t: seq<State>, i: nat)
    requires IsOrderedTrace(t) && i < |t|
    ensures Inv(t[i])
  {
    OrderedIsTrace(t);
    TraceInv(t, i);
  }

  lemma {:induction false} TraceLive(t: seq<State>, i: nat)
    requires IsOrderedTrace(t) && i < |t|
    ensures Live(t[i])
  {
    if i == 0 {
    } else {
      TraceLive(t, i - 1);
      OrderedInv(t, i - 1);
      assert OrderedStepAt(t, i - 1);
      StepLive(t[i - 1], t[i]);
    }
  }

  /** A contending run other than the active one has an unfinished pod only if the run was failed because
      its pod was seen pending too long. Deleting the workspace makes no exception. */
  lemma StrayPod(t: seq<State>, i: nat, x: string)
    requires IsOrderedTrace(t) && i < |t| && x in t[i].pods && !t[i].pods[x].phase.Terminated()
    ensures x in t[i].runs
    ensures Contends(t[i], t[i].runs[x]) && t[i].ws.status.active != x ==>
      FailedFor(t[i].runs[x].status.conditions, PodPendingTimeout)
  {
    var s := t[i];
    TraceLive(t, i);
    OrderedInv(t, i);
    if Contends(s, s.runs[x]) && s.ws.status.active != x {
      ShapeFacts(s.runs[x].status.conditions, s.now);
      assert PodOk(s, x) && MadeWay(s, x);
    }
  }

  /** So of two unfinished pods of contending runs, one belongs to a run failed for that reason. */
  lemma UnfinishedPods(t: seq<State>, i: nat, a: string, b: string)
    requires IsOrderedTrace(t) && i < |t| && a != b
    requires a in t[i].pods && !t[i].pods[a].phase.Terminated()
    requires b in t[i].pods && !t[i].pods[b].phase.Terminated()
    ensures a in t[i].runs && b in t[i].runs
    ensures Contends(t[i], t[i].runs[a]) && Contends(t[i], t[i].runs[b]) ==>
      exists x :: x in {a, b} && FailedFor(t[i].runs[x].status.conditions, PodPendingTimeout)
  {
    StrayPod(t, i, a);
    StrayPod(t, i, b);
  }
}
