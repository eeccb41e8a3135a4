// pkg/controllers/run_controller.go: what each kind of reconcile leaves behind, spelled out case by case, and
// what a run's verdict says about its pod, over every trace.
module RunOutcomes {
  import opened Common
  import opened Conditions
  import opened Commands
  import opened RunLifecycle
  import opened Cluster

  /** The run needs no turn, or it has it. */
  ghost predicate MayStart(run: Run, ws: QueueStatus) {
    Command(run.command, true) !in ALL || ws.active == run.name
  }

  /** No condition of the run is true: it neither completed nor failed. */
  ghost predicate Unfinished(run: Run) {
    forall c :: c in run.status.conditions ==> c.truth != True
  }

  /** When the run was marked incomplete: at its first condition, or now. */
  function MarkedAt(run: Run, now: int): int {
    if run.status.conditions == [] then Stamp(now) else run.status.conditions[0].since
  }

  function Mark(run: Run, reason: Reason, now: int): seq<Condition> {
    [Condition(CompleteCondition, False, reason, MarkedAt(run, now))]
  }

  function Failure(reason: Reason, now: int): seq<Condition> {
    [Condition(FailedCondition, True, reason, Stamp(now))]
  }

  /** The conditions of an unfinished run: none, or one mark. */
  lemma UnfinishedShape(run: Run, now: int)
    requires Sound(run.status, now) && Unfinished(run)
    ensures !run.Done()
    ensures run.status.conditions == [] || run.status.conditions == [run.status.conditions[0]]
    ensures run.status.conditions != [] ==> Incomplete(run.status.conditions[0], now)
    ensures run.status.exitCode == None
  {
    ShapeFacts(run.status.conditions, now);
  }

  lemma SetMark(run: Run, truth: Truth, reason: Reason, now: int)
    requires Sound(run.status, now) && Unfinished(run)
    ensures Set(run.status.conditions, CompleteCondition, truth, reason, now)
         == if truth == False then Mark(run, reason, now) else [Condition(CompleteCondition, truth, reason, Stamp(now))]
  {
    UnfinishedShape(run, now);
  }

  lemma MarkPhase(run: Run, reason: Reason, failure: Reason, now: int)
    ensures SetRunPhase(Mark(run, reason, now) + Failure(failure, now)) == PhaseFailed
    ensures SetRunPhase(Mark(run, reason, now)) == match reason
      case RunUnqueued => PhaseWaiting
      case RunQueued => PhaseQueued
      case PodCreated => PhaseProvisioning
      case PodPending => PhaseProvisioning
      case PodRunning => PhaseRunning
      case _ => PhaseUnknown
  {
  }

  lemma MarkFound(run: Run, reason: Reason, now: int)
    ensures Find(Mark(run, reason, now), CompleteCondition) == Some(Mark(run, reason, now)[0])
  {
  }

  lemma SetFailure(run: Run, mark: Reason, reason: Reason, now: int)
    ensures Set(Mark(run, mark, now), FailedCondition, True, reason, now) == Mark(run, mark, now) + Failure(reason, now)
  {
  }

  // ---- the outcomes of one reconcile --------------------------------------

  /** A run that completed or failed is left alone. */
  lemma LeftAlone(run: Run, ws: Option<QueueStatus>, pod: PodRead, now: int)
    requires !Unfinished(run)
    ensures Reconciled(run, ws, pod, now) == run.status
    ensures !Errs(run, ws, pod, now) && !CreatesPod(run, ws, pod) && !Crashes(run, ws, pod)
  {
    var c :| c in run.status.conditions && c.truth == True;
    assert run.Done();
  }

  /** Without its workspace an unfinished run fails, and nothing else happens. */
  lemma LosesWorkspace(run: Run, pod: PodRead, now: int)
    requires Sound(run.status, now) && Unfinished(run)
    ensures Reconciled(run, None, pod, now)
         == run.status.(conditions := run.status.conditions + Failure(WorkspaceNotFound, now))
    ensures !Errs(run, None, pod, now) && !CreatesPod(run, None, pod) && !Crashes(run, None, pod)
  {
    UnfinishedShape(run, now);
    SetAppends(run.status.conditions, WorkspaceNotFound, now);
  }

  /** A queueable run that is not active waits, for an hour in the queue and for ten seconds outside it. */
  lemma WaitsItsTurn(run: Run, ws: QueueStatus, pod: PodRead, now: int)
    requires Sound(run.status, now) && Unfinished(run) && !MayStart(run, ws)
    ensures var queued := run.name in ws.queue;
      var late := now > MarkedAt(run, now) + (if queued then 3_600_000_000_000 else 10_000_000_000);
      var mark := Mark(run, if queued then RunQueued else RunUnqueued, now);
      && Reconciled(run, Some(ws), pod, now) == RunStatus(
           if late then PhaseFailed else if queued then PhaseQueued else PhaseWaiting,
           if late then mark + Failure(if queued then QueueTimeout else EnqueueTimeout, now) else mark,
           None)
      && (Errs(run, Some(ws), pod, now) <==> late)
    ensures !CreatesPod(run, Some(ws), pod) && !Crashes(run, Some(ws), pod)
  {
    UnfinishedShape(run, now);
    var reason := if run.name in ws.queue then RunQueued else RunUnqueued;
    SetMark(run, False, reason, now);
    MarkFound(run, reason, now);
    SetFailure(run, reason, if run.name in ws.queue then QueueTimeout else EnqueueTimeout, now);
    MarkPhase(run, reason, if run.name in ws.queue then QueueTimeout else EnqueueTimeout, now);
  }

  /** A run without a pod gets one. */
  lemma MakesPod(run: Run, ws: QueueStatus, now: int)
    requires Sound(run.status, now) && Unfinished(run) && MayStart(run, ws)
    ensures Reconciled(run, Some(ws), NotFound(true), now)
         == RunStatus(PhaseProvisioning, Mark(run, PodCreated, now), None)
    ensures CreatesPod(run, Some(ws), NotFound(true))
    ensures !Errs(run, Some(ws), NotFound(true), now) && !Crashes(run, Some(ws), NotFound(true))
  {
    UnfinishedShape(run, now);
    SetMark(run, False, PodCreated, now);
  }

  /** A final pod with an exit code completes the run, with that code and for that reason. */
  lemma SeesEnd(run: Run, ws: QueueStatus, phase: PodPhase, code: int, now: int)
    requires Sound(run.status, now) && Unfinished(run) && MayStart(run, ws)
    requires phase == Succeeded || phase == Failed
    ensures var pod := Found(phase, Code(code));
      && Reconciled(run, Some(ws), pod, now) == RunStatus(
           PhaseCompleted,
           [Condition(CompleteCondition, True, if phase == Succeeded then PodSucceeded else PodFailed, Stamp(now))],
           Some(code))
      && !Errs(run, Some(ws), pod, now) && !CreatesPod(run, Some(ws), pod) && !Crashes(run, Some(ws), pod)
  {
    UnfinishedShape(run, now);
    SetMark(run, True, ReasonFromPodPhase(phase), now);
  }

  /** A pod that is not final leaves the run incomplete; if pending for more than a minute after the mark,
      it fails the run. */
  lemma SeesProgress(run: Run, ws: QueueStatus, phase: PodPhase, exit: ExitRecord, now: int)
    requires Sound(run.status, now) && Unfinished(run) && MayStart(run, ws)
    requires phase == Pending || phase == Running || phase == Undetermined
    ensures var pod := Found(phase, exit);
      var late := phase == Pending && now > MarkedAt(run, now) + 60_000_000_000;
      var mark := Mark(run,
        match phase case Pending => PodPending case Running => PodRunning case _ => PodUnknown, now);
      && Reconciled(run, Some(ws), pod, now) == RunStatus(
           if late then PhaseFailed
           else match phase case Pending => PhaseProvisioning case Running => PhaseRunning case _ => PhaseUnknown,
           if late then mark + Failure(PodPendingTimeout, now) else mark,
           None)
      && !Errs(run, Some(ws), pod, now) && !CreatesPod(run, Some(ws), pod) && !Crashes(run, Some(ws), pod)
  {
    UnfinishedShape(run, now);
    FollowsProgress(run, phase, exit, now);
    MarkPhase(run, match phase case Pending => PodPending case Running => PodRunning case _ => PodUnknown,
              PodPendingTimeout, now);
  }

  lemma FollowsProgress(run: Run, phase: PodPhase, exit: ExitRecord, now: int)
    requires Sound(run.status, now) && Unfinished(run)
    requires phase == Pending || phase == Running || phase == Undetermined
    ensures var late := phase == Pending && now > MarkedAt(run, now) + 60_000_000_000;
      var mark := Mark(run,
        match phase case Pending => PodPending case Running => PodRunning case _ => PodUnknown, now);
      Follow(run.status, Found(phase, exit), now)
        == run.status.(conditions := if late then mark + Failure(PodPendingTimeout, now) else mark)
  {
    var reason := match phase case Pending => PodPending case Running => PodRunning case _ => PodUnknown;
    SetMark(run, False, reason, now);
    MarkFound(run, reason, now);
    SetFailure(run, reason, PodPendingTimeout, now);
  }

  /** Where nothing can be learnt of the pod the reconcile errs, and only the phase is brought up to date. */
  lemma LearnsNothing(run: Run, ws: QueueStatus, pod: PodRead, now: int)
    requires Sound(run.status, now) && Unfinished(run) && MayStart(run, ws)
    requires || pod == ReadError || pod == NotFound(false)
             || pod == Found(Succeeded, NoStatus) || pod == Found(Failed, NoStatus)
    ensures var r := Reconciled(run, Some(ws), pod, now); var cs := run.status.conditions;
      && r.conditions == cs && r.exitCode == None
      && r.phase == (
           if cs == [] then PhaseUnknown
           else match cs[0].reason
             case RunUnqueued => PhaseWaiting
             case RunQueued => PhaseQueued
             case PodCreated => PhaseProvisioning
             case PodPending => PhaseProvisioning
             case PodRunning => PhaseRunning
             case _ => PhaseUnknown)
      && Errs(run, Some(ws), pod, now) && !CreatesPod(run, Some(ws), pod) && !Crashes(run, Some(ws), pod)
  {
    UnfinishedShape(run, now);
  }

  /** A final pod whose runner has no record of its end crashes the reconcile before anything is written. */
  lemma CrashesUnrecorded(run: Run, ws: QueueStatus, phase: PodPhase, now: int)
    requires Sound(run.status, now) && Unfinished(run) && MayStart(run, ws)
    requires phase == Succeeded || phase == Failed
    ensures var pod := Found(phase, NoRecord);
      && Crashes(run, Some(ws), pod) && Reconciled(run, Some(ws), pod, now) == run.status
      && !Errs(run, Some(ws), pod, now) && !CreatesPod(run, Some(ws), pod)
  {
    UnfinishedShape(run, now);
  }

  /** A reconcile completes a run only on having seen the end of its pod. */
  lemma CompletesExact(run: Run, ws: Option<QueueStatus>, pod: PodRead, now: int)
    requires Sound(run.status, now) && Unfinished(run)
    ensures Is(Reconciled(run, ws, pod, now).conditions, CompleteCondition, True) <==>
      && ws.Some? && MayStart(run, ws.value)
      && pod.Found? && (pod.phase == Succeeded || pod.phase == Failed) && pod.exit.Code?
  {
    UnfinishedShape(run, now);
    if ws.None? {
      LosesWorkspace(run, pod, now);
    } else if !MayStart(run, ws.value) {
      WaitsItsTurn(run, ws.value, pod, now);
    } else {
      match pod
      case NotFound(created) =>
        if created { MakesPod(run, ws.value, now); } else { LearnsNothing(run, ws.value, pod, now); }
      case ReadError => LearnsNothing(run, ws.value, pod, now);
      case Found(phase, exit) => SeenCompletes(run, ws.value, phase, exit, now);
    }
  }

  lemma SeenCompletes(run: Run, ws: QueueStatus, phase: PodPhase, exit: ExitRecord, now: int)
    requires Sound(run.status, now) && Unfinished(run) && MayStart(run, ws)
    ensures Is(Reconciled(run, Some(ws), Found(phase, exit), now).conditions, CompleteCondition, True) <==>
      (phase == Succeeded || phase == Failed) && exit.Code?
  {
    UnfinishedShape(run, now);
    if phase != Succeeded && phase != Failed {
      SeesProgress(run, ws, phase, exit, now);
    } else {
      match exit
      case Code(code) => SeesEnd(run, ws, phase, code, now);
      case NoStatus => LearnsNothing(run, ws, Found(phase, exit), now);
      case NoRecord => CrashesUnrecorded(run, ws, phase, now);
    }
  }

  // ---- the verdict over a run's life --------------------------------------

  predicate HasCompleted(run: Run) {
    Is(run.status.conditions, CompleteCondition, True)
  }

  /** The status says how the pod ended. */
  ghost predicate Tells(st: RunStatus, pod: Pod) {
    && |st.conditions| == 1 && st.conditions[0].kind == CompleteCondition && st.conditions[0].truth == True
    && (st.conditions[0].reason == PodSucceeded <==> pod.phase == Succeeded)
    && (st.conditions[0].reason == PodFailed <==> pod.phase == Failed)
    && pod.phase.Terminated()
    && st.exitCode.Some? && pod.exit == Code(st.exitCode.value)
  }

  ghost predicate TellsIfCompleted(s: State, n: string) {
    n in s.runs && HasCompleted(s.runs[n]) ==> n in s.pods && Tells(s.runs[n].status, s.pods[n])
  }

  lemma CompletionTells(run: Run, ws: Option<QueueStatus>, pod: PodRead, now: int)
    requires Sound(run.status, now) && Unfinished(run)
    requires Is(Reconciled(run, ws, pod, now).conditions, CompleteCondition, True)
    ensures pod.Found? && pod.phase.Terminated() && Tells(Reconciled(run, ws, pod, now), Pod(pod.phase, pod.exit))
  {
    CompletesExact(run, ws, pod, now);
    SeesEnd(run, ws.value, pod.phase, pod.exit.code, now);
  }

  lemma ReconcileTells(s: State, name: string, read: WorkspaceRead, pod: PodRead, commit: bool, n: string)
    requires StatusesOk(s) && Enabled(s, ReconcileRun(name, read, pod, commit)) && TellsIfCompleted(s, n)
    ensures TellsIfCompleted(RunReconciled(s, name, read, pod, commit), n)
  {
    var run, view := s.runs[name], View(s, read);
    RunReconcileFrame(s, name, read, pod, commit);
    if Unfinished(run) {
      if Is(Reconciled(run, view, pod, s.now).conditions, CompleteCondition, True) {
        CompletionTells(run, view, pod, s.now);
      }
    } else {
      LeftAlone(run, view, pod, s.now);
    }
  }

  lemma TellsStep(s: State, s': State, n: string)
    requires StatusesOk(s) && Next(s, s') && TellsIfCompleted(s, n)
    ensures TellsIfCompleted(s', n)
  {
    var e :| Enabled(s, e) && s' == Apply(s, e);
    if e.ReconcileRun? {
      ReconcileTells(s, e.name, e.read, e.pod, e.commit, n);
    } else {
      EventFrame(s, e);
    }
  }

  /** In every reachable state a completed run has its pod, final, and says truly how it ended. */
  lemma {:induction false} VerdictIsThePods(t: seq<State>, i: nat, n: string)
    requires IsTrace(t) && i < |t|
    ensures TellsIfCompleted(t[i], n)
  {
    if i == 0 {
    } else {
      VerdictIsThePods(t, i - 1, n);
      TraceInv(t, i - 1);
      assert StepAt(t, i - 1);
      TellsStep(t[i - 1], t[i], n);
    }
  }
}
