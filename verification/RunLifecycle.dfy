// pkg/controllers/run_controller.go: one reconcile of a run, as a value, and what it keeps.
module RunLifecycle {
  import opened Common
  import opened Conditions
  import opened Commands

  const ENQUEUE_TIMEOUT: int := 10 * SECOND
  const QUEUE_TIMEOUT: int := 60 * 60 * SECOND
  const POD_PENDING_TIMEOUT: int := 60 * SECOND

  datatype Phase =
    | PhaseUnset | PhaseUnknown | PhaseWaiting | PhaseQueued
    | PhaseProvisioning | PhaseRunning | PhaseCompleted | PhaseFailed

  datatype RunStatus = RunStatus(phase: Phase, conditions: seq<Condition>, exitCode: Option<int>)

  datatype Run = Run(name: string, command: string, workspace: string, status: RunStatus) {
    predicate Done() { IsDone(status.conditions) }
  }

  const NEW_STATUS: RunStatus := RunStatus(PhaseUnset, [], None)

  /** The part of a workspace's status that a run looks at. */
  datatype QueueStatus = QueueStatus(active: string, queue: seq<string>)

  datatype PodPhase = Pending | Running | Succeeded | Failed | Undetermined {
    predicate Terminated() { this == Succeeded || this == Failed }
  }

  /** What a pod reports of its runner: nothing, a status without a record of its end, or an exit code. */
  datatype ExitRecord = NoStatus | NoRecord | Code(code: int)

  /** What comes back from reading the run's pod: an error, nothing (in which case the pod is
      created, which may fail), or a pod with its phase and its runner's exit code, if reported. */
  datatype PodRead = ReadError | NotFound(created: bool) | Found(phase: PodPhase, exit: ExitRecord)

  function SetRunPhase(cs: seq<Condition>): Phase {
    if Is(cs, FailedCondition, True) then PhaseFailed
    else if Is(cs, CompleteCondition, True) then PhaseCompleted
    else if Is(cs, CompleteCondition, False) then
      match Find(cs, CompleteCondition).value.reason
      case RunUnqueued => PhaseWaiting
      case RunQueued => PhaseQueued
      case PodCreated => PhaseProvisioning
      case PodPending => PhaseProvisioning
      case PodRunning => PhaseRunning
      case _ => PhaseUnknown
    else PhaseUnknown
  }

  function ReasonFromPodPhase(phase: PodPhase): Reason {
    match phase
    case Succeeded => PodSucceeded
    case Failed => PodFailed
    case Running => PodRunning
    case Pending => PodPending
    case Undetermined => PodUnknown
  }

  /** Whether the run may go on to its pod. */
  predicate Proceeds(name: string, command: string, ws: QueueStatus) {
    !IsQueueable(command) || ws.active == name
  }

  /** The mark of a run that has to wait. */
  function Waiting(cs: seq<Condition>, name: string, ws: QueueStatus, now: int): seq<Condition> {
    Set(cs, CompleteCondition, False, if name in ws.queue then RunQueued else RunUnqueued, now)
  }

  function WaitLimit(name: string, ws: QueueStatus): int {
    if name in ws.queue then QUEUE_TIMEOUT else ENQUEUE_TIMEOUT
  }

  predicate WaitedTooLong(cs: seq<Condition>, name: string, ws: QueueStatus, now: int) {
    now > Find(Waiting(cs, name, ws, now), CompleteCondition).value.since + WaitLimit(name, ws)
  }

  /** Conditions of a run that has to wait for its turn. */
  function Wait(cs: seq<Condition>, name: string, ws: QueueStatus, now: int): seq<Condition> {
    var waiting := Waiting(cs, name, ws, now);
    if WaitedTooLong(cs, name, ws, now) then
      Set(waiting, FailedCondition, True, if name in ws.queue then QueueTimeout else EnqueueTimeout, now)
    else
      waiting
  }

  /** Nothing can be learnt of the pod: it cannot be read, cannot be created, or says nothing of its runner. */
  predicate PodUnusable(pod: PodRead) {
    match pod
    case ReadError => true
    case NotFound(created) => !created
    case Found(phase, exit) => phase.Terminated() && exit.NoStatus?
  }

  /** The exit code is looked for in a record that is not there. */
  predicate PodCrashes(pod: PodRead) {
    pod.Found? && pod.phase.Terminated() && pod.exit.NoRecord?
  }

  /** The mark of a run whose pod has been seen. */
  function Seen(cs: seq<Condition>, phase: PodPhase, now: int): seq<Condition> {
    Set(cs, CompleteCondition, if phase.Terminated() then True else False, ReasonFromPodPhase(phase), now)
  }

  /** Conditions and exit code after looking at, or creating, the pod. */
  function Follow(st: RunStatus, pod: PodRead, now: int): RunStatus {
    if PodUnusable(pod) || PodCrashes(pod) then st
    else
      match pod
      case NotFound(_) => st.(conditions := Set(st.conditions, CompleteCondition, False, PodCreated, now))
      case Found(phase, exit) =>
        var cs := Seen(st.conditions, phase, now);
        var late := phase == Pending && now > Find(cs, CompleteCondition).value.since + POD_PENDING_TIMEOUT;
        st.(conditions := if late then Set(cs, FailedCondition, True, PodPendingTimeout, now) else cs,
            exitCode := if phase.Terminated() then Some(exit.code) else st.exitCode)
      case ReadError => st
  }

  /** The reconcile crashes, before anything is written. */
  predicate Crashes(run: Run, ws: Option<QueueStatus>, pod: PodRead) {
    !run.Done() && ws.Some? && Proceeds(run.name, run.command, ws.value) && PodCrashes(pod)
  }

  /** The status one reconcile computes. `ws` is None when the workspace does not exist;
      that path leaves the phase as it was. */
  function Reconciled(run: Run, ws: Option<QueueStatus>, pod: PodRead, now: int): RunStatus {
    if run.Done() || Crashes(run, ws, pod) then run.status
    else if ws.None? then
      run.status.(conditions := Set(run.status.conditions, FailedCondition, True, WorkspaceNotFound, now))
    else
      var next := if Proceeds(run.name, run.command, ws.value) then Follow(run.status, pod, now)
                  else run.status.(conditions := Wait(run.status.conditions, run.name, ws.value, now));
      next.(phase := SetRunPhase(next.conditions))
  }

  /** The reconcile reports an error, and so is repeated. */
  predicate Errs(run: Run, ws: Option<QueueStatus>, pod: PodRead, now: int) {
    && !run.Done() && ws.Some?
    && if Proceeds(run.name, run.command, ws.value) then PodUnusable(pod)
       else WaitedTooLong(run.status.conditions, run.name, ws.value, now)
  }

  predicate CreatesPod(run: Run, ws: Option<QueueStatus>, pod: PodRead) {
    !run.Done() && ws.Some? && Proceeds(run.name, run.command, ws.value) && pod == NotFound(true)
  }

  // ---- the statuses a run can ever have -----------------------------------

  ghost predicate Incomplete(c: Condition, now: int) {
    && c.kind == CompleteCondition && c.truth == False && c.since == Stamp(c.since) <= now
    && c.reason in {PodCreated, PodPending, PodRunning, PodUnknown, RunQueued, RunUnqueued}
  }

  ghost predicate Completed(c: Condition) {
    c.kind == CompleteCondition && c.truth == True && c.reason in {PodSucceeded, PodFailed}
  }

  ghost predicate WorkspaceLost(c: Condition) {
    c.kind == FailedCondition && c.truth == True && c.reason == WorkspaceNotFound
  }

  /** A failure that follows an incomplete mark: each timeout has run out, counted from that mark. */
  ghost predicate FailedAfter(c: Condition, f: Condition) {
    && f.kind == FailedCondition && f.truth == True && f.since >= c.since
    && match f.reason
       case EnqueueTimeout => c.reason == RunUnqueued && f.since >= c.since + ENQUEUE_TIMEOUT
       case QueueTimeout => c.reason == RunQueued && f.since >= c.since + QUEUE_TIMEOUT
       case PodPendingTimeout => c.reason == PodPending && f.since >= c.since + POD_PENDING_TIMEOUT
       case WorkspaceNotFound => true
       case _ => false
  }

  ghost predicate Shape(cs: seq<Condition>, now: int) {
    || cs == []
    || (|cs| == 1 && (Incomplete(cs[0], now) || Completed(cs[0]) || WorkspaceLost(cs[0])))
    || (|cs| == 2 && Incomplete(cs[0], now) && FailedAfter(cs[0], cs[1]))
  }

  ghost predicate Sound(st: RunStatus, now: int) {
    && Shape(st.conditions, now)
    && (st.exitCode.Some? <==> Is(st.conditions, CompleteCondition, True))
    && (st.phase == PhaseCompleted ==> Is(st.conditions, CompleteCondition, True))
    && (st.phase == SetRunPhase(st.conditions) || st.phase == PhaseUnset
        || Find(st.conditions, FailedCondition).Some?)
  }

  /** Reading the shapes: the two final verdicts exclude each other, and done means one of them. */
  lemma ShapeFacts(cs: seq<Condition>, now: int)
    requires Shape(cs, now)
    ensures IsDone(cs) <==> Is(cs, CompleteCondition, True) || Is(cs, FailedCondition, True)
    ensures !(Is(cs, CompleteCondition, True) && Is(cs, FailedCondition, True))
    ensures Is(cs, CompleteCondition, True) ==> |cs| == 1 && Completed(cs[0])
    ensures !IsDone(cs) ==> cs == [] || (|cs| == 1 && Incomplete(cs[0], now))
  {
  }

  /** The library call appends a condition of a new kind behind the existing one. */
  lemma SetAppends(cs: seq<Condition>, reason: Reason, now: int)
    requires |cs| <= 1 && forall c :: c in cs ==> c.kind == CompleteCondition
    ensures Set(cs, FailedCondition, True, reason, now) == cs + [Condition(FailedCondition, True, reason, Stamp(now))]
  {
  }

  /** Failing an incomplete run for a timeout that has run out gives the last of the shapes. */
  lemma TimeoutShape(c: Condition, reason: Reason, now: int)
    requires Incomplete(c, now)
    requires match reason
             case EnqueueTimeout => c.reason == RunUnqueued && now > c.since + ENQUEUE_TIMEOUT
             case QueueTimeout => c.reason == RunQueued && now > c.since + QUEUE_TIMEOUT
             case PodPendingTimeout => c.reason == PodPending && now > c.since + POD_PENDING_TIMEOUT
             case _ => false
    ensures Shape(Set([c], FailedCondition, True, reason, now), now)
    ensures Is(Set([c], FailedCondition, True, reason, now), CompleteCondition, False)
  {
  }

  lemma WaitShape(cs: seq<Condition>, name: string, ws: QueueStatus, then_: int, now: int)
    requires Shape(cs, then_) && !IsDone(cs) && then_ <= now
    ensures Shape(Wait(cs, name, ws, now), now)
    ensures !Is(Wait(cs, name, ws, now), CompleteCondition, True)
  {
    ShapeFacts(cs, then_);
    var waiting := Waiting(cs, name, ws, now);
    StampFacts(now, if cs == [] then 0 else cs[0].since);
    assert waiting == [waiting[0]] && Incomplete(waiting[0], now);
    if WaitedTooLong(cs, name, ws, now) {
      TimeoutShape(waiting[0], if name in ws.queue then QueueTimeout else EnqueueTimeout, now);
    }
  }

  lemma SeenShape(cs: seq<Condition>, phase: PodPhase, then_: int, now: int)
    requires Shape(cs, then_) && !IsDone(cs) && then_ <= now
    ensures var seen := Seen(cs, phase, now);
      |seen| == 1 && if phase.Terminated() then Completed(seen[0]) else Incomplete(seen[0], now)
  {
  }

  lemma FollowShape(st: RunStatus, pod: PodRead, then_: int, now: int)
    requires Sound(st, then_) && !IsDone(st.conditions) && then_ <= now
    ensures Shape(Follow(st, pod, now).conditions, now)
    ensures Follow(st, pod, now).exitCode.Some? <==> Is(Follow(st, pod, now).conditions, CompleteCondition, True)
  {
    ShapeFacts(st.conditions, then_);
    StampFacts(now, now);
    if pod.Found? && !PodUnusable(pod) && !PodCrashes(pod) {
      SeenShape(st.conditions, pod.phase, then_, now);
      var seen := Seen(st.conditions, pod.phase, now);
      assert seen == [seen[0]];
      if pod.phase == Pending && now > seen[0].since + POD_PENDING_TIMEOUT {
        TimeoutShape(seen[0], PodPendingTimeout, now);
      }
    }
  }

  lemma LostShape(cs: seq<Condition>, then_: int, now: int)
    requires Shape(cs, then_) && !IsDone(cs) && then_ <= now
    ensures var lost := Set(cs, FailedCondition, True, WorkspaceNotFound, now);
      Shape(lost, now) && Is(lost, FailedCondition, True) && !Is(lost, CompleteCondition, True)
  {
  }

  /** The phase is in step whenever it is computed from the conditions. */
  lemma PhasedSound(cs: seq<Condition>, exitCode: Option<int>, now: int)
    requires Shape(cs, now) && (exitCode.Some? <==> Is(cs, CompleteCondition, True))
    ensures Sound(RunStatus(SetRunPhase(cs), cs, exitCode), now)
  {
  }

  lemma ReconciledSound(run: Run, ws: Option<QueueStatus>, pod: PodRead, then_: int, now: int)
    requires Sound(run.status, then_) && then_ <= now
    ensures Sound(Reconciled(run, ws, pod, now), now)
  {
    var cs := run.status.conditions;
    ShapeFacts(cs, then_);
    if run.Done() {
    } else if ws.None? {
      LostShape(cs, then_, now);
    } else if Proceeds(run.name, run.command, ws.value) {
      FollowShape(run.status, pod, then_, now);
      var next := Follow(run.status, pod, now);
      PhasedSound(next.conditions, next.exitCode, now);
    } else {
      WaitShape(cs, run.name, ws.value, then_, now);
      PhasedSound(Wait(cs, run.name, ws.value, now), run.status.exitCode, now);
    }
  }

  /** The clock starts once: the mark's time survives every later reconcile that keeps the run
      incomplete, whatever happens to its reason; and it is the time of the first marking. */
  lemma ClockFixed(run: Run, ws: Option<QueueStatus>, pod: PodRead, then_: int, now: int)
    requires Sound(run.status, then_) && then_ <= now
    requires Is(Reconciled(run, ws, pod, now).conditions, CompleteCondition, False)
    ensures Find(Reconciled(run, ws, pod, now).conditions, CompleteCondition).value.since
         == if Is(run.status.conditions, CompleteCondition, False)
            then Find(run.status.conditions, CompleteCondition).value.since
            else Stamp(now)
  {
    ReconciledSound(run, ws, pod, then_, now);
    ShapeFacts(run.status.conditions, then_);
  }

  /** Exactly when following a pod fails the run: the pod is seen pending more than the limit
      after the mark. How long the pod itself has existed plays no part. */
  lemma PendingFailure(run: Run, ws: QueueStatus, pod: PodRead, then_: int, now: int)
    requires Sound(run.status, then_) && then_ <= now && !run.Done()
    requires Proceeds(run.name, run.command, ws)
    ensures Is(Reconciled(run, Some(ws), pod, now).conditions, FailedCondition, True)
       <==> pod.Found? && pod.phase == Pending
            && Is(run.status.conditions, CompleteCondition, False)
            && now > Find(run.status.conditions, CompleteCondition).value.since + POD_PENDING_TIMEOUT
  {
  }

  /** The run was marked incomplete more than the limit ago. */
  predicate MarkedPast(cs: seq<Condition>, limit: int, now: int) {
    Is(cs, CompleteCondition, False) && now > Find(cs, CompleteCondition).value.since + limit
  }

  /** What makes a reconcile end with a done run: it was done, its workspace is gone, its pod has ended with
      an exit code or is still pending past the limit, or it has waited past the limit. */
  predicate Concludes(run: Run, ws: Option<QueueStatus>, pod: PodRead, now: int) {
    || run.Done() || ws.None?
    || if Proceeds(run.name, run.command, ws.value) then
         pod.Found? && (if pod.phase.Terminated() then pod.exit.Code?
                        else pod.phase == Pending && MarkedPast(run.status.conditions, POD_PENDING_TIMEOUT, now))
       else MarkedPast(run.status.conditions, WaitLimit(run.name, ws.value), now)
  }

  lemma FollowConcludes(st: RunStatus, pod: PodRead, now: int)
    requires Sound(st, now) && !IsDone(st.conditions)
    ensures IsDone(Follow(st, pod, now).conditions) <==>
      && pod.Found?
      && (if pod.phase.Terminated() then pod.exit.Code?
          else pod.phase == Pending && MarkedPast(st.conditions, POD_PENDING_TIMEOUT, now))
  {
    ShapeFacts(st.conditions, now);
    StampFacts(now, now);
    FollowShape(st, pod, now, now);
    ShapeFacts(Follow(st, pod, now).conditions, now);
  }

  lemma WaitConcludes(cs: seq<Condition>, name: string, ws: QueueStatus, now: int)
    requires Shape(cs, now) && !IsDone(cs)
    ensures IsDone(Wait(cs, name, ws, now)) <==> MarkedPast(cs, WaitLimit(name, ws), now)
  {
    ShapeFacts(cs, now);
    StampFacts(now, now);
    WaitShape(cs, name, ws, now, now);
    ShapeFacts(Wait(cs, name, ws, now), now);
  }

  /** Exactly when a reconcile ends with a done run. */
  lemma ConcludesExact(run: Run, ws: Option<QueueStatus>, pod: PodRead, now: int)
    requires Sound(run.status, now)
    ensures IsDone(Reconciled(run, ws, pod, now).conditions) <==> Concludes(run, ws, pod, now)
  {
    if run.Done() {
    } else if ws.None? {
      LostShape(run.status.conditions, now, now);
      ShapeFacts(Reconciled(run, ws, pod, now).conditions, now);
    } else if Proceeds(run.name, run.command, ws.value) {
      FollowConcludes(run.status, pod, now);
    } else {
      WaitConcludes(run.status.conditions, run.name, ws.value, now);
    }
  }
}
