// pkg/controllers/run_controller.go in its own form: methods that update a run's status in place and
// create its pod, each proved to do what the transition system assumes of a reconcile.
module RunController {
  import opened Common
  import opened Conditions
  import opened Commands
  import opened RunLifecycle
  import opened Cluster
  import Slices

  class RunObject {
    const name: string
    const command: string
    const workspace: string
    var phase: Phase
    var conditions: seq<Condition>
    var exitCode: Option<int>

    constructor (name: string, command: string, workspace: string)
      ensures Value() == Run(name, command, workspace, NEW_STATUS)
    {
      this.name, this.command, this.workspace := name, command, workspace;
      phase, conditions, exitCode := PhaseUnset, [], None;
    }

    function Value(): Run
      reads this
    {
      Run(name, command, workspace, RunStatus(phase, conditions, exitCode))
    }
  }

  /** The pods of the cluster; creating one that exists is refused. */
  class PodStore {
    var pods: map<string, Pod>

    constructor ()
      ensures pods == map[]
    {
      pods := map[];
    }

    method Create(name: string) returns (ok: bool)
      modifies this
      ensures ok <==> name !in old(pods)
      ensures pods == if ok then old(pods)[name := Pod(Pending, NoStatus)] else old(pods)
    {
      ok := name !in pods;
      if ok {
        pods := pods[name := Pod(Pending, NoStatus)];
      }
    }
  }

  /** What the client's cache answers when asked for the run's pod. */
  datatype Look = LookError | Missing | Seen(phase: PodPhase, exit: ExitRecord)

  function AsRead(look: Look, name: string, pods: map<string, Pod>): PodRead {
    match look
    case LookError => ReadError
    case Missing => NotFound(name !in pods)
    case Seen(phase, exit) => Found(phase, exit)
  }

  method ManageQueue(run: RunObject, ws: QueueStatus, now: int) returns (bail: bool, err: bool)
    modifies run
    ensures bail <==> !Proceeds(run.name, run.command, ws)
    ensures run.phase == old(run.phase) && run.exitCode == old(run.exitCode)
    ensures run.conditions == if bail then Wait(old(run.conditions), run.name, ws, now) else old(run.conditions)
    ensures err <==> bail && WaitedTooLong(old(run.conditions), run.name, ws, now)
  {
    var queueable := ScanQueueable(run.command);
    if !queueable || ws.active == run.name {
      return false, false;
    }
    var pos := Slices.StringIndex(ws.queue, run.name);
    var reason := if pos >= 0 then RunQueued else RunUnqueued;
    run.conditions := Set(run.conditions, CompleteCondition, False, reason, now);

    var complete := Find(run.conditions, CompleteCondition).value;
    if complete.reason == RunUnqueued && now > complete.since + ENQUEUE_TIMEOUT {
      run.conditions := Set(run.conditions, FailedCondition, True, EnqueueTimeout, now);
      return true, true;
    }
    if complete.reason == RunQueued && now > complete.since + QUEUE_TIMEOUT {
      run.conditions := Set(run.conditions, FailedCondition, True, QueueTimeout, now);
      return true, true;
    }
    return true, false;
  }

  method ManagePod(run: RunObject, store: PodStore, look: Look, now: int) returns (err: bool, crashed: bool)
    modifies run, store
    ensures err <==> PodUnusable(AsRead(look, run.name, old(store.pods)))
    ensures crashed <==> PodCrashes(AsRead(look, run.name, old(store.pods)))
    ensures run.phase == old(run.phase)
    ensures run.Value().status == Follow(old(run.Value().status), AsRead(look, run.name, old(store.pods)), now)
    ensures store.pods == if look.Missing? && run.name !in old(store.pods)
                          then old(store.pods)[run.name := Pod(Pending, NoStatus)] else old(store.pods)
  {
    if look.LookError? {
      return true, false;
    }
    if look.Missing? {
      var ok := store.Create(run.name);
      if !ok {
        return true, false;
      }
      run.conditions := Set(run.conditions, CompleteCondition, False, PodCreated, now);
      return false, false;
    }
    var completed := False;
    if look.phase == Succeeded || look.phase == Failed {
      if look.exit.NoStatus? {
        return true, false;
      }
      if look.exit.NoRecord? {
        return false, true;
      }
      run.exitCode := Some(look.exit.code);
      completed := True;
    }
    run.conditions := Set(run.conditions, CompleteCondition, completed, ReasonFromPodPhase(look.phase), now);

    var complete := Find(run.conditions, CompleteCondition).value;
    if complete.reason == PodPending && now > complete.since + POD_PENDING_TIMEOUT {
      run.conditions := Set(run.conditions, FailedCondition, True, PodPendingTimeout, now);
    }
    return false, false;
  }

  method Reconcile(run: RunObject, ws: Option<QueueStatus>, store: PodStore, look: Look,
      now: int) returns (err: bool, crashed: bool)
    modifies run, store
    ensures crashed <==> Crashes(old(run.Value()), ws, AsRead(look, run.name, old(store.pods)))
    ensures err <==> Errs(old(run.Value()), ws, AsRead(look, run.name, old(store.pods)), now)
    ensures run.Value() == old(run.Value()).(status :=
              Reconciled(old(run.Value()), ws, AsRead(look, run.name, old(store.pods)), now))
    ensures store.pods == if CreatesPod(old(run.Value()), ws, AsRead(look, run.name, old(store.pods)))
                          then old(store.pods)[run.name := Pod(Pending, NoStatus)] else old(store.pods)
  {
    if IsDone(run.conditions) {
      return false, false;
    }
    if ws.None? {
      run.conditions := Set(run.conditions, FailedCondition, True, WorkspaceNotFound, now);
      return false, false;
    }
    var bail;
    bail, err := ManageQueue(run, ws.value, now);
    crashed := false;
    if !bail {
      err, crashed := ManagePod(run, store, look, now);
      if crashed {
        return;
      }
    }
    run.phase := SetRunPhase(run.conditions);
  }
}
