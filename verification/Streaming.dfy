// When the logs of a run may be asked for: only when its pod exists.
module Streaming {
  import opened Common
  import opened Conditions
  import opened RunLifecycle
  import opened RunOutcomes
  import opened Cluster

  /** The scan that decides whether a run's logs can be streamed looks at reasons only. */
  method ScanStreamable(cs: seq<Condition>) returns (streamable: bool)
    ensures streamable <==> Streamable(cs)
  {
    for i := 0 to |cs|
      invariant !Streamable(cs[..i])
    {
      assert cs[..i + 1] == cs[..i] + [cs[i]];
      if cs[i].kind == CompleteCondition && FromStartedPod(cs[i].reason) {
        assert cs[i] in cs;
        return true;
      }
    }
    assert cs[..|cs|] == cs;
    return false;
  }

  predicate FromStartedPod(reason: Reason) {
    reason == PodRunning || reason == PodSucceeded || reason == PodFailed
  }

  predicate Streamable(cs: seq<Condition>) {
    exists c :: c in cs && c.kind == CompleteCondition && FromStartedPod(c.reason)
  }

  lemma StreamableShape(cs: seq<Condition>, now: int)
    requires Shape(cs, now)
    ensures Streamable(cs) <==> cs != [] && cs[0].kind == CompleteCondition && FromStartedPod(cs[0].reason)
  {
  }

  /** Only a look at a pod makes a run streamable. */
  lemma BecomesStreamable(run: Run, ws: Option<QueueStatus>, pod: PodRead, now: int)
    requires Sound(run.status, now)
    requires !Streamable(run.status.conditions) && Streamable(Reconciled(run, ws, pod, now).conditions)
    ensures pod.Found?
  {
    ShapeFacts(run.status.conditions, now);
    ReconciledSound(run, ws, pod, now, now);
    StreamableShape(run.status.conditions, now);
    StreamableShape(Reconciled(run, ws, pod, now).conditions, now);
  }

  /** After a look at the pod a run is streamable exactly if the pod runs or has ended. */
  lemma StreamableAfterLook(run: Run, ws: QueueStatus, phase: PodPhase, exit: ExitRecord, now: int)
    requires Sound(run.status, now) && Unfinished(run) && MayStart(run, ws)
    requires phase == Succeeded || phase == Failed ==> exit.Code?
    ensures Streamable(Reconciled(run, Some(ws), Found(phase, exit), now).conditions)
       <==> phase == Running || phase == Succeeded || phase == Failed
  {
    if phase == Succeeded || phase == Failed {
      SeesEnd(run, ws, phase, exit.code, now);
    } else {
      SeesProgress(run, ws, phase, exit, now);
    }
  }

  ghost predicate HasPodIfStreamable(s: State, n: string) {
    n in s.runs && Streamable(s.runs[n].status.conditions) ==> n in s.pods
  }

  lemma ReconcileStep(s: State, name: string, read: WorkspaceRead, pod: PodRead, commit: bool, n: string)
    requires StatusesOk(s) && Enabled(s, ReconcileRun(name, read, pod, commit)) && HasPodIfStreamable(s, n)
    ensures HasPodIfStreamable(RunReconciled(s, name, read, pod, commit), n)
  {
    var run, view := s.runs[name], View(s, read);
    RunReconcileFrame(s, name, read, pod, commit);
    if !Streamable(run.status.conditions) && Streamable(Reconciled(run, view, pod, s.now).conditions) {
      BecomesStreamable(run, view, pod, s.now);
    }
  }

  lemma StreamStep(s: State, s': State, n: string)
    requires StatusesOk(s) && Next(s, s') && HasPodIfStreamable(s, n)
    ensures HasPodIfStreamable(s', n)
  {
    var e :| Enabled(s, e) && s' == Apply(s, e);
    if e.ReconcileRun? {
      ReconcileStep(s, e.name, e.read, e.pod, e.commit, n);
    } else {
      EventFrame(s, e);
    }
  }

  lemma StatusesAt(t: seq<State>, i: nat)
    requires IsTrace(t) && i < |t|
    ensures StatusesOk(t[i])
  {
    TraceInv(t, i);
  }

  /** In every reachable state a streamable run has a pod, even after it has failed. */
  lemma {:induction false} StreamableHasPod(t: seq<State>, i: nat, n: string)
    requires IsTrace(t) && i < |t|
    ensures HasPodIfStreamable(t[i], n)
  {
    if i == 0 {
    } else {
      StreamableHasPod(t, i - 1, n);
      StatusesAt(t, i - 1);
      assert StepAt(t, i - 1);
      StreamStep(t[i - 1], t[i], n);
    }
  }
}
