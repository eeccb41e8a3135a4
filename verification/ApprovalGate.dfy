// What a run needs before it may have its workspace: over every trace, in the plain terms of the resources.
module ApprovalGate {
  import opened Commands
  import opened RunLifecycle
  import opened Approvals
  import opened WorkspaceQueue
  import opened Cluster

  /** The workspace bears the approval of the run. */
  ghost predicate ApprovedIn(s: State, x: string) {
    Key(x) in s.ws.annotations && s.ws.annotations[Key(x)] == "approved"
  }

  ghost predicate ApprovedBy(t: seq<State>, i: nat, x: string) {
    exists j :: 0 <= j <= i && j < |t| && ApprovedIn(t[j], x)
  }

  ghost predicate Gated(s: State, run: Run) {
    run.command in s.ws.privileged
  }

  /** What the run is like when it becomes active. */
  lemma Activated(s: State, s': State, x: string)
    requires Inv(s) && Next(s, s') && x in s.runs && !WasActive(s, x) && WasActive(s', x)
    ensures s.runs[x].workspace == s.ws.name && Command(s.runs[x].command, true) in ALL
    ensures Gated(s, s.runs[x]) ==> ApprovedIn(s, x)
  {
    var e :| Enabled(s, e) && s' == Apply(s, e);
    if e.ReconcileWorkspace? {
      ActivatedBy(s, e.list, e.commit, x);
    } else {
      EventHistory(s, e);
    }
  }

  lemma ActivatedBy(s: State, list: seq<Run>, commit: bool, x: string)
    requires Inv(s) && Enabled(s, ReconcileWorkspace(list, commit)) && x in s.runs
    requires !WasActive(s, x) && WasActive(WorkspaceReconciled(s, list, commit), x)
    ensures s.runs[x].workspace == s.ws.name && Command(s.runs[x].command, true) in ALL
    ensures Gated(s, s.runs[x]) ==> ApprovedIn(s, x)
  {
    var p, s' := WorkspaceReconciled(s, list, false), WorkspaceReconciled(s, list, commit);
    WorkspaceReconcilePreserves(s, list, false);
    var i :| 0 <= i < |s'.history| && s'.history[i].active == x;
    var status := Requeue(p.ws, list);
    assert s'.history == s.history + (if commit then [status] else []);
    assert commit && status.active == x;
    RequeueFacts(p, list);
    assert x in Combined(status) && Belongs(p, p.cache[x]);
    EligibleExact(p.ws.name, p.ws.privileged, p.ws.annotations, p.cache[x]);
  }

  /** A run that has ever been active, or has a pod although it contends, is one of the workspace's queueable
      runs, and if its command is privileged the workspace bore its approval by then. */
  lemma {:induction false} ActiveWasApproved(t: seq<State>, i: nat, x: string)
    requires IsTrace(t) && i < |t| && x in t[i].runs && WasActive(t[i], x)
    ensures t[i].runs[x].workspace == t[i].ws.name && Command(t[i].runs[x].command, true) in ALL
    ensures Gated(t[i], t[i].runs[x]) ==> ApprovedBy(t, i, x)
    decreases i
  {
    if i > 0 {
      TraceInv(t, i - 1);
      assert StepAt(t, i - 1);
      var e :| Enabled(t[i - 1], e) && t[i] == Apply(t[i - 1], e);
      RunBefore(t[i - 1], e, x);
      HistoryStep(t[i - 1], t[i]);
      if WasActive(t[i - 1], x) {
        ActiveWasApproved(t, i - 1, x);
      } else {
        Activated(t[i - 1], t[i], x);
      }
    }
  }

  lemma NeverActive(s: State, x: string)
    requires HistoryOk(s) && x !in s.used && x != ""
    ensures !WasActive(s, x)
  {
  }

  /** A step cannot make a run that has been active, and changes neither command nor workspace of any. */
  lemma RunBefore(s: State, e: Event, x: string)
    requires HistoryOk(s) && Enabled(s, e) && x in Apply(s, e).runs && WasActive(Apply(s, e), x)
    ensures x in s.runs && x in Apply(s, e).runs
    ensures s.runs[x].command == Apply(s, e).runs[x].command && s.runs[x].workspace == Apply(s, e).runs[x].workspace
  {
    match e
    case ReconcileRun(name, read, pod, commit) => RunReconcileFrame(s, name, read, pod, commit);
    case CreateRun(name, command, workspace) =>
      NeverActive(s, name);
    case _ =>
  }

  /** The same of a run that is active now, or that contends and has a pod. */
  lemma PodWasApproved(t: seq<State>, i: nat, x: string)
    requires IsTrace(t) && i < |t| && x in t[i].runs
    requires t[i].runs[x].workspace == t[i].ws.name && Command(t[i].runs[x].command, true) in ALL
    requires Gated(t[i], t[i].runs[x]) && (x in t[i].pods || t[i].ws.status.active == x)
    ensures ApprovedBy(t, i, x)
  {
    TraceInv(t, i);
    assert t[i].history[|t[i].history| - 1].active == t[i].ws.status.active;
    ActiveWasApproved(t, i, x);
  }
}
