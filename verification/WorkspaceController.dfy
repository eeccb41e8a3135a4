// pkg/controllers/workspace_controller.go, the part that concerns runs: prune approvals, then recompute
// the combined queue in place. Proved to be the reconcile of the transition system.
module WorkspaceController {
  import opened Common
  import opened RunLifecycle
  import opened Approvals
  import opened CombinedQueue
  import opened WorkspaceQueue
  import opened Cluster

  /** Seeding the loop with an absent active run, the empty name, makes no difference. */
  lemma AbsentActiveIgnored(status: QueueStatus, names: seq<string>)
    requires status == Split(Combined(status)) && Distinct(Combined(status))
    requires forall x :: x in Combined(status) || x in names ==> x != ""
    ensures NextQueue(FirstsOnly([status.active] + status.queue), names) == NextQueue(Combined(status), names)
  {
    if status.active == "" {
      assert status.queue == [];
      assert [""] + [] == [""];
      MoveToFront("", [], names);
    } else {
      FirstsOnlyDistinct(Combined(status));
    }
  }

  method ReconcileRuns(ws: Workspace, cache: map<string, Run>, list: seq<Run>) returns (crashed: bool)
    requires NamesDistinct(list)
    modifies ws
    ensures crashed <==> exists k :: k in old(ws.annotations) && Malformed(k)
    ensures crashed ==>
      && ws.annotations == old(ws.annotations)
      && QueueStatus(ws.active, ws.queue) == old(QueueStatus(ws.active, ws.queue))
    ensures !crashed ==>
      && ws.annotations == Pruned(old(ws.annotations), cache)
      && QueueStatus(ws.active, ws.queue)
           == Split(NextQueue(FirstsOnly([old(ws.active)] + old(ws.queue)), ws.Names(list)))
  {
    var pruned := PruneApprovals(ws.annotations, cache);
    if pruned.None? {
      return true;
    }
    ws.annotations := pruned.value;
    ws.UpdateCombinedQueue(list);
    return false;
  }

  function StateOf(ws: Workspace): WorkspaceState
    reads ws
  {
    WorkspaceState(ws.name, ws.privilegedCommands, ws.annotations, QueueStatus(ws.active, ws.queue))
  }

  /** In a state satisfying the invariant, the methods compute the transition system's next state. */
  method ReconcileIn(ghost s: State, ws: Workspace, cache: map<string, Run>, list: seq<Run>)
    requires Inv(s) && Enabled(s, ReconcileWorkspace(list, true)) && StateOf(ws) == s.ws && cache == s.cache
    modifies ws
    ensures StateOf(ws) == Apply(s, ReconcileWorkspace(list, true)).ws
  {
    ghost var p := WorkspaceReconciled(s, list, false);
    WorkspaceReconcilePreserves(s, list, false);
    var crashed := ReconcileRuns(ws, cache, list);
    forall x | x in ws.Names(list)
      ensures x != ""
    {
      ListEligible(p, list, x);
    }
    assert forall x :: x in Queue(p) ==> MemberOk(p, x);
    AbsentActiveIgnored(p.ws.status, ws.Names(list));
  }
}
