// pkg/controllers/workspace_queue.go: the loop that recomputes a workspace's combined queue in place.
module WorkspaceQueue {
  import opened Common
  import opened Conditions
  import opened Commands
  import opened RunLifecycle
  import opened Approvals
  import opened CombinedQueue
  import Slices

  /** Whether a run belongs in the combined queue of the named workspace. */
  predicate Eligible(workspace: string, privileged: seq<string>, annotations: map<string, string>, run: Run) {
    && run.workspace == workspace
    && !run.Done()
    && IsQueueable(run.command)
    && (run.command in privileged ==> IsApproved(annotations, run.name))
  }

  /** The same, spelled out in the fields of the resources: what the source asks of a run, test by test. */
  ghost predicate Admissible(workspace: string, privileged: seq<string>, annotations: map<string, string>, run: Run) {
    && run.workspace == workspace
    && (forall c :: c in run.status.conditions ==> c.truth != True)
    && Command(run.command, true) in ALL
    && (run.command in privileged ==>
          Key(run.name) in annotations && annotations[Key(run.name)] == "approved")
  }

  lemma EligibleExact(workspace: string, privileged: seq<string>, annotations: map<string, string>, run: Run)
    ensures Eligible(workspace, privileged, annotations, run)
       <==> Admissible(workspace, privileged, annotations, run)
  {
  }

  function EligibleNames(workspace: string, privileged: seq<string>, annotations: map<string, string>,
      runs: seq<Run>): seq<string> {
    if runs == [] then []
    else
      var n := |runs| - 1;
      EligibleNames(workspace, privileged, annotations, runs[..n])
      + (if Eligible(workspace, privileged, annotations, runs[n]) then [runs[n].name] else [])
  }

  /** Some listed run of that name is eligible. */
  ghost predicate Listed(workspace: string, privileged: seq<string>, annotations: map<string, string>,
      runs: seq<Run>, x: string) {
    exists i :: 0 <= i < |runs| && runs[i].name == x && Eligible(workspace, privileged, annotations, runs[i])
  }

  lemma ListedSnoc(workspace: string, privileged: seq<string>, annotations: map<string, string>, before: seq<Run>,
      run: Run, x: string)
    ensures Listed(workspace, privileged, annotations, before + [run], x) <==>
      Listed(workspace, privileged, annotations, before, x)
      || (run.name == x && Eligible(workspace, privileged, annotations, run))
  {
    var all := before + [run];
    assert all[|before|] == run;
    assert forall i :: 0 <= i < |before| ==> all[i] == before[i];
  }

  lemma {:induction false} EligibleNamesExact(workspace: string, privileged: seq<string>, annotations: map<string,
      string>, runs: seq<Run>, x: string)
    ensures x in EligibleNames(workspace, privileged, annotations, runs)
       <==> Listed(workspace, privileged, annotations, runs, x)
  {
    if runs == [] {
    } else {
      var n := |runs| - 1;
      EligibleNamesExact(workspace, privileged, annotations, runs[..n], x);
      ListedSnoc(workspace, privileged, annotations, runs[..n], runs[n], x);
      assert runs == runs[..n] + [runs[n]];
    }
  }

  /** Some listed run of that name passes every test. */
  ghost predicate HasAdmissible(workspace: string, privileged: seq<string>, annotations: map<string, string>,
      runs: seq<Run>, x: string) {
    exists i :: 0 <= i < |runs| && runs[i].name == x && Admissible(workspace, privileged, annotations, runs[i])
  }

  lemma AdmissibleNames(
      workspace: string, privileged: seq<string>, annotations: map<string, string>, runs: seq<Run>)
    ensures forall x :: x in EligibleNames(workspace, privileged, annotations, runs)
                   <==> HasAdmissible(workspace, privileged, annotations, runs, x)
  {
    forall x
      ensures x in EligibleNames(workspace, privileged, annotations, runs)
         <==> HasAdmissible(workspace, privileged, annotations, runs, x)
    {
      EligibleNamesExact(workspace, privileged, annotations, runs, x);
      forall i | 0 <= i < |runs| { EligibleExact(workspace, privileged, annotations, runs[i]); }
    }
  }

  /** The names come in the order of the list. */
  lemma NamesInOrder(
      workspace: string, privileged: seq<string>, annotations: map<string, string>, runs: seq<Run>, i: nat, j: nat)
    requires i < j < |runs|
    requires Admissible(workspace, privileged, annotations, runs[i])
    requires Admissible(workspace, privileged, annotations, runs[j])
    ensures Ahead(EligibleNames(workspace, privileged, annotations, runs), runs[i].name, runs[j].name)
  {
    var front, back := runs[..j], runs[j..];
    EligibleExact(workspace, privileged, annotations, runs[i]);
    EligibleExact(workspace, privileged, annotations, runs[j]);
    assert front[i] == runs[i] && back[0] == runs[j] && runs == front + back;
    EligibleNamesExact(workspace, privileged, annotations, front, runs[i].name);
    EligibleNamesExact(workspace, privileged, annotations, back, runs[j].name);
    NamesConcat(workspace, privileged, annotations, front, back);
    AheadConcat(EligibleNames(workspace, privileged, annotations, front),
                EligibleNames(workspace, privileged, annotations, back), runs[i].name, runs[j].name);
  }

  lemma {:induction false} NamesConcat(
      workspace: string, privileged: seq<string>, annotations: map<string, string>, a: seq<Run>, b: seq<Run>)
    ensures EligibleNames(workspace, privileged, annotations, a + b)
         == EligibleNames(workspace, privileged, annotations, a) + EligibleNames(workspace, privileged, annotations, b)
  {
    if b == [] {
      assert a + b == a;
    } else {
      var n := |b| - 1;
      assert (a + b)[..|a + b| - 1] == a + b[..n] && (a + b)[|a + b| - 1] == b[n];
      NamesConcat(workspace, privileged, annotations, a, b[..n]);
    }
  }

  ghost predicate NamesDistinct(runs: seq<Run>) {
    forall i, j :: 0 <= i < j < |runs| ==> runs[i].name != runs[j].name
  }

  lemma {:induction false} EligibleDistinct(workspace: string, privileged: seq<string>, annotations: map<string,
      string>, runs: seq<Run>)
    requires NamesDistinct(runs)
    ensures Distinct(EligibleNames(workspace, privileged, annotations, runs))
  {
    if runs == [] {
    } else {
      var n := |runs| - 1;
      EligibleDistinct(workspace, privileged, annotations, runs[..n]);
      if Eligible(workspace, privileged, annotations, runs[n]) {
        EligibleNamesExact(workspace, privileged, annotations, runs[..n], runs[n].name);
        DistinctConcat(EligibleNames(workspace, privileged, annotations, runs[..n]), [runs[n].name]);
      }
    }
  }

  /** The combined queue a status stands for. */
  function Combined(s: QueueStatus): seq<string> {
    (if s.active == "" then [] else [s.active]) + s.queue
  }

  function Split(q: seq<string>): QueueStatus {
    if q == [] then QueueStatus("", []) else QueueStatus(q[0], q[1..])
  }

  /** Whatever was queued before, the new queue and active run are the named ones. */
  lemma SplitMembers(currQ: seq<string>, names: seq<string>)
    ensures var status := Split(NextQueue(FirstsOnly(currQ), names));
      forall x :: x != "" ==> (x == status.active || x in status.queue <==> x in names)
  {
    var q := NextQueue(FirstsOnly(currQ), names);
    assert forall x :: x in q <==> x in names;
    assert q != [] ==> q == [q[0]] + q[1..];
  }

  class Workspace {
    const name: string
    const privilegedCommands: seq<string>
    var annotations: map<string, string>
    var active: string
    var queue: seq<string>

    constructor (name: string, privilegedCommands: seq<string>)
      ensures this.name == name && this.privilegedCommands == privilegedCommands
      ensures annotations == map[] && active == "" && queue == []
    {
      this.name, this.privilegedCommands := name, privilegedCommands;
      annotations, active, queue := map[], "", [];
    }

    function Names(runs: seq<Run>): seq<string>
      reads this
    {
      EligibleNames(name, privilegedCommands, annotations, runs)
    }

    method UpdateCombinedQueue(runs: seq<Run>)
      requires NamesDistinct(runs)
      modifies this`active, this`queue
      ensures QueueStatus(active, queue) == Split(NextQueue(FirstsOnly([old(active)] + old(queue)), Names(runs)))
      ensures forall x :: x != "" ==>
        (x == active || x in queue <==> HasAdmissible(name, privilegedCommands, annotations, runs, x))
    {
      var newQ := Filter(runs);
      EligibleDistinct(name, privilegedCommands, annotations, runs);
      newQ := Reorder([active] + queue, newQ);
      if |newQ| > 0 {
        active, queue := newQ[0], newQ[1..];
      } else {
        active, queue := "", [];
      }
      SplitMembers([old(active)] + old(queue), Names(runs));
      AdmissibleNames(name, privilegedCommands, annotations, runs);
    }

    /** The first loop. */
    method Filter(runs: seq<Run>) returns (newQ: seq<string>)
      ensures newQ == Names(runs)
      ensures forall x :: x in newQ <==> HasAdmissible(name, privilegedCommands, annotations, runs, x)
    {
      newQ := [];
      for i := 0 to |runs|
        invariant newQ == Names(runs[..i])
      {
        assert runs[..i + 1][..i] == runs[..i];
        var run := runs[i];
        if run.workspace != name || run.Done() {
          continue;
        }
        var queueable := ScanQueueable(run.command);
        if !queueable {
          continue;
        }
        var privileged := Slices.ContainsString(privilegedCommands, run.command);
        if privileged && !IsApproved(annotations, run.name) {
          continue;
        }
        newQ := newQ + [run.name];
      }
      assert runs[..|runs|] == runs;
      AdmissibleNames(name, privilegedCommands, annotations, runs);
    }
  }

  /** The second loop, from the back of the current queue to its front. */
  method Reorder(currQ: seq<string>, names: seq<string>) returns (newQ: seq<string>)
    requires Distinct(names)
    ensures newQ == NextQueue(FirstsOnly(currQ), names)
  {
    newQ := names;
    NextQueueEmpty(names);
    var i := |currQ| - 1;
    while i >= 0
      invariant -1 <= i < |currQ|
      invariant Distinct(newQ)
      invariant newQ == NextQueue(FirstsOnly(currQ[i + 1..]), names)
    {
      MoveOne(currQ, i, names);
      var j := Slices.StringIndex(newQ, currQ[i]);
      if j == 0 {
        FrontStays(newQ);
      } else if j > 0 {
        RemoveAt(newQ, j);
        InsideDistinct(newQ, Elements(newQ) - {currQ[i]});
        newQ := newQ[..j] + newQ[j + 1..];
        newQ := [currQ[i]] + newQ;
      }
      i := i - 1;
    }
    assert currQ[0..] == currQ;
  }

  /** What the turn for `currQ[i]` has to do to the queue built so far. */
  lemma MoveOne(currQ: seq<string>, i: nat, names: seq<string>)
    requires i < |currQ|
    ensures var built := NextQueue(FirstsOnly(currQ[i + 1..]), names);
      && (currQ[i] in built ==> NextQueue(FirstsOnly(currQ[i..]), names) == [currQ[i]] + Remove(built, currQ[i]))
      && (currQ[i] !in built ==> NextQueue(FirstsOnly(currQ[i..]), names) == built)
  {
    var later := FirstsOnly(currQ[i + 1..]);
    assert currQ[i..][1..] == currQ[i + 1..];
    MoveToFront(currQ[i], later, names);
  }

  lemma NextQueueEmpty(names: seq<string>)
    ensures NextQueue([], names) == names
  {
    InsideAll(names, Elements(names) - Elements([]));
  }

  lemma FrontStays(q: seq<string>)
    requires Distinct(q) && q != []
    ensures [q[0]] + Remove(q, q[0]) == q
  {
    RemoveAt(q, 0);
    assert q[..0] + q[1..] == q[1..];
  }
}
