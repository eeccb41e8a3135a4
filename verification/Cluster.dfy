// Two reconcilers around one workspace, as a transition system. The workspace reconciler lists runs
// from a cache that lags behind the cluster; the run reconciler reads any status the workspace ever had.
// Runs of other workspaces are present too and read a workspace this system knows nothing about.
module Cluster {
  import opened Common
  import opened Commands
  import opened RunLifecycle
  import opened Approvals
  import opened CombinedQueue
  import opened WorkspaceQueue

  datatype Pod = Pod(phase: PodPhase, exit: ExitRecord)

  datatype WorkspaceState = WorkspaceState(
    name: string, privileged: seq<string>, annotations: map<string, string>, status: QueueStatus)

  datatype State = State(
    now: int,
    ws: WorkspaceState,
    alive: bool,               // the workspace exists; once deleted it is not created again
    runs: map<string, Run>,
    used: set<string>,         // every run name ever created
    cache: map<string, Run>,   // what the workspace reconciler's informer last saw of the runs
    pods: map<string, Pod>,    // a run's pod bears its name and goes with it
    history: seq<QueueStatus>, // every committed status, oldest first
    cursor: nat,               // the status the run reconciler read last
    seen: bool                 // it has read the workspace at all
  )

  datatype WorkspaceRead = Gone | Snapshot(i: nat) | Foreign(status: Option<QueueStatus>)

  datatype Event =
    | CreateRun(name: string, command: string, workspace: string)
    | DeleteRun(name: string)
    | Annotate(key: string, value: string)
    | DeleteWorkspace
    | SyncRun(name: string)
    | ReconcileWorkspace(list: seq<Run>, commit: bool)
    | ReconcileRun(name: string, read: WorkspaceRead, pod: PodRead, commit: bool)
    | ChangePod(name: string, changed: Pod)
    | Tick(time: int)

  ghost predicate Init(s: State) {
    && s.alive && s.ws.status == QueueStatus("", []) && s.ws.annotations == map[]
    && s.runs == map[] && s.used == {} && s.cache == map[] && s.pods == map[]
    && s.history == [s.ws.status] && s.cursor == 0 && !s.seen
  }

  /** The list holds each cached run once, in any order. */
  ghost predicate Lists(list: seq<Run>, cache: map<string, Run>) {
    && NamesDistinct(list)
    && (forall r :: r in list ==> r.name in cache && cache[r.name] == r)
    && (forall n :: n in cache ==> cache[n] in list)
  }

  /** Any earlier version of the workspace may be read, also that it was not there yet. */
  ghost predicate Readable(s: State, run: Run, read: WorkspaceRead) {
    match read
    case Gone => run.workspace == s.ws.name
    case Snapshot(i) => run.workspace == s.ws.name && i < |s.history|
    case Foreign(_) => run.workspace != s.ws.name
  }

  function View(s: State, read: WorkspaceRead): Option<QueueStatus>
    requires read.Snapshot? ==> read.i < |s.history|
  {
    match read
    case Gone => None
    case Snapshot(i) => Some(s.history[i])
    case Foreign(status) => status
  }

  /** A pod read may lag: it misses a pod, or shows an earlier phase, but a final phase is final. */
  ghost predicate PodReadable(s: State, name: string, pod: PodRead) {
    match pod
    case ReadError => true
    case NotFound(created) => created ==> name !in s.pods
    case Found(phase, exit) =>
      name in s.pods && (phase.Terminated() ==> s.pods[name] == Pod(phase, exit))
  }

  ghost predicate Enabled(s: State, e: Event) {
    match e
    case CreateRun(name, _, _) => name != "" && '/' !in name && name !in s.used
    case DeleteRun(name) => name in s.runs
    case Annotate(key, value) =>
      s.alive && (key in s.ws.annotations && s.ws.annotations[key] == "approved" ==> value == "approved")
    case DeleteWorkspace => s.alive
    case SyncRun(_) => true
    case ReconcileWorkspace(list, _) =>
      s.alive && Lists(list, s.cache) && !exists k :: k in s.ws.annotations && Malformed(k)
    case ReconcileRun(name, read, pod, _) =>
      name in s.runs && Readable(s, s.runs[name], read) && PodReadable(s, name, pod)
    case ChangePod(name, _) => name in s.pods && !s.pods[name].phase.Terminated()
    case Tick(time) => s.now <= time
  }

  function Requeue(ws: WorkspaceState, list: seq<Run>): QueueStatus {
    Split(NextQueue(Combined(ws.status), EligibleNames(ws.name, ws.privileged, ws.annotations, list)))
  }

  /** Approvals are pruned and written first; the queue is computed with what is left, and its
      write may fail. */
  function WorkspaceReconciled(s: State, list: seq<Run>, commit: bool): State {
    var pruned := s.ws.(annotations := Pruned(s.ws.annotations, s.cache));
    if commit then
      var status := Requeue(pruned, list);
      s.(ws := pruned.(status := status), history := s.history + [status])
    else s.(ws := pruned)
  }

  /** The pod is created before the status is written, and the write may fail. */
  function RunReconciled(s: State, name: string, read: WorkspaceRead, pod: PodRead, commit: bool): State
    requires name in s.runs
    requires read.Snapshot? ==> read.i < |s.history|
  {
    var run, view := s.runs[name], View(s, read);
    s.(runs := if commit then s.runs[name := run.(status := Reconciled(run, view, pod, s.now))] else s.runs,
       pods := if CreatesPod(run, view, pod) then s.pods[name := Pod(Pending, NoStatus)] else s.pods,
       cursor := if read.Snapshot? then read.i else s.cursor,
       seen := s.seen || read.Snapshot?)
  }

  ghost function Apply(s: State, e: Event): State
    requires Enabled(s, e)
  {
    match e
    case CreateRun(name, command, workspace) =>
      s.(runs := s.runs[name := Run(name, command, workspace, NEW_STATUS)], used := s.used + {name})
    case DeleteRun(name) => s.(runs := s.runs - {name}, pods := s.pods - {name})
    case Annotate(key, value) => s.(ws := s.ws.(annotations := s.ws.annotations[key := value]))
    case DeleteWorkspace => s.(alive := false)
    case SyncRun(name) =>
      s.(cache := if name in s.runs then s.cache[name := s.runs[name]] else s.cache - {name})
    case ReconcileWorkspace(list, commit) => WorkspaceReconciled(s, list, commit)
    case ReconcileRun(name, read, pod, commit) => RunReconciled(s, name, read, pod, commit)
    case ChangePod(name, changed) => s.(pods := s.pods[name := changed])
    case Tick(time) => s.(now := time)
  }

  ghost predicate Next(s: State, s': State) {
    exists e :: Enabled(s, e) && s' == Apply(s, e)
  }

  ghost predicate StepAt(t: seq<State>, i: nat)
    requires i + 1 < |t|
  {
    Next(t[i], t[i + 1])
  }

  ghost predicate IsTrace(t: seq<State>) {
    && t != [] && Init(t[0])
    && forall i: nat :: i + 1 < |t| ==> StepAt(t, i)
  }

  // ---- what a step leaves alone -------------------------------------------

  /** A reconcile of a run can write that run's status, unless it is done, and add its pod. */
  lemma RunReconcileFrame(s: State, name: string, read: WorkspaceRead, pod: PodRead, commit: bool)
    requires Enabled(s, ReconcileRun(name, read, pod, commit))
    ensures var s' := RunReconciled(s, name, read, pod, commit);
      && s' == s.(runs := s'.runs, pods := s'.pods, cursor := s'.cursor, seen := s'.seen)
      && s'.runs.Keys == s.runs.Keys
      && (forall p :: p in s.pods ==> p in s'.pods && s'.pods[p] == s.pods[p])
      && (forall p :: p in s'.pods && p !in s.pods ==>
           p == name && CreatesPod(s.runs[name], View(s, read), pod))
      && forall n :: n in s.runs && s'.runs[n] != s.runs[n] ==>
           && n == name && !s.runs[n].Done()
           && s'.runs[n] == s.runs[n].(status := Reconciled(s.runs[n], View(s, read), pod, s.now))
  {
  }

  /** No other step writes the status of a run, makes a pod, or takes the pod of a run that stays. */
  lemma EventFrame(s: State, e: Event)
    requires Enabled(s, e) && !e.ReconcileRun?
    ensures var s' := Apply(s, e);
      && (forall n :: n in s'.runs ==>
           (n in s.runs && s'.runs[n] == s.runs[n]) || (n !in s.used && s'.runs[n].status == NEW_STATUS))
      && (forall p :: p in s'.pods ==> p in s.pods && (s.pods[p].phase.Terminated() ==> s'.pods[p] == s.pods[p]))
      && forall p :: p in s.pods && p in s'.runs ==> p in s'.pods
  {
  }

  // ---- invariant ----------------------------------------------------------

  ghost predicate NamesIn(runs: map<string, Run>, used: set<string>) {
    forall n :: n in runs ==> n in used && n != "" && '/' !in n && runs[n].name == n
  }

  ghost predicate NamesOk(s: State) {
    NamesIn(s.runs, s.used) && NamesIn(s.cache, s.used)
  }

  ghost predicate SoundIn(runs: map<string, Run>, now: int) {
    forall n :: n in runs ==> Sound(runs[n].status, now)
  }

  ghost predicate StatusesOk(s: State) {
    SoundIn(s.runs, s.now) && SoundIn(s.cache, s.now)
  }

  /** A cached run is an earlier version of the run: same spec, and done only if it is done. */
  ghost predicate Mirrors(cache: map<string, Run>, runs: map<string, Run>) {
    forall n :: n in cache && n in runs ==>
      && cache[n].command == runs[n].command
      && cache[n].workspace == runs[n].workspace
      && (cache[n].Done() ==> runs[n].Done())
  }

  ghost predicate CacheOk(s: State) {
    Mirrors(s.cache, s.runs)
  }

  ghost predicate Member(ws: WorkspaceState, used: set<string>, runs: map<string, Run>, cache: map<string, Run>,
      x: string) {
    && x != "" && x in used
    && (x in runs ==> x in cache)
    && (x in cache && !cache[x].Done() ==> Eligible(ws.name, ws.privileged, ws.annotations, cache[x]))
  }

  ghost predicate Belongs(s: State, run: Run) {
    Eligible(s.ws.name, s.ws.privileged, s.ws.annotations, run)
  }

  ghost predicate MemberOk(s: State, x: string) {
    Member(s.ws, s.used, s.runs, s.cache, x)
  }

  ghost function Queue(s: State): seq<string> {
    Combined(s.ws.status)
  }

  ghost predicate Queued(ws: WorkspaceState, used: set<string>, runs: map<string, Run>, cache: map<string, Run>) {
    var q := Combined(ws.status);
    && ws.status == Split(q) && Distinct(q)
    && forall x :: x in q ==> Member(ws, used, runs, cache, x)
  }

  ghost predicate QueueOk(s: State) {
    Queued(s.ws, s.used, s.runs, s.cache)
  }

  /** A run that has been active is still active unless it is done or gone. */
  ghost predicate HeldBy(runs: map<string, Run>, active: string, x: string) {
    x in runs && !runs[x].Done() ==> active == x
  }

  ghost predicate Held(s: State, x: string) {
    HeldBy(s.runs, s.ws.status.active, x)
  }

  ghost predicate Honoured(history: seq<QueueStatus>, used: set<string>, runs: map<string, Run>, active: string) {
    forall i :: 0 <= i < |history| && history[i].active != "" ==>
      history[i].active in used && HeldBy(runs, active, history[i].active)
  }

  ghost predicate HistoryOk(s: State) {
    && s.history != [] && s.cursor < |s.history|
    && s.history[|s.history| - 1] == s.ws.status
    && Honoured(s.history, s.used, s.runs, s.ws.status.active)
  }

  ghost predicate ActiveIn(history: seq<QueueStatus>, x: string) {
    exists i :: 0 <= i < |history| && history[i].active == x
  }

  ghost predicate WasActive(s: State, x: string) {
    ActiveIn(s.history, x)
  }

  /** The run competes for the workspace. */
  ghost predicate Contends(s: State, run: Run) {
    run.workspace == s.ws.name && IsQueueable(run.command)
  }

  ghost predicate Owned(pods: map<string, Pod>, runs: map<string, Run>, name: string, history: seq<QueueStatus>) {
    forall p :: p in pods ==>
      p in runs && (runs[p].workspace == name && IsQueueable(runs[p].command) ==> ActiveIn(history, p))
  }

  ghost predicate PodsOk(s: State) {
    Owned(s.pods, s.runs, s.ws.name, s.history)
  }

  ghost predicate Inv(s: State) {
    NamesOk(s) && StatusesOk(s) && CacheOk(s) && QueueOk(s) && HistoryOk(s) && PodsOk(s)
  }

  // ---- preservation, one event at a time ----------------------------------

  lemma CreatePreserves(s: State, name: string, command: string, workspace: string)
    requires Inv(s) && Enabled(s, CreateRun(name, command, workspace))
    ensures Inv(Apply(s, CreateRun(name, command, workspace)))
  {
  }

  lemma DeletePreserves(s: State, name: string)
    requires Inv(s) && Enabled(s, DeleteRun(name))
    ensures Inv(Apply(s, DeleteRun(name)))
  {
  }

  lemma AnnotatePreserves(s: State, key: string, value: string)
    requires Inv(s) && Enabled(s, Annotate(key, value))
    ensures Inv(Apply(s, Annotate(key, value)))
  {
  }

  /** A member stays one when the cache catches up with a run. */
  lemma SyncMember(s: State, name: string, x: string)
    requires NamesOk(s) && CacheOk(s) && MemberOk(s, x)
    ensures Member(s.ws, s.used, s.runs, Apply(s, SyncRun(name)).cache, x)
  {
  }

  lemma SyncCache(runs: map<string, Run>, cache: map<string, Run>, used: set<string>, now: int, name: string)
    requires NamesIn(runs, used) && NamesIn(cache, used)
    requires SoundIn(runs, now) && SoundIn(cache, now) && Mirrors(cache, runs)
    ensures var synced := if name in runs then cache[name := runs[name]] else cache - {name};
      NamesIn(synced, used) && SoundIn(synced, now) && Mirrors(synced, runs)
  {
  }

  lemma SyncPreserves(s: State, name: string)
    requires Inv(s)
    ensures Inv(Apply(s, SyncRun(name)))
  {
    var s' := Apply(s, SyncRun(name));
    SyncCache(s.runs, s.cache, s.used, s.now, name);
    assert Queued(s.ws, s.used, s.runs, s'.cache) by {
      forall x | x in Queue(s)
        ensures Member(s.ws, s.used, s.runs, s'.cache, x)
      {
        SyncMember(s, name, x);
      }
    }
  }

  lemma DeleteWorkspacePreserves(s: State)
    requires Inv(s)
    ensures Inv(s.(alive := false))
  {
  }

  /** Pods are looked at by one part of the invariant only. */
  lemma SameButPods(w: State, s: State)
    requires s == w.(pods := s.pods, cursor := s.cursor, seen := s.seen) && s.cursor < |s.history| && PodsOk(s)
    requires NamesOk(w) && StatusesOk(w) && CacheOk(w) && QueueOk(w) && HistoryOk(w)
    ensures Inv(s)
  {
  }

  lemma OwnedStill(s: State, name: string, changed: Pod)
    requires PodsOk(s) && name in s.pods
    ensures PodsOk(s.(pods := s.pods[name := changed]))
  {
  }

  lemma PodPreserves(s: State, name: string, changed: Pod)
    requires Inv(s) && name in s.pods
    ensures Inv(s.(pods := s.pods[name := changed]))
  {
    OwnedStill(s, name, changed);
    SameButPods(s, s.(pods := s.pods[name := changed]));
  }

  lemma TickPreserves(s: State, time: int)
    requires Inv(s) && Enabled(s, Tick(time))
    ensures Inv(Apply(s, Tick(time)))
  {
  }

  /** Writing a sound status to a run that is not done disturbs nothing else. */
  lemma StatusWritePreserves(s: State, name: string, status: RunStatus)
    requires Inv(s) && name in s.runs && Sound(status, s.now)
    requires s.runs[name].Done() ==> status == s.runs[name].status
    ensures Inv(s.(runs := s.runs[name := s.runs[name].(status := status)]))
  {
    var runs := s.runs[name := s.runs[name].(status := status)];
    StatusWriteSound(s, name, status);
    assert forall n :: n in s.runs && s.runs[n].Done() ==> runs[n].Done();
    RunsFrame(s, runs);
  }

  /** Replacing the runs by later versions of themselves keeps what the queue, the history and the
      pods rely on. */
  lemma RunsFrame(s: State, runs: map<string, Run>)
    requires Inv(s) && runs.Keys == s.runs.Keys
    requires forall n :: n in runs ==> runs[n] == s.runs[n].(status := runs[n].status)
    requires forall n :: n in runs && s.runs[n].Done() ==> runs[n].Done()
    ensures var s' := s.(runs := runs); NamesOk(s') && QueueOk(s') && HistoryOk(s') && PodsOk(s')
  {
  }

  lemma StatusWriteSound(s: State, name: string, status: RunStatus)
    requires StatusesOk(s) && CacheOk(s) && name in s.runs && Sound(status, s.now)
    requires s.runs[name].Done() ==> status == s.runs[name].status
    ensures StatusesOk(s.(runs := s.runs[name := s.runs[name].(status := status)]))
    ensures CacheOk(s.(runs := s.runs[name := s.runs[name].(status := status)]))
  {
  }

  lemma RunReconcilePreserves(s: State, name: string, read: WorkspaceRead, pod: PodRead, commit: bool)
    requires Inv(s) && Enabled(s, ReconcileRun(name, read, pod, commit))
    ensures Inv(RunReconciled(s, name, read, pod, commit))
  {
    var status := Reconciled(s.runs[name], View(s, read), pod, s.now);
    ReconciledSound(s.runs[name], View(s, read), pod, s.now, s.now);
    var written := if commit then s.(runs := s.runs[name := s.runs[name].(status := status)]) else s;
    assert Inv(written) by {
      StatusWritePreserves(s, name, status);
    }
    PodAndCursor(s, written, name, read, pod, commit);
  }

  /** Creating the run's pod and moving the cursor keep the invariant of the written state. */
  lemma PodAndCursor(s: State, written: State, name: string, read: WorkspaceRead, pod: PodRead, commit: bool)
    requires Inv(s) && Inv(written) && Enabled(s, ReconcileRun(name, read, pod, commit))
    requires written == s.(runs := RunReconciled(s, name, read, pod, commit).runs)
    ensures Inv(RunReconciled(s, name, read, pod, commit))
  {
    var s' := RunReconciled(s, name, read, pod, commit);
    RunReconcilePods(s, name, read, pod, commit);
    assert s' == written.(pods := s'.pods, cursor := s'.cursor, seen := s'.seen);
  }

  lemma RunReconcilePods(s: State, name: string, read: WorkspaceRead, pod: PodRead, commit: bool)
    requires NamesOk(s) && PodsOk(s) && Enabled(s, ReconcileRun(name, read, pod, commit))
    ensures PodsOk(RunReconciled(s, name, read, pod, commit))
  {
  }

  /** Pruning with a lagging view of the runs never takes an approval that a queued run needs. */
  lemma PruneKeepsMembers(s: State, x: string)
    requires NamesOk(s) && StatusesOk(s) && MemberOk(s, x)
    ensures Member(s.ws.(annotations := Pruned(s.ws.annotations, s.cache)), s.used, s.runs, s.cache, x)
  {
    if x in s.cache && !s.cache[x].Done() {
      ShapeFacts(s.cache[x].status.conditions, s.now);
      PruningSpares(s.ws.annotations, s.cache, x);
    }
  }

  /** What the list makes eligible, in terms of the cache. */
  lemma ListEligible(s: State, list: seq<Run>, x: string)
    requires NamesOk(s) && Lists(list, s.cache)
    ensures x in EligibleNames(s.ws.name, s.ws.privileged, s.ws.annotations, list)
       <==> x in s.cache && Belongs(s, s.cache[x])
  {
    EligibleNamesExact(s.ws.name, s.ws.privileged, s.ws.annotations, list, x);
    if x in s.cache {
      var i :| 0 <= i < |list| && list[i] == s.cache[x];
      assert list[i].name == x;
    }
    forall i | 0 <= i < |list| && list[i].name == x
      ensures x in s.cache && list[i] == s.cache[x]
    {
      assert list[i] in list;
    }
  }

  lemma CombinedSplit(q: seq<string>)
    requires forall x :: x in q ==> x != ""
    ensures Combined(Split(q)) == q
  {
    if q != [] {
      assert q[0] in q;
    }
  }

  /** The queue after a recomputation, given the pruned state it starts from. */
  lemma RequeueFacts(s: State, list: seq<Run>)
    requires NamesOk(s) && QueueOk(s) && Lists(list, s.cache)
    ensures var eligible := EligibleNames(s.ws.name, s.ws.privileged, s.ws.annotations, list);
            var q := NextQueue(Queue(s), eligible);
            && Distinct(q) && Requeue(s.ws, list) == Split(q) && Combined(Requeue(s.ws, list)) == q
            && forall x :: x in q <==> x in s.cache && Belongs(s, s.cache[x])
  {
    var eligible := EligibleNames(s.ws.name, s.ws.privileged, s.ws.annotations, list);
    var q := NextQueue(Queue(s), eligible);
    EligibleDistinct(s.ws.name, s.ws.privileged, s.ws.annotations, list);
    NextQueueDistinct(Queue(s), eligible);
    forall x
      ensures x in q <==> x in s.cache && Belongs(s, s.cache[x])
    {
      ListEligible(s, list, x);
    }
    CombinedSplit(q);
  }

  /** No preemption: recomputing the queue leaves an active run active unless it is done or gone. */
  lemma ActiveStays(s: State, list: seq<Run>)
    requires NamesOk(s) && QueueOk(s) && CacheOk(s) && Lists(list, s.cache)
    requires s.ws.status.active in s.runs && !s.runs[s.ws.status.active].Done()
    ensures Requeue(s.ws, list).active == s.ws.status.active
  {
    var a := s.ws.status.active;
    RequeueFacts(s, list);
    assert Queue(s)[0] == a && MemberOk(s, a);
    assert a in s.cache && Belongs(s, s.cache[a]);
    HeadStays(Queue(s), EligibleNames(s.ws.name, s.ws.privileged, s.ws.annotations, list));
  }

  lemma PrunedQueued(s: State)
    requires Inv(s)
    ensures Queued(s.ws.(annotations := Pruned(s.ws.annotations, s.cache)), s.used, s.runs, s.cache)
  {
    var ws := s.ws.(annotations := Pruned(s.ws.annotations, s.cache));
    forall x | x in Combined(ws.status)
      ensures Member(ws, s.used, s.runs, s.cache, x)
    {
      PruneKeepsMembers(s, x);
    }
  }

  lemma WorkspaceReconcilePreserves(s: State, list: seq<Run>, commit: bool)
    requires Inv(s) && Enabled(s, ReconcileWorkspace(list, commit))
    ensures Inv(Apply(s, ReconcileWorkspace(list, commit)))
  {
    var p := s.(ws := s.ws.(annotations := Pruned(s.ws.annotations, s.cache)));
    assert Inv(p) by {
      PrunedQueued(s);
    }
    if commit {
      CommitPreserves(p, list);
    }
  }

  lemma ActiveSnoc(history: seq<QueueStatus>, status: QueueStatus)
    ensures forall x :: ActiveIn(history, x) ==> ActiveIn(history + [status], x)
  {
    forall x | ActiveIn(history, x)
      ensures ActiveIn(history + [status], x)
    {
      var i :| 0 <= i < |history| && history[i].active == x;
      assert (history + [status])[i].active == x;
    }
  }

  lemma CommitHonoured(p: State, list: seq<Run>)
    requires Inv(p) && Lists(list, p.cache)
    ensures var status := Requeue(p.ws, list);
            Honoured(p.history + [status], p.used, p.runs, status.active)
  {
    var status, a := Requeue(p.ws, list), p.ws.status.active;
    if a in p.runs && !p.runs[a].Done() {
      ActiveStays(p, list);
    }
    assert forall x :: HeldBy(p.runs, a, x) ==> HeldBy(p.runs, status.active, x);
    assert status.active != "" ==> status.active in p.used by {
      RequeueFacts(p, list);
      assert status.active != "" ==> status.active in Combined(status);
    }
  }

  lemma CommitPreserves(p: State, list: seq<Run>)
    requires Inv(p) && Lists(list, p.cache)
    ensures var status := Requeue(p.ws, list);
            Inv(p.(ws := p.ws.(status := status), history := p.history + [status]))
  {
    var status := Requeue(p.ws, list);
    var ws := p.ws.(status := status);
    var history := p.history + [status];
    RequeueFacts(p, list);
    assert Queued(ws, p.used, p.runs, p.cache);
    CommitHonoured(p, list);
    assert Owned(p.pods, p.runs, p.ws.name, history) by {
      ActiveSnoc(p.history, status);
    }
  }

  lemma StepPreserves(s: State, s': State)
    requires Inv(s) && Next(s, s')
    ensures Inv(s')
  {
    var e :| Enabled(s, e) && s' == Apply(s, e);
    match e
    case CreateRun(name, command, workspace) => CreatePreserves(s, name, command, workspace);
    case DeleteRun(name) => DeletePreserves(s, name);
    case Annotate(key, value) => AnnotatePreserves(s, key, value);
    case SyncRun(name) => SyncPreserves(s, name);
    case ReconcileWorkspace(list, commit) => WorkspaceReconcilePreserves(s, list, commit);
    case ReconcileRun(name, read, pod, commit) => RunReconcilePreserves(s, name, read, pod, commit);
    case Tick(time) => TickPreserves(s, time);
    case DeleteWorkspace => DeleteWorkspacePreserves(s);
    case ChangePod(name, changed) => PodPreserves(s, name, changed);
  }

  lemma {:induction false} TraceInv(t: seq<State>, i: nat)
    requires IsTrace(t) && i < |t|
    ensures Inv(t[i])
  {
    if i == 0 {
    } else {
      TraceInv(t, i - 1);
      assert StepAt(t, i - 1);
      StepPreserves(t[i - 1], t[i]);
    }
  }

  // ---- mutual exclusion ---------------------------------------------------

  /** In every reachable state, a queueable run of the workspace that has a pod and is not done
      is the active run; so no two such runs coexist. */
  lemma MutualExclusion(t: seq<State>, i: nat, a: string, b: string)
    requires IsTrace(t) && i < |t|
    requires a in t[i].pods && b in t[i].pods
    ensures a in t[i].runs && b in t[i].runs
    ensures Contends(t[i], t[i].runs[a]) && !t[i].runs[a].Done() ==> t[i].ws.status.active == a
    ensures (&& Contends(t[i], t[i].runs[a]) && !t[i].runs[a].Done()
             && Contends(t[i], t[i].runs[b]) && !t[i].runs[b].Done()) ==> a == b
  {
    TraceInv(t, i);
    assert forall x :: WasActive(t[i], x) && x != "" ==> Held(t[i], x);
  }

  /** Once active, a run stays active along the trace until it is done or deleted. */
  lemma NoPreemption(t: seq<State>, i: nat, j: nat, a: string)
    requires IsTrace(t) && i <= j < |t|
    requires a != "" && t[i].ws.status.active == a
    requires a in t[j].runs && !t[j].runs[a].Done()
    ensures t[j].ws.status.active == a
  {
    TraceInv(t, i);
    TraceInv(t, j);
    HistoryGrows(t, i, j);
    assert t[j].history[|t[i].history| - 1].active == a;
  }

  lemma WorkspaceHistory(s: State, list: seq<Run>, commit: bool)
    ensures var s' := WorkspaceReconciled(s, list, commit);
      && s.history <= s'.history && s.used == s'.used && s.now == s'.now
      && s.ws.name == s'.ws.name && s.ws.privileged == s'.ws.privileged
  {
  }

  lemma EventHistory(s: State, e: Event)
    requires Enabled(s, e) && !e.ReconcileWorkspace?
    ensures var s' := Apply(s, e);
      && s.history == s'.history && s.ws.status == s'.ws.status && s.used <= s'.used && s.now <= s'.now
      && s.ws.name == s'.ws.name && s.ws.privileged == s'.ws.privileged
  {
  }

  lemma HistoryStep(s: State, s': State)
    requires Next(s, s')
    ensures s.history <= s'.history
    ensures s.used <= s'.used && s.now <= s'.now && s.ws.name == s'.ws.name && s.ws.privileged == s'.ws.privileged
  {
    var e :| Enabled(s, e) && s' == Apply(s, e);
    if e.ReconcileWorkspace? {
      WorkspaceHistory(s, e.list, e.commit);
    } else {
      EventHistory(s, e);
    }
  }

  lemma {:induction false} HistoryGrows(t: seq<State>, i: nat, j: nat)
    requires IsTrace(t) && i <= j < |t|
    ensures t[i].history <= t[j].history
    ensures t[i].used <= t[j].used && t[i].now <= t[j].now
    ensures t[i].ws.name == t[j].ws.name && t[i].ws.privileged == t[j].ws.privileged
    decreases j
  {
    if i == j {
    } else {
      HistoryGrows(t, i, j - 1);
      assert StepAt(t, j - 1);
      HistoryStep(t[j - 1], t[j]);
    }
  }
}
