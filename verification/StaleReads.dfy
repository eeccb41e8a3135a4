// The run controller reads a run twice, computing from the first reading and writing over the second. When
// its cache catches up in between, it computes from an earlier version of the run: what then still holds.
module StaleReads {
  import opened Common
  import opened Conditions
  import opened RunLifecycle
  import opened Cluster
  import LivePods
  import opened LivePodsWitness
  import opened Timeouts

  /** A committed reconcile that computes from the status `from`. */
  function Overwritten(s: State, name: string, from: RunStatus, read: WorkspaceRead, pod: PodRead): State
    requires name in s.runs
    requires read.Snapshot? ==> read.i < |s.history|
  {
    var run, view := s.runs[name].(status := from), View(s, read);
    s.(runs := s.runs[name := run.(status := Reconciled(run, view, pod, s.now))],
       pods := if CreatesPod(run, view, pod) then s.pods[name := Pod(Pending, NoStatus)] else s.pods,
       cursor := if read.Snapshot? then read.i else s.cursor,
       seen := s.seen || read.Snapshot?)
  }

  /** The workspace's controller has not seen the run done, and if the run was ever active it still is. */
  ghost predicate Unnoticed(s: State, name: string) {
    && (name in s.cache ==> !s.cache[name].Done())
    && (WasActive(s, name) ==> s.ws.status.active == name)
  }

  /** A run that is not done is always unnoticed. */
  lemma PendingUnnoticed(s: State, name: string)
    requires Inv(s) && name in s.runs && !s.runs[name].Done()
    ensures Unnoticed(s, name)
  {
  }

  /** The pods of the new state stay accounted for. */
  lemma OverwrittenPods(s: State, name: string, from: RunStatus, read: WorkspaceRead, pod: PodRead)
    requires NamesOk(s) && PodsOk(s) && Enabled(s, ReconcileRun(name, read, pod, true))
    ensures PodsOk(Overwritten(s, name, from, read, pod))
  {
  }

  lemma WriteHonoured(s: State, name: string, run: Run)
    requires HistoryOk(s) && name in s.runs && (run.Done() || Unnoticed(s, name))
    ensures HistoryOk(s.(runs := s.runs[name := run]))
  {
  }

  lemma WriteQueued(s: State, name: string, run: Run)
    requires QueueOk(s) && name in s.runs
    ensures QueueOk(s.(runs := s.runs[name := run]))
  {
  }

  lemma WriteCached(s: State, name: string, run: Run)
    requires NamesOk(s) && StatusesOk(s) && CacheOk(s) && name in s.runs && run == s.runs[name].(status := run.status)
    requires Sound(run.status, s.now) && (run.Done() || Unnoticed(s, name))
    ensures var w := s.(runs := s.runs[name := run]); NamesOk(w) && StatusesOk(w) && CacheOk(w)
  {
  }

  lemma WriteSurvives(s: State, name: string, run: Run)
    requires Inv(s) && name in s.runs && run == s.runs[name].(status := run.status)
    requires Sound(run.status, s.now) && (run.Done() || Unnoticed(s, name))
    ensures var w := s.(runs := s.runs[name := run]);
      NamesOk(w) && StatusesOk(w) && CacheOk(w) && QueueOk(w) && HistoryOk(w)
  {
    WriteHonoured(s, name, run);
    WriteQueued(s, name, run);
    WriteCached(s, name, run);
  }

  lemma SurvivesIf(s: State, name: string, from: RunStatus, read: WorkspaceRead, pod: PodRead)
    requires Inv(s) && Enabled(s, ReconcileRun(name, read, pod, true)) && Sound(from, s.now)
    requires Overwritten(s, name, from, read, pod).runs[name].Done() || Unnoticed(s, name)
    ensures Inv(Overwritten(s, name, from, read, pod))
  {
    var s', before := Overwritten(s, name, from, read, pod), s.runs[name].(status := from);
    ReconciledSound(before, View(s, read), pod, s.now, s.now);
    OverwrittenPods(s, name, from, read, pod);
    WriteSurvives(s, name, s'.runs[name]);
    SameButPods(s.(runs := s'.runs), s');
  }

  lemma SurvivesOnlyIf(s: State, name: string, from: RunStatus, read: WorkspaceRead, pod: PodRead)
    requires NamesOk(s) && Enabled(s, ReconcileRun(name, read, pod, true))
    requires Inv(Overwritten(s, name, from, read, pod))
    ensures Overwritten(s, name, from, read, pod).runs[name].Done() || Unnoticed(s, name)
  {
  }

  // ---- done runs ----------------------------------------------------------

  /** A done run stays done exactly when the earlier version of it concludes by the guards of a reconcile. */
  lemma DoneSurvives(s: State, name: string, from: RunStatus, read: WorkspaceRead, pod: PodRead)
    requires Inv(s) && Enabled(s, ReconcileRun(name, read, pod, true)) && Sound(from, s.now)
    ensures Overwritten(s, name, from, read, pod).runs[name].Done()
       <==> Concludes(s.runs[name].(status := from), View(s, read), pod, s.now)
  {
    ConcludesExact(s.runs[name].(status := from), View(s, read), pod, s.now);
  }

  /** A reading of the workspace and the pod that leads to no conclusion about a run without conditions. */
  lemma Inconclusive(s: State, name: string) returns (read: WorkspaceRead)
    requires Inv(s) && name in s.runs
    ensures Enabled(s, ReconcileRun(name, read, ReadError, true))
    ensures !Overwritten(s, name, NEW_STATUS, read, ReadError).runs[name].Done()
  {
    read := if s.runs[name].workspace == s.ws.name then Snapshot(0) else Foreign(Some(QueueStatus("", [])));
    DoneSurvives(s, name, NEW_STATUS, read, ReadError);
  }

  /** Every done run can come back: no run's end is safe from a reconcile of its first version. */
  lemma DoneCanBeLost(s: State, name: string)
    requires Inv(s) && name in s.runs && s.runs[name].Done()
    ensures exists read, pod ::
      Enabled(s, ReconcileRun(name, read, pod, true)) && !Overwritten(s, name, NEW_STATUS, read, pod).runs[name].Done()
  {
    var read := Inconclusive(s, name);
  }

  /** A reconcile of a version that was done already changes nothing. */
  lemma DoneVersion(t: seq<State>, i: nat, j: nat, n: string, read: WorkspaceRead, pod: PodRead)
    requires IsTrace(t) && i <= j < |t| && n in t[i].runs && n in t[j].runs && t[i].runs[n].Done()
    requires Enabled(t[j], ReconcileRun(n, read, pod, true))
    ensures Overwritten(t[j], n, t[i].runs[n].status, read, pod).runs[n] == t[j].runs[n]
  {
    DoneIsAbsorbing(t, i, j, n);
  }

  // ---- the timeout clock --------------------------------------------------

  /** The time of a run's mark after a reconcile of an earlier version: if that version was marked, it is the
      time every marked version has; if not, the clock starts again. */
  lemma MarkAfter(t: seq<State>, i: nat, j: nat, n: string, read: WorkspaceRead, pod: PodRead)
    requires IsTrace(t) && i <= j < |t| && n in t[i].runs && n in t[j].runs
    requires Enabled(t[j], ReconcileRun(n, read, pod, true))
    requires Marked(Overwritten(t[j], n, t[i].runs[n].status, read, pod).runs[n])
    ensures MarkTime(Overwritten(t[j], n, t[i].runs[n].status, read, pod).runs[n])
         == if Marked(t[i].runs[n]) then MarkTime(t[i].runs[n]) else Stamp(t[j].now)
    ensures Marked(t[i].runs[n]) && Marked(t[j].runs[n]) ==> MarkTime(t[i].runs[n]) == MarkTime(t[j].runs[n])
  {
    TraceInv(t, i);
    TraceInv(t, j);
    HistoryGrows(t, i, j);
    SoundLater(t[i].runs[n].status, t[i].now, t[j].now);
    ClockFixed(t[j].runs[n].(status := t[i].runs[n].status), View(t[j], read), pod, t[j].now, t[j].now);
    if Marked(t[i].runs[n]) {
      MarkKept(t, i, j, n);
    }
  }

  lemma SoundLater(st: RunStatus, then_: int, now: int)
    requires Sound(st, then_) && then_ <= now
    ensures Sound(st, now)
  {
  }

  /** A reading under which a run comes out marked. */
  lemma AnyReading(s: State, name: string) returns (read: WorkspaceRead, pod: PodRead)
    requires Inv(s) && name in s.runs
    ensures Enabled(s, ReconcileRun(name, read, pod, true)) && View(s, read).Some?
    ensures pod == NotFound(true) || pod == Found(Running, NoStatus)
  {
    read := if s.runs[name].workspace == s.ws.name then Snapshot(0) else Foreign(Some(QueueStatus("", [])));
    pod := if name in s.pods then Found(Running, NoStatus) else NotFound(true);
  }

  /** So the clock of any run can be set back to the present by a reconcile of its first version. */
  lemma ClockCanRestart(s: State, name: string)
    requires Inv(s) && name in s.runs
    ensures exists read, pod :: Enabled(s, ReconcileRun(name, read, pod, true)) && Restarts(s, name, read, pod)
  {
    var read, pod := AnyReading(s, name);
    NewMark(s.runs[name].(status := NEW_STATUS), View(s, read).value, pod, s.now);
    assert Restarts(s, name, read, pod);
  }

  /** The run comes out marked, with the present time. */
  ghost predicate Restarts(s: State, name: string, read: WorkspaceRead, pod: PodRead)
    requires Enabled(s, ReconcileRun(name, read, pod, true))
  {
    var run := Overwritten(s, name, NEW_STATUS, read, pod).runs[name];
    Marked(run) && MarkTime(run) == Stamp(s.now)
  }

  lemma NewMark(run: Run, ws: QueueStatus, pod: PodRead, now: int)
    requires run.status == NEW_STATUS && (pod == NotFound(true) || pod == Found(Running, NoStatus))
    ensures Is(Reconciled(run, Some(ws), pod, now).conditions, CompleteCondition, False)
    ensures Find(Reconciled(run, Some(ws), pod, now).conditions, CompleteCondition).value.since == Stamp(now)
  {
    StampFacts(now, now);
  }

  // ---- the invariant and exclusion ----------------------------------------

  /** The invariant of the cluster survives one reconcile from an earlier version if and only if that version
      concludes or the run has gone unnoticed. */
  lemma InvSurvivesOne(s: State, name: string, from: RunStatus, read: WorkspaceRead, pod: PodRead)
    requires Inv(s) && Enabled(s, ReconcileRun(name, read, pod, true)) && Sound(from, s.now)
    ensures Inv(Overwritten(s, name, from, read, pod))
       <==> Concludes(s.runs[name].(status := from), View(s, read), pod, s.now) || Unnoticed(s, name)
  {
    DoneSurvives(s, name, from, read, pod);
    if Inv(Overwritten(s, name, from, read, pod)) {
      SurvivesOnlyIf(s, name, from, read, pod);
    }
    if Overwritten(s, name, from, read, pod).runs[name].Done() || Unnoticed(s, name) {
      SurvivesIf(s, name, from, read, pod);
    }
  }

  /** It survives all of them if and only if the run has gone unnoticed. */
  lemma InvSurvives(s: State, name: string)
    requires Inv(s) && name in s.runs
    ensures (forall from, read, pod :: Enabled(s, ReconcileRun(name, read, pod, true)) && Sound(from, s.now) ==>
              Inv(Overwritten(s, name, from, read, pod)))
       <==> Unnoticed(s, name)
  {
    if Unnoticed(s, name) {
      forall from, read, pod | Enabled(s, ReconcileRun(name, read, pod, true)) && Sound(from, s.now) {
        SurvivesIf(s, name, from, read, pod);
      }
    } else {
      var read := Inconclusive(s, name);
      DoneSurvives(s, name, NEW_STATUS, read, ReadError);
      InvSurvivesOne(s, name, NEW_STATUS, read, ReadError);
    }
  }

  /** Exclusion of pods of runs that are not done. */
  ghost predicate Exclusive(s: State) {
    forall p :: p in s.pods && p in s.runs && Contends(s, s.runs[p]) && !s.runs[p].Done() ==> s.ws.status.active == p
  }

  /** The run has been active and has made way for another. */
  ghost predicate Displaced(s: State, name: string)
    requires name in s.runs
  {
    Contends(s, s.runs[name]) && WasActive(s, name) && s.ws.status.active != name
  }

  lemma ExclusiveUnlessDisplaced(s: State, name: string, from: RunStatus, read: WorkspaceRead, pod: PodRead)
    requires Inv(s) && Enabled(s, ReconcileRun(name, read, pod, true)) && !Displaced(s, name)
    ensures Exclusive(Overwritten(s, name, from, read, pod))
  {
    OverwrittenPods(s, name, from, read, pod);
    var s' := Overwritten(s, name, from, read, pod);
    assert forall p :: p in s.pods && p in s.runs && Contends(s, s.runs[p]) ==> WasActive(s, p) && Held(s, p);
  }

  lemma BackBesideActive(s: State, name: string, read: WorkspaceRead, pod: PodRead)
    requires NamesOk(s) && Enabled(s, ReconcileRun(name, read, pod, true)) && Displaced(s, name)
    requires read.Snapshot? && s.history[read.i].active == name
    requires pod == if name in s.pods then ReadError else NotFound(true)
    requires !Overwritten(s, name, NEW_STATUS, read, pod).runs[name].Done()
    ensures !Exclusive(Overwritten(s, name, NEW_STATUS, read, pod))
  {
    var s' := Overwritten(s, name, NEW_STATUS, read, pod);
    assert name in s'.pods && Contends(s', s'.runs[name]);
  }

  /** The reading that lets a displaced run go on: the status under which it was active. */
  lemma DisplacedReturns(s: State, name: string) returns (read: WorkspaceRead, pod: PodRead)
    requires Inv(s) && name in s.runs && Displaced(s, name)
    ensures Enabled(s, ReconcileRun(name, read, pod, true)) && Sound(NEW_STATUS, s.now)
    ensures !Exclusive(Overwritten(s, name, NEW_STATUS, read, pod))
  {
    read, pod := ReadAsActive(s, name);
    DoneSurvives(s, name, NEW_STATUS, read, pod);
    BackBesideActive(s, name, read, pod);
  }

  lemma ReadAsActive(s: State, name: string) returns (read: WorkspaceRead, pod: PodRead)
    requires name in s.runs && Displaced(s, name)
    ensures read.Snapshot? && Enabled(s, ReconcileRun(name, read, pod, true)) && s.history[read.i].active == name
    ensures pod == if name in s.pods then ReadError else NotFound(true)
  {
    var i :| 0 <= i < |s.history| && s.history[i].active == name;
    read, pod := Snapshot(i), if name in s.pods then ReadError else NotFound(true);
  }

  /** Exclusion survives every reconcile from every earlier version if and only if the run is not displaced. */
  lemma ExclusionSurvives(s: State, name: string)
    requires Inv(s) && name in s.runs
    ensures (forall from, read, pod :: Enabled(s, ReconcileRun(name, read, pod, true)) && Sound(from, s.now) ==>
              Exclusive(Overwritten(s, name, from, read, pod)))
       <==> !Displaced(s, name)
  {
    if Displaced(s, name) {
      var read, pod := DisplacedReturns(s, name);
    } else {
      forall from, read, pod | Enabled(s, ReconcileRun(name, read, pod, true)) && Sound(from, s.now) {
        ExclusiveUnlessDisplaced(s, name, from, read, pod);
      }
    }
  }

  /** It can be lost: from a reachable state, one reconcile that computes from the version of the run
      before its failure brings the failed run back beside the active one. */
  lemma ExclusionLost() returns (t: seq<State>)
    ensures IsTrace(t) && t[|t| - 1] == BOTH
    ensures BOTH.runs["a"].Done()
    ensures Enabled(BOTH, ReconcileRun("a", Snapshot(1), ReadError, true)) && Sound(CREATED, BOTH.now)
    ensures !Exclusive(Overwritten(BOTH, "a", CREATED, Snapshot(1), ReadError))
  {
    t := TwoUnfinishedPods();
    LivePods.OrderedIsTrace(t);
    ExpiredIsDone();
    BackToPending();
    BroughtBack(BOTH);
  }

  lemma BroughtBack(s: State)
    requires s.runs == map["a" := A(EXPIRED), "b" := B(STARTED)] && "a" in s.pods
    requires s.now == LATE && s.history == [IDLE, A_FIRST, B_ONLY] && s.ws.name == "w" && s.ws.status == B_ONLY
    ensures Enabled(s, ReconcileRun("a", Snapshot(1), ReadError, true))
    ensures !Exclusive(Overwritten(s, "a", CREATED, Snapshot(1), ReadError))
  {
    BackToPending();
    ApplyIsQueueable();
    var s' := Overwritten(s, "a", CREATED, Snapshot(1), ReadError);
    assert s'.runs["a"] == A(CREATED);
    assert "a" in s'.pods && Contends(s', s'.runs["a"]);
  }

  lemma BackToPending()
    ensures Sound(CREATED, LATE)
    ensures Reconciled(A(CREATED), Some(A_FIRST), ReadError, LATE) == CREATED && !IsDone(CREATED.conditions)
  {
    assert CREATED.conditions[1..] == [];
  }
}
