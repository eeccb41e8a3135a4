// The timeout clock over whole traces: every timeout counts from the first incomplete mark.
module Timeouts {
  import opened Common
  import opened Conditions
  import opened RunLifecycle
  import opened RunOutcomes
  import opened Cluster

  /** At step `i` the run had no conditions, and the step marked it incomplete. */
  ghost predicate FirstMarked(t: seq<State>, i: nat, n: string)
    requires i + 1 < |t|
  {
    && n in t[i].runs && t[i].runs[n].status.conditions == []
    && n in t[i + 1].runs && Marked(t[i + 1].runs[n])
  }

  /** Only a reconcile of the run itself writes its status. */
  lemma StatusWriters(s: State, s': State, n: string) returns (view: Option<QueueStatus>, pod: PodRead)
    requires Next(s, s') && n in s'.runs && (n in s.runs ==> n in s.used)
    ensures n !in s.runs ==> s'.runs[n].status == NEW_STATUS
    ensures n in s.runs && s'.runs[n] != s.runs[n] ==>
              s'.runs[n] == s.runs[n].(status := Reconciled(s.runs[n], view, pod, s.now))
  {
    var e :| Enabled(s, e) && s' == Apply(s, e);
    view, pod := None, ReadError;
    if e.ReconcileRun? {
      view, pod := View(s, e.read), e.pod;
      RunReconcileFrame(s, e.name, e.read, e.pod, e.commit);
    } else {
      EventFrame(s, e);
    }
  }

  predicate Marked(run: Run) {
    Is(run.status.conditions, CompleteCondition, False)
  }

  function MarkTime(run: Run): int
    requires Marked(run)
  {
    Find(run.status.conditions, CompleteCondition).value.since
  }

  /** One step of one run's life. */
  lemma LifeStep(s: State, s': State, n: string)
    requires Inv(s) && Next(s, s') && n in s'.runs
    ensures n !in s.runs ==> !Marked(s'.runs[n])
    ensures n in s.runs && s.runs[n].Done() ==> s'.runs[n] == s.runs[n]
    ensures n in s.runs && Marked(s'.runs[n]) && !Marked(s.runs[n]) ==> s.runs[n].status.conditions == []
    ensures n in s.runs && Marked(s'.runs[n]) ==>
      MarkTime(s'.runs[n])
        == if Marked(s.runs[n]) then MarkTime(s.runs[n]) else Stamp(s.now)
  {
    var view, pod := StatusWriters(s, s', n);
    if n in s.runs {
      ShapeFacts(s.runs[n].status.conditions, s.now);
      if s'.runs[n] != s.runs[n] && Marked(s'.runs[n]) {
        ClockFixed(s.runs[n], view, pod, s.now, s.now);
      }
    }
  }

  /** One step of the run's life along a trace. */
  lemma TraceLife(t: seq<State>, j: nat, n: string)
    requires IsTrace(t) && 0 < j < |t| && n in t[j].runs
    ensures n !in t[j - 1].runs ==> !Marked(t[j].runs[n])
    ensures n in t[j - 1].runs && t[j - 1].runs[n].Done() ==> t[j].runs[n] == t[j - 1].runs[n]
    ensures n in t[j - 1].runs && Marked(t[j].runs[n]) && !Marked(t[j - 1].runs[n]) ==>
      t[j - 1].runs[n].status.conditions == []
    ensures n in t[j - 1].runs && Marked(t[j].runs[n]) ==>
      MarkTime(t[j].runs[n])
        == if Marked(t[j - 1].runs[n]) then MarkTime(t[j - 1].runs[n]) else Stamp(t[j - 1].now)
  {
    TraceInv(t, j - 1);
    assert StepAt(t, j - 1);
    LifeStep(t[j - 1], t[j], n);
  }

  lemma AroundBefore(t: seq<State>, i: nat, j: nat, n: string)
    requires IsTrace(t) && i < j < |t| && n in t[i].runs && n in t[j].runs
    ensures n in t[j - 1].runs
  {
    assert n in t[i].used by { TraceInv(t, i); }
    HistoryGrows(t, i, j - 1);
    assert StepAt(t, j - 1);
    Survives(t[j - 1], t[j], n);
  }

  /** Done is absorbing: a done run keeps its status, verbatim, for as long as it exists. */
  lemma {:induction false} DoneIsAbsorbing(t: seq<State>, i: nat, j: nat, n: string)
    requires IsTrace(t) && i <= j < |t|
    requires n in t[i].runs && t[i].runs[n].Done() && n in t[j].runs
    ensures t[j].runs[n] == t[i].runs[n]
    decreases j
  {
    if i == j {
    } else {
      AroundBefore(t, i, j, n);
      DoneIsAbsorbing(t, i, j - 1, n);
      TraceLife(t, j, n);
    }
  }

  lemma Survives(s: State, s': State, n: string)
    requires Next(s, s') && n in s.used && n in s'.runs
    ensures n in s.runs
  {
    var e :| Enabled(s, e) && s' == Apply(s, e);
    if e.ReconcileRun? {
      RunReconcileFrame(s, e.name, e.read, e.pod, e.commit);
    } else {
      EventFrame(s, e);
    }
  }

  /** The mark's time is that of the step that first marked the run. */
  lemma {:induction false} MarkOrigin(t: seq<State>, j: nat, n: string) returns (i: nat)
    requires IsTrace(t) && j < |t| && n in t[j].runs
    requires Marked(t[j].runs[n])
    ensures i < j && FirstMarked(t, i, n)
    ensures MarkTime(t[j].runs[n]) == Stamp(t[i].now)
    decreases j
  {
    if j == 0 {
      assert false;
    } else {
      TraceLife(t, j, n);
      if Marked(t[j - 1].runs[n]) {
        i := MarkOrigin(t, j - 1, n);
      } else {
        i := j - 1;
      }
    }
  }

  /** A run that has a condition keeps having one, and its first condition stays of its kind. */
  lemma ConditionsStay(t: seq<State>, j: nat, n: string)
    requires IsTrace(t) && 0 < j < |t| && n in t[j].runs && n in t[j - 1].runs
    requires t[j - 1].runs[n].status.conditions != []
    ensures t[j].runs[n].status.conditions != []
    ensures t[j].runs[n].status.conditions[0].kind == t[j - 1].runs[n].status.conditions[0].kind
  {
    TraceInv(t, j - 1);
    assert StepAt(t, j - 1);
    var view, pod := StatusWriters(t[j - 1], t[j], n);
    ReconciledHead(t[j - 1].runs[n], view, pod, t[j - 1].now);
  }

  lemma ReconciledHead(run: Run, ws: Option<QueueStatus>, pod: PodRead, now: int)
    requires run.status.conditions != []
    ensures Reconciled(run, ws, pod, now).conditions != []
    ensures Reconciled(run, ws, pod, now).conditions[0].kind == run.status.conditions[0].kind
  {
  }

  /** All marked versions of a run have the same mark; and a run that was marked keeps the mark in front of
      whatever condition it gets later. */
  lemma {:induction false} MarkKept(t: seq<State>, i: nat, j: nat, n: string)
    requires IsTrace(t) && i <= j < |t| && n in t[i].runs && n in t[j].runs && Marked(t[i].runs[n])
    ensures t[j].runs[n].status.conditions != []
    ensures t[j].runs[n].status.conditions[0].kind == CompleteCondition
    ensures Marked(t[j].runs[n]) ==>
      MarkTime(t[j].runs[n])
        == MarkTime(t[i].runs[n])
    decreases j
  {
    if i == j {
      TraceInv(t, i);
    } else {
      AroundBefore(t, i, j, n);
      MarkKept(t, i, j - 1, n);
      ConditionsStay(t, j, n);
      TraceLife(t, j, n);
    }
  }

  function Limit(reason: Reason): int {
    match reason
    case EnqueueTimeout => ENQUEUE_TIMEOUT
    case QueueTimeout => QUEUE_TIMEOUT
    case PodPendingTimeout => POD_PENDING_TIMEOUT
    case _ => 0
  }

  /** The run was failed for that timeout. */
  ghost predicate TimedOut(run: Run, reason: Reason) {
    && reason in {EnqueueTimeout, QueueTimeout, PodPendingTimeout}
    && Is(run.status.conditions, FailedCondition, True)
    && Find(run.status.conditions, FailedCondition).value.reason == reason
  }

  /** A reconcile fails a run for a timeout only when that much time has passed since its mark. */
  lemma TimeoutFires(run: Run, ws: Option<QueueStatus>, pod: PodRead, now: int, reason: Reason)
    requires Sound(run.status, now) && !run.Done()
    requires TimedOut(run.(status := Reconciled(run, ws, pod, now)), reason)
    ensures Marked(run.(status := Reconciled(run, ws, pod, now)))
    ensures now > Find(Reconciled(run, ws, pod, now).conditions, CompleteCondition).value.since + Limit(reason)
  {
    assert Unfinished(run);
    if ws.None? {
      UnfinishedShape(run, now);
      LosesWorkspace(run, pod, now);
      TwoConditions(Reconciled(run, ws, pod, now).conditions);
    } else if MayStart(run, ws.value) {
      LookFires(run, ws.value, pod, now, reason);
    } else {
      WaitsItsTurn(run, ws.value, pod, now);
      TwoConditions(Reconciled(run, ws, pod, now).conditions);
    }
  }

  lemma LookFires(run: Run, ws: QueueStatus, pod: PodRead, now: int, reason: Reason)
    requires Sound(run.status, now) && Unfinished(run) && MayStart(run, ws)
    requires TimedOut(run.(status := Reconciled(run, Some(ws), pod, now)), reason)
    ensures Marked(run.(status := Reconciled(run, Some(ws), pod, now)))
    ensures now > Find(Reconciled(run, Some(ws), pod, now).conditions, CompleteCondition).value.since + Limit(reason)
  {
    UnfinishedShape(run, now);
    FollowShape(run.status, pod, now, now);
    TwoConditions(Follow(run.status, pod, now).conditions);
  }

  lemma TwoConditions(cs: seq<Condition>)
    ensures |cs| == 2 && cs[0].kind == CompleteCondition && cs[1].kind == FailedCondition ==>
      Find(cs, CompleteCondition) == Some(cs[0]) && Find(cs, FailedCondition) == Some(cs[1])
    ensures |cs| == 1 ==> Find(cs, cs[0].kind) == Some(cs[0]) && forall k :: k != cs[0].kind ==> Find(cs, k) == None
  {
  }

  lemma TimeoutStep(t: seq<State>, j: nat, n: string, reason: Reason)
    requires IsTrace(t) && 0 < j < |t| && n in t[j].runs && TimedOut(t[j].runs[n], reason)
    ensures n in t[j - 1].runs && (t[j - 1].runs[n].Done() ==> t[j].runs[n] == t[j - 1].runs[n])
    ensures !t[j - 1].runs[n].Done() ==>
      && Marked(t[j].runs[n])
      && t[j - 1].now > MarkTime(t[j].runs[n]) + Limit(reason)
  {
    TraceInv(t, j - 1);
    assert StepAt(t, j - 1);
    var view, pod := StatusWriters(t[j - 1], t[j], n);
    LifeStep(t[j - 1], t[j], n);
    if !t[j - 1].runs[n].Done() {
      TimeoutFires(t[j - 1].runs[n], view, pod, t[j - 1].now, reason);
    }
  }

  /** The step that failed the run. */
  lemma {:induction false} FailOrigin(t: seq<State>, j: nat, n: string, reason: Reason) returns (k: nat)
    requires IsTrace(t) && j < |t| && n in t[j].runs && TimedOut(t[j].runs[n], reason)
    ensures k < j && n in t[k].runs && !t[k].runs[n].Done()
    ensures n in t[k + 1].runs && t[k + 1].runs[n] == t[j].runs[n]
    decreases j
  {
    TraceInv(t, j);
    if j == 0 {
      assert false;
    } else {
      TimeoutStep(t, j, n, reason);
      if t[j - 1].runs[n].Done() {
        k := FailOrigin(t, j - 1, n, reason);
      } else {
        k := j - 1;
      }
    }
  }

  /** A run failed for a timeout was failed by a step later than that timeout after the step that first
      marked it, the first mark's time being taken in whole seconds; so up to a second early, never more. */
  lemma TimeoutsCountFromFirstMark(t: seq<State>, j: nat, n: string, reason: Reason) returns (i: nat, k: nat)
    requires IsTrace(t) && j < |t| && n in t[j].runs && TimedOut(t[j].runs[n], reason)
    ensures i < k < j && FirstMarked(t, i, n)
    ensures n in t[k].runs && !t[k].runs[n].Done()
    ensures n in t[k + 1].runs && t[k + 1].runs[n] == t[j].runs[n]
    ensures t[k].now > Stamp(t[i].now) + Limit(reason) > t[i].now + Limit(reason) - SECOND
  {
    k := FailOrigin(t, j, n, reason);
    TimeoutStep(t, k + 1, n, reason);
    i := MarkOrigin(t, k + 1, n);
    StampFacts(t[i].now, 0);
  }

  /** The only condition lists a run ever shows, and what they say together with exit code and phase. */
  lemma LifecycleShapes(t: seq<State>, j: nat, n: string)
    requires IsTrace(t) && j < |t| && n in t[j].runs
    ensures var st := t[j].runs[n].status; var cs := st.conditions;
      && (|| cs == []
          || (|cs| == 1 && cs[0].kind == CompleteCondition && cs[0].truth != Unknown)
          || (|cs| == 1 && cs[0].kind == FailedCondition && cs[0].truth == True)
          || (|cs| == 2 && cs[0].kind == CompleteCondition && cs[0].truth == False
              && cs[1].kind == FailedCondition && cs[1].truth == True))
      && !(Is(cs, CompleteCondition, True) && Is(cs, FailedCondition, True))
      && (st.exitCode.Some? <==> Is(cs, CompleteCondition, True))
      && (st.phase == PhaseCompleted ==> Is(cs, CompleteCondition, True))
  {
    TraceInv(t, j);
    ShapeFacts(t[j].runs[n].status.conditions, t[j].now);
  }
}
