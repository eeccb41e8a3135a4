// First come, first served, over whole traces of the cluster.
module Fifo {
  import opened Common
  import opened RunLifecycle
  import opened CombinedQueue
  import opened WorkspaceQueue
  import opened Cluster

  ghost predicate Requeues(s: State, list: seq<Run>, s': State) {
    Enabled(s, ReconcileWorkspace(list, true)) && s' == WorkspaceReconciled(s, list, true)
  }

  /** Only a committed reconcile of the workspace touches its queue. */
  lemma QueueWriters(s: State, s': State) returns (list: seq<Run>)
    requires Next(s, s')
    ensures Queue(s') == Queue(s) || Requeues(s, list, s')
  {
    var e :| Enabled(s, e) && s' == Apply(s, e);
    if e.ReconcileWorkspace? {
      list := e.list;
    } else {
      list := [];
      EventHistory(s, e);
    }
  }

  /** What such a reconcile makes of the queue, and who belongs to it. */
  lemma RequeueEffect(s: State, list: seq<Run>, s': State) returns (eligible: seq<string>)
    requires Inv(s) && Requeues(s, list, s')
    ensures Queue(s') == NextQueue(Queue(s), eligible)
    ensures forall x :: x in Queue(s) && x !in Queue(s') ==> Out(s, x)
    ensures forall x :: Out(s, x) ==> x !in Queue(s')
  {
    var p := WorkspaceReconciled(s, list, false);
    WorkspaceReconcilePreserves(s, list, false);
    eligible := EligibleNames(p.ws.name, p.ws.privileged, p.ws.annotations, list);
    RequeueFacts(p, list);
    forall x | x in Queue(s) && x !in Queue(s')
      ensures Out(s, x)
    {
      assert MemberOk(p, x);
    }
  }

  /** Every step recomputes the queue against some list of eligible names (possibly itself). */
  lemma QueueStep(s: State, s': State) returns (eligible: seq<string>)
    requires Inv(s) && Next(s, s')
    ensures Queue(s') == NextQueue(Queue(s), eligible)
  {
    var list := QueueWriters(s, s');
    if Requeues(s, list, s') {
      eligible := RequeueEffect(s, list, s');
    } else {
      eligible := Queue(s);
      InsideAll(Queue(s), Elements(Queue(s)));
      InsideNone(Queue(s), Elements(Queue(s)) - Elements(Queue(s)));
    }
  }

  /** The run is finished for the workspace reconciler: seen done, or seen to be gone. */
  ghost predicate Out(s: State, x: string) {
    && x in s.used
    && ((x !in s.cache && x !in s.runs) || (x in s.cache && s.cache[x].Done()))
  }

  lemma SyncStep(s: State, name: string, x: string)
    ensures var s' := Apply(s, SyncRun(name));
      && s'.runs == s.runs && s'.used == s.used
      && (x in s'.cache ==> (x in s.cache && s'.cache[x] == s.cache[x]) || (x in s.runs && s'.cache[x] == s.runs[x]))
      && (x in s.cache && x !in s'.cache ==> x !in s.runs)
  {
  }

  /** Only catching up changes the cache. */
  lemma CacheStep(s: State, e: Event)
    requires Enabled(s, e) && !e.ReconcileRun? && !e.SyncRun?
    ensures Apply(s, e).cache == s.cache && s.used <= Apply(s, e).used
  {
  }

  /** What one step can do to a run that exists or has existed. */
  lemma RunStep(s: State, s': State, x: string)
    requires Next(s, s') && x in s.used
    ensures x in s'.used && (x in s'.runs ==> x in s.runs)
    ensures x in s'.cache ==> (x in s.cache && s'.cache[x] == s.cache[x]) || (x in s.runs && s'.cache[x] == s.runs[x])
    ensures x in s.cache && x !in s'.cache ==> x !in s.runs
  {
    var e :| Enabled(s, e) && s' == Apply(s, e);
    if e.ReconcileRun? {
      RunReconcileFrame(s, e.name, e.read, e.pod, e.commit);
    } else if e.SyncRun? {
      SyncStep(s, e.name, x);
    } else {
      EventFrame(s, e);
      CacheStep(s, e);
    }
  }

  lemma OutIsForGood(s: State, s': State, x: string)
    requires CacheOk(s) && Next(s, s') && Out(s, x)
    ensures Out(s', x)
  {
    RunStep(s, s', x);
  }

  lemma QueueLeavers(s: State, s': State, x: string)
    requires Inv(s) && Next(s, s')
    ensures x in Queue(s) && x !in Queue(s') ==> Out(s', x)
    ensures Out(s, x) && x !in Queue(s) ==> x !in Queue(s')
  {
    var list := QueueWriters(s, s');
    if Requeues(s, list, s') {
      var _ := RequeueEffect(s, list, s');
      if Out(s, x) {
        OutIsForGood(s, s', x);
      }
    }
  }

  // ---- along a trace ------------------------------------------------------

  lemma TraceStep(t: seq<State>, j: nat) returns (eligible: seq<string>)
    requires IsTrace(t) && 0 < j < |t|
    ensures Queue(t[j]) == NextQueue(Queue(t[j - 1]), eligible)
    ensures Distinct(Queue(t[j - 1]))
  {
    TraceInv(t, j - 1);
    assert StepAt(t, j - 1);
    eligible := QueueStep(t[j - 1], t[j]);
  }

  lemma AheadStep(t: seq<State>, j: nat, a: string, b: string)
    requires IsTrace(t) && 0 < j < |t|
    requires a in Queue(t[j - 1]) && a in Queue(t[j]) && b in Queue(t[j])
    ensures b in Queue(t[j - 1]) ==> (Ahead(Queue(t[j]), a, b) <==> Ahead(Queue(t[j - 1]), a, b))
    ensures b !in Queue(t[j - 1]) ==> Ahead(Queue(t[j]), a, b)
  {
    var eligible := TraceStep(t, j);
    AheadNext(Queue(t[j - 1]), eligible, a, b);
  }

  /** Those ahead of `x`. */
  function Front(q: seq<string>, x: string): seq<string>
    requires x in q
  {
    q[..Position(q, x)]
  }

  lemma PositionStep(t: seq<State>, j: nat, x: string)
    requires IsTrace(t) && 0 < j < |t| && x in Queue(t[j - 1]) && x in Queue(t[j])
    ensures Front(Queue(t[j]), x) == Inside(Front(Queue(t[j - 1]), x), Elements(Queue(t[j])))
    ensures Position(Queue(t[j]), x) <= Position(Queue(t[j - 1]), x)
  {
    var eligible := TraceStep(t, j);
    PositionNext(Queue(t[j - 1]), eligible, x);
  }

  lemma TraceLeavers(t: seq<State>, j: nat, x: string)
    requires IsTrace(t) && 0 < j < |t|
    ensures x in Queue(t[j - 1]) && x !in Queue(t[j]) ==> Out(t[j], x)
    ensures Out(t[j - 1], x) ==> Out(t[j], x)
    ensures Out(t[j - 1], x) && x !in Queue(t[j - 1]) ==> x !in Queue(t[j])
  {
    TraceInv(t, j - 1);
    assert StepAt(t, j - 1);
    QueueLeavers(t[j - 1], t[j], x);
    if Out(t[j - 1], x) {
      OutIsForGood(t[j - 1], t[j], x);
    }
  }

  lemma {:induction false} GoneIsOut(t: seq<State>, i: nat, j: nat, x: string)
    requires IsTrace(t) && i <= j < |t| && x in Queue(t[i]) && x !in Queue(t[j])
    ensures Out(t[j], x)
    decreases j
  {
    TraceLeavers(t, j, x);
    if x !in Queue(t[j - 1]) {
      GoneIsOut(t, i, j - 1, x);
    }
  }

  /** A run that has left the queue never comes back. */
  lemma {:induction false} NeverReturns(t: seq<State>, i: nat, j: nat, k: nat, x: string)
    requires IsTrace(t) && i <= j <= k < |t|
    requires x in Queue(t[i]) && x !in Queue(t[j])
    ensures x !in Queue(t[k])
    decreases k
  {
    if j == k {
    } else {
      NeverReturns(t, i, j, k - 1, x);
      GoneIsOut(t, i, k - 1, x);
      TraceLeavers(t, k, x);
    }
  }

  /** Two runs that are queued at both ends are in the same order at both ends. */
  lemma {:induction false} OrderKept(t: seq<State>, i: nat, j: nat, a: string, b: string)
    requires IsTrace(t) && i <= j < |t|
    requires Ahead(Queue(t[i]), a, b) && a in Queue(t[j]) && b in Queue(t[j])
    ensures Ahead(Queue(t[j]), a, b)
    decreases j
  {
    if i == j {
    } else {
      StillThere(t, i, j - 1, j, a);
      StillThere(t, i, j - 1, j, b);
      OrderKept(t, i, j - 1, a, b);
      AheadStep(t, j, a, b);
    }
  }

  lemma StillThere(t: seq<State>, i: nat, j: nat, k: nat, x: string)
    requires IsTrace(t) && i <= j <= k < |t| && x in Queue(t[i]) && x in Queue(t[k])
    ensures x in Queue(t[j])
  {
    if x !in Queue(t[j]) {
      NeverReturns(t, i, j, k, x);
    }
  }

  /** A run that was not yet queued ends up behind every run that was. */
  lemma {:induction false} NoOvertaking(t: seq<State>, i: nat, j: nat, a: string, b: string)
    requires IsTrace(t) && i <= j < |t|
    requires a in Queue(t[i]) && b !in Queue(t[i]) && a in Queue(t[j]) && b in Queue(t[j])
    ensures Ahead(Queue(t[j]), a, b)
    decreases j
  {
    StillThere(t, i, j - 1, j, a);
    if b in Queue(t[j - 1]) {
      NoOvertaking(t, i, j - 1, a, b);
    }
    AheadStep(t, j, a, b);
  }

  /** Filtering by the queue just before and by the queue now is filtering by the queue now. */
  lemma FilteredTwice(t: seq<State>, i: nat, j: nat, first: seq<string>)
    requires IsTrace(t) && i < j < |t| && forall y :: y in first ==> y in Queue(t[i])
    ensures Inside(Inside(first, Elements(Queue(t[j - 1]))), Elements(Queue(t[j])))
         == Inside(first, Elements(Queue(t[j])))
  {
    var before, after := Elements(Queue(t[j - 1])), Elements(Queue(t[j]));
    InsideInside(first, before, after);
    forall y | y in first
      ensures y in before * after <==> y in after
    {
      if y in after {
        StillThere(t, i, j - 1, j, y);
      }
    }
    InsideSame(first, before * after, after);
  }

  lemma FrontStep(t: seq<State>, i: nat, j: nat, x: string, first: seq<string>)
    requires IsTrace(t) && i < j < |t| && x in Queue(t[j - 1]) && x in Queue(t[j])
    requires forall y :: y in first ==> y in Queue(t[i])
    requires Front(Queue(t[j - 1]), x) == Inside(first, Elements(Queue(t[j - 1])))
    ensures Front(Queue(t[j]), x) == Inside(first, Elements(Queue(t[j])))
    ensures Position(Queue(t[j]), x) <= Position(Queue(t[j - 1]), x)
  {
    PositionStep(t, j, x);
    FilteredTwice(t, i, j, first);
  }

  /** While a run is queued, those ahead of it are exactly those that were ahead of it and have not
      left; so it becomes active exactly when all of them have. */
  lemma {:induction false} AheadAreThoseLeft(t: seq<State>, i: nat, j: nat, x: string)
    requires IsTrace(t) && i <= j < |t| && x in Queue(t[i]) && x in Queue(t[j])
    ensures Front(Queue(t[j]), x) == Inside(Front(Queue(t[i]), x), Elements(Queue(t[j])))
    ensures Position(Queue(t[j]), x) <= Position(Queue(t[i]), x)
    decreases j
  {
    var first := Front(Queue(t[i]), x);
    if i == j {
      InsideAll(first, Elements(Queue(t[i])));
    } else {
      StillThere(t, i, j - 1, j, x);
      AheadAreThoseLeft(t, i, j - 1, x);
      FrontStep(t, i, j, x, first);
    }
  }

  lemma ActiveWhenAllAheadLeft(t: seq<State>, i: nat, j: nat, x: string)
    requires IsTrace(t) && i <= j < |t| && x in Queue(t[i]) && x in Queue(t[j])
    ensures t[j].ws.status.active == x
       <==> forall y :: y in Front(Queue(t[i]), x) ==> y !in Queue(t[j])
  {
    AheadAreThoseLeft(t, i, j, x);
    TraceInv(t, j);
    var q := Queue(t[j]);
    var ahead := Front(q, x);
    assert t[j].ws.status.active == q[0];
    assert ahead != [] ==> ahead[0] == q[0] && ahead[0] in ahead;
  }
}
