// The check-run protocol over all interleavings: any number of reconciles and webhook handlers, each
// working on a copy of some earlier version, commit under compare-and-swap and only then send.
module CheckRunProtocol {
  import opened Common
  import opened CheckRun

  /** A process, a reconcile or a webhook handler, holds its copy until it commits, and its request until
      it sends. */
  datatype Proc =
    | Writing(base: nat, reconciles: bool, next: Status, request: Option<Request>)
    | Committed(request: Option<Request>)

  datatype State = State(
    name: string,
    versions: seq<Status>,   // every committed version; the index is the resource version
    procs: map<nat, Proc>,
    sends: seq<Request>,     // handed to the asynchronous client, in order
    calls: seq<Request>      // made by it so far, in order
  )

  datatype Step =
    | StartReconcile(pid: nat, base: nat, report: Report, conclusion: Option<Conclusion>)
    | StartWebhook(pid: nat, base: nat, event: Event)
    | Commit(pid: nat)
    | Send(pid: nat)
    | Abandon(pid: nat)
    | Call

  const FRESH: Status := Status([], [], ReportQueued, None, false)

  ghost predicate Init(s: State) {
    s.versions == [FRESH] && s.procs == map[] && s.sends == [] && s.calls == []
  }

  function Latest(s: State): Status
    requires s.versions != []
  {
    s.versions[|s.versions| - 1]
  }

  /** GitHub announces a check run only after it has been asked to create it. */
  ghost predicate Enabled(s: State, e: Step) {
    && s.versions != []
    && match e
       case StartReconcile(pid, base, _, _) => pid !in s.procs && base < |s.versions|
       case StartWebhook(pid, base, event) =>
         pid !in s.procs && base < |s.versions| && (event.Created? ==> Create in s.calls)
       case Commit(pid) => pid in s.procs && s.procs[pid].Writing?
       case Send(pid) => pid in s.procs && s.procs[pid].Committed? && s.procs[pid].request.Some?
       case Abandon(pid) => pid in s.procs
       case Call => |s.calls| < |s.sends|
  }

  /** The update is refused unless the copy was taken from the latest version; the process keeps its
      copy, so a retry repeats the same attempt. */
  ghost function Apply(s: State, e: Step): State
    requires Enabled(s, e)
  {
    match e
    case StartReconcile(pid, base, report, conclusion) =>
      var st := s.versions[base];
      s.(procs := s.procs[pid := Writing(base, true, Reconciled(s.name, st, report, conclusion), RequestFor(st))])
    case StartWebhook(pid, base, event) =>
      s.(procs := s.procs[pid := Writing(base, false, WithEvent(s.versions[base], event), None)])
    case Commit(pid) =>
      if s.procs[pid].base == |s.versions| - 1 then
        s.(versions := s.versions + [s.procs[pid].next], procs := s.procs[pid := Committed(s.procs[pid].request)])
      else s
    case Send(pid) => s.(sends := s.sends + [s.procs[pid].request.value], procs := s.procs - {pid})
    case Abandon(pid) => s.(procs := s.procs - {pid})
    case Call => s.(calls := s.calls + [s.sends[|s.calls|]])
  }

  ghost predicate Next(s: State, s': State) {
    exists e :: Enabled(s, e) && s' == Apply(s, e)
  }

  ghost predicate StepAt(t: seq<State>, i: nat)
    requires i + 1 < |t|
  {
    Next(t[i], t[i + 1])
  }

  ghost predicate IsTrace(t: seq<State>) {
    && t != [] && Init(t[0])
    && forall i: nat :: i + 1 < |t| ==> StepAt(t, i)
  }

  // ---- invariant ----------------------------------------------------------

  /** The later version extends the log, keeps the create mark and leaves superseded iterations alone. */
  ghost predicate Extends(a: Status, b: Status) {
    && a.events <= b.events
    && (a.createRequested ==> b.createRequested)
    && |a.iterations| <= |b.iterations|
    && forall k :: 0 <= k < |a.iterations| && k < CurrentIteration(a.events) ==> b.iterations[k] == a.iterations[k]
  }

  lemma CurrentMonotone(a: Status, b: Status)
    requires a.events <= b.events
    ensures CurrentIteration(a.events) <= CurrentIteration(b.events)
  {
    CurrentIterationGrows(a.events, b.events[|a.events|..]);
    assert b.events == a.events + b.events[|a.events|..];
  }

  lemma ExtendsTransitive(a: Status, b: Status, c: Status)
    requires Extends(a, b) && Extends(b, c)
    ensures Extends(a, c)
  {
    CurrentMonotone(a, b);
  }

  lemma ReconciledExtends(name: string, st: Status, report: Report, conclusion: Option<Conclusion>)
    requires IterationsOk(name, st)
    ensures Extends(st, Reconciled(name, st, report, conclusion))
  {
  }

  ghost predicate VersionsIn(name: string, versions: seq<Status>) {
    && versions != []
    && (forall i :: 0 <= i < |versions| ==> IterationsOk(name, versions[i]))
    && forall i, j :: 0 <= i <= j < |versions| ==> Extends(versions[i], versions[j])
  }

  ghost predicate VersionsOk(s: State) {
    VersionsIn(s.name, s.versions)
  }

  ghost predicate Backed(st: Status, r: Request) {
    match r
    case Create => st.createRequested
    case Update(id) => Id(st.events) == Some(id)
  }

  ghost predicate ProcIn(name: string, versions: seq<Status>, p: Proc)
    requires versions != []
  {
    match p
    case Writing(base, reconciles, next, request) =>
      && base < |versions| && IterationsOk(name, next) && Extends(versions[base], next)
      && request == (if reconciles then RequestFor(versions[base]) else None)
      && (next.createRequested <==> versions[base].createRequested || request == Some(Create))
      && (request.Some? ==> Backed(next, request.value))
    case Committed(request) => request.Some? ==> Backed(versions[|versions| - 1], request.value)
  }

  ghost predicate ProcOk(s: State, p: Proc)
    requires s.versions != []
  {
    ProcIn(s.name, s.versions, p)
  }

  ghost predicate ProcsIn(name: string, versions: seq<Status>, procs: map<nat, Proc>)
    requires versions != []
  {
    forall p :: p in procs ==> ProcIn(name, versions, procs[p])
  }

  /** Processes that may still send a create. */
  ghost function Granted(procs: map<nat, Proc>): set<nat> {
    set p | p in procs && procs[p] == Committed(Some(Create))
  }

  function Creates(rs: seq<Request>): nat {
    if rs == [] then 0 else Creates(rs[..|rs| - 1]) + (if rs[|rs| - 1] == Create then 1 else 0)
  }

  ghost predicate Counted(s: State)
    requires s.versions != []
  {
    Creates(s.sends) + |Granted(s.procs)| <= if Latest(s).createRequested then 1 else 0
  }

  ghost predicate SendsIn(last: Status, sends: seq<Request>) {
    forall r :: r in sends ==> Backed(last, r)
  }

  ghost predicate Inv(s: State) {
    && VersionsOk(s)
    && ProcsIn(s.name, s.versions, s.procs)
    && SendsIn(Latest(s), s.sends)
    && s.calls <= s.sends
    && Counted(s)
  }

  lemma StartPreserves(s: State, pid: nat, proc: Proc)
    requires Inv(s) && pid !in s.procs && proc.Writing? && ProcOk(s, proc)
    ensures Inv(s.(procs := s.procs[pid := proc]))
  {
    assert Granted(s.procs[pid := proc]) == Granted(s.procs);
  }

  lemma StartReconcileOk(s: State, base: nat, report: Report, conclusion: Option<Conclusion>)
    requires VersionsOk(s) && base < |s.versions|
    ensures var st := s.versions[base];
      ProcOk(s, Writing(base, true, Reconciled(s.name, st, report, conclusion), RequestFor(st)))
  {
    ReconciledIterations(s.name, s.versions[base], report, conclusion);
    ReconciledExtends(s.name, s.versions[base], report, conclusion);
  }

  lemma BackedLater(a: Status, b: Status, r: Request)
    requires Backed(a, r) && Extends(a, b)
    ensures Backed(b, r)
  {
    if r.Update? {
      assert b.events == a.events + b.events[|a.events|..];
      IdStable(a.events, b.events[|a.events|..]);
    }
  }

  /** The other processes are judged by the new version as by the one it replaces. */
  lemma CommitProcs(s: State, pid: nat)
    requires Inv(s) && Enabled(s, Commit(pid)) && s.procs[pid].base == |s.versions| - 1
    ensures var proc := s.procs[pid];
      ProcsIn(s.name, s.versions + [proc.next], s.procs[pid := Committed(proc.request)])
  {
    var proc := s.procs[pid];
    assert ProcOk(s, proc);
    forall p | p in s.procs && p != pid
      ensures ProcIn(s.name, s.versions + [proc.next], s.procs[p])
    {
      assert ProcOk(s, s.procs[p]);
      OtherProc(s.name, s.versions, proc.next, s.procs[p]);
    }
  }

  lemma OtherProc(name: string, versions: seq<Status>, next: Status, p: Proc)
    requires versions != [] && ProcIn(name, versions, p) && Extends(versions[|versions| - 1], next)
    ensures ProcIn(name, versions + [next], p)
  {
    if p.Committed? && p.request.Some? {
      BackedLater(versions[|versions| - 1], next, p.request.value);
    }
  }

  lemma CommitSends(last: Status, next: Status, sends: seq<Request>)
    requires SendsIn(last, sends) && Extends(last, next)
    ensures SendsIn(next, sends)
  {
    forall r | r in sends { BackedLater(last, next, r); }
  }

  /** The invariant from its parts, as they are after a version was added. */
  lemma Added(s: State, next: Status, procs: map<nat, Proc>)
    requires VersionsIn(s.name, s.versions + [next]) && ProcsIn(s.name, s.versions + [next], procs)
    requires SendsIn(next, s.sends) && s.calls <= s.sends
    requires Counted(s.(versions := s.versions + [next], procs := procs))
    ensures Inv(s.(versions := s.versions + [next], procs := procs))
  {
  }

  lemma CommitPreserves(s: State, pid: nat)
    requires Inv(s) && Enabled(s, Commit(pid))
    ensures Inv(Apply(s, Commit(pid)))
  {
    var proc := s.procs[pid];
    if proc.base == |s.versions| - 1 {
      assert ProcOk(s, proc);
      CommitVersions(s, proc.next);
      CommitProcs(s, pid);
      CommitSends(Latest(s), proc.next, s.sends);
      CommitCounted(s, pid);
      Added(s, proc.next, s.procs[pid := Committed(proc.request)]);
    }
  }

  lemma CommitVersions(s: State, next: Status)
    requires VersionsOk(s) && IterationsOk(s.name, next) && Extends(Latest(s), next)
    ensures VersionsOk(s.(versions := s.versions + [next]))
  {
    var n := |s.versions|;
    var all := s.versions + [next];
    forall i, j | 0 <= i <= j < |all|
      ensures Extends(all[i], all[j])
    {
      if i < n && j == n {
        ExtendsTransitive(all[i], all[n - 1], all[n]);
      }
    }
  }

  /** A create is granted only by the commit that sets the mark. */
  lemma CommitCounted(s: State, pid: nat)
    requires Inv(s) && Enabled(s, Commit(pid)) && s.procs[pid].base == |s.versions| - 1
    ensures Counted(Apply(s, Commit(pid)))
  {
    var s' := Apply(s, Commit(pid));
    var proc := s.procs[pid];
    assert ProcOk(s, proc);
    if proc.request == Some(Create) {
      assert !Latest(s).createRequested;
      assert Granted(s'.procs) == Granted(s.procs) + {pid};
    } else {
      assert Granted(s'.procs) == Granted(s.procs);
    }
  }

  lemma SendCounted(procs: map<nat, Proc>, sends: seq<Request>, pid: nat, r: Request)
    requires pid in procs && procs[pid] == Committed(Some(r))
    ensures Creates(sends + [r]) + |Granted(procs - {pid})| == Creates(sends) + |Granted(procs)|
  {
    var all := sends + [r];
    assert all[..|all| - 1] == sends;
    assert Granted(procs - {pid}) == Granted(procs) - {pid};
    assert r == Create <==> pid in Granted(procs);
  }

  lemma ProcsLess(name: string, versions: seq<Status>, procs: map<nat, Proc>, pid: nat)
    requires versions != [] && ProcsIn(name, versions, procs)
    ensures ProcsIn(name, versions, procs - {pid})
  {
  }

  lemma SendsMore(last: Status, sends: seq<Request>, r: Request)
    requires SendsIn(last, sends) && Backed(last, r)
    ensures SendsIn(last, sends + [r])
  {
  }

  /** The invariant from its parts, as they are after a request was handed over. */
  lemma HandedOver(s: State, pid: nat, r: Request)
    requires VersionsOk(s) && s.calls <= s.sends + [r] && ProcsIn(s.name, s.versions, s.procs - {pid})
    requires SendsIn(Latest(s), s.sends + [r])
    requires Creates(s.sends + [r]) + |Granted(s.procs - {pid})| <= if Latest(s).createRequested then 1 else 0
    ensures Inv(s.(sends := s.sends + [r], procs := s.procs - {pid}))
  {
  }

  lemma PrefixMore(a: seq<Request>, b: seq<Request>, r: Request)
    requires a <= b
    ensures a <= b + [r]
  {
  }

  lemma SendPreserves(s: State, pid: nat)
    requires Inv(s) && Enabled(s, Send(pid))
    ensures Inv(Apply(s, Send(pid)))
  {
    var r := s.procs[pid].request.value;
    assert ProcOk(s, s.procs[pid]);
    SendCounted(s.procs, s.sends, pid, r);
    ProcsLess(s.name, s.versions, s.procs, pid);
    SendsMore(Latest(s), s.sends, r);
    PrefixMore(s.calls, s.sends, r);
    HandedOver(s, pid, r);
  }

  lemma AbandonPreserves(s: State, pid: nat)
    requires Inv(s) && Enabled(s, Abandon(pid))
    ensures Inv(Apply(s, Abandon(pid)))
  {
    assert Granted(s.procs - {pid}) == Granted(s.procs) - {pid};
  }

  lemma CallPreserves(s: State)
    requires Inv(s) && Enabled(s, Call)
    ensures Inv(Apply(s, Call))
  {
  }

  lemma ReconcilePreserves(s: State, pid: nat, base: nat, report: Report, conclusion: Option<Conclusion>)
    requires Inv(s) && Enabled(s, StartReconcile(pid, base, report, conclusion))
    ensures Inv(Apply(s, StartReconcile(pid, base, report, conclusion)))
  {
    StartReconcileOk(s, base, report, conclusion);
    var st := s.versions[base];
    StartPreserves(s, pid, Writing(base, true, Reconciled(s.name, st, report, conclusion), RequestFor(st)));
  }

  lemma WebhookPreserves(s: State, pid: nat, base: nat, event: Event)
    requires Inv(s) && Enabled(s, StartWebhook(pid, base, event))
    ensures Inv(Apply(s, StartWebhook(pid, base, event)))
  {
    WithEventIterations(s.name, s.versions[base], event);
    StartPreserves(s, pid, Writing(base, false, WithEvent(s.versions[base], event), None));
  }

  lemma StepPreserves(s: State, s': State)
    requires Inv(s) && Next(s, s')
    ensures Inv(s')
  {
    var e :| Enabled(s, e) && s' == Apply(s, e);
    match e
    case StartReconcile(pid, base, report, conclusion) => ReconcilePreserves(s, pid, base, report, conclusion);
    case StartWebhook(pid, base, event) => WebhookPreserves(s, pid, base, event);
    case Commit(pid) => CommitPreserves(s, pid);
    case Send(pid) => SendPreserves(s, pid);
    case Abandon(pid) => AbandonPreserves(s, pid);
    case Call => CallPreserves(s);
  }

  lemma StepGrows(s: State, s': State)
    requires Next(s, s')
    ensures s'.name == s.name && s.versions <= s'.versions && s.sends <= s'.sends
  {
  }

  lemma {:induction false} TraceInv(t: seq<State>, i: nat, j: nat)
    requires IsTrace(t) && i <= j < |t|
    ensures Inv(t[j])
    ensures t[i].name == t[j].name && t[i].versions <= t[j].versions && t[i].sends <= t[j].sends
    decreases j
  {
    if j == 0 {
      assert Granted(map[]) == {};
    } else {
      TraceInv(t, if i < j then i else j - 1, j - 1);
      assert StepAt(t, j - 1);
      StepPreserves(t[j - 1], t[j]);
      StepGrows(t[j - 1], t[j]);
    }
  }

  // ---- what the protocol guarantees ---------------------------------------

  lemma {:induction false} CreatesPrefix(a: seq<Request>, b: seq<Request>)
    requires a <= b
    ensures Creates(a) <= Creates(b)
    decreases |b|
  {
    if a == b {
    } else {
      CreatesPrefix(a, b[..|b| - 1]);
    }
  }

  /** At most one create is ever handed over, and so at most one is ever made. */
  lemma AtMostOneCreate(t: seq<State>, i: nat)
    requires IsTrace(t) && i < |t|
    ensures Creates(t[i].sends) <= 1 && Creates(t[i].calls) <= Creates(t[i].sends)
  {
    TraceInv(t, i, i);
    CreatesPrefix(t[i].calls, t[i].sends);
  }

  /** The log is append-only across all committed versions of a trace; an id, once there, is the id in
      every later version, and every update ever handed over is for that id. */
  lemma IdNeverChanges(t: seq<State>, i: nat, v: nat, w: nat)
    requires IsTrace(t) && i < |t| && v <= w < |t[i].versions|
    ensures t[i].versions[v].events <= t[i].versions[w].events
    ensures Id(t[i].versions[v].events).Some? ==> Id(t[i].versions[w].events) == Id(t[i].versions[v].events)
    ensures forall r :: r in t[i].sends && r.Update? && Id(t[i].versions[v].events).Some? ==>
              Some(r.id) == Id(t[i].versions[v].events)
  {
    var s := t[i];
    TraceInv(t, i, i);
    var a, b := s.versions[v].events, s.versions[w].events;
    assert Extends(s.versions[v], s.versions[w]) && Extends(s.versions[v], Latest(s));
    if Id(a).Some? {
      assert b == a + b[|a|..];
      IdStable(a, b[|a|..]);
      var c := Latest(s).events;
      assert c == a + c[|a|..];
      IdStable(a, c[|a|..]);
    }
  }

  // ---- after an id is known -----------------------------------------------

  /** The event log knows an id. */
  ghost predicate Known(st: Status) {
    Id(st.events).Some?
  }

  /** An id is known, in a version or in a copy, only after the create has been made. */
  ghost predicate Made(s: State) {
    && (forall v :: v in s.versions && Known(v) ==> Create in s.calls)
    && (forall p :: p in s.procs && s.procs[p].Writing? && Known(s.procs[p].next) ==> Create in s.calls)
  }

  lemma {:induction false} IdSnoc(events: seq<Event>, e: Event)
    requires !e.Created?
    ensures Id(events + [e]) == Id(events)
  {
    if events == [] {
      assert ([] + [e])[1..] == [];
    } else {
      assert (events + [e])[1..] == events[1..] + [e];
      IdSnoc(events[1..], e);
    }
  }

  lemma StartMade(s: State, pid: nat, proc: Proc)
    requires Made(s) && proc.Writing? && (Known(proc.next) ==> Create in s.calls)
    ensures Made(s.(procs := s.procs[pid := proc]))
  {
  }

  lemma MadeStep(s: State, s': State)
    requires Made(s) && Next(s, s')
    ensures Made(s')
  {
    var e :| Enabled(s, e) && s' == Apply(s, e);
    match e
    case StartReconcile(pid, base, report, conclusion) =>
      var st := s.versions[base];
      assert st in s.versions;
      StartMade(s, pid, Writing(base, true, Reconciled(s.name, st, report, conclusion), RequestFor(st)));
    case StartWebhook(pid, base, event) =>
      var st := s.versions[base];
      assert st in s.versions;
      if !event.Created? {
        IdSnoc(st.events, event);
      }
      StartMade(s, pid, Writing(base, false, WithEvent(st, event), None));
    case _ =>
  }

  lemma {:induction false} TraceMade(t: seq<State>, i: nat)
    requires IsTrace(t) && i < |t|
    ensures Made(t[i])
  {
    if i == 0 {
    } else {
      TraceMade(t, i - 1);
      assert StepAt(t, i - 1);
      MadeStep(t[i - 1], t[i]);
    }
  }

  lemma {:induction false} CreatesCounts(rs: seq<Request>)
    ensures Create in rs <==> Creates(rs) > 0
  {
    if rs == [] {
    } else {
      CreatesCounts(rs[..|rs| - 1]);
      assert rs == rs[..|rs| - 1] + [rs[|rs| - 1]];
    }
  }

  /** Once an id is committed, whatever any process still has to send is an update of that id. */
  lemma UpdatesAfterId(t: seq<State>, i: nat, pid: nat)
    requires IsTrace(t) && i < |t| && t[i].versions != [] && Known(Latest(t[i]))
    requires Enabled(t[i], Send(pid))
    ensures t[i].procs[pid].request == Some(Update(Id(Latest(t[i]).events).value))
  {
    TraceInv(t, i, i);
    TraceMade(t, i);
    var s := t[i];
    CreatesCounts(s.calls);
    CreatesPrefix(s.calls, s.sends);
    assert Granted(s.procs) == {};
    assert pid !in Granted(s.procs);
    assert ProcOk(s, s.procs[pid]);
  }

  lemma StepSends(s: State, s': State)
    requires Next(s, s')
    ensures s'.sends == s.sends
         || exists pid :: Enabled(s, Send(pid)) && s'.sends == s.sends + [s.procs[pid].request.value]
  {
  }

  lemma KnownStays(t: seq<State>, i: nat, j: nat)
    requires IsTrace(t) && i <= j < |t| && t[i].versions != [] && Known(Latest(t[i]))
    ensures t[j].versions != [] && Id(Latest(t[j]).events) == Id(Latest(t[i]).events)
  {
    TraceInv(t, i, j);
    var v := |t[i].versions| - 1;
    assert t[j].versions[v] == Latest(t[i]);
    var a, b := Latest(t[i]).events, Latest(t[j]).events;
    assert Extends(t[j].versions[v], Latest(t[j]));
    assert b == a + b[|a|..];
    IdStable(a, b[|a|..]);
  }

  ghost predicate OnlyUpdates(rs: seq<Request>, id: int) {
    forall r :: r in rs ==> r == Update(id)
  }

  lemma SendsStep(t: seq<State>, j: nat, id: int, sent: seq<Request>)
    requires IsTrace(t) && j + 1 < |t| && t[j].versions != [] && Id(Latest(t[j]).events) == Some(id)
    requires sent <= t[j].sends && OnlyUpdates(t[j].sends[|sent|..], id)
    ensures sent <= t[j + 1].sends && OnlyUpdates(t[j + 1].sends[|sent|..], id)
  {
    assert StepAt(t, j);
    StepSends(t[j], t[j + 1]);
    if t[j + 1].sends != t[j].sends {
      var pid :| Enabled(t[j], Send(pid)) && t[j + 1].sends == t[j].sends + [t[j].procs[pid].request.value];
      UpdatesAfterId(t, j, pid);
      assert t[j + 1].sends[|sent|..] == t[j].sends[|sent|..] + [Update(id)];
    }
  }

  /** So, along every trace, all that is handed over after an id was committed is updates of that id. */
  lemma {:induction false} SendsAfterId(t: seq<State>, i: nat, j: nat)
    requires IsTrace(t) && i <= j < |t| && t[i].versions != [] && Known(Latest(t[i]))
    ensures t[i].sends <= t[j].sends
    ensures OnlyUpdates(t[j].sends[|t[i].sends|..], Id(Latest(t[i]).events).value)
    decreases j
  {
    if i == j {
    } else {
      SendsAfterId(t, i, j - 1);
      KnownStays(t, i, j - 1);
      SendsStep(t, j - 1, Id(Latest(t[i]).events).value, t[i].sends);
    }
  }

  ghost predicate NoId(st: Status) {
    forall e :: e in st.events ==> !e.Created?
  }

  /** Whatever a commit entitles its process to send is decided by the version it replaces: a reconcile
      commits to a create exactly if there is neither an id nor the mark, and then none has been handed
      over before; it commits to an update exactly once there is an id. */
  lemma CommitEntitles(t: seq<State>, i: nat, pid: nat)
    requires IsTrace(t) && i < |t| && Enabled(t[i], Commit(pid))
    requires t[i].procs[pid].base == |t[i].versions| - 1
    ensures var last := Latest(t[i]); var reconciles := t[i].procs[pid].reconciles;
      var s' := Apply(t[i], Commit(pid));
      && s'.versions == t[i].versions + [t[i].procs[pid].next]
      && (s'.procs[pid] == Committed(Some(Create)) <==> reconciles && NoId(last) && !last.createRequested)
      && (forall id :: s'.procs[pid] == Committed(Some(Update(id))) <==> reconciles && FirstCreated(last.events, id))
      && (s'.procs[pid] == Committed(Some(Create)) ==> Latest(s').createRequested && Creates(t[i].sends) == 0)
  {
    TraceInv(t, i, i);
    Entitled(t[i], pid);
  }

  lemma Entitled(s: State, pid: nat)
    requires Inv(s) && Enabled(s, Commit(pid)) && s.procs[pid].base == |s.versions| - 1
    ensures var last := Latest(s); var reconciles := s.procs[pid].reconciles;
      var s' := Apply(s, Commit(pid));
      && s'.versions == s.versions + [s.procs[pid].next]
      && (s'.procs[pid] == Committed(Some(Create)) <==> reconciles && NoId(last) && !last.createRequested)
      && (forall id :: s'.procs[pid] == Committed(Some(Update(id))) <==> reconciles && FirstCreated(last.events, id))
      && (s'.procs[pid] == Committed(Some(Create)) ==> Latest(s').createRequested && Creates(s.sends) == 0)
  {
    var last := Latest(s);
    assert ProcIn(s.name, s.versions, s.procs[pid]);
    assert s.procs[pid].request == if s.procs[pid].reconciles then RequestFor(last) else None;
    IdExact(last.events);
    if s.procs[pid].request == Some(Create) {
      assert Counted(s);
    }
  }

  // ---- the create is made -------------------------------------------------

  /** The step entitles the process to send the create. */
  ghost predicate Grants(s: State, s': State, pid: nat) {
    && pid in s'.procs && s'.procs[pid] == Committed(Some(Create))
    && !(pid in s.procs && s.procs[pid] == Committed(Some(Create)))
  }

  ghost predicate GrantsNow(s: State, s': State) {
    exists pid: nat :: Grants(s, s', pid)
  }

  ghost predicate Marked(s: State) {
    s.versions != [] && Latest(s).createRequested
  }

  /** The mark is set by exactly the steps that entitle a process to send the create. */
  lemma MarkStep(s: State, s': State)
    requires Inv(s) && Next(s, s')
    ensures GrantsNow(s, s') <==> !Marked(s) && Marked(s')
    ensures forall p: nat, q: nat :: Grants(s, s', p) && Grants(s, s', q) ==> p == q
    ensures Marked(s) ==> Marked(s')
  {
    var e :| Enabled(s, e) && s' == Apply(s, e);
    MarkEvent(s, e, s');
  }

  lemma MarkEvent(s: State, e: Step, s': State)
    requires Inv(s) && Enabled(s, e) && s' == Apply(s, e)
    ensures forall p: nat :: Grants(s, s', p) <==> e == Commit(p) && !Marked(s) && Marked(s')
    ensures Marked(s') && !Marked(s) ==> e.Commit? && Grants(s, s', e.pid)
    ensures Marked(s) ==> Marked(s')
  {
    match e
    case Commit(pid) => MarkCommit(s, pid);
    case _ => MarkOther(s, e);
  }

  lemma MarkOther(s: State, e: Step)
    requires Enabled(s, e) && !e.Commit?
    ensures forall p: nat :: !Grants(s, Apply(s, e), p)
    ensures Marked(s) <==> Marked(Apply(s, e))
  {
  }

  lemma MarkCommit(s: State, pid: nat)
    requires Inv(s) && Enabled(s, Commit(pid))
    ensures var s' := Apply(s, Commit(pid));
      && (forall p: nat :: Grants(s, s', p) <==> p == pid && !Marked(s) && Marked(s'))
      && (Marked(s) ==> Marked(s'))
  {
    assert ProcOk(s, s.procs[pid]);
    if s.procs[pid].base == |s.versions| - 1 {
      CommittedMark(s, pid);
    }
  }

  lemma CommittedMark(s: State, pid: nat)
    requires Enabled(s, Commit(pid)) && ProcOk(s, s.procs[pid]) && s.procs[pid].base == |s.versions| - 1
    ensures s.procs[pid].request == Some(Create) <==> !Marked(s) && Marked(Apply(s, Commit(pid)))
    ensures Marked(s) ==> Marked(Apply(s, Commit(pid)))
  {
    assert Latest(Apply(s, Commit(pid))) == s.procs[pid].next;
  }

  ghost predicate GrantsAt(t: seq<State>, k: nat, pid: nat) {
    k + 1 < |t| && Grants(t[k], t[k + 1], pid)
  }

  ghost predicate GrantedBefore(t: seq<State>, i: nat) {
    exists k: nat, pid: nat :: k < i && GrantsAt(t, k, pid)
  }

  lemma GrantedNext(t: seq<State>, i: nat)
    requires i + 1 < |t|
    ensures GrantedBefore(t, i + 1) <==> GrantedBefore(t, i) || GrantsNow(t[i], t[i + 1])
  {
    assert forall pid: nat :: GrantsAt(t, i, pid) ==> Grants(t[i], t[i + 1], pid);
    if GrantsNow(t[i], t[i + 1]) {
      var pid: nat :| Grants(t[i], t[i + 1], pid);
      assert GrantsAt(t, i, pid);
    }
    if GrantedBefore(t, i + 1) {
      var k: nat, pid: nat :| k < i + 1 && GrantsAt(t, k, pid);
      assert k < i ==> GrantedBefore(t, i);
    }
  }

  lemma {:induction false} MarkOrigin(t: seq<State>, i: nat)
    requires IsTrace(t) && i < |t|
    ensures Marked(t[i]) <==> GrantedBefore(t, i)
  {
    if i > 0 {
      MarkOrigin(t, i - 1);
      TraceInv(t, i - 1, i - 1);
      assert StepAt(t, i - 1);
      MarkStep(t[i - 1], t[i]);
      GrantedNext(t, i - 1);
    }
  }

  /** Once the mark is there, one process and only one has been entitled to send the create; before, none. */
  lemma OneGrant(t: seq<State>, i: nat)
    requires IsTrace(t) && i < |t|
    ensures Marked(t[i]) <==> exists k: nat, pid: nat :: k < i && GrantsAt(t, k, pid)
    ensures forall k: nat, p: nat, l: nat, q: nat :: k <= l < i && GrantsAt(t, k, p) && GrantsAt(t, l, q) ==>
      k == l && p == q
  {
    MarkOrigin(t, i);
    forall k: nat, p: nat, l: nat, q: nat | k <= l < i && GrantsAt(t, k, p) && GrantsAt(t, l, q)
      ensures k == l && p == q
    {
      SameGrant(t, k, p, l, q);
    }
  }

  lemma SameGrant(t: seq<State>, k: nat, p: nat, l: nat, q: nat)
    requires IsTrace(t) && k <= l < |t| && GrantsAt(t, k, p) && GrantsAt(t, l, q)
    ensures k == l && p == q
  {
    TraceInv(t, l, l);
    assert StepAt(t, l);
    MarkStep(t[l], t[l + 1]);
    MarkOrigin(t, l);
  }

  /** A reconcile of the latest version that is left alone hands over a create, an update, or nothing. */
  function Undisturbed(s: State, pid: nat, report: Report, conclusion: Option<Conclusion>): seq<Step>
    requires s.versions != []
  {
    [StartReconcile(pid, |s.versions| - 1, report, conclusion), Commit(pid), Send(pid)]
  }

  lemma Delivers(t: seq<State>, i: nat, pid: nat, report: Report, conclusion: Option<Conclusion>)
    requires IsTrace(t) && i < |t| && pid !in t[i].procs
    ensures t[i].versions != []
    ensures var steps := Undisturbed(t[i], pid, report, conclusion);
      Enabled(t[i], steps[0]) && Enabled(Apply(t[i], steps[0]), steps[1])
    ensures var steps, last := Undisturbed(t[i], pid, report, conclusion), Latest(t[i]);
      var s := Apply(Apply(t[i], steps[0]), steps[1]);
      && (Enabled(s, steps[2]) <==> !NoId(last) || !last.createRequested)
      && (NoId(last) && !last.createRequested ==> Apply(s, steps[2]).sends == t[i].sends + [Create])
      && forall id :: FirstCreated(last.events, id) ==> Apply(s, steps[2]).sends == t[i].sends + [Update(id)]
  {
    TraceInv(t, i, i);
    IdExact(Latest(t[i]).events);
  }

  lemma Longer(t: seq<State>, e: Step) returns (u: seq<State>)
    requires IsTrace(t) && Enabled(t[|t| - 1], e)
    ensures IsTrace(u) && |u| == |t| + 1 && u[|t|] == Apply(t[|t| - 1], e)
  {
    u := t + [Apply(t[|t| - 1], e)];
    forall i: nat | i + 1 < |u|
      ensures StepAt(u, i)
    {
      assert i + 1 < |t| ==> StepAt(t, i);
    }
  }

  /** A reconcile of the latest version, up to its sending. */
  lemma Reconciles(t: seq<State>) returns (u: seq<State>)
    requires IsTrace(t) && t[|t| - 1].procs == map[]
    ensures t[|t| - 1].versions != [] && IsTrace(u)
    ensures var s, s' := t[|t| - 1], u[|u| - 1];
      && s'.procs == map[0 := Committed(RequestFor(Latest(s)))]
      && s'.versions == s.versions + [Reconciled(s.name, Latest(s), ReportQueued, None)]
      && s'.sends == s.sends && s'.calls == s.calls
  {
    TraceInv(t, |t| - 1, |t| - 1);
    u := Longer(t, StartReconcile(0, |t[|t| - 1].versions| - 1, ReportQueued, None));
    u := Longer(u, Commit(0));
  }

  lemma Sends(t: seq<State>, r: Request) returns (u: seq<State>)
    requires IsTrace(t) && t[|t| - 1].versions != [] && t[|t| - 1].procs == map[0 := Committed(Some(r))]
    requires t[|t| - 1].calls == t[|t| - 1].sends
    ensures IsTrace(u)
    ensures var s, s' := t[|t| - 1], u[|u| - 1];
      s' == s.(procs := map[], sends := s.sends + [r], calls := s.calls + [r])
  {
    u := Longer(t, Send(0));
    u := Longer(u, Call);
  }

  /** And so it goes: one reconcile has the check run created, its id arrives, and the next reconcile
      updates it. */
  lemma CreatedThenUpdated(name: string, id: int) returns (t: seq<State>)
    ensures IsTrace(t) && t[|t| - 1].calls == [Create, Update(id)]
  {
    t := [State(name, [FRESH], map[], [], [])];
    t := Reconciles(t);
    t := Sends(t, Create);
    t := Longer(t, StartWebhook(0, 1, Created(id)));
    t := Longer(t, Commit(0));
    t := Longer(t, Abandon(0));
    assert t[|t| - 1].procs == map[];
    t := Reconciles(t);
    t := Sends(t, Update(id));
  }

  /** Once a create has been requested no reconcile asks for another, whether or not the first was ever
      made: until an id arrives, nothing is sent at all. */
  lemma NoSecondCreate(t: seq<State>, i: nat, v: nat, w: nat)
    requires IsTrace(t) && i < |t| && v <= w < |t[i].versions| && t[i].versions[v].createRequested
    ensures RequestFor(t[i].versions[w]) != Some(Create)
    ensures Id(t[i].versions[w].events).None? <==> RequestFor(t[i].versions[w]) == None
  {
    TraceInv(t, i, i);
    assert Extends(t[i].versions[v], t[i].versions[w]);
  }

  /** A reconcile that commits leaves exactly one iteration per start of one, each named after its number. */
  lemma ReconcileCommitIterations(t: seq<State>, i: nat, base: nat, report: Report, conclusion: Option<Conclusion>)
    requires IsTrace(t) && i < |t| && base < |t[i].versions|
    ensures var next := Reconciled(t[i].name, t[i].versions[base], report, conclusion);
      && |next.iterations| == CurrentIteration(next.events) + 1
      && next.iterations[CurrentIteration(next.events)].completed == (report == ReportCompleted)
      && forall k :: 0 <= k < |next.iterations| ==> next.iterations[k].run == RunName(t[i].name, k)
  {
    TraceInv(t, i, i);
    ReconciledIterations(t[i].name, t[i].versions[base], report, conclusion);
  }

  /** The current iteration never goes down, and an iteration that has been superseded is frozen. */
  lemma SupersededFrozen(t: seq<State>, i: nat, v: nat, w: nat, k: nat)
    requires IsTrace(t) && i < |t| && v <= w < |t[i].versions|
    ensures CurrentIteration(t[i].versions[v].events) <= CurrentIteration(t[i].versions[w].events)
    ensures |t[i].versions[v].iterations| <= |t[i].versions[w].iterations|
    ensures k < |t[i].versions[v].iterations| && k < CurrentIteration(t[i].versions[v].events) ==>
              t[i].versions[w].iterations[k] == t[i].versions[v].iterations[k]
  {
    TraceInv(t, i, i);
    assert Extends(t[i].versions[v], t[i].versions[w]);
    CurrentMonotone(t[i].versions[v], t[i].versions[w]);
  }

  /** A process whose copy is out of date stays so: no retry of its update ever succeeds, and a webhook's
      event is lost. */
  lemma StaleNeverCommits(t: seq<State>, i: nat, j: nat, pid: nat)
    requires IsTrace(t) && i <= j < |t|
    requires pid in t[i].procs && t[i].procs[pid].Writing? && t[i].procs[pid].base != |t[i].versions| - 1
    requires pid in t[j].procs && t[j].procs[pid] == t[i].procs[pid]
    ensures Enabled(t[j], Commit(pid)) && Apply(t[j], Commit(pid)) == t[j]
  {
    TraceInv(t, i, i);
    TraceInv(t, i, j);
    assert ProcOk(t[i], t[i].procs[pid]);
  }
}
