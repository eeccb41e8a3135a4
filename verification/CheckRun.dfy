// cmd/github/check_run.go, app.go and the bookkeeping of check_run_controller.go: a check run's event log,
// its iterations, and the names derived from them.
module CheckRun {
  import opened Common
  import opened Text

  datatype Event = Created(id: int) | Rerequested | RequestedAction(action: string) | CompletedEvent

  datatype Iteration = Iteration(run: string, completed: bool)

  datatype Report = ReportQueued | ReportInProgress | ReportCompleted
  datatype Conclusion = ConcludedSuccess | ConcludedFailure | ConcludedTimedOut

  datatype Status = Status(
    events: seq<Event>, iterations: seq<Iteration>,
    report: Report, conclusion: Option<Conclusion>, createRequested: bool)

  datatype CheckCommand = Plan | Apply

  function Id(events: seq<Event>): (r: Option<int>)
    ensures r.None? <==> forall e :: e in events ==> !e.Created?
  {
    if events == [] then None
    else if events[0].Created? then Some(events[0].id)
    else Id(events[1..])
  }

  /** The first notice of a creation bears that id. */
  ghost predicate FirstCreated(events: seq<Event>, id: int) {
    exists i :: 0 <= i < |events| && events[i] == Created(id) && forall j :: 0 <= j < i ==> !events[j].Created?
  }

  lemma {:induction false} IdExact(events: seq<Event>)
    ensures forall id :: Id(events) == Some(id) <==> FirstCreated(events, id)
  {
    if events == [] {
    } else {
      IdExact(events[1..]);
      forall id
        ensures Id(events) == Some(id) <==> FirstCreated(events, id)
      {
        FirstCreatedCons(events, id);
      }
    }
  }

  lemma FirstCreatedCons(events: seq<Event>, id: int)
    requires events != []
    ensures FirstCreated(events, id) <==>
      if events[0].Created? then events[0] == Created(id) else FirstCreated(events[1..], id)
  {
    if !events[0].Created? && FirstCreated(events[1..], id) {
      var i :| 0 <= i < |events[1..]| && events[1..][i] == Created(id)
        && forall j :: 0 <= j < i ==> !events[1..][j].Created?;
      assert events[i + 1] == Created(id);
      assert forall j :: 0 < j < i + 1 ==> events[j] == events[1..][j - 1];
    }
    if !events[0].Created? && FirstCreated(events, id) {
      var i :| 0 <= i < |events| && events[i] == Created(id) && forall j :: 0 <= j < i ==> !events[j].Created?;
      assert events[1..][i - 1] == Created(id);
      assert forall j :: 0 <= j < i - 1 ==> events[1..][j] == events[j + 1];
    }
  }

  predicate Starts(e: Event) {
    e.Rerequested? || e.RequestedAction?
  }

  function CurrentIteration(events: seq<Event>): nat {
    if events == [] then 0
    else CurrentIteration(events[..|events| - 1]) + (if Starts(events[|events| - 1]) then 1 else 0)
  }

  function RunName(name: string, i: int): string {
    name + "-" + Format(i)
  }

  function CommandOf(events: seq<Event>): CheckCommand {
    if events != [] && events[|events| - 1] == RequestedAction("apply") then Apply else Plan
  }

  function PlanPath(run: string): string {
    "/plans/" + run
  }

  /** The iteration whose plan file the current command writes or reads. */
  function PlanIteration(events: seq<Event>): int {
    if CommandOf(events) == Plan then CurrentIteration(events) else CurrentIteration(events) - 1
  }

  function TargetPlan(name: string, events: seq<Event>): string {
    PlanPath(RunName(name, PlanIteration(events)))
  }

  const INIT := "terraform init -no-color -input=false && "
  const PLAN_TO := "terraform plan -no-color -input=false -out="
  const APPLY_FROM := "terraform apply -no-color -input=false "

  function Script(name: string, events: seq<Event>): string {
    match CommandOf(events)
    case Plan => INIT + PLAN_TO + TargetPlan(name, events)
    case Apply => INIT + APPLY_FROM + TargetPlan(name, events)
  }

  function CheckRunName(suite: int, rerequest: int, workspace: string): string {
    Format(suite) + "-" + Format(rerequest) + "-" + workspace
  }

  // ---- one update of the resource -----------------------------------------

  function Populate(name: string, its: seq<Iteration>, n: nat): (r: seq<Iteration>)
    ensures |r| == if |its| < n then n else |its|
    ensures its <= r
    ensures forall k :: |its| <= k < |r| ==> r[k] == Iteration(RunName(name, k), false)
    decreases n - |its|
  {
    if |its| >= n then its else Populate(name, its + [Iteration(RunName(name, |its|), false)], n)
  }

  function SetIteration(name: string, its: seq<Iteration>, current: nat, completed: bool): seq<Iteration> {
    var all := Populate(name, its, current + 1);
    all[current := all[current].(completed := completed)]
  }

  /** A request to the GitHub API: create a check run, or update the one of that id. */
  datatype Request = Create | Update(id: int)

  function RequestFor(st: Status): Option<Request> {
    match Id(st.events)
    case Some(id) => Some(Update(id))
    case None => if st.createRequested then None else Some(Create)
  }

  function Reconciled(name: string, st: Status, report: Report, conclusion: Option<Conclusion>): Status {
    Status(st.events,
           SetIteration(name, st.iterations, CurrentIteration(st.events), report == ReportCompleted),
           report, conclusion,
           st.createRequested || Id(st.events).None?)
  }

  function WithEvent(st: Status, e: Event): Status {
    st.(events := st.events + [e])
  }

  // ---- in the source's form -----------------------------------------------

  class CheckRunObject {
    const name: string
    var events: seq<Event>
    var iterations: seq<Iteration>
    var report: Report
    var conclusion: Option<Conclusion>
    var createRequested: bool

    constructor (name: string)
      ensures this.name == name && Value() == Status([], [], ReportQueued, None, false)
    {
      this.name := name;
      events, iterations, report, conclusion, createRequested := [], [], ReportQueued, None, false;
    }

    function Value(): Status
      reads this
    {
      Status(events, iterations, report, conclusion, createRequested)
    }

    method FindId() returns (id: Option<int>)
      ensures id == Id(events)
      ensures forall n :: id == Some(n) <==> FirstCreated(events, n)
    {
      IdExact(events);
      for i := 0 to |events|
        invariant Id(events[i..]) == Id(events)
      {
        if events[i].Created? {
          return Some(events[i].id);
        }
        assert events[i..][1..] == events[i + 1..];
      }
      return None;
    }

    method CountIterations() returns (n: nat)
      ensures n == CurrentIteration(events)
    {
      n := 0;
      for i := 0 to |events|
        invariant n == CurrentIteration(events[..i])
      {
        assert events[..i + 1][..i] == events[..i];
        if Starts(events[i]) {
          n := n + 1;
        }
      }
      assert events[..|events|] == events;
    }

    method SetIterationStatus(completed: bool)
      modifies this`iterations
      ensures iterations == SetIteration(name, old(iterations), CurrentIteration(events), completed)
    {
      var current := CountIterations();
      var i := |iterations|;
      while i < current + 1
        invariant |iterations| == i
        invariant Populate(name, iterations, current + 1) == Populate(name, old(iterations), current + 1)
      {
        iterations := iterations + [Iteration(RunName(name, i), false)];
        i := i + 1;
      }
      iterations := iterations[current := iterations[current].(completed := completed)];
    }

    /** The status part of a reconcile, in the order of the source: first decide whether anything may
        be sent, then bring the status up to date. The caller commits before it sends. A create is asked
        for exactly if no notice of a creation has come and none was asked for before. */
    method Prepare(newReport: Report, newConclusion: Option<Conclusion>) returns (send: Option<Request>)
      modifies this
      ensures events == old(events)
      ensures Value() == Reconciled(name, old(Value()), newReport, newConclusion)
      ensures send == RequestFor(old(Value()))
      ensures send == Some(Create) <==> !old(createRequested) && forall e :: e in events ==> !e.Created?
      ensures forall id :: send == Some(Update(id)) <==> FirstCreated(events, id)
      ensures createRequested <==> old(createRequested) || send == Some(Create)
      ensures report == newReport && conclusion == newConclusion
    {
      var id := FindId();
      send := None;
      if id.Some? {
        send := Some(Update(id.value));
      } else if !createRequested {
        createRequested := true;
        send := Some(Create);
      }
      report := newReport;
      conclusion := newConclusion;
      SetIterationStatus(newReport == ReportCompleted);
    }

    method AppendEvent(e: Event)
      modifies this`events
      ensures Value() == WithEvent(old(Value()), e)
    {
      events := events + [e];
    }
  }

  // ---- properties of the log ----------------------------------------------

  lemma {:induction false} IdStable(events: seq<Event>, more: seq<Event>)
    requires Id(events).Some?
    ensures Id(events + more) == Id(events)
  {
    if events[0].Created? {
    } else {
      assert (events + more)[1..] == events[1..] + more;
      IdStable(events[1..], more);
    }
  }

  lemma {:induction false} CurrentIterationGrows(events: seq<Event>, more: seq<Event>)
    ensures CurrentIteration(events) <= CurrentIteration(events + more)
  {
    if more == [] {
      assert events + more == events;
    } else {
      var last := |more| - 1;
      assert (events + more)[..|events + more| - 1] == events + more[..last];
      CurrentIterationGrows(events, more[..last]);
    }
  }

  /** Each event by itself: only a rerequest and a requested action begin an iteration, and only a requested
      apply, while it is last, makes the command an apply. */
  lemma LogStep(events: seq<Event>, e: Event)
    ensures CurrentIteration([]) == 0 && CommandOf([]) == Plan
    ensures CurrentIteration(events + [e]) == CurrentIteration(events) + match e
      case Rerequested => 1
      case RequestedAction(_) => 1
      case Created(_) => 0
      case CompletedEvent => 0
    ensures CommandOf(events + [e]) == Apply <==> e == RequestedAction("apply")
  {
    assert (events + [e])[..|events + [e]| - 1] == events;
  }

  /** The script of a plan names its own iteration's file. */
  lemma PlanScript(name: string, events: seq<Event>)
    requires CommandOf(events) == Plan
    ensures Script(name, events)
         == INIT + PLAN_TO + ("/plans/" + (name + "-" + Decimal(CurrentIteration(events))))
  {
  }

  /** An apply is never the first iteration; it is given the plan of the iteration before it, which is
      the file the log before the request pointed to, if that was a plan. */
  lemma ApplyUsesPreviousPlan(name: string, events: seq<Event>)
    requires CommandOf(events) == Apply
    ensures CurrentIteration(events) == CurrentIteration(events[..|events| - 1]) + 1
    ensures PlanIteration(events) == CurrentIteration(events) - 1 >= 0
    ensures CommandOf(events[..|events| - 1]) == Plan ==>
              TargetPlan(name, events) == TargetPlan(name, events[..|events| - 1])
  {
  }

  /** So the script of an apply requested after a plan applies the very file that plan's script writes. */
  lemma ApplyReadsPlan(name: string, events: seq<Event>)
    requires CommandOf(events) == Apply && CommandOf(events[..|events| - 1]) == Plan
    ensures exists file ::
      && Script(name, events[..|events| - 1]) == INIT + PLAN_TO + file
      && Script(name, events) == INIT + APPLY_FROM + file
  {
    ApplyUsesPreviousPlan(name, events);
    var file := TargetPlan(name, events);
    assert Script(name, events) == INIT + APPLY_FROM + file;
  }

  /** After its first `i` events the log asked for a plan, written to that file. */
  ghost predicate PlansTo(name: string, events: seq<Event>, i: nat, file: string) {
    i <= |events| && CommandOf(events[..i]) == Plan && TargetPlan(name, events[..i]) == file
  }

  /** The file an apply is given is one that some script of the check run writes if and only if the command
      before the apply was a plan. */
  lemma ApplyHasPlan(name: string, events: seq<Event>)
    requires CommandOf(events) == Apply
    ensures (exists i: nat :: PlansTo(name, events, i, TargetPlan(name, events)))
       <==> CommandOf(events[..|events| - 1]) == Plan
  {
    var last := |events| - 1;
    var before := events[..last];
    ApplyUsesPreviousPlan(name, events);
    if CommandOf(before) == Plan {
      assert PlansTo(name, events, last, TargetPlan(name, events));
    } else {
      ApplyUsesPreviousPlan(name, before);
      forall i: nat | PlansTo(name, events, i, TargetPlan(name, events))
        ensures false
      {
        SamePlanFile(name, CurrentIteration(events[..i]), CurrentIteration(before));
        assert events[..|events|] == events && i != |events| && i != last;
        assert before[..last - 1] == events[..i] + events[i..last - 1];
        CurrentIterationGrows(events[..i], events[i..last - 1]);
      }
    }
  }

  lemma SamePlanFile(name: string, i: nat, j: nat)
    requires PlanPath(RunName(name, i)) == PlanPath(RunName(name, j))
    ensures i == j
  {
    PlanPathInjective(RunName(name, i), RunName(name, j));
    RunNameSplit(name, i, name, j);
  }

  /** Events of no consequence for the iteration: GitHub's own notices. */
  ghost predicate Notices(events: seq<Event>) {
    forall e :: e in events ==> !Starts(e)
  }

  /** An iteration asked to apply does apply exactly as long as no later event arrives: a notice received
      after the request leaves the iteration as it is but turns its command into a plan. */
  lemma {:induction false} ApplyOnlyWhileLast(before: seq<Event>, notices: seq<Event>)
    requires Notices(notices)
    ensures CurrentIteration(before + [RequestedAction("apply")] + notices) == CurrentIteration(before) + 1
    ensures CommandOf(before + [RequestedAction("apply")] + notices) == Apply <==> notices == []
  {
    var log := before + [RequestedAction("apply")];
    if notices == [] {
      assert log + notices == log && log[..|log| - 1] == before;
    } else {
      var n := |notices| - 1;
      assert notices[n] in notices;
      assert (log + notices)[..|log + notices| - 1] == log + notices[..n];
      ApplyOnlyWhileLast(before, notices[..n]);
    }
  }

  // ---- names identify -----------------------------------------------------

  lemma Regroup(a: string, b: string, w: string)
    ensures a + "-" + b + "-" + w == a + "-" + (b + "-" + w)
  {
  }

  /** The name of a check run determines check suite, rerequest number and workspace. */
  lemma CheckRunNameInjective(s1: int, r1: int, w1: string, s2: int, r2: int, w2: string)
    requires CheckRunName(s1, r1, w1) == CheckRunName(s2, r2, w2)
    ensures s1 == s2 && r1 == r2 && w1 == w2
  {
    Regroup(Format(s1), Format(r1), w1);
    Regroup(Format(s2), Format(r2), w2);
    FormatSplit(s1, s2, Format(r1) + "-" + w1, Format(r2) + "-" + w2);
    FormatSplit(r1, r2, w1, w2);
  }

  lemma RunNameSplit(n1: string, i1: nat, n2: string, i2: nat)
    requires RunName(n1, i1) == RunName(n2, i2)
    ensures n1 == n2 && i1 == i2
  {
    LastSplit(n1, n2, Decimal(i1), Decimal(i2), '-');
    DecimalInjective(i1, i2);
  }

  /** The run name adds the iteration. */
  lemma RunNameInjective(s1: int, r1: int, w1: string, i1: nat, s2: int, r2: int, w2: string, i2: nat)
    requires RunName(CheckRunName(s1, r1, w1), i1) == RunName(CheckRunName(s2, r2, w2), i2)
    ensures s1 == s2 && r1 == r2 && w1 == w2 && i1 == i2
  {
    RunNameSplit(CheckRunName(s1, r1, w1), i1, CheckRunName(s2, r2, w2), i2);
    CheckRunNameInjective(s1, r1, w1, s2, r2, w2);
  }

  /** No two plans are written to the same file. */
  lemma PlanFilesApart(s1: int, r1: int, w1: string, e1: seq<Event>, s2: int, r2: int, w2: string, e2: seq<Event>)
    requires CommandOf(e1) == Plan && CommandOf(e2) == Plan
    requires TargetPlan(CheckRunName(s1, r1, w1), e1) == TargetPlan(CheckRunName(s2, r2, w2), e2)
    ensures s1 == s2 && r1 == r2 && w1 == w2 && CurrentIteration(e1) == CurrentIteration(e2)
  {
    var n1, n2 := CheckRunName(s1, r1, w1), CheckRunName(s2, r2, w2);
    PlanPathInjective(RunName(n1, CurrentIteration(e1)), RunName(n2, CurrentIteration(e2)));
    RunNameInjective(s1, r1, w1, CurrentIteration(e1), s2, r2, w2, CurrentIteration(e2));
  }

  lemma PlanPathInjective(a: string, b: string)
    requires PlanPath(a) == PlanPath(b)
    ensures a == b
  {
    assert PlanPath(a)[7..] == a && PlanPath(b)[7..] == b;
  }

  // ---- iteration bookkeeping ----------------------------------------------

  ghost predicate IterationsOk(name: string, st: Status) {
    && |st.iterations| <= CurrentIteration(st.events) + 1
    && forall k :: 0 <= k < |st.iterations| ==> st.iterations[k].run == RunName(name, k)
  }

  lemma ReconciledIterations(name: string, st: Status, report: Report, conclusion: Option<Conclusion>)
    requires IterationsOk(name, st)
    ensures var r := Reconciled(name, st, report, conclusion); var n := CurrentIteration(st.events);
      && IterationsOk(name, r) && |r.iterations| == n + 1
      && r.iterations[n].completed == (report == ReportCompleted)
      && (forall k :: 0 <= k < n && k < |st.iterations| ==> r.iterations[k] == st.iterations[k])
      && forall k :: |st.iterations| <= k < n ==> !r.iterations[k].completed
  {
  }

  lemma WithEventIterations(name: string, st: Status, e: Event)
    requires IterationsOk(name, st)
    ensures IterationsOk(name, WithEvent(st, e))
  {
  }
}
