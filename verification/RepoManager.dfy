// cmd/github/repo_manager.go: local clones shared between handlers, kept for a time after they were last
// asked for, and swept away by a reaper. A lock makes one clone or one sweep a single step.
module RepoManager {
  import opened Common

  /** What a directory holds: a finished clone, or whatever an interrupted clone or removal left. */
  datatype Content = Partial | Complete(url: string, branch: string)

  type Disk = map<string, Content>

  datatype Info = Info(url: string, branch: string, sha: string, path: string, lastCloned: int)

  datatype State = State(cloneDir: string, ttl: int, now: int, managed: map<string, Info>, disk: Disk)

  datatype Outcome = RemoveFailed | MakeDirFailed | GitFailed | Cloned

  /** One managed clone as the reaper comes to it: the clock at that moment, and whether its directory
      could be removed. */
  datatype Visit = Visit(sha: string, time: int, removed: bool)

  datatype Event =
    | Clone(url: string, branch: string, sha: string, time: int, outcome: Outcome)
    | Sweep(visits: seq<Visit>)

  predicate IsSha(sha: string) {
    sha != "" && '/' !in sha && sha != "." && sha != ".."
  }

  function Join(dir: string, sha: string): string {
    dir + "/" + sha
  }

  /** Removing a directory removes what is below it. */
  function RemoveAll(disk: Disk, path: string): Disk {
    map p | p in disk && p != path && !(path + "/" <= p) :: disk[p]
  }

  /** A removal that fails may have got through some of the directory. */
  function Damaged(disk: Disk, path: string): Disk {
    if path in disk then disk[path := Partial] else disk
  }

  function AfterClone(disk: Disk, path: string, url: string, branch: string, outcome: Outcome): Disk {
    match outcome
    case RemoveFailed => Damaged(disk, path)
    case MakeDirFailed => RemoveAll(disk, path)
    case GitFailed => RemoveAll(disk, path)[path := Partial]
    case Cloned => RemoveAll(disk, path)[path := Complete(url, branch)]
  }

  /** What a clone leaves on disk: nothing of what was in its directory, unless that could not be removed; a
      complete clone, a partial one, or none; and everything elsewhere as it was. */
  lemma AfterCloneExact(before: Disk, path: string, url: string, branch: string, outcome: Outcome)
    ensures var disk := AfterClone(before, path, url, branch, outcome);
      && (outcome == Cloned ==> path in disk && disk[path] == Complete(url, branch))
      && (outcome == GitFailed ==> path in disk && disk[path] == Partial)
      && (outcome == MakeDirFailed ==> path !in disk)
      && (outcome == RemoveFailed ==> disk.Keys == before.Keys && (path in disk ==> disk[path] == Partial))
      && (outcome != RemoveFailed ==> forall p :: p in disk ==> !(path + "/" <= p))
      && forall p :: p in before && p != path && !(path + "/" <= p) ==> p in disk && disk[p] == before[p]
  {
  }

  function Fetched(s: State, e: Event): State
    requires e.Clone?
  {
    if e.sha in s.managed then
      s.(now := e.time, managed := s.managed[e.sha := s.managed[e.sha].(lastCloned := e.time)])
    else
      var path := Join(s.cloneDir, e.sha);
      s.(now := e.time,
         managed := if e.outcome == Cloned
                    then s.managed[e.sha := Info(e.url, e.branch, e.sha, path, e.time)] else s.managed,
         disk := AfterClone(s.disk, path, e.url, e.branch, e.outcome))
  }

  predicate Overdue(s: State, sha: string, time: int) {
    sha in s.managed && s.managed[sha].lastCloned + s.ttl < time
  }

  function Visited(s: State, v: Visit): State {
    if Overdue(s, v.sha, v.time) then
      var path := s.managed[v.sha].path;
      s.(now := v.time, managed := s.managed - {v.sha},
         disk := if v.removed then RemoveAll(s.disk, path) else Damaged(s.disk, path))
    else s.(now := v.time)
  }

  function Swept(s: State, visits: seq<Visit>): State {
    if visits == [] then s
    else Visited(Swept(s, visits[..|visits| - 1]), visits[|visits| - 1])
  }

  /** Every managed clone is visited once, in some order, while time passes. */
  ghost predicate Sweeps(s: State, visits: seq<Visit>) {
    && (forall i, j :: 0 <= i < j < |visits| ==> visits[i].sha != visits[j].sha && visits[i].time <= visits[j].time)
    && (forall v :: v in visits ==> s.now <= v.time)
    && forall sha :: sha in s.managed <==> exists v :: v in visits && v.sha == sha
  }

  ghost predicate Enabled(s: State, e: Event) {
    match e
    case Clone(_, _, sha, time, _) => IsSha(sha) && s.now <= time
    case Sweep(visits) => Sweeps(s, visits)
  }

  function Apply(s: State, e: Event): State {
    match e
    case Clone(_, _, _, _, _) => Fetched(s, e)
    case Sweep(visits) => Swept(s, visits)
  }

  ghost predicate Next(s: State, s': State) {
    exists e :: Enabled(s, e) && s' == Apply(s, e)
  }

  ghost predicate StepAt(t: seq<State>, i: nat)
    requires i + 1 < |t|
  {
    Next(t[i], t[i + 1])
  }

  /** The manager starts knowing nothing, whatever an earlier process left on disk. */
  ghost predicate IsTrace(t: seq<State>) {
    && t != [] && t[0].managed == map[]
    && forall i: nat :: i + 1 < |t| ==> StepAt(t, i)
  }

  /** A managed clone is on disk, complete, in the directory of its own sha. */
  ghost predicate OnDisk(s: State, sha: string)
    requires sha in s.managed
  {
    var r := s.managed[sha];
    && r.sha == sha && IsSha(sha)
    && r.path == Join(s.cloneDir, sha)
    && r.path in s.disk && s.disk[r.path] == Complete(r.url, r.branch)
    && r.lastCloned <= s.now
  }

  ghost predicate Agrees(s: State) {
    forall sha :: sha in s.managed ==> OnDisk(s, sha)
  }

  /** Directories of different commits are different and never one inside the other. */
  lemma PathsApart(dir: string, a: string, b: string)
    requires IsSha(a) && IsSha(b) && a != b
    ensures Join(dir, a) != Join(dir, b) && !(Join(dir, a) + "/" <= Join(dir, b))
  {
    var p, q := Join(dir, a), Join(dir, b);
    assert p[|dir| + 1..] == a && q[|dir| + 1..] == b;
    assert forall k :: |dir| < k < |q| ==> q[k] == b[k - |dir| - 1];
    assert (p + "/")[|p|] == '/';
  }

  /** Whatever happens to the directory of one commit leaves the clones of the others alone. */
  lemma OthersKept(s: State, sha: string, disk: Disk, k: string)
    requires Agrees(s) && IsSha(sha) && k in s.managed && k != sha
    requires var path := Join(s.cloneDir, sha);
      forall p :: p in s.disk && p != path && !(path + "/" <= p) ==> p in disk && disk[p] == s.disk[p]
    ensures OnDisk(s.(disk := disk), k)
  {
    assert OnDisk(s, k);
    PathsApart(s.cloneDir, sha, k);
  }

  lemma FetchedAgrees(s: State, e: Event)
    requires Agrees(s) && e.Clone? && Enabled(s, e)
    ensures Agrees(Fetched(s, e))
  {
    var s' := Fetched(s, e);
    forall k | k in s'.managed
      ensures OnDisk(s', k)
    {
      if k in s.managed {
        assert OnDisk(s, k);
        if e.sha !in s.managed {
          OthersKept(s, e.sha, s'.disk, k);
        }
      }
    }
  }

  lemma VisitedAgrees(s: State, v: Visit)
    requires Agrees(s) && s.now <= v.time
    ensures Agrees(Visited(s, v))
  {
    var s' := Visited(s, v);
    forall k | k in s'.managed
      ensures OnDisk(s', k)
    {
      assert OnDisk(s, k);
      if Overdue(s, v.sha, v.time) {
        assert OnDisk(s, v.sha);
        OthersKept(s, v.sha, s'.disk, k);
      }
    }
  }

  ghost predicate Orderly(now: int, visits: seq<Visit>) {
    && (forall i, j :: 0 <= i < j < |visits| ==> visits[i].sha != visits[j].sha && visits[i].time <= visits[j].time)
    && (forall i :: 0 <= i < |visits| ==> now <= visits[i].time)
  }

  /** Exactly the clones overdue when visited are gone, and the rest are untouched. */
  ghost predicate SweptTo(s: State, visits: seq<Visit>, s': State) {
    && Agrees(s')
    && s'.now == (if visits == [] then s.now else visits[|visits| - 1].time)
    && s'.cloneDir == s.cloneDir && s'.ttl == s.ttl
    && (forall k :: k in s'.managed <==> k in s.managed && Spared(s, visits, k))
    && forall k :: k in s'.managed ==> s'.managed[k] == s.managed[k]
  }

  ghost predicate Spared(s: State, visits: seq<Visit>, k: string) {
    forall v :: v in visits && v.sha == k ==> !Overdue(s, k, v.time)
  }

  lemma SparedSnoc(s: State, done: seq<Visit>, last: Visit, k: string)
    ensures Spared(s, done + [last], k) <==> Spared(s, done, k) && (last.sha == k ==> !Overdue(s, k, last.time))
  {
  }

  lemma VisitExact(s: State, done: seq<Visit>, last: Visit, d: State)
    requires Orderly(s.now, done + [last]) && SweptTo(s, done, d)
    ensures SweptTo(s, done + [last], Visited(d, last))
  {
    var all := done + [last];
    assert all[|done|] == last;
    assert done != [] ==> all[|done| - 1] == done[|done| - 1];
    assert d.now <= last.time;
    forall v | v in done
      ensures v.sha != last.sha
    {
      var i :| 0 <= i < |done| && done[i] == v;
      assert all[i] == v;
    }
    VisitedAgrees(d, last);
    forall k
      ensures k in Visited(d, last).managed <==> k in s.managed && Spared(s, all, k)
    {
      SparedSnoc(s, done, last, k);
    }
  }

  /** What a sweep, or the first part of one, does. */
  lemma {:induction false} SweptExact(s: State, visits: seq<Visit>)
    requires Agrees(s) && Orderly(s.now, visits)
    ensures SweptTo(s, visits, Swept(s, visits))
  {
    if visits == [] {
    } else {
      var n := |visits| - 1;
      SweptExact(s, visits[..n]);
      assert visits == visits[..n] + [visits[n]];
      VisitExact(s, visits[..n], visits[n], Swept(s, visits[..n]));
    }
  }

  lemma SweepsOrderly(s: State, visits: seq<Visit>)
    requires Sweeps(s, visits)
    ensures Orderly(s.now, visits)
  {
  }

  lemma SparedBounds(s: State, visits: seq<Visit>, k: string)
    requires Sweeps(s, visits) && k in s.managed
    ensures visits != []
    ensures s.managed[k].lastCloned + s.ttl < s.now ==> !Spared(s, visits, k)
    ensures visits[|visits| - 1].time <= s.managed[k].lastCloned + s.ttl ==> Spared(s, visits, k)
  {
    var v :| v in visits && v.sha == k;
    forall w | w in visits
      ensures w.time <= visits[|visits| - 1].time
    {
      var i :| 0 <= i < |visits| && visits[i] == w;
    }
  }

  /** A sweep ends with no clone that was overdue when the sweep began, and drops none that is not
      overdue when it ends. */
  lemma SweepBounds(s: State, visits: seq<Visit>, k: string)
    requires Agrees(s) && Sweeps(s, visits) && k in s.managed
    ensures s.managed[k].lastCloned + s.ttl < s.now ==> k !in Swept(s, visits).managed
    ensures Swept(s, visits).now <= s.managed[k].lastCloned + s.ttl ==> k in Swept(s, visits).managed
  {
    SweepsOrderly(s, visits);
    SweptExact(s, visits);
    SparedBounds(s, visits, k);
  }

  /** The time of the clone is up when the reaper comes to it. */
  ghost predicate Goes(s: State, v: Visit) {
    v.sha in s.managed && s.managed[v.sha].lastCloned + s.ttl < v.time
  }

  ghost predicate AtOrBelow(p: string, path: string) {
    p == path || path + "/" <= p
  }

  /** A directory the sweep goes for contains the path, and it can be removed. */
  ghost predicate Taken(s: State, visits: seq<Visit>, p: string) {
    exists v :: v in visits && Goes(s, v) && v.removed && AtOrBelow(p, s.managed[v.sha].path)
  }

  ghost predicate Avoided(s: State, visits: seq<Visit>, p: string) {
    forall v :: v in visits && Goes(s, v) ==> !AtOrBelow(p, s.managed[v.sha].path)
  }

  lemma VisitedDisk(d: State, v: Visit, p: string)
    ensures var disk := Visited(d, v).disk;
      && (p in disk ==> p in d.disk)
      && (Goes(d, v) && v.removed && AtOrBelow(p, d.managed[v.sha].path) ==> p !in disk)
      && (p in d.disk && !(Goes(d, v) && AtOrBelow(p, d.managed[v.sha].path)) ==> p in disk && disk[p] == d.disk[p])
  {
  }

  lemma GoesLater(s: State, done: seq<Visit>, last: Visit)
    requires Agrees(s) && Orderly(s.now, done + [last])
    ensures var d := Swept(s, done);
      (Goes(d, last) <==> Goes(s, last)) && (Goes(s, last) ==> d.managed[last.sha] == s.managed[last.sha])
  {
    var all := done + [last];
    assert all[|done|] == last && forall i :: 0 <= i < |done| ==> all[i] == done[i];
    SweptExact(s, done);
    assert Spared(s, done, last.sha);
  }

  /** On disk a sweep makes nothing new, takes away the directories it could remove with all that is below
      them, and leaves alone what is outside the directories it goes for. */
  lemma {:induction false} SweptDisk(s: State, visits: seq<Visit>, p: string)
    requires Agrees(s) && Orderly(s.now, visits)
    ensures p in Swept(s, visits).disk ==> p in s.disk
    ensures Taken(s, visits, p) ==> p !in Swept(s, visits).disk
    ensures p in s.disk && Avoided(s, visits, p) ==>
      p in Swept(s, visits).disk && Swept(s, visits).disk[p] == s.disk[p]
  {
    if visits == [] {
    } else {
      var n := |visits| - 1;
      assert visits == visits[..n] + [visits[n]];
      SweptDisk(s, visits[..n], p);
      GoesLater(s, visits[..n], visits[n]);
      VisitedDisk(Swept(s, visits[..n]), visits[n], p);
    }
  }

  /** So what was overdue before a sweep has left the disk after it, unless its removal failed. */
  lemma SweptLeaves(s: State, visits: seq<Visit>, k: string)
    requires Agrees(s) && Sweeps(s, visits) && k in s.managed && s.managed[k].lastCloned + s.ttl < s.now
    requires forall v :: v in visits && v.sha == k ==> v.removed
    ensures forall p :: p in Swept(s, visits).disk ==> !AtOrBelow(p, s.managed[k].path)
  {
    SweepsOrderly(s, visits);
    var v :| v in visits && v.sha == k;
    assert Goes(s, v);
    forall p | p in Swept(s, visits).disk
      ensures !AtOrBelow(p, s.managed[k].path)
    {
      assert AtOrBelow(p, s.managed[k].path) ==> Taken(s, visits, p);
      SweptDisk(s, visits, p);
    }
  }

  /** The clones whose time is not up at the later moment are there, with at most a renewed lease. */
  ghost predicate Keeps(s: State, s': State) {
    forall k :: k in s.managed && !Overdue(s, k, s'.now) ==>
      && k in s'.managed
      && s.managed[k].lastCloned <= s'.managed[k].lastCloned
      && s'.managed[k] == s.managed[k].(lastCloned := s'.managed[k].lastCloned)
  }

  lemma FetchedKeeps(s: State, e: Event)
    requires Agrees(s) && e.Clone? && Enabled(s, e)
    ensures Keeps(s, Fetched(s, e))
  {
    assert forall k :: k in s.managed ==> OnDisk(s, k);
  }

  lemma SweptKeeps(s: State, visits: seq<Visit>)
    requires Agrees(s) && Sweeps(s, visits)
    ensures Agrees(Swept(s, visits)) && s.now <= Swept(s, visits).now
    ensures Swept(s, visits).ttl == s.ttl && Swept(s, visits).cloneDir == s.cloneDir
    ensures Keeps(s, Swept(s, visits))
  {
    SweepsOrderly(s, visits);
    SweptExact(s, visits);
    forall k | k in s.managed && !Overdue(s, k, Swept(s, visits).now)
      ensures k in Swept(s, visits).managed
    {
      SweepBounds(s, visits, k);
    }
  }

  /** A step keeps the agreement with the disk, and keeps every clone whose time is not up. */
  lemma NextKeeps(s: State, s': State)
    requires Agrees(s) && Next(s, s')
    ensures Agrees(s') && s.now <= s'.now && s'.ttl == s.ttl && s'.cloneDir == s.cloneDir
    ensures Keeps(s, s')
  {
    var e :| Enabled(s, e) && s' == Apply(s, e);
    if e.Clone? {
      FetchedAgrees(s, e);
      FetchedKeeps(s, e);
    } else {
      SweptKeeps(s, e.visits);
    }
  }

  /** In every interleaving of clones and sweeps the record agrees with the disk. */
  lemma {:induction false} TraceAgrees(t: seq<State>, i: nat)
    requires IsTrace(t) && i < |t|
    ensures Agrees(t[i])
    decreases i
  {
    if i == 0 {
    } else {
      TraceAgrees(t, i - 1);
      assert StepAt(t, i - 1);
      NextKeeps(t[i - 1], t[i]);
    }
  }

  /** A clone that was handed out stays on disk, untouched, until its time to live is up. */
  lemma {:induction false} LeaseHonoured(t: seq<State>, i: nat, j: nat, sha: string)
    requires IsTrace(t) && i <= j < |t| && sha in t[i].managed
    requires t[j].now <= t[i].managed[sha].lastCloned + t[i].ttl
    ensures t[i].now <= t[j].now && t[j].ttl == t[i].ttl
    ensures sha in t[j].managed && OnDisk(t[j], sha)
    ensures t[i].managed[sha].lastCloned <= t[j].managed[sha].lastCloned
    ensures t[j].managed[sha] == t[i].managed[sha].(lastCloned := t[j].managed[sha].lastCloned)
    decreases j
  {
    TraceAgrees(t, j);
    if i < j {
      TraceAgrees(t, j - 1);
      assert StepAt(t, j - 1);
      NextKeeps(t[j - 1], t[j]);
      LeaseHonoured(t, i, j - 1, sha);
    }
  }

  /** A successful clone starts a full lease: its directory survives to every later state of the run
      whose clock is at most the time to live past the clone. */
  lemma ClonedLease(t: seq<State>, i: nat, j: nat, e: Event)
    requires IsTrace(t) && i < j < |t|
    requires e.Clone? && Enabled(t[i], e) && t[i + 1] == Apply(t[i], e)
    requires e.sha in t[i].managed || e.outcome == Cloned
    requires t[j].now <= e.time + t[i].ttl
    ensures e.sha in t[j].managed && OnDisk(t[j], e.sha)
    ensures t[j].managed[e.sha].path == t[i + 1].managed[e.sha].path
  {
    LeaseHonoured(t, i + 1, j, e.sha);
  }

  // ---- the manager as an object -------------------------------------------

  class Repo {
    const url: string
    const branch: string
    const sha: string
    const path: string
    var lastCloned: int

    constructor (url: string, branch: string, sha: string, path: string, time: int)
      ensures Value() == Info(url, branch, sha, path, time)
    {
      this.url, this.branch, this.sha, this.path := url, branch, sha, path;
      lastCloned := time;
    }

    function Value(): Info
      reads this
    {
      Info(url, branch, sha, path, lastCloned)
    }
  }

  class Manager {
    const cloneDir: string
    const ttl: int
    var managed: map<string, Repo>
    var disk: Disk

    constructor (cloneDir: string, ttl: int, disk: Disk)
      ensures managed == map[] && this.cloneDir == cloneDir && this.ttl == ttl && this.disk == disk
    {
      this.cloneDir, this.ttl, this.disk := cloneDir, ttl, disk;
      managed := map[];
    }

    function Values(): map<string, Info>
      reads this, managed.Values
    {
      map sha | sha in managed :: managed[sha].Value()
    }

    function At(now: int): State
      reads this, managed.Values
    {
      State(cloneDir, ttl, now, Values(), disk)
    }

    ghost predicate Keyed()
      reads this
    {
      forall sha :: sha in managed ==> managed[sha].sha == sha
    }

    /** Handing out a managed clone puts off its removal; otherwise the commit is cloned afresh. */
    method Clone(url: string, branch: string, sha: string, time: int, outcome: Outcome) returns (repo: Option<Repo>)
      requires Keyed()
      modifies this, managed.Values
      ensures Keyed()
      ensures At(time) == Fetched(old(At(time)), Event.Clone(url, branch, sha, time, outcome))
      ensures repo.Some? <==> sha in managed
      ensures repo.Some? ==> repo.value == managed[sha] && repo.value.lastCloned == time
      ensures sha in old(managed) ==> managed == old(managed) && disk == old(disk)
      ensures forall k :: k in managed ==> (k in old(managed) && managed[k] == old(managed[k])) || fresh(managed[k])
    {
      if sha in managed {
        var r := managed[sha];
        r.lastCloned := time;
        return Some(r);
      }
      repo := DoClone(url, branch, sha, time, outcome);
      if repo.Some? {
        managed := managed[sha := repo.value];
      }
    }

    method DoClone(url: string, branch: string, sha: string, time: int, outcome: Outcome) returns (repo: Option<Repo>)
      modifies this`disk
      ensures disk == AfterClone(old(disk), Join(cloneDir, sha), url, branch, outcome)
      ensures repo.Some? <==> outcome == Cloned
      ensures repo.Some? ==>
        fresh(repo.value) && repo.value.Value() == Info(url, branch, sha, Join(cloneDir, sha), time)
    {
      var path := Join(cloneDir, sha);
      if outcome == RemoveFailed {
        disk := Damaged(disk, path);
        return None;
      }
      disk := RemoveAll(disk, path);
      if outcome == MakeDirFailed {
        return None;
      }
      disk := disk[path := Partial];
      if outcome == GitFailed {
        return None;
      }
      disk := disk[path := Complete(url, branch)];
      var r := new Repo(url, branch, sha, path, time);
      return Some(r);
    }

    /** One tick of the reaper. */
    method Reap(visits: seq<Visit>, ghost now: int)
      requires Keyed()
      requires forall i, j :: 0 <= i < j < |visits| ==> visits[i].sha != visits[j].sha
      requires forall i :: 0 <= i < |visits| ==> visits[i].sha in managed
      modifies this
      ensures Keyed()
      ensures At(if visits == [] then now else visits[|visits| - 1].time) == Swept(old(At(now)), visits)
      ensures forall k :: k in managed ==> k in old(managed) && managed[k] == old(managed[k])
    {
      ghost var before, time := At(now), now;
      for i := 0 to |visits|
        invariant Keyed()
        invariant forall k :: k in managed ==> k in old(managed) && managed[k] == old(managed[k])
        invariant forall j :: i <= j < |visits| ==> visits[j].sha in managed
        invariant time == if i == 0 then now else visits[i - 1].time
        invariant At(time) == Swept(before, visits[..i])
      {
        assert visits[..i + 1][..i] == visits[..i];
        ReapOne(visits[i], time);
        time := visits[i].time;
      }
      assert visits[..|visits|] == visits;
    }

    method ReapOne(v: Visit, ghost now: int)
      requires Keyed() && v.sha in managed
      modifies this
      ensures Keyed()
      ensures forall k :: k in managed ==> k in old(managed) && managed[k] == old(managed[k])
      ensures forall k :: k in old(managed) && k != v.sha ==> k in managed
      ensures At(v.time) == Visited(old(At(now)), v)
    {
      var r := managed[v.sha];
      if r.lastCloned + ttl < v.time {
        disk := if v.removed then RemoveAll(disk, r.path) else Damaged(disk, r.path);
        managed := managed - {r.sha};
      }
    }
  }
}
