// cmd/github/check_run_update.go: what is reported to GitHub about a run.
module CheckRunUpdate {
  import opened Common
  import opened Conditions
  import opened RunLifecycle
  import opened Text
  import opened CheckRun
  import Cluster
  import Timeouts
  import RunOutcomes
  import LivePods
  import LivePodsWitness

  // ---- status and conclusion ----------------------------------------------

  function ReportOf(cs: seq<Condition>): Report {
    if Is(cs, FailedCondition, True) then ReportCompleted
    else
      var complete := Find(cs, CompleteCondition);
      if complete.None? then ReportQueued
      else if complete.value.truth == True then ReportCompleted
      else if complete.value.truth == False && complete.value.reason in {PodPending, PodRunning} then ReportInProgress
      else ReportQueued
  }

  /** Reads the first condition only. */
  function ConclusionOf(cs: seq<Condition>): Option<Conclusion> {
    if ReportOf(cs) != ReportCompleted then None
    else
      var c := cs[0];
      if c.kind == FailedCondition && c.truth == True then
        if c.reason == EnqueueTimeout || c.reason == QueueTimeout then Some(ConcludedTimedOut)
        else Some(ConcludedFailure)
      else if c.kind == CompleteCondition && c.truth == True then
        if c.reason == PodFailed then Some(ConcludedFailure) else Some(ConcludedSuccess)
      else None
  }

  /** A completed report carries a conclusion exactly when the first condition is the true one; every run
      failed by a timeout has its incomplete mark first, so it gets none, and none is ever "timed out". */
  lemma ConclusionOfReachable(t: seq<Cluster.State>, i: nat, n: string)
    requires Cluster.IsTrace(t) && i < |t| && n in t[i].runs
    ensures var cs := t[i].runs[n].status.conditions;
      && (ReportOf(cs) == ReportCompleted <==> IsDone(cs))
      && (IsDone(cs) ==> (ConclusionOf(cs).Some? <==> cs[0].truth == True))
      && (IsDone(cs) && ConclusionOf(cs).None? <==>
            |cs| == 2 && cs[0].kind == CompleteCondition && cs[0].truth == False && Is(cs, FailedCondition, True))
      && ConclusionOf(cs) != Some(ConcludedTimedOut)
  {
    Cluster.TraceInv(t, i);
    var cs := t[i].runs[n].status.conditions;
    ShapeFacts(cs, t[i].now);
    if |cs| == 2 {
      assert cs[1..] == [cs[1]];
    }
  }

  /** Success is concluded exactly of completed runs whose pod succeeded; failure exactly of completed runs
      whose pod failed, and of runs that failed for want of their workspace without ever being marked. */
  lemma ConclusionIsTheVerdict(t: seq<Cluster.State>, i: nat, n: string)
    requires Cluster.IsTrace(t) && i < |t| && n in t[i].runs
    ensures var cs, pods := t[i].runs[n].status.conditions, t[i].pods;
      && (ConclusionOf(cs) == Some(ConcludedSuccess) <==>
            Is(cs, CompleteCondition, True) && n in pods && pods[n].phase == Succeeded)
      && (ConclusionOf(cs) == Some(ConcludedFailure) <==>
            || (Is(cs, CompleteCondition, True) && n in pods && pods[n].phase == Failed)
            || (NeverMarked(t, i, n) && |cs| == 1 && cs[0].kind == FailedCondition && cs[0].truth == True
                && cs[0].reason == WorkspaceNotFound))
  {
    Cluster.TraceInv(t, i);
    RunOutcomes.VerdictIsThePods(t, i, n);
    var cs := t[i].runs[n].status.conditions;
    ShapeFacts(cs, t[i].now);
    if cs != [] && cs[0].kind == FailedCondition {
      Unmarked(t, i, n);
    }
  }

  ghost predicate NeverMarked(t: seq<Cluster.State>, i: nat, n: string) {
    forall j :: 0 <= j <= i && j < |t| && n in t[j].runs ==> !Timeouts.Marked(t[j].runs[n])
  }

  lemma Unmarked(t: seq<Cluster.State>, i: nat, n: string)
    requires Cluster.IsTrace(t) && i < |t| && n in t[i].runs && t[i].runs[n].status.conditions != []
    requires t[i].runs[n].status.conditions[0].kind == FailedCondition
    ensures NeverMarked(t, i, n)
  {
    forall j | 0 <= j <= i && n in t[j].runs
      ensures !Timeouts.Marked(t[j].runs[n])
    {
      if Timeouts.Marked(t[j].runs[n]) {
        Timeouts.MarkKept(t, j, i, n);
      }
    }
  }

  /** A run is reported in progress exactly while its pod was last seen pending or running, and queued while
      it has no condition or any other mark. */
  lemma ReportOfReachable(t: seq<Cluster.State>, i: nat, n: string)
    requires Cluster.IsTrace(t) && i < |t| && n in t[i].runs
    ensures var cs := t[i].runs[n].status.conditions;
      && (ReportOf(cs) == ReportInProgress <==>
            |cs| == 1 && cs[0].truth == False && (cs[0].reason == PodPending || cs[0].reason == PodRunning))
      && (ReportOf(cs) == ReportQueued <==>
            || cs == []
            || (|cs| == 1 && cs[0].truth == False && (cs[0].reason == RunQueued || cs[0].reason == RunUnqueued
                || cs[0].reason == PodCreated || cs[0].reason == PodUnknown)))
  {
    Cluster.TraceInv(t, i);
    ShapeFacts(t[i].runs[n].status.conditions, t[i].now);
  }

  /** A run that failed before it was ever marked would be concluded by the reason of its failure: only the
      two waits count as timeouts. */
  lemma UnmarkedConclusion(reason: Reason, now: int)
    ensures ConclusionOf(Set([], FailedCondition, True, reason, now)) == Some(
      if reason in {EnqueueTimeout, QueueTimeout} then ConcludedTimedOut else ConcludedFailure)
  {
  }

  /** A run failed by a timeout is reported as completed without a conclusion: a reachable state. */
  lemma TimeoutUnreported() returns (t: seq<Cluster.State>)
    ensures Cluster.IsTrace(t) && "a" in t[|t| - 1].runs
    ensures var cs := t[|t| - 1].runs["a"].status.conditions;
      ReportOf(cs) == ReportCompleted && ConclusionOf(cs) == None
  {
    t := LivePodsWitness.TwoUnfinishedPods();
    LivePods.OrderedIsTrace(t);
    var cs := LivePodsWitness.EXPIRED.conditions;
    assert cs[1..] == [cs[1]];
  }

  // ---- the details field --------------------------------------------------

  const START := "```text\n"
  const END := "\n```\n"
  const DEFAULT_MAX_FIELD_SIZE: int := 65535

  function Exceeded(max: int, skipped: int): string {
    "--- exceeded limit of " + Format(max) + " bytes; skipping first " + Format(skipped) + " bytes ---\n"
  }

  /** Where the kept tail begins before looking for a line start. */
  function Cut(logs: string, max: int): int {
    var first := |logs| - max + |START| + |END|;
    first + |Exceeded(max, first)|
  }

  predicate TooLong(logs: string, max: int) {
    |START| + |logs| + |END| > max
  }

  /** Room for the fences and for the message about this log. */
  predicate Room(logs: string, max: int) {
    |START| + |Exceeded(max, |logs| - max + |START| + |END|)| + |END| <= max
  }

  datatype Details = Absent | Panic | Text(text: string)

  // ---- bytes: a character of a log stands for one byte of it -----------------

  /** The number of bytes of the encoded white-space character that `s[i..j]` begins with; 0 if it does
      not begin with one. */
  function SpaceAt(s: string, i: nat, j: nat): (w: nat)
    requires i <= j <= |s|
    ensures i + w <= j
  {
    if i < j && OneByteSpace(s[i] as int) then 1
    else if i + 1 < j && TwoByteSpace(s[i] as int, s[i + 1] as int) then 2
    else if i + 2 < j && ThreeByteSpace(s[i] as int, s[i + 1] as int, s[i + 2] as int) then 3
    else 0
  }

  /** The same of the one it ends with; no encoding is the end of another. */
  function SpaceBefore(s: string, i: nat, j: nat): (w: nat)
    requires i <= j <= |s|
    ensures i + w <= j && (w > 0 ==> SpaceAt(s, j - w, j) == w)
  {
    if i < j && OneByteSpace(s[j - 1] as int) then 1
    else if i + 1 < j && TwoByteSpace(s[j - 2] as int, s[j - 1] as int) then 2
    else if i + 2 < j && ThreeByteSpace(s[j - 3] as int, s[j - 2] as int, s[j - 1] as int) then 3
    else 0
  }

  predicate OneByteSpace(a: int) {
    0x09 <= a <= 0x0D || a == 0x20
  }

  predicate TwoByteSpace(a: int, b: int) {
    a == 0xC2 && (b == 0x85 || b == 0xA0)
  }

  predicate ThreeByteSpace(a: int, b: int, c: int) {
    || (a == 0xE1 && b == 0x9A && c == 0x80)
    || (a == 0xE2 && b == 0x80 && (0x80 <= c <= 0x8A || c == 0xA8 || c == 0xA9 || c == 0xAF))
    || (a == 0xE2 && b == 0x81 && c == 0x9F)
    || (a == 0xE3 && b == 0x80 && c == 0x80)
  }

  function Utf8(n: int): (s: string)
    requires 0 <= n < 0x110000
  {
    if n < 0x80 then [n as char]
    else if n < 0x800 then [(0xC0 + n / 0x40) as char, (0x80 + n % 0x40) as char]
    else if n < 0x10000 then
      [(0xE0 + n / 0x1000) as char, (0x80 + n / 0x40 % 0x40) as char, (0x80 + n % 0x40) as char]
    else
      [(0xF0 + n / 0x40000) as char, (0x80 + n / 0x1000 % 0x40) as char, (0x80 + n / 0x40 % 0x40) as char,
       (0x80 + n % 0x40) as char]
  }

  /** The bytes looked for are the encodings of white space, and of nothing else. */
  lemma SpaceEncoded(c: char, rest: string)
    ensures var s := Utf8(c as int) + rest;
      SpaceAt(s, 0, |s|) == if Space(c) then |Utf8(c as int)| else 0
  {
    var s, n := Utf8(c as int) + rest, c as int;
    assert s[0] == Utf8(n)[0];
    if 0x80 <= n {
      assert s[1] == Utf8(n)[1];
    }
    if 0x800 <= n {
      assert s[2] == Utf8(n)[2];
    }
  }

  /** `s[i..j]` is nothing but encoded white space. */
  predicate Blank(s: string, i: nat, j: nat)
    requires i <= j <= |s|
    decreases j - i
  {
    i == j || (SpaceAt(s, i, j) > 0 && Blank(s, i + SpaceAt(s, i, j), j))
  }

  lemma SpaceLonger(s: string, i: nat, j: nat, k: nat)
    requires i <= j <= k <= |s|
    ensures SpaceAt(s, i, j) > 0 ==> SpaceAt(s, i, k) == SpaceAt(s, i, j)
  {
  }

  lemma {:induction false} BlankJoin(s: string, i: nat, j: nat, k: nat)
    requires i <= j <= k <= |s| && Blank(s, i, j) && Blank(s, j, k)
    ensures Blank(s, i, k)
    decreases j - i
  {
    if i == j {
    } else {
      SpaceLonger(s, i, j, k);
      BlankJoin(s, i + SpaceAt(s, i, j), j, k);
    }
  }

  lemma BlankOne(s: string, i: nat, j: nat)
    requires i <= j <= |s| && SpaceAt(s, i, j) > 0
    ensures Blank(s, i, i + SpaceAt(s, i, j))
  {
  }

  /** What lies around `s[i..j]` is white space, and it neither begins nor ends with any. */
  ghost predicate Stripped(s: string, i: nat, j: nat) {
    && i <= j <= |s| && Blank(s, 0, i) && Blank(s, j, |s|)
    && SpaceAt(s, i, j) == 0 && SpaceBefore(s, i, j) == 0
  }

  method TrimSpace(s: string) returns (i: nat, j: nat)
    ensures Stripped(s, i, j)
  {
    i, j := 0, |s|;
    while SpaceAt(s, i, j) > 0
      invariant i <= j && Blank(s, 0, i)
      decreases j - i
    {
      BlankOne(s, i, j);
      BlankJoin(s, 0, i, i + SpaceAt(s, i, j));
      i := i + SpaceAt(s, i, j);
    }
    while SpaceBefore(s, i, j) > 0
      invariant i <= j <= |s| && Blank(s, j, |s|) && SpaceAt(s, i, j) == 0
      decreases j
    {
      var k := j - SpaceBefore(s, i, j);
      BlankOne(s, k, j);
      BlankJoin(s, k, j, |s|);
      SpaceLonger(s, i, k, j);
      j := k;
    }
  }

  method IndexNewline(s: string) returns (i: int)
    ensures i == -1 <==> '\n' !in s
    ensures i >= 0 ==> i < |s| && s[i] == '\n' && '\n' !in s[..i]
    ensures i >= -1
  {
    for k := 0 to |s|
      invariant '\n' !in s[..k]
    {
      if s[k] == '\n' {
        return k;
      }
      assert s[..k + 1] == s[..k] + [s[k]];
    }
    assert s[..|s|] == s;
    return -1;
  }

  /** Where `s[lo..]` begins and ends without the line breaks around it. */
  method TrimNewlines(s: string, lo: nat) returns (i: nat, j: nat)
    requires lo <= |s|
    ensures lo <= i <= j <= |s|
    ensures forall k :: lo <= k < i || j <= k < |s| ==> s[k] == '\n'
    ensures i < j ==> s[i] != '\n' && s[j - 1] != '\n'
  {
    i, j := lo, |s|;
    while i < j && s[i] == '\n'
      invariant lo <= i <= j
      invariant forall k :: lo <= k < i ==> s[k] == '\n'
    {
      i := i + 1;
    }
    while i < j && s[j - 1] == '\n'
      invariant i <= j <= |s|
      invariant forall k :: j <= k < |s| ==> s[k] == '\n'
      invariant i < j ==> s[i] != '\n'
    {
      j := j - 1;
    }
  }

  /** `logs[i..j]` is a fair account of the tail from `cut`: it starts on a fresh line if the tail has a
      line break, drops nothing before that but the broken line, and at its end nothing but line breaks. */
  ghost predicate FairTail(logs: string, cut: nat, i: nat, j: nat) {
    && cut <= i <= j <= |logs|
    && ('\n' in logs[cut..] ==> 0 < i && logs[i - 1] == '\n')
    && (forall k :: cut <= k < i && logs[k] != '\n' ==> '\n' !in logs[cut..k])
    && ('\n' !in logs[cut..] ==> i == cut)
    && (forall k :: j <= k < |logs| ==> logs[k] == '\n')
    && (i < j ==> logs[i] != '\n' && logs[j - 1] != '\n')
  }

  /** The tail is as long as the limit allows: up to the cut the text would fill the field exactly. */
  lemma CutFills(logs: string, max: int)
    requires TooLong(logs, max) && Room(logs, max)
    ensures 0 <= Cut(logs, max) <= |logs|
    ensures |START + Exceeded(max, |logs| - max + |START| + |END|) + logs[Cut(logs, max)..] + END| == max
  {
  }

  /** `failed` says that the run never got as far as producing output. */
  method MakeDetails(logs: string, failed: bool, max: int) returns (d: Details)
    ensures d == Absent <==> failed || logs == ""
    ensures d == Panic <==>
      && !failed && logs != "" && |START + logs + END| > max
      && |START + Exceeded(max, |logs| - max + |START| + |END|) + END| > max
    ensures d.Text? ==> |d.text| <= max
    ensures d.Text? && |START + logs + END| <= max ==>
      exists i: nat, j: nat :: Stripped(logs, i, j) && d.text == START + logs[i..j] + END
    ensures d.Text? && |START + logs + END| > max ==>
      0 < Cut(logs, max) <= |logs| &&
      exists i: nat, j: nat :: FairTail(logs, Cut(logs, max), i, j)
        && d.text == START + Exceeded(max, |logs| - max + |START| + |END|) + logs[i..j] + END
  {
    if failed || |logs| == 0 {
      return Absent;
    }
    if |START| + |logs| + |END| <= max {
      var i, j := TrimSpace(logs);
      return Text(START + logs[i..j] + END);
    }
    var start := |logs| - max;
    start := start + |START|;
    start := start + |END|;
    var exceeded := Exceeded(max, start);
    start := start + |exceeded|;
    if start > |logs| {
      return Panic;
    }
    ghost var cut := start;
    var n := IndexNewline(logs[start..]);
    if n > -1 {
      start := start + n + 1;
    }
    var i, j := TrimNewlines(logs, start);
    FairAfterTrim(logs, cut, n, start, i, j);
    return Text(START + exceeded + logs[i..j] + END);
  }

  lemma FairAfterTrim(logs: string, cut: nat, n: int, start: nat, i: nat, j: nat)
    requires cut <= start <= i <= j <= |logs|
    requires n >= -1 && (n == -1 <==> '\n' !in logs[cut..])
    requires n >= 0 ==> n < |logs| - cut && logs[cut..][n] == '\n' && '\n' !in logs[cut..][..n]
    requires start == if n >= 0 then cut + n + 1 else cut
    requires forall k :: start <= k < i || j <= k < |logs| ==> logs[k] == '\n'
    requires i < j ==> logs[i] != '\n' && logs[j - 1] != '\n'
    ensures FairTail(logs, cut, i, j)
  {
    assert cut < |logs| ==> logs[cut] == logs[cut..][0] && logs[cut] in logs[cut..];
    if n >= 0 {
      assert logs[cut + n] == '\n';
      forall k | cut <= k < i && logs[k] != '\n'
        ensures '\n' !in logs[cut..k]
      {
        assert k < cut + n;
        assert logs[cut..k] == logs[cut..][..n][..k - cut];
      }
    }
  }

  /** GitHub's own limit leaves room for every log a 64-bit machine can hold. */
  lemma DefaultLimitHasRoom(logs: string)
    requires |logs| < 0x8000_0000_0000_0000 && TooLong(logs, DEFAULT_MAX_FIELD_SIZE)
    ensures Room(logs, DEFAULT_MAX_FIELD_SIZE)
  {
    var skipped := |logs| - DEFAULT_MAX_FIELD_SIZE + |START| + |END|;
    Pow19();
    DecimalLength(skipped, 19);
    assert Pow10(5) == 100000 by { Pow5(); }
    DecimalLength(DEFAULT_MAX_FIELD_SIZE, 5);
  }

  lemma Pow5()
    ensures Pow10(5) == 100000
  {
  }

  lemma Pow19()
    ensures Pow10(19) == 10_000_000_000_000_000_000
  {
    Pow5();
    assert Pow10(6) == 1_000_000 && Pow10(7) == 10_000_000 && Pow10(8) == 100_000_000;
    assert Pow10(9) == 1_000_000_000 && Pow10(10) == 10_000_000_000 && Pow10(11) == 100_000_000_000;
    assert Pow10(12) == 1_000_000_000_000 && Pow10(13) == 10_000_000_000_000 && Pow10(14) == 100_000_000_000_000;
    assert Pow10(15) == 1_000_000_000_000_000 && Pow10(16) == 10_000_000_000_000_000;
    assert Pow10(17) == 100_000_000_000_000_000 && Pow10(18) == 1_000_000_000_000_000_000;
  }
}
