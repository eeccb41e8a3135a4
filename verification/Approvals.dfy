// Approval annotations: key encoding (run_types.go), the approval test (workspace_types.go)
// and pruning (workspace_controller.go).
module Approvals {
  import opened Common
  import opened RunLifecycle

  const PREFIX := "approvals.etok.dev"

  function Key(run: string): string {
    PREFIX + "/" + run
  }

  /** The text before the first slash. */
  function BeforeSlash(s: string): (r: string)
    ensures '/' !in r && r <= s
    ensures |r| < |s| ==> s[|r|] == '/'
  {
    if s == [] || s[0] == '/' then [] else [s[0]] + BeforeSlash(s[1..])
  }

  /** Second component of a key split at slashes; None where indexing the split would fail. */
  function RunFromKey(key: string): Option<string> {
    var first := BeforeSlash(key);
    if first == key then None else Some(BeforeSlash(key[|first| + 1..]))
  }

  lemma {:induction false} BeforeSlashUnique(p: string, rest: string)
    requires '/' !in p
    ensures BeforeSlash(p + "/" + rest) == p
  {
    if p == [] {
    } else {
      BeforeSlashUnique(p[1..], rest);
      assert (p + "/" + rest)[1..] == p[1..] + "/" + rest;
    }
  }

  lemma BeforeSlashAll(s: string)
    ensures BeforeSlash(s) == s <==> '/' !in s
  {
  }

  /** Decoding undoes encoding for exactly the names without a slash. */
  lemma KeyRoundTrip(run: string)
    ensures RunFromKey(Key(run)) == Some(run) <==> '/' !in run
  {
    BeforeSlashUnique(PREFIX, run);
    assert Key(run)[|PREFIX| + 1..] == run;
    assert |BeforeSlash(Key(run))| < |Key(run)|;
    BeforeSlashAll(run);
  }

  predicate IsApproved(annotations: map<string, string>, run: string) {
    Key(run) in annotations && annotations[Key(run)] == "approved"
  }

  /** An approval of a run that is gone or whose phase says completed. */
  predicate Stale(key: string, runs: map<string, Run>) {
    PREFIX <= key && RunFromKey(key).Some? &&
    var run := RunFromKey(key).value;
    run !in runs || runs[run].status.phase == PhaseCompleted
  }

  predicate Malformed(key: string) {
    PREFIX <= key && RunFromKey(key).None?
  }

  function Pruned(annotations: map<string, string>, runs: map<string, Run>): map<string, string> {
    map k | k in annotations && !Stale(k, runs) :: annotations[k]
  }

  /** Only a key under the prefix that has no slash at all names no run. */
  lemma MalformedExact(key: string)
    ensures Malformed(key) <==> PREFIX <= key && '/' !in key
  {
    BeforeSlashAll(key);
  }

  /** A key with the prefix in its first component names the run in its second. */
  lemma KeyParts(first: string, run: string, rest: string)
    requires '/' !in first && '/' !in run && (rest == "" || rest[0] == '/')
    ensures RunFromKey(first + "/" + (run + rest)) == Some(run)
  {
    var key := first + "/" + (run + rest);
    BeforeSlashUnique(first, run + rest);
    assert key[|first| + 1..] == run + rest;
    if rest == "" {
      assert run + rest == run;
      BeforeSlashAll(run);
    } else {
      assert run + rest == run + "/" + rest[1..];
      BeforeSlashUnique(run, rest[1..]);
    }
  }

  /** Exactly the approvals of runs that exist and are not completed stay, and everything else under the
      prefix goes; what is not under the prefix is not touched, and no value changes. */
  lemma PrunedExact(
      annotations: map<string, string>, runs: map<string, Run>, first: string, run: string, rest: string)
    requires '/' !in first && '/' !in run && (rest == "" || rest[0] == '/') && PREFIX <= first
    ensures var key := first + "/" + (run + rest);
      key in Pruned(annotations, runs) <==>
        key in annotations && run in runs && runs[run].status.phase != PhaseCompleted
    ensures forall k :: k in annotations && !(PREFIX <= k) ==> k in Pruned(annotations, runs)
    ensures forall k :: k in Pruned(annotations, runs) ==>
      k in annotations && Pruned(annotations, runs)[k] == annotations[k]
  {
    KeyParts(first, run, rest);
  }

  /** None stands for the panic on a prefixed key without a slash. */
  method PruneApprovals(annotations: map<string, string>, runs: map<string, Run>)
    returns (pruned: Option<map<string, string>>)
    ensures pruned.None? <==> exists k :: k in annotations && Malformed(k)
    ensures pruned.Some? ==> pruned.value == Pruned(annotations, runs)
  {
    var left := annotations;
    var todo := annotations.Keys;
    while todo != {}
      invariant todo <= annotations.Keys
      invariant forall k :: k in annotations && k !in todo ==> !Malformed(k)
      invariant left == map k | k in annotations && (k in todo || !Stale(k, runs)) :: annotations[k]
    {
      var k :| k in todo;
      todo := todo - {k};
      if PREFIX <= k {
        var run := RunFromKey(k);
        if run.None? {
          return None;
        }
        if run.value !in runs {
          left := left - {k};
        } else if runs[run.value].status.phase == PhaseCompleted {
          left := left - {k};
        }
      }
    }
    return Some(left);
  }

  /** Pruning spares every approval of a run that is present and not completed. */
  lemma PruningSpares(annotations: map<string, string>, runs: map<string, Run>, run: string)
    requires '/' !in run && run in runs && runs[run].status.phase != PhaseCompleted
    ensures IsApproved(Pruned(annotations, runs), run) <==> IsApproved(annotations, run)
  {
    KeyRoundTrip(run);
  }
}
