// Status conditions of a run, and the library call that updates them in place:
// a new kind is appended, and the transition time moves only when the truth value changes. Times are in
// nanoseconds; a transition time is stored in whole seconds.
module Conditions {
  import opened Common

  datatype Kind = CompleteCondition | FailedCondition
  datatype Truth = True | False | Unknown
  datatype Reason =
    | PodCreated | PodPending | PodUnknown | PodSucceeded | PodFailed | PodRunning
    | RunQueued | RunUnqueued
    | EnqueueTimeout | QueueTimeout | PodPendingTimeout | WorkspaceNotFound

  const SECOND: int := 1_000_000_000

  /** A time as it is stored. */
  function Stamp(time: int): int {
    time - time % SECOND
  }

  /** Storing loses less than a second, and keeps the order with whole seconds. */
  lemma StampFacts(time: int, mark: int)
    ensures Stamp(time) <= time < Stamp(time) + SECOND && Stamp(Stamp(time)) == Stamp(time)
    ensures Stamp(mark) == mark ==> (mark <= time <==> mark <= Stamp(time))
  {
  }

  datatype Condition = Condition(kind: Kind, truth: Truth, reason: Reason, since: int)

  function Find(cs: seq<Condition>, kind: Kind): (r: Option<Condition>)
    ensures r.Some? ==> r.value in cs && r.value.kind == kind
    ensures r.None? ==> forall c :: c in cs ==> c.kind != kind
  {
    if cs == [] then None
    else if cs[0].kind == kind then Some(cs[0])
    else Find(cs[1..], kind)
  }

  predicate Is(cs: seq<Condition>, kind: Kind, truth: Truth) {
    var c := Find(cs, kind);
    c.Some? && c.value.truth == truth
  }

  function Set(cs: seq<Condition>, kind: Kind, truth: Truth, reason: Reason, now: int): (r: seq<Condition>)
    ensures Find(r, kind).Some?
    ensures Find(r, kind).value.truth == truth && Find(r, kind).value.reason == reason
    ensures Find(r, kind).value.since == (if Is(cs, kind, truth) then Find(cs, kind).value.since else Stamp(now))
  {
    if cs == [] then [Condition(kind, truth, reason, Stamp(now))]
    else if cs[0].kind == kind then
      [Condition(kind, truth, reason, if cs[0].truth == truth then cs[0].since else Stamp(now))] + cs[1..]
    else [cs[0]] + Set(cs[1..], kind, truth, reason, now)
  }

  /** A run has either completed or failed. */
  predicate IsDone(cs: seq<Condition>) {
    exists i :: 0 <= i < |cs| && cs[i].truth == True
  }

  /** Setting a condition of one kind leaves those of other kinds as they are, and the order of kinds too. */
  lemma {:induction false} SetOthers(cs: seq<Condition>, kind: Kind, truth: Truth, reason: Reason, now: int)
    ensures var r := Set(cs, kind, truth, reason, now);
      && |r| == |cs| + (if Find(cs, kind).None? then 1 else 0)
      && (forall i :: 0 <= i < |cs| ==> r[i].kind == cs[i].kind && (cs[i].kind != kind ==> r[i] == cs[i]))
      && forall k :: k != kind ==> Find(r, k) == Find(cs, k)
  {
    if cs == [] {
    } else if cs[0].kind == kind {
      assert Set(cs, kind, truth, reason, now)[1..] == cs[1..];
    } else {
      SetOthers(cs[1..], kind, truth, reason, now);
      assert Set(cs, kind, truth, reason, now)[1..] == Set(cs[1..], kind, truth, reason, now);
    }
  }
}
