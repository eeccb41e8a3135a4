// The combined queue of a workspace (its active run followed by its queue) as a value:
// what one recomputation does to it, and what any number of them do.
module CombinedQueue {
  import opened Common

  /** Survivors keep their order; newcomers follow in list order. */
  function NextQueue(queue: seq<string>, eligible: seq<string>): seq<string> {
    Inside(queue, Elements(eligible)) + Inside(eligible, Elements(eligible) - Elements(queue))
  }

  function Remove(q: seq<string>, x: string): seq<string> {
    Inside(q, Elements(q) - {x})
  }

  lemma {:induction false} InsideMiddle(a: seq<string>, x: string, b: seq<string>, keep: set<string>)
    requires (forall y :: y in a || y in b ==> y in keep) && x !in keep
    ensures Inside(a + [x] + b, keep) == a + b
  {
    if a == [] {
      assert ([] + [x] + b)[1..] == b;
      InsideAll(b, keep);
    } else {
      assert (a + [x] + b)[1..] == a[1..] + [x] + b;
      InsideMiddle(a[1..], x, b, keep);
    }
  }

  /** Cutting out the only occurrence of an element is the order-keeping removal. */
  lemma RemoveAt(q: seq<string>, j: nat)
    requires Distinct(q) && j < |q|
    ensures q[..j] + q[j + 1..] == Remove(q, q[j])
  {
    assert q == q[..j] + [q[j]] + q[j + 1..];
    InsideMiddle(q[..j], q[j], q[j + 1..], Elements(q) - {q[j]});
  }

  /** `q` with later repetitions dropped. */
  function FirstsOnly(q: seq<string>): seq<string> {
    if q == [] then [] else [q[0]] + Remove(FirstsOnly(q[1..]), q[0])
  }

  lemma {:induction false} FirstsOnlyDistinct(q: seq<string>)
    requires Distinct(q)
    ensures FirstsOnly(q) == q
  {
    if q == [] {
    } else {
      FirstsOnlyDistinct(q[1..]);
      HeadNotInTail(q);
      InsideAll(q[1..], Elements(q[1..]) - {q[0]});
    }
  }

  /** One step of the backwards loop: an old entry that is still eligible moves to the front. */
  lemma MoveToFront(x: string, queue: seq<string>, eligible: seq<string>)
    ensures x !in eligible ==> NextQueue([x] + Remove(queue, x), eligible) == NextQueue(queue, eligible)
    ensures x in eligible ==> NextQueue([x] + Remove(queue, x), eligible) == [x] + Remove(NextQueue(queue, eligible), x)
  {
    PrependToQueue(x, queue, eligible);
    if x in eligible {
      RemoveFromNext(x, queue, eligible);
    } else {
      NotEligible(x, queue, eligible);
    }
  }

  lemma NotEligible(x: string, queue: seq<string>, eligible: seq<string>)
    requires x !in eligible
    ensures NextQueue(queue, eligible)
         == Inside(queue, Elements(eligible) - {x}) + Inside(eligible, Elements(eligible) - Elements(queue) - {x})
  {
    var e := Elements(eligible);
    assert e - {x} == e;
    InsideSame(eligible, e - Elements(queue) - {x}, e - Elements(queue));
  }

  lemma Associative(a: seq<string>, b: seq<string>, c: seq<string>)
    ensures a + b + c == a + (b + c)
  {
  }

  lemma InsidePrepended(x: string, queue: seq<string>, keep: set<string>)
    ensures Inside([x] + Remove(queue, x), keep) == (if x in keep then [x] else []) + Inside(queue, keep - {x})
  {
    assert ([x] + Remove(queue, x))[1..] == Remove(queue, x);
    InsideInside(queue, Elements(queue) - {x}, keep);
    InsideSame(queue, (Elements(queue) - {x}) * keep, keep - {x});
  }

  lemma PrependToQueue(x: string, queue: seq<string>, eligible: seq<string>)
    ensures NextQueue([x] + Remove(queue, x), eligible)
         == (if x in eligible then [x] else [])
            + (Inside(queue, Elements(eligible) - {x}) + Inside(eligible, Elements(eligible) - Elements(queue) - {x}))
  {
    var e := Elements(eligible);
    InsidePrepended(x, queue, e);
    assert e - Elements([x] + Remove(queue, x)) == e - Elements(queue) - {x};
    Associative(if x in e then [x] else [], Inside(queue, e - {x}), Inside(eligible, e - Elements(queue) - {x}));
  }

  lemma RemoveFromNext(x: string, queue: seq<string>, eligible: seq<string>)
    ensures Remove(NextQueue(queue, eligible), x)
         == Inside(queue, Elements(eligible) - {x}) + Inside(eligible, Elements(eligible) - Elements(queue) - {x})
  {
    var e := Elements(eligible);
    var newcomers := e - Elements(queue);
    var keep := Elements(NextQueue(queue, eligible)) - {x};
    InsideConcat(Inside(queue, e), Inside(eligible, newcomers), keep);
    InsideInside(queue, e, keep);
    InsideSame(queue, e * keep, e - {x});
    InsideInside(eligible, newcomers, keep);
    InsideSame(eligible, newcomers * keep, newcomers - {x});
  }

  lemma HeadNotInTail(q: seq<string>)
    requires Distinct(q) && q != []
    ensures q[0] !in q[1..]
  {
  }

  lemma NextQueueDistinct(queue: seq<string>, eligible: seq<string>)
    requires Distinct(queue) && Distinct(eligible)
    ensures Distinct(NextQueue(queue, eligible))
    ensures forall x :: x in NextQueue(queue, eligible) <==> x in eligible
  {
    InsideDistinct(queue, Elements(eligible));
    InsideDistinct(eligible, Elements(eligible) - Elements(queue));
    DistinctConcat(Inside(queue, Elements(eligible)), Inside(eligible, Elements(eligible) - Elements(queue)));
  }

  /** Recomputing against the same runs, listed in any order, changes nothing. */
  lemma NextQueueIdempotent(queue: seq<string>, eligible: seq<string>, relisted: seq<string>)
    requires Elements(relisted) == Elements(eligible)
    ensures NextQueue(NextQueue(queue, eligible), relisted) == NextQueue(queue, eligible)
  {
    var q := NextQueue(queue, eligible);
    assert forall x :: x in eligible ==> x in Elements(relisted);
    assert forall x :: x in relisted ==> x in Elements(eligible);
    InsideAll(q, Elements(relisted));
    InsideNone(relisted, Elements(relisted) - Elements(q));
  }

  /** Nobody is preempted: an eligible head stays the head. */
  lemma HeadStays(queue: seq<string>, eligible: seq<string>)
    requires queue != [] && queue[0] in eligible
    ensures NextQueue(queue, eligible) != [] && NextQueue(queue, eligible)[0] == queue[0]
  {
  }

  // ---- position -----------------------------------------------------------

  ghost predicate Ahead(q: seq<string>, a: string, b: string) {
    exists i, j :: 0 <= i < j < |q| && q[i] == a && q[j] == b
  }

  lemma AheadConcat(p: seq<string>, q: seq<string>, a: string, b: string)
    ensures Ahead(p + q, a, b) <==> Ahead(p, a, b) || Ahead(q, a, b) || (a in p && b in q)
  {
    if Ahead(p, a, b) {
      var i, j :| 0 <= i < j < |p| && p[i] == a && p[j] == b;
      assert (p + q)[i] == a && (p + q)[j] == b;
    }
    if Ahead(q, a, b) {
      var i, j :| 0 <= i < j < |q| && q[i] == a && q[j] == b;
      assert (p + q)[|p| + i] == a && (p + q)[|p| + j] == b;
    }
    if a in p && b in q {
      var i :| 0 <= i < |p| && p[i] == a;
      var j :| 0 <= j < |q| && q[j] == b;
      assert (p + q)[i] == a && (p + q)[|p| + j] == b;
    }
    if Ahead(p + q, a, b) {
      var i, j :| 0 <= i < j < |p + q| && (p + q)[i] == a && (p + q)[j] == b;
      if j < |p| {
        assert p[i] == a && p[j] == b;
      } else if i >= |p| {
        assert q[i - |p|] == a && q[j - |p|] == b;
      } else {
        assert p[i] == a && q[j - |p|] == b;
      }
    }
  }

  /** Filtering keeps relative order, both ways. */
  lemma {:induction false} AheadInside(s: seq<string>, keep: set<string>, a: string, b: string)
    requires a in keep && b in keep
    ensures Ahead(Inside(s, keep), a, b) <==> Ahead(s, a, b)
  {
    if s == [] {
    } else {
      AheadInside(s[1..], keep, a, b);
      assert s == [s[0]] + s[1..];
      AheadConcat([s[0]], s[1..], a, b);
      if s[0] in keep {
        AheadConcat([s[0]], Inside(s[1..], keep), a, b);
      }
    }
  }

  /** Who precedes whom after a recomputation: survivors as before, newcomers after every survivor. */
  lemma AheadNext(queue: seq<string>, eligible: seq<string>, a: string, b: string)
    requires a in queue && a in eligible && b in eligible
    ensures b in queue ==> (Ahead(NextQueue(queue, eligible), a, b) <==> Ahead(queue, a, b))
    ensures b !in queue ==> Ahead(NextQueue(queue, eligible), a, b) && !Ahead(NextQueue(queue, eligible), b, a)
  {
    var e := Elements(eligible);
    var front, back := Inside(queue, e), Inside(eligible, e - Elements(queue));
    AheadConcat(front, back, a, b);
    AheadConcat(front, back, b, a);
    AheadInside(queue, e, a, b);
    assert a !in back;
    assert b !in queue ==> b !in front;
  }

  /** Newcomers stand in the order of the list. */
  lemma NewcomersInOrder(queue: seq<string>, eligible: seq<string>, a: string, b: string)
    requires a in eligible && b in eligible && a !in queue && b !in queue
    ensures Ahead(NextQueue(queue, eligible), a, b) <==> Ahead(eligible, a, b)
  {
    var e := Elements(eligible);
    AheadConcat(Inside(queue, e), Inside(eligible, e - Elements(queue)), a, b);
    AheadInside(eligible, e - Elements(queue), a, b);
    assert a !in Inside(queue, e) && !Ahead(Inside(queue, e), a, b);
  }

  function Position(q: seq<string>, x: string): (k: nat)
    requires x in q
    ensures k < |q| && q[k] == x && x !in q[..k]
  {
    if q[0] == x then 0
    else
      assert q == [q[0]] + q[1..];
      var k := Position(q[1..], x);
      assert q[..k + 1] == [q[0]] + q[1..][..k];
      k + 1
  }

  lemma PositionUnique(q: seq<string>, x: string, k: nat)
    requires k < |q| && q[k] == x && x !in q[..k]
    ensures Position(q, x) == k
  {
  }

  /** The new position of a survivor counts exactly the survivors that were ahead of it. */
  lemma PositionNext(queue: seq<string>, eligible: seq<string>, x: string)
    requires Distinct(queue) && x in queue && x in eligible
    ensures x in NextQueue(queue, eligible)
    ensures NextQueue(queue, eligible)[..Position(NextQueue(queue, eligible), x)]
         == Inside(queue[..Position(queue, x)], Elements(NextQueue(queue, eligible)))
    ensures Position(NextQueue(queue, eligible), x) <= Position(queue, x)
  {
    var e, k := Elements(eligible), Position(queue, x);
    var before, after := queue[..k], queue[k + 1..];
    InsideSplit(queue, k, e);
    var p := Inside(before, e);
    var rest := [x] + Inside(after, e) + Inside(eligible, e - Elements(queue));
    assert NextQueue(queue, eligible) == p + rest;
    PositionSplit(p, rest, x);
    InsideSame(before, e, Elements(p + rest));
  }

  lemma InsideSplit(q: seq<string>, k: nat, keep: set<string>)
    requires k < |q| && q[k] in keep
    ensures Inside(q, keep) == Inside(q[..k], keep) + ([q[k]] + Inside(q[k + 1..], keep))
  {
    assert q == q[..k] + q[k..] && q[k..][1..] == q[k + 1..];
    InsideConcat(q[..k], q[k..], keep);
  }

  lemma PositionSplit(p: seq<string>, rest: seq<string>, x: string)
    requires x !in p && rest != [] && rest[0] == x
    ensures x in p + rest && Position(p + rest, x) == |p| && (p + rest)[..Position(p + rest, x)] == p
  {
    assert (p + rest)[|p|] == x && (p + rest)[..|p|] == p;
    PositionUnique(p + rest, x, |p|);
  }
}
