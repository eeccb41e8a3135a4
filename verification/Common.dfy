// Shared vocabulary: options, sequences without repetition, order-keeping filters.
module Common {
  datatype Option<+T> = None | Some(value: T)

  ghost predicate Distinct<T>(s: seq<T>) {
    forall i, j :: 0 <= i < j < |s| ==> s[i] != s[j]
  }

  function Elements<T>(s: seq<T>): set<T> {
    set x | x in s
  }

  /** The elements of `s` that belong to `keep`, in the order of `s`. */
  function Inside<T(==,!new)>(s: seq<T>, keep: set<T>): (r: seq<T>)
    ensures forall x :: x in r <==> x in s && x in keep
    ensures |r| <= |s|
  {
    if s == [] then []
    else if s[0] in keep then [s[0]] + Inside(s[1..], keep)
    else Inside(s[1..], keep)
  }

  lemma {:induction false} InsideConcat<T(!new)>(a: seq<T>, b: seq<T>, keep: set<T>)
    ensures Inside(a + b, keep) == Inside(a, keep) + Inside(b, keep)
  {
    if a == [] {
      assert a + b == b;
    } else {
      assert (a + b)[1..] == a[1..] + b;
      InsideConcat(a[1..], b, keep);
    }
  }

  lemma {:induction false} InsideInside<T(!new)>(s: seq<T>, k1: set<T>, k2: set<T>)
    ensures Inside(Inside(s, k1), k2) == Inside(s, k1 * k2)
  {
    if s == [] {
    } else {
      InsideInside(s[1..], k1, k2);
    }
  }

  lemma {:induction false} InsideAll<T(!new)>(s: seq<T>, keep: set<T>)
    requires forall x :: x in s ==> x in keep
    ensures Inside(s, keep) == s
  {
    if s == [] {
    } else {
      InsideAll(s[1..], keep);
    }
  }

  lemma {:induction false} InsideNone<T(!new)>(s: seq<T>, keep: set<T>)
    requires forall x :: x in s ==> x !in keep
    ensures Inside(s, keep) == []
  {
    if s == [] {
    } else {
      InsideNone(s[1..], keep);
    }
  }

  /** Only membership of the elements of `s` matters. */
  lemma {:induction false} InsideSame<T(!new)>(s: seq<T>, k1: set<T>, k2: set<T>)
    requires forall x :: x in s ==> (x in k1 <==> x in k2)
    ensures Inside(s, k1) == Inside(s, k2)
  {
    if s == [] {
    } else {
      InsideSame(s[1..], k1, k2);
    }
  }

  lemma {:induction false} InsideDistinct<T(!new)>(s: seq<T>, keep: set<T>)
    requires Distinct(s)
    ensures Distinct(Inside(s, keep))
  {
    if s == [] {
    } else {
      InsideDistinct(s[1..], keep);
    }
  }

  lemma DistinctConcat<T(!new)>(a: seq<T>, b: seq<T>)
    requires Distinct(a) && Distinct(b)
    requires forall x :: x in a ==> x !in b
    ensures Distinct(a + b)
  {
    forall i, j | 0 <= i < j < |a + b|
      ensures (a + b)[i] != (a + b)[j]
    {
      if i < |a| <= j {
        assert a[i] in a && b[j - |a|] in b;
      }
    }
  }
}
