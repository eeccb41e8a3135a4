// pkg/util/path/path.go: dropping nested paths, where nested means having another path as string prefix.
module Paths {
  import opened Common

  /** The paths that no other path of the list is a proper prefix of. */
  function Minimal(ps: seq<string>): set<string> {
    set p | p in ps && forall q :: q in ps ==> !(q < p)
  }

  function Unnested(ps: seq<string>): seq<string> {
    Inside(ps, Minimal(ps))
  }

  /** No kept path is a proper prefix of another. */
  ghost predicate Antichain(ps: seq<string>) {
    forall p, q :: p in ps && q in ps ==> !(p < q)
  }

  ghost predicate HasProperPrefix(c: string, paths: seq<string>) {
    exists p :: p in paths && p < c
  }

  /** The kept paths that do not have `c` as prefix. */
  function Apart(c: string, paths: seq<string>): seq<string> {
    Inside(paths, ApartSet(c, paths))
  }

  function ApartSet(c: string, paths: seq<string>): set<string> {
    set p | p in paths && !(c <= p)
  }

  ghost function Updated(c: string, paths: seq<string>): seq<string> {
    if c in paths then paths + [c]
    else if HasProperPrefix(c, paths) then paths
    else Apart(c, paths) + [c]
  }

  lemma ApartSnoc(c: string, paths: seq<string>, p: string)
    ensures Apart(c, paths + [p]) == Apart(c, paths) + (if c <= p then [] else [p])
  {
    InsideConcat(paths, [p], ApartSet(c, paths + [p]));
    InsideSame(paths, ApartSet(c, paths + [p]), ApartSet(c, paths));
  }

  lemma NestedUpdate(c: string, paths: seq<string>, p: string)
    requires Antichain(paths) && p in paths && p < c
    ensures Updated(c, paths) == paths
  {
  }

  lemma FreeUpdate(c: string, paths: seq<string>)
    requires forall p :: p in paths ==> !(p <= c)
    ensures Updated(c, paths) == Apart(c, paths) + [c]
  {
  }

  method UpdateUnnested(c: string, paths: seq<string>) returns (updated: seq<string>)
    requires Antichain(paths)
    ensures updated == Updated(c, paths)
  {
    updated := [];
    for i := 0 to |paths|
      invariant updated == Apart(c, paths[..i])
      invariant forall p :: p in paths[..i] ==> !(p <= c)
    {
      var p := paths[i];
      assert paths[..i + 1] == paths[..i] + [p];
      ApartSnoc(c, paths[..i], p);
      if c == p {
        return paths + [p];
      }
      if p <= c {
        NestedUpdate(c, paths, p);
        return paths;
      }
      if c <= p {
        continue;
      }
      updated := updated + [p];
    }
    assert paths[..|paths|] == paths;
    FreeUpdate(c, paths);
    updated := updated + [c];
  }

  method RemoveNestedPaths(paths: seq<string>) returns (unnested: seq<string>)
    ensures unnested == Unnested(paths)
  {
    unnested := [];
    for i := 0 to |paths|
      invariant unnested == Unnested(paths[..i])
    {
      assert paths[..i + 1] == paths[..i] + [paths[i]];
      UnnestedAntichain(paths[..i]);
      unnested := UpdateUnnested(paths[i], unnested);
      AddPath(paths[..i], paths[i]);
    }
    assert paths[..|paths|] == paths;
  }

  lemma UnnestedAntichain(ps: seq<string>)
    ensures Antichain(Unnested(ps))
  {
  }

  /** Below every path of the list lies a minimal one. */
  lemma {:induction false} HasMinimal(ps: seq<string>, p: string) returns (k: string)
    requires p in ps
    ensures k in Unnested(ps) && k <= p
    decreases |p|
  {
    if q :| q in ps && q < p {
      k := HasMinimal(ps, q);
    } else {
      k := p;
    }
  }

  /** Looking only at the kept paths is enough to place a new one, because below every path seen so far
      lies a kept one. */
  lemma AddPath(ps: seq<string>, c: string)
    ensures Unnested(ps + [c]) == Updated(c, Unnested(ps))
  {
    InsideConcat(ps, [c], Minimal(ps + [c]));
    MinimalSnoc(ps, c, c);
    if HasProperPrefix(c, ps) {
      AddNested(ps, c);
    } else if c in ps {
      assert c in Unnested(ps);
      forall p | p in ps
        ensures p in Minimal(ps + [c]) <==> p in Minimal(ps)
      {
        MinimalSnoc(ps, c, p);
      }
      InsideSame(ps, Minimal(ps + [c]), Minimal(ps));
    } else {
      AddFree(ps, c);
    }
  }

  lemma MinimalSnoc(ps: seq<string>, c: string, p: string)
    ensures p in Minimal(ps + [c]) <==> (p in ps || p == c) && !HasProperPrefix(p, ps) && !(c < p)
  {
    var all := ps + [c];
    assert forall q :: q in all <==> q in ps || q == c;
    if p in Minimal(all) {
      assert c in all;
      forall q | q in ps ensures !(q < p) { assert q in all; }
    }
    if (p in ps || p == c) && !HasProperPrefix(p, ps) && !(c < p) {
      forall q | q in all ensures !(q < p) { assert q in ps || q == c; }
      assert p in all;
    }
  }

  lemma AddNested(ps: seq<string>, c: string)
    requires HasProperPrefix(c, ps)
    ensures HasProperPrefix(c, Unnested(ps)) && c !in Unnested(ps)
    ensures Inside(ps, Minimal(ps + [c])) == Unnested(ps)
  {
    var q :| q in ps && q < c;
    var k := HasMinimal(ps, q);
    assert k in Unnested(ps) && k < c;
    forall p | p in ps
      ensures p in Minimal(ps + [c]) <==> p in Minimal(ps)
    {
      MinimalSnoc(ps, c, p);
      assert c < p ==> q < p;
    }
    InsideSame(ps, Minimal(ps + [c]), Minimal(ps));
  }

  lemma AddFree(ps: seq<string>, c: string)
    requires !HasProperPrefix(c, ps) && c !in ps
    ensures c !in Unnested(ps) && !HasProperPrefix(c, Unnested(ps))
    ensures Inside(ps, Minimal(ps + [c])) == Apart(c, Unnested(ps))
  {
    var kept := Unnested(ps);
    var apart := set p | p in kept && !(c <= p);
    InsideInside(ps, Minimal(ps), apart);
    forall p | p in ps
      ensures p in Minimal(ps + [c]) <==> p in Minimal(ps) * apart
    {
      MinimalSnoc(ps, c, p);
      assert c <= p && |c| == |p| ==> c == p;
    }
    InsideSame(ps, Minimal(ps + [c]), Minimal(ps) * apart);
  }

  /** The result is an antichain of inputs that has a prefix of every input. */
  lemma RemoveNestedMeaning(ps: seq<string>, p: string)
    ensures Antichain(Unnested(ps))
    ensures p in Unnested(ps) <==> p in ps && forall q :: q in ps && q <= p ==> q == p
    ensures p in ps ==> exists k :: k in Unnested(ps) && k <= p
  {
    UnnestedAntichain(ps);
    if p in ps {
      var k := HasMinimal(ps, p);
    }
  }

  /** Every path is kept as often as it was given, or not at all. */
  lemma {:induction false} InsideCounts(ps: seq<string>, keep: set<string>, p: string)
    ensures multiset(Inside(ps, keep))[p] == if p in keep then multiset(ps)[p] else 0
  {
    if ps == [] {
    } else {
      InsideCounts(ps[1..], keep, p);
      assert ps == [ps[0]] + ps[1..];
    }
  }

  lemma RemoveNestedCounts(ps: seq<string>, p: string)
    ensures multiset(Unnested(ps))[p]
         == if p in ps && (forall q :: q in ps && q <= p ==> q == p) then multiset(ps)[p] else 0
  {
    InsideCounts(ps, Minimal(ps), p);
  }
}
