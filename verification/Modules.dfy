// pkg/archive/modwalker.go: the local modules called from a root module, directly or indirectly.
module Modules {
  import opened Common

  /** A call's source and the directory it names relative to the caller. */
  datatype Call = Call(source: string, dir: string)
  datatype Module = Module(calls: seq<Call>)

  /** The modules that load; every other directory fails to. */
  type Tree = map<string, Module>

  predicate IsLocalPath(source: string) {
    "./" <= source || "../" <= source
  }

  ghost predicate Edge(tree: Tree, a: string, b: string) {
    a in tree &&
    exists i :: 0 <= i < |tree[a].calls| && IsLocalPath(tree[a].calls[i].source) && tree[a].calls[i].dir == b
  }

  /** Local is a source that starts with a dot or two and a slash, and nothing else. */
  lemma EdgeExact(tree: Tree, a: string, b: string)
    ensures Edge(tree, a, b) <==>
      a in tree && exists i, rest :: 0 <= i < |tree[a].calls| && LocalCall(tree[a].calls[i], rest, b)
  {
    if a in tree {
      forall i, rest | 0 <= i < |tree[a].calls| && LocalCall(tree[a].calls[i], rest, b)
        ensures Edge(tree, a, b)
      {
        assert IsLocalPath(tree[a].calls[i].source);
      }
      if Edge(tree, a, b) {
        var i :| 0 <= i < |tree[a].calls| && IsLocalPath(tree[a].calls[i].source) && tree[a].calls[i].dir == b;
        var source := tree[a].calls[i].source;
        assert source == source[..2] + source[2..] && (|source| > 2 ==> source == source[..3] + source[3..]);
        assert LocalCall(tree[a].calls[i], source[if "./" <= source then 2 else 3..], b);
      }
    }
  }

  ghost predicate LocalCall(c: Call, rest: string, dir: string) {
    (c.source == "./" + rest || c.source == "../" + rest) && c.dir == dir
  }

  ghost predicate Chain(tree: Tree, p: seq<string>) {
    p != [] && forall i :: 0 < i < |p| ==> Edge(tree, p[i - 1], p[i])
  }

  ghost predicate Connects(tree: Tree, p: seq<string>, a: string, b: string) {
    |p| > 1 && Chain(tree, p) && p[0] == a && p[|p| - 1] == b
  }

  /** By one or more local calls. */
  ghost predicate Reaches(tree: Tree, a: string, b: string) {
    exists p :: Connects(tree, p, a, b)
  }

  ghost predicate NoCycleFrom(tree: Tree, root: string) {
    forall a :: a == root || Reaches(tree, root, a) ==> !Reaches(tree, a, a)
  }

  lemma EdgeReaches(tree: Tree, a: string, b: string)
    requires Edge(tree, a, b)
    ensures Reaches(tree, a, b)
  {
    assert Connects(tree, [a, b], a, b);
  }

  lemma ReachesTransitive(tree: Tree, a: string, b: string, c: string)
    requires Reaches(tree, a, b) && Reaches(tree, b, c)
    ensures Reaches(tree, a, c)
  {
    var p :| Connects(tree, p, a, b);
    var q :| Connects(tree, q, b, c);
    var r := p + q[1..];
    forall i | 0 < i < |r|
      ensures Edge(tree, r[i - 1], r[i])
    {
      if i >= |p| {
        assert r[i] == q[i - |p| + 1];
        assert r[i - 1] == q[i - |p|];
      }
    }
    assert Connects(tree, r, a, c);
  }

  /** Reaching something means calling a module and then being there or reaching it. */
  lemma FirstCall(tree: Tree, a: string, b: string)
    ensures Reaches(tree, a, b) <==> exists c :: Edge(tree, a, c) && (c == b || Reaches(tree, c, b))
  {
    if Reaches(tree, a, b) {
      var p :| Connects(tree, p, a, b);
      assert Edge(tree, p[0], p[1]);
      if |p| > 2 {
        assert forall i :: 0 < i < |p| - 1 ==> p[1..][i - 1] == p[i] && p[1..][i] == p[i + 1];
        assert Connects(tree, p[1..], p[1], b);
      }
    }
    forall c | Edge(tree, a, c) && (c == b || Reaches(tree, c, b))
      ensures Reaches(tree, a, b)
    {
      EdgeReaches(tree, a, c);
      if c != b {
        ReachesTransitive(tree, a, c, b);
      }
    }
  }

  lemma ChainReaches(tree: Tree, p: seq<string>, i: nat, j: nat)
    requires Chain(tree, p) && i < j < |p|
    ensures Reaches(tree, p[i], p[j])
  {
    assert Connects(tree, p[i..j + 1], p[i], p[j]);
  }

  lemma {:induction false} DistinctBound(s: seq<string>, keys: set<string>)
    requires Distinct(s) && forall x :: x in s ==> x in keys
    ensures |s| <= |keys|
  {
    if s == [] {
    } else {
      var n := |s| - 1;
      assert s[n] !in s[..n];
      DistinctBound(s[..n], keys - {s[n]});
    }
  }

  /** Without a reachable cycle, no call chain is longer than the number of modules plus one. */
  lemma ChainBound(tree: Tree, p: seq<string>)
    requires Chain(tree, p) && NoCycleFrom(tree, p[0])
    ensures |p| <= |tree.Keys| + 1
  {
    var s := p[..|p| - 1];
    forall i, j | 0 <= i < j < |s|
      ensures s[i] != s[j]
    {
      ChainReaches(tree, p, i, j);
      if i > 0 {
        ChainReaches(tree, p, 0, i);
      }
    }
    forall x | x in s
      ensures x in tree.Keys
    {
      var i :| 0 <= i < |s| && s[i] == x;
      assert Edge(tree, p[i], p[i + 1]);
    }
    DistinctBound(s, tree.Keys);
  }

  // ---- the walk with a bound on the depth of its calls --------------------

  datatype Outcome = OutOfBudget | Failed | Found(mods: seq<string>)

  /** What the walk from `path` comes to if its calls may nest `budget` deep. */
  function Explore(tree: Tree, path: string, budget: nat): Outcome
    decreases budget, 0
  {
    if budget == 0 then OutOfBudget
    else if path !in tree then Failed
    else ExploreCalls(tree, tree[path].calls, budget - 1)
  }

  function ExploreCalls(tree: Tree, calls: seq<Call>, budget: nat): Outcome
    decreases budget, |calls|
  {
    if calls == [] then Found([])
    else if !IsLocalPath(calls[0].source) then ExploreCalls(tree, calls[1..], budget)
    else
      var mods := Explore(tree, calls[0].dir, budget);
      if mods.Found? then After([calls[0].dir] + mods.mods, ExploreCalls(tree, calls[1..], budget)) else mods
  }

  function After(found: seq<string>, rest: Outcome): Outcome {
    if rest.Found? then Found(found + rest.mods) else rest
  }

  function AsOutcome(found: Option<seq<string>>): Outcome {
    match found
    case None => Failed
    case Some(mods) => Found(mods)
  }

  /** The walk, which ends because some budget is enough for it. None is a failure to load. Returns the
      modules reachable from `path`, if it and all of them load. */
  method Walk(tree: Tree, path: string, ghost budget: nat) returns (found: Option<seq<string>>)
    requires !Explore(tree, path, budget).OutOfBudget?
    ensures AsOutcome(found) == Explore(tree, path, budget)
    ensures found.None? <==> !AllLoad(tree, path)
    ensures found.Some? ==> forall b :: b in found.value <==> Reaches(tree, path, b)
    decreases budget
  {
    ExploreMeaning(tree, path, budget);
    if path !in tree {
      return None;
    }
    var calls, all := tree[path].calls, [];
    ghost var left: nat := budget - 1;
    for i := 0 to |calls|
      invariant Explore(tree, path, budget) == After(all, ExploreCalls(tree, calls[i..], left))
    {
      var mc := calls[i];
      assert calls[i..][1..] == calls[i + 1..];
      if !IsLocalPath(mc.source) {
        continue;
      }
      var mods := Walk(tree, mc.dir, left);
      if mods.None? {
        return None;
      }
      AfterTwice(all, [mc.dir] + mods.value, ExploreCalls(tree, calls[i + 1..], left));
      all := all + ([mc.dir] + mods.value);
    }
    assert all + [] == all;
    return Some(all);
  }

  lemma AfterTwice(a: seq<string>, b: seq<string>, rest: Outcome)
    ensures After(a, After(b, rest)) == After(a + b, rest)
  {
  }

  // ---- what it finds ------------------------------------------------------

  ghost predicate AllLoad(tree: Tree, path: string) {
    path in tree && forall b :: Reaches(tree, path, b) ==> b in tree
  }

  /** One of the calls leads to `b`. */
  ghost predicate Leads(tree: Tree, calls: seq<Call>, b: string) {
    exists c :: c in calls && LeadsTo(tree, c, b)
  }

  ghost predicate LeadsTo(tree: Tree, c: Call, b: string) {
    IsLocalPath(c.source) && (c.dir == b || Reaches(tree, c.dir, b))
  }

  lemma LeadsReaches(tree: Tree, path: string, b: string)
    requires path in tree
    ensures Leads(tree, tree[path].calls, b) <==> Reaches(tree, path, b)
  {
    FirstCall(tree, path, b);
    if c :| c in tree[path].calls && LeadsTo(tree, c, b) {
      assert Edge(tree, path, c.dir);
    }
    if d :| Edge(tree, path, d) && (d == b || Reaches(tree, d, b)) {
      var i :| 0 <= i < |tree[path].calls| && IsLocalPath(tree[path].calls[i].source) && tree[path].calls[i].dir == d;
      assert LeadsTo(tree, tree[path].calls[i], b);
    }
  }

  /** A walk that ends finds exactly the reachable modules, and fails exactly when one does not load. */
  lemma {:induction false} ExploreMeaning(tree: Tree, path: string, budget: nat)
    ensures Explore(tree, path, budget).Found? ==> AllLoad(tree, path)
    ensures Explore(tree, path, budget).Found? ==>
      forall b :: b in Explore(tree, path, budget).mods <==> Reaches(tree, path, b)
    ensures Explore(tree, path, budget).Failed? ==> !AllLoad(tree, path)
    decreases budget, 0
  {
    if budget == 0 || path !in tree {
    } else {
      ExploreCallsMeaning(tree, tree[path].calls, budget - 1);
      forall b { LeadsReaches(tree, path, b); }
    }
  }

  lemma {:induction false} ExploreCallsMeaning(tree: Tree, calls: seq<Call>, budget: nat)
    ensures ExploreCalls(tree, calls, budget).Found? ==> forall b :: Leads(tree, calls, b) ==> b in tree
    ensures ExploreCalls(tree, calls, budget).Found? ==>
      forall b :: b in ExploreCalls(tree, calls, budget).mods <==> Leads(tree, calls, b)
    ensures ExploreCalls(tree, calls, budget).Failed? ==> exists b :: Leads(tree, calls, b) && b !in tree
    decreases budget, |calls|
  {
    if calls == [] {
    } else {
      ExploreCallsMeaning(tree, calls[1..], budget);
      forall b
        ensures Leads(tree, calls, b) <==> LeadsTo(tree, calls[0], b) || Leads(tree, calls[1..], b)
      {
        LeadsCons(tree, calls, b);
      }
      ExploreMeaning(tree, calls[0].dir, budget);
      assert IsLocalPath(calls[0].source) ==> LeadsTo(tree, calls[0], calls[0].dir);
    }
  }

  lemma LeadsCons(tree: Tree, calls: seq<Call>, b: string)
    requires calls != []
    ensures Leads(tree, calls, b) <==> LeadsTo(tree, calls[0], b) || Leads(tree, calls[1..], b)
  {
  }

  // ---- when it ends -------------------------------------------------------

  ghost predicate Diverges(tree: Tree, path: string) {
    forall budget: nat :: Explore(tree, path, budget).OutOfBudget?
  }

  /** Without a reachable cycle a budget of the number of modules plus one is enough. */
  lemma {:induction false} ExploreEnough(tree: Tree, chain: seq<string>, budget: nat)
    requires Chain(tree, chain) && NoCycleFrom(tree, chain[0]) && budget >= |tree.Keys| + 2 - |chain|
    ensures !Explore(tree, chain[|chain| - 1], budget).OutOfBudget?
    decreases budget, 0
  {
    ChainBound(tree, chain);
    var path := chain[|chain| - 1];
    if path in tree {
      CallsEnough(tree, chain, 0, budget - 1);
      assert tree[path].calls[0..] == tree[path].calls;
    }
  }

  lemma {:induction false} CallsEnough(tree: Tree, chain: seq<string>, i: nat, budget: nat)
    requires Chain(tree, chain) && NoCycleFrom(tree, chain[0]) && budget >= |tree.Keys| + 1 - |chain|
    requires chain[|chain| - 1] in tree && i <= |tree[chain[|chain| - 1]].calls|
    ensures !ExploreCalls(tree, tree[chain[|chain| - 1]].calls[i..], budget).OutOfBudget?
    decreases budget, |tree[chain[|chain| - 1]].calls| - i + 1
  {
    var path := chain[|chain| - 1];
    var calls := tree[path].calls;
    if i == |calls| {
    } else {
      CallsEnough(tree, chain, i + 1, budget);
      assert calls[i..][1..] == calls[i + 1..];
      if IsLocalPath(calls[i].source) {
        assert Edge(tree, path, calls[i].dir);
        ExploreEnough(tree, chain + [calls[i].dir], budget);
      }
    }
  }

  lemma EndsWithoutCycle(tree: Tree, root: string)
    requires NoCycleFrom(tree, root)
    ensures !Explore(tree, root, |tree.Keys| + 1).OutOfBudget?
    ensures !Diverges(tree, root)
  {
    ExploreEnough(tree, [root], |tree.Keys| + 1);
  }

  /** A cycle can be reached. */
  ghost predicate Doomed(tree: Tree, path: string) {
    !NoCycleFrom(tree, path)
  }

  ghost predicate DoomedCall(tree: Tree, c: Call) {
    IsLocalPath(c.source) && Doomed(tree, c.dir)
  }

  /** A module from which a cycle can be reached calls another one. */
  lemma DoomedCalls(tree: Tree, path: string)
    requires Doomed(tree, path)
    ensures path in tree && exists i :: 0 <= i < |tree[path].calls| && DoomedCall(tree, tree[path].calls[i])
  {
    var a :| (a == path || Reaches(tree, path, a)) && Reaches(tree, a, a);
    FirstCall(tree, path, a);
    var c :| Edge(tree, path, c) && (c == a || Reaches(tree, c, a));
    var i :| 0 <= i < |tree[path].calls| && IsLocalPath(tree[path].calls[i].source) && tree[path].calls[i].dir == c;
    assert DoomedCall(tree, tree[path].calls[i]);
  }

  lemma {:induction false} DoomedRunsOut(tree: Tree, path: string, budget: nat)
    requires AllLoad(tree, path) && Doomed(tree, path)
    ensures Explore(tree, path, budget).OutOfBudget?
    decreases budget, 0
  {
    if budget == 0 {
    } else {
      DoomedCalls(tree, path);
      forall c | c in tree[path].calls && IsLocalPath(c.source)
        ensures AllLoad(tree, c.dir)
      {
        CallsLoad(tree, path, c);
      }
      DoomedCallsRunOut(tree, tree[path].calls, budget - 1);
    }
  }

  lemma CallsLoad(tree: Tree, path: string, c: Call)
    requires AllLoad(tree, path) && c in tree[path].calls && IsLocalPath(c.source)
    ensures AllLoad(tree, c.dir)
  {
    assert Edge(tree, path, c.dir);
    EdgeReaches(tree, path, c.dir);
    forall b | Reaches(tree, c.dir, b)
      ensures b in tree
    {
      ReachesTransitive(tree, path, c.dir, b);
    }
  }

  lemma {:induction false} DoomedCallsRunOut(tree: Tree, calls: seq<Call>, budget: nat)
    requires forall c :: c in calls && IsLocalPath(c.source) ==> AllLoad(tree, c.dir)
    requires exists i :: 0 <= i < |calls| && DoomedCall(tree, calls[i])
    ensures ExploreCalls(tree, calls, budget).OutOfBudget?
    decreases budget, |calls|
  {
    var i :| 0 <= i < |calls| && DoomedCall(tree, calls[i]);
    assert calls[0] in calls;
    if i == 0 {
      DoomedRunsOut(tree, calls[0].dir, budget);
    } else {
      assert calls[1..][i - 1] == calls[i];
      DoomedCallsRunOut(tree, calls[1..], budget);
      ExploreMeaning(tree, calls[0].dir, budget);
    }
  }

  /** If everything reachable loads, the walk goes on for ever exactly when it can reach a cycle. */
  lemma DivergesExact(tree: Tree, root: string)
    requires AllLoad(tree, root)
    ensures Diverges(tree, root) <==> !NoCycleFrom(tree, root)
  {
    if NoCycleFrom(tree, root) {
      EndsWithoutCycle(tree, root);
    } else {
      forall budget: nat { DoomedRunsOut(tree, root, budget); }
    }
  }

  // ---- in any order of the calls ------------------------------------------

  /** The calls of a module come in no particular order. */
  ghost predicate Reordered(tree: Tree, other: Tree) {
    && other.Keys == tree.Keys
    && forall m :: m in tree ==> multiset(other[m].calls) == multiset(tree[m].calls)
  }

  lemma ReorderedEdge(tree: Tree, other: Tree, a: string, b: string)
    requires Reordered(tree, other)
    ensures Edge(other, a, b) ==> Edge(tree, a, b)
  {
    if Edge(other, a, b) {
      var i :| 0 <= i < |other[a].calls| && IsLocalPath(other[a].calls[i].source) && other[a].calls[i].dir == b;
      var c := other[a].calls[i];
      assert c in multiset(other[a].calls);
      assert c in tree[a].calls;
    }
  }

  lemma ReorderedReaches(tree: Tree, other: Tree, a: string, b: string)
    requires Reordered(tree, other) && Reaches(other, a, b)
    ensures Reaches(tree, a, b)
  {
    var p :| Connects(other, p, a, b);
    forall i | 0 < i < |p|
      ensures Edge(tree, p[i - 1], p[i])
    {
      ReorderedEdge(tree, other, p[i - 1], p[i]);
    }
    assert Connects(tree, p, a, b);
  }

  /** Calls that lead to a cycle come first. */
  ghost function DoomFirst(tree: Tree): Tree {
    map m | m in tree :: Module(Promoted(tree, tree[m].calls))
  }

  ghost function Promoted(tree: Tree, calls: seq<Call>): (r: seq<Call>)
    ensures multiset(r) == multiset(calls)
    ensures (exists i :: 0 <= i < |calls| && DoomedCall(tree, calls[i])) ==> r != [] && DoomedCall(tree, r[0])
  {
    if i :| 0 <= i < |calls| && DoomedCall(tree, calls[i]) then
      assert calls == calls[..i] + [calls[i]] + calls[i + 1..];
      [calls[i]] + (calls[..i] + calls[i + 1..])
    else calls
  }

  lemma DoomFirstHead(tree: Tree, path: string)
    requires Doomed(tree, path)
    ensures path in DoomFirst(tree)
    ensures DoomFirst(tree)[path].calls != [] && DoomedCall(tree, DoomFirst(tree)[path].calls[0])
  {
    DoomedCalls(tree, path);
  }

  /** The walk takes the call that leads to a cycle before any other. */
  ghost predicate DoomsFirst(tree: Tree, other: Tree) {
    forall m :: Doomed(tree, m) ==> m in other && other[m].calls != [] && DoomedCall(tree, other[m].calls[0])
  }

  lemma {:induction false} DoomFirstRunsOut(tree: Tree, other: Tree, path: string, budget: nat)
    requires DoomsFirst(tree, other) && Doomed(tree, path)
    ensures Explore(other, path, budget).OutOfBudget?
    decreases budget
  {
    if budget == 0 {
    } else {
      var calls := other[path].calls;
      DoomFirstRunsOut(tree, other, calls[0].dir, budget - 1);
      HeadRunsOut(other, calls, budget - 1);
    }
  }

  lemma HeadRunsOut(tree: Tree, calls: seq<Call>, budget: nat)
    requires calls != [] && IsLocalPath(calls[0].source) && Explore(tree, calls[0].dir, budget).OutOfBudget?
    ensures ExploreCalls(tree, calls, budget).OutOfBudget?
  {
  }

  /** In some order of the calls the walk goes on for ever if and only if it can reach a cycle, whether or
      not all modules load. */
  lemma DivergesInSomeOrder(tree: Tree, root: string)
    ensures (exists other :: Reordered(tree, other) && Diverges(other, root)) <==> !NoCycleFrom(tree, root)
  {
    if other :| Reordered(tree, other) && Diverges(other, root) {
      if NoCycleFrom(tree, root) {
        forall a | (a == root || Reaches(other, root, a)) && Reaches(other, a, a)
          ensures Reaches(tree, a, a) && (a == root || Reaches(tree, root, a))
        {
          ReorderedReaches(tree, other, a, a);
          if a != root {
            ReorderedReaches(tree, other, root, a);
          }
        }
        EndsWithoutCycle(other, root);
      }
    }
    if !NoCycleFrom(tree, root) {
      assert Reordered(tree, DoomFirst(tree));
      forall m | Doomed(tree, m) { DoomFirstHead(tree, m); }
      forall budget: nat { DoomFirstRunsOut(tree, DoomFirst(tree), root, budget); }
    }
  }

  // ---- in another order at each visit -------------------------------------

  /** What the walk may come to if it takes the calls of a module in any order each time it comes there. */
  ghost predicate MayExplore(tree: Tree, path: string, budget: nat, o: Outcome)
    decreases budget, 0
  {
    if budget == 0 then o == OutOfBudget
    else if path !in tree then o == Failed
    else exists order :: IsOrder(tree[path].calls, order) && MayExploreCalls(tree, order, budget - 1, o)
  }

  ghost predicate IsOrder(calls: seq<Call>, order: seq<Call>) {
    multiset(order) == multiset(calls)
  }

  ghost predicate MayExploreCalls(tree: Tree, calls: seq<Call>, budget: nat, o: Outcome)
    decreases budget, |calls|
  {
    if calls == [] then o == Found([])
    else if !IsLocalPath(calls[0].source) then MayExploreCalls(tree, calls[1..], budget, o)
    else exists first :: MayExplore(tree, calls[0].dir, budget, first) && MayFollow(tree, calls, budget, first, o)
  }

  ghost predicate MayFollow(tree: Tree, calls: seq<Call>, budget: nat, first: Outcome, o: Outcome)
    requires calls != []
    decreases budget, |calls|, 0
  {
    if !first.Found? then o == first
    else exists rest :: MayExploreCalls(tree, calls[1..], budget, rest) && o == After([calls[0].dir] + first.mods, rest)
  }

  /** The walk in the given order is one of them. */
  lemma {:induction false} ExploreMay(tree: Tree, path: string, budget: nat)
    ensures MayExplore(tree, path, budget, Explore(tree, path, budget))
    decreases budget, 0
  {
    if budget == 0 || path !in tree {
    } else {
      ExploreCallsMay(tree, tree[path].calls, budget - 1);
      assert IsOrder(tree[path].calls, tree[path].calls);
    }
  }

  lemma {:induction false} ExploreCallsMay(tree: Tree, calls: seq<Call>, budget: nat)
    ensures MayExploreCalls(tree, calls, budget, ExploreCalls(tree, calls, budget))
    decreases budget, |calls|
  {
    if calls == [] {
    } else {
      ExploreCallsMay(tree, calls[1..], budget);
      ExploreMay(tree, calls[0].dir, budget);
      if IsLocalPath(calls[0].source) {
        var first := Explore(tree, calls[0].dir, budget);
        assert MayFollow(tree, calls, budget, first, ExploreCalls(tree, calls, budget));
      }
    }
  }

  /** Without a reachable cycle every walk ends. */
  lemma {:induction false} EveryWalkEnds(tree: Tree, chain: seq<string>, budget: nat, o: Outcome)
    requires Chain(tree, chain) && NoCycleFrom(tree, chain[0]) && budget >= |tree.Keys| + 2 - |chain|
    requires MayExplore(tree, chain[|chain| - 1], budget, o)
    ensures !o.OutOfBudget?
    decreases budget, 0
  {
    ChainBound(tree, chain);
    var path := chain[|chain| - 1];
    if path in tree {
      var order :| IsOrder(tree[path].calls, order) && MayExploreCalls(tree, order, budget - 1, o);
      forall c | c in order
        ensures c in tree[path].calls
      {
        assert c in multiset(order);
      }
      EveryCallEnds(tree, chain, order, budget - 1, o);
    }
  }

  lemma {:induction false} EveryCallEnds(tree: Tree, chain: seq<string>, calls: seq<Call>, budget: nat, o: Outcome)
    requires Chain(tree, chain) && NoCycleFrom(tree, chain[0]) && budget >= |tree.Keys| + 1 - |chain|
    requires chain[|chain| - 1] in tree && forall c :: c in calls ==> c in tree[chain[|chain| - 1]].calls
    requires MayExploreCalls(tree, calls, budget, o)
    ensures !o.OutOfBudget?
    decreases budget, |calls| + 2
  {
    if calls == [] {
    } else {
      assert calls == [calls[0]] + calls[1..];
      assert calls[0] in calls && forall c :: c in calls[1..] ==> c in calls;
      if !IsLocalPath(calls[0].source) {
        EveryCallEnds(tree, chain, calls[1..], budget, o);
      } else {
        var first :| MayExplore(tree, calls[0].dir, budget, first) && MayFollow(tree, calls, budget, first, o);
        FirstEnds(tree, chain, calls[0], budget, first);
        if first.Found? {
          var rest :| MayExploreCalls(tree, calls[1..], budget, rest) && o == After([calls[0].dir] + first.mods, rest);
          EveryCallEnds(tree, chain, calls[1..], budget, rest);
        }
      }
    }
  }

  lemma {:induction false} FirstEnds(tree: Tree, chain: seq<string>, c: Call, budget: nat, first: Outcome)
    requires Chain(tree, chain) && NoCycleFrom(tree, chain[0]) && budget >= |tree.Keys| + 1 - |chain|
    requires chain[|chain| - 1] in tree && c in tree[chain[|chain| - 1]].calls && IsLocalPath(c.source)
    requires MayExplore(tree, c.dir, budget, first)
    ensures !first.OutOfBudget?
    decreases budget, 1
  {
    var longer := chain + [c.dir];
    assert longer[|longer| - 1] == c.dir;
    assert Edge(tree, chain[|chain| - 1], c.dir);
    assert Chain(tree, longer);
    EveryWalkEnds(tree, longer, budget, first);
  }

  /** With one, some walk goes on for ever. */
  lemma {:induction false} SomeWalkRunsOut(tree: Tree, path: string, budget: nat)
    requires Doomed(tree, path)
    ensures MayExplore(tree, path, budget, OutOfBudget)
    decreases budget
  {
    if budget == 0 {
    } else {
      DoomedCalls(tree, path);
      var order := Promoted(tree, tree[path].calls);
      SomeWalkRunsOut(tree, order[0].dir, budget - 1);
      FirstRunsOut(tree, order, budget - 1);
      assert IsOrder(tree[path].calls, order);
    }
  }

  lemma FirstRunsOut(tree: Tree, calls: seq<Call>, budget: nat)
    requires calls != [] && IsLocalPath(calls[0].source) && MayExplore(tree, calls[0].dir, budget, OutOfBudget)
    ensures MayExploreCalls(tree, calls, budget, OutOfBudget)
  {
    assert MayFollow(tree, calls, budget, OutOfBudget, OutOfBudget);
  }

  lemma NoWalkRunsOut(tree: Tree, root: string)
    requires NoCycleFrom(tree, root)
    ensures !MayExplore(tree, root, |tree.Keys| + 1, OutOfBudget)
  {
    if MayExplore(tree, root, |tree.Keys| + 1, OutOfBudget) {
      assert Chain(tree, [root]) && [root][0] == root;
      EveryWalkEnds(tree, [root], |tree.Keys| + 1, OutOfBudget);
    }
  }

  /** If the order may change from visit to visit: some walk goes on for ever if and only if a cycle can be
      reached. */
  lemma MayDivergeExact(tree: Tree, root: string)
    ensures (forall budget: nat :: MayExplore(tree, root, budget, OutOfBudget)) <==> !NoCycleFrom(tree, root)
  {
    if NoCycleFrom(tree, root) {
      NoWalkRunsOut(tree, root);
    } else {
      forall budget: nat { SomeWalkRunsOut(tree, root, budget); }
    }
  }

  /** Whatever the orders, a walk that ends finds exactly the reachable modules, and fails exactly when one of
      them does not load. */
  lemma {:induction false} MayExploreMeaning(tree: Tree, path: string, budget: nat, o: Outcome)
    requires MayExplore(tree, path, budget, o)
    ensures o.Found? ==> AllLoad(tree, path) && forall b :: b in o.mods <==> Reaches(tree, path, b)
    ensures o.Failed? ==> !AllLoad(tree, path)
    decreases budget, 0
  {
    if budget == 0 || path !in tree {
    } else {
      var order :| IsOrder(tree[path].calls, order) && MayExploreCalls(tree, order, budget - 1, o);
      MayExploreCallsMeaning(tree, order, budget - 1, o);
      forall b
        ensures Leads(tree, order, b) <==> Reaches(tree, path, b)
      {
        LeadsReaches(tree, path, b);
        LeadsAnyOrder(tree, order, tree[path].calls, b);
      }
    }
  }

  lemma LeadsAnyOrder(tree: Tree, one: seq<Call>, other: seq<Call>, b: string)
    requires multiset(one) == multiset(other)
    ensures Leads(tree, one, b) <==> Leads(tree, other, b)
  {
    assert forall c :: c in one <==> c in multiset(one);
    assert forall c :: c in other <==> c in multiset(other);
  }

  lemma {:induction false} MayExploreCallsMeaning(tree: Tree, calls: seq<Call>, budget: nat, o: Outcome)
    requires MayExploreCalls(tree, calls, budget, o)
    ensures o.Found? ==> forall b :: (Leads(tree, calls, b) ==> b in tree) && (b in o.mods <==> Leads(tree, calls, b))
    ensures o.Failed? ==> exists b :: Leads(tree, calls, b) && b !in tree
    decreases budget, |calls|
  {
    if calls == [] {
    } else {
      forall b { LeadsCons(tree, calls, b); }
      if !IsLocalPath(calls[0].source) {
        MayExploreCallsMeaning(tree, calls[1..], budget, o);
      } else {
        var first :| MayExplore(tree, calls[0].dir, budget, first) && MayFollow(tree, calls, budget, first, o);
        MayExploreMeaning(tree, calls[0].dir, budget, first);
        assert LeadsTo(tree, calls[0], calls[0].dir);
        if first.Found? {
          var rest :| MayExploreCalls(tree, calls[1..], budget, rest) && o == After([calls[0].dir] + first.mods, rest);
          MayExploreCallsMeaning(tree, calls[1..], budget, rest);
        }
      }
    }
  }

  /** In one order a walk can end although it can reach a cycle: a module that does not load comes first. */
  lemma BadModuleFirst()
    ensures var bad, loop := Call("./bad", "/bad"), Call("./", "/r");
      && Doomed(map["/r" := Module([bad, loop])], "/r")
      && Explore(map["/r" := Module([bad, loop])], "/r", 2) == Failed
      && Diverges(map["/r" := Module([loop, bad])], "/r")
  {
    var bad, loop := Call("./bad", "/bad"), Call("./", "/r");
    var tree, other := map["/r" := Module([bad, loop])], map["/r" := Module([loop, bad])];
    assert tree["/r"].calls[1] == loop;
    assert Edge(tree, "/r", "/r");
    EdgeReaches(tree, "/r", "/r");
    forall budget: nat { LoopRunsOut(other, budget); }
  }

  lemma {:induction false} LoopRunsOut(tree: Tree, budget: nat)
    requires "/r" in tree && tree["/r"].calls != [] && tree["/r"].calls[0] == Call("./", "/r")
    ensures Explore(tree, "/r", budget).OutOfBudget?
  {
    if budget == 0 {
    } else {
      LoopRunsOut(tree, budget - 1);
    }
  }
}
