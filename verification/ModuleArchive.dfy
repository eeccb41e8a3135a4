// pkg/archive/archive.go from end to end: find the local modules of a root module, drop the nested ones,
// pack the rest; what then unpacks is the files of the root module and of every module it calls.
module ModuleArchive {
  import opened Common
  import opened IgnoreRules
  import opened Paths
  import Modules
  import opened Archive

  ghost predicate Needed(modules: Modules.Tree, root: string, m: string) {
    m == root || Modules.Reaches(modules, root, m)
  }

  /** The shortest needed module that is a string prefix of a needed module is truly above it. */
  ghost predicate NeededNest(modules: Modules.Tree, root: string) {
    forall k, m :: Needed(modules, root, m) && ShortestNeeded(modules, root, k, m) ==> Within(k, m)
  }

  ghost predicate ShortestNeeded(modules: Modules.Tree, root: string, k: string, m: string) {
    Needed(modules, root, k) && k <= m && forall q :: Needed(modules, root, q) && q <= m ==> |k| <= |q|
  }

  ghost predicate NeededInBase(modules: Modules.Tree, root: string, base: string) {
    forall m :: Needed(modules, root, m) ==> Within(base, m)
  }

  /** A regular file of a needed module that the rules do not ignore. */
  ghost predicate Wanted(modules: Modules.Tree, root: string, tree: Tree, base: string, rules: seq<Rule>,
      name: string) {
    var p := base + "/" + name;
    && name != "" && p in tree && tree[p].File? && !Ignored(rules, name)
    && exists m :: Needed(modules, root, m) && Within(m, p)
  }

  /** Unpacking yields the wanted files, each with its content, and nothing else. */
  ghost predicate Ships(modules: Modules.Tree, root: string, tree: Tree, base: string, rules: seq<Rule>,
      entries: seq<Entry>) {
    && Unpacked(entries).Some?
    && forall name ::
         && (name in Unpacked(entries).value <==> Wanted(modules, root, tree, base, rules, name))
         && (name in Unpacked(entries).value && base + "/" + name in tree ==>
               tree[base + "/" + name] == File(Unpacked(entries).value[name]))
  }

  method PackModules(modules: Modules.Tree, ghost budget: nat, tree: Tree, root: string, base: string,
      rules: seq<Rule>, walks: map<string, seq<string>>)
    returns (entries: Option<seq<Entry>>, ghost mods: seq<string>)
    requires !Modules.Explore(modules, root, budget).OutOfBudget?
    requires WellFormed(tree) && CleanBelow(tree, base)
    requires forall m :: Needed(modules, root, m) && m in tree ==> m in walks && WalkOf(tree, m, walks[m])
    ensures entries.None? ==> exists m :: Needed(modules, root, m) && (m !in modules || m !in tree)
    ensures entries.Some? ==> forall m :: Needed(modules, root, m) ==> m in modules
    ensures entries.Some? ==> forall m :: m in mods <==> Needed(modules, root, m)
    ensures entries.Some? ==> Packs(tree, base, Unnested(mods), rules, entries.value)
    ensures entries.Some? && NeededNest(modules, root) && NeededInBase(modules, root, base) ==>
      Ships(modules, root, tree, base, rules, entries.value)
  {
    mods := [];
    var list := [root];
    var called := Modules.Walk(modules, root, budget);
    if called.None? {
      return None, mods;
    }
    list := list + called.value;
    mods := list;
    assert forall m :: m in mods <==> Needed(modules, root, m);
    entries := Pack(tree, base, list, rules, walks);
    if entries.Some? {
      if NeededNest(modules, root) && NeededInBase(modules, root, base) {
        PackedShips(modules, root, tree, base, mods, rules, entries.value);
      }
    } else {
      ghost var m :| m in Unnested(mods) && m !in tree;
      assert m in mods;
    }
  }

  lemma PackedShips(modules: Modules.Tree, root: string, tree: Tree, base: string, mods: seq<string>,
      rules: seq<Rule>, entries: seq<Entry>)
    requires forall m :: m in mods <==> Needed(modules, root, m)
    requires NeededNest(modules, root) && NeededInBase(modules, root, base)
    requires WellFormed(tree) && CleanBelow(tree, base)
    requires Packs(tree, base, Unnested(mods), rules, entries)
    ensures Ships(modules, root, tree, base, rules, entries)
  {
    PackedConsistent(tree, base, Unnested(mods), rules, entries);
    UnpackConsistent(entries);
    NeededCovered(modules, root, mods);
    forall name
      ensures name in Unpacked(entries).value <==> Wanted(modules, root, tree, base, rules, name)
      ensures name in Unpacked(entries).value && base + "/" + name in tree ==>
        tree[base + "/" + name] == File(Unpacked(entries).value[name])
    {
      RoundTrip(tree, base, mods, rules, entries, name);
      if Covered(Unnested(mods), base + "/" + name) {
        KeptAreModules(mods, base + "/" + name);
      }
      CoveredNeeded(modules, root, mods, base + "/" + name);
    }
  }

  lemma NeededCovered(modules: Modules.Tree, root: string, mods: seq<string>)
    requires forall m :: m in mods <==> Needed(modules, root, m)
    requires NeededNest(modules, root)
    ensures CoversAll(mods)
  {
    forall k, m | m in mods && ShortestPrefix(mods, k, m)
      ensures Within(k, m)
    {
      assert ShortestNeeded(modules, root, k, m);
    }
    CoverageExact(mods);
  }

  lemma KeptAreModules(mods: seq<string>, p: string)
    requires Covered(Unnested(mods), p)
    ensures Covered(mods, p)
  {
  }

  lemma CoveredNeeded(modules: Modules.Tree, root: string, mods: seq<string>, p: string)
    requires forall m :: m in mods <==> Needed(modules, root, m)
    ensures Covered(mods, p) <==> exists m :: Needed(modules, root, m) && Within(m, p)
  {
  }

  /** The root and every reachable module have a kept module as string prefix, nested or not. */
  lemma EveryModuleHasKeptPrefix(modules: Modules.Tree, root: string, mods: seq<string>, m: string)
    requires forall k :: k in mods <==> Needed(modules, root, k)
    requires Needed(modules, root, m)
    ensures exists k :: k in Unnested(mods) && Needed(modules, root, k) && k <= m
  {
    RemoveNestedMeaning(mods, m);
    var k :| k in Unnested(mods) && k <= m;
    assert k in mods;
  }
}
