// pkg/archive/archive.go: packing modules into a stream of entries and unpacking it into an empty
// directory. Paths are absolute and clean, the root directory being written as the empty path; the file
// tree has no symbolic links.
module Archive {
  import opened Common
  import opened IgnoreRules
  import opened Paths

  datatype Node = Dir | File(content: string) | Special

  type Tree = map<string, Node>

  /** `p` is `dir` or lies below it. */
  predicate Within(dir: string, p: string) {
    p == dir || dir + "/" <= p
  }

  /** What is below a file does not exist. */
  ghost predicate WellFormed(tree: Tree) {
    forall p, q :: p in tree && q in tree && p + "/" <= q ==> tree[p].Dir?
  }

  function Parent(dir: string): (r: string)
    requires dir != ""
    ensures |r| < |dir|
  {
    var n := |dir| - 1;
    if dir[n] == '/' || n == 0 then dir[..n] else Parent(dir[..n])
  }

  /** The path relative to the base: what follows the base, or as many steps up as it takes. */
  function Rel(base: string, p: string): string
    decreases |base|
  {
    if p == base then "."
    else if Within(base, p) then p[|base| + 1..]
    else if base == "" then p
    else
      var up := Rel(Parent(base), p);
      if up == "." then ".." else "../" + up
  }

  lemma RelInjective(base: string, p: string)
    requires base + "/" <= p
    ensures p == base + "/" + Rel(base, p)
  {
  }

  /** The path leads out of the directory it is relative to. */
  predicate Escapes(name: string) {
    name == ".." || "../" <= name
  }

  /** A walk of a root visits every path within it once. */
  ghost predicate WalkOf(tree: Tree, root: string, visits: seq<string>) {
    && Distinct(visits)
    && forall p :: p in visits <==> p in tree && Within(root, p)
  }

  datatype Entry = DirEntry(name: string) | FileEntry(name: string, content: string)

  /** Directories are matched by their absolute path, files by their path relative to the base. */
  ghost predicate Skipped(tree: Tree, base: string, rules: seq<Rule>, p: string)
    requires p in tree
  {
    if tree[p].Dir? then Ignored(rules, p + "/") else Rel(base, p) == "." || Ignored(rules, Rel(base, p))
  }

  function EntryFor(tree: Tree, base: string, p: string): Entry
    requires p in tree && !tree[p].Special?
  {
    match tree[p]
    case Dir => DirEntry(Rel(base, p) + "/")
    case File(content) => FileEntry(Rel(base, p), content)
  }

  /** The path gets an entry. */
  ghost predicate Archived(tree: Tree, base: string, rules: seq<Rule>, p: string) {
    && p in tree && p != base && !tree[p].Special?
    && !Skipped(tree, base, rules, p)
  }

  method PackPath(tree: Tree, base: string, rules: seq<Rule>, p: string) returns (entry: Option<Entry>)
    requires p in tree
    ensures entry.Some? <==> Archived(tree, base, rules, p)
    ensures entry.Some? ==> entry.value == EntryFor(tree, base, p)
    ensures entry.Some? && entry.value.DirEntry? <==> tree[p].Dir? && p != base && !Ignored(rules, p + "/")
    ensures entry.Some? && entry.value.FileEntry? <==>
      tree[p].File? && p != base && Rel(base, p) != "." && !Ignored(rules, Rel(base, p))
    ensures entry.Some? && entry.value.FileEntry? ==> entry.value == FileEntry(Rel(base, p), tree[p].content)
    ensures entry.Some? && entry.value.DirEntry? ==> entry.value == DirEntry(Rel(base, p) + "/")
  {
    var matched;
    if tree[p].Dir? {
      matched := MatchIgnoreRule(p + "/", rules);
    } else if Rel(base, p) == "." {
      matched := true;
    } else {
      matched := MatchIgnoreRule(Rel(base, p), rules);
    }
    if matched {
      return None;
    }
    if p == base || tree[p].Special? {
      return None;
    }
    return Some(EntryFor(tree, base, p));
  }

  /** `walks` gives, for each kept module, the order in which its paths are visited. None is the failure
      to walk a module that does not exist. */
  method Pack(tree: Tree, base: string, mods: seq<string>, rules: seq<Rule>, walks: map<string, seq<string>>)
    returns (entries: Option<seq<Entry>>)
    requires forall m :: m in mods && m in tree ==> m in walks && WalkOf(tree, m, walks[m])
    ensures entries.None? <==> exists m :: m in Unnested(mods) && m !in tree
    ensures entries.Some? ==> Packs(tree, base, Unnested(mods), rules, entries.value)
  {
    var unnested := RemoveNestedPaths(mods);
    var packed := [];
    for i := 0 to |unnested|
      invariant forall m :: m in unnested[..i] ==> m in tree
      invariant Packs(tree, base, unnested[..i], rules, packed)
    {
      var m := unnested[i];
      assert unnested[..i + 1] == unnested[..i] + [m];
      assert m in unnested;
      if m !in tree {
        return None;
      }
      var visits := walks[m];
      ghost var before := packed;
      for j := 0 to |visits|
        invariant forall e :: e in packed <==> e in before || EntryOf(tree, base, rules, visits[..j], e)
      {
        var p := visits[j];
        assert p in visits;
        assert visits[..j + 1] == visits[..j] + [p];
        var entry := PackPath(tree, base, rules, p);
        EntryOfSnoc(tree, base, rules, visits[..j], p);
        if entry.Some? {
          packed := packed + [entry.value];
        }
      }
      assert visits[..|visits|] == visits;
      PacksSnoc(tree, base, unnested[..i], m, rules, visits, before, packed);
    }
    assert unnested[..|unnested|] == unnested;
    return Some(packed);
  }

  lemma WithinTransitive(a: string, b: string, c: string)
    requires Within(a, b) && Within(b, c)
    ensures Within(a, c)
  {
  }

  ghost predicate EntryOf(tree: Tree, base: string, rules: seq<Rule>, ps: seq<string>, e: Entry) {
    exists p :: p in ps && Archived(tree, base, rules, p) && e == EntryFor(tree, base, p)
  }

  lemma EntryOfSnoc(tree: Tree, base: string, rules: seq<Rule>, ps: seq<string>, p: string)
    ensures forall e :: EntryOf(tree, base, rules, ps + [p], e) <==>
      EntryOf(tree, base, rules, ps, e) || (Archived(tree, base, rules, p) && e == EntryFor(tree, base, p))
  {
  }

  ghost predicate Covered(mods: seq<string>, p: string) {
    exists m :: m in mods && Within(m, p)
  }

  /** The entries are exactly those of the archived paths within the modules. */
  ghost predicate Packs(tree: Tree, base: string, mods: seq<string>, rules: seq<Rule>, entries: seq<Entry>) {
    forall e :: e in entries <==>
      exists p :: Covered(mods, p) && Archived(tree, base, rules, p) && e == EntryFor(tree, base, p)
  }

  lemma PacksSnoc(tree: Tree, base: string, mods: seq<string>, m: string, rules: seq<Rule>, visits: seq<string>,
      before: seq<Entry>, after: seq<Entry>)
    requires Packs(tree, base, mods, rules, before) && WalkOf(tree, m, visits)
    requires forall e :: e in after <==> e in before || EntryOf(tree, base, rules, visits, e)
    ensures Packs(tree, base, mods + [m], rules, after)
  {
  }

  // ---- unpacking ----------------------------------------------------------

  /** An entry's path relative to the destination. */
  function Target(e: Entry): string {
    Relative(e.name)
  }

  /** Without the slash of an absolute path; joining it to the destination drops a final slash. */
  function Relative(name: string): string {
    var path := if name != "" && name[0] == '/' then name[1..] else name;
    if path != "" && path[|path| - 1] == '/' then path[..|path| - 1] else path
  }

  /** Some file lies where one of the path's directories has to be. */
  predicate Blocked(files: map<string, string>, path: string) {
    exists f :: f in files && f + "/" <= path
  }

  /** The path was made a directory for the sake of an earlier entry. */
  predicate MadeDir(made: seq<Entry>, path: string) {
    exists e :: e in made && path + "/" <= Target(e)
  }

  /** The next entry cannot be extracted: its name is empty (a crash), a file stands where a directory
      has to be, or a directory stands where the file has to be. */
  predicate Fails(done: seq<Entry>, files: map<string, string>, e: Entry) {
    || e.name == ""
    || Blocked(files, Target(e))
    || (e.FileEntry? && (Target(e) == "" || MadeDir(done, Target(e))))
  }

  function Extracted(files: map<string, string>, e: Entry): map<string, string> {
    if e.DirEntry? then files else files[Target(e) := e.content]
  }

  function Unpacked(entries: seq<Entry>): Option<map<string, string>> {
    if entries == [] then Some(map[])
    else
      var n := |entries| - 1;
      var files := Unpacked(entries[..n]);
      if files.None? || Fails(entries[..n], files.value, entries[n]) then None
      else Some(Extracted(files.value, entries[n]))
  }

  method Unpack(entries: seq<Entry>) returns (files: Option<map<string, string>>)
    ensures files == Unpacked(entries)
  {
    var written: map<string, string> := map[];
    for i := 0 to |entries|
      invariant Unpacked(entries[..i]) == Some(written)
    {
      UnpackedNext(entries, i);
      var header := entries[i];
      if header.name == "" {
        FailureStays(entries, i + 1);
        return None;
      }
      var path := Relative(header.name);
      if Blocked(written, path) {
        FailureStays(entries, i + 1);
        return None;
      }
      if header.DirEntry? {
        continue;
      }
      if path == "" || MadeDir(entries[..i], path) {
        FailureStays(entries, i + 1);
        return None;
      }
      written := written[path := header.content];
    }
    assert entries[..|entries|] == entries;
    return Some(written);
  }

  lemma UnpackedNext(entries: seq<Entry>, i: nat)
    requires i < |entries| && Unpacked(entries[..i]).Some?
    ensures var files := Unpacked(entries[..i]).value;
      Unpacked(entries[..i + 1]) ==
        if Fails(entries[..i], files, entries[i]) then None else Some(Extracted(files, entries[i]))
  {
    assert entries[..i + 1][..i] == entries[..i];
  }

  lemma {:induction false} FailureStays(entries: seq<Entry>, i: nat)
    requires i <= |entries| && Unpacked(entries[..i]).None?
    ensures Unpacked(entries).None?
    decreases |entries|
  {
    if i < |entries| {
      var n := |entries| - 1;
      assert entries[..n][..i] == entries[..i];
      FailureStays(entries[..n], i);
    } else {
      assert entries[..i] == entries;
    }
  }

  ghost predicate Proper(name: string) {
    name != "" && name[0] != '/' && name[|name| - 1] != '/' && name != "." && !Escapes(name)
  }

  /** Named entries whose files are not above other entries and agree on content. */
  ghost predicate Consistent(entries: seq<Entry>) {
    && (forall e :: e in entries ==> e.name != "" && Target(e) != "")
    && forall e, f :: e in entries && f in entries && f.FileEntry? ==>
      && !(Target(f) + "/" <= Target(e))
      && (e.FileEntry? && Target(e) == Target(f) ==> e == f)
  }

  /** The files are those of the entries, each with its content. */
  ghost predicate FilesOf(entries: seq<Entry>, files: map<string, string>) {
    && (forall e :: e in entries && e.FileEntry? ==> Target(e) in files && files[Target(e)] == e.content)
    && forall x :: x in files ==> FileAt(entries, x)
  }

  ghost predicate FileAt(entries: seq<Entry>, x: string) {
    exists e :: e in entries && e.FileEntry? && Target(e) == x
  }

  /** The last of consistent entries can be extracted. */
  lemma LastExtracts(done: seq<Entry>, last: Entry, files: map<string, string>)
    requires Consistent(done + [last]) && FilesOf(done, files)
    ensures !Fails(done, files, last)
  {
  }

  lemma LastFiles(done: seq<Entry>, last: Entry, files: map<string, string>)
    requires Consistent(done + [last]) && FilesOf(done, files)
    ensures FilesOf(done + [last], Extracted(files, last))
  {
    var all, next := done + [last], Extracted(files, last);
    assert forall e :: e in all <==> e in done || e == last;
    forall x | x in next
      ensures FileAt(all, x)
    {
      if x in files {
        assert FileAt(done, x);
      } else {
        assert last in all;
      }
    }
  }

  /** Consistent entries unpack without failure, in any order and with any repetitions. */
  lemma {:induction false} UnpackConsistent(entries: seq<Entry>)
    requires Consistent(entries)
    ensures Unpacked(entries).Some? && FilesOf(entries, Unpacked(entries).value)
  {
    if entries == [] {
    } else {
      var n := |entries| - 1;
      assert entries == entries[..n] + [entries[n]];
      UnpackConsistent(entries[..n]);
      LastExtracts(entries[..n], entries[n], Unpacked(entries[..n]).value);
      LastFiles(entries[..n], entries[n], Unpacked(entries[..n]).value);
    }
  }

  // ---- round trip ---------------------------------------------------------

  lemma TargetOfEntry(tree: Tree, base: string, rules: seq<Rule>, p: string)
    requires Archived(tree, base, rules, p) && Proper(Rel(base, p))
    ensures Target(EntryFor(tree, base, p)) == Rel(base, p)
    ensures EntryFor(tree, base, p).name != ""
  {
  }

  /** What follows the base is a clean path, without dots that lead up. */
  ghost predicate CleanBelow(tree: Tree, base: string) {
    forall p :: p in tree && base + "/" <= p ==> Proper(p[|base| + 1..])
  }

  lemma PairConsistent(tree: Tree, base: string, rules: seq<Rule>, p: string, q: string)
    requires WellFormed(tree) && CleanBelow(tree, base)
    requires Archived(tree, base, rules, p) && Archived(tree, base, rules, q) && tree[q].File?
    requires Within(base, p) && Within(base, q)
    ensures var e, f := EntryFor(tree, base, p), EntryFor(tree, base, q);
      !(Target(f) + "/" <= Target(e)) && (e.FileEntry? && Target(e) == Target(f) ==> e == f)
  {
    TargetOfEntry(tree, base, rules, p);
    TargetOfEntry(tree, base, rules, q);
    RelInjective(base, p);
    RelInjective(base, q);
    var x, y := Rel(base, q) + "/", Rel(base, p);
    assert base + "/" + x == q + "/";
    assert x <= y ==> base + "/" + x <= base + "/" + y;
  }

  ghost predicate InBase(base: string, mods: seq<string>) {
    forall m :: m in mods ==> Within(base, m)
  }

  lemma CoveredInBase(base: string, mods: seq<string>, p: string)
    requires InBase(base, mods) && Covered(mods, p)
    ensures Within(base, p)
  {
  }

  lemma PackedConsistent(tree: Tree, base: string, mods: seq<string>, rules: seq<Rule>, entries: seq<Entry>)
    requires WellFormed(tree) && CleanBelow(tree, base) && InBase(base, mods)
    requires Packs(tree, base, mods, rules, entries)
    ensures Consistent(entries)
  {
    forall p | Covered(mods, p) { CoveredInBase(base, mods, p); }
    forall e | e in entries
      ensures e.name != "" && Target(e) != ""
    {
      var p :| Covered(mods, p) && Archived(tree, base, rules, p) && e == EntryFor(tree, base, p);
      TargetOfEntry(tree, base, rules, p);
    }
    forall e, f | e in entries && f in entries && f.FileEntry?
      ensures !(Target(f) + "/" <= Target(e)) && (e.FileEntry? && Target(e) == Target(f) ==> e == f)
    {
      var p :| Covered(mods, p) && Archived(tree, base, rules, p) && e == EntryFor(tree, base, p);
      var q :| Covered(mods, q) && Archived(tree, base, rules, q) && f == EntryFor(tree, base, q);
      PairConsistent(tree, base, rules, p, q);
    }
  }

  /** Unpacking what was packed gives exactly the files, with their contents and at their paths relative
      to the base, that lie within a kept module and are not ignored. */
  lemma RoundTrip(tree: Tree, base: string, mods: seq<string>, rules: seq<Rule>, entries: seq<Entry>, name: string)
    requires WellFormed(tree) && CleanBelow(tree, base) && InBase(base, Unnested(mods))
    requires Packs(tree, base, Unnested(mods), rules, entries)
    ensures Unpacked(entries).Some?
    ensures name in Unpacked(entries).value <==>
      var p := base + "/" + name;
      name != "" && p in tree && tree[p].File? && Covered(Unnested(mods), p) && !Ignored(rules, name)
    ensures name in Unpacked(entries).value ==> tree[base + "/" + name] == File(Unpacked(entries).value[name])
  {
    PackedConsistent(tree, base, Unnested(mods), rules, entries);
    UnpackConsistent(entries);
    var p := base + "/" + name;
    assert p[|base| + 1..] == name;
    if name in Unpacked(entries).value {
      assert FileAt(entries, name);
      var e :| e in entries && e.FileEntry? && Target(e) == name;
      var q :| Covered(Unnested(mods), q) && Archived(tree, base, rules, q) && e == EntryFor(tree, base, q);
      CoveredInBase(base, Unnested(mods), q);
      TargetOfEntry(tree, base, rules, q);
      RelInjective(base, q);
      assert q == p;
    }
    if name != "" && p in tree && tree[p].File? && Covered(Unnested(mods), p) && !Ignored(rules, name) {
      assert Rel(base, p) == name;
      assert Archived(tree, base, rules, p);
      TargetOfEntry(tree, base, rules, p);
      assert EntryFor(tree, base, p) in entries;
    }
  }

  // ---- staying inside the destination -------------------------------------

  ghost predicate Absolute(p: string) {
    p == "" || p[0] == '/'
  }

  /** A relative path leads out of the base exactly for the paths outside it. */
  lemma EscapesOutside(tree: Tree, base: string, p: string)
    requires CleanBelow(tree, base) && p in tree && Absolute(p)
    ensures Escapes(Rel(base, p)) <==> !Within(base, p)
  {
  }

  /** Neither the slash behind a directory nor its removal changes that. */
  lemma EscapingTarget(name: string)
    ensures Escapes(name) ==> Escapes(Relative(name)) && Escapes(Relative(name + "/"))
  {
  }

  /** Nothing is extracted outside the destination if and only if every path archived lies in the base. */
  lemma NothingEscapes(tree: Tree, base: string, mods: seq<string>, rules: seq<Rule>, entries: seq<Entry>)
    requires CleanBelow(tree, base) && forall p :: p in tree ==> Absolute(p)
    requires Packs(tree, base, mods, rules, entries)
    ensures (forall e :: e in entries ==> !Escapes(Target(e)))
       <==> (forall p :: Covered(mods, p) && Archived(tree, base, rules, p) ==> Within(base, p))
  {
    forall p | Covered(mods, p) && Archived(tree, base, rules, p)
      ensures EntryFor(tree, base, p) in entries
      ensures Escapes(Target(EntryFor(tree, base, p))) <==> !Within(base, p)
    {
      EscapesOutside(tree, base, p);
      EscapingTarget(Rel(base, p));
      if Within(base, p) {
        TargetOfEntry(tree, base, rules, p);
      }
    }
  }

  /** Something can escape: a module beside the base is packed, and would be unpacked beside the destination. */
  lemma Upwards()
    ensures var tree, e := map["/m" := Dir, "/m/f" := File("text")], FileEntry("../m/f", "text");
      && WellFormed(tree) && CleanBelow(tree, "/b")
      && Packs(tree, "/b", ["/m"], [], [DirEntry("../m/"), e])
      && Escapes(Target(e))
  {
    var tree, entries := map["/m" := Dir, "/m/f" := File("text")], [DirEntry("../m/"), FileEntry("../m/f", "text")];
    UpwardsPaths();
    assert "/m" in ["/m"] && Covered(["/m"], "/m") && Covered(["/m"], "/m/f");
    assert EntryFor(tree, "/b", "/m") == entries[0] && EntryFor(tree, "/b", "/m/f") == entries[1];
    assert Archived(tree, "/b", [], "/m") && Archived(tree, "/b", [], "/m/f");
    assert "../" + "m/f" == "../m/f" && Relative("../m/f") == "../m/f";
  }

  lemma UpwardsPaths()
    ensures !Within("/b", "/m") && !Within("/b", "/m/f") && Within("/m", "/m/f") && !Within("/m/f", "/m")
    ensures Rel("/b", "/m") == "../m" && Rel("/b", "/m/f") == "../m/f"
  {
    assert "/b" + "/" == "/b/" && "/m" + "/" == "/m/" && "/m/f"[..3] == "/m/";
    assert "/b/"[1] != "/m/f"[1];
    assert "/b"[..1] == "/" && "/"[..0] == "" && Parent("/") == "" && Parent("/b") == "";
    assert "" + "/" == "/" && Within("", "/m") && Within("", "/m/f");
    assert Rel("", "/m") == "m" && Rel("", "/m/f") == "m/f";
    assert "../" + "m" == "../m" && "../" + "m/f" == "../m/f";
  }

  // ---- what nesting by string prefix leaves out ---------------------------

  ghost predicate CoversAll(mods: seq<string>) {
    forall p :: Covered(mods, p) ==> Covered(Unnested(mods), p)
  }

  /** The shortest module that is a string prefix of `m`. */
  ghost predicate ShortestPrefix(mods: seq<string>, k: string, m: string) {
    k in mods && k <= m && forall q :: q in mods && q <= m ==> |k| <= |q|
  }

  ghost predicate PrefixesNest(mods: seq<string>) {
    forall k, m :: m in mods && ShortestPrefix(mods, k, m) ==> Within(k, m)
  }

  /** The kept modules cover all that the modules cover if and only if, for each module, the shortest one
      that is a string prefix of it is truly above it (or is the module itself). */
  lemma CoverageExact(mods: seq<string>)
    ensures CoversAll(mods) <==> PrefixesNest(mods)
  {
    if CoversAll(mods) {
      forall k, m | m in mods && ShortestPrefix(mods, k, m)
        ensures Within(k, m)
      {
        assert Within(m, m) && Covered(mods, m);
        var kept :| kept in Unnested(mods) && Within(kept, m);
        SameShortest(mods, k, kept, m);
      }
    }
    if PrefixesNest(mods) {
      forall p | Covered(mods, p)
        ensures Covered(Unnested(mods), p)
      {
        var m :| m in mods && Within(m, p);
        var k := HasMinimal(mods, m);
        KeptShortest(mods, k, m);
        WithinTransitive(k, m, p);
      }
    }
  }

  /** A kept prefix is the shortest one, since the prefixes of one text are prefixes of each other. */
  lemma KeptShortest(mods: seq<string>, k: string, m: string)
    requires k in Unnested(mods) && k <= m
    ensures ShortestPrefix(mods, k, m)
  {
  }

  lemma SameShortest(mods: seq<string>, k: string, kept: string, m: string)
    requires ShortestPrefix(mods, k, m) && kept in Unnested(mods) && kept <= m
    ensures k == kept
  {
  }

  /** It does when modules related by string prefix are truly nested. */
  lemma NestedCoverage(mods: seq<string>, p: string)
    requires forall a, b :: a in mods && b in mods && a <= b ==> Within(a, b)
    ensures Covered(mods, p) <==> Covered(Unnested(mods), p)
  {
    if Covered(mods, p) {
      var m :| m in mods && Within(m, p);
      var k := HasMinimal(mods, m);
      WithinTransitive(k, m, p);
    }
  }

  /** Sibling modules whose names share a prefix: the longer-named one is dropped with all its files. */
  lemma SiblingSwallowed(dir: string)
    ensures var mods := [dir + "/m1", dir + "/m10"];
      Covered(mods, dir + "/m10") && !Covered(Unnested(mods), dir + "/m10")
  {
    var a, b := dir + "/m1", dir + "/m10";
    var mods := [a, b];
    assert b[|a|] == '0' && a < b;
    assert a in mods && b in mods && Within(b, b);
    assert forall m :: m in Unnested(mods) ==> m == a;
    assert (a + "/")[|a|] == '/';
  }
}
