// pkg/archive/archive.go: when unpacking fails and what it leaves, for any entries whatever; and what the names
// of entries stand for.
module ArchiveLaws {
  import opened Archive

  /** The entry stands in the way of an earlier one, or has an earlier one in its way. */
  ghost predicate Conflicts(entries: seq<Entry>, i: int) {
    && 0 <= i < |entries|
    && (|| entries[i].name == ""
        || (exists j :: 0 <= j < i && entries[j].FileEntry? && Target(entries[j]) + "/" <= Target(entries[i]))
        || (entries[i].FileEntry? && Target(entries[i]) == "")
        || (entries[i].FileEntry?
            && exists j :: 0 <= j < i && Target(entries[i]) + "/" <= Target(entries[j])))
  }

  /** No later file entry has the same target. */
  ghost predicate LastAt(entries: seq<Entry>, i: int) {
    && 0 <= i < |entries| && entries[i].FileEntry?
    && forall j :: i < j < |entries| && entries[j].FileEntry? ==> Target(entries[j]) != Target(entries[i])
  }

  lemma FileAtSnoc(done: seq<Entry>, last: Entry, x: string)
    ensures FileAt(done + [last], x) <==> FileAt(done, x) || (last.FileEntry? && Target(last) == x)
  {
    var all := done + [last];
    assert all[|done|] == last && forall e :: e in all <==> e in done || e == last;
  }

  /** There is a file for exactly the targets of file entries. */
  lemma {:induction false} UnpackedFiles(entries: seq<Entry>)
    requires Unpacked(entries).Some?
    ensures forall x :: x in Unpacked(entries).value <==> FileAt(entries, x)
  {
    if entries == [] {
    } else {
      var n := |entries| - 1;
      UnpackedFiles(entries[..n]);
      assert entries == entries[..n] + [entries[n]];
      forall x
        ensures x in Unpacked(entries).value <==> FileAt(entries, x)
      {
        FileAtSnoc(entries[..n], entries[n], x);
      }
    }
  }

  /** The last entry for a target has written the file. */
  lemma {:induction false} LastWrites(entries: seq<Entry>, i: int)
    requires Unpacked(entries).Some? && LastAt(entries, i)
    ensures Target(entries[i]) in Unpacked(entries).value
    ensures Unpacked(entries).value[Target(entries[i])] == entries[i].content
  {
    var n := |entries| - 1;
    if i < n {
      assert forall j :: 0 <= j < n ==> entries[..n][j] == entries[j];
      LastWrites(entries[..n], i);
    }
  }

  lemma BlockedExact(done: seq<Entry>, path: string)
    requires Unpacked(done).Some?
    ensures Blocked(Unpacked(done).value, path) <==>
      exists j :: 0 <= j < |done| && done[j].FileEntry? && Target(done[j]) + "/" <= path
  {
    UnpackedFiles(done);
    if Blocked(Unpacked(done).value, path) {
      var f :| f in Unpacked(done).value && f + "/" <= path;
      assert FileAt(done, f);
      var e :| e in done && e.FileEntry? && Target(e) == f;
      var j :| 0 <= j < |done| && done[j] == e;
    }
    forall j | 0 <= j < |done| && done[j].FileEntry? && Target(done[j]) + "/" <= path
      ensures Blocked(Unpacked(done).value, path)
    {
      assert done[j] in done && FileAt(done, Target(done[j]));
    }
  }

  lemma ConflictAtEnd(entries: seq<Entry>)
    requires entries != [] && Unpacked(entries[..|entries| - 1]).Some?
    ensures var n := |entries| - 1;
      Fails(entries[..n], Unpacked(entries[..n]).value, entries[n]) <==> Conflicts(entries, n)
  {
    var n := |entries| - 1;
    var done, last := entries[..n], entries[n];
    BlockedExact(done, Target(last));
    assert MadeDir(done, Target(last)) <==> exists j :: 0 <= j < n && Target(last) + "/" <= Target(entries[j]) by {
      forall j | 0 <= j < n && Target(last) + "/" <= Target(entries[j])
        ensures MadeDir(done, Target(last))
      {
        assert done[j] in done;
      }
    }
    assert forall j :: 0 <= j < n ==> done[j] == entries[j];
  }

  /** Unpacking fails if and only if some entry conflicts with those before it. */
  lemma {:induction false} UnpackFailsExact(entries: seq<Entry>)
    ensures Unpacked(entries).None? <==> exists i :: Conflicts(entries, i)
  {
    if entries == [] {
    } else {
      var n := |entries| - 1;
      UnpackFailsExact(entries[..n]);
      forall i | 0 <= i < n
        ensures Conflicts(entries, i) <==> Conflicts(entries[..n], i)
      {
        ConflictsBefore(entries, n, i);
      }
      if Unpacked(entries[..n]).Some? {
        ConflictAtEnd(entries);
      }
    }
  }

  lemma ConflictsBefore(entries: seq<Entry>, n: nat, i: nat)
    requires i < n <= |entries|
    ensures Conflicts(entries, i) <==> Conflicts(entries[..n], i)
  {
    assert forall j :: 0 <= j <= i ==> entries[..n][j] == entries[j];
  }

  // ---- names --------------------------------------------------------------

  /** An entry's target is its name without a slash in front and without one behind. */
  lemma RelativeExact(t: string)
    requires t != "" && t[0] != '/' && t[|t| - 1] != '/'
    ensures Relative(t) == Relative("/" + t) == Relative(t + "/") == Relative("/" + t + "/") == t
  {
    assert ("/" + t)[1..] == t && (t + "/")[..|t|] == t;
    assert ("/" + t + "/")[1..] == t + "/";
  }

  /** The path a relative name stands for, seen from the base. */
  function Resolve(base: string, name: string): string
    decreases |base|
  {
    if name == "." then base
    else if base != "" && name == ".." then Parent(base)
    else if base != "" && "../" <= name then Resolve(Parent(base), name[3..])
    else base + "/" + name
  }

  /** No component leads up or stays. */
  ghost predicate Clean(p: string) {
    forall k :: 0 <= k < |p| && p[k] == '/' ==> Proper(p[k + 1..])
  }

  lemma ParentAbsolute(base: string)
    requires Absolute(base) && base != ""
    ensures Absolute(Parent(base))
  {
    ParentPrefix(base);
  }

  lemma {:induction false} ParentPrefix(base: string)
    requires base != ""
    ensures Parent(base) < base
    decreases |base|
  {
    var n := |base| - 1;
    if base[n] != '/' && n != 0 {
      ParentPrefix(base[..n]);
    }
  }

  /** The name an entry gets leads back to its path, inside the base or outside it. */
  lemma {:induction false} RelResolves(base: string, p: string)
    requires Absolute(base) && Absolute(p) && Clean(p)
    ensures Resolve(base, Rel(base, p)) == p
    decreases |base|
  {
    if p == base {
    } else if Within(base, p) {
      assert p[|base|] == '/' && p == base + "/" + p[|base| + 1..];
      assert Proper(p[|base| + 1..]);
    } else {
      ParentAbsolute(base);
      RelResolves(Parent(base), p);
      var up := Rel(Parent(base), p);
      if up != "." {
        assert ("../" + up)[3..] == up;
      }
    }
  }
}
