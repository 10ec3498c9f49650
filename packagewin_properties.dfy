/**
  What the index promises, proved about the definitions in `PackageWin`:
  which library roots are scanned, how a directory's navigation targets and
  version are chosen, which records each phase contributes, that the first
  record inserted under a name is the one kept (so config trees beat library
  roots), the shape of every record, and the index of the example tree the
  source's own test builds.
*/
module PackageWinProperties {
  import opened Wrappers
  import opened Snapshot
  import opened Package
  import opened FindPackage
  import opened PackageWin

  // ---------------------------------------------------------------------
  // Library roots
  // ---------------------------------------------------------------------

  /** `[<prefix>/<lib>/cmake]` if it exists, else nothing. */
  function RootIfExists(fs: FileSystem, prefix: string, lib: string): seq<Path>
  {
    if Exists(fs, LibDir(prefix, lib)) then [LibDir(prefix, lib)] else []
  }

  lemma {:induction false} ExistingRootsMembers(fs: FileSystem, prefix: string, libs: seq<string>)
    ensures forall p :: p in ExistingRoots(fs, prefix, libs) <==>
                        (exists lib :: lib in libs && p == LibDir(prefix, lib)) && Exists(fs, p)
    ensures |ExistingRoots(fs, prefix, libs)| <= |libs|
    decreases |libs|
  {
    if libs != [] {
      var front := libs[..|libs| - 1];
      ExistingRootsMembers(fs, prefix, front);
      assert libs == front + [libs[|libs| - 1]];
    }
  }

  lemma {:induction false} ExistingRootsDistinct(fs: FileSystem, prefix: string, libs: seq<string>)
    requires forall i, j :: 0 <= i < j < |libs| ==> libs[i] != libs[j]
    ensures var r := ExistingRoots(fs, prefix, libs);
            forall i, j :: 0 <= i < j < |r| ==> r[i] != r[j]
    decreases |libs|
  {
    if libs != [] {
      var front, last := libs[..|libs| - 1], libs[|libs| - 1];
      ExistingRootsDistinct(fs, prefix, front);
      ExistingRootsMembers(fs, prefix, front);
      assert last !in front;
      var r := ExistingRoots(fs, prefix, libs);
      var rf := ExistingRoots(fs, prefix, front);
      forall i, j | 0 <= i < j < |r|
        ensures r[i] != r[j]
      {
        if j == |rf| {
          assert r[i] in rf;
        }
      }
    }
  }

  /** The roots scanned are exactly those of `lib/cmake`, `lib32/cmake`,
      `lib64/cmake`, `share/cmake` that exist, in that order, each once. */
  lemma LibRootsExactly(fs: FileSystem, prefix: string)
    ensures LibRoots(fs, prefix) ==
              RootIfExists(fs, prefix, "lib") + RootIfExists(fs, prefix, "lib32") +
              RootIfExists(fs, prefix, "lib64") + RootIfExists(fs, prefix, "share")
    ensures forall p :: p in LibRoots(fs, prefix) <==>
                        (exists lib :: lib in LIBS && p == LibDir(prefix, lib)) && Exists(fs, p)
    ensures forall i, j :: 0 <= i < j < |LibRoots(fs, prefix)| ==> LibRoots(fs, prefix)[i] != LibRoots(fs, prefix)[j]
  {
    ExistingRootsMembers(fs, prefix, LIBS);
    ExistingRootsDistinct(fs, prefix, LIBS);
    var l0, l1, l2, l3 := RootIfExists(fs, prefix, "lib"), RootIfExists(fs, prefix, "lib32"),
                          RootIfExists(fs, prefix, "lib64"), RootIfExists(fs, prefix, "share");
    assert LIBS[..3] == ["lib", "lib32", "lib64"];
    assert ["lib", "lib32", "lib64"][..2] == ["lib", "lib32"];
    assert ["lib", "lib32"][..1] == ["lib"];
    assert ["lib"][..0] == [];
    assert ExistingRoots(fs, prefix, ["lib"]) == l0;
    assert ExistingRoots(fs, prefix, ["lib", "lib32"]) == l0 + l1;
    assert ExistingRoots(fs, prefix, ["lib", "lib32", "lib64"]) == l0 + l1 + l2;
    assert LibRoots(fs, prefix) == l0 + l1 + l2 + l3;
  }

  // ---------------------------------------------------------------------
  // Navigation targets and versions of one directory
  // ---------------------------------------------------------------------

  /** Targets are taken entry by entry, in listing order. */
  lemma {:induction false} TargetsAppend(c: Collaborators, kind: ScanKind, a: seq<Entry>, b: seq<Entry>)
    ensures Targets(c, kind, a + b) == Targets(c, kind, a) + Targets(c, kind, b)
    decreases |b|
  {
    if b == [] {
      assert a + b == a;
    } else {
      assert (a + b)[..|a + b| - 1] == a + b[..|b| - 1];
      TargetsAppend(c, kind, a, b[..|b| - 1]);
    }
  }

  /** A path is a target iff it is the canonical path of a target entry. */
  lemma {:induction false} TargetsMembers(c: Collaborators, kind: ScanKind, es: seq<Entry>)
    ensures forall x :: x in Targets(c, kind, es) <==>
                        exists e :: e in es && IsTarget(c, kind, e) && x == c.canonicalize(e.path)
    decreases |es|
  {
    if es != [] {
      var front := es[..|es| - 1];
      TargetsMembers(c, kind, front);
      assert es == front + [es[|es| - 1]];
    }
  }

  /** In a config tree every entry is a target, whatever it matches. */
  lemma {:induction false} ConfigTreeTargets(c: Collaborators, es: seq<Entry>)
    ensures |Targets(c, ConfigTree, es)| == |es|
    ensures forall i :: 0 <= i < |es| ==> Targets(c, ConfigTree, es)[i] == c.canonicalize(es[i].path)
    decreases |es|
  {
    if es != [] {
      ConfigTreeTargets(c, es[..|es| - 1]);
    }
  }

  /** With no readable version file the version is `None`. */
  lemma {:induction false} LastVersionNone(c: Collaborators, kind: ScanKind, es: seq<Entry>)
    requires forall e <- es :: !VersionSource(c, kind, e)
    ensures LastVersion(c, kind, es) == None
    decreases |es|
  {
    if es != [] {
      LastVersionNone(c, kind, es[..|es| - 1]);
    }
  }

  /** Otherwise it is what `get_version` makes of the last readable version
      file, even when that is `None` and an earlier one gave a version. */
  lemma {:induction false} LastVersionIsLast(c: Collaborators, kind: ScanKind, es: seq<Entry>, k: nat)
    requires k < |es| && VersionSource(c, kind, es[k])
    requires forall j :: k < j < |es| ==> !VersionSource(c, kind, es[j])
    ensures LastVersion(c, kind, es) == c.getVersion(ReadToString(es[k]).value)
    decreases |es|
  {
    if k < |es| - 1 {
      LastVersionIsLast(c, kind, es[..|es| - 1], k);
    }
  }

  // ---------------------------------------------------------------------
  // Config-tree records
  // ---------------------------------------------------------------------

  /** The trees among the children `es` of `share` are exactly their `cmake`
      directories. */
  lemma {:induction false} TreesInMembers(es: seq<Entry>)
    ensures forall t :: t in TreesIn(es) <==> exists e :: e in es && CMakeTreeOf(e) == Some(t)
    decreases |es|
  {
    if es != [] {
      var front := es[..|es| - 1];
      TreesInMembers(front);
      assert es == front + [es[|es| - 1]];
    }
  }

  /** The glob `share/<any>/cmake/` yields the `cmake` directory of every
      child of a listable `share`, and nothing else. */
  lemma GlobShareTreesExactly(fs: FileSystem, prefix: string)
    ensures forall t :: t in GlobShareTrees(fs, prefix) <==>
                        exists e :: e in ListingOf(fs, Path(prefix, ["share"])) && CMakeTreeOf(e) == Some(t)
  {
    TreesInMembers(ListingOf(fs, Path(prefix, ["share"])));
  }

  /** Every directory `<prefix>/share/<name>/cmake` is yielded, with its own
      node, as long as `share` can be listed. */
  lemma GlobShareTreesComplete(fs: FileSystem, prefix: string, name: string)
    requires ReadDir(fs, Path(prefix, ["share"])).Some?
    requires Lookup(fs, Path(prefix, ["share", name, "cmake"])).Some?
    requires Lookup(fs, Path(prefix, ["share", name, "cmake"])).value.DirNode?
    ensures Entry(Path(prefix, ["share", name, "cmake"]), Lookup(fs, Path(prefix, ["share", name, "cmake"])).value)
              in GlobShareTrees(fs, prefix)
  {
    var share := Path(prefix, ["share"]);
    var tree := Path(prefix, ["share", name, "cmake"]);
    var n := Lookup(fs, tree).value;
    var sn := fs[prefix];
    assert ["share", name, "cmake"][1..] == [name, "cmake"];
    assert [name, "cmake"][1..] == ["cmake"];
    assert ["share"][1..] == [];
    assert Walk(sn, ["share", name, "cmake"]).Some?;
    var shareNode := Child(sn.children, "share").value;
    assert Walk(sn, ["share", name, "cmake"]) == Walk(shareNode, [name, "cmake"]);
    assert Lookup(fs, share) == Some(shareNode);
    var kids := shareNode.children;
    assert Walk(shareNode, [name, "cmake"]).Some?;
    var k := Child(kids, name).value;
    assert Walk(shareNode, [name, "cmake"]) == Walk(k, ["cmake"]);
    var i :| 0 <= i < |kids| && kids[i] == k;
    var es := ListingOf(fs, share);
    assert es == EntriesOf(share, kids);
    var e := es[i];
    assert e == Entry(Join(share, name), k);
    assert Join(e.path, "cmake") == tree;
    assert CMakeTreeOf(e) == Some(Entry(tree, n));
    TreesInMembers(es);
  }

  /** The glob of a tree yields its entries whose names end in `.cmake`. */
  lemma {:induction false} CMakeEntriesMembers(es: seq<Entry>)
    ensures forall e :: e in CMakeEntries(es) <==> e in es && HasCMakeSuffix(e.node.name)
    decreases |es|
  {
    if es != [] {
      var front := es[..|es| - 1];
      CMakeEntriesMembers(front);
      assert es == front + [es[|es| - 1]];
    }
  }

  /** The `*.cmake` glob of a tree yields exactly its listed entries whose
      names end in `.cmake`; an unlistable tree yields nothing. */
  lemma GlobCMakeFilesMembers(tree: Entry)
    ensures forall e :: e in GlobCMakeFiles(tree) <==>
                        List(tree).Some? && e in List(tree).value && HasCMakeSuffix(e.node.name)
  {
    if List(tree).Some? {
      CMakeEntriesMembers(List(tree).value);
    }
  }

  /** A tree `share/<N>/cmake` yields a record iff one of its `*.cmake`
      files matches `CMAKECONFIG`; the record is a `Dir` named `<N>` at the
      tree, whose targets are all those files in listing order and whose
      version comes from the last readable config-version file. */
  lemma ConfigTreeRecord(c: Collaborators, tree: Entry)
    requires |tree.path.parts| >= 2
    ensures ConfigPackage(c, tree).Some? <==>
              exists e :: e in GlobCMakeFiles(tree) && c.isConfig(c.pathText(e.path))
    ensures ConfigPackage(c, tree).Some? ==>
              var p, files := ConfigPackage(c, tree).value, GlobCMakeFiles(tree);
              && p.name == ParentName(tree.path)
              && p.filetype == Dir
              && p.filepath == c.toUrl(tree.path)
              && |p.tojump| == |files|
              && (forall i :: 0 <= i < |files| ==> p.tojump[i] == c.canonicalize(files[i].path))
              && p.version == LastVersion(c, ConfigTree, files)
  {
    var files := GlobCMakeFiles(tree);
    ConfigTreeTargets(c, files);
    if exists e :: e in files && c.isConfig(c.pathText(e.path)) {
      var e :| e in files && c.isConfig(c.pathText(e.path));
      var k :| 0 <= k < |files| && files[k] == e;
    }
  }

  /** The config phase contributes the records of the trees that are packages. */
  lemma {:induction false} ConfigCandidatesExactly(c: Collaborators, trees: seq<Entry>)
    requires forall t <- trees :: |t.path.parts| >= 2
    ensures forall p :: p in ConfigCandidates(c, trees) <==>
                        exists t :: t in trees && ConfigPackage(c, t) == Some(p)
    decreases |trees|
  {
    if trees != [] {
      var front, last := trees[..|trees| - 1], trees[|trees| - 1];
      ConfigCandidatesExactly(c, front);
      assert trees == front + [last];
      assert ConfigCandidates(c, trees) == ConfigCandidates(c, front) + ConfigPackage(c, last).ToSeq();
      forall p
        ensures p in ConfigCandidates(c, trees) <==> exists t :: t in trees && ConfigPackage(c, t) == Some(p)
      {
        if exists t :: t in trees && ConfigPackage(c, t) == Some(p) {
          var t :| t in trees && ConfigPackage(c, t) == Some(p);
          if t != last {
            assert t in front;
          }
        }
        if p in ConfigCandidates(c, front) {
          var t :| t in front && ConfigPackage(c, t) == Some(p);
          assert t in trees;
        }
      }
    }
  }

  // ---------------------------------------------------------------------
  // Library-root records
  // ---------------------------------------------------------------------

  /** A directory child that can be listed gives a `Dir` record named after
      it whose targets are its regular files matching `CMAKEREGEX`; one that
      cannot is skipped; any other child gives a `File` record named by the
      part of its name before the first dot, whose only target is itself. */
  lemma LibChildRecord(c: Collaborators, e: Entry)
    ensures IsDir(e) && List(e).None? ==> ChildPackage(c, e).None?
    ensures IsDir(e) && List(e).Some? ==>
              && ChildPackage(c, e).Some?
              && var p := ChildPackage(c, e).value;
              && p.name == e.node.name
              && p.filetype == Dir
              && p.filepath == c.toUrl(e.path)
              && (forall x :: x in p.tojump <==>
                     exists g :: g in List(e).value && IsFile(g) && c.isModule(g.node.name) && x == c.canonicalize(g.path))
              && p.version == LastVersion(c, PackageDir, List(e).value)
              && p.tojump == Targets(c, PackageDir, List(e).value)
    ensures IsDir(e) && List(e).Some? ==>
              forall a, b :: List(e).value == a + b ==>
                ChildPackage(c, e).value.tojump == Targets(c, PackageDir, a) + Targets(c, PackageDir, b)
    ensures !IsDir(e) ==>
              && ChildPackage(c, e).Some?
              && var p := ChildPackage(c, e).value;
              && p.name == BeforeFirstDot(e.node.name)
              && p.filetype == File
              && p.filepath == c.toUrl(e.path)
              && p.tojump == [c.canonicalize(e.path)]
              && p.version == None
  {
    if IsDir(e) && List(e).Some? {
      TargetsMembers(c, PackageDir, List(e).value);
      forall a, b | List(e).value == a + b
        ensures ChildPackage(c, e).value.tojump == Targets(c, PackageDir, a) + Targets(c, PackageDir, b)
      {
        TargetsAppend(c, PackageDir, a, b);
      }
    }
  }

  lemma {:induction false} ChildCandidatesExactly(c: Collaborators, es: seq<Entry>)
    ensures forall p :: p in ChildCandidates(c, es) <==> exists e :: e in es && ChildPackage(c, e) == Some(p)
    decreases |es|
  {
    if es != [] {
      var front, last := es[..|es| - 1], es[|es| - 1];
      ChildCandidatesExactly(c, front);
      assert es == front + [last];
      assert ChildCandidates(c, es) == ChildCandidates(c, front) + ChildPackage(c, last).ToSeq();
      forall p
        ensures p in ChildCandidates(c, es) <==> exists e :: e in es && ChildPackage(c, e) == Some(p)
      {
        if exists e :: e in es && ChildPackage(c, e) == Some(p) {
          var e :| e in es && ChildPackage(c, e) == Some(p);
          if e != last {
            assert e in front;
          }
        }
        if p in ChildCandidates(c, front) {
          var e :| e in front && ChildPackage(c, e) == Some(p);
          assert e in es;
        }
      }
    }
  }

  /** The library-root phase contributes the records of the children of
      every scanned root. */
  /** Roots are scanned one after the other: the records of `a + b` are
      those of `a`, then those of `b`. */
  lemma {:induction false} LibCandidatesAppend(fs: FileSystem, c: Collaborators, a: seq<Path>, b: seq<Path>)
    ensures LibCandidates(fs, c, a + b) == LibCandidates(fs, c, a) + LibCandidates(fs, c, b)
    decreases |b|
  {
    if b == [] {
      assert a + b == a;
    } else {
      var front, last := b[..|b| - 1], b[|b| - 1];
      var x, y, t := LibCandidates(fs, c, a), LibCandidates(fs, c, front), ChildCandidates(c, ListingOf(fs, last));
      assert LibCandidates(fs, c, a + b) == LibCandidates(fs, c, a + front) + t by {
        assert (a + b)[..|a + b| - 1] == a + front;
        assert (a + b)[|a + b| - 1] == last;
      }
      LibCandidatesAppend(fs, c, a, front);
      assert LibCandidates(fs, c, b) == y + t;
      ConcatAssoc(x, y, t);
    }
  }

  lemma ConcatAssoc(x: seq<CMakePackage>, y: seq<CMakePackage>, z: seq<CMakePackage>)
    ensures (x + y) + z == x + (y + z)
  {
  }

  lemma {:induction false} LibCandidatesExactly(fs: FileSystem, c: Collaborators, libs: seq<Path>)
    ensures forall p :: p in LibCandidates(fs, c, libs) <==>
                        exists lib, e :: lib in libs && e in ListingOf(fs, lib) && ChildPackage(c, e) == Some(p)
    decreases |libs|
  {
    if libs != [] {
      var front, last := libs[..|libs| - 1], libs[|libs| - 1];
      LibCandidatesExactly(fs, c, front);
      ChildCandidatesExactly(c, ListingOf(fs, last));
      assert libs == front + [last];
    }
  }

  // ---------------------------------------------------------------------
  // First insert wins
  // ---------------------------------------------------------------------

  function Names(cs: seq<CMakePackage>): set<string>
  {
    set p <- cs :: p.name
  }

  /** `cs[i]` is the first candidate named `k`. */
  predicate IsFirstNamed(cs: seq<CMakePackage>, k: string, i: int)
  {
    0 <= i < |cs| && cs[i].name == k && forall j :: 0 <= j < i ==> cs[j].name != k
  }

  lemma FirstNamedInFront(a: seq<CMakePackage>, b: seq<CMakePackage>, k: string, i: int)
    requires IsFirstNamed(a, k, i)
    ensures IsFirstNamed(a + b, k, i)
  {
  }

  lemma FirstNamedInBack(a: seq<CMakePackage>, b: seq<CMakePackage>, k: string, i: int)
    requires k !in Names(a)
    requires IsFirstNamed(b, k, i)
    ensures IsFirstNamed(a + b, k, |a| + i)
  {
    forall j | 0 <= j < |a| + i
      ensures (a + b)[j].name != k
    {
      if j < |a| {
        assert a[j] in a;
      }
    }
  }

  lemma NamesSnoc(cs: seq<CMakePackage>, p: CMakePackage)
    ensures Names(cs + [p]) == Names(cs) + {p.name}
  {
  }

  lemma {:induction false} InsertAllKeys(m: map<string, CMakePackage>, cs: seq<CMakePackage>)
    ensures InsertAll(m, cs).Keys == m.Keys + Names(cs)
    decreases |cs|
  {
    if cs != [] {
      var front, last := cs[..|cs| - 1], cs[|cs| - 1];
      InsertAllKeys(m, front);
      assert InsertAll(m, cs).Keys == InsertAll(m, front).Keys + {last.name};
      assert cs == front + [last];
      NamesSnoc(front, last);
    }
  }

  /** Once a name is in the map, later candidates leave its record alone. */
  lemma {:induction false} InsertAllKeeps(m: map<string, CMakePackage>, cs: seq<CMakePackage>, k: string)
    requires k in m
    ensures k in InsertAll(m, cs) && InsertAll(m, cs)[k] == m[k]
    decreases |cs|
  {
    if cs != [] {
      InsertAllKeeps(m, cs[..|cs| - 1], k);
    }
  }

  /** A name not yet in the map ends up with its first candidate. */
  lemma {:induction false} InsertAllFirst(m: map<string, CMakePackage>, cs: seq<CMakePackage>, k: string, i: int)
    requires k !in m
    requires IsFirstNamed(cs, k, i)
    ensures k in InsertAll(m, cs) && InsertAll(m, cs)[k] == cs[i]
    decreases |cs|
  {
    var front := cs[..|cs| - 1];
    if i < |cs| - 1 {
      InsertAllFirst(m, front, k, i);
    } else {
      InsertAllKeys(m, front);
    }
  }

  /** The index has a record for every candidate's name and no other. */
  lemma IndexKeys(fs: FileSystem, prefix: string, c: Collaborators)
    ensures Index(fs, prefix, c).Keys == Names(Candidates(fs, prefix, c))
  {
    InsertAllKeys(map[], Candidates(fs, prefix, c));
  }

  /** Each name's record is the first candidate met with that name. */
  lemma IndexFirst(fs: FileSystem, prefix: string, c: Collaborators, k: string, i: int)
    requires IsFirstNamed(Candidates(fs, prefix, c), k, i)
    ensures k in Index(fs, prefix, c) && Index(fs, prefix, c)[k] == Candidates(fs, prefix, c)[i]
  {
    InsertAllFirst(map[], Candidates(fs, prefix, c), k, i);
  }

  /** Merging two phases: a name of the first phase keeps its first record there. */
  lemma FirstPhaseWins(a: seq<CMakePackage>, b: seq<CMakePackage>, k: string, i: int)
    requires IsFirstNamed(a, k, i)
    ensures k in InsertAll(map[], a + b) && InsertAll(map[], a + b)[k] == a[i]
  {
    FirstNamedInFront(a, b, k, i);
    InsertAllFirst(map[], a + b, k, i);
  }

  /** Merging two phases: a name only the second phase gives keeps its first record there. */
  lemma SecondPhaseFallback(a: seq<CMakePackage>, b: seq<CMakePackage>, k: string, i: int)
    requires k !in Names(a)
    requires IsFirstNamed(b, k, i)
    ensures k in InsertAll(map[], a + b) && InsertAll(map[], a + b)[k] == b[i]
  {
    FirstNamedInBack(a, b, k, i);
    InsertAllFirst(map[], a + b, k, |a| + i);
  }

  /** A name some config tree gives is kept with the first such tree's
      record, whatever the library roots hold. */
  lemma ConfigWins(fs: FileSystem, prefix: string, c: Collaborators, k: string, i: int)
    requires IsFirstNamed(ConfigCandidates(c, GlobShareTrees(fs, prefix)), k, i)
    ensures k in Index(fs, prefix, c)
    ensures Index(fs, prefix, c)[k] == ConfigCandidates(c, GlobShareTrees(fs, prefix))[i]
  {
    FirstPhaseWins(ConfigCandidates(c, GlobShareTrees(fs, prefix)), LibCandidates(fs, c, LibRoots(fs, prefix)), k, i);
  }

  /** A name no config tree gives is kept with its first library-root record. */
  lemma LibFallback(fs: FileSystem, prefix: string, c: Collaborators, k: string, i: int)
    requires k !in Names(ConfigCandidates(c, GlobShareTrees(fs, prefix)))
    requires IsFirstNamed(LibCandidates(fs, c, LibRoots(fs, prefix)), k, i)
    ensures k in Index(fs, prefix, c)
    ensures Index(fs, prefix, c)[k] == LibCandidates(fs, c, LibRoots(fs, prefix))[i]
  {
    SecondPhaseFallback(ConfigCandidates(c, GlobShareTrees(fs, prefix)), LibCandidates(fs, c, LibRoots(fs, prefix)), k, i);
  }

  // ---------------------------------------------------------------------
  // Record shape
  // ---------------------------------------------------------------------

  ghost predicate WellKeyed(m: map<string, CMakePackage>)
  {
    forall k :: k in m ==> m[k].name == k && m[k].from == System
  }

  lemma {:induction false} InsertAllWellKeyed(m: map<string, CMakePackage>, cs: seq<CMakePackage>)
    requires WellKeyed(m)
    requires forall p <- cs :: p.from == System
    ensures WellKeyed(InsertAll(m, cs))
    decreases |cs|
  {
    if cs != [] {
      InsertAllWellKeyed(m, cs[..|cs| - 1]);
    }
  }

  /** Every record is filed under its own name and comes from the system prefix. */
  lemma RecordShape(fs: FileSystem, prefix: string, c: Collaborators)
    ensures forall k :: k in Index(fs, prefix, c) ==>
              Index(fs, prefix, c)[k].name == k && Index(fs, prefix, c)[k].from == System
  {
    InsertAllWellKeyed(map[], Candidates(fs, prefix, c));
  }

  /** Nothing to scan gives the empty index. */
  lemma NothingFound(fs: FileSystem, prefix: string, c: Collaborators)
    requires GlobShareTrees(fs, prefix) == [] && LibRoots(fs, prefix) == []
    ensures Index(fs, prefix, c) == map[]
  {
    assert Candidates(fs, prefix, c) == [];
  }

  // ---------------------------------------------------------------------
  // Names cut at the first dot
  // ---------------------------------------------------------------------

  /** A name with no dot is kept whole. */
  lemma {:induction false} BeforeFirstDotNoDot(a: string)
    requires '.' !in a
    ensures BeforeFirstDot(a) == a
  {
    if a != [] {
      assert a == [a[0]] + a[1..];
      BeforeFirstDotNoDot(a[1..]);
    }
  }

  /** A name is cut just before its first dot, whatever follows. */
  lemma {:induction false} BeforeFirstDotSplit(a: string, b: string)
    requires '.' !in a
    ensures BeforeFirstDot(a + "." + b) == a
  {
    if a != [] {
      assert (a + "." + b)[1..] == a[1..] + "." + b;
      assert a == [a[0]] + a[1..];
      BeforeFirstDotSplit(a[1..], b);
    }
  }

  lemma BeforeFirstDotExamples()
    ensures BeforeFirstDot("FindFoo.cmake") == "FindFoo"
    ensures BeforeFirstDot("Foo.Bar.cmake") == "Foo"
    ensures BeforeFirstDot(".cmake") == ""
    ensures BeforeFirstDot("Foo") == "Foo"
  {
    BeforeFirstDotSplit("FindFoo", "cmake");
    assert "FindFoo" + "." + "cmake" == "FindFoo.cmake";
    BeforeFirstDotSplit("Foo", "Bar.cmake");
    assert "Foo" + "." + "Bar.cmake" == "Foo.Bar.cmake";
    BeforeFirstDotNoDot("Foo");
  }
}
