/**
  The Windows/MSYS package index: from one installation prefix, find the
  CMake packages under `share/<N>/cmake/` (config trees) and under the
  library roots `lib/cmake`, `lib32/cmake`, `lib64/cmake`, `share/cmake`,
  and build one map from package name to record in which the first record
  inserted under a name is kept.
*/
module PackageWin {
  import opened Wrappers
  import opened Snapshot
  import opened Package
  import opened FindPackage

  // ---------------------------------------------------------------------
  // The prefix
  // ---------------------------------------------------------------------

  const MSYSTEM_PREFIX: string := "MSYSTEM_PREFIX"
  const CMAKE_PREFIX_PATH: string := "CMAKE_PREFIX_PATH"

  /** The value of an environment variable; `std::env::var` fails on a
      value that is not valid Unicode. */
  datatype EnvValue = Unicode(value: string) | NotUnicode

  type Environment = map<string, EnvValue>

  /** `std::env::var(key).ok()` */
  function Var(env: Environment, key: string): (r: Option<string>)
    ensures r.Some? <==> key in env && env[key].Unicode?
    ensures r.Some? ==> env[key] == Unicode(r.value)
  {
    if key in env && env[key].Unicode? then Some(env[key].value) else None
  }

  /** `get_prefix`: `MSYSTEM_PREFIX` if it is set, else `CMAKE_PREFIX_PATH`. */
  function GetPrefix(env: Environment): (r: Option<string>)
    ensures MSYSTEM_PREFIX in env && env[MSYSTEM_PREFIX].Unicode? ==>
              r == Some(env[MSYSTEM_PREFIX].value)
    ensures !(MSYSTEM_PREFIX in env && env[MSYSTEM_PREFIX].Unicode?) ==>
              r == (if CMAKE_PREFIX_PATH in env && env[CMAKE_PREFIX_PATH].Unicode?
                    then Some(env[CMAKE_PREFIX_PATH].value) else None)
    ensures r.Some? <==> (exists key :: key in env && env[key].Unicode? && key in [MSYSTEM_PREFIX, CMAKE_PREFIX_PATH])
  {
    match Var(env, MSYSTEM_PREFIX)
    case Some(p) => Some(p)
    case None => Var(env, CMAKE_PREFIX_PATH)
  }

  // ---------------------------------------------------------------------
  // Library roots
  // ---------------------------------------------------------------------

  const LIBS: seq<string> := ["lib", "lib32", "lib64", "share"]

  /** `<prefix>/<lib>/cmake` */
  function LibDir(prefix: string, lib: string): Path
  {
    Path(prefix, [lib, "cmake"])
  }

  /** The `<prefix>/<lib>/cmake` of `libs` that exist, in the order of `libs`. */
  function ExistingRoots(fs: FileSystem, prefix: string, libs: seq<string>): seq<Path>
  {
    if libs == [] then []
    else
      var p := LibDir(prefix, libs[|libs| - 1]);
      ExistingRoots(fs, prefix, libs[..|libs| - 1]) + (if Exists(fs, p) then [p] else [])
  }

  /** The library roots `get_available_libs` returns. */
  function LibRoots(fs: FileSystem, prefix: string): seq<Path>
  {
    ExistingRoots(fs, prefix, LIBS)
  }

  /** `get_available_libs` */
  method GetAvailableLibs(fs: FileSystem, prefix: string) returns (ava: seq<Path>)
    ensures ava == LibRoots(fs, prefix)
  {
    ava := [];
    for i := 0 to |LIBS|
      invariant ava == ExistingRoots(fs, prefix, LIBS[..i])
    {
      var p := LibDir(prefix, LIBS[i]);
      if Exists(fs, p) {
        ava := ava + [p];
      }
      assert LIBS[..i + 1][..i] == LIBS[..i];
    }
    assert LIBS[..|LIBS|] == LIBS;
  }

  // ---------------------------------------------------------------------
  // Names
  // ---------------------------------------------------------------------

  /** `name.split('.').collect::<Vec<_>>()[0]`: the part of a file name
      before its first dot. */
  function BeforeFirstDot(s: string): (r: string)
    ensures r <= s
    ensures '.' !in r
    ensures r == s || s[|r|] == '.'
  {
    if s == [] || s[0] == '.' then []
    else [s[0]] + BeforeFirstDot(s[1..])
  }

  /** `path.parent().file_name()` */
  function ParentName(p: Path): string
    requires |p.parts| >= 2
  {
    p.parts[|p.parts| - 2]
  }

  // ---------------------------------------------------------------------
  // Scanning the files of one directory
  // ---------------------------------------------------------------------

  /** The two kinds of directory whose files the scanner reads: a config
      tree `share/<N>/cmake/`, or a directory child of a library root. */
  datatype ScanKind = ConfigTree | PackageDir

  /** Whether a scan of kind `kind` records `e` as a navigation target. A
      config tree records every `*.cmake` entry the glob yields; a package
      directory records each regular file whose name matches `CMAKEREGEX`. */
  predicate IsTarget(c: Collaborators, kind: ScanKind, e: Entry)
  {
    match kind
    case ConfigTree => true
    case PackageDir => IsFile(e) && c.isModule(e.node.name)
  }

  /** Whether a scan of kind `kind` reads a version from `e`.  A config tree
      matches `CMAKECONFIGVERSION` against the whole path, a package directory
      against the file name of a navigation target. */
  predicate IsVersionFile(c: Collaborators, kind: ScanKind, e: Entry)
  {
    match kind
    case ConfigTree => c.isConfigVersion(c.pathText(e.path))
    case PackageDir => IsTarget(c, kind, e) && c.isConfigVersion(e.node.name)
  }

  /** A version file that can be read. */
  predicate VersionSource(c: Collaborators, kind: ScanKind, e: Entry)
  {
    IsVersionFile(c, kind, e) && ReadToString(e).Some?
  }

  /** The canonicalised paths of the navigation targets among `es`, in order. */
  function Targets(c: Collaborators, kind: ScanKind, es: seq<Entry>): (r: seq<Path>)
    ensures |r| <= |es|
    ensures kind == ConfigTree ==> |r| == |es|
  {
    if es == [] then []
    else
      var e := es[|es| - 1];
      Targets(c, kind, es[..|es| - 1]) + (if IsTarget(c, kind, e) then [c.canonicalize(e.path)] else [])
  }

  /** The version read from the last readable version file among `es`. */
  function LastVersion(c: Collaborators, kind: ScanKind, es: seq<Entry>): Option<string>
  {
    if es == [] then None
    else
      var e := es[|es| - 1];
      if VersionSource(c, kind, e) then c.getVersion(ReadToString(e).value)
      else LastVersion(c, kind, es[..|es| - 1])
  }

  /** The loop over the `*.cmake` files of one config tree (lines 60-73). */
  method ScanConfigFiles(c: Collaborators, files: seq<Entry>)
    returns (tojump: seq<Path>, version: Option<string>, ispackage: bool)
    ensures tojump == Targets(c, ConfigTree, files)
    ensures version == LastVersion(c, ConfigTree, files)
    ensures ispackage <==> exists k :: 0 <= k < |files| && c.isConfig(c.pathText(files[k].path))
  {
    tojump, version, ispackage := [], None, false;
    for i := 0 to |files|
      invariant tojump == Targets(c, ConfigTree, files[..i])
      invariant version == LastVersion(c, ConfigTree, files[..i])
      invariant ispackage <==> exists k :: 0 <= k < i && c.isConfig(c.pathText(files[k].path))
    {
      var f := files[i];
      assert files[..i + 1][..i] == files[..i];
      tojump := tojump + [c.canonicalize(f.path)];
      if c.isConfig(c.pathText(f.path)) {
        ispackage := true;
      }
      if c.isConfigVersion(c.pathText(f.path)) {
        var context := ReadToString(f);
        if context.Some? {
          version := c.getVersion(context.value);
        }
      }
    }
    assert files[..|files|] == files;
  }

  /** The loop over the entries of one directory child of a library root
      (lines 112-125). */
  method ScanPackageDir(c: Collaborators, paths: seq<Entry>)
    returns (tojump: seq<Path>, version: Option<string>)
    ensures tojump == Targets(c, PackageDir, paths)
    ensures version == LastVersion(c, PackageDir, paths)
  {
    tojump, version := [], None;
    for i := 0 to |paths|
      invariant tojump == Targets(c, PackageDir, paths[..i])
      invariant version == LastVersion(c, PackageDir, paths[..i])
    {
      var path := paths[i];
      assert paths[..i + 1][..i] == paths[..i];
      var filepath := c.canonicalize(path.path);
      if IsFile(path) {
        var filename := path.node.name;
        if c.isModule(filename) {
          tojump := tojump + [filepath];
          if c.isConfigVersion(filename) {
            var context := ReadToString(path);
            if context.Some? {
              version := c.getVersion(context.value);
            }
          }
        }
      }
    }
    assert paths[..|paths|] == paths;
  }

  // ---------------------------------------------------------------------
  // Config-tree phase
  // ---------------------------------------------------------------------

  /** The `cmake` directory inside the child `e` of `share`, as the glob
      `share/<any>/cmake/` meets it: the literal `cmake` component is looked up
      by name, and the trailing `/` keeps only a directory. */
  function CMakeTreeOf(e: Entry): Option<Entry>
  {
    match Walk(e.node, ["cmake"])
    case Some(n) => if n.DirNode? then Some(Entry(Join(e.path, "cmake"), n)) else None
    case None => None
  }

  /** The `cmake` directories of the children `es` of `share`, in listing order. */
  function TreesIn(es: seq<Entry>): (r: seq<Entry>)
    ensures forall t <- r :: exists e <- es :: CMakeTreeOf(e) == Some(t)
  {
    if es == [] then []
    else TreesIn(es[..|es| - 1]) + CMakeTreeOf(es[|es| - 1]).ToSeq()
  }

  /** The glob `<prefix>/share/<any>/cmake/`: the `cmake` directories of the
      children of `share`, which must be listable. */
  function GlobShareTrees(fs: FileSystem, prefix: string): (r: seq<Entry>)
    ensures forall t <- r :: t.node.DirNode? && t.path.root == prefix &&
                             |t.path.parts| == 3 && t.path.parts[0] == "share" && t.path.parts[2] == "cmake"
  {
    TreesIn(ListingOf(fs, Path(prefix, ["share"])))
  }

  predicate HasCMakeSuffix(name: string)
  {
    |name| >= 6 && name[|name| - 6..] == ".cmake"
  }

  /** The entries whose names end in `.cmake`, in order. */
  function CMakeEntries(es: seq<Entry>): (r: seq<Entry>)
    ensures |r| <= |es|
    ensures forall e <- r :: e in es && HasCMakeSuffix(e.node.name)
  {
    if es == [] then []
    else
      var e := es[|es| - 1];
      CMakeEntries(es[..|es| - 1]) + (if HasCMakeSuffix(e.node.name) then [e] else [])
  }

  /** The glob `<tree>/<any>.cmake`; an unlistable tree yields nothing. */
  function GlobCMakeFiles(tree: Entry): (r: seq<Entry>)
    ensures List(tree).None? ==> r == []
    ensures forall e <- r :: List(tree).Some? && e in List(tree).value && HasCMakeSuffix(e.node.name)
  {
    match List(tree)
    case None => []
    case Some(es) => CMakeEntries(es)
  }

  /** The record a config tree contributes: one iff some `*.cmake` file's
      path matches `CMAKECONFIG`. */
  function ConfigPackage(c: Collaborators, tree: Entry): (r: Option<CMakePackage>)
    requires |tree.path.parts| >= 2
    ensures r.Some? <==> exists k :: 0 <= k < |GlobCMakeFiles(tree)| && c.isConfig(c.pathText(GlobCMakeFiles(tree)[k].path))
    ensures r.Some? ==> r.value.name == ParentName(tree.path) && r.value.filetype == Dir &&
                        r.value.filepath == c.toUrl(tree.path) && |r.value.tojump| == |GlobCMakeFiles(tree)|
  {
    var files := GlobCMakeFiles(tree);
    if exists k :: 0 <= k < |files| && c.isConfig(c.pathText(files[k].path)) then
      Some(CMakePackage(ParentName(tree.path), Dir, c.toUrl(tree.path),
                        LastVersion(c, ConfigTree, files), Targets(c, ConfigTree, files), System))
    else None
  }

  /** The records of the config trees `trees`, in order. */
  function ConfigCandidates(c: Collaborators, trees: seq<Entry>): (r: seq<CMakePackage>)
    requires forall t <- trees :: |t.path.parts| >= 2
    ensures |r| <= |trees|
    ensures forall p <- r :: p.filetype == Dir && p.from == System
    ensures forall p <- r :: exists t <- trees :: p.name == ParentName(t.path) && p.filepath == c.toUrl(t.path)
  {
    if trees == [] then []
    else
      ConfigCandidates(c, trees[..|trees| - 1]) + ConfigPackage(c, trees[|trees| - 1]).ToSeq()
  }

  // ---------------------------------------------------------------------
  // Library-root phase
  // ---------------------------------------------------------------------

  /** The record a child of a library root contributes: a directory that
      can be listed gives a `Dir` record named after it, a directory that
      cannot gives none, anything else a `File` record named by
      `BeforeFirstDot`. */
  function ChildPackage(c: Collaborators, e: Entry): (r: Option<CMakePackage>)
    ensures r.None? <==> IsDir(e) && List(e).None?
    ensures r.Some? ==> r.value.filetype == (if IsDir(e) then Dir else File)
    ensures r.Some? && IsDir(e) ==> r.value.name == e.node.name
    ensures r.Some? && !IsDir(e) ==> r.value.name == BeforeFirstDot(e.node.name) && r.value.tojump == [c.canonicalize(e.path)]
  {
    if IsDir(e) then
      match List(e)
      case None => None
      case Some(es) =>
        Some(CMakePackage(e.node.name, Dir, c.toUrl(e.path),
                          LastVersion(c, PackageDir, es), Targets(c, PackageDir, es), System))
    else
      Some(CMakePackage(BeforeFirstDot(e.node.name), File, c.toUrl(e.path),
                        None, [c.canonicalize(e.path)], System))
  }

  /** The records of the children `es` of one library root, in order. */
  function ChildCandidates(c: Collaborators, es: seq<Entry>): (r: seq<CMakePackage>)
    ensures |r| <= |es|
  {
    if es == [] then []
    else
      ChildCandidates(c, es[..|es| - 1]) + ChildPackage(c, es[|es| - 1]).ToSeq()
  }

  /** The records of the library roots `libs`, root by root. */
  function LibCandidates(fs: FileSystem, c: Collaborators, libs: seq<Path>): (r: seq<CMakePackage>)
    ensures |libs| == 1 ==> r == ChildCandidates(c, ListingOf(fs, libs[0]))
  {
    if libs == [] then []
    else LibCandidates(fs, c, libs[..|libs| - 1]) + ChildCandidates(c, ListingOf(fs, libs[|libs| - 1]))
  }

  // ---------------------------------------------------------------------
  // Merging
  // ---------------------------------------------------------------------

  /** `packages.entry(p.name).or_insert_with(|| p)` */
  function Insert(m: map<string, CMakePackage>, p: CMakePackage): (r: map<string, CMakePackage>)
    ensures r.Keys == m.Keys + {p.name}
    ensures forall k <- m.Keys :: r[k] == m[k]
    ensures p.name !in m ==> r[p.name] == p
  {
    if p.name in m then m else m[p.name := p]
  }

  /** Insert `cs` into `m` one after the other. */
  function InsertAll(m: map<string, CMakePackage>, cs: seq<CMakePackage>): map<string, CMakePackage>
  {
    if cs == [] then m else Insert(InsertAll(m, cs[..|cs| - 1]), cs[|cs| - 1])
  }

  /** Every candidate in the order the scan meets it: config trees first,
      then the library roots. */
  function Candidates(fs: FileSystem, prefix: string, c: Collaborators): seq<CMakePackage>
  {
    ConfigCandidates(c, GlobShareTrees(fs, prefix)) + LibCandidates(fs, c, LibRoots(fs, prefix))
  }

  /** The index `get_cmake_message_with_prefix` builds. */
  function Index(fs: FileSystem, prefix: string, c: Collaborators): map<string, CMakePackage>
  {
    InsertAll(map[], Candidates(fs, prefix, c))
  }

  /** Inserting one more optional candidate. */
  lemma InsertAllStep(m: map<string, CMakePackage>, cs: seq<CMakePackage>, o: Option<CMakePackage>)
    ensures InsertAll(m, cs + o.ToSeq()) == if o.Some? then Insert(InsertAll(m, cs), o.value) else InsertAll(m, cs)
  {
    if o.Some? {
      assert (cs + [o.value])[..|cs|] == cs;
    } else {
      assert cs + [] == cs;
    }
  }

  lemma {:induction false} InsertAllAppend(m: map<string, CMakePackage>, a: seq<CMakePackage>, b: seq<CMakePackage>)
    ensures InsertAll(m, a + b) == InsertAll(InsertAll(m, a), b)
    decreases |b|
  {
    if b == [] {
      assert a + b == a;
    } else {
      assert (a + b)[..|a + b| - 1] == a + b[..|b| - 1];
      InsertAllAppend(m, a, b[..|b| - 1]);
    }
  }

  // ---------------------------------------------------------------------
  // The scan
  // ---------------------------------------------------------------------

  /** The loop over the children of one library root (lines 101-144):
      each child's record is inserted unless its name is already taken. */
  method InsertLibRootChildren(c: Collaborators, paths: seq<Entry>, packages0: map<string, CMakePackage>)
    returns (packages: map<string, CMakePackage>)
    ensures packages == InsertAll(packages0, ChildCandidates(c, paths))
  {
    packages := packages0;
    for k := 0 to |paths|
      invariant packages == InsertAll(packages0, ChildCandidates(c, paths[..k]))
    {
      var path := paths[k];
      assert paths[..k + 1][..k] == paths[..k];
      assert ChildCandidates(c, paths[..k + 1]) == ChildCandidates(c, paths[..k]) + ChildPackage(c, path).ToSeq();
      InsertAllStep(packages0, ChildCandidates(c, paths[..k]), ChildPackage(c, path));
      var version: Option<string> := None;
      var tojump: seq<Path> := [];
      var pathname := path.node.name;
      var packagepath := c.toUrl(path.path);
      var packagetype, packagename;
      if IsDir(path) {
        var sub := List(path);
        if sub.None? {
          assert ChildPackage(c, path).None?;
          continue;
        }
        tojump, version := ScanPackageDir(c, sub.value);
        packagetype, packagename := Dir, pathname;
      } else {
        tojump := tojump + [c.canonicalize(path.path)];
        packagetype, packagename := File, BeforeFirstDot(pathname);
        assert tojump == [c.canonicalize(path.path)];
      }
      assert ChildPackage(c, path) == Some(CMakePackage(packagename, packagetype, packagepath, version, tojump, System));
      if packagename !in packages {
        packages := packages[packagename := CMakePackage(packagename, packagetype, packagepath, version, tojump, System)];
      }
    }
    assert paths[..|paths|] == paths;
  }

  /** The config-tree phase (lines 55-95): each tree that is a package is
      inserted under the name of the parent of its `cmake` directory. */
  method InsertConfigTrees(c: Collaborators, trees: seq<Entry>, packages0: map<string, CMakePackage>)
    returns (packages: map<string, CMakePackage>)
    requires forall t <- trees :: |t.path.parts| >= 2
    ensures packages == InsertAll(packages0, ConfigCandidates(c, trees))
  {
    packages := packages0;
    for i := 0 to |trees|
      invariant packages == InsertAll(packages0, ConfigCandidates(c, trees[..i]))
    {
      var path := trees[i];
      assert trees[..i + 1][..i] == trees[..i];
      assert ConfigCandidates(c, trees[..i + 1]) == ConfigCandidates(c, trees[..i]) + ConfigPackage(c, path).ToSeq();
      InsertAllStep(packages0, ConfigCandidates(c, trees[..i]), ConfigPackage(c, path));
      var tojump, version, ispackage := ScanConfigFiles(c, GlobCMakeFiles(path));
      if ispackage {
        var filepath := c.toUrl(path.path);
        var packagename := ParentName(path.path);
        assert ConfigPackage(c, path) == Some(CMakePackage(packagename, Dir, filepath, version, tojump, System));
        if packagename !in packages {
          packages := packages[packagename := CMakePackage(packagename, Dir, filepath, version, tojump, System)];
        }
      } else {
        assert ConfigPackage(c, path).None?;
      }
    }
    assert trees[..|trees|] == trees;
  }

  /** The library-root phase (lines 97-145), root by root. */
  method InsertLibRoots(fs: FileSystem, c: Collaborators, libs: seq<Path>, packages0: map<string, CMakePackage>)
    returns (packages: map<string, CMakePackage>)
    ensures packages == InsertAll(packages0, LibCandidates(fs, c, libs))
  {
    packages := packages0;
    for j := 0 to |libs|
      invariant packages == InsertAll(packages0, LibCandidates(fs, c, libs[..j]))
    {
      assert libs[..j + 1][..j] == libs[..j];
      InsertAllAppend(packages0, LibCandidates(fs, c, libs[..j]), ChildCandidates(c, ListingOf(fs, libs[j])));
      var listing := ReadDir(fs, libs[j]);
      if listing.Some? {
        packages := InsertLibRootChildren(c, listing.value, packages);
      }
    }
    assert libs[..|libs|] == libs;
  }

  /** `get_cmake_message_with_prefix`: the config-tree phase, then the
      library-root phase, into one map. */
  method GetCMakeMessageWithPrefix(fs: FileSystem, prefix: string, c: Collaborators)
    returns (packages: map<string, CMakePackage>)
    ensures packages == Index(fs, prefix, c)
  {
    var trees := GlobShareTrees(fs, prefix);
    packages := InsertConfigTrees(c, trees, map[]);
    var libs := GetAvailableLibs(fs, prefix);
    packages := InsertLibRoots(fs, c, libs, packages);
    InsertAllAppend(map[], ConfigCandidates(c, trees), LibCandidates(fs, c, libs));
  }

  /** `get_cmake_message`: the index for the prefix the environment names,
      or the empty index when it names none. */
  method GetCMakeMessage(env: Environment, fs: FileSystem, c: Collaborators)
    returns (packages: map<string, CMakePackage>)
    ensures GetPrefix(env).None? ==> packages == map[]
    ensures GetPrefix(env).Some? ==> packages == Index(fs, GetPrefix(env).value, c)
  {
    var prefix := GetPrefix(env);
    if prefix.None? {
      return map[];
    }
    packages := GetCMakeMessageWithPrefix(fs, prefix.value, c);
  }
}
