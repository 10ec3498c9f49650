# CMake package index for an MSYS/Windows prefix

This project models, in Dafny, how the language server's Windows package
finder (`src/utils/findpackage/packagewin.rs`) builds its index of CMake
packages from one installation prefix. It also proves what that index
promises.

- **Prefix.** The prefix is `MSYSTEM_PREFIX` if that is set, else
  `CMAKE_PREFIX_PATH`. With neither, the index is empty.
- **Config-tree phase.** Every `share/<N>/cmake/` directory whose `*.cmake`
  files include one matching the config regex becomes a `Dir` record named
  `<N>`.
- **Library-root phase.** The scanner then walks each existing root among
  `lib/cmake`, `lib32/cmake`, `lib64/cmake` and `share/cmake`, in that
  order.
  - A directory child gives a `Dir` record named after it.
  - Any other child gives a `File` record named by the part of its file name
    before the first dot.
- **Merge.** Both phases insert into one map, and the first record under a
  name is kept. So config trees beat library roots.

The file system is an immutable snapshot (`Snapshot`). It is a tree of named
directories and files, and each directory has one listing order. A directory
may be unlistable and a file may be unreadable. The collaborators the source
takes from its parent module and from libraries are function-valued inputs
(`FindPackage.Collaborators`), left uninterpreted:
- the three regexes `CMAKECONFIG`, `CMAKECONFIGVERSION` and `CMAKEREGEX`;
- `get_version`;
- `Path::to_str`;
- canonicalisation;
- `Url::from_file_path`.

The environment is a map from variable names to values. A value can be
marked as not valid Unicode, which `std::env::var` rejects.

Layout:
- `wrappers.dfy`: `Option`.
- `snapshot.dfy`: paths, nodes, lookup and listing.
- `package.dfy`: the record type.
- `findpackage.dfy`: the collaborators.
- `packagewin.dfy`: the scanner.
  - Specification functions give the candidates each phase meets, in order,
    and the resulting `Index`.
  - Imperative methods mirror the source's loops and are proved equal to
    those functions.
- `packagewin_properties.dfy`: the properties.
- `packagewin_example.dfy`: the tree the source's `test_package_search`
  builds, and its index.

`Index` is a function of the snapshot, the prefix and the collaborators. So
scanning an unchanged snapshot twice gives the same index.

Where the code differs from what one might expect, the model follows the
code:
- In a config tree, `CMAKECONFIG` and `CMAKECONFIGVERSION` are matched
  against the whole path text of a file (lines 65 and 68). In a library-root
  directory `CMAKECONFIG` is never consulted: `CMAKEREGEX` and
  `CMAKECONFIGVERSION` are matched against the file name (lines 116 and 118).
- In a library-root directory, a version is read only from a regular file
  that matches both `CMAKEREGEX` and `CMAKECONFIGVERSION` (the nested
  conditions at lines 114-118).
- The version is overwritten by every readable version file, even when
  `get_version` returns `None` for it. So the last such file decides, not
  the last successful parse.
- The glob `*.cmake` in a config tree takes every entry whose name ends in
  `.cmake`, directories included. All of them become navigation targets.
- In the source's test, `VulkanHeaders` is found by the library-root phase
  (through `share/cmake`), not by the config-tree phase.

## Model

| member | source | states |
|---|---|---|
| PackageWin.GetPrefix | src/utils/findpackage/packagewin.rs:21-26 | a valid `MSYSTEM_PREFIX` is the prefix; otherwise a valid `CMAKE_PREFIX_PATH` is; there is a prefix iff one of the two is set to valid Unicode |
| PackageWin.Var | src/utils/findpackage/packagewin.rs:22-25 | `std::env::var(..).ok()` gives a value iff the variable is set to valid Unicode, and then it gives that value |
| Snapshot.ListingOf | src/utils/findpackage/packagewin.rs:98-101 | every entry `read_dir` yields for a directory is that directory joined with the entry's name |
| Snapshot.EntriesOf | src/utils/findpackage/packagewin.rs:109-112 | a listing has one entry per child, each the directory joined with a child's name |
| PackageWin.GetAvailableLibs | src/utils/findpackage/packagewin.rs:28-38 | the loop over `LIBS` returns exactly `LibRoots`, the existing `<prefix>/<lib>/cmake` in `LIBS` order |
| PackageWinProperties.ExistingRootsMembers | src/utils/findpackage/packagewin.rs:28-38 | a path is returned iff it is `<prefix>/<lib>/cmake` for a listed `lib` and exists; the result is no longer than the list of libs |
| PackageWinProperties.ExistingRootsDistinct | src/utils/findpackage/packagewin.rs:28-38 | distinct library names give a result without repetitions |
| PackageWinProperties.LibRootsExactly | src/utils/findpackage/packagewin.rs:28-38 | the roots are those of `lib/cmake`, `lib32/cmake`, `lib64/cmake`, `share/cmake` that exist, in that fixed order, each at most once |
| PackageWin.GetCMakeMessage | src/utils/findpackage/packagewin.rs:46-51 | no prefix gives the empty map; otherwise the index of the prefix |
| PackageWin.GetCMakeMessageWithPrefix | src/utils/findpackage/packagewin.rs:53-147 | the map built in place equals `Index`: the config-tree candidates then the library-root candidates, inserted first-wins |
| PackageWin.InsertConfigTrees | src/utils/findpackage/packagewin.rs:55-95 | the config-tree loop inserts each package tree's record unless its name is taken, i.e. yields `InsertAll(packages, ConfigCandidates(trees))` |
| PackageWin.ScanConfigFiles | src/utils/findpackage/packagewin.rs:60-73 | `tojump` is the targets of the listing, `version` its last version, and `ispackage` holds iff some file's path matches `CMAKECONFIG` |
| PackageWin.GlobShareTrees | src/utils/findpackage/packagewin.rs:55-56 | every tree the glob yields is a directory `<prefix>/share/<N>/cmake`, so its parent has a name |
| PackageWin.TreesIn | src/utils/findpackage/packagewin.rs:55-56 | every tree taken from the children of `share` is the `cmake` directory of one of them |
| PackageWinProperties.TreesInMembers | src/utils/findpackage/packagewin.rs:55-56 | the trees are exactly the `cmake` directories of the children of `share` |
| PackageWinProperties.GlobShareTreesExactly | src/utils/findpackage/packagewin.rs:55-56 | the glob yields the `cmake` directory of every child of a listable `share`, and nothing else |
| PackageWinProperties.GlobShareTreesComplete | src/utils/findpackage/packagewin.rs:55-56 | every directory `<prefix>/share/<name>/cmake` is yielded, with its own node, whenever `share` can be listed |
| PackageWin.GlobCMakeFiles | src/utils/findpackage/packagewin.rs:57 | an unlistable tree yields nothing; every yielded entry is listed in the tree and its name ends in `.cmake` |
| PackageWin.CMakeEntries | src/utils/findpackage/packagewin.rs:57 | the `*.cmake` filter keeps only listed entries whose names end in `.cmake`, never more than it is given |
| PackageWin.Targets | src/utils/findpackage/packagewin.rs:63-64 | a directory gives at most one navigation target per entry, and in a config tree exactly one |
| PackageWin.ConfigPackage | src/utils/findpackage/packagewin.rs:74-92 | a tree gives a record iff one of its `*.cmake` files matches `CMAKECONFIG`; the record is a `Dir` named after the parent of `cmake`, located at the tree, with one target per file |
| PackageWin.ConfigCandidates | src/utils/findpackage/packagewin.rs:83-92 | at most one record per tree; each is a `Dir` record from `System`, named after the parent of some tree's `cmake` directory and located at that tree |
| PackageWin.InsertLibRoots | src/utils/findpackage/packagewin.rs:97-145 | the library-root loop inserts the records of every root's children in root order, first-wins |
| PackageWin.InsertLibRootChildren | src/utils/findpackage/packagewin.rs:101-144 | the loop over one root's children inserts each child's record unless its name is taken, and skips unreadable directories |
| PackageWin.ScanPackageDir | src/utils/findpackage/packagewin.rs:112-125 | `tojump` is the canonical paths of the regular files matching `CMAKEREGEX`, in listing order; `version` is from the last readable one also matching `CMAKECONFIGVERSION` |
| PackageWin.ChildPackage | src/utils/findpackage/packagewin.rs:102-143 | only an unreadable directory child gives no record; a child's record is a `Dir` iff the child is a directory; a directory's record is named after it, a file's by `BeforeFirstDot` with itself as the only target |
| PackageWinProperties.LibCandidatesAppend | src/utils/findpackage/packagewin.rs:97-100 | roots are scanned one after another: the records of roots `a + b` are those of `a` followed by those of `b`, so an earlier root's records come before a later root's |
| PackageWin.ChildCandidates | src/utils/findpackage/packagewin.rs:134-143 | at most one record per listed child |
| PackageWin.BeforeFirstDot | src/utils/findpackage/packagewin.rs:130 | the result is a prefix of the name, contains no dot, and is either the whole name or is followed by a dot |
| PackageWinProperties.BeforeFirstDotNoDot | src/utils/findpackage/packagewin.rs:130 | a name without a dot is kept whole |
| PackageWinProperties.BeforeFirstDotSplit | src/utils/findpackage/packagewin.rs:130 | `a.b` is cut to `a` whenever `a` has no dot, whatever dots `b` holds |
| PackageWinProperties.BeforeFirstDotExamples | src/utils/findpackage/packagewin.rs:130 | `FindFoo.cmake` gives `FindFoo`, `Foo.Bar.cmake` gives `Foo`, `.cmake` gives the empty name, `Foo` gives `Foo` |
| PackageWinProperties.TargetsAppend | src/utils/findpackage/packagewin.rs:63-64 | navigation targets are collected entry by entry in listing order (targets of a concatenation are the concatenation of targets) |
| PackageWinProperties.TargetsMembers | src/utils/findpackage/packagewin.rs:113-117 | a path is a target iff it is the canonical path of an entry the scan takes as a target |
| PackageWinProperties.ConfigTreeTargets | src/utils/findpackage/packagewin.rs:63-64 | in a config tree the targets are the canonical paths of every listed file, one per file, in order |
| PackageWinProperties.LastVersionNone | src/utils/findpackage/packagewin.rs:68-72 | with no readable version file the version is `None` |
| PackageWinProperties.LastVersionIsLast | src/utils/findpackage/packagewin.rs:118-122 | the version is `get_version` of the last readable version file, even if that is `None` after an earlier `Some` |
| PackageWinProperties.CMakeEntriesMembers | src/utils/findpackage/packagewin.rs:57 | the `*.cmake` glob yields exactly the listed entries whose names end in `.cmake` |
| PackageWinProperties.GlobCMakeFilesMembers | src/utils/findpackage/packagewin.rs:57 | a tree's `*.cmake` glob yields exactly its listed entries whose names end in `.cmake`, and nothing when the tree cannot be listed |
| PackageWinProperties.ConfigTreeRecord | src/utils/findpackage/packagewin.rs:57-92 | a tree yields a record iff one of its `*.cmake` files matches `CMAKECONFIG`; the record is a `Dir` named after the parent of `cmake`, located at the tree, targeting every listed file in order, with the last version |
| PackageWinProperties.ConfigCandidatesExactly | src/utils/findpackage/packagewin.rs:55-95 | the config phase's records are exactly the records of the package trees |
| PackageWinProperties.LibChildRecord | src/utils/findpackage/packagewin.rs:104-131 | an unreadable directory child gives no record; a readable one a `Dir` named exactly after it whose targets are the canonical paths of its regular `CMAKEREGEX` files, in listing order (targets of a split listing are the concatenation); any other child a `File` named by `BeforeFirstDot` whose only target is itself |
| PackageWinProperties.ChildCandidatesExactly | src/utils/findpackage/packagewin.rs:101-144 | one root's records are exactly the records of its children |
| PackageWinProperties.LibCandidatesExactly | src/utils/findpackage/packagewin.rs:97-145 | the library phase's records are exactly those of the children of the scanned roots |
| PackageWin.Insert | src/utils/findpackage/packagewin.rs:83-92 | `entry().or_insert_with()` adds the record's name to the keys, leaves every existing record unchanged, and files the record under a new name |
| PackageWinProperties.InsertAllKeys | src/utils/findpackage/packagewin.rs:83-92 | after inserting the candidates, the keys are the old keys plus the candidates' names |
| PackageWinProperties.InsertAllKeeps | src/utils/findpackage/packagewin.rs:134-143 | once a name is in the map, later candidates leave its record unchanged |
| PackageWinProperties.InsertAllFirst | src/utils/findpackage/packagewin.rs:134-143 | a name not yet in the map ends up with its first candidate |
| PackageWinProperties.IndexKeys | src/utils/findpackage/packagewin.rs:53-147 | the index holds a record for every candidate's name and no other |
| PackageWinProperties.IndexFirst | src/utils/findpackage/packagewin.rs:53-147 | each name's record is the first candidate met with that name |
| PackageWinProperties.FirstPhaseWins | src/utils/findpackage/packagewin.rs:83-92 | a name the first phase gives keeps that phase's first record whatever the second phase holds |
| PackageWinProperties.SecondPhaseFallback | src/utils/findpackage/packagewin.rs:134-143 | a name only the second phase gives keeps that phase's first record |
| PackageWinProperties.ConfigWins | src/utils/findpackage/packagewin.rs:83-92 | a config-tree record beats any library-root record with the same name |
| PackageWinProperties.LibFallback | src/utils/findpackage/packagewin.rs:134-143 | a name no config tree gives is kept with its first library-root record |
| PackageWinProperties.InsertAllWellKeyed | src/utils/findpackage/packagewin.rs:84-91 | first-wins insertion keeps every record filed under its own name |
| PackageWinProperties.RecordShape | src/utils/findpackage/packagewin.rs:134-143 | every record's name equals its key and its origin is `System` |
| PackageWinProperties.NothingFound | src/utils/findpackage/packagewin.rs:53-147 | with no config tree and no library root the index is empty |
| PackageWinExample.ExampleShareTrees | src/utils/findpackage/packagewin.rs:157-178 | in the test tree the only config tree is `share/ECM/cmake` |
| PackageWinExample.ExampleConfigCandidates | src/utils/findpackage/packagewin.rs:172-178 | the config phase gives only `ECM`: `Dir`, version `6.5.0`, targets its two files |
| PackageWinExample.ExampleEcmPackage | src/utils/findpackage/packagewin.rs:172-178 | the tree `share/ECM/cmake` is a package tree and gives the `ECM` record the test expects |
| PackageWinExample.ExampleLibRoots | src/utils/findpackage/packagewin.rs:157-160 | of the four roots only `share/cmake` exists in the test tree |
| PackageWinExample.ExampleLibCandidates | src/utils/findpackage/packagewin.rs:157-170 | the library phase gives only `VulkanHeaders`: `Dir`, version `1.3.295`, targets its two files |
| PackageWinExample.TestPackageSearch | src/utils/findpackage/packagewin.rs:149-211 | the index of the test tree is exactly `{VulkanHeaders, ECM}` with the records the test expects |

## Left out

- Real file-system access is replaced by a snapshot. This covers `glob::glob`, `fs::read_dir`, `metadata`, `exists` and `fs::read_to_string`.
  - Each directory has one listing order, used by both the glob and `read_dir`. The glob's alphabetical sorting is not modelled, and neither is the OS-dependent order of `read_dir`: the order is an input.
  - Symbolic links, special files and per-entry errors from `read_dir` are not modelled; a node is a file or a directory. The same goes for failing `metadata` calls.
  - A lookup by name sees through an unlistable directory. Listing alone needs `listable`.
- The prefix and the tree paths are used literally. Line 55 builds a glob pattern from the prefix, and line 57 builds one from each tree path, which holds the name `<N>` of a `share` child. Glob metacharacters in either (a prefix or a child name like `Qt[5]`) are not modelled. Neither are the glob pattern errors that lines 55 and 57 skip.
- Exists, CMakeTreeOf and GlobShareTrees: name lookup in the snapshot (`Snapshot.Child`) compares names exactly. On a default Windows file system, `Path::exists` (line 33) and the glob's literal components `share` and `cmake` (line 55) resolve through `metadata`, which ignores case. A root such as `Lib/CMake`, or a tree `share/Foo/CMake`, is therefore found by the source but not by the model. The `*.cmake` match of line 57 is case-sensitive in both.
- Both phases scan the same tree, rooted at the prefix string. The source builds the config-tree glob by string formatting (`{prefix}/share/...`, line 55) and the library roots with `Path::join` (lines 30-32). These differ when the prefix is empty (`CMAKE_PREFIX_PATH=""` is accepted as a prefix): the glob then searches the absolute `/share`, while the library roots are relative to the working directory. The model does not capture that difference.
- Reading environment variables is not modelled; the environment is a map given as input.
- The regexes `CMAKECONFIG`, `CMAKECONFIGVERSION` and `CMAKEREGEX`, and `get_version`, live in the parent module, which is not part of this model. They are uninterpreted inputs.
- `safe_canonicalize` (`path_absolutize`), `Url::from_file_path` and `Path::to_str` are foreign calls. They are total, uninterpreted maps. The `.unwrap()` panics on their failure (lines 64, 65, 68, 75-82, 104, 106, 113-115, 129) are not modelled.
- Line 119 reads the file through its canonicalised path. The model reads the listed file itself, which that path names.
- The `LazyLock` statics `CMAKE_PACKAGES` and `CMAKE_PACKAGES_WITHKEY` (lines 15-19) are left out as process-wide lazy initialisation. `CMAKE_PACKAGES` collects `into_values()` of a `HashMap`, whose order is arbitrary. The index map is the whole result.
