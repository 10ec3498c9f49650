/**
  The tree `test_package_search` builds under a temporary directory, and the
  index the scan gives for it: `VulkanHeaders` from the `share/cmake`
  library root and `ECM` from the config tree `share/ECM/cmake`.
*/
module PackageWinExample {
  import opened Wrappers
  import opened Snapshot
  import opened Package
  import opened FindPackage
  import opened PackageWin

  const VulkanVersionText: string := "set(PACKAGE_VERSION \"1.3.295\")\n"
  const EcmVersionText: string := "set(PACKAGE_VERSION \"6.5.0\")\n"

  function VulkanDir(root: string): Path { Path(root, ["share", "cmake", "VulkanHeaders"]) }
  function EcmDir(root: string): Path { Path(root, ["share", "ECM", "cmake"]) }
  function VulkanConfig(root: string): Path { Join(VulkanDir(root), "VulkanHeadersConfig.cmake") }
  function VulkanConfigVersion(root: string): Path { Join(VulkanDir(root), "VulkanHeadersConfigVersion.cmake") }
  function EcmConfig(root: string): Path { Join(EcmDir(root), "ECMConfig.cmake") }
  function EcmConfigVersion(root: string): Path { Join(EcmDir(root), "ECMConfigVersion.cmake") }

  function VulkanNode(): Node
  {
    DirNode("VulkanHeaders", true, [
      FileNode("VulkanHeadersConfig.cmake", Some("")),
      FileNode("VulkanHeadersConfigVersion.cmake", Some(VulkanVersionText))])
  }

  function EcmCMakeNode(): Node
  {
    DirNode("cmake", true, [
      FileNode("ECMConfig.cmake", Some("")),
      FileNode("ECMConfigVersion.cmake", Some(EcmVersionText))])
  }

  function ShareNode(): Node
  {
    DirNode("share", true, [DirNode("cmake", true, [VulkanNode()]), DirNode("ECM", true, [EcmCMakeNode()])])
  }

  /** The temporary directory after the test has written its files. */
  function TestTree(): Node
  {
    DirNode("tmp", true, [ShareNode()])
  }

  function VulkanRecord(root: string, c: Collaborators): CMakePackage
  {
    CMakePackage("VulkanHeaders", Dir, c.toUrl(VulkanDir(root)), Some("1.3.295"),
                 [VulkanConfig(root), VulkanConfigVersion(root)], System)
  }

  function EcmRecord(root: string, c: Collaborators): CMakePackage
  {
    CMakePackage("ECM", Dir, c.toUrl(EcmDir(root)), Some("6.5.0"),
                 [EcmConfig(root), EcmConfigVersion(root)], System)
  }

  /** The map the test expects. */
  function Expected(root: string, c: Collaborators): map<string, CMakePackage>
  {
    map["VulkanHeaders" := VulkanRecord(root, c), "ECM" := EcmRecord(root, c)]
  }

  /** The only config tree is `share/ECM/cmake`: `share/cmake` has no `cmake` child. */
  lemma ExampleShareTrees(root: string)
    ensures GlobShareTrees(map[root := TestTree()], root) == [Entry(EcmDir(root), EcmCMakeNode())]
  {
    var fs := map[root := TestTree()];
    var share := Path(root, ["share"]);
    assert Lookup(fs, share) == Some(ShareNode());
    var kids := ShareNode().children;
    var e0, e1 := Entry(Join(share, "cmake"), kids[0]), Entry(Join(share, "ECM"), kids[1]);
    assert ListingOf(fs, share) == [e0, e1];
    assert [e0, e1][..1] == [e0];
    assert [e0][..0] == [];
    assert Walk(kids[0], ["cmake"]) == None;
    assert Walk(kids[1], ["cmake"]) == Some(EcmCMakeNode());
    assert Join(e1.path, "cmake") == EcmDir(root);
    assert TreesIn([e0]) == [];
  }

  /** The files of that tree, in listing order. */
  lemma ExampleEcmFiles(root: string)
    ensures GlobCMakeFiles(Entry(EcmDir(root), EcmCMakeNode())) ==
              [Entry(EcmConfig(root), EcmCMakeNode().children[0]), Entry(EcmConfigVersion(root), EcmCMakeNode().children[1])]
  {
    var es := EntriesOf(EcmDir(root), EcmCMakeNode().children);
    var e0, e1 := Entry(EcmConfig(root), EcmCMakeNode().children[0]), Entry(EcmConfigVersion(root), EcmCMakeNode().children[1]);
    assert es == [e0, e1];
    assert HasCMakeSuffix("ECMConfig.cmake");
    assert HasCMakeSuffix("ECMConfigVersion.cmake");
    AllCMakeKept(es);
  }

  /** Entries that all end in `.cmake` are all kept by the `*.cmake` filter. */
  lemma {:induction false} AllCMakeKept(es: seq<Entry>)
    requires forall e <- es :: HasCMakeSuffix(e.node.name)
    ensures CMakeEntries(es) == es
    decreases |es|
  {
    if es != [] {
      AllCMakeKept(es[..|es| - 1]);
      assert es == es[..|es| - 1] + [es[|es| - 1]];
    }
  }

  lemma ExampleConfigCandidates(root: string, c: Collaborators)
    requires c.isConfig(c.pathText(EcmConfig(root)))
    requires c.isConfigVersion(c.pathText(EcmConfigVersion(root)))
    requires c.getVersion(EcmVersionText) == Some("6.5.0")
    requires c.canonicalize(EcmConfig(root)) == EcmConfig(root)
    requires c.canonicalize(EcmConfigVersion(root)) == EcmConfigVersion(root)
    ensures ConfigCandidates(c, GlobShareTrees(map[root := TestTree()], root)) == [EcmRecord(root, c)]
  {
    ExampleShareTrees(root);
    var tree := Entry(EcmDir(root), EcmCMakeNode());
    ExampleEcmPackage(root, c);
    assert [tree][..0] == [];
  }

  /** The tree `share/ECM/cmake` gives the `ECM` record. */
  lemma ExampleEcmPackage(root: string, c: Collaborators)
    requires c.isConfig(c.pathText(EcmConfig(root)))
    requires c.isConfigVersion(c.pathText(EcmConfigVersion(root)))
    requires c.getVersion(EcmVersionText) == Some("6.5.0")
    requires c.canonicalize(EcmConfig(root)) == EcmConfig(root)
    requires c.canonicalize(EcmConfigVersion(root)) == EcmConfigVersion(root)
    ensures ConfigPackage(c, Entry(EcmDir(root), EcmCMakeNode())) == Some(EcmRecord(root, c))
  {
    ExampleEcmFiles(root);
    var tree := Entry(EcmDir(root), EcmCMakeNode());
    var files := GlobCMakeFiles(tree);
    assert files[..1] == [files[0]];
    assert files[..1][..0] == [];
    assert c.isConfig(c.pathText(files[0].path));
    assert Targets(c, ConfigTree, files[..1]) == [EcmConfig(root)];
    assert Targets(c, ConfigTree, files) == [EcmConfig(root), EcmConfigVersion(root)];
    assert LastVersion(c, ConfigTree, files) == Some("6.5.0");
  }

  /** Of the four library roots only `share/cmake` exists. */
  lemma ExampleLibRoots(root: string)
    ensures LibRoots(map[root := TestTree()], root) == [Path(root, ["share", "cmake"])]
  {
    var fs := map[root := TestTree()];
    var kids := TestTree().children;
    assert Child(kids, "lib") == None;
    assert Child(kids, "lib32") == None;
    assert Child(kids, "lib64") == None;
    assert Child(kids, "share") == Some(ShareNode());
    assert !Exists(fs, LibDir(root, "lib"));
    assert !Exists(fs, LibDir(root, "lib32"));
    assert !Exists(fs, LibDir(root, "lib64"));
    assert Walk(ShareNode(), ["cmake"]) == Some(DirNode("cmake", true, [VulkanNode()]));
    assert Exists(fs, LibDir(root, "share"));
    assert LIBS[..3] == ["lib", "lib32", "lib64"];
    assert ["lib", "lib32", "lib64"][..2] == ["lib", "lib32"];
    assert ["lib", "lib32"][..1] == ["lib"];
    assert ["lib"][..0] == [];
    assert ExistingRoots(fs, root, ["lib"]) == [];
    assert ExistingRoots(fs, root, ["lib", "lib32"]) == [];
    assert ExistingRoots(fs, root, ["lib", "lib32", "lib64"]) == [];
  }

  lemma ExampleLibCandidates(root: string, c: Collaborators)
    requires c.isModule("VulkanHeadersConfig.cmake") && c.isModule("VulkanHeadersConfigVersion.cmake")
    requires c.isConfigVersion("VulkanHeadersConfigVersion.cmake")
    requires c.getVersion(VulkanVersionText) == Some("1.3.295")
    requires c.canonicalize(VulkanConfig(root)) == VulkanConfig(root)
    requires c.canonicalize(VulkanConfigVersion(root)) == VulkanConfigVersion(root)
    ensures LibCandidates(map[root := TestTree()], c, LibRoots(map[root := TestTree()], root)) == [VulkanRecord(root, c)]
  {
    var fs := map[root := TestTree()];
    ExampleLibRoots(root);
    var lib := Path(root, ["share", "cmake"]);
    assert Lookup(fs, lib) == Some(DirNode("cmake", true, [VulkanNode()]));
    var vk := Entry(VulkanDir(root), VulkanNode());
    assert Join(lib, "VulkanHeaders") == VulkanDir(root);
    assert EntriesOf(lib, [VulkanNode()]) == [vk];
    assert ReadDir(fs, lib) == Some([vk]);
    assert ListingOf(fs, lib) == [vk];
    var gs := List(vk).value;
    assert gs == [Entry(VulkanConfig(root), VulkanNode().children[0]), Entry(VulkanConfigVersion(root), VulkanNode().children[1])];
    assert gs[..1] == [gs[0]];
    assert gs[..1][..0] == [];
    assert Targets(c, PackageDir, gs[..1]) == [VulkanConfig(root)];
    assert Targets(c, PackageDir, gs) == [VulkanConfig(root), VulkanConfigVersion(root)];
    assert LastVersion(c, PackageDir, gs) == Some("1.3.295");
    assert ChildPackage(c, vk) == Some(VulkanRecord(root, c));
    assert [vk][..0] == [];
    assert ChildCandidates(c, [vk]) == [VulkanRecord(root, c)];
    assert [lib][..0] == [];
    assert LibCandidates(fs, c, [lib]) == ChildCandidates(c, ListingOf(fs, lib));
  }

  /** The scan meets the `ECM` record, then the `VulkanHeaders` record. */
  lemma ExampleCandidates(root: string, c: Collaborators)
    requires c.isConfig(c.pathText(EcmConfig(root)))
    requires c.isConfigVersion(c.pathText(EcmConfigVersion(root)))
    requires c.isModule("VulkanHeadersConfig.cmake") && c.isModule("VulkanHeadersConfigVersion.cmake")
    requires c.isConfigVersion("VulkanHeadersConfigVersion.cmake")
    requires c.getVersion(VulkanVersionText) == Some("1.3.295")
    requires c.getVersion(EcmVersionText) == Some("6.5.0")
    requires c.canonicalize(VulkanConfig(root)) == VulkanConfig(root)
    requires c.canonicalize(VulkanConfigVersion(root)) == VulkanConfigVersion(root)
    requires c.canonicalize(EcmConfig(root)) == EcmConfig(root)
    requires c.canonicalize(EcmConfigVersion(root)) == EcmConfigVersion(root)
    ensures Candidates(map[root := TestTree()], root, c) == [EcmRecord(root, c), VulkanRecord(root, c)]
  {
    ExampleConfigCandidates(root, c);
    ExampleLibCandidates(root, c);
  }

  /** Under what the regexes and `get_version` do on these files, and with
      canonicalisation leaving the (already canonical) paths alone, the scan
      of the test tree gives exactly the expected map. */
  lemma TestPackageSearch(root: string, c: Collaborators)
    requires c.isConfig(c.pathText(EcmConfig(root)))
    requires c.isConfigVersion(c.pathText(EcmConfigVersion(root)))
    requires c.isModule("VulkanHeadersConfig.cmake") && c.isModule("VulkanHeadersConfigVersion.cmake")
    requires c.isConfigVersion("VulkanHeadersConfigVersion.cmake")
    requires c.getVersion(VulkanVersionText) == Some("1.3.295")
    requires c.getVersion(EcmVersionText) == Some("6.5.0")
    requires c.canonicalize(VulkanConfig(root)) == VulkanConfig(root)
    requires c.canonicalize(VulkanConfigVersion(root)) == VulkanConfigVersion(root)
    requires c.canonicalize(EcmConfig(root)) == EcmConfig(root)
    requires c.canonicalize(EcmConfigVersion(root)) == EcmConfigVersion(root)
    ensures Index(map[root := TestTree()], root, c) == Expected(root, c)
  {
    var fs := map[root := TestTree()];
    var ecm, vk := EcmRecord(root, c), VulkanRecord(root, c);
    ExampleCandidates(root, c);
    assert Candidates(fs, root, c) == [ecm, vk];
    InsertTwo(ecm, vk);
    assert Index(fs, root, c) == map[ecm.name := ecm, vk.name := vk];
  }

  lemma InsertTwo(a: CMakePackage, b: CMakePackage)
    requires a.name != b.name
    ensures InsertAll(map[], [a, b]) == map[a.name := a, b.name := b]
    ensures InsertAll(map[], [a, b]) == map[b.name := b, a.name := a]
  {
    assert [a, b][..1] == [a];
    assert [a][..0] == [];
    assert InsertAll(map[], [a]) == map[a.name := a];
    assert b.name !in InsertAll(map[], [a]);
  }
}
