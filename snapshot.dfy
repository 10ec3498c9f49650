/**
  An immutable snapshot of the file system, standing in for the calls the
  package scanner makes: `glob::glob`, `fs::read_dir`, `metadata`, `exists`
  and `fs::read_to_string`.  Every directory has one listing order, its
  `children` sequence, which is the order in which a listing yields it.
*/
module Snapshot {
  import opened Wrappers

  /** A path: the root string it starts from (the prefix as given),
      followed by the components joined onto it. */
  datatype Path = Path(root: string, parts: seq<string>)

  /** `path.join(name)` */
  function Join(p: Path, name: string): Path
  {
    Path(p.root, p.parts + [name])
  }

  /** A node of the snapshot.  `content` is `None` for a file that cannot be
      read as text; `listable` is false for a directory whose listing cannot
      be read (which does not hide the directory itself or its children from
      a lookup by name). */
  datatype Node =
    | FileNode(name: string, content: Option<string>)
    | DirNode(name: string, listable: bool, children: seq<Node>)

  /** A directory entry as a listing yields it: its full path and the node. */
  datatype Entry = Entry(path: Path, node: Node)

  /** The trees found at each root string; a root absent from the map does
      not exist. */
  type FileSystem = map<string, Node>

  /** The first child called `name`. */
  function Child(children: seq<Node>, name: string): (r: Option<Node>)
    ensures r.Some? ==> r.value in children && r.value.name == name
    ensures r.None? ==> forall n <- children :: n.name != name
  {
    if children == [] then None
    else if children[0].name == name then Some(children[0])
    else Child(children[1..], name)
  }

  /** The node reached from `n` by following the components `parts`. */
  function Walk(n: Node, parts: seq<string>): Option<Node>
    decreases |parts|
  {
    if parts == [] then Some(n)
    else match n
      case FileNode(_, _) => None
      case DirNode(_, _, kids) =>
        match Child(kids, parts[0])
        case None => None
        case Some(k) => Walk(k, parts[1..])
  }

  /** What is at path `p`, if anything. */
  function Lookup(fs: FileSystem, p: Path): Option<Node>
  {
    if p.root in fs then Walk(fs[p.root], p.parts) else None
  }

  /** `Path::exists` */
  predicate Exists(fs: FileSystem, p: Path)
  {
    Lookup(fs, p).Some?
  }

  /** The entries of a directory at `dir` with children `kids`, in listing order. */
  function EntriesOf(dir: Path, kids: seq<Node>): (r: seq<Entry>)
    ensures |r| == |kids|
    ensures forall e <- r :: e.path == Join(dir, e.node.name) && e.node in kids
  {
    seq(|kids|, i requires 0 <= i < |kids| => Entry(Join(dir, kids[i].name), kids[i]))
  }

  /** `fs::read_dir` on an entry: its entries, or `None` when it is not a
      directory whose listing can be read. */
  function List(e: Entry): Option<seq<Entry>>
  {
    if e.node.DirNode? && e.node.listable then Some(EntriesOf(e.path, e.node.children))
    else None
  }

  /** `fs::read_dir` on a path. */
  function ReadDir(fs: FileSystem, p: Path): Option<seq<Entry>>
  {
    match Lookup(fs, p)
    case None => None
    case Some(n) => List(Entry(p, n))
  }

  /** The entries `fs::read_dir` yields for `p`; none when it fails. */
  function ListingOf(fs: FileSystem, p: Path): (r: seq<Entry>)
    ensures forall e <- r :: e.path == Join(p, e.node.name)
  {
    match ReadDir(fs, p)
    case None => []
    case Some(es) => es
  }

  /** `fs::read_to_string`: the text of a readable file; `None` for a
      directory or an unreadable file. */
  function ReadToString(e: Entry): Option<string>
  {
    if e.node.FileNode? then e.node.content else None
  }

  /** `metadata().is_dir()` and `metadata().is_file()` */
  predicate IsDir(e: Entry) { e.node.DirNode? }
  predicate IsFile(e: Entry) { e.node.FileNode? }
}
