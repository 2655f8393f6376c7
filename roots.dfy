/** The root list of the tree: an ordered list of top-level nodes, built from one or several
    paths or directories, replaced wholesale or extended one node at a time. */
module Roots {
  import opened Sequences
  import opened FileSystem
  import opened Nodes

  /** What the directory factory builds for `path`: a directory node for an existing
      directory, a "not found" placeholder for anything else. */
  function DirectoryFactoryView(fs: Snapshot, path: Path): NodeView
  {
    if DirectoryExists(fs, path) then DirectoryView(path) else PlaceholderView(NotFoundHeader)
  }

  /** The factory applied to every path, in order. */
  function DirectoryFactoryViews(fs: Snapshot, paths: seq<Path>): seq<NodeView>
  {
    seq(|paths|, i requires 0 <= i < |paths| => DirectoryFactoryView(fs, paths[i]))
  }

  function PathsOf(dirs: seq<DirectoryInfo>): seq<Path>
  {
    seq(|dirs|, i requires 0 <= i < |dirs| => dirs[i].path)
  }

  /** The `Where(Exists)` step of replacing the roots by a list of paths. */
  function ExistingDirectories(fs: Snapshot, paths: seq<Path>): seq<Path>
  {
    Where(paths, p => DirectoryExists(fs, p))
  }

  /** One root per input path: a directory node where the directory exists and a "not found"
      placeholder where it does not, so the count is always that of the input. */
  lemma FactoryViewsKeepEveryPath(fs: Snapshot, paths: seq<Path>)
    ensures var v := DirectoryFactoryViews(fs, paths);
      |v| == |paths| &&
      forall i :: 0 <= i < |paths| ==>
        (v[i] == DirectoryView(paths[i]) <==> DirectoryExists(fs, paths[i])) &&
        (v[i] == PlaceholderView(NotFoundHeader) <==> !DirectoryExists(fs, paths[i]))
  {
  }

  /** Replacing the roots by paths keeps exactly the existing directories: each kept path
      exists and was given, each given existing path is kept, one root per existing position,
      and input order is preserved across any split of the input. */
  lemma {:induction false} ExistingDirectoriesFilter(fs: Snapshot, paths: seq<Path>)
    ensures var r := ExistingDirectories(fs, paths);
      (forall p :: p in r <==> p in paths && DirectoryExists(fs, p)) &&
      |r| == |set i: nat | i < |paths| && DirectoryExists(fs, paths[i])|
  {
    var keep := p => DirectoryExists(fs, p);
    var r := ExistingDirectories(fs, paths);
    forall p | p in r ensures p in paths && DirectoryExists(fs, p) {
      var k :| 0 <= k < |r| && r[k] == p;
    }
    forall p | p in paths && DirectoryExists(fs, p) ensures p in r {
      var k :| 0 <= k < |paths| && paths[k] == p;
    }
    WhereCount(paths, keep);
    assert KeptIndices(paths, keep) == set i: nat | i < |paths| && DirectoryExists(fs, paths[i]);
  }

  lemma {:induction false} ExistingDirectoriesOrder(fs: Snapshot, a: seq<Path>, b: seq<Path>)
    ensures ExistingDirectories(fs, a + b) == ExistingDirectories(fs, a) + ExistingDirectories(fs, b)
  {
    WhereAppend(a, b, p => DirectoryExists(fs, p));
  }

  /** When every path exists, nothing is dropped. */
  lemma {:induction false} ExistingDirectoriesAll(fs: Snapshot, paths: seq<Path>)
    requires forall i :: 0 <= i < |paths| ==> DirectoryExists(fs, paths[i])
    ensures ExistingDirectories(fs, paths) == paths
  {
    WhereAll(paths, p => DirectoryExists(fs, p));
  }

  /** The two factories never both build a real node for one path, and both fall back to the
      same placeholder header. */
  lemma FactoriesExclusive(fs: Snapshot, path: Path)
    ensures !(DirectoryFactoryView(fs, path).DirectoryView? &&
              RootDirectoryNode.TryCreateFileNode(path, fs).File?)
    ensures !DirectoryFactoryView(fs, path).DirectoryView? &&
            !RootDirectoryNode.TryCreateFileNode(path, fs).File? ==>
      ViewOf(RootDirectoryNode.TryCreateFileNode(path, fs)) == DirectoryFactoryView(fs, path)
  {
  }

  class RootDirectoryNode {
    /** The roots, in display order. */
    var roots: seq<Node>

    constructor FromPath(rootDirectoryPath: Path, helper: TreeViewHelper, fs: Snapshot)
      ensures Views(roots) == [DirectoryFactoryView(fs, rootDirectoryPath)]
      ensures NewlyBuilt(roots, helper, fs) && FreshDirectories(roots)
    {
      var n := TryCreateDirectoryNode(rootDirectoryPath, helper, fs);
      roots := [n];
    }

    constructor FromInfo(rootDirectory: DirectoryInfo, helper: TreeViewHelper, fs: Snapshot)
      ensures Views(roots) == [DirectoryView(rootDirectory.path)]
      ensures NewlyBuilt(roots, helper, fs) && FreshDirectories(roots)
    {
      var d := new DirectoryNode(rootDirectory, helper, fs);
      roots := [Directory(d)];
    }

    constructor FromPaths(rootDirectoryPathList: seq<Path>, helper: TreeViewHelper, fs: Snapshot)
      ensures Views(roots) == DirectoryFactoryViews(fs, rootDirectoryPathList)
      ensures NewlyBuilt(roots, helper, fs) && FreshDirectories(roots)
    {
      roots := [];
      new;
      var nodes := TryCreateDirectoryNodes(rootDirectoryPathList, helper, fs);
      CommonSetRootDirectories(nodes);
    }

    constructor FromInfos(rootDirectoryList: seq<DirectoryInfo>, helper: TreeViewHelper, fs: Snapshot)
      ensures Views(roots) == DirectoryViews(PathsOf(rootDirectoryList))
      ensures NewlyBuilt(roots, helper, fs) && FreshDirectories(roots)
    {
      roots := [];
      new;
      var nodes := NewDirectoryNodes(rootDirectoryList, helper, fs);
      CommonSetRootDirectories(nodes);
    }

    method SetRootDirectory(rootDirectoryPath: Path, helper: TreeViewHelper, fs: Snapshot)
      modifies this
      ensures Views(roots) == [DirectoryFactoryView(fs, rootDirectoryPath)]
      ensures NewlyBuilt(roots, helper, fs) && FreshDirectories(roots)
    {
      var n := TryCreateDirectoryNode(rootDirectoryPath, helper, fs);
      CommonSetRootDirectory(n);
    }

    method SetRootDirectoryInfo(rootDirectory: DirectoryInfo, helper: TreeViewHelper, fs: Snapshot)
      modifies this
      ensures Views(roots) == [DirectoryView(rootDirectory.path)]
      ensures NewlyBuilt(roots, helper, fs) && FreshDirectories(roots)
    {
      var d := new DirectoryNode(rootDirectory, helper, fs);
      CommonSetRootDirectory(Directory(d));
    }

    /** Unlike the path-list constructor, this drops the paths that are not directories. */
    method SetRootDirectories(rootDirectoryPaths: seq<Path>, helper: TreeViewHelper, fs: Snapshot)
      modifies this
      ensures Views(roots) == DirectoryViews(ExistingDirectories(fs, rootDirectoryPaths))
      ensures NewlyBuilt(roots, helper, fs) && FreshDirectories(roots)
    {
      var existing := ExistingDirectories(fs, rootDirectoryPaths);
      var dirs := seq(|existing|, i requires 0 <= i < |existing| => DirectoryInfo(existing[i]));
      assert PathsOf(dirs) == existing;
      var nodes := NewDirectoryNodes(dirs, helper, fs);
      CommonSetRootDirectories(nodes);
    }

    method SetRootDirectoriesInfo(rootDirectories: seq<DirectoryInfo>, helper: TreeViewHelper, fs: Snapshot)
      modifies this
      ensures Views(roots) == DirectoryViews(PathsOf(rootDirectories))
      ensures NewlyBuilt(roots, helper, fs) && FreshDirectories(roots)
    {
      var nodes := NewDirectoryNodes(rootDirectories, helper, fs);
      CommonSetRootDirectories(nodes);
    }

    method AddRootDirectory(rootDirectoryPath: Path, helper: TreeViewHelper, fs: Snapshot)
      modifies this
      ensures |roots| == |old(roots)| + 1 && roots[..|old(roots)|] == old(roots)
      ensures ViewOf(roots[|old(roots)|]) == DirectoryFactoryView(fs, rootDirectoryPath)
      ensures NewlyBuilt(roots[|old(roots)|..], helper, fs)
      ensures FreshDirectories(roots[|old(roots)|..])
    {
      var n := TryCreateDirectoryNode(rootDirectoryPath, helper, fs);
      roots := roots + [n];
      assert roots[|old(roots)|..] == [n];
    }

    method AddRootDirectoryInfo(rootDirectory: DirectoryInfo, helper: TreeViewHelper, fs: Snapshot)
      modifies this
      ensures |roots| == |old(roots)| + 1 && roots[..|old(roots)|] == old(roots)
      ensures ViewOf(roots[|old(roots)|]) == DirectoryView(rootDirectory.path)
      ensures NewlyBuilt(roots[|old(roots)|..], helper, fs)
      ensures FreshDirectories(roots[|old(roots)|..])
    {
      var d := new DirectoryNode(rootDirectory, helper, fs);
      roots := roots + [Directory(d)];
      assert roots[|old(roots)|..] == [Directory(d)];
    }

    method AddFileNode(filePath: Path, fs: Snapshot)
      modifies this
      ensures roots == old(roots) + [TryCreateFileNode(filePath, fs)]
    {
      roots := roots + [TryCreateFileNode(filePath, fs)];
    }

    /** A file root built from a `FileInfo` is not checked for existence. */
    method AddFileNodeInfo(file: FileInfo)
      modifies this
      ensures roots == old(roots) + [File(FileNode(file))]
    {
      roots := roots + [File(FileNode(file))];
    }

    method CommonSetRootDirectory(dirNode: Node)
      modifies this
      ensures roots == [dirNode]
    {
      roots := [];
      roots := roots + [dirNode];
    }

    method CommonSetRootDirectories(dirNodes: seq<Node>)
      modifies this
      ensures roots == dirNodes
    {
      roots := [];
      for i := 0 to |dirNodes|
        invariant roots == dirNodes[..i]
      {
        assert dirNodes[..i + 1] == dirNodes[..i] + [dirNodes[i]];
        roots := roots + [dirNodes[i]];
      }
      assert dirNodes[..|dirNodes|] == dirNodes;
    }

    /** A directory node for an existing directory, otherwise a "not found" placeholder; it
        never fails. */
    static method TryCreateDirectoryNode(path: Path, helper: TreeViewHelper, fs: Snapshot)
      returns (n: Node)
      ensures n.Directory? <==> DirectoryExists(fs, path)
      ensures !n.Directory? ==> n == Placeholder(NotFoundHeader)
      ensures ViewOf(n) == DirectoryFactoryView(fs, path)
      ensures n.Directory? ==>
        fresh(n.dir) && n.dir.info.path == path && n.dir.helper == helper && n.dir.fs == fs &&
        n.dir.Unexpanded()
    {
      if DirectoryExists(fs, path) {
        var d := new DirectoryNode(DirectoryInfo(path), helper, fs);
        n := Directory(d);
      } else {
        n := Placeholder(NotFoundHeader);
      }
    }

    /** A file node for an existing file, otherwise the same "not found" placeholder; it
        never fails. */
    static function TryCreateFileNode(path: Path, fs: Snapshot): (n: Node)
      ensures n.File? <==> FileExists(fs, path)
      ensures n.File? ==> n.file.info.path == path
      ensures !n.File? ==> n == Placeholder(NotFoundHeader)
    {
      if FileExists(fs, path) then File(FileNode(FileInfo(path))) else Placeholder(NotFoundHeader)
    }

    /** `Select(TryCreateDirectoryNode)` over a path list. */
    static method TryCreateDirectoryNodes(paths: seq<Path>, helper: TreeViewHelper, fs: Snapshot)
      returns (nodes: seq<Node>)
      ensures Views(nodes) == DirectoryFactoryViews(fs, paths)
      ensures NewlyBuilt(nodes, helper, fs) && FreshDirectories(nodes)
    {
      nodes := [];
      for i := 0 to |paths|
        invariant Views(nodes) == DirectoryFactoryViews(fs, paths[..i])
        invariant NewlyBuilt(nodes, helper, fs) && FreshDirectories(nodes)
      {
        var n := TryCreateDirectoryNode(paths[i], helper, fs);
        assert paths[..i + 1] == paths[..i] + [paths[i]];
        assert Views(nodes + [n]) == Views(nodes) + [ViewOf(n)];
        nodes := nodes + [n];
      }
      assert paths[..|paths|] == paths;
    }

    /** `Select(new DirectoryNode)` over a directory list: no existence check. */
    static method NewDirectoryNodes(dirs: seq<DirectoryInfo>, helper: TreeViewHelper, fs: Snapshot)
      returns (nodes: seq<Node>)
      ensures Views(nodes) == DirectoryViews(PathsOf(dirs))
      ensures NewlyBuilt(nodes, helper, fs) && FreshDirectories(nodes)
    {
      nodes := [];
      for i := 0 to |dirs|
        invariant Views(nodes) == DirectoryViews(PathsOf(dirs[..i]))
        invariant NewlyBuilt(nodes, helper, fs) && FreshDirectories(nodes)
      {
        var d := new DirectoryNode(dirs[i], helper, fs);
        assert dirs[..i + 1] == dirs[..i] + [dirs[i]];
        assert Views(nodes + [Directory(d)]) == Views(nodes) + [DirectoryView(dirs[i].path)];
        nodes := nodes + [Directory(d)];
      }
      assert dirs[..|dirs|] == dirs;
    }
  }
}
