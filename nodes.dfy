/** The nodes of the tree: the shared search-pattern holder, the directory node with its lazy
    expansion, the file node and the two kinds of header-only base node (the dummy child that
    advertises expandability and the "not found" placeholder). */
module Nodes {
  import opened FileSystem

  /** The file filter a `TreeViewHelper` starts with. */
  const DefaultSearchPattern: string := "*"

  /** Header of the placeholder that stands for a path that does not exist. */
  const NotFoundHeader: string := "フォルダが見つかりません"

  datatype DirectoryInfo = DirectoryInfo(path: Path)
  datatype FileInfo = FileInfo(path: Path)

  /** Which folder icon a directory node shows. */
  datatype Icon = ClosedFolder | OpenFolder

  /** A file node holds its file and never changes after construction. */
  datatype FileNode = FileNode(info: FileInfo)

  /** Anything that can sit in a children list or in the root list. */
  datatype Node =
    | Dummy
    | Placeholder(header: string)
    | Directory(dir: DirectoryNode)
    | File(file: FileNode)

  /** A node seen without object identity or mutable state: what a list of nodes shows. */
  datatype NodeView =
    | DummyView
    | PlaceholderView(header: string)
    | DirectoryView(path: Path)
    | FileView(path: Path)

  function ViewOf(n: Node): NodeView
  {
    match n
    case Dummy => DummyView
    case Placeholder(header) => PlaceholderView(header)
    case Directory(d) => DirectoryView(d.info.path)
    case File(f) => FileView(f.info.path)
  }

  function Views(ns: seq<Node>): seq<NodeView>
  {
    seq(|ns|, i requires 0 <= i < |ns| => ViewOf(ns[i]))
  }

  function DirectoryViews(paths: seq<Path>): seq<NodeView>
  {
    seq(|paths|, i requires 0 <= i < |paths| => DirectoryView(paths[i]))
  }

  function FileViews(paths: seq<Path>): seq<NodeView>
  {
    seq(|paths|, i requires 0 <= i < |paths| => FileView(paths[i]))
  }

  /** Holds the search pattern shared by every node built under one tree. Nodes read it each
      time they probe or expand, so a change reaches later probes and expansions. */
  class TreeViewHelper {
    var searchPattern: string

    constructor (searchPattern: string := DefaultSearchPattern)
      ensures this.searchPattern == searchPattern
    {
      this.searchPattern := searchPattern;
    }
  }

  /** The children a directory node holds right after construction: one dummy exactly when
      the directory exists, its probe does not raise, and a full enumeration would find a
      subdirectory or a matching file; otherwise none (a raised probe is swallowed). */
  function InitialItems(fs: Snapshot, p: Path, pattern: string): (r: seq<Node>)
    ensures r == [] || r == [Dummy]
    ensures r == [Dummy] <==>
      Enumerable(fs, p) && (GetDirectories(fs, p) != [] || GetFiles(fs, p, pattern) != [])
  {
    if !DirectoryExists(fs, p) then []
    else
      match Probe(fs, p, pattern)
      case Failure(_) => []
      case Success(any) => if any then [Dummy] else []
  }

  /** What the children list shows after the first real expansion: every subdirectory, then
      every matching file, each in enumeration order. */
  function ExpansionViews(fs: Snapshot, p: Path, pattern: string): seq<NodeView>
    requires Enumerable(fs, p)
  {
    DirectoryViews(GetDirectories(fs, p)) + FileViews(GetFiles(fs, p, pattern))
  }

  /** Expansion yields only directory and file children, every directory child before every
      file child, one child per subdirectory and per matching file. */
  lemma ExpansionOrder(fs: Snapshot, p: Path, pattern: string)
    requires Enumerable(fs, p)
    ensures var v := ExpansionViews(fs, p, pattern);
      |v| == |GetDirectories(fs, p)| + |GetFiles(fs, p, pattern)| &&
      (forall i :: 0 <= i < |v| ==> v[i].DirectoryView? || v[i].FileView?) &&
      (forall i :: 0 <= i < |v| ==> (v[i].DirectoryView? <==> i < |GetDirectories(fs, p)|)) &&
      (forall i, j :: 0 <= i < j < |v| && v[i].FileView? ==> v[j].FileView?)
  {
  }

  /** The directory children are exactly the subdirectories, unfiltered by the pattern. */
  lemma ExpansionDirectories(fs: Snapshot, p: Path, pattern: string)
    requires Enumerable(fs, p)
    ensures forall d :: DirectoryView(d) in ExpansionViews(fs, p, pattern) <==>
      d in fs.entries[p].subdirectories
  {
    var dirs := GetDirectories(fs, p);
    var v := ExpansionViews(fs, p, pattern);
    forall d | d in dirs ensures DirectoryView(d) in v {
      var k :| 0 <= k < |dirs| && dirs[k] == d;
      assert v[k] == DirectoryView(d);
    }
    forall d | DirectoryView(d) in v ensures d in dirs {
      var k :| 0 <= k < |v| && v[k] == DirectoryView(d);
      assert dirs[k] == d;
    }
  }

  /** The file children are exactly the directory's files that match the pattern. */
  lemma ExpansionFiles(fs: Snapshot, p: Path, pattern: string)
    requires Enumerable(fs, p)
    ensures forall f :: FileView(f) in ExpansionViews(fs, p, pattern) <==>
      f in fs.entries[p].files && Matches(fs, pattern, f)
  {
    var dirs, files := GetDirectories(fs, p), GetFiles(fs, p, pattern);
    var dv, fv := DirectoryViews(dirs), FileViews(files);
    assert forall f :: FileView(f) !in dv;
    forall f | f in files ensures FileView(f) in fv {
      var k :| 0 <= k < |files| && files[k] == f;
      assert fv[k] == FileView(f);
    }
    forall f | FileView(f) in fv ensures f in files {
      var k :| 0 <= k < |fv| && fv[k] == FileView(f);
      assert files[k] == f;
    }
  }

  /** The dummy is present after construction exactly when the first expansion (with the
      same pattern) produces at least one child. */
  lemma DummyAdvertisesExpansion(fs: Snapshot, p: Path, pattern: string)
    requires Enumerable(fs, p)
    ensures InitialItems(fs, p, pattern) == [Dummy] <==> ExpansionViews(fs, p, pattern) != []
  {
  }

  /** In a snapshot that reads like a real listing, every child an expansion shows exists as
      what it is shown as: subdirectories as directories, files as files. */
  lemma ExpansionChildrenExist(fs: Snapshot, p: Path, pattern: string)
    requires WellFormed(fs) && Enumerable(fs, p)
    ensures forall v :: v in ExpansionViews(fs, p, pattern) ==>
      (v.DirectoryView? ==> DirectoryExists(fs, v.path)) &&
      (v.FileView? ==> FileExists(fs, v.path))
  {
    ExpansionDirectories(fs, p, pattern);
    ExpansionFiles(fs, p, pattern);
    ExpansionOrder(fs, p, pattern);
    forall v | v in ExpansionViews(fs, p, pattern)
      ensures v.DirectoryView? ==> DirectoryExists(fs, v.path)
      ensures v.FileView? ==> FileExists(fs, v.path)
    {
      if v.DirectoryView? {
        assert DirectoryView(v.path) in ExpansionViews(fs, p, pattern);
      } else if v.FileView? {
        assert FileView(v.path) in ExpansionViews(fs, p, pattern);
      }
    }
  }

  /** A directory node. `items` starts as `InitialItems`; the first expansion with a non-empty
      `items` replaces it by the real children and sets `hasExpandedOnce`. */
  class DirectoryNode {
    const info: DirectoryInfo
    const helper: TreeViewHelper
    /** The filesystem as it was when this node was built; the node never looks again. */
    const fs: Snapshot
    var items: seq<Node>
    var hasExpandedOnce: bool
    var icon: Icon

    /** Before the first expansion the children list is empty or the single dummy, and the
        dummy is only there for a directory that can be enumerated. */
    ghost predicate Valid()
      reads this
    {
      !hasExpandedOnce ==> items == [] || (items == [Dummy] && Enumerable(fs, info.path))
    }

    /** The state construction leaves, judged with the helper's current pattern. */
    ghost predicate Unexpanded()
      reads this, helper
    {
      items == InitialItems(fs, info.path, helper.searchPattern) &&
      !hasExpandedOnce && icon == ClosedFolder
    }

    constructor (dir: DirectoryInfo, helper: TreeViewHelper, fs: Snapshot)
      ensures info == dir && this.helper == helper && this.fs == fs
      ensures Unexpanded() && Valid()
    {
      info, this.helper, this.fs := dir, helper, fs;
      items, hasExpandedOnce, icon := [], false, ClosedFolder;
      if DirectoryExists(fs, dir.path) {
        var probe := Probe(fs, dir.path, helper.searchPattern);
        if probe.Success? && probe.value {
          items := [Dummy];
        }
        // a Failure is an access or not-found exception, swallowed: no dummy
      }
    }

    /** The expand signal. With children present the icon opens; the first time, the dummy is
        replaced by one fresh directory node per subdirectory followed by one file node per
        matching file. Without children, or after the first time, the children stay as they are. */
    method Expand()
      requires Valid()
      modifies this
      ensures Valid()
      ensures old(items) == [] ==>
        items == [] && hasExpandedOnce == old(hasExpandedOnce) && icon == old(icon)
      ensures old(items) != [] ==> icon == OpenFolder
      ensures old(hasExpandedOnce) ==> items == old(items) && hasExpandedOnce
      ensures old(items) != [] && !old(hasExpandedOnce) ==>
        Enumerable(fs, info.path) && hasExpandedOnce &&
        Views(items) == ExpansionViews(fs, info.path, helper.searchPattern) &&
        NewlyBuilt(items, helper, fs) && FreshDirectories(items)
    {
      if items != [] {
        icon := OpenFolder;
        if !hasExpandedOnce {
          var subdirs := GetDirectories(fs, info.path);
          var files := GetFiles(fs, info.path, helper.searchPattern);
          // Items.Clear(), then one Add per subdirectory and per matching file
          var children := NewChildDirectories(subdirs, helper, fs);
          var leaves: seq<Node> := [];
          for j := 0 to |files|
            invariant Views(leaves) == FileViews(files[..j])
            invariant forall k :: 0 <= k < |leaves| ==> leaves[k].File?
          {
            assert files[..j + 1] == files[..j] + [files[j]];
            var leaf := File(FileNode(FileInfo(files[j])));
            assert Views(leaves + [leaf]) == Views(leaves) + [FileView(files[j])];
            leaves := leaves + [leaf];
          }
          assert files[..|files|] == files;
          assert Views(children + leaves) == Views(children) + Views(leaves);
          items := children + leaves;
          hasExpandedOnce := true;
        }
      }
    }

    /** One fresh, unexpanded child node per subdirectory, in enumeration order. */
    static method NewChildDirectories(subdirs: seq<Path>, helper: TreeViewHelper, fs: Snapshot)
      returns (children: seq<Node>)
      ensures Views(children) == DirectoryViews(subdirs)
      ensures NewlyBuilt(children, helper, fs) && FreshDirectories(children)
    {
      children := [];
      for i := 0 to |subdirs|
        invariant Views(children) == DirectoryViews(subdirs[..i])
        invariant NewlyBuilt(children, helper, fs) && FreshDirectories(children)
      {
        var child := new DirectoryNode(DirectoryInfo(subdirs[i]), helper, fs);
        assert subdirs[..i + 1] == subdirs[..i] + [subdirs[i]];
        assert Views(children + [Directory(child)]) == Views(children) + [DirectoryView(subdirs[i])];
        children := children + [Directory(child)];
      }
      assert subdirs[..|subdirs|] == subdirs;
    }

    /** The collapse signal; it also reaches the ancestors of the collapsed node, so the icon
        closes only when this node itself is no longer expanded. */
    method Collapse(isExpanded: bool)
      modifies this`icon
      ensures icon == if isExpanded then old(icon) else ClosedFolder
    {
      if !isExpanded {
        icon := ClosedFolder;
      }
    }
  }

  /** Every directory node in `ns` was just built on `fs` with `helper`, is unexpanded and can
      be expanded. */
  ghost predicate NewlyBuilt(ns: seq<Node>, helper: TreeViewHelper, fs: Snapshot)
    reads set i | 0 <= i < |ns| && ns[i].Directory? :: ns[i].dir
    reads helper
  {
    forall i :: 0 <= i < |ns| && ns[i].Directory? ==>
      ns[i].dir.helper == helper && ns[i].dir.fs == fs &&
      ns[i].dir.Unexpanded() && ns[i].dir.Valid()
  }

  /** Every directory node in `ns` is newly allocated, and no two positions share one. */
  twostate predicate FreshDirectories(new ns: seq<Node>)
  {
    (forall i :: 0 <= i < |ns| && ns[i].Directory? ==> fresh(ns[i].dir)) &&
    (forall i, j :: 0 <= i < j < |ns| && ns[i].Directory? && ns[j].Directory? ==>
      ns[i].dir != ns[j].dir)
  }
}
