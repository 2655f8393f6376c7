# Lazy filesystem tree of WPFExplorerStyleTreeView, in Dafny

This project models the toolkit-independent core of `WPFExplorerStyleTreeView/Model.cs`: the tree
that mirrors a filesystem and expands directories lazily.

- **`RootDirectoryNode`** holds the ordered list of top-level nodes. It offers four constructors,
  replace-one and replace-all (`SetRootDirectory`, `SetRootDirectories`) and append
  (`AddRootDirectory`, `AddFileNode`). Each of these comes in a path form and a
  `DirectoryInfo`/`FileInfo` form.
- **`DirectoryNode`** probes its directory once when it is built. It adds a single dummy child
  when the directory has a subdirectory or a file matching the search pattern. On the first
  expand that finds children, it swaps the dummy for the real children: all subdirectories first,
  then the matching files. The `hasExpandedOnce` flag then stops any further enumeration. Expand
  and collapse also switch the folder icon.
- **`FileNode`** is a leaf holding its file.
- **`TreeViewHelper`** holds the shared search pattern, which defaults to `"*"`.

Files:

- `sequences.dfy` (module `Sequences`): `Where`, an order-preserving filter, with its lemmas. It
  models LINQ's `Where` and the filtering that `GetFiles(pattern)` does.
- `filesystem.dfy` (module `FileSystem`): the filesystem as an immutable `Snapshot` value.
  - `entries` maps each path to a directory entry (its subdirectories and files, in enumeration
    order) or to a file entry. A path not in the map does not exist.
  - `faults` maps each directory whose enumeration raises to the exception it raises
    (`UnauthorizedAccess`, `DirectoryNotFound`, `FileNotFound`).
  - `matcher` is the platform's wildcard test. It is left uninterpreted.
  - The module also defines the probe and the two enumerations.
- `nodes.dfy` (module `Nodes`): the node kinds, the `TreeViewHelper` class, the `DirectoryNode`
  class (fields `items`, `hasExpandedOnce`, `icon`), and the functions and lemmas that specify
  its construction and expansion.
- `roots.dfy` (module `Roots`): the `RootDirectoryNode` class with its factories, and the
  specification functions of the root list.

Modelling choices:

- **Node kinds.** The C# node classes all derive from one widget base class. Here a node is a
  datatype: `Dummy`, `Placeholder(header)`, `Directory(DirectoryNode)` or `File(FileNode)`.
  `DirectoryNode` is a class, because its children and flag change in place. `FileNode` is a
  value, because nothing changes it after construction.
- **Views.** `NodeView` is how a list of nodes looks without object identity. The contracts state
  the root list and the children list through their views. They also state the exact state of
  every freshly built directory node (`NewlyBuilt`, `FreshDirectories`).
- **Overloads.** Dafny has no overloading, so the `DirectoryInfo`/`FileInfo` overloads carry the
  suffix `Info`. The constructors are `FromPath`, `FromInfo`, `FromPaths` and `FromInfos`.
- **Events.** The `Expanded`/`Collapsed` handlers become the methods `Expand()` and
  `Collapse(isExpanded)`. `isExpanded` is the widget's `IsExpanded` property at the moment the
  collapse event arrives.
- **Snapshot per node.** A directory node keeps the snapshot it was built on, and `Expand`
  enumerates that snapshot. The source enumerates the live filesystem when it expands; the model
  assumes the filesystem is unchanged between a node's construction and its expansion. Only the
  probe's dummy decision is stale in the source itself. `Valid()` states that a dummy child is
  only present for a directory that can be enumerated. So the enumeration in `Expand` is total,
  and no recovery is invented for it; the source itself does not catch exceptions there.
- **Well-formed snapshots.** `WellFormed` says that every listed subdirectory is a directory of
  the snapshot and every listed file a file, as in a real listing. Operations do not require it.
  In a snapshot without it, a listed subdirectory that is missing becomes a child directory node
  with no children, exactly as a missing `DirectoryInfo` does.
- **Distinct nodes.** Every operation that builds several directory nodes builds one object per
  position, so a repeated path gives two separate nodes that expand independently.
- **Children list.** `Expand` collects the new children in a local sequence and assigns `items`
  once. The source clears `Items` and adds one child at a time; the difference cannot be
  observed when the enumeration does not raise (see "## Left out").
- **Log only.** A probe that raises one of the three listed exceptions is swallowed. No dummy is
  added, and the log line is not modelled.

Behaviour of the code that is easy to miss, and that the model keeps:

- `SetRootDirectories` with a path list drops the paths that are not existing directories. The
  path-list constructor keeps them, as "not found" placeholders.
- The `DirectoryInfo` overloads never build a placeholder. A missing directory becomes a
  `DirectoryNode` with no children.
- Nodes read the helper's search pattern when they are built and again when they expand. So a
  pattern changed between construction and first expansion is the one the expansion uses.
- `TryCreateFileNode` uses the same header as the directory factory for a missing file. That
  header reads "folder not found" (フォルダが見つかりません).

## Model

| member | source | states |
|---|---|---|
| Roots.RootDirectoryNode.TryCreateDirectoryNode | WPFExplorerStyleTreeView/Model.cs:176-186 | returns a fresh, unexpanded directory node for that path exactly when the path is an existing directory, and the "not found" placeholder otherwise; no precondition, so it never fails |
| Roots.RootDirectoryNode.TryCreateFileNode | WPFExplorerStyleTreeView/Model.cs:195-205 | returns a file node for that path exactly when the path is an existing file, and the "not found" placeholder otherwise |
| Roots.FactoriesExclusive | WPFExplorerStyleTreeView/Model.cs:176-205 | no path yields both a directory node and a file node; when both factories fail they produce the same placeholder |
| Roots.RootDirectoryNode.FromPath | WPFExplorerStyleTreeView/Model.cs:31-34 | the root list is exactly the directory factory's node for the path |
| Roots.RootDirectoryNode.FromInfo | WPFExplorerStyleTreeView/Model.cs:41-44 | the root list is exactly one fresh directory node for that directory, with no existence check |
| Roots.RootDirectoryNode.FromPaths | WPFExplorerStyleTreeView/Model.cs:51-54 | one root per input path, in input order: a directory node or a placeholder |
| Roots.RootDirectoryNode.FromInfos | WPFExplorerStyleTreeView/Model.cs:61-64 | one fresh directory node per input directory, in input order |
| Roots.RootDirectoryNode.SetRootDirectory | WPFExplorerStyleTreeView/Model.cs:71-74 | the previous roots are gone; the root list is exactly the factory's node for the path |
| Roots.RootDirectoryNode.SetRootDirectoryInfo | WPFExplorerStyleTreeView/Model.cs:81-84 | the previous roots are gone; the root list is exactly one fresh directory node |
| Roots.RootDirectoryNode.SetRootDirectories | WPFExplorerStyleTreeView/Model.cs:91-94 | the root list is one fresh directory node per path that is an existing directory, in input order, and holds no placeholder |
| Roots.RootDirectoryNode.SetRootDirectoriesInfo | WPFExplorerStyleTreeView/Model.cs:101-104 | the root list is one fresh directory node per given directory, in order |
| Roots.RootDirectoryNode.AddRootDirectory | WPFExplorerStyleTreeView/Model.cs:111-114 | exactly one node is appended, the factory's node for the path; the old roots are an unchanged prefix |
| Roots.RootDirectoryNode.AddRootDirectoryInfo | WPFExplorerStyleTreeView/Model.cs:121-124 | exactly one fresh directory node is appended; the old roots are an unchanged prefix |
| Roots.RootDirectoryNode.AddFileNode | WPFExplorerStyleTreeView/Model.cs:131-134 | the new root list is the old one followed by the file factory's node |
| Roots.RootDirectoryNode.AddFileNodeInfo | WPFExplorerStyleTreeView/Model.cs:141-144 | the new root list is the old one followed by a file node for that file, with no existence check |
| Roots.RootDirectoryNode.CommonSetRootDirectory | WPFExplorerStyleTreeView/Model.cs:150-154 | after clearing and adding, the root list is exactly the given node |
| Roots.RootDirectoryNode.CommonSetRootDirectories | WPFExplorerStyleTreeView/Model.cs:160-167 | after clearing and the add loop, the root list equals the given nodes, in order |
| Roots.RootDirectoryNode.TryCreateDirectoryNodes | WPFExplorerStyleTreeView/Model.cs:53 | the directory factory is applied to every path, in order; every directory node built is fresh and unexpanded |
| Roots.RootDirectoryNode.NewDirectoryNodes | WPFExplorerStyleTreeView/Model.cs:63 | one fresh, unexpanded directory node per directory, in order |
| Roots.FactoryViewsKeepEveryPath | WPFExplorerStyleTreeView/Model.cs:51-54 | the path-list constructor yields exactly as many roots as input paths; each is a directory node exactly when its path exists and the placeholder exactly when it does not |
| Roots.ExistingDirectoriesFilter | WPFExplorerStyleTreeView/Model.cs:93 | the kept paths are exactly the given existing directories, and there is one per input position that names an existing directory |
| Roots.ExistingDirectoriesOrder | WPFExplorerStyleTreeView/Model.cs:93 | filtering a concatenation is the concatenation of the filtered parts, so input order is kept |
| Roots.ExistingDirectoriesAll | WPFExplorerStyleTreeView/Model.cs:93 | when every path exists, none is dropped |
| Sequences.Where | WPFExplorerStyleTreeView/Model.cs:93 | the result is no longer than the input; every kept element is an accepted input element; every accepted input element is kept |
| Sequences.WhereAppend | WPFExplorerStyleTreeView/Model.cs:93 | filtering distributes over concatenation, which preserves relative order |
| Sequences.WhereCount | WPFExplorerStyleTreeView/Model.cs:93 | the result has one element per accepted input position, duplicates included |
| Sequences.WhereAll | WPFExplorerStyleTreeView/Model.cs:93 | when every element is accepted, the input is returned whole |
| FileSystem.GetDirectories | WPFExplorerStyleTreeView/Model.cs:346 | the listed subdirectories, all of them in listing order with no pattern applied; in a well-formed snapshot each is an existing directory |
| FileSystem.GetFiles | WPFExplorerStyleTreeView/Model.cs:350 | the files returned are exactly the directory's files that match the pattern |
| FileSystem.AnyMatching | WPFExplorerStyleTreeView/Model.cs:315 | the short-circuit test is true exactly when some file matches the pattern |
| FileSystem.Probe | WPFExplorerStyleTreeView/Model.cs:313-324 | the probe raises exactly for a faulting directory, with that directory's exception; otherwise it answers exactly whether a full enumeration would find a subdirectory or a matching file |
| Nodes.TreeViewHelper.constructor | WPFExplorerStyleTreeView/Model.cs:238-246 | the helper holds the given search pattern, which defaults to "*" |
| Nodes.InitialItems | WPFExplorerStyleTreeView/Model.cs:311-325 | the children after construction are empty or the single dummy; the dummy is there exactly when the directory exists, its probe does not raise, and a subdirectory or matching file would be enumerated |
| Nodes.DirectoryNode.constructor | WPFExplorerStyleTreeView/Model.cs:302-328 | the node holds its directory, helper and snapshot; its children are InitialItems; hasExpandedOnce is false and the icon is closed |
| Nodes.DirectoryNode.Expand | WPFExplorerStyleTreeView/Model.cs:336-357 | with no children, nothing changes; with children, the icon opens; the first time, the children become one fresh unexpanded directory node per subdirectory followed by one file node per matching file, and hasExpandedOnce becomes true; after that, the children stay as they are, so repeated expands are idempotent |
| Nodes.DirectoryNode.Collapse | WPFExplorerStyleTreeView/Model.cs:365-368 | only the icon may change, and it becomes closed exactly when the node is not expanded |
| Nodes.DirectoryNode.NewChildDirectories | WPFExplorerStyleTreeView/Model.cs:346-349 | one fresh, unexpanded directory node per subdirectory, in enumeration order, no two the same object |
| Nodes.ExpansionOrder | WPFExplorerStyleTreeView/Model.cs:345-354 | the expanded children are only directory and file nodes, one per subdirectory and per matching file, and every directory child comes before every file child |
| Nodes.ExpansionDirectories | WPFExplorerStyleTreeView/Model.cs:346-349 | the directory children are exactly the subdirectories, unfiltered by the pattern |
| Nodes.ExpansionFiles | WPFExplorerStyleTreeView/Model.cs:350-353 | the file children are exactly the directory's files that match the pattern |
| Nodes.ExpansionChildrenExist | WPFExplorerStyleTreeView/Model.cs:346-353 | in a well-formed snapshot every directory child of an expansion is an existing directory and every file child an existing file |
| Nodes.DummyAdvertisesExpansion | WPFExplorerStyleTreeView/Model.cs:315-317 | for an accessible directory, the dummy is present exactly when the first expansion with the same pattern yields at least one child |

## Left out

- WPF presentation is not modelled. This covers the `TreeViewItem` base class, the
  image/text/panel header layout and alignment, the icon bitmaps, the `double` icon width and
  height, and the header text (the directory or file name). The icon is the two-valued `Icon`.
- Event wiring and routed-event bubbling are replaced by explicit `Expand()` and
  `Collapse(isExpanded)` calls.
- The real filesystem is replaced by an immutable `Snapshot` value passed as a parameter. A
  directory node keeps the snapshot it was built on, so a filesystem that changes between probe
  and expansion (an exception inside `Expand`) is not modelled. The source does not catch
  exceptions there. If `GetDirectories`, `GetFiles` or a child's constructor raised after
  `Items.Clear()`, the node would keep an empty or partial `Items` with `hasExpandedOnce` still
  false; the model has no such state.
- `DirectoryNode.info` and `DirectoryNode.helper` are constants. In the source `_Info` has a
  public setter and `Helper` is a public field, but nothing in the core reassigns either after
  construction; the helper's `searchPattern` stays mutable, as in the source.
- The platform's wildcard semantics are not modelled. The matcher is an uninterpreted function
  field of the snapshot.
- Exceptions other than the three the probe swallows are not modelled. Examples are I/O errors
  and a path that is too long.
- The log line written for a swallowed probe exception is not modelled.
- Roots.RootDirectoryNode.TryCreateFileNode: it takes no helper, because `FileNode` uses the
  helper only for its icon and icon size.
- `WPFExplorerStyleTreeView/FileSystemInfoRevealConverter.cs` is not part of this model. It is a
  WPF value converter that only passes values through by type.
