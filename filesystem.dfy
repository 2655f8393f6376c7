/** The filesystem as the tree sees it: an immutable snapshot that answers the existence checks,
    the enumerations and the search-pattern matching the model performs. It stands for
    `Directory.Exists`, `File.Exists`, `EnumerateDirectories`, `EnumerateFiles`, `GetDirectories`
    and `GetFiles` of the host platform. */
module FileSystem {
  import opened Sequences

  type Path = string

  /** What a path names: a directory with its immediate subdirectories and files, in the order
      the platform enumerates them, or a file. A path absent from the snapshot does not exist. */
  datatype Entry =
    | DirectoryEntry(subdirectories: seq<Path>, files: seq<Path>)
    | FileEntry

  /** The exception kinds the directory probe swallows. */
  datatype IoError = UnauthorizedAccess | DirectoryNotFound | FileNotFound

  datatype Result<T> = Success(value: T) | Failure(error: IoError)

  /** `faults` maps a directory whose enumeration raises to the exception it raises;
      `matcher(pattern, file)` is the platform's wildcard test, left uninterpreted. */
  datatype Snapshot = Snapshot(
    entries: map<Path, Entry>,
    faults: map<Path, IoError>,
    matcher: (string, Path) -> bool)

  predicate DirectoryExists(fs: Snapshot, p: Path)
  {
    p in fs.entries && fs.entries[p].DirectoryEntry?
  }

  predicate FileExists(fs: Snapshot, p: Path)
  {
    p in fs.entries && fs.entries[p].FileEntry?
  }

  predicate Matches(fs: Snapshot, pattern: string, file: Path)
  {
    fs.matcher(pattern, file)
  }

  /** A snapshot that reads like a real directory listing: every listed subdirectory is a
      directory of the snapshot and every listed file a file. Operations do not require it;
      in a snapshot without it, a listed child that is missing behaves as a missing path. */
  predicate WellFormed(fs: Snapshot)
  {
    forall p | p in fs.entries && fs.entries[p].DirectoryEntry? ::
      (forall d | d in fs.entries[p].subdirectories :: DirectoryExists(fs, d)) &&
      (forall f | f in fs.entries[p].files :: FileExists(fs, f))
  }

  /** An existing directory whose enumeration does not raise. */
  predicate Enumerable(fs: Snapshot, p: Path)
  {
    DirectoryExists(fs, p) && p !in fs.faults
  }

  /** `GetDirectories`: every immediate subdirectory, unfiltered. */
  function GetDirectories(fs: Snapshot, p: Path): (r: seq<Path>)
    requires Enumerable(fs, p)
    ensures |r| == |fs.entries[p].subdirectories|
    ensures forall i :: 0 <= i < |r| ==> r[i] == fs.entries[p].subdirectories[i]
    ensures WellFormed(fs) ==> forall d :: d in r ==> DirectoryExists(fs, d)
  {
    fs.entries[p].subdirectories
  }

  /** `GetFiles(pattern)`: the immediate files that match, in enumeration order. */
  function GetFiles(fs: Snapshot, p: Path, pattern: string): (r: seq<Path>)
    requires Enumerable(fs, p)
    ensures forall f :: f in r <==> f in fs.entries[p].files && Matches(fs, pattern, f)
  {
    Where(fs.entries[p].files, f => Matches(fs, pattern, f))
  }

  /** `EnumerateFiles(pattern).Any()`: stops at the first match. */
  function AnyMatching(fs: Snapshot, pattern: string, files: seq<Path>): (r: bool)
    ensures r <==> exists f :: f in files && Matches(fs, pattern, f)
  {
    if files == [] then false
    else Matches(fs, pattern, files[0]) || AnyMatching(fs, pattern, files[1..])
  }

  /** The construction probe of a directory node:
      `EnumerateDirectories().Any() || EnumerateFiles(pattern).Any()`, or the exception raised.
      When it succeeds it answers exactly whether a full enumeration would find anything. */
  function Probe(fs: Snapshot, p: Path, pattern: string): (r: Result<bool>)
    requires DirectoryExists(fs, p)
    ensures r.Failure? <==> p in fs.faults
    ensures r.Failure? ==> r.error == fs.faults[p]
    ensures r.Success? ==>
      (r.value <==> GetDirectories(fs, p) != [] || GetFiles(fs, p, pattern) != [])
  {
    if p in fs.faults then Failure(fs.faults[p])
    else
      var entry := fs.entries[p];
      assert AnyMatching(fs, pattern, entry.files) <==> GetFiles(fs, p, pattern) != [] by {
        var found := GetFiles(fs, p, pattern);
        if found != [] { assert found[0] in found; }
      }
      Success(|entry.subdirectories| > 0 || AnyMatching(fs, pattern, entry.files))
  }
}
