/** The replica tree of `sync.py`: `_BaseFile`, `File` and `Folder` objects.

    Python objects live in a heap (`Heap`), a sequence in allocation order; a
    `Ref` is an object's position in it.  An object's parent was always built
    before it, and a folder's `_files` only ever receives objects built after it
    whose `parent_folder` is that folder, so both the walk up the parent chain
    (paths) and the walk down the child lists (`files`) terminate.

    This module holds the objects' fields and everything that only reads them:
    the path properties, `__eq__`, `__gt__`, the flattened `files` list and the
    sets and lists derived from it. */
module Entries {
  import opened Wrappers
  import opened Positions
  import opened Text
  import opened Disk

  /** A reference to a `File` or `Folder` object. */
  type Ref = nat

  /** The fields of one `File` or `Folder` object.
      `stored` is `_stored_metadata`, `statPath` the path `_fl` was built from,
      `files` is `Folder._files`; the `old*` fields are set by `load_files`. */
  datatype Obj = Obj(
    kind: Kind,
    name: string,
    parent: Option<Ref>,
    hash: Option<Hash>,
    stored: Tag,
    statPath: string,
    files: seq<Ref>,
    oldFiles: Option<seq<Ref>>,
    oldHashes: Option<set<Hash>>,
    oldPaths: Option<set<string>>)

  type Heap = seq<Obj>

  predicate NoDup(s: seq<Ref>)
  {
    forall i, j :: 0 <= i < j < |s| ==> s[i] != s[j]
  }

  /** Every reference in `xs` names an object. */
  predicate AllIn(h: Heap, xs: seq<Ref>)
  {
    forall i :: 0 <= i < |xs| ==> xs[i] < |h|
  }

  /** A parent is a folder built before its child. */
  ghost predicate ParentOk(h: Heap, r: Ref)
    requires r < |h|
  {
    h[r].parent.Some? ==> h[r].parent.value < r && h[h[r].parent.value].kind == FolderKind
  }

  /** Names are never empty; below a root they are single path pieces. */
  ghost predicate NamedOk(h: Heap, r: Ref)
    requires r < |h|
  {
    h[r].name != [] && (h[r].parent.Some? ==> IsName(h[r].name))
  }

  /** A folder lists each child once; a child was built after its folder and points back to it.
      A file lists nothing. */
  ghost predicate ChildrenOk(h: Heap, r: Ref)
    requires r < |h|
  {
    && NoDup(h[r].files)
    && (h[r].kind == FileKind ==> h[r].files == [])
    && (forall i :: 0 <= i < |h[r].files| ==> r < h[r].files[i] < |h| && h[h[r].files[i]].parent == Some(r))
    && (h[r].oldFiles.Some? ==> AllIn(h, h[r].oldFiles.value))
  }

  /** The invariant every heap of the program keeps. */
  ghost predicate HeapOk(h: Heap)
  {
    forall r :: 0 <= r < |h| ==> ParentOk(h, r) && NamedOk(h, r) && ChildrenOk(h, r)
  }

  lemma ParentOf(h: Heap, r: Ref)
    requires HeapOk(h) && r < |h| && h[r].parent.Some?
    ensures h[r].parent.value < r && h[h[r].parent.value].kind == FolderKind
  {
    assert ParentOk(h, r);
  }

  /** `parent_folder` of an entry that has one: a folder built before it. */
  function Parent(h: Heap, r: Ref): (p: Ref)
    requires HeapOk(h) && r < |h| && h[r].parent.Some?
    ensures p == h[r].parent.value && p < r && h[p].kind == FolderKind
  {
    ParentOf(h, r);
    h[r].parent.value
  }

  // ---------------------------------------------------------------- paths

  function Reverse(s: seq<string>): (r: seq<string>)
    ensures |r| == |s|
  {
    if s == [] then [] else Reverse(s[1..]) + [s[0]]
  }

  /** `_get_source_list`: the names of the enclosing folders, nearest first,
      each with one trailing "/" removed. */
  function SourceList(h: Heap, r: Ref): seq<string>
    requires HeapOk(h) && r < |h|
    decreases r
  {
    match h[r].parent
    case None => []
    case Some(p) =>
      ParentOf(h, r);
      [StripSlash(h[p].name)] + SourceList(h, p)
  }

  /** `source`: the path of the folder holding the entry, "" for a root. */
  function Source(h: Heap, r: Ref): string
    requires HeapOk(h) && r < |h|
  {
    if h[r].parent.None? then "" else Join(Reverse(SourceList(h, r)))
  }

  /** `full_path`: the source path, "/" and the entry's own name. */
  function FullPath(h: Heap, r: Ref): string
    requires HeapOk(h) && r < |h|
  {
    var src := Source(h, r);
    if src == "" then h[r].name else src + "/" + h[r].name
  }

  /** `root_folder_path`: the name of the root at the top of the parent chain. */
  function RootFolderPath(h: Heap, r: Ref): string
    requires HeapOk(h) && r < |h|
    decreases r
  {
    match h[r].parent
    case None => h[r].name
    case Some(p) => ParentOf(h, r); RootFolderPath(h, p)
  }

  /** `root_folder`: the root object at the top of the parent chain. */
  function RootFolder(h: Heap, r: Ref): (root: Ref)
    requires HeapOk(h) && r < |h|
    ensures root <= r && h[root].parent.None?
    decreases r
  {
    match h[r].parent
    case None => r
    case Some(p) => ParentOf(h, r); RootFolder(h, p)
  }

  /** Where `path` and `source_no_root` cut: just past the first occurrence of
      the root name in the full path. */
  function RootCut(h: Heap, r: Ref): int
    requires HeapOk(h) && r < |h|
  {
    var root := RootFolderPath(h, r);
    Find(FullPath(h, r), root) + |root|
  }

  /** `path`: the full path with the root name cut off. */
  function Path(h: Heap, r: Ref): string
    requires HeapOk(h) && r < |h|
  {
    SliceFrom(FullPath(h, r), RootCut(h, r))
  }

  /** `source_no_root`: the source path cut at the same place. */
  function SourceNoRoot(h: Heap, r: Ref): string
    requires HeapOk(h) && r < |h|
  {
    SliceFrom(Source(h, r), RootCut(h, r))
  }

  // ------------------------------------------------------ disk-backed facts

  /** `metadata`: the tag read from the disk now, at the current full path. */
  function Metadata(fs: FileSystem, h: Heap, r: Ref): Option<Tag>
    requires HeapOk(h) && r < |h|
  {
    GetXattr(fs, FullPath(h, r))
  }

  /** `modified`: the modification time of the path the object was built with. */
  function Modified(fs: FileSystem, h: Heap, r: Ref): Option<int>
    requires r < |h|
  {
    Mtime(fs, h[r].statPath)
  }

  /** `exists()`: a file for a `File`, a directory for a `Folder`. */
  predicate Exists(fs: FileSystem, h: Heap, r: Ref)
    requires HeapOk(h) && r < |h|
  {
    if h[r].kind == FileKind then IsFile(fs, FullPath(h, r)) else IsDir(fs, FullPath(h, r))
  }

  /** `a == b` (`_BaseFile.__eq__`): tag, path and hash all equal, except that
      an object without a hash on the left compares by path alone. */
  predicate Eq(fs: FileSystem, h: Heap, a: Ref, b: Ref)
    requires HeapOk(h) && a < |h| && b < |h|
  {
    if h[a].hash.None? then Path(h, a) == Path(h, b)
    else Metadata(fs, h, a) == Metadata(fs, h, b) && Path(h, a) == Path(h, b) && h[a].hash == h[b].hash
  }

  /** Whether `a > b` can be evaluated: `modified` stats the path each
      object was built with, and raises when either path is gone. */
  predicate Comparable(fs: FileSystem, h: Heap, a: Ref, b: Ref)
    requires a < |h| && b < |h|
  {
    Modified(fs, h, a).Some? && Modified(fs, h, b).Some?
  }

  /** `a > b` (`_BaseFile.__gt__`): `a` was modified strictly later.  Only
      meaningful when `Comparable`; callers treat the other case as raised. */
  predicate Newer(fs: FileSystem, h: Heap, a: Ref, b: Ref)
    requires a < |h| && b < |h|
  {
    var ma, mb := Modified(fs, h, a), Modified(fs, h, b);
    ma.Some? && mb.Some? && ma.value > mb.value
  }

  /** `is_hash_match`. */
  predicate IsHashMatch(h: Heap, a: Ref, b: Ref)
    requires a < |h| && b < |h|
  {
    h[a].hash == h[b].hash
  }

  /** `is_metadata_match`. */
  predicate IsMetadataMatch(fs: FileSystem, h: Heap, a: Ref, b: Ref)
    requires HeapOk(h) && a < |h| && b < |h|
  {
    Metadata(fs, h, a) == Metadata(fs, h, b)
  }

  // ------------------------------------------------ list operations on entries

  /** `x in xs`: some item of the list equals `x`; the list item is the left
      operand of `__eq__`, as CPython's list search evaluates it. */
  predicate In(fs: FileSystem, h: Heap, x: Ref, xs: seq<Ref>)
    requires HeapOk(h) && x < |h| && AllIn(h, xs)
  {
    exists i :: 0 <= i < |xs| && Eq(fs, h, xs[i], x)
  }

  /** `xs == ys` for two lists of entries: same length and equal item by item. */
  predicate ListEq(fs: FileSystem, h: Heap, xs: seq<Ref>, ys: seq<Ref>)
    requires HeapOk(h) && AllIn(h, xs) && AllIn(h, ys)
  {
    |xs| == |ys| && forall i :: 0 <= i < |xs| ==> Eq(fs, h, xs[i], ys[i])
  }

  /** The position of the first item of `xs` equal to `x`, or `|xs|` when none is. */
  function IndexOf(fs: FileSystem, h: Heap, x: Ref, xs: seq<Ref>): (i: nat)
    requires HeapOk(h) && x < |h| && AllIn(h, xs)
    ensures i <= |xs|
    ensures i < |xs| ==> Eq(fs, h, xs[i], x)
    ensures forall j :: 0 <= j < i ==> !Eq(fs, h, xs[j], x)
  {
    var tests := seq(|xs|, j requires 0 <= j < |xs| => Eq(fs, h, xs[j], x));
    assert forall j :: 0 <= j < |xs| ==> tests[j] == Eq(fs, h, xs[j], x);
    FirstTrueFrom(tests, 0)
  }

  /** `x in xs` holds exactly when `xs.index(x)` finds a position. */
  lemma InIndexOf(fs: FileSystem, h: Heap, x: Ref, xs: seq<Ref>)
    requires HeapOk(h) && x < |h| && AllIn(h, xs)
    ensures In(fs, h, x, xs) <==> IndexOf(fs, h, x, xs) < |xs|
  {
  }

  /** `xs.remove(x)`: the list without its first item equal to `x`. */
  function RemoveFirst(fs: FileSystem, h: Heap, x: Ref, xs: seq<Ref>): (r: seq<Ref>)
    requires HeapOk(h) && x < |h| && AllIn(h, xs) && IndexOf(fs, h, x, xs) < |xs|
    ensures |r| == |xs| - 1 && AllIn(h, r)
    ensures var i := IndexOf(fs, h, x, xs); r == xs[..i] + xs[i + 1..]
  {
    var i := IndexOf(fs, h, x, xs);
    xs[..i] + xs[i + 1..]
  }

  // ------------------------------------------------------------ flattening

  /** `files` (`_get_files()`): for each child in order, the flattened contents
      of a child folder and then the child itself. */
  function Files(h: Heap, f: Ref): (r: seq<Ref>)
    requires HeapOk(h) && f < |h|
    ensures forall i :: 0 <= i < |r| ==> f < r[i] < |h|
    decreases |h| - f, 1, 0
  {
    assert ChildrenOk(h, f);
    Collect(h, f, h[f].files)
  }

  /** The flattening of a run `cs` of the children of `f`. */
  function Collect(h: Heap, f: Ref, cs: seq<Ref>): (r: seq<Ref>)
    requires HeapOk(h) && f < |h|
    requires forall i :: 0 <= i < |cs| ==> f < cs[i] < |h|
    ensures forall i :: 0 <= i < |r| ==> f < r[i] < |h|
    decreases |h| - f, 0, |cs|
  {
    if cs == [] then []
    else
      (if h[cs[0]].kind == FolderKind then Files(h, cs[0]) else []) + [cs[0]] + Collect(h, f, cs[1..])
  }

  /** `core_files` (`_get_files(core=True)`): the children alone. */
  function CoreFiles(h: Heap, f: Ref): (r: seq<Ref>)
    requires HeapOk(h) && f < |h|
    ensures forall i :: 0 <= i < |r| ==> f < r[i] < |h| && h[r[i]].parent == Some(f)
  {
    assert ChildrenOk(h, f);
    h[f].files
  }

  /** The hashes present among `xs` (`_get_hashes`): `None` is never one of them. */
  function Hashes(h: Heap, xs: seq<Ref>): (hs: set<Hash>)
    requires AllIn(h, xs)
    ensures forall x :: x in hs <==> exists i :: 0 <= i < |xs| && h[xs[i]].hash == Some(x)
  {
    set i | 0 <= i < |xs| && h[xs[i]].hash.Some? :: h[xs[i]].hash.value
  }

  /** The `path` of each entry of `xs`, in order (`_get_paths()`). */
  function PathList(h: Heap, xs: seq<Ref>): (ps: seq<string>)
    requires HeapOk(h) && AllIn(h, xs)
    ensures |ps| == |xs| && forall i :: 0 <= i < |xs| ==> ps[i] == Path(h, xs[i])
  {
    seq(|xs|, i requires 0 <= i < |xs| => Path(h, xs[i]))
  }

  /** The `full_path` of each entry of `xs`, in order (`_get_paths(no_root=True)`). */
  function FullPathList(h: Heap, xs: seq<Ref>): (ps: seq<string>)
    requires HeapOk(h) && AllIn(h, xs)
    ensures |ps| == |xs| && forall i :: 0 <= i < |xs| ==> ps[i] == FullPath(h, xs[i])
  {
    seq(|xs|, i requires 0 <= i < |xs| => FullPath(h, xs[i]))
  }

  /** `paths` / `core_paths`: the set of those paths. */
  function PathSet(h: Heap, xs: seq<Ref>): (ps: set<string>)
    requires HeapOk(h) && AllIn(h, xs)
    ensures forall p :: p in ps <==> exists i :: 0 <= i < |xs| && Path(h, xs[i]) == p
  {
    set i | 0 <= i < |xs| :: Path(h, xs[i])
  }

  /** `file_names` / `core_file_names`. */
  function NameList(h: Heap, xs: seq<Ref>): (ns: seq<string>)
    requires AllIn(h, xs)
    ensures |ns| == |xs| && forall i :: 0 <= i < |xs| ==> ns[i] == h[xs[i]].name
  {
    seq(|xs|, i requires 0 <= i < |xs| => h[xs[i]].name)
  }

  /** `metadatas` / `core_metadatas`: the tags read from the disk now. */
  function MetadataList(fs: FileSystem, h: Heap, xs: seq<Ref>): (ms: seq<Option<Tag>>)
    requires HeapOk(h) && AllIn(h, xs)
    ensures |ms| == |xs| && forall i :: 0 <= i < |xs| ==> ms[i] == Metadata(fs, h, xs[i])
  {
    seq(|xs|, i requires 0 <= i < |xs| => Metadata(fs, h, xs[i]))
  }

  /** `has_changes()`: the flattened list differs from the one kept by the last `load_files`. */
  predicate HasChanges(fs: FileSystem, h: Heap, f: Ref)
    requires HeapOk(h) && f < |h| && h[f].oldFiles.Some?
  {
    assert ChildrenOk(h, f);
    !ListEq(fs, h, Files(h, f), h[f].oldFiles.value)
  }
}
