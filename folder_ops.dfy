/** The searches and the change scan of `Folder`: `get_folder_by_path`,
    `get_file` and `get_changes`, each a loop over the flattened `files`
    list, proved against the first-match and scan definitions. */
module FolderOps {
  import opened Wrappers
  import opened Disk
  import opened Entries
  import opened HeapFacts
  import opened Replica
  import opened Searches
  import opened Changes

  /** `get_folder_by_path(path)`: the first entry of `files` whose `path` is
      `path`, of either kind, or `None`. */
  method GetFolderByPath(w: World, f: Ref, p: string) returns (r: Option<Ref>)
    requires w.Valid() && f < |w.heap|
    ensures r == Found(Files(w.heap, f), FirstWithPath(w.heap, Files(w.heap, f), p))
  {
    var xs := w.GetFiles(f, [], false);
    assert xs == Files(w.heap, f);
    r := FindPath(w.heap, xs, p);
  }

  /** The loop of `get_folder_by_path` over the entries `xs`. */
  method FindPath(h: Heap, xs: seq<Ref>, p: string) returns (r: Option<Ref>)
    requires HeapOk(h) && AllIn(h, xs)
    ensures r == Found(xs, FirstWithPath(h, xs, p))
  {
    var i := FirstIndex(PathList(h, xs), p);
    FirstWithPathAt(h, xs, p, i);
    r := if i < |xs| then Some(xs[i]) else None;
  }

  /** The position of the first occurrence of `p` in `ps`, or `|ps|`. */
  method FirstIndex(ps: seq<string>, p: string) returns (i: nat)
    ensures i <= |ps| && (i < |ps| ==> ps[i] == p)
    ensures forall j :: 0 <= j < i ==> ps[j] != p
  {
    i := 0;
    while i < |ps| && ps[i] != p
      invariant i <= |ps|
      invariant forall j :: 0 <= j < i ==> ps[j] != p
    {
      i := i + 1;
    }
  }

  /** `get_file(path, source_no_root, hash_val)`: the first `File` of `files`
      that every given filter admits, or `None`. */
  method GetFile(w: World, f: Ref, path: Option<string>, sourceNoRoot: Option<string>, hash: Option<Hash>)
    returns (r: Option<Ref>)
    requires w.Valid() && f < |w.heap|
    ensures r == Found(Files(w.heap, f), FirstFitting(w.heap, Files(w.heap, f), path, sourceNoRoot, hash))
  {
    var xs := w.GetFiles(f, [], false);
    assert xs == Files(w.heap, f);
    r := FindFile(w.heap, xs, path, sourceNoRoot, hash);
  }

  /** The loop of `get_file` over the entries `xs`: a `File` passes a filter
      that is not given or empty, or that equals its value. */
  method FindFile(h: Heap, xs: seq<Ref>, path: Option<string>, sourceNoRoot: Option<string>, hash: Option<Hash>)
    returns (r: Option<Ref>)
    requires HeapOk(h) && AllIn(h, xs)
    ensures r == Found(xs, FirstFitting(h, xs, path, sourceNoRoot, hash))
  {
    var i := 0;
    while i < |xs|
      invariant 0 <= i <= |xs|
      invariant forall j :: 0 <= j < i ==> !FileFits(h, xs[j], path, sourceNoRoot, hash)
    {
      var fits := Fits(h, xs[i], path, sourceNoRoot, hash);
      if fits {
        FirstFittingAt(h, xs, path, sourceNoRoot, hash, i);
        return Some(xs[i]);
      }
      i := i + 1;
    }
    FirstFittingAt(h, xs, path, sourceNoRoot, hash, i);
    return None;
  }

  /** The test inside the loop of `get_file`: a `File` whose relative path,
      root-less source path and hash pass the filters given. */
  method Fits(h: Heap, x: Ref, path: Option<string>, sourceNoRoot: Option<string>, hash: Option<Hash>)
    returns (b: bool)
    requires HeapOk(h) && x < |h|
    ensures b <==> FileFits(h, x, path, sourceNoRoot, hash)
  {
    b := false;
    if h[x].kind == FileKind {
      var pathMatch := path.None? || path.value == "" || Path(h, x) == path.value;
      var sourceMatch := sourceNoRoot.None? || sourceNoRoot.value == "" || SourceNoRoot(h, x) == sourceNoRoot.value;
      var hashMatch := hash.None? || hash.value == "" || h[x].hash == hash;
      b := pathMatch && sourceMatch && hashMatch;
    }
  }

  /** `get_changes()`: scan `files` against `old_files`, removing each matched
      entry from `old_files` as it goes, then collect the leftover old entries
      that equal no current entry.  Nothing the scan reads (`__eq__`, paths,
      tags) depends on `old_files`, so the removals are written back once,
      after the scan. */
  method GetChanges(w: World, f: Ref) returns (modified: seq<Ref>, newFiles: seq<Ref>, removed: seq<Ref>)
    requires w.Valid() && f < |w.heap| && w.heap[f].oldFiles.Some?
    modifies w
    ensures w.Valid() && w.fs == old(w.fs) && w.clock == old(w.clock)
    ensures ScanDone(old(w.fs), old(w.heap), w.heap, f, modified, newFiles, removed)
  {
    var h0 := w.heap;
    assert ChildrenOk(h0, f);
    var cur := w.GetFiles(f, [], false);
    assert cur == Files(h0, f);
    var left;
    modified, newFiles, left := ScanLoop(w.fs, h0, cur, h0[f].oldFiles.value);
    removed := CollectRemoved(w.fs, h0, left, cur);
    SetOldOk(h0, f, h0[f].(oldFiles := Some(left)));
    w.heap := h0[f := h0[f].(oldFiles := Some(left))];
  }

  /** The first loop of `get_changes`: `left` is what remains of `old_files`. */
  method ScanLoop(fs: FileSystem, h: Heap, cur: seq<Ref>, prior: seq<Ref>)
    returns (modified: seq<Ref>, newFiles: seq<Ref>, left: seq<Ref>)
    requires HeapOk(h) && AllIn(h, cur) && AllIn(h, prior)
    ensures var s := ScanFrom(fs, h, cur, prior); modified == s.modified && newFiles == s.newFiles && left == s.left
  {
    var s := Scan([], [], prior, []);
    var i := 0;
    while i < |cur|
      invariant 0 <= i <= |cur|
      invariant s == ScanFrom(fs, h, cur[..i], prior)
    {
      s := HandleOne(fs, h, cur, prior, i, s);
      i := i + 1;
    }
    assert cur[..i] == cur;
    modified, newFiles, left := s.modified, s.newFiles, s.left;
  }

  /** One pass of that loop, for the `i`-th current entry `fl`: a matched
      entry is removed from the leftover old entries; otherwise the first old
      entry storing its tag is reported as modified, or else `fl` as new. */
  method HandleOne(fs: FileSystem, h: Heap, cur: seq<Ref>, prior: seq<Ref>, i: nat, s: Scan) returns (r: Scan)
    requires HeapOk(h) && AllIn(h, cur) && AllIn(h, prior) && i < |cur| && s == ScanFrom(fs, h, cur[..i], prior)
    ensures r == ScanFrom(fs, h, cur[..i + 1], prior)
  {
    ScanNext(fs, h, cur, prior, i);
    var fl := cur[i];
    if In(fs, h, fl, s.left) {
      InIndexOf(fs, h, fl, s.left);
      r := s.(left := RemoveFirst(fs, h, fl, s.left), outcomes := s.outcomes + [Matched]);
    } else {
      var k := FirstStored(h, s.left, Metadata(fs, h, fl));
      if k < |s.left| {
        r := s.(modified := s.modified + [s.left[k]], outcomes := s.outcomes + [Modified(s.left[k])]);
      } else {
        r := s.(newFiles := s.newFiles + [fl], outcomes := s.outcomes + [Added]);
      }
    }
  }

  /** The second loop of `get_changes`. */
  method CollectRemoved(fs: FileSystem, h: Heap, left: seq<Ref>, cur: seq<Ref>) returns (removed: seq<Ref>)
    requires HeapOk(h) && AllIn(h, left) && AllIn(h, cur)
    ensures removed == Removed(fs, h, left, cur)
  {
    removed := [];
    var j := 0;
    while j < |left|
      invariant 0 <= j <= |left|
      invariant removed == Removed(fs, h, left[..j], cur)
    {
      assert left[..j + 1][..j] == left[..j];
      if !In(fs, h, left[j], cur) {
        removed := removed + [left[j]];
      }
      j := j + 1;
    }
    assert left[..j] == left;
  }

  /** `get_changes` on folder `f` took heap `h0` to `h1` and reported these
      lists: exactly what the scan of `files` against `old_files` gives, with
      `old_files` left holding the unmatched old entries. */
  ghost predicate ScanDone(fs: FileSystem, h0: Heap, h1: Heap, f: Ref,
                           modified: seq<Ref>, newFiles: seq<Ref>, removed: seq<Ref>)
  {
    && HeapOk(h0) && f < |h0| && h0[f].oldFiles.Some? && AllIn(h0, h0[f].oldFiles.value)
    && var cur := Files(h0, f);
       var s := ScanFrom(fs, h0, cur, h0[f].oldFiles.value);
       && modified == s.modified && newFiles == s.newFiles
       && removed == Removed(fs, h0, s.left, cur)
       && h1 == h0[f := h0[f].(oldFiles := Some(s.left))]
  }
}
