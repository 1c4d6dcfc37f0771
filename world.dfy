/** The running program's mutable state — the disk and every `File` and
    `Folder` object built so far — and the methods of those classes that
    change it or walk it with a loop. */
module Replica {
  import opened Wrappers
  import opened Text
  import opened Disk
  import opened Entries
  import opened PathFacts
  import opened TreeFacts
  import opened HeapFacts
  import opened Loading

  /** The names of a `for` loop over `names`: those in `done` are handled,
      those in `rest` are still to come. */
  predicate Handled(names: set<string>, rest: set<string>, done: set<string>)
  {
    rest <= names && done == names - rest
  }

  lemma HandledStart(names: set<string>)
    ensures Handled(names, names, {})
  {
  }

  lemma HandledStep(names: set<string>, rest: set<string>, done: set<string>, n: string)
    requires Handled(names, rest, done) && n in rest
    ensures n in names && n !in done && Handled(names, rest - {n}, done + {n})
  {
  }

  lemma HandledAll(names: set<string>, rest: set<string>, done: set<string>)
    requires Handled(names, rest, done) && rest == {}
    ensures done == names
  {
  }

  /** What `add_metadata` is handed: an entry, or a path string. */
  datatype Target = EntryTarget(r: Ref) | PathTarget(p: string)

  /** The path `add_metadata` writes the tag to. */
  function TargetPath(h: Heap, t: Target): string
    requires HeapOk(h) && (t.EntryTarget? ==> t.r < |h|)
  {
    match t
    case EntryTarget(r) => FullPath(h, r)
    case PathTarget(p) => p
  }

  /** Where `rename_self_as_input` moves entry `r`: its own directory, `fl`'s name. */
  function RenameDest(h: Heap, r: Ref, fl: Ref): string
    requires HeapOk(h) && r < |h| && fl < |h|
  {
    Source(h, r) + "/" + h[fl].name
  }

  /** Whether the rename goes through: the entry exists and `os.rename` does
      not raise (renaming a path onto itself is allowed and changes nothing). */
  predicate RenameGoes(fs: FileSystem, h: Heap, r: Ref, fl: Ref)
    requires HeapOk(h) && r < |h| && fl < |h|
  {
    var src, dst := FullPath(h, r), RenameDest(h, r, fl);
    Exists(fs, h, r) && (Resolve(src) == Resolve(dst) || RenameOk(fs, src, dst))
  }

  lemma HashesSnoc(h: Heap, xs: seq<Ref>, x: Ref)
    requires AllIn(h, xs) && x < |h|
    ensures Hashes(h, xs + [x]) == Hashes(h, xs) + if h[x].hash.Some? then {h[x].hash.value} else {}
  {
    var ys := xs + [x];
    forall v | v in Hashes(h, ys) ensures v in Hashes(h, xs) || h[x].hash == Some(v) {
      var i :| 0 <= i < |ys| && h[ys[i]].hash == Some(v);
      if i < |xs| {
        assert ys[i] == xs[i];
      }
    }
    forall v | v in Hashes(h, xs) ensures v in Hashes(h, ys) {
      var i :| 0 <= i < |xs| && h[xs[i]].hash == Some(v);
      assert ys[i] == xs[i];
    }
    if h[x].hash.Some? {
      assert ys[|xs|] == x;
    }
  }

  /** The path `_get_paths` records for entry `x`: its `full_path` when
      `no_root` is set, its `path` otherwise. */
  function EntryPath(h: Heap, x: Ref, noRoot: bool): string
    requires HeapOk(h) && x < |h|
  {
    if noRoot then FullPath(h, x) else Path(h, x)
  }

  /** The list `_get_paths` builds for the entries `xs`. */
  function PathsOf(h: Heap, xs: seq<Ref>, noRoot: bool): seq<string>
    requires HeapOk(h) && AllIn(h, xs)
  {
    if noRoot then FullPathList(h, xs) else PathList(h, xs)
  }

  lemma PathsOfStep(h: Heap, xs: seq<Ref>, i: nat, noRoot: bool)
    requires HeapOk(h) && AllIn(h, xs) && i < |xs|
    ensures PathsOf(h, xs[..i + 1], noRoot) == PathsOf(h, xs[..i], noRoot) + [EntryPath(h, xs[i], noRoot)]
  {
    var a, b := xs[..i + 1], xs[..i];
    assert a == b + [xs[i]];
    if noRoot {
      var pa, pb := FullPathList(h, a), FullPathList(h, b);
      assert |pa| == |pb| + 1;
      forall j | 0 <= j < |pb| ensures pa[j] == pb[j] {
        assert a[j] == b[j];
      }
      assert pa == pb + [FullPath(h, xs[i])];
    } else {
      var pa, pb := PathList(h, a), PathList(h, b);
      assert |pa| == |pb| + 1;
      forall j | 0 <= j < |pb| ensures pa[j] == pb[j] {
        assert a[j] == b[j];
      }
      assert pa == pb + [Path(h, xs[i])];
    }
  }

  /** The loop of `_get_hashes`: add each hash that is not `None`. */
  method CollectHashes(h: Heap, xs: seq<Ref>) returns (hs: set<Hash>)
    requires AllIn(h, xs)
    ensures hs == Hashes(h, xs)
  {
    hs := {};
    var i := 0;
    while i < |xs|
      invariant 0 <= i <= |xs|
      invariant hs == Hashes(h, xs[..i])
    {
      HashesSnoc(h, xs[..i], xs[i]);
      assert xs[..i + 1] == xs[..i] + [xs[i]];
      if h[xs[i]].hash.Some? {
        hs := hs + {h[xs[i]].hash.value};
      }
      i := i + 1;
    }
    assert xs[..i] == xs;
  }

  /** The loop of `_get_paths`: append each entry's `full_path` or `path`. */
  method CollectPaths(h: Heap, xs: seq<Ref>, noRoot: bool) returns (ps: seq<string>)
    requires HeapOk(h) && AllIn(h, xs)
    ensures ps == PathsOf(h, xs, noRoot)
  {
    ps := [];
    var i := 0;
    while i < |xs|
      invariant 0 <= i <= |xs|
      invariant ps == PathsOf(h, xs[..i], noRoot)
    {
      PathsOfStep(h, xs, i, noRoot);
      ps := ps + [EntryPath(h, xs[i], noRoot)];
      i := i + 1;
    }
    assert xs[..i] == xs;
  }

  /** `set(paths)` of the path list is the set of paths. */
  lemma PathListSet(h: Heap, xs: seq<Ref>)
    requires HeapOk(h) && AllIn(h, xs)
    ensures (set i | 0 <= i < |PathList(h, xs)| :: PathList(h, xs)[i]) == PathSet(h, xs)
  {
    var ps := PathList(h, xs);
    forall p | p in PathSet(h, xs) ensures p in set i | 0 <= i < |ps| :: ps[i] {
      var i :| 0 <= i < |xs| && Path(h, xs[i]) == p;
      assert ps[i] == p;
    }
  }

  class World {
    /** The disk. */
    var fs: FileSystem
    /** Every `File` and `Folder` object built so far. */
    var heap: Heap
    /** The time `os.mkdir` stamps on a new directory. */
    var clock: int

    ghost predicate Valid()
      reads this
    {
      HeapOk(heap) && DiskOk(fs)
    }

    constructor (disk: FileSystem, now: int)
      requires DiskOk(disk)
      ensures Valid() && fs == disk && heap == [] && clock == now
    {
      fs, heap, clock := disk, [], now;
    }

    /** `add_metadata(cls, data)`: write `data`, or a fresh 15-character tag
        when there is none, to the entry's or the path's extended attribute;
        an entry also keeps the tag as its stored tag.  A missing path is left alone. */
    method AddMetadata(target: Target, data: Option<Tag>) returns (tag: Tag)
      requires Valid() && (target.EntryTarget? ==> target.r < |heap|)
      modifies this
      ensures Valid() && clock == old(clock)
      ensures if data.Some? then tag == data.value else IsGeneratedTag(tag)
      ensures fs == SetXattr(old(fs), TargetPath(old(heap), target), tag)
      ensures heap == if target.EntryTarget? then old(heap)[target.r := old(heap)[target.r].(stored := tag)] else old(heap)
    {
      if data.Some? {
        tag := data.value;
      } else {
        assert IsGeneratedTag(seq(TagLength, i => 'a'));
        tag :| IsGeneratedTag(tag);
      }
      var path := TargetPath(heap, target);
      if target.EntryTarget? {
        assert NamedOk(heap, target.r);
        UpdateOk(heap, target.r, heap[target.r].(stored := tag));
        heap := heap[target.r := heap[target.r].(stored := tag)];
      }
      SetXattrKeepsDiskOk(fs, path, tag);
      fs := SetXattr(fs, path, tag);
    }

    /** The `File(name, folder)` and `Folder(name, folder)` constructors: a new
        entry with no children, whose stored tag is the tag already on the disk
        or else a generated one that is written there.  A file takes the hash
        of its contents; a folder's hash ends up `None`. */
    method NewEntry(kind: Kind, name: string, parent: Option<Ref>) returns (r: Ref)
      requires Valid() && name != []
      requires parent.Some? ==> parent.value < |heap| && heap[parent.value].kind == FolderKind && IsName(name)
      modifies this
      ensures Valid() && clock == old(clock)
      ensures Built(old(heap), heap, old(fs), fs, r, kind, name, parent)
    {
      var o := Obj(kind, name, parent, None, "", "", [], None, None, None);
      AppendOk(heap, o);
      var full := FullPath(heap + [o], |heap|);
      var tag: Tag;
      var existing := GetXattr(fs, full);
      var fs0 := fs;
      if existing.Some? {
        tag := existing.value;
      } else {
        tag := AddMetadata(PathTarget(full), None);
      }
      var hash := if kind == FileKind then HashFile(fs, full) else None;
      BuiltFrom(heap, o, fs0, fs, full, tag, hash);
      heap := heap + [o.(hash := hash, stored := tag, statPath := full)];
      r := |heap| - 1;
    }

    /** `add_file(fl)`: append a new child to the folder's own list. */
    method AddFile(f: Ref, c: Ref)
      requires Valid() && f < c < |heap| && heap[f].kind == FolderKind
      requires heap[c].parent == Some(f) && c !in heap[f].files
      modifies this
      ensures Valid() && fs == old(fs) && clock == old(clock)
      ensures heap == old(heap)[f := old(heap)[f].(files := old(heap)[f].files + [c])]
    {
      AddChildOk(heap, f, c);
      heap := heap[f := heap[f].(files := heap[f].files + [c])];
    }

    /** `_get_files(files, core)`: `files` with the folder's flattened
        contents (`core`: its own children alone) appended. */
    method GetFiles(f: Ref, acc: seq<Ref>, core: bool) returns (r: seq<Ref>)
      requires Valid() && f < |heap|
      ensures r == acc + if core then CoreFiles(heap, f) else Files(heap, f)
      decreases |heap| - f
    {
      r := acc;
      var h := heap;
      assert ChildrenOk(h, f);
      var cs := h[f].files;
      var i := 0;
      while i < |cs|
        invariant 0 <= i <= |cs|
        invariant core ==> r == acc + cs[..i]
        invariant !core ==> r == acc + Collect(h, f, cs[..i])
      {
        var c := cs[i];
        ghost var before := r;
        if h[c].kind == FolderKind && !core {
          r := GetFiles(c, r, false);
        }
        r := r + [c];
        assert cs[..i + 1] == cs[..i] + [c];
        if core {
          AppendAssoc(acc, cs[..i], [c]);
        } else {
          assert r == before + Block(h, c);
          CollectSnoc(h, f, cs[..i], c);
          AppendAssoc(acc, Collect(h, f, cs[..i]), Block(h, c));
        }
        i := i + 1;
      }
      assert cs[..i] == cs;
    }

    /** `_get_hashes(core)`: the hashes present among `files` (or `core_files`). */
    method GetHashes(f: Ref, core: bool) returns (hs: set<Hash>)
      requires Valid() && f < |heap|
      ensures hs == Hashes(heap, if core then CoreFiles(heap, f) else Files(heap, f))
    {
      var xs := GetFiles(f, [], core);
      assert xs == if core then CoreFiles(heap, f) else Files(heap, f);
      hs := CollectHashes(heap, xs);
    }

    /** `_get_paths(no_root, core)`: the `path` (`no_root`: the `full_path`) of
        each entry of `files` (or `core_files`), in order. */
    method GetPaths(f: Ref, noRoot: bool, core: bool) returns (ps: seq<string>)
      requires Valid() && f < |heap|
      ensures var xs := if core then CoreFiles(heap, f) else Files(heap, f);
              ps == if noRoot then FullPathList(heap, xs) else PathList(heap, xs)
    {
      var xs := GetFiles(f, [], core);
      assert xs == if core then CoreFiles(heap, f) else Files(heap, f);
      ps := CollectPaths(heap, xs, noRoot);
    }

    /** `rename_self_as_input(fl)`: when the entry exists, move it within its
        own directory to `fl`'s name and take `fl`'s name and hash.  `false`
        is `os.rename` raising, which comes before any change. */
    method RenameSelfAsInput(r: Ref, fl: Ref) returns (ok: bool)
      requires Valid() && r < |heap| && fl < |heap|
      requires heap[r].parent.Some? ==> IsName(heap[fl].name)
      modifies this
      ensures Valid() && clock == old(clock)
      ensures ok <==> old(!Exists(fs, heap, r) || RenameGoes(fs, heap, r, fl))
      ensures old(RenameGoes(fs, heap, r, fl)) ==>
        && fs == Rename(old(fs), old(FullPath(heap, r)), old(RenameDest(heap, r, fl)))
        && heap == old(heap)[r := old(heap)[r].(name := old(heap)[fl].name, hash := old(heap)[fl].hash)]
      ensures !old(RenameGoes(fs, heap, r, fl)) ==> fs == old(fs) && heap == old(heap)
      ensures old(RenameGoes(fs, heap, r, fl)) && heap[r].parent.Some? ==>
        && Source(heap, r) == old(Source(heap, r))
        && Resolve(FullPath(heap, r)) in fs
        && fs[Resolve(FullPath(heap, r))] == old(fs)[Resolve(old(FullPath(heap, r)))]
    {
      var src, dst := FullPath(heap, r), RenameDest(heap, r, fl);
      ok := !Exists(fs, heap, r) || RenameGoes(fs, heap, r, fl);
      if RenameGoes(fs, heap, r, fl) {
        var h0, fs0 := heap, fs;
        var o := heap[r].(name := heap[fl].name, hash := heap[fl].hash);
        assert NamedOk(heap, fl);
        UpdateOk(heap, r, o);
        RenameKeepsDiskOk(fs, src, dst);
        fs := Rename(fs, src, dst);
        heap := heap[r := o];
        if heap[r].parent.Some? {
          var p := Parent(heap, r);
          assert AncestryAgrees(h0, heap, p);
          SourceFramed(h0, heap, p);
          assert SourceList(heap, r) == SourceList(h0, r);
          ResolveAppendName(Source(heap, r), heap[r].name);
          ResolveAround(Source(h0, r), heap[r].name);
          ResolveName(heap[r].name);
          assert Resolve(FullPath(heap, r)) == Resolve(dst);
        }
      }
    }
  

    /** `load_files()`: keep the current `files`, `hashes` and `paths` as the
        old ones and clear the child list; then `os.listdir` of the folder's
        path raises (`false`) unless that path is a directory, which leaves
        the disk as it was and the folder emptied. */
    method LoadFiles(f: Ref) returns (ok: bool)
      requires Valid() && f < |heap| && heap[f].kind == FolderKind
      modifies this
      ensures Valid() && clock == old(clock)
      ensures ok <==> old(IsDir(fs, FullPath(heap, f)))
      ensures ok ==> LoadEffect(old(fs), old(heap), fs, heap, f)
      ensures !ok ==> fs == old(fs)
      ensures !ok ==> var xs := Files(old(heap), f);
        heap == old(heap)[f := old(heap)[f].(files := [], oldFiles := Some(xs), oldHashes := Some(Hashes(old(heap), xs)),
                                             oldPaths := Some(PathSet(old(heap), xs)))]
    {
      if !IsDir(fs, FullPath(heap, f)) {
        KeepOld(f);
        return false;
      }
      LoadTree(f);
      ok := true;
    }

    /** `load_files()` on a folder whose path `os.listdir` accepts, as it
        runs for every folder found inside one: keep the current `files`,
        `hashes` and `paths` as the old ones, clear the child list, then
        handle each name `os.listdir` reports (in whatever order it reports
        them) with `LoadEntry`. */
    method LoadTree(f: Ref)
      requires Valid() && f < |heap| && heap[f].kind == FolderKind
      modifies this
      ensures Valid() && clock == old(clock)
      ensures LoadEffect(old(fs), old(heap), fs, heap, f)
      decreases |Under(fs, KeyOf(heap, f))|, 2
    {
      ghost var h0, top := heap, KeyOf(heap, f);
      KeepOld(f);
      ghost var hR := heap;
      ResetStart(fs, h0, hR, f);
      var base := FullPath(heap, f);
      var names := ListDir(fs, base);
      assert names == ListDir(old(fs), FullPath(h0, f));
      LoadNames(f, base, names, old(fs), hR, top);
      LoadDone(old(fs), h0, hR, fs, heap, f, top);
    }

    /** The loop of `load_files` over the listed `names` of folder `f`. */
    /** The facts the loop of `load_files` on folder `f` keeps, with the
        names in `done` handled. */
    ghost predicate Loading(fsR: FileSystem, hR: Heap, f: Ref, top: Key, done: set<string>)
      reads this
    {
      && Valid() && HeapOk(hR) && f < |hR| && hR[f].kind == FolderKind && DiskOk(fsR)
      && LoadLoop(fsR, hR, fs, heap, f, top, done)
    }

    method LoadNames(f: Ref, base: string, names: set<string>, ghost fsR: FileSystem, ghost hR: Heap, ghost top: Key)
      requires Loading(fsR, hR, f, top, {})
      requires base != "" && Resolve(base) == top && names == ListDir(fsR, base)
      modifies this
      ensures Loading(fsR, hR, f, top, names) && clock == old(clock)
      decreases |Under(fsR, top)|, 1
    {
      var rest := names;
      ghost var done: set<string> := {};
      HandledStart(names);
      while rest != {}
        invariant Loading(fsR, hR, f, top, done) && clock == old(clock)
        invariant Handled(names, rest, done)
        decreases |rest|
      {
        var n :| n in rest;
        HandledStep(names, rest, done, n);
        LoadEntry(f, base, n, fsR, hR, top, done);
        rest := rest - {n};
        done := done + {n};
      }
      HandledAll(names, rest, done);
    }

    /** The start of `load_files`: `old_files`, `old_hashes` and `old_paths`
        take copies of `files`, `hashes` and `set(paths)`, and `_clear_arrays`
        empties the child list. */
    method KeepOld(f: Ref)
      requires Valid() && f < |heap|
      modifies this
      ensures Valid() && fs == old(fs) && clock == old(clock)
      ensures var xs := Files(old(heap), f);
        heap == old(heap)[f := old(heap)[f].(files := [], oldFiles := Some(xs), oldHashes := Some(Hashes(old(heap), xs)),
                                             oldPaths := Some(PathSet(old(heap), xs)))]
    {
      var previous, hashes, pathSet := Snapshot(f);
      ResetOk(heap, f, previous, hashes, pathSet);
      heap := heap[f := heap[f].(files := [], oldFiles := Some(previous), oldHashes := Some(hashes), oldPaths := Some(pathSet))];
    }

    /** What `load_files` keeps of the previous load: the entries `_get_files`
        collects, their hashes and the set of their paths. */
    method Snapshot(f: Ref) returns (previous: seq<Ref>, hashes: set<Hash>, pathSet: set<string>)
      requires Valid() && f < |heap|
      ensures previous == Files(heap, f) && AllIn(heap, previous)
      ensures hashes == Hashes(heap, previous) && pathSet == PathSet(heap, previous)
    {
      previous := GetFiles(f, [], false);
      assert previous == Files(heap, f);
      hashes := GetHashes(f, false);
      var paths := GetPaths(f, false, false);
      pathSet := set i | 0 <= i < |paths| :: paths[i];
      PathListSet(heap, previous);
    }

    /** One pass of the loop of `load_files` on folder `f`, for the listed
        name `n`: a `File` when `base/n` is a regular file, otherwise a
        `Folder`, listed in `f`; a folder then loads its own contents. */
    method LoadEntry(f: Ref, base: string, n: string, ghost fsR: FileSystem, ghost hR: Heap, ghost top: Key,
                     ghost done: set<string>)
      requires Loading(fsR, hR, f, top, done)
      requires base != "" && Resolve(base) == top && n in ListDir(fsR, base) && n !in done
      modifies this
      ensures Loading(fsR, hR, f, top, done + {n}) && clock == old(clock)
      decreases |Under(fsR, top)|, 0
    {
      ListedShrinks(fsR, fs, top, base, n);
      ListedNamesOk(fsR, base, n);
      ResolveAppendName(base, n);
      ghost var fs1, h1 := fs, heap;
      assert top + [n] in fs1;
      if IsFile(fs, base + "/" + n) {
        var c := NewEntry(FileKind, n, Some(f));
        ghost var fs2, h2 := fs, heap;
        BuiltUnlisted(h1, h2, fs1, fs2, c, FileKind, n, Some(f), f);
        AddFile(f, c);
        StepBuilt(fsR, hR, f, top, done, n, fs1, h1, fs2, h2, heap, c, FileKind);
        StepFile(fsR, hR, f, top, done, n, fs, heap, c);
      } else {
        var c := NewEntry(FolderKind, n, Some(f));
        ghost var fs2, h2 := fs, heap;
        BuiltUnlisted(h1, h2, fs1, fs2, c, FolderKind, n, Some(f), f);
        AddFile(f, c);
        StepBuilt(fsR, hR, f, top, done, n, fs1, h1, fs2, h2, heap, c, FolderKind);
        ghost var h3 := heap;
        UnderSameKeys(fs, fs1, top + [n]);
        LoadTree(c);
        StepFolder(fsR, hR, f, top, done, n, fs2, h3, c, fs, heap);
      }
    }
  }
}
