/** The copy actions: `File.do_copy`, `Folder.do_copy` and
    `copy_over_oldest_file` (the newer of two entries wins). */
module Copying {
  import opened Wrappers
  import opened Disk
  import opened Entries
  import opened PathFacts
  import opened HeapFacts
  import opened Loading
  import opened Replica
  import opened Creating

  /** The two disks hold the same paths with the same kind, bytes and
      modification time; only tags may differ. */
  ghost predicate SameContent(fs0: FileSystem, fs1: FileSystem)
  {
    && fs1.Keys == fs0.Keys
    && forall k :: k in fs0 ==> fs1[k].kind == fs0[k].kind && fs1[k].hash == fs0[k].hash && fs1[k].mtime == fs0[k].mtime
  }

  /** A constructor's tag stamp touches tags only. */
  lemma StampedSameContent(fs0: FileSystem, fs1: FileSystem, p: string, t: Tag)
    requires Stamped(fs0, fs1, p, t)
    ensures SameContent(fs0, fs1)
  {
    if GetXattr(fs0, p).None? {
      assert fs1 == SetXattr(fs0, p, t);
    }
  }

  /** `shutil.copy2(src, dst)` put the bytes and the modification time that
      `src` had on disk `fs0` at the path it writes to, as a file, on disk `fs1`. */
  ghost predicate Landed(fs0: FileSystem, fs1: FileSystem, src: string, dst: string)
  {
    var s, t := Resolve(src), CopyTarget(fs0, src, dst);
    && s in fs0 && t in fs1
    && fs1[t].kind == FileKind && fs1[t].hash == fs0[s].hash && fs1[t].mtime == fs0[s].mtime
  }

  /** Every tag already on the disk stays as it is; new ones may appear. */
  ghost predicate TagsKept(fs0: FileSystem, fs1: FileSystem)
  {
    forall k :: k in fs0 && fs0[k].tag.Some? ==> k in fs1 && fs1[k].tag == fs0[k].tag
  }

  /** A constructor's tag stamp writes only where no tag was. */
  lemma StampedTagsKept(fs0: FileSystem, fs1: FileSystem, p: string, t: Tag)
    requires Stamped(fs0, fs1, p, t)
    ensures TagsKept(fs0, fs1)
  {
    if GetXattr(fs0, p).None? {
      assert fs1 == SetXattr(fs0, p, t);
    }
  }

  /** After `add_metadata(copy_path, self.metadata)` the path `dst` carries
      the tag entry `self` had on disk `fs0`, or a generated one when it had none. */
  ghost predicate CopyTagged(fs0: FileSystem, h0: Heap, fs1: FileSystem, self: Ref, dst: string)
    requires HeapOk(h0) && self < |h0|
  {
    var t := GetXattr(fs1, dst);
    && t.Some?
    && if Metadata(fs0, h0, self).Some? then t == Metadata(fs0, h0, self) else IsGeneratedTag(t.value)
  }

  lemma TaggedKept(fs0: FileSystem, h0: Heap, fs1: FileSystem, fs2: FileSystem, self: Ref, dst: string)
    requires HeapOk(h0) && self < |h0|
    requires CopyTagged(fs0, h0, fs1, self, dst) && TagsKept(fs1, fs2)
    ensures CopyTagged(fs0, h0, fs2, self, dst)
  {
    assert Resolve(dst) in fs1;
  }

  lemma LandedKept(fs0: FileSystem, fs1: FileSystem, fs2: FileSystem, src: string, dst: string)
    requires Landed(fs0, fs1, src, dst) && SameContent(fs1, fs2)
    ensures Landed(fs0, fs2, src, dst)
  {
  }

  /** `fldr.full_path`, a "/" unless it already ends in one, and `name`. */
  function Inside(dir: string, name: string): (p: string)
    ensures p == dir + "/" + name || (EndsWithSlash(dir) && p == dir + name)
  {
    dir + (if EndsWithSlash(dir) then "" else "/") + name
  }

  /** The path `File.do_copy` copies to: `fl`'s full path when `fl` is
      given, otherwise the entry's name inside `fldr`. */
  function CopyPath(h: Heap, self: Ref, fl: Option<Ref>, fldr: Ref): string
    requires HeapOk(h) && self < |h| && (fl.Some? ==> fl.value < |h|) && fldr < |h|
  {
    if fl.Some? then FullPath(h, fl.value) else Inside(FullPath(h, fldr), h[self].name)
  }

  /** After `do_copy`, folder `f`'s own list is as before, or it gained one
      new entry of the given kind and name at its end, built below `f`. */
  ghost predicate Listing(h0: Heap, h1: Heap, f: Ref, kind: Kind, name: string)
  {
    && f < |h0| <= |h1|
    && (|| h1[f].files == h0[f].files
        || (var c := |h1| - 1;
            && |h0| <= c && h1[f].files == h0[f].files + [c]
            && h1[c].kind == kind && h1[c].name == name && h1[c].parent == Some(f)))
  }

  lemma ListedOne(h0: Heap, h1: Heap, f: Ref, kind: Kind, name: string, c: Ref)
    requires f < |h0| <= c && |h1| == c + 1 && h1[f].files == h0[f].files + [c]
    requires h1[c].kind == kind && h1[c].name == name && h1[c].parent == Some(f)
    ensures Listing(h0, h1, f, kind, name)
  {
  }

  /** The `if file not in fldr.files` of `File.do_copy`: the list grew
      exactly when no entry of the folder's flattened list equals the probe
      built first (on the disk `fs` and heap `h` right after building it). */
  ghost predicate ProbeDecided(fs: FileSystem, h: Heap, h0: Heap, h1: Heap, f: Ref, probe: Ref)
  {
    && HeapOk(h) && probe < |h| && f < |h| && f < |h0| && f < |h1|
    && (h1[f].files == h0[f].files <==> In(fs, h, probe, Files(h, f)))
  }

  /** A constructor `File(name, f)` / `Folder(name, f)` whose object is not
      listed anywhere: the heap grows by it and the disk's content stays. */
  method Build(w: World, kind: Kind, name: string, f: Ref) returns (c: Ref)
    requires w.Valid() && f < |w.heap| && w.heap[f].kind == FolderKind && IsName(name)
    modifies w
    ensures w.Valid() && w.clock == old(w.clock) && Keeps(old(w.heap), w.heap)
    ensures SameContent(old(w.fs), w.fs) && TagsKept(old(w.fs), w.fs)
    ensures c == |old(w.heap)| && |w.heap| == c + 1 && w.heap[f] == old(w.heap)[f] && c !in w.heap[f].files
    ensures w.heap[c].kind == kind && w.heap[c].name == name && w.heap[c].parent == Some(f)
  {
    ghost var h0, fs0 := w.heap, w.fs;
    c := w.NewEntry(kind, name, Some(f));
    StampedSameContent(fs0, w.fs, FullPath(w.heap, c), w.heap[c].stored);
    StampedTagsKept(fs0, w.fs, FullPath(w.heap, c), w.heap[c].stored);
    BuiltKeeps(h0, w.heap, fs0, w.fs, c, kind, name, Some(f));
    BuiltUnlisted(h0, w.heap, fs0, w.fs, c, kind, name, Some(f), f);
  }

  /** `fldr.add_file(File(name, fldr))` / `fldr.add_file(Folder(name, fldr))`:
      a new entry built below `f` and listed at the end of its own list. */
  method BuildAndList(w: World, kind: Kind, name: string, f: Ref) returns (c: Ref)
    requires w.Valid() && f < |w.heap| && w.heap[f].kind == FolderKind && IsName(name)
    modifies w
    ensures w.Valid() && w.clock == old(w.clock) && Keeps(old(w.heap), w.heap)
    ensures SameContent(old(w.fs), w.fs) && TagsKept(old(w.fs), w.fs)
    ensures c == |old(w.heap)| && |w.heap| == c + 1 && w.heap[f].files == old(w.heap)[f].files + [c]
    ensures w.heap[c].kind == kind && w.heap[c].name == name && w.heap[c].parent == Some(f)
  {
    c := Build(w, kind, name, f);
    ghost var h1 := w.heap;
    w.AddFile(f, c);
    ListingKeeps(h1, f, h1[f].files + [c]);
    KeepsTrans(old(w.heap), h1, w.heap);
  }

  /** What `do_copy(fl, fldr)` of entry `self` left behind.  For a `File`:
      the bytes and modification time at the copy path, the entry's tag (or
      a generated one) there, and `fldr`'s list as before or grown by one
      `File` named after the copy.  For a `Folder`: a directory where
      `Folder.do_copy` makes it, and `fldr`'s list grown by one `Folder`
      with the entry's name. */
  ghost predicate CopyDone(fs0: FileSystem, h0: Heap, fs1: FileSystem, h1: Heap, self: Ref, fl: Option<Ref>, fldr: Ref)
    requires HeapOk(h0) && self < |h0| && (fl.Some? ==> fl.value < |h0|) && fldr < |h0|
  {
    if h0[self].kind == FileKind then
      var dst := CopyPath(h0, self, fl, fldr);
      && Landed(fs0, fs1, FullPath(h0, self), dst)
      && CopyTagged(fs0, h0, fs1, self, dst)
      && Listing(h0, h1, fldr, FileKind, if fl.Some? then h0[fl.value].name else h0[self].name)
    else
      && IsDir(fs1, Location(h0, self, fl, fldr))
      && Listing(h0, h1, fldr, FolderKind, h0[self].name)
      && h1[fldr].files != h0[fldr].files
  }

  /** "dir/name" (or "dir" + "name" when `dir` ends with "/") names the
      entry `name` inside `dir`. */
  lemma ResolveInside(dir: string, name: string)
    requires IsName(name)
    ensures Resolve(Inside(dir, name)) == Resolve(dir) + [name]
  {
    ResolveName(name);
    if EndsWithSlash(dir) {
      var d := dir[..|dir| - 1];
      assert dir == d + "/";
      assert Inside(dir, name) == d + "/" + name;
      ResolveAround(d, name);
      ResolveAround(d, "");
      assert d + "/" + "" == dir;
      ResolveEmpty();
    } else {
      ResolveAround(dir, name);
    }
  }

  /** The `File(file_name, fldr)` built by `File.do_copy` reads the disk
      entry at `Location`. */
  lemma ProbeAt(h0: Heap, h1: Heap, self: Ref, fl: Option<Ref>, f: Ref, probe: Ref)
    requires HeapOk(h0) && HeapOk(h1) && Keeps(h0, h1) && self < |h0| && (fl.Some? ==> fl.value < |h0|) && f < |h0|
    requires probe < |h1| && h1[probe].parent == Some(f)
    requires h1[probe].name == (if fl.Some? then h0[fl.value].name else h0[self].name) && IsName(h1[probe].name)
    ensures Resolve(FullPath(h1, probe)) == Resolve(Location(h0, self, fl, f))
  {
    ResolveFullPath(h1, probe);
    KeyKept(h0, h1, f);
    ResolveInside(FullPath(h0, f), h1[probe].name);
  }

  /** Whether `File.do_copy(fl, fldr)` gets as far as its copy: `fldr` is a
      folder, the copy's name is a single piece and `shutil.copy2` succeeds. */
  predicate CopyGoes(fs: FileSystem, h: Heap, self: Ref, fl: Option<Ref>, fldr: Option<Ref>)
    requires HeapOk(h) && self < |h| && (fl.Some? ==> fl.value < |h|) && (fldr.Some? ==> fldr.value < |h|)
  {
    && fldr.Some? && h[fldr.value].kind == FolderKind
    && IsName(if fl.Some? then h[fl.value].name else h[self].name)
    && CopyOk(fs, FullPath(h, self), CopyPath(h, self, fl, fldr.value))
  }

  /** `File.do_copy(fl, fldr)`: copy the file onto `fl` (when given) or into
      `fldr`, write the entry's tag (a new one when it has none) to the copy,
      then build a `File` for it below `fldr` and list it there unless an
      equal entry is already in `fldr.files`.  `false` is a raised exception:
      `fldr` missing or not a folder, the name not a single piece, or
      `shutil.copy2` failing, all before any change; or, after the copy and
      its tag, the `File` built below `fldr` finding no regular file to hash
      (a directory or nothing at `Location`). */
  method DoCopyFile(w: World, self: Ref, fl: Option<Ref>, fldr: Option<Ref>) returns (ok: bool, ghost fsMid: FileSystem, ghost hMid: Heap)
    requires w.Valid() && self < |w.heap| && w.heap[self].kind == FileKind
    requires (fl.Some? ==> fl.value < |w.heap|) && (fldr.Some? ==> fldr.value < |w.heap|)
    modifies w
    ensures w.Valid() && w.clock == old(w.clock) && Keeps(old(w.heap), w.heap)
    ensures ok <==> old(CopyGoes(w.fs, w.heap, self, fl, fldr)) && IsFile(w.fs, Location(old(w.heap), self, fl, fldr.value))
    ensures !old(CopyGoes(w.fs, w.heap, self, fl, fldr)) ==> w.fs == old(w.fs) && w.heap == old(w.heap)
    ensures !ok && old(CopyGoes(w.fs, w.heap, self, fl, fldr)) ==>
      && Landed(old(w.fs), w.fs, old(FullPath(w.heap, self)), old(CopyPath(w.heap, self, fl, fldr.value)))
      && CopyTagged(old(w.fs), old(w.heap), w.fs, self, old(CopyPath(w.heap, self, fl, fldr.value)))
      && w.heap[fldr.value].files == old(w.heap)[fldr.value].files
    ensures ok ==> fldr.Some? && CopyDone(old(w.fs), old(w.heap), w.fs, w.heap, self, fl, fldr.value)
    ensures ok ==> fldr.Some? && ProbeDecided(fsMid, hMid, old(w.heap), w.heap, fldr.value, |old(w.heap)|)
  {
    fsMid, hMid := w.fs, w.heap;
    if !CopyGoes(w.fs, w.heap, self, fl, fldr) {
      return false, fsMid, hMid;
    }
    var f := fldr.value;
    var name := if fl.Some? then w.heap[fl.value].name else w.heap[self].name;
    var src, dst := FullPath(w.heap, self), CopyPath(w.heap, self, fl, f);
    ghost var h0, fs0 := w.heap, w.fs;
    CopyAndTag(w, self, dst);
    ghost var fs2 := w.fs;
    var probe := Build(w, FileKind, name, f);
    fsMid, hMid := w.fs, w.heap;
    LandedKept(fs0, fs2, fsMid, src, dst);
    TaggedKept(fs0, h0, fs2, fsMid, self, dst);
    ProbeAt(h0, w.heap, self, fl, f, probe);
    if !IsFile(w.fs, FullPath(w.heap, probe)) {
      return false, fsMid, hMid;
    }
    assert hMid[f].files == h0[f].files;
    var xs := w.GetFiles(f, [], false);
    assert xs == Files(hMid, f);
    if !In(w.fs, w.heap, probe, xs) {
      var c := BuildAndList(w, FileKind, name, f);
      KeepsTrans(h0, hMid, w.heap);
      LandedKept(fs0, fsMid, w.fs, src, dst);
      TaggedKept(fs0, h0, fsMid, w.fs, self, dst);
      assert w.heap[f].files[|hMid[f].files|] == c;
      ListedOne(h0, w.heap, f, FileKind, name, c);
    } else {
      assert Listing(h0, w.heap, f, FileKind, name);
    }
    ok := true;
  }

  /** `shutil.copy2(self.full_path, dst)` followed by `add_metadata(dst,
      self.metadata)`: the copy gets the entry's bytes and modification time,
      then `dst` gets the entry's tag (a generated one when it has none).
      The copy never lands on the entry's own path, so the tag read after
      copying is the one it had before. */
  method CopyAndTag(w: World, self: Ref, dst: string)
    requires w.Valid() && self < |w.heap| && CopyOk(w.fs, FullPath(w.heap, self), dst)
    modifies w
    ensures w.Valid() && w.clock == old(w.clock) && w.heap == old(w.heap)
    ensures Landed(old(w.fs), w.fs, old(FullPath(w.heap, self)), dst)
    ensures CopyTagged(old(w.fs), old(w.heap), w.fs, self, dst)
  {
    ghost var fs0 := w.fs;
    var src := FullPath(w.heap, self);
    Copy2KeepsDiskOk(w.fs, src, dst);
    w.fs := Copy2(w.fs, src, dst);
    ghost var fs1 := w.fs;
    assert Landed(fs0, fs1, src, dst);
    assert Metadata(fs1, w.heap, self) == Metadata(fs0, w.heap, self);
    assert Resolve(dst) in fs1;
    var tag := w.AddMetadata(PathTarget(dst), Metadata(w.fs, w.heap, self));
    assert SameContent(fs1, w.fs);
    LandedKept(fs0, fs1, w.fs, src, dst);
    assert GetXattr(w.fs, dst) == Some(tag);
  }

  /** `fl`'s name (when given) or the entry's own name, inside `fldr`:
      where `Folder.do_copy` makes the directory, and the path whose bytes
      the `File(file_name, fldr)` built by `File.do_copy` hashes. */
  function Location(h: Heap, self: Ref, fl: Option<Ref>, fldr: Ref): string
    requires HeapOk(h) && self < |h| && (fl.Some? ==> fl.value < |h|) && fldr < |h|
  {
    Inside(FullPath(h, fldr), if fl.Some? then h[fl.value].name else h[self].name)
  }

  /** `Folder.do_copy(fl, fldr)`: make the directory unless one is there,
      then build a `Folder` with the entry's own name below `fldr` and list
      it there.  `false` is a raised exception: `fldr` missing, `os.mkdir`
      failing, or `fldr` not a folder or the name not a single piece (after
      the directory was made). */
  method DoCopyFolder(w: World, self: Ref, fl: Option<Ref>, fldr: Option<Ref>) returns (ok: bool)
    requires w.Valid() && self < |w.heap| && w.heap[self].kind == FolderKind
    requires (fl.Some? ==> fl.value < |w.heap|) && (fldr.Some? ==> fldr.value < |w.heap|)
    modifies w
    ensures w.Valid() && w.clock == old(w.clock) && Keeps(old(w.heap), w.heap)
    ensures !ok ==> w.heap == old(w.heap)
    ensures ok ==> fldr.Some? && CopyDone(old(w.fs), old(w.heap), w.fs, w.heap, self, fl, fldr.value)
  {
    if fldr.None? {
      return false;
    }
    var f := fldr.value;
    var location := Location(w.heap, self, fl, f);
    ok := EnsureDir(w, location);
    if !ok {
      return;
    }
    var name := w.heap[self].name;
    if w.heap[f].kind != FolderKind || !IsName(name) {
      return false;
    }
    ghost var h0 := w.heap;
    var c := BuildAndList(w, FolderKind, name, f);
    ListedOne(h0, w.heap, f, FolderKind, name, c);
    assert w.heap[f].files[|h0[f].files|] == c;
  }

  /** `if not os.path.isdir(location): os.mkdir(location)`: afterwards the
      location is a directory, unless `mkdir` would raise (`false`), in which
      case the disk is unchanged.  Objects and clock never change. */
  method EnsureDir(w: World, location: string) returns (ok: bool)
    requires w.Valid()
    modifies w
    ensures w.Valid() && w.clock == old(w.clock) && w.heap == old(w.heap)
    ensures ok <==> IsDir(old(w.fs), location) || MkdirOk(old(w.fs), location)
    ensures ok ==> IsDir(w.fs, location)
    ensures !ok ==> w.fs == old(w.fs)
  {
    if IsDir(w.fs, location) {
      return true;
    }
    if !MkdirOk(w.fs, location) {
      return false;
    }
    MkdirKeepsDiskOk(w.fs, location, w.clock);
    w.fs := Mkdir(w.fs, location, w.clock);
    ok := true;
  }

  /** What `copy_over_oldest_file(fl, fldr)` of entry `self` did, when it
      did not raise: nothing when the entry no longer exists; when `fl` is
      given and strictly newer, `fl`'s own `do_copy` onto the entry, into
      the entry's parent folder (nothing when `fl` no longer exists);
      otherwise, with the two comparable when `fl` is given, the entry's
      `do_copy(fl, fldr)`. */
  ghost predicate OverOldest(fs0: FileSystem, h0: Heap, fs1: FileSystem, h1: Heap, self: Ref, fl: Option<Ref>, fldr: Option<Ref>)
    requires HeapOk(h0) && self < |h0| && (fl.Some? ==> fl.value < |h0|) && (fldr.Some? ==> fldr.value < |h0|)
  {
    if !Exists(fs0, h0, self) then
      fs1 == fs0 && h1 == h0
    else if fl.Some? && Newer(fs0, h0, fl.value, self) then
      if Exists(fs0, h0, fl.value) then
        h0[self].parent.Some? && CopyDone(fs0, h0, fs1, h1, fl.value, Some(self), Parent(h0, self))
      else
        fs1 == fs0 && h1 == h0
    else
      && (fl.Some? ==> Comparable(fs0, h0, fl.value, self))
      && fldr.Some? && CopyDone(fs0, h0, fs1, h1, self, fl, fldr.value)
  }

  /** `copy_over_oldest_file(fl, fldr)`.  `false` is a raised exception,
      among them `fl > self` when either modification time cannot be read;
      that one comes before any change. */
  method CopyOverOldestFile(w: World, self: Ref, fl: Option<Ref>, fldr: Option<Ref>) returns (ok: bool)
    requires w.Valid() && self < |w.heap|
    requires (fl.Some? ==> fl.value < |w.heap|) && (fldr.Some? ==> fldr.value < |w.heap|)
    modifies w
    ensures w.Valid() && w.clock == old(w.clock) && Keeps(old(w.heap), w.heap)
    ensures !old(Exists(w.fs, w.heap, self)) ==> ok
    ensures old(Exists(w.fs, w.heap, self)) && fl.Some? && !old(Comparable(w.fs, w.heap, fl.value, self)) ==>
      !ok && w.fs == old(w.fs) && w.heap == old(w.heap)
    ensures ok ==> OverOldest(old(w.fs), old(w.heap), w.fs, w.heap, self, fl, fldr)
    decreases if fl.Some? && Newer(w.fs, w.heap, fl.value, self) then 1 else 0
  {
    if !Exists(w.fs, w.heap, self) {
      return true;
    }
    if fl.Some? && !Comparable(w.fs, w.heap, fl.value, self) {
      return false;
    }
    if fl.Some? && Newer(w.fs, w.heap, fl.value, self) {
      var p := w.heap[self].parent;
      if p.Some? {
        ParentOf(w.heap, self);
      }
      ok := CopyOverOldestFile(w, fl.value, Some(self), p);
    } else if w.heap[self].kind == FileKind {
      ghost var fsMid, hMid;
      ok, fsMid, hMid := DoCopyFile(w, self, fl, fldr);
    } else {
      ok := DoCopyFolder(w, self, fl, fldr);
    }
  }
}
