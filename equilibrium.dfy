/** `Syncer.init_equilibrium`: every source entry that no destination entry
    equals is placed against the destination folder that should hold it, and
    one of four actions brings the two sides together. */
module Equilibrium {
  import opened Wrappers
  import opened Disk
  import opened Entries
  import opened TreeFacts
  import opened Loading
  import opened Replica
  import opened Searches
  import opened FolderOps
  import opened Creating
  import opened Copying
  import opened Choice

  /** Every object of `h0` keeps its kind and its parent in `h1`; objects may be added. */
  ghost predicate Shaped(h0: Heap, h1: Heap)
  {
    && |h0| <= |h1|
    && forall q :: 0 <= q < |h0| ==> h1[q].kind == h0[q].kind && h1[q].parent == h0[q].parent
  }

  lemma ShapedRoot(h0: Heap, h1: Heap, d: Ref)
    requires Shaped(h0, h1) && IsRoot(h0, d)
    ensures IsRoot(h1, d)
  {
  }

  lemma ShapedTrans(h0: Heap, h1: Heap, h2: Heap)
    requires Shaped(h0, h1) && Shaped(h1, h2)
    ensures Shaped(h0, h2)
  {
  }

  /** A rename changes only a name and a hash. */
  lemma RenameShaped(h0: Heap, h1: Heap, r: Ref, fl: Ref)
    requires r < |h0| && fl < |h0|
    requires h1 == h0 || h1 == h0[r := h0[r].(name := h0[fl].name, hash := h0[fl].hash)]
    ensures Shaped(h0, h1)
  {
  }

  /** Storing a tag changes only the stored tag. */
  lemma TagShaped(h0: Heap, h1: Heap, r: Ref, tag: Tag)
    requires r < |h0| && h1 == h0[r := h0[r].(stored := tag)]
    ensures Shaped(h0, h1)
  {
  }

  // ------------------------------------------------- the entries acted on

  /** `dest_folder.get_file(source_no_root=fl.source_no_root, hash_val=fl.hash)`. */
  function AdoptTarget(h: Heap, fl: Ref, d: Ref): Option<Ref>
    requires HeapOk(h) && fl < |h| && d < |h|
  {
    var xs := Files(h, d);
    Found(xs, FirstFitting(h, xs, None, Some(SourceNoRoot(h, fl)), h[fl].hash))
  }

  /** `dest_folder.get_file(hash_val=fl.hash)`. */
  function RenameTarget(h: Heap, fl: Ref, d: Ref): Option<Ref>
    requires HeapOk(h) && fl < |h| && d < |h|
  {
    var xs := Files(h, d);
    Found(xs, FirstFitting(h, xs, None, None, h[fl].hash))
  }

  /** `dest_folder.get_file(path=fl.path)`. */
  function OverwriteTarget(h: Heap, fl: Ref, d: Ref): Option<Ref>
    requires HeapOk(h) && fl < |h| && d < |h|
  {
    var xs := Files(h, d);
    Found(xs, FirstFitting(h, xs, Some(Path(h, fl)), None, None))
  }

  // ------------------------------------------------- what each branch does

  /** The destination file with `fl`'s place and hash takes `fl`'s tag, or a
      generated one when `fl` has none, on disk and as its stored tag. */
  ghost predicate Adopted(fs0: FileSystem, h0: Heap, fs1: FileSystem, h1: Heap, fl: Ref, d: Ref)
    requires HeapOk(h0) && fl < |h0| && d < |h0|
  {
    var t := AdoptTarget(h0, fl, d);
    && t.Some? && t.value < |h0| && |h1| == |h0|
    && var tag := h1[t.value].stored;
       && (if Metadata(fs0, h0, fl).Some? then tag == Metadata(fs0, h0, fl).value else IsGeneratedTag(tag))
       && fs1 == SetXattr(fs0, FullPath(h0, t.value), tag)
       && h1 == h0[t.value := h0[t.value].(stored := tag)]
  }

  /** Whether the second branch runs without raising: a destination file
      has `fl`'s hash, both modification times can be read, and the older
      of the two, when it still exists, can be renamed. */
  predicate RenameRuns(fs: FileSystem, h: Heap, fl: Ref, d: Ref)
    requires HeapOk(h) && fl < |h| && d < |h|
  {
    var t := RenameTarget(h, fl, d);
    && t.Some? && t.value < |h| && Comparable(fs, h, fl, t.value)
    && var newer := Newer(fs, h, fl, t.value);
       var older, winner := (if newer then t.value else fl), (if newer then fl else t.value);
       !Exists(fs, h, older) || RenameGoes(fs, h, older, winner)
  }

  /** Of `fl` and the destination file with its hash, the one not strictly
      newer (`fl` on a tie) is renamed in its own directory to the other's
      name and takes the other's hash; one gone from the disk is left as it is. */
  ghost predicate Renamed(fs0: FileSystem, h0: Heap, fs1: FileSystem, h1: Heap, fl: Ref, d: Ref)
    requires HeapOk(h0) && fl < |h0| && d < |h0|
  {
    var t := RenameTarget(h0, fl, d);
    && t.Some? && t.value < |h0| && Comparable(fs0, h0, fl, t.value)
    && var newer := Newer(fs0, h0, fl, t.value);
       var older, winner := (if newer then t.value else fl), (if newer then fl else t.value);
       if RenameGoes(fs0, h0, older, winner) then
         && fs1 == Rename(fs0, FullPath(h0, older), RenameDest(h0, older, winner))
         && h1 == h0[older := h0[older].(name := h0[winner].name, hash := h0[winner].hash)]
       else
         fs1 == fs0 && h1 == h0
  }

  /** A `File` goes through `copy_over_oldest_file` against the destination
      file at its path: it is copied over that file when not older, that file
      over it when strictly newer, and into the folder when there is none.
      A folder changes nothing. */
  ghost predicate Overwritten(fs0: FileSystem, h0: Heap, fs1: FileSystem, h1: Heap, fl: Ref, d: Ref)
    requires HeapOk(h0) && fl < |h0| && d < |h0|
  {
    && Keeps(h0, h1)
    && (h0[fl].kind == FolderKind ==> fs1 == fs0 && h1 == h0)
    && (h0[fl].kind == FileKind ==>
          var t := OverwriteTarget(h0, fl, d);
          && (t.Some? ==> t.value < |h0|)
          && OverOldest(fs0, h0, fs1, h1, fl, t, Some(d)))
  }

  /** The entry goes through `copy_over_oldest_file` into the folder: when it
      still exists, a `File`'s bytes and tag land there under its name and a
      `Folder`'s directory is made there, and the folder lists the copy. */
  ghost predicate Copied(fs0: FileSystem, h0: Heap, fs1: FileSystem, h1: Heap, fl: Ref, d: Ref)
    requires HeapOk(h0) && fl < |h0| && d < |h0|
  {
    && Keeps(h0, h1)
    && OverOldest(fs0, h0, fs1, h1, fl, None, Some(d))
  }

  /** The effect of branch `b` for entry `fl` and destination folder `d`. */
  ghost predicate Effect(b: Branch, fs0: FileSystem, h0: Heap, fs1: FileSystem, h1: Heap, fl: Ref, d: Ref)
    requires HeapOk(h0) && fl < |h0| && d < |h0|
  {
    match b
    case AdoptTag => Adopted(fs0, h0, fs1, h1, fl, d)
    case RenameOlder => Renamed(fs0, h0, fs1, h1, fl, d)
    case Overwrite => Overwritten(fs0, h0, fs1, h1, fl, d)
    case CopyNew => Copied(fs0, h0, fs1, h1, fl, d)
    case Pass => fs1 == fs0 && h1 == h0
  }

  // -------------------------------------------------------- the branches

  /** The first branch: `File.add_metadata(dest_fl, fl.metadata)`.  With no
      destination file to give the tag to, Python raises: `false`. */
  method AdoptStep(w: World, fl: Ref, d: Ref) returns (ok: bool)
    requires w.Valid() && fl < |w.heap| && d < |w.heap|
    modifies w
    ensures w.Valid() && w.clock == old(w.clock) && Shaped(old(w.heap), w.heap)
    ensures ok <==> AdoptTarget(old(w.heap), fl, d).Some?
    ensures ok ==> Adopted(old(w.fs), old(w.heap), w.fs, w.heap, fl, d)
  {
    var t := GetFile(w, d, None, Some(SourceNoRoot(w.heap, fl)), w.heap[fl].hash);
    if t.None? {
      return false;
    }
    ghost var h0 := w.heap;
    var tag := w.AddMetadata(EntryTarget(t.value), Metadata(w.fs, w.heap, fl));
    TagShaped(h0, w.heap, t.value, tag);
    ok := true;
  }

  /** The second branch: the older file is renamed after the newer one.
      `false` where Python raises: no destination file of that hash
      (comparing with `None`), a modification time `stat` cannot read, or
      `os.rename` refusing. */
  method RenameStep(w: World, fl: Ref, d: Ref) returns (ok: bool)
    requires w.Valid() && fl < |w.heap| && d < |w.heap| && w.heap[fl].parent.Some?
    modifies w
    ensures w.Valid() && w.clock == old(w.clock) && Shaped(old(w.heap), w.heap)
    ensures ok <==> old(RenameRuns(w.fs, w.heap, fl, d))
    ensures ok ==> Renamed(old(w.fs), old(w.heap), w.fs, w.heap, fl, d)
  {
    var t := GetFile(w, d, None, None, w.heap[fl].hash);
    if t.None? {
      return false;
    }
    var x := t.value;
    FilesBelow(w.heap, d);
    assert Below(w.heap, d, x);
    assert NamedOk(w.heap, fl) && NamedOk(w.heap, x);
    if !Comparable(w.fs, w.heap, fl, x) {
      return false;
    }
    ghost var h0 := w.heap;
    if Newer(w.fs, w.heap, fl, x) {
      ok := w.RenameSelfAsInput(x, fl);
      RenameShaped(h0, w.heap, x, fl);
    } else {
      ok := w.RenameSelfAsInput(fl, x);
      RenameShaped(h0, w.heap, fl, x);
    }
  }

  /** The third branch: for a `File`, `fl.copy_over_oldest_file(fl=dest_fl,
      fldr=dest_folder)` with the destination file at its path. */
  method OverwriteStep(w: World, fl: Ref, d: Ref) returns (ok: bool)
    requires w.Valid() && fl < |w.heap| && d < |w.heap|
    modifies w
    ensures w.Valid() && w.clock == old(w.clock) && Shaped(old(w.heap), w.heap)
    ensures ok ==> Overwritten(old(w.fs), old(w.heap), w.fs, w.heap, fl, d)
  {
    if w.heap[fl].kind == FileKind {
      var t := GetFile(w, d, Some(Path(w.heap, fl)), None, None);
      ok := CopyOverOldestFile(w, fl, t, Some(d));
    } else {
      ok := true;
    }
  }

  /** The fourth branch: `fl.copy_over_oldest_file(fldr=dest_folder)`. */
  method CopyStep(w: World, fl: Ref, d: Ref) returns (ok: bool)
    requires w.Valid() && fl < |w.heap| && d < |w.heap|
    modifies w
    ensures w.Valid() && w.clock == old(w.clock) && Shaped(old(w.heap), w.heap)
    ensures ok ==> Copied(old(w.fs), old(w.heap), w.fs, w.heap, fl, d)
  {
    ok := CopyOverOldestFile(w, fl, None, Some(d));
  }

  /** The four membership tests, with `core_paths` and `core_hashes` built by
      their loops. */
  method Look(w: World, fl: Ref, d: Ref) returns (s: Seen)
    requires w.Valid() && fl < |w.heap| && d < |w.heap|
    ensures s == Survey(w.fs, w.heap, fl, d)
  {
    var paths := w.GetPaths(d, false, true);
    var hashes := w.GetHashes(d, true);
    var cs := CoreFiles(w.heap, d);
    assert Path(w.heap, fl) in paths <==> Path(w.heap, fl) in PathSet(w.heap, cs) by {
      PathListSet(w.heap, cs);
    }
    s := Seen(Path(w.heap, fl) in paths,
              w.heap[fl].hash.Some? && w.heap[fl].hash.value in hashes,
              Metadata(w.fs, w.heap, fl) in MetadataList(w.fs, w.heap, cs),
              w.heap[fl].name in NameList(w.heap, cs));
  }

  // ------------------------------------------------------ one entry, all

  /** The state of the program between two entries. */
  datatype State = State(fs: FileSystem, heap: Heap)

  /** What was seen of an entry that no destination entry equals: its
      destination folder, the state once that folder was found or made, and
      the branch taken. */
  datatype Visit = Visit(folder: Ref, fsMid: FileSystem, hMid: Heap, branch: Branch)

  /** `get_folder_that_contains(fl)` on root `dst` took state `s0` to
      `fsMid` and `hMid` and answered `folder`. */
  ghost predicate FolderFound(s0: State, fsMid: FileSystem, hMid: Heap, dst: Ref, fl: Ref, folder: Ref)
  {
    && HeapOk(s0.heap) && IsRoot(s0.heap, dst) && fl < |s0.heap|
    && HeapOk(hMid) && Keeps(s0.heap, hMid) && folder < |hMid|
    && Answered(s0.fs, s0.heap, fsMid, hMid, dst, fl, Some(folder))
    && (SlashCreates(s0.fs, s0.heap, dst, fl) ==> Path(hMid, folder) == SourceNoRoot(s0.heap, fl))
  }

  /** Entry `fl` was handled as `init_equilibrium` handles it. */
  ghost predicate Visited(s0: State, s1: State, v: Visit, dst: Ref, fl: Ref)
  {
    && FolderFound(s0, v.fsMid, v.hMid, dst, fl, v.folder)
    && v.hMid[v.folder].kind == FolderKind
    && v.branch == Pick(Survey(v.fsMid, v.hMid, fl, v.folder))
    && Effect(v.branch, v.fsMid, v.hMid, s1.fs, s1.heap, fl, v.folder)
  }

  /** One pass of the loop of `init_equilibrium`: an entry equal to some
      destination entry is skipped; any other is visited. */
  ghost predicate Taken(s0: State, s1: State, v: Option<Visit>, dst: Ref, fl: Ref, destFiles: seq<Ref>)
  {
    && HeapOk(s0.heap) && fl < |s0.heap| && AllIn(s0.heap, destFiles)
    && if In(s0.fs, s0.heap, fl, destFiles) then v.None? && s1 == s0
       else v.Some? && Visited(s0, s1, v.value, dst, fl)
  }

  /** The body of the loop of `init_equilibrium` for entry `fl`.  `false`
      when Python would raise: no folder could be found or made for the
      entry, or a branch raised. */
  method VisitEntry(w: World, dst: Ref, fl: Ref, destFiles: seq<Ref>) returns (ok: bool, ghost v: Option<Visit>)
    requires w.Valid() && IsRoot(w.heap, dst) && fl < |w.heap| && w.heap[fl].parent.Some?
    requires AllIn(w.heap, destFiles)
    modifies w
    ensures w.Valid() && w.clock == old(w.clock) && Shaped(old(w.heap), w.heap)
    ensures ok ==> Taken(State(old(w.fs), old(w.heap)), State(w.fs, w.heap), v, dst, fl, destFiles)
  {
    if In(w.fs, w.heap, fl, destFiles) {
      return true, None;
    }
    var d := GetFolderThatContainsFixed(w, dst, fl);
    if d.None? || w.heap[d.value].kind != FolderKind {
      return false, None;
    }
    var folder := d.value;
    ghost var fsMid, hMid := w.fs, w.heap;
    var s := Look(w, fl, folder);
    var b := Pick(s);
    v := Some(Visit(folder, fsMid, hMid, b));
    match b
    case AdoptTag => ok := AdoptStep(w, fl, folder);
    case RenameOlder => ok := RenameStep(w, fl, folder);
    case Overwrite => ok := OverwriteStep(w, fl, folder);
    case CopyNew => ok := CopyStep(w, fl, folder);
    case Pass => ok := true;
  }

  /** Every entry of `xs` has a parent. */
  ghost predicate Parented(h: Heap, xs: seq<Ref>)
  {
    forall i :: 0 <= i < |xs| ==> xs[i] < |h| && h[xs[i]].parent.Some?
  }

  /** `init_equilibrium()` with `src` as the source and `dst` as the
      destination: the entries of the source, folders first, each taken in
      turn against the destination's `files` as they were at the start.
      `states` and `visits` record each pass; `false` when Python would raise,
      after the passes recorded, with the state the raising pass left
      undescribed. */
  method InitEquilibrium(w: World, src: Ref, dst: Ref)
    returns (ok: bool, ghost states: seq<State>, ghost visits: seq<Option<Visit>>)
    requires w.Valid() && IsRoot(w.heap, src) && IsRoot(w.heap, dst)
    modifies w
    ensures w.Valid() && w.clock == old(w.clock) && Shaped(old(w.heap), w.heap)
    ensures var order := FoldersFirst(old(w.heap), Files(old(w.heap), src));
      && Trace(states, visits, dst, order, Files(old(w.heap), dst)) && (ok ==> |visits| == |order|)
      && states[0] == State(old(w.fs), old(w.heap)) && (ok ==> states[|visits|] == State(w.fs, w.heap))
    ensures ok ==> Balanced(State(old(w.fs), old(w.heap)), State(w.fs, w.heap), src, dst, states, visits)
  {
    var destFiles := w.GetFiles(dst, [], false);
    var all := w.GetFiles(src, [], false);
    ghost var h0 := w.heap;
    assert destFiles == Files(h0, dst) && all == Files(h0, src);
    var order := FoldersFirst(w.heap, all);
    ParentedOrder(w.heap, src);
    states, visits := [State(w.fs, w.heap)], [];
    var i := 0;
    while i < |order|
      invariant 0 <= i <= |order| && w.Valid() && w.clock == old(w.clock)
      invariant Shaped(h0, w.heap) && IsRoot(w.heap, dst) && Parented(h0, order)
      invariant |states| == i + 1 && |visits| == i
      invariant states[0] == State(old(w.fs), h0) && states[i] == State(w.fs, w.heap)
      invariant Trace(states, visits, dst, order, destFiles)
    {
      ghost var h1 := w.heap;
      var done;
      ghost var states', visits';
      done, states', visits' := VisitNext(w, dst, order, destFiles, i, states, visits);
      if !done {
        return false, states, visits;
      }
      ShapedTrans(h0, h1, w.heap);
      states, visits := states', visits';
      i := i + 1;
    }
    ok := true;
  }

  /** One pass of the loop of `init_equilibrium`: the entry at position `i`
      is visited, and the pass is recorded after those before it. */
  method VisitNext(w: World, dst: Ref, order: seq<Ref>, destFiles: seq<Ref>, i: nat,
                   ghost states: seq<State>, ghost visits: seq<Option<Visit>>)
    returns (ok: bool, ghost states': seq<State>, ghost visits': seq<Option<Visit>>)
    requires w.Valid() && IsRoot(w.heap, dst) && AllIn(w.heap, destFiles)
    requires i < |order| && order[i] < |w.heap| && w.heap[order[i]].parent.Some?
    requires Trace(states, visits, dst, order, destFiles) && |visits| == i && states[i] == State(w.fs, w.heap)
    modifies w
    ensures w.Valid() && w.clock == old(w.clock) && Shaped(old(w.heap), w.heap)
    ensures ok ==>
      && states' == states + [State(w.fs, w.heap)] && |visits'| == i + 1
      && Trace(states', visits', dst, order, destFiles)
  {
    ghost var v;
    ok, v := VisitEntry(w, dst, order[i], destFiles);
    states', visits' := states, visits;
    if ok {
      TraceExtend(states, visits, dst, order, destFiles, State(w.fs, w.heap), v);
      states', visits' := states + [State(w.fs, w.heap)], visits + [v];
    }
  }

  /** Each recorded pass took the entry of `order` at its position, from the
      state before it to the state after it. */
  ghost predicate Trace(states: seq<State>, visits: seq<Option<Visit>>, dst: Ref, order: seq<Ref>, destFiles: seq<Ref>)
    decreases |visits|
  {
    && |states| == |visits| + 1 && |visits| <= |order|
    && (|visits| > 0 ==>
          var n := |visits| - 1;
          && Trace(states[..n + 1], visits[..n], dst, order, destFiles)
          && Taken(states[n], states[n + 1], visits[n], dst, order[n], destFiles))
  }

  lemma TraceExtend(states: seq<State>, visits: seq<Option<Visit>>, dst: Ref, order: seq<Ref>, destFiles: seq<Ref>,
                    s: State, v: Option<Visit>)
    requires Trace(states, visits, dst, order, destFiles) && |visits| < |order|
    requires Taken(states[|visits|], s, v, dst, order[|visits|], destFiles)
    ensures Trace(states + [s], visits + [v], dst, order, destFiles)
  {
    var n := |visits|;
    assert (states + [s])[..n + 1] == states && (visits + [v])[..n] == visits;
    assert (states + [s])[n] == states[n] && (states + [s])[n + 1] == s && (visits + [v])[n] == v;
  }

  /** A whole run of `init_equilibrium` from `s0` to `s1`: one recorded pass
      per source entry, folders first. */
  ghost predicate Balanced(s0: State, s1: State, src: Ref, dst: Ref, states: seq<State>, visits: seq<Option<Visit>>)
  {
    && HeapOk(s0.heap) && IsRoot(s0.heap, src) && IsRoot(s0.heap, dst)
    && var order := FoldersFirst(s0.heap, Files(s0.heap, src));
       && Trace(states, visits, dst, order, Files(s0.heap, dst)) && |visits| == |order|
       && states[0] == s0 && states[|visits|] == s1
  }

  /** The source entries, in any order, all have parents. */
  lemma ParentedOrder(h: Heap, src: Ref)
    requires HeapOk(h) && IsRoot(h, src)
    ensures Parented(h, FoldersFirst(h, Files(h, src)))
  {
    var xs := Files(h, src);
    FilesBelow(h, src);
    FoldersFirstPermutes(h, xs);
    var r := FoldersFirst(h, xs);
    forall i | 0 <= i < |r| ensures r[i] < |h| && h[r[i]].parent.Some? {
      assert r[i] in multiset(xs);
      var k :| 0 <= k < |xs| && xs[k] == r[i];
      assert Below(h, src, xs[k]);
    }
  }
}
