/** `Syncer`: two root folders, a `first_run` flag, and the passes that copy
    what is new on one side to the other, swapping the two roots after each. */
module Syncing {
  import opened Wrappers
  import opened Disk
  import opened Entries
  import opened Loading
  import opened Replica
  import opened Changes
  import opened FolderOps
  import opened Creating
  import opened Copying
  import opened Equilibrium

  // ------------------------------------------------------ `_add_new_files`

  /** Where one new entry went: the answer of `get_folder_that_contains`, and
      the state once it was found or made. */
  datatype Placed = Placed(folder: Option<Ref>, fsMid: FileSystem, hMid: Heap)

  /** New entry `fl` was copied as `_add_new_files` copies it into root `d`:
      the folder found for it, then `copy_over_oldest_file(fldr=folder)`. */
  ghost predicate AddedOne(s0: State, s1: State, p: Placed, d: Ref, fl: Ref)
  {
    && HeapOk(s0.heap) && IsRoot(s0.heap, d) && fl < |s0.heap|
    && HeapOk(p.hMid) && Keeps(s0.heap, p.hMid) && Keeps(p.hMid, s1.heap)
    && p.folder.Some?
    && FolderFound(s0, p.fsMid, p.hMid, d, fl, p.folder.value)
    && Copied(p.fsMid, p.hMid, s1.fs, s1.heap, fl, p.folder.value)
  }

  /** The first `|placed|` entries of `xs` were each added in turn. */
  ghost predicate AddTrace(states: seq<State>, placed: seq<Placed>, d: Ref, xs: seq<Ref>)
    decreases |placed|
  {
    && |states| == |placed| + 1 && |placed| <= |xs|
    && (|placed| > 0 ==>
          var n := |placed| - 1;
          && AddTrace(states[..n + 1], placed[..n], d, xs)
          && AddedOne(states[n], states[n + 1], placed[n], d, xs[n]))
  }

  lemma AddTraceExtend(states: seq<State>, placed: seq<Placed>, d: Ref, xs: seq<Ref>, s: State, p: Placed)
    requires AddTrace(states, placed, d, xs) && |placed| < |xs|
    requires AddedOne(states[|placed|], s, p, d, xs[|placed|])
    ensures AddTrace(states + [s], placed + [p], d, xs)
  {
    var n := |placed|;
    assert (states + [s])[..n + 1] == states && (placed + [p])[..n] == placed;
    assert (states + [s])[n] == states[n] && (states + [s])[n + 1] == s && (placed + [p])[n] == p;
  }

  /** One pass of the loop of `_add_new_files`.  `false` is a raised
      exception: no folder could be found or made for the entry (whether or
      not the entry is still on the disk), or copying raised. */
  method AddOne(w: World, d: Ref, fl: Ref) returns (ok: bool, ghost p: Placed)
    requires w.Valid() && IsRoot(w.heap, d) && fl < |w.heap|
    modifies w
    ensures w.Valid() && w.clock == old(w.clock) && Keeps(old(w.heap), w.heap)
    ensures ok ==> AddedOne(State(old(w.fs), old(w.heap)), State(w.fs, w.heap), p, d, fl)
  {
    ghost var h0 := w.heap;
    var folder := GetFolderThatContainsFixed(w, d, fl);
    p := Placed(folder, w.fs, w.heap);
    if folder.None? {
      return false, p;
    }
    ok := CopyOverOldestFile(w, fl, None, folder);
    KeepsTrans(h0, p.hMid, w.heap);
  }

  /** `_add_new_files(new)` on root `d`: each new entry, in order, is copied
      (newer wins) into the folder `get_folder_that_contains` finds or makes
      for it.  `false` when Python would raise, after the passes recorded. */
  method AddNewFiles(w: World, d: Ref, xs: seq<Ref>)
    returns (ok: bool, ghost states: seq<State>, ghost placed: seq<Placed>)
    requires w.Valid() && IsRoot(w.heap, d) && AllIn(w.heap, xs)
    modifies w
    ensures w.Valid() && w.clock == old(w.clock) && Keeps(old(w.heap), w.heap)
    ensures AddTrace(states, placed, d, xs) && states[0] == State(old(w.fs), old(w.heap))
    ensures ok ==> |placed| == |xs| && states[|placed|] == State(w.fs, w.heap)
  {
    states, placed := [State(w.fs, w.heap)], [];
    var i := 0;
    while i < |xs|
      invariant 0 <= i <= |xs| && |states| == i + 1 && |placed| == i
      invariant w.Valid() && w.clock == old(w.clock) && Keeps(old(w.heap), w.heap)
      invariant IsRoot(w.heap, d) && AllIn(w.heap, xs)
      invariant AddTrace(states, placed, d, xs)
      invariant states[0] == State(old(w.fs), old(w.heap)) && states[i] == State(w.fs, w.heap)
    {
      ghost var h0 := w.heap;
      var done;
      ghost var p;
      done, p := AddOne(w, d, xs[i]);
      KeepsTrans(old(w.heap), h0, w.heap);
      if !done {
        return false, states, placed;
      }
      AddTraceExtend(states, placed, d, xs, State(w.fs, w.heap), p);
      states, placed := states + [State(w.fs, w.heap)], placed + [p];
      i := i + 1;
    }
    ok := true;
  }

  // ------------------------------------------------------------- the loop

  /** The test of a pass of `sync`: the source's `files` differ from its
      `old_files` (always, while `old_files` is still `None`) and from the
      destination's `files`. */
  predicate Differs(fs: FileSystem, h: Heap, s: Ref, d: Ref)
    requires HeapOk(h) && s < |h| && d < |h|
  {
    && (h[s].oldFiles.None? || HasChanges(fs, h, s))
    && !ListEq(fs, h, Files(h, s), Files(h, d))
  }

  /** The test as a pass of `sync` runs it: both `files` lists are built and
      compared with the list `!=`, itself built on `__eq__`. */
  method Compare(w: World, s: Ref, d: Ref) returns (acted: bool)
    requires w.Valid() && s < |w.heap| && d < |w.heap|
    ensures acted == Differs(w.fs, w.heap, s, d)
  {
    var cur := w.GetFiles(s, [], false);
    var other := w.GetFiles(d, [], false);
    assert cur == Files(w.heap, s) && other == Files(w.heap, d);
    acted := (w.heap[s].oldFiles.None? || HasChanges(w.fs, w.heap, s)) && !ListEq(w.fs, w.heap, cur, other);
  }

  /** `_get_files()`: `a.load_files()`, then `b.load_files()`. */
  ghost predicate LoadedBoth(s0: State, mid: State, s1: State, a: Ref, b: Ref)
  {
    && HeapOk(s0.heap) && HeapOk(mid.heap) && HeapOk(s1.heap)
    && a < |s0.heap| && b < |mid.heap|
    && LoadEffect(s0.fs, s0.heap, mid.fs, mid.heap, a)
    && LoadEffect(mid.fs, mid.heap, s1.fs, s1.heap, b)
  }

  /** What one `_get_files()` followed by `init_equilibrium()` went through:
      the state between the two loads, the state once both were loaded, and
      the passes of `init_equilibrium`. */
  datatype Half = Half(mid: State, loaded: State, states: seq<State>, visits: seq<Option<Visit>>)

  /** `_get_files()` then `init_equilibrium()` with `a` as the source and `b`
      as the destination took `s0` to `s1`. */
  ghost predicate HalfDone(s0: State, s1: State, a: Ref, b: Ref, x: Half)
  {
    && LoadedBoth(s0, x.mid, x.loaded, a, b)
    && Balanced(x.loaded, s1, a, b, x.states, x.visits)
  }

  lemma LoadedRoots(s0: State, mid: State, s1: State, a: Ref, b: Ref, r: Ref)
    requires LoadedBoth(s0, mid, s1, a, b) && IsRoot(s0.heap, r)
    ensures IsRoot(s1.heap, r) && Keeps(s0.heap, s1.heap)
  {
    LoadKeeps(s0.fs, s0.heap, mid.fs, mid.heap, a);
    LoadKeeps(mid.fs, mid.heap, s1.fs, s1.heap, b);
    KeepsTrans(s0.heap, mid.heap, s1.heap);
  }

  /** Loading one folder adds only tags to the disk, so any other object's
      path is a directory afterwards exactly when it was before. */
  lemma LoadKeepsDir(s0: State, s1: State, f: Ref, r: Ref)
    requires HeapOk(s0.heap) && HeapOk(s1.heap) && f < |s0.heap| && r < |s0.heap|
    requires LoadEffect(s0.fs, s0.heap, s1.fs, s1.heap, f) && Keeps(s0.heap, s1.heap)
    ensures IsDir(s1.fs, FullPath(s1.heap, r)) == IsDir(s0.fs, FullPath(s0.heap, r))
  {
    KeyKept(s0.heap, s1.heap, r);
    var k := Resolve(FullPath(s0.heap, r));
    assert TagsAdded(s0.fs, s1.fs, KeyOf(s1.heap, f));
    assert k in s1.fs <==> k in s0.fs;
  }

  lemma KeepsRoot(h0: Heap, h1: Heap, r: Ref)
    requires Keeps(h0, h1) && IsRoot(h0, r)
    ensures IsRoot(h1, r)
  {
  }

  class Syncer {
    /** The disk and every object built. */
    var w: World
    /** `source_folder` and `dest_folder`. */
    var source: Ref
    var dest: Ref
    /** `first_run`: set once the first `sync` has run `init_sync`. */
    var firstRun: bool
    /** How many times `reverse_folders` has run, and the roots as built. */
    ghost var swaps: nat
    ghost const home: Ref
    ghost const away: Ref

    /** The two roots are distinct root folders, in their built order after
        an even number of swaps and reversed after an odd one. */
    ghost predicate Valid()
      reads this, w
    {
      && w.Valid() && IsRoot(w.heap, home) && IsRoot(w.heap, away) && home != away
      && (source, dest) == if swaps % 2 == 0 then (home, away) else (away, home)
    }

    /** `Syncer(source_path, dest_path)`: two root `Folder`s on the disk. */
    constructor (disk: FileSystem, now: int, sourcePath: string, destPath: string)
      requires DiskOk(disk) && sourcePath != [] && destPath != []
      ensures Valid() && fresh(w) && !firstRun && swaps == 0
      ensures w.heap[source].name == sourcePath && w.heap[dest].name == destPath
      ensures w.heap[source].files == [] && w.heap[dest].files == []
    {
      var world := new World(disk, now);
      var s := world.NewEntry(FolderKind, sourcePath, None);
      var d := world.NewEntry(FolderKind, destPath, None);
      assert world.heap[s] == world.heap[..d][s];
      w, source, dest, firstRun := world, s, d, false;
      home, away, swaps := s, d, 0;
    }

    /** `reverse_folders()`: swap the two roots. */
    method ReverseFolders()
      requires Valid()
      modifies this
      ensures Valid() && w == old(w) && firstRun == old(firstRun)
      ensures source == old(dest) && dest == old(source) && swaps == old(swaps) + 1
    {
      source, dest := dest, source;
      swaps := swaps + 1;
    }

    /** `_get_files()`: load the source, then the destination.  `false` when
        `os.listdir` raises because a root is not a directory. */
    method GetFiles() returns (ok: bool, ghost mid: State)
      requires Valid()
      modifies w
      ensures Valid() && w.clock == old(w.clock)
      ensures ok <==> old(IsDir(w.fs, FullPath(w.heap, source)) && IsDir(w.fs, FullPath(w.heap, dest)))
      ensures ok ==> LoadedBoth(State(old(w.fs), old(w.heap)), mid, State(w.fs, w.heap), source, dest)
    {
      ghost var s0 := State(w.fs, w.heap);
      mid := s0;
      ok := w.LoadFiles(source);
      if !ok {
        return;
      }
      mid := State(w.fs, w.heap);
      LoadKeeps(s0.fs, s0.heap, mid.fs, mid.heap, source);
      KeepsRoot(s0.heap, mid.heap, dest);
      LoadKeepsDir(s0, mid, source, dest);
      ok := w.LoadFiles(dest);
      if !ok {
        return;
      }
      LoadedRoots(s0, mid, State(w.fs, w.heap), source, dest, home);
      LoadedRoots(s0, mid, State(w.fs, w.heap), source, dest, away);
    }

    /** `_get_files()` then `init_equilibrium()`, the half of `init_sync`
        before a swap.  `false` when Python would raise, among them a root
        that is not a directory. */
    method LoadAndBalance() returns (ok: bool, ghost half: Half)
      requires Valid()
      modifies w
      ensures Valid() && w.clock == old(w.clock)
      ensures old(!IsDir(w.fs, FullPath(w.heap, source)) || !IsDir(w.fs, FullPath(w.heap, dest))) ==> !ok
      ensures ok ==> HalfDone(State(old(w.fs), old(w.heap)), State(w.fs, w.heap), source, dest, half)
    {
      ghost var mid;
      ok, mid := GetFiles();
      half := Half(mid, mid, [], []);
      if !ok {
        return;
      }
      ghost var loaded := State(w.fs, w.heap);
      ghost var states, visits;
      ok, states, visits := InitEquilibrium(w, source, dest);
      half := Half(mid, loaded, states, visits);
      ShapedRoot(loaded.heap, w.heap, home);
      ShapedRoot(loaded.heap, w.heap, away);
    }

    /** `init_sync()`: load both sides and bring the destination up to the
        source, swap, then load both again and bring the other side up.
        `false` when Python would raise, which leaves the state undescribed. */
    method InitSync() returns (ok: bool, ghost first: Half, ghost between: State, ghost second: Half)
      requires Valid()
      modifies this, w
      ensures Valid() && w == old(w) && firstRun == old(firstRun) && w.clock == old(w.clock)
      ensures ok ==> swaps == old(swaps) + 1 && source == old(dest) && dest == old(source)
      ensures ok ==>
        && HalfDone(State(old(w.fs), old(w.heap)), between, old(source), old(dest), first)
        && HalfDone(between, State(w.fs, w.heap), old(dest), old(source), second)
    {
      ok, first := LoadAndBalance();
      between, second := State(w.fs, w.heap), first;
      if !ok {
        return;
      }
      ReverseFolders();
      ok, second := LoadAndBalance();
    }

    /** `dest._action_changes(*source.get_changes())`, with source `s` and
        destination `d`: the changes of `s` are taken, its `old_files` left
        holding the unmatched prior entries, and the new entries copied into
        `d`.  `false` when Python would raise: `old_files` still `None`, or a
        copy failing. */
    method ActionChanges(s: Ref, d: Ref)
      returns (ok: bool, modified: seq<Ref>, newFiles: seq<Ref>, removed: seq<Ref>,
               ghost hMid: Heap, ghost states: seq<State>, ghost placed: seq<Placed>)
      requires Valid() && (s, d) == (source, dest)
      modifies w
      ensures Valid() && w.clock == old(w.clock)
      ensures ok ==>
        && old(w.heap)[s].oldFiles.Some?
        && ScanDone(old(w.fs), old(w.heap), hMid, s, modified, newFiles, removed)
        && AddTrace(states, placed, d, newFiles) && |placed| == |newFiles|
        && states[0] == State(old(w.fs), hMid) && states[|placed|] == State(w.fs, w.heap)
    {
      modified, newFiles, removed := [], [], [];
      hMid, states, placed := w.heap, [], [];
      if w.heap[s].oldFiles.None? {
        return false, modified, newFiles, removed, hMid, states, placed;
      }
      ghost var h0 := w.heap;
      modified, newFiles, removed := GetChanges(w, s);
      hMid := w.heap;
      NewFilesListed(w.fs, h0, w.heap, s, modified, newFiles, removed);
      KeepsRoot(h0, w.heap, d);
      KeepsRoot(h0, w.heap, home);
      KeepsRoot(h0, w.heap, away);
      ok, states, placed := AddNewFiles(w, d, newFiles);
      KeepsTrans(h0, hMid, w.heap);
      KeepsRoot(h0, w.heap, home);
      KeepsRoot(h0, w.heap, away);
    }

    /** One pass of the loop of `sync`: when `Differs`, the destination acts
        on the changes of the source, which propagates only the new entries
        (the handlers of modified and removed entries do nothing).  Then the
        roots swap.  `false` when Python would raise. */
    method Pass() returns (ok: bool, acted: bool, modified: seq<Ref>, newFiles: seq<Ref>, removed: seq<Ref>,
                           ghost hMid: Heap, ghost states: seq<State>, ghost placed: seq<Placed>)
      requires Valid()
      modifies this, w
      ensures Valid() && w == old(w) && firstRun == old(firstRun) && w.clock == old(w.clock)
      ensures acted == Differs(old(w.fs), old(w.heap), old(source), old(dest))
      ensures !acted ==> ok && w.fs == old(w.fs) && w.heap == old(w.heap)
      ensures ok ==> swaps == old(swaps) + 1 && source == old(dest) && dest == old(source)
      ensures acted && ok ==>
        && old(w.heap)[old(source)].oldFiles.Some?
        && ScanDone(old(w.fs), old(w.heap), hMid, old(source), modified, newFiles, removed)
        && AddTrace(states, placed, old(dest), newFiles) && |placed| == |newFiles|
        && states[0] == State(old(w.fs), hMid) && states[|placed|] == State(w.fs, w.heap)
    {
      modified, newFiles, removed := [], [], [];
      hMid, states, placed := w.heap, [], [];
      acted := Compare(w, source, dest);
      if acted {
        ok, modified, newFiles, removed, hMid, states, placed := ActionChanges(source, dest);
        if !ok {
          return;
        }
      }
      ReverseFolders();
      ok := true;
    }

    /** `sync()`: on the first call only, `init_sync()`; then load both sides
        and run two passes.  The two passes swap the roots twice, so a call
        leaves them as it found them, except the first, whose `init_sync`
        swaps them once for good. */
    method Sync() returns (ok: bool)
      requires Valid()
      modifies this, w
      ensures Valid() && w == old(w) && firstRun
      ensures ok && old(firstRun) ==> swaps == old(swaps) + 2 && source == old(source) && dest == old(dest)
      ensures ok && !old(firstRun) ==> swaps == old(swaps) + 3 && source == old(dest) && dest == old(source)
    {
      if !firstRun {
        firstRun := true;
        var done;
        ghost var first, between, second;
        done, first, between, second := InitSync();
        if !done {
          return false;
        }
      }
      ghost var mid;
      ok, mid := GetFiles();
      if !ok {
        return;
      }
      var acted;
      var modified, newFiles, removed;
      ghost var hMid, states, placed;
      ok, acted, modified, newFiles, removed, hMid, states, placed := Pass();
      if !ok {
        return;
      }
      ok, acted, modified, newFiles, removed, hMid, states, placed := Pass();
    }
  }

  /** The entries `get_changes` reports as new are current entries of the
      folder, so they are entries of the heap it left. */
  lemma NewFilesListed(fs: FileSystem, h0: Heap, h1: Heap, s: Ref,
                       modified: seq<Ref>, newFiles: seq<Ref>, removed: seq<Ref>)
    requires ScanDone(fs, h0, h1, s, modified, newFiles, removed)
    ensures AllIn(h1, newFiles) && Keeps(h0, h1)
  {
    var cur := Files(h0, s);
    var sc := ScanFrom(fs, h0, cur, h0[s].oldFiles.value);
    assert newFiles == sc.newFiles && |h1| == |h0|;
    LeftFromOld(fs, h0, cur, h0[s].oldFiles.value);
    forall i | 0 <= i < |newFiles| ensures newFiles[i] < |h1| {
      assert newFiles[i] in sc.newFiles;
      assert newFiles[i] in cur;
    }
  }
}
