/** What `load_files` leaves behind, stated over values: the entries it
    builds mirror the directory tree below the folder on the disk, one entry
    per disk path, and the only change it makes to the disk is to tag paths
    below the folder that had no tag. */
module Loading {
  import opened Wrappers
  import opened Text
  import opened Disk
  import opened Entries
  import opened PathFacts
  import opened TreeFacts
  import opened HeapFacts

  /** The disk path an entry stands for. */
  ghost function KeyOf(h: Heap, x: Ref): Key
    requires HeapOk(h) && x < |h|
  {
    Resolve(FullPath(h, x))
  }

  /** `k` lies strictly inside the directory `top`. */
  predicate StrictlyBelow(k: Key, top: Key)
  {
    |k| > |top| && k[..|top|] == top
  }

  /** The disk paths strictly inside `top`. */
  ghost function Under(fs: FileSystem, top: Key): set<Key>
  {
    set k | k in fs && StrictlyBelow(k, top)
  }

  /** Entry `x` agrees with the disk record at its path: it is there, of the
      same kind, a file has its hash, and its tag is the one the entry stored. */
  ghost predicate Mirrors(fs: FileSystem, h: Heap, x: Ref)
    requires HeapOk(h) && x < |h|
  {
    var k := KeyOf(h, x);
    && k in fs && fs[k].kind == h[x].kind
    && (h[x].kind == FileKind ==> h[x].hash == fs[k].hash)
    && fs[k].tag == Some(h[x].stored)
  }

  /** `fs1` is `fs0` with tags written only on untagged paths strictly inside `top`. */
  ghost predicate TagsAdded(fs0: FileSystem, fs1: FileSystem, top: Key)
  {
    && fs1.Keys == fs0.Keys
    && forall k :: k in fs0 ==>
         fs1[k] == fs0[k] || (StrictlyBelow(k, top) && fs0[k].tag.None? && fs1[k] == fs0[k].(tag := fs1[k].tag))
  }

  /** Entries `lo` to `hi` each mirror a disk path strictly inside `top`
      whose first piece below `top` is one of `tops`. */
  ghost predicate MirrorSound(fs: FileSystem, h: Heap, lo: nat, hi: nat, top: Key, tops: set<string>)
    requires HeapOk(h) && hi <= |h|
  {
    forall x :: lo <= x < hi ==> Mirrors(fs, h, x) && StrictlyBelow(KeyOf(h, x), top) && KeyOf(h, x)[|top|] in tops
  }

  /** Every disk path strictly inside `top` whose first piece below `top` is
      one of `tops` has an entry among `lo` to `hi`. */
  ghost predicate MirrorComplete(fs: FileSystem, h: Heap, lo: nat, hi: nat, top: Key, tops: set<string>)
    requires HeapOk(h) && hi <= |h|
  {
    forall k :: k in fs && StrictlyBelow(k, top) && k[|top|] in tops ==> exists x :: lo <= x < hi && KeyOf(h, x) == k
  }

  /** No two entries among `lo` to `hi` stand for the same disk path. */
  ghost predicate MirrorDistinct(h: Heap, lo: nat, hi: nat)
    requires HeapOk(h) && hi <= |h|
  {
    forall x, y :: lo <= x < y < hi ==> KeyOf(h, x) != KeyOf(h, y)
  }

  /** Entries from `lo` on mirror, one each, exactly the disk paths strictly inside `top`. */
  ghost predicate MirroredBelow(fs: FileSystem, h: Heap, lo: nat, top: Key)
    requires HeapOk(h)
  {
    && (forall x :: lo <= x < |h| ==> Mirrors(fs, h, x) && StrictlyBelow(KeyOf(h, x), top))
    && (forall k :: k in fs && StrictlyBelow(k, top) ==> exists x :: lo <= x < |h| && KeyOf(h, x) == k)
    && (forall x, y :: lo <= x < y < |h| ==> KeyOf(h, x) != KeyOf(h, y))
  }

  /** Objects before `|h1|` keep their links, names, hashes and tags (their
      child lists and old-state fields may change). */
  ghost predicate Keeps(h1: Heap, h2: Heap)
  {
    && |h1| <= |h2|
    && forall q :: 0 <= q < |h1| ==>
         && h2[q].parent == h1[q].parent && h2[q].kind == h1[q].kind && h2[q].name == h1[q].name
         && h2[q].hash == h1[q].hash && h2[q].stored == h1[q].stored
  }

  /** The effect of `f.load_files()` taking heap `h0` and disk `fs0` to `h1` and `fs1`:
      - objects built before are untouched, except `f`, whose old `files`,
        `hashes` and `paths` are kept in `old_files`, `old_hashes` and `old_paths`;
      - `files` now reaches exactly the objects built by the load;
      - those mirror, one each, every disk path inside the folder's directory;
      - the disk only gained tags on untagged paths inside that directory. */
  ghost predicate LoadEffect(fs0: FileSystem, h0: Heap, fs1: FileSystem, h1: Heap, f: Ref)
    requires HeapOk(h0) && HeapOk(h1) && f < |h0|
  {
    && |h0| <= |h1|
    && (forall q :: 0 <= q < |h0| && q != f ==> h1[q] == h0[q])
    && h1[f] == h0[f].(files := h1[f].files, oldFiles := Some(Files(h0, f)),
                       oldHashes := Some(Hashes(h0, Files(h0, f))), oldPaths := Some(PathSet(h0, Files(h0, f))))
    && (forall x :: 0 <= x < |h1| ==> (Reach(h1, f, x) <==> |h0| <= x))
    && MirroredBelow(fs1, h1, |h0|, KeyOf(h1, f))
    && TagsAdded(fs0, fs1, KeyOf(h1, f))
  }

  // ---------------------------------------------------------------- the disk

  /** Every proper prefix of a disk path is a directory on the disk. */
  lemma {:induction false} AncestorIsDir(fs: FileSystem, k: Key, j: nat)
    requires DiskOk(fs) && k in fs && 1 <= j < |k|
    ensures IsDirKey(fs, k[..j])
    decreases |k| - j
  {
    assert ParentPresent(fs, k);
    var up := k[..|k| - 1];
    if j < |k| - 1 {
      AncestorIsDir(fs, up, j);
      assert up[..j] == k[..j];
    }
  }

  /** A path inside `top` starts with a name that `os.listdir` of `top` reports. */
  lemma TopListed(fs: FileSystem, p: string, k: Key)
    requires DiskOk(fs) && k in fs && StrictlyBelow(k, Resolve(p))
    ensures k[|Resolve(p)|] in ListDir(fs, p)
  {
    var top := Resolve(p);
    var n := k[|top|];
    ListDirMembers(fs, p, n);
    assert k[..|top| + 1] == top + [n];
    if |top| + 1 < |k| {
      AncestorIsDir(fs, k, |top| + 1);
    } else {
      assert k == top + [n];
    }
  }

  /** Only a directory has anything inside it. */
  lemma BelowMeansDir(fs: FileSystem, k: Key, top: Key)
    requires DiskOk(fs) && k in fs && |top| >= 1 && StrictlyBelow(k, top)
    ensures IsDirKey(fs, top)
  {
    AncestorIsDir(fs, k, |top|);
  }

  /** Descending into a sub-directory leaves fewer paths below. */
  lemma UnderShrinks(fs: FileSystem, top: Key, n: string)
    requires top + [n] in fs
    ensures |Under(fs, top + [n])| < |Under(fs, top)|
  {
    var small, big := Under(fs, top + [n]), Under(fs, top);
    forall k | k in small ensures k in big {
      assert k[..|top|] == (k[..|top| + 1])[..|top|];
    }
    assert top + [n] in big - small;
    SubsetCard(small, big - {top + [n]});
  }

  lemma {:induction false} SubsetCard<T>(a: set<T>, b: set<T>)
    requires a <= b
    ensures |a| <= |b|
    decreases |b|
  {
    if a != {} {
      var x :| x in a;
      SubsetCard(a - {x}, b - {x});
    }
  }

  // ------------------------------------------------------------ the tags

  lemma TagsAddedRefl(fs: FileSystem, top: Key)
    ensures TagsAdded(fs, fs, top)
  {
  }

  lemma TagsAddedTrans(fs0: FileSystem, fs1: FileSystem, fs2: FileSystem, top: Key)
    requires TagsAdded(fs0, fs1, top) && TagsAdded(fs1, fs2, top)
    ensures TagsAdded(fs0, fs2, top)
  {
    forall k | k in fs0
      ensures fs2[k] == fs0[k] || (StrictlyBelow(k, top) && fs0[k].tag.None? && fs2[k] == fs0[k].(tag := fs2[k].tag))
    {
      assert k in fs1;
    }
  }

  /** Tags added inside a sub-directory are added inside the directory. */
  lemma TagsAddedWiden(fs0: FileSystem, fs1: FileSystem, top: Key, n: string)
    requires TagsAdded(fs0, fs1, top + [n])
    ensures TagsAdded(fs0, fs1, top)
  {
    forall k | k in fs0 && StrictlyBelow(k, top + [n]) ensures StrictlyBelow(k, top) {
      assert k[..|top|] == (k[..|top| + 1])[..|top|];
    }
  }

  /** A constructor's tagging of a path inside `top` adds a tag there and nowhere else. */
  lemma StampAdds(fs0: FileSystem, fs1: FileSystem, p: string, t: Tag, top: Key)
    requires Stamped(fs0, fs1, p, t) && Resolve(p) in fs0 && StrictlyBelow(Resolve(p), top)
    ensures TagsAdded(fs0, fs1, top)
    ensures fs1[Resolve(p)] == fs0[Resolve(p)].(tag := Some(t))
  {
  }

  /** A mirrored entry stays mirrored while only untagged paths gain tags
      and the heap keeps the entry and its ancestors. */
  lemma MirrorsKept(fs1: FileSystem, fs2: FileSystem, h1: Heap, h2: Heap, x: Ref, top: Key)
    requires HeapOk(h1) && HeapOk(h2) && Keeps(h1, h2) && x < |h1|
    requires Mirrors(fs1, h1, x) && TagsAdded(fs1, fs2, top)
    ensures Mirrors(fs2, h2, x) && KeyOf(h2, x) == KeyOf(h1, x)
  {
    KeyKept(h1, h2, x);
  }

  lemma KeyKept(h1: Heap, h2: Heap, x: Ref)
    requires HeapOk(h1) && HeapOk(h2) && Keeps(h1, h2) && x < |h1|
    ensures KeyOf(h2, x) == KeyOf(h1, x) && FullPath(h2, x) == FullPath(h1, x)
  {
    assert AncestryAgrees(h1, h2, x);
    PathsFramed(h1, h2, x);
  }

  lemma KeepsTrans(h1: Heap, h2: Heap, h3: Heap)
    requires Keeps(h1, h2) && Keeps(h2, h3)
    ensures Keeps(h1, h3)
  {
  }

  /** Disk paths lie inside a file only when that "file" is a directory. */
  lemma InsideMeansDir(fs: FileSystem, k: Key, top: Key)
    requires DiskOk(fs) && k in fs && |top| >= 1
    ensures StrictlyBelow(k, top) ==> IsDirKey(fs, top)
  {
    if StrictlyBelow(k, top) {
      AncestorIsDir(fs, k, |top|);
    }
  }

  lemma UnderSameKeys(fs1: FileSystem, fs2: FileSystem, top: Key)
    requires fs1.Keys == fs2.Keys
    ensures Under(fs1, top) == Under(fs2, top)
  {
  }

  /** A path strictly inside `top + [n]` is strictly inside `top`, with first piece `n`. */
  lemma BelowChild(k: Key, top: Key, n: string)
    requires StrictlyBelow(k, top + [n])
    ensures StrictlyBelow(k, top) && k[|top|] == n
  {
    assert k[..|top|] == (k[..|top| + 1])[..|top|];
    assert k[|top|] == (k[..|top| + 1])[|top|];
  }

  // ------------------------------------------------------- the load loop

  /** The state of `load_files` on folder `f` after the names in `done` have
      been handled: `hR` and `fsR` are the heap and disk right after the
      child list was cleared, `top` the folder's disk path. */
  ghost predicate LoadLoop(fsR: FileSystem, hR: Heap, fs: FileSystem, h: Heap, f: Ref, top: Key, done: set<string>)
    requires HeapOk(hR) && HeapOk(h) && f < |hR|
  {
    && |hR| <= |h|
    && (forall q :: 0 <= q < |hR| && q != f ==> h[q] == hR[q])
    && h[f] == hR[f].(files := h[f].files)
    && (forall y :: y in h[f].files ==> |hR| <= y)
    && (forall x :: |hR| <= x < |h| ==> Reach(h, f, x))
    && KeyOf(h, f) == top
    && MirrorSound(fs, h, |hR|, |h|, top, done)
    && MirrorComplete(fs, h, |hR|, |h|, top, done)
    && MirrorDistinct(h, |hR|, |h|)
    && TagsAdded(fsR, fs, top)
  }

  lemma LoadLoopStart(fsR: FileSystem, hR: Heap, f: Ref, top: Key)
    requires HeapOk(hR) && f < |hR| && hR[f].files == [] && KeyOf(hR, f) == top
    ensures LoadLoop(fsR, hR, fsR, hR, f, top, {})
  {
    TagsAddedRefl(fsR, top);
  }

  /** A constructor left `c` in the heap and `AddFile` listed it in `f`:
      the facts both kinds of child share. */
  ghost predicate Stepped(fsR: FileSystem, hR: Heap, f: Ref, top: Key, done: set<string>, n: string,
                          fs: FileSystem, h: Heap, c: Ref)
    requires HeapOk(hR) && HeapOk(h) && f < |hR|
  {
    && |hR| <= c && |h| == c + 1 && h[c].files == [] && h[c].parent == Some(f) && n !in done
    && KeyOf(h, c) == top + [n] && Mirrors(fs, h, c)
    && TagsAdded(fsR, fs, top)
    && (forall q :: 0 <= q < |hR| && q != f ==> h[q] == hR[q])
    && h[f] == hR[f].(files := h[f].files)
    && (forall y :: y in h[f].files ==> |hR| <= y)
    && (forall x :: |hR| <= x < |h| ==> Reach(h, f, x))
    && KeyOf(h, f) == top
    && MirrorSound(fs, h, |hR|, c, top, done)
    && MirrorComplete(fs, h, |hR|, c, top, done)
    && MirrorDistinct(h, |hR|, c)
  }

  lemma KeysKept(h1: Heap, h2: Heap, lo: nat, hi: nat)
    requires HeapOk(h1) && HeapOk(h2) && Keeps(h1, h2) && hi <= |h1|
    ensures forall x :: lo <= x < hi ==> KeyOf(h2, x) == KeyOf(h1, x)
  {
    forall x | lo <= x < hi ensures KeyOf(h2, x) == KeyOf(h1, x) {
      KeyKept(h1, h2, x);
    }
  }

  lemma SoundKept(fs1: FileSystem, fs2: FileSystem, h1: Heap, h2: Heap, lo: nat, hi: nat, top: Key,
                  tops1: set<string>, tops2: set<string>, area: Key)
    requires HeapOk(h1) && HeapOk(h2) && Keeps(h1, h2) && hi <= |h1| && tops1 <= tops2
    requires TagsAdded(fs1, fs2, area) && MirrorSound(fs1, h1, lo, hi, top, tops1)
    ensures MirrorSound(fs2, h2, lo, hi, top, tops2)
  {
    forall x | lo <= x < hi
      ensures Mirrors(fs2, h2, x) && KeyOf(h2, x) == KeyOf(h1, x)
    {
      MirrorsKept(fs1, fs2, h1, h2, x, area);
    }
  }

  lemma CompleteKept(fs1: FileSystem, fs2: FileSystem, h1: Heap, h2: Heap, lo: nat, hi: nat, hi2: nat,
                     top: Key, tops: set<string>)
    requires HeapOk(h1) && HeapOk(h2) && Keeps(h1, h2) && hi <= |h1| && hi <= hi2 <= |h2|
    requires fs2.Keys == fs1.Keys && MirrorComplete(fs1, h1, lo, hi, top, tops)
    ensures MirrorComplete(fs2, h2, lo, hi2, top, tops)
  {
    KeysKept(h1, h2, lo, hi);
    forall k | k in fs2 && StrictlyBelow(k, top) && k[|top|] in tops
      ensures exists x :: lo <= x < hi2 && KeyOf(h2, x) == k
    {
      var x :| lo <= x < hi && KeyOf(h1, x) == k;
      assert KeyOf(h2, x) == k;
    }
  }

  lemma DistinctKept(h1: Heap, h2: Heap, lo: nat, hi: nat)
    requires HeapOk(h1) && HeapOk(h2) && Keeps(h1, h2) && hi <= |h1| && MirrorDistinct(h1, lo, hi)
    ensures MirrorDistinct(h2, lo, hi)
  {
    KeysKept(h1, h2, lo, hi);
  }

  lemma SoundSnoc(fs: FileSystem, h: Heap, lo: nat, hi: nat, top: Key, tops1: set<string>, tops2: set<string>)
    requires HeapOk(h) && hi < |h| && tops1 <= tops2 && MirrorSound(fs, h, lo, hi, top, tops1)
    requires Mirrors(fs, h, hi) && StrictlyBelow(KeyOf(h, hi), top) && KeyOf(h, hi)[|top|] in tops2
    ensures MirrorSound(fs, h, lo, hi + 1, top, tops2)
  {
    forall x | lo <= x < hi + 1
      ensures Mirrors(fs, h, x) && StrictlyBelow(KeyOf(h, x), top) && KeyOf(h, x)[|top|] in tops2
    {
    }
  }

  /** Entries told apart by their first piece below `top` stand for different paths. */
  lemma DistinctSnoc(h: Heap, lo: nat, hi: nat, top: Key, tops: set<string>)
    requires HeapOk(h) && hi < |h| && MirrorDistinct(h, lo, hi)
    requires forall x :: lo <= x < hi ==> StrictlyBelow(KeyOf(h, x), top) && KeyOf(h, x)[|top|] in tops
    requires StrictlyBelow(KeyOf(h, hi), top) && KeyOf(h, hi)[|top|] !in tops
    ensures MirrorDistinct(h, lo, hi + 1)
  {
    var last := KeyOf(h, hi);
    forall x, y | lo <= x < y < hi + 1 ensures KeyOf(h, x) != KeyOf(h, y) {
      if y == hi {
        var kx := KeyOf(h, x);
        assert kx[|top|] in tops;
        assert kx[|top|] != last[|top|];
      }
    }
  }

  /** Growing the heap by one child `c` of `f`, listed by `f`, keeps what `f` reached and reaches `c`. */
  lemma ReachSnoc(h1: Heap, h2: Heap, f: Ref, lo: nat)
    requires HeapOk(h1) && HeapOk(h2) && |h2| == |h1| + 1 && f < |h1|
    requires forall q :: 0 <= q < |h1| ==> h2[q].parent == h1[q].parent && forall y :: y in h1[q].files ==> y in h2[q].files
    requires h2[|h1|].parent == Some(f) && |h1| in h2[f].files
    requires forall x :: lo <= x < |h1| ==> Reach(h1, f, x)
    ensures forall x :: lo <= x < |h2| ==> Reach(h2, f, x)
  {
    forall x | lo <= x < |h2| ensures Reach(h2, f, x) {
      if x < |h1| {
        ReachMonotone(h1, h2, f, x);
      }
    }
  }

  /** The entry a constructor built for `top + [n]` and `add_file` listed in
      `f` mirrors that path; the rest of the heap keeps its keys. */
  lemma BuiltChild(fs1: FileSystem, h1: Heap, fs2: FileSystem, h2: Heap, h3: Heap, f: Ref, c: Ref,
                   kind: Kind, n: string, top: Key)
    requires HeapOk(h1) && HeapOk(h3) && f < |h1| && KeyOf(h1, f) == top
    requires top + [n] in fs1 && fs1[top + [n]].kind == kind
    requires Built(h1, h2, fs1, fs2, c, kind, n, Some(f))
    requires h3 == h2[f := h2[f].(files := h2[f].files + [c])]
    ensures fs2.Keys == fs1.Keys && Keeps(h1, h3) && KeyOf(h3, f) == top
    ensures KeyOf(h3, c) == top + [n] && Mirrors(fs2, h3, c) && TagsAdded(fs1, fs2, top)
  {
    assert forall q :: 0 <= q < c ==> h2[q] == h2[..c][q];
    assert Keeps(h1, h3);
    KeyKept(h1, h3, f);
    assert AncestryAgrees(h2, h3, c);
    PathsFramed(h2, h3, c);
    ResolveFullPath(h3, c);
    var k := top + [n];
    assert StrictlyBelow(k, top) by {
      assert k[..|top|] == top;
    }
    StampAdds(fs1, fs2, FullPath(h2, c), h2[c].stored, top);
  }

  /** The constructor call and `add_file` of one listed name keep the loop's facts. */
  lemma StepBuilt(fsR: FileSystem, hR: Heap, f: Ref, top: Key, done: set<string>, n: string,
                  fs1: FileSystem, h1: Heap, fs2: FileSystem, h2: Heap, h3: Heap, c: Ref, kind: Kind)
    requires HeapOk(hR) && f < |hR| && HeapOk(h1) && HeapOk(h3)
    requires LoadLoop(fsR, hR, fs1, h1, f, top, done)
    requires n !in done && top + [n] in fs1 && fs1[top + [n]].kind == kind
    requires Built(h1, h2, fs1, fs2, c, kind, n, Some(f))
    requires h3 == h2[f := h2[f].(files := h2[f].files + [c])]
    ensures fs2.Keys == fs1.Keys && Keeps(h1, h3)
    ensures Stepped(fsR, hR, f, top, done, n, fs2, h3, c)
  {
    BuiltChild(fs1, h1, fs2, h2, h3, f, c, kind, n, top);
    TagsAddedTrans(fsR, fs1, fs2, top);
    ReachSnoc(h1, h3, f, |hR|);
    SoundKept(fs1, fs2, h1, h3, |hR|, |h1|, top, done, done, top);
    CompleteKept(fs1, fs2, h1, h3, |hR|, |h1|, c, top, done);
    DistinctKept(h1, h3, |hR|, |h1|);
  }

  /** After a file child, the loop's facts hold with its name handled. */
  lemma StepFile(fsR: FileSystem, hR: Heap, f: Ref, top: Key, done: set<string>, n: string,
                 fs: FileSystem, h: Heap, c: Ref)
    requires HeapOk(hR) && f < |hR| && HeapOk(h) && DiskOk(fs)
    requires Stepped(fsR, hR, f, top, done, n, fs, h, c)
    requires fs[top + [n]].kind == FileKind
    ensures LoadLoop(fsR, hR, fs, h, f, top, done + {n})
  {
    var sub := top + [n];
    assert sub[..|top|] == top;
    SoundSnoc(fs, h, |hR|, c, top, done, done + {n});
    DistinctSnoc(h, |hR|, c, top, done);
    FileComplete(fs, h, |hR|, c, top, done, n);
  }

  /** Nothing lies inside a file, so its own entry completes the paths under its name. */
  lemma FileComplete(fs: FileSystem, h: Heap, lo: nat, c: nat, top: Key, done: set<string>, n: string)
    requires HeapOk(h) && DiskOk(fs) && lo <= c && c + 1 == |h|
    requires MirrorComplete(fs, h, lo, c, top, done)
    requires KeyOf(h, c) == top + [n] && top + [n] in fs && fs[top + [n]].kind == FileKind
    ensures MirrorComplete(fs, h, lo, |h|, top, done + {n})
  {
    forall k | k in fs && StrictlyBelow(k, top) && k[|top|] in done + {n}
      ensures exists x :: lo <= x < |h| && KeyOf(h, x) == k
    {
      if k[|top|] == n {
        OnlyTheFile(fs, k, top, n);
        assert KeyOf(h, c) == k;
      } else {
        assert k[|top|] in done;
        var x :| lo <= x < c && KeyOf(h, x) == k;
      }
    }
  }

  /** The only disk path inside `top` whose first piece names a file is that file's own path. */
  lemma OnlyTheFile(fs: FileSystem, k: Key, top: Key, n: string)
    requires DiskOk(fs) && k in fs && StrictlyBelow(k, top) && k[|top|] == n
    requires top + [n] in fs && fs[top + [n]].kind == FileKind
    ensures k == top + [n]
  {
    var sub := top + [n];
    InsideMeansDir(fs, k, sub);
    assert k[..|top| + 1] == sub;
  }

  /** `load_files` keeps everything but the folder's own child and old-state fields. */
  lemma LoadKeeps(fs0: FileSystem, h0: Heap, fs1: FileSystem, h1: Heap, f: Ref)
    requires HeapOk(h0) && HeapOk(h1) && f < |h0| && LoadEffect(fs0, h0, fs1, h1, f)
    ensures Keeps(h0, h1)
  {
  }

  /** A folder child `c`, mirrored, followed by the entries of its own load. */
  lemma FolderSound(fs: FileSystem, h: Heap, lo: nat, c: nat, top: Key, tops: set<string>, n: string)
    requires HeapOk(h) && lo <= c < |h| && n in tops
    requires MirrorSound(fs, h, lo, c, top, tops)
    requires Mirrors(fs, h, c) && KeyOf(h, c) == top + [n] && MirroredBelow(fs, h, c + 1, top + [n])
    ensures MirrorSound(fs, h, lo, |h|, top, tops)
  {
    assert (top + [n])[..|top|] == top;
    forall x | lo <= x < |h|
      ensures Mirrors(fs, h, x) && StrictlyBelow(KeyOf(h, x), top) && KeyOf(h, x)[|top|] in tops
    {
      if c < x {
        BelowChild(KeyOf(h, x), top, n);
      }
    }
  }

  lemma FolderComplete(fs: FileSystem, h: Heap, lo: nat, c: nat, top: Key, done: set<string>, n: string)
    requires HeapOk(h) && lo <= c < |h|
    requires MirrorComplete(fs, h, lo, c, top, done)
    requires KeyOf(h, c) == top + [n] && MirroredBelow(fs, h, c + 1, top + [n])
    ensures MirrorComplete(fs, h, lo, |h|, top, done + {n})
  {
    var sub := top + [n];
    forall k | k in fs && StrictlyBelow(k, top) && k[|top|] in done + {n}
      ensures exists x :: lo <= x < |h| && KeyOf(h, x) == k
    {
      if k[|top|] in done {
      } else if k == sub {
        assert KeyOf(h, c) == k;
      } else {
        assert k[..|top| + 1] == sub by {
          assert k[..|top|] == top;
        }
        WholePrefix(k, sub);
        assert StrictlyBelow(k, sub);
      }
    }
  }

  /** A key as long as a prefix it starts with is that prefix. */
  lemma WholePrefix(k: Key, sub: Key)
    requires |k| >= |sub| && k[..|sub|] == sub
    ensures |k| == |sub| ==> k == sub
  {
    if |k| == |sub| {
      assert k == k[..|sub|];
    }
  }

  /** A key under an already handled name differs from any key in the branch of a new name. */
  lemma OtherBranch(kx: Key, ky: Key, top: Key, n: string, done: set<string>)
    requires StrictlyBelow(kx, top) && kx[|top|] in done && n !in done
    requires StrictlyBelow(ky, top + [n])
    ensures kx != ky
  {
    BelowChild(ky, top, n);
  }

  lemma MirroredIsBelow(fs: FileSystem, h: Heap, lo: nat, top: Key, y: nat)
    requires HeapOk(h) && MirroredBelow(fs, h, lo, top) && lo <= y < |h|
    ensures StrictlyBelow(KeyOf(h, y), top)
  {
  }

  lemma FolderDistinct(fs: FileSystem, h: Heap, lo: nat, c: nat, top: Key, done: set<string>, n: string)
    requires HeapOk(h) && lo <= c < |h| && n !in done
    requires MirrorDistinct(h, lo, c)
    requires forall x :: lo <= x < c ==> StrictlyBelow(KeyOf(h, x), top) && KeyOf(h, x)[|top|] in done
    requires KeyOf(h, c) == top + [n] && MirroredBelow(fs, h, c + 1, top + [n])
    ensures MirrorDistinct(h, lo, |h|)
  {
    assert KeyOf(h, c)[|top|] == n by {
      assert (top + [n])[|top|] == n;
    }
    forall x, y | lo <= x < y < |h| ensures KeyOf(h, x) != KeyOf(h, y) {
      if x < c {
        var kx := KeyOf(h, x);
        assert StrictlyBelow(kx, top) && kx[|top|] in done;
        if c <= y {
          if c < y {
            MirroredIsBelow(fs, h, c + 1, top + [n], y);
            OtherBranch(kx, KeyOf(h, y), top, n, done);
          } else {
            assert y == c;
          }
        }
      } else if x == c {
        MirroredIsBelow(fs, h, c + 1, top + [n], y);
      }
    }
  }

  lemma ReachLoaded(h3: Heap, h4: Heap, f: Ref, c: Ref, lo: nat)
    requires HeapOk(h3) && HeapOk(h4) && lo <= c < |h3| <= |h4| && f < |h3|
    requires forall q :: 0 <= q < |h3| ==> h4[q].parent == h3[q].parent && forall y :: y in h3[q].files ==> y in h4[q].files
    requires forall x :: lo <= x < |h3| ==> Reach(h3, f, x)
    requires forall x :: |h3| <= x < |h4| ==> Reach(h4, c, x)
    ensures forall x :: lo <= x < |h4| ==> Reach(h4, f, x)
  {
    ReachMonotone(h3, h4, f, c);
    forall x | lo <= x < |h4| ensures Reach(h4, f, x) {
      if x < |h3| {
        ReachMonotone(h3, h4, f, x);
      } else {
        ReachTrans(h4, f, c, x);
      }
    }
  }

  /** After a folder child and its own `load_files`, the loop's facts hold with its name handled. */
  lemma StepFolder(fsR: FileSystem, hR: Heap, f: Ref, top: Key, done: set<string>, n: string,
                   fs2: FileSystem, h3: Heap, c: Ref, fs4: FileSystem, h4: Heap)
    requires HeapOk(hR) && f < |hR| && HeapOk(h3) && HeapOk(h4)
    requires Stepped(fsR, hR, f, top, done, n, fs2, h3, c)
    requires LoadEffect(fs2, h3, fs4, h4, c)
    ensures LoadLoop(fsR, hR, fs4, h4, f, top, done + {n})
  {
    var sub := top + [n];
    LoadKeeps(fs2, h3, fs4, h4, c);
    KeyKept(h3, h4, f);
    KeyKept(h3, h4, c);
    TagsAddedWiden(fs2, fs4, top, n);
    TagsAddedTrans(fsR, fs2, fs4, top);
    ReachLoaded(h3, h4, f, c, |hR|);
    SoundKept(fs2, fs4, h3, h4, |hR|, c, top, done, done + {n}, sub);
    MirrorsKept(fs2, fs4, h3, h4, c, sub);
    FolderSound(fs4, h4, |hR|, c, top, done + {n}, n);
    CompleteKept(fs2, fs4, h3, h4, |hR|, c, c, top, done);
    FolderComplete(fs4, h4, |hR|, c, top, done, n);
    DistinctKept(h3, h4, |hR|, c);
    SoundKept(fs2, fs4, h3, h4, |hR|, c, top, done, done, sub);
    FolderDistinct(fs4, h4, |hR|, c, top, done, n);
  }

  /** A listed name is a path inside the folder; fewer paths lie inside it. */
  lemma ListedShrinks(fs0: FileSystem, fs: FileSystem, top: Key, base: string, n: string)
    requires Resolve(base) == top && n in ListDir(fs0, base) && TagsAdded(fs0, fs, top)
    ensures top + [n] in fs && |Under(fs, top + [n])| < |Under(fs0, top)|
  {
    ListDirMembers(fs0, base, n);
    UnderShrinks(fs, top, n);
    UnderSameKeys(fs, fs0, top);
  }

  /** Right after the child list is cleared, the loop starts with no name handled. */
  lemma ResetStart(fs: FileSystem, h0: Heap, hR: Heap, f: Ref)
    requires HeapOk(h0) && HeapOk(hR) && f < |h0| == |hR| && h0[f].kind == FolderKind
    requires hR == h0[f := h0[f].(files := [], oldFiles := hR[f].oldFiles, oldHashes := hR[f].oldHashes, oldPaths := hR[f].oldPaths)]
    ensures hR[f].kind == FolderKind && FullPath(hR, f) == FullPath(h0, f) && FullPath(hR, f) != ""
    ensures LoadLoop(fs, hR, fs, hR, f, KeyOf(h0, f), {})
  {
    assert Keeps(h0, hR);
    KeyKept(h0, hR, f);
    assert NamedOk(hR, f);
    LoadLoopStart(fs, hR, f, KeyOf(h0, f));
  }

  /** When every listed name is handled, the loop's facts are the effect `load_files` promises. */
  lemma LoadDone(fs0: FileSystem, h0: Heap, hR: Heap, fs: FileSystem, h: Heap, f: Ref, top: Key)
    requires HeapOk(h0) && HeapOk(hR) && HeapOk(h) && DiskOk(fs0) && f < |h0|
    requires hR == h0[f := h0[f].(files := [], oldFiles := Some(Files(h0, f)),
                                  oldHashes := Some(Hashes(h0, Files(h0, f))), oldPaths := Some(PathSet(h0, Files(h0, f))))]
    requires top == KeyOf(h0, f)
    requires LoadLoop(fs0, hR, fs, h, f, top, ListDir(fs0, FullPath(h0, f)))
    ensures LoadEffect(fs0, h0, fs, h, f)
  {
    forall x | 0 <= x < |h| && Reach(h, f, x) ensures |h0| <= x {
      ReachAbove(h, f, |h0|, x);
    }
    forall k | k in fs && StrictlyBelow(k, top) ensures k[|top|] in ListDir(fs0, FullPath(h0, f)) {
      TopListed(fs0, FullPath(h0, f), k);
    }
  }
}
