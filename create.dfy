/** `_create_and_add_missing_folders` and `get_folder_that_contains`: finding
    the destination folder for an entry, making the directories and `Folder`
    objects that are missing on the way. */
module Creating {
  import opened Wrappers
  import opened Positions
  import opened Text
  import opened Disk
  import opened Entries
  import opened PathFacts
  import opened TreeFacts
  import opened HeapFacts
  import opened Loading
  import opened Replica
  import opened Searches
  import opened FolderOps

  /** The pieces of `path` whose prefixes `_create_and_add_missing_folders`
      walks: all of `path.split("/")` for a folder, all but the last for a file. */
  function Pieces(path: string, folder: bool): (ps: seq<string>)
    ensures |ps| == |Split(path)| - (if folder then 0 else 1)
    ensures forall j :: 0 <= j < |ps| ==> ps[j] == Split(path)[j]
  {
    var parts := Split(path);
    if folder then parts else parts[..|parts| - 1]
  }

  /** A root whose name ends in "/" (and is more than "/"), as the program is
      started with: below it, `path` is the "/"-join of the names under the root. */
  predicate SlashRoot(h: Heap, d: Ref)
    requires d < |h|
  {
    EndsWithSlash(h[d].name) && StripSlash(h[d].name) != ""
  }

  /** A root folder. */
  ghost predicate IsRoot(h: Heap, d: Ref)
  {
    d < |h| && h[d].kind == FolderKind && h[d].parent.None?
  }

  // ------------------------------------------------------------ framing

  lemma KeepsRefl(h: Heap)
    ensures Keeps(h, h)
  {
  }

  /** A constructor only appends to the heap. */
  lemma BuiltKeeps(h0: Heap, h1: Heap, fs0: FileSystem, fs1: FileSystem, r: Ref, kind: Kind, name: string, parent: Option<Ref>)
    requires Built(h0, h1, fs0, fs1, r, kind, name, parent)
    ensures Keeps(h0, h1)
  {
    assert forall q :: 0 <= q < |h0| ==> h1[q] == h1[..r][q];
  }

  /** Changing a folder's `files` list keeps every object's links and names. */
  lemma ListingKeeps(h: Heap, f: Ref, xs: seq<Ref>)
    requires f < |h|
    ensures Keeps(h, h[f := h[f].(files := xs)])
  {
  }

  /** Objects kept with their links and names keep their paths. */
  lemma PathKept(h1: Heap, h2: Heap, x: Ref)
    requires HeapOk(h1) && HeapOk(h2) && Keeps(h1, h2) && x < |h1|
    ensures Path(h2, x) == Path(h1, x) && FullPath(h2, x) == FullPath(h1, x)
    ensures RootFolderPath(h2, x) == RootFolderPath(h1, x) && SourceNoRoot(h2, x) == SourceNoRoot(h1, x)
  {
    assert AncestryAgrees(h1, h2, x);
    SourceFramed(h1, h2, x);
    PathsFramed(h1, h2, x);
  }

  /** Everything at or under `a` has `a`'s root name. */
  lemma {:induction false} UnderSameRoot(h: Heap, a: Ref, x: Ref)
    requires HeapOk(h) && a < |h| && x < |h| && AtOrUnder(h, a, x)
    ensures RootFolderPath(h, x) == RootFolderPath(h, a)
    decreases x
  {
    if x != a {
      SourceStep(h, x);
      UnderSameRoot(h, a, Parent(h, x));
    }
  }

  /** An entry of a root's `files` sits below the root, with the root's name as its root name. */
  lemma ListedUnderRoot(h: Heap, d: Ref, k: nat)
    requires HeapOk(h) && IsRoot(h, d) && k < |Files(h, d)|
    ensures var g := Files(h, d)[k]; h[g].parent.Some? && RootFolderPath(h, g) == h[d].name
  {
    var g := Files(h, d)[k];
    FilesBelow(h, d);
    assert Below(h, d, g);
    UnderSameRoot(h, d, Parent(h, g));
    SourceStep(h, g);
    RootPaths(h, d);
  }

  // ------------------------------------------- _create_and_add_missing_folders

  /** What the entry `x` answered for the prefix `done` of the pieces
      satisfies: it sits below root `d`, and below a root ending in "/" its
      `path` is the "/"-join of `done`. */
  ghost predicate Reached(h: Heap, d: Ref, x: Ref, done: seq<string>, slash: bool)
    requires HeapOk(h) && d < |h|
  {
    x < |h| && h[x].parent.Some? && RootFolderPath(h, x) == h[d].name && (slash ==> Path(h, x) == Join(done))
  }

  /** The facts the loop of `_create_and_add_missing_folders` on root `d`
      keeps, with `chain` holding `new_folders`: heap `h0` grew to `h` without
      touching any old object's links or names, and the last entry of the
      chain is `Reached` for the pieces handled so far. */
  ghost predicate Grown(h0: Heap, h: Heap, d: Ref, chain: seq<Ref>, pieces: seq<string>)
  {
    && HeapOk(h) && Keeps(h0, h) && IsRoot(h0, d) && |chain| <= |pieces|
    && (chain != [] ==> Reached(h, d, chain[|chain| - 1], pieces[..|chain|], SlashRoot(h0, d)))
  }

  lemma GrownStart(h0: Heap, d: Ref, pieces: seq<string>)
    requires HeapOk(h0) && IsRoot(h0, d)
    ensures Grown(h0, h0, d, [], pieces)
  {
    KeepsRefl(h0);
  }

  /** A prefix already among `paths`: the entry `get_folder_by_path` finds joins the chain. */
  lemma GrownFound(h0: Heap, h: Heap, d: Ref, chain: seq<Ref>, pieces: seq<string>, k: nat)
    requires Grown(h0, h, d, chain, pieces) && |chain| < |pieces|
    requires k < |Files(h, d)| && Path(h, Files(h, d)[k]) == Join(pieces[..|chain| + 1])
    ensures Grown(h0, h, d, chain + [Files(h, d)[k]], pieces)
  {
    ListedUnderRoot(h, d, k);
  }

  /** A missing prefix: a new `Folder` built below the chain's last entry (`d`
      for the first) and listed there joins the chain. */
  lemma GrownBuilt(h0: Heap, h1: Heap, h2: Heap, h3: Heap, d: Ref, chain: seq<Ref>, pieces: seq<string>, c: Ref, p: Ref)
    requires Grown(h0, h1, d, chain, pieces) && |chain| < |pieces| && HeapOk(h2) && HeapOk(h3)
    requires p == (if chain == [] then d else chain[|chain| - 1])
    requires Keeps(h1, h2) && c < |h2| && h2[c].parent == Some(p) && h2[c].name == pieces[|chain|]
    requires Keeps(h2, h3)
    ensures Grown(h0, h3, d, chain + [c], pieces)
  {
    KeepsTrans(h0, h1, h2);
    KeepsTrans(h0, h2, h3);
    ChildReached(h0, h1, h2, d, chain, pieces, c, p);
    ReachedKept(h2, h3, d, c, pieces[..|chain| + 1], SlashRoot(h0, d));
    var grown := chain + [c];
    assert |grown| == |chain| + 1 && grown[|grown| - 1] == c;
  }

  /** Growing the heap without touching old links or names keeps an entry reached. */
  lemma ReachedKept(h1: Heap, h2: Heap, d: Ref, x: Ref, done: seq<string>, slash: bool)
    requires HeapOk(h1) && HeapOk(h2) && Keeps(h1, h2) && d < |h1| && Reached(h1, d, x, done, slash)
    ensures Reached(h2, d, x, done, slash)
  {
    PathKept(h1, h2, x);
    assert h2[d].name == h1[d].name;
  }

  /** The new entry `c` in `h2` is `Reached` for one piece more than its parent `p`. */
  lemma ChildReached(h0: Heap, h1: Heap, h2: Heap, d: Ref, chain: seq<Ref>, pieces: seq<string>, c: Ref, p: Ref)
    requires Grown(h0, h1, d, chain, pieces) && |chain| < |pieces| && HeapOk(h2) && Keeps(h1, h2)
    requires p == (if chain == [] then d else chain[|chain| - 1])
    requires c < |h2| && h2[c].parent == Some(p) && h2[c].name == pieces[|chain|]
    ensures Reached(h2, d, c, pieces[..|chain| + 1], SlashRoot(h0, d))
  {
    var n, slash := pieces[|chain|], SlashRoot(h0, d);
    assert h2[d].name == h0[d].name && h2[d].parent.None?;
    if chain == [] {
      assert pieces[..1] == [n];
      TopReached(h2, d, c, n, slash);
    } else {
      var done := pieces[..|chain|];
      assert pieces[..|chain| + 1] == done + [n];
      PathKept(h1, h2, p);
      DeepReached(h2, d, c, p, done, n, slash);
    }
  }

  /** A new entry listed under the root itself is reached by its own name. */
  lemma TopReached(h: Heap, d: Ref, c: Ref, n: string, slash: bool)
    requires HeapOk(h) && d < |h| && h[d].parent.None? && c < |h| && h[c].parent == Some(d) && h[c].name == n
    requires slash ==> SlashRoot(h, d)
    ensures Reached(h, d, c, [n], slash)
  {
    SourceStep(h, c);
    RootPaths(h, d);
    if slash {
      TopChildPath(h, c);
    }
  }

  /** A new entry listed under a reached entry `p` is reached by one piece more. */
  lemma DeepReached(h: Heap, d: Ref, c: Ref, p: Ref, done: seq<string>, n: string, slash: bool)
    requires HeapOk(h) && d < |h| && p < |h| && c < |h| && h[c].parent == Some(p) && h[c].name == n
    requires Reached(h, d, p, done, slash) && |done| >= 1
    requires slash ==> SlashRoot(h, d)
    ensures Reached(h, d, c, done + [n], slash)
  {
    SourceStep(h, c);
    if slash {
      DeepChildPath(h, c);
      JoinSnoc(done, n);
    }
  }

  /** The entry a new folder for the prefix of `n + 1` pieces goes below:
      `d` for the first prefix, the previous prefix's entry after that. */
  function Above(d: Ref, chain: seq<Ref>, n: nat): Ref
    requires n <= |chain|
  {
    if n == 0 then d else chain[n - 1]
  }

  /** `self.root_folder_path + dir_path`: where the directory for the prefix
      of `n` pieces is made. */
  function PrefixDir(h: Heap, d: Ref, pieces: seq<string>, n: nat): string
    requires HeapOk(h) && d < |h| && n <= |pieces|
  {
    RootFolderPath(h, d) + Join(pieces[..n])
  }

  /** Every path of disk `fs0` is still there with its kind, bytes and time. */
  ghost predicate ContentKept(fs0: FileSystem, fs1: FileSystem)
  {
    forall k :: k in fs0 ==> k in fs1 && fs1[k].kind == fs0[k].kind && fs1[k].hash == fs0[k].hash && fs1[k].mtime == fs0[k].mtime
  }

  /** One missing prefix handled: the directory was made (one new path on the
      disk), and a new empty `Folder` `c` named by the prefix's last piece was
      built below `Above` and listed at the end of its `files`; no other
      object changed. */
  ghost predicate MadeOne(fs0: FileSystem, h0: Heap, fs1: FileSystem, h1: Heap, d: Ref, chain: seq<Ref>, pieces: seq<string>, c: Ref)
  {
    && HeapOk(h0) && IsRoot(h0, d) && |chain| < |pieces| && Above(d, chain, |chain|) < |h0|
    && var p, dir := Above(d, chain, |chain|), PrefixDir(h0, d, pieces, |chain| + 1);
       && c == |h0| && |h1| == c + 1
       && h1[..c] == h0[p := h0[p].(files := h0[p].files + [c])]
       && h1[c].kind == FolderKind && h1[c].name == pieces[|chain|] && h1[c].parent == Some(p) && h1[c].files == []
       && MkdirOk(fs0, dir) && fs1.Keys == fs0.Keys + {Resolve(dir)} && IsDir(fs1, dir) && ContentKept(fs0, fs1)
  }

  /** How `chain[j]` answered the prefix of `j + 1` pieces: an entry of
      `d`'s `files` with that `path`, or a new `Folder` listed below `Above`,
      for a prefix no entry of the original tree `h0` had, whose directory
      exists. */
  ghost predicate PrefixAnswer(h0: Heap, fs: FileSystem, h: Heap, d: Ref, chain: seq<Ref>, pieces: seq<string>, j: nat)
    requires HeapOk(h0) && HeapOk(h) && d < |h0| <= |h| && j < |chain| <= |pieces|
  {
    var x, p := chain[j], Above(d, chain, j);
    || (x < |h| && x in Files(h, d) && Path(h, x) == Join(pieces[..j + 1]))
    || (&& |h0| <= x < |h| && p < |h|
        && h[x].kind == FolderKind && h[x].name == pieces[j] && h[x].parent == Some(p) && x in h[p].files
        && Join(pieces[..j + 1]) !in PathSet(h0, Files(h0, d))
        && IsDir(fs, PrefixDir(h0, d, pieces, j + 1)))
  }

  /** The directories made for the prefixes answered by new objects. */
  ghost function MadeDirs(h0: Heap, d: Ref, chain: seq<Ref>, pieces: seq<string>): set<Key>
    requires HeapOk(h0) && d < |h0|
  {
    set j | 0 <= j < |chain| && j < |pieces| && |h0| <= chain[j] :: Resolve(PrefixDir(h0, d, pieces, j + 1))
  }

  /** What the walk of `_create_and_add_missing_folders` has done to disk
      `fs0` and heap `h0`: every prefix so far is answered; the only new
      objects are on the chain; old `files` lists only grew, by new objects;
      the old disk's content stays and the only new paths are the
      directories made for the chain's new objects. */
  ghost predicate Walked(fs0: FileSystem, h0: Heap, fs: FileSystem, h: Heap, d: Ref, chain: seq<Ref>, pieces: seq<string>)
  {
    && HeapOk(h0) && HeapOk(h) && IsRoot(h0, d) && Keeps(h0, h) && |chain| <= |pieces|
    && (forall j :: 0 <= j < |chain| ==> PrefixAnswer(h0, fs, h, d, chain, pieces, j))
    && (forall q :: |h0| <= q < |h| ==> q in chain)
    && (forall q :: 0 <= q < |h0| ==> h0[q].files <= h[q].files)
    && (forall q, i :: 0 <= q < |h0| && |h0[q].files| <= i < |h[q].files| ==> |h0| <= h[q].files[i])
    && ContentKept(fs0, fs)
    && (forall k :: k in fs && k !in fs0 ==> k in MadeDirs(h0, d, chain, pieces))
  }

  lemma WalkedStart(fs0: FileSystem, h0: Heap, d: Ref, pieces: seq<string>)
    requires HeapOk(h0) && IsRoot(h0, d)
    ensures Walked(fs0, h0, fs0, h0, d, [], pieces)
  {
    KeepsRefl(h0);
  }

  /** A prefix found among `paths`: the walk goes on with nothing changed. */
  lemma WalkedFound(fs0: FileSystem, h0: Heap, fs: FileSystem, h: Heap, d: Ref, chain: seq<Ref>, pieces: seq<string>, g: Ref)
    requires Walked(fs0, h0, fs, h, d, chain, pieces) && |chain| < |pieces|
    requires g < |h| && g in Files(h, d) && Path(h, g) == Join(pieces[..|chain| + 1])
    ensures Walked(fs0, h0, fs, h, d, chain + [g], pieces)
  {
    var next := chain + [g];
    forall j | 0 <= j < |next|
      ensures PrefixAnswer(h0, fs, h, d, next, pieces, j)
    {
      if j < |chain| {
        assert next[j] == chain[j] && Above(d, next, j) == Above(d, chain, j);
        assert PrefixAnswer(h0, fs, h, d, chain, pieces, j);
      }
    }
    assert MadeDirs(h0, d, chain, pieces) <= MadeDirs(h0, d, next, pieces) by {
      forall k | k in MadeDirs(h0, d, chain, pieces) ensures k in MadeDirs(h0, d, next, pieces) {
        var j :| 0 <= j < |chain| && j < |pieces| && |h0| <= chain[j] && k == Resolve(PrefixDir(h0, d, pieces, j + 1));
        assert next[j] == chain[j];
      }
    }
  }

  /** A step that changes only what `MadeOne` allows keeps the old `files`
      entries, their paths, and the objects' lists grown. */
  lemma MadeKeeps(fs1: FileSystem, h1: Heap, fs2: FileSystem, h2: Heap, d: Ref, chain: seq<Ref>, pieces: seq<string>, c: Ref)
    requires MadeOne(fs1, h1, fs2, h2, d, chain, pieces, c) && HeapOk(h2)
    ensures Keeps(h1, h2)
    ensures forall q :: 0 <= q < |h1| ==> h1[q].files <= h2[q].files
    ensures forall q :: 0 <= q < |h1| ==> h2[q].files == h1[q].files || h2[q].files == h1[q].files + [c]
    ensures forall x :: x in Files(h1, d) ==> x in Files(h2, d)
  {
    var p := Above(d, chain, |chain|);
    forall q | 0 <= q < |h1|
      ensures h2[q] == h1[q] || h2[q] == h1[q].(files := h1[q].files + [c])
    {
      assert h2[q] == h2[..c][q];
    }
    forall x | x in Files(h1, d) ensures x in Files(h2, d) {
      FilesGrow(h1, h2, d, x);
    }
  }

  /** Answers given before a `MadeOne` step still hold after it. */
  lemma AnswerKept(h0: Heap, fs1: FileSystem, h1: Heap, fs2: FileSystem, h2: Heap, d: Ref, chain: seq<Ref>, pieces: seq<string>, c: Ref, j: nat)
    requires HeapOk(h0) && HeapOk(h1) && HeapOk(h2) && IsRoot(h0, d) && |h0| <= |h1| && j < |chain|
    requires MadeOne(fs1, h1, fs2, h2, d, chain, pieces, c)
    requires PrefixAnswer(h0, fs1, h1, d, chain, pieces, j)
    ensures PrefixAnswer(h0, fs2, h2, d, chain + [c], pieces, j)
  {
    var next := chain + [c];
    assert next[j] == chain[j] && Above(d, next, j) == Above(d, chain, j);
    MadeKeeps(fs1, h1, fs2, h2, d, chain, pieces, c);
    var x := chain[j];
    if x < |h1| && x in Files(h1, d) && Path(h1, x) == Join(pieces[..j + 1]) {
      PathKept(h1, h2, x);
    } else {
      var p := Above(d, chain, j);
      assert h1[p].files <= h2[p].files;
    }
  }

  /** A missing prefix made by `MadeOne`: the walk goes on with the new folder. */
  lemma WalkedMade(fs0: FileSystem, h0: Heap, fs1: FileSystem, h1: Heap, fs2: FileSystem, h2: Heap,
                   d: Ref, chain: seq<Ref>, pieces: seq<string>, c: Ref)
    requires Walked(fs0, h0, fs1, h1, d, chain, pieces) && HeapOk(h2)
    requires MadeOne(fs1, h1, fs2, h2, d, chain, pieces, c)
    requires Join(pieces[..|chain| + 1]) !in PathSet(h1, Files(h1, d))
    ensures Walked(fs0, h0, fs2, h2, d, chain + [c], pieces)
  {
    MadeKeeps(fs1, h1, fs2, h2, d, chain, pieces, c);
    KeepsTrans(h0, h1, h2);
    AnswersMade(h0, fs1, h1, fs2, h2, d, chain, pieces, c);
    NewOnChain(h0, h1, h2, chain, c);
    ListsGrown(h0, h1, h2, c);
    DirsMade(fs0, h0, fs1, h1, fs2, h2, d, chain, pieces, c);
  }

  /** After a `MadeOne` step every prefix of the longer walk is answered. */
  lemma AnswersMade(h0: Heap, fs1: FileSystem, h1: Heap, fs2: FileSystem, h2: Heap, d: Ref, chain: seq<Ref>, pieces: seq<string>, c: Ref)
    requires HeapOk(h0) && HeapOk(h1) && HeapOk(h2) && IsRoot(h0, d) && Keeps(h0, h1)
    requires forall q :: 0 <= q < |h0| ==> h0[q].files <= h1[q].files
    requires MadeOne(fs1, h1, fs2, h2, d, chain, pieces, c)
    requires forall j :: 0 <= j < |chain| ==> PrefixAnswer(h0, fs1, h1, d, chain, pieces, j)
    requires Join(pieces[..|chain| + 1]) !in PathSet(h1, Files(h1, d))
    ensures forall j :: 0 <= j < |chain| + 1 ==> PrefixAnswer(h0, fs2, h2, d, chain + [c], pieces, j)
  {
    forall j | 0 <= j < |chain| + 1 ensures PrefixAnswer(h0, fs2, h2, d, chain + [c], pieces, j) {
      if j < |chain| {
        AnswerKept(h0, fs1, h1, fs2, h2, d, chain, pieces, c, j);
      } else {
        AnswerMade(h0, fs1, h1, fs2, h2, d, chain, pieces, c);
      }
    }
  }

  /** The one object a `MadeOne` step adds joins the walk. */
  lemma NewOnChain(h0: Heap, h1: Heap, h2: Heap, chain: seq<Ref>, c: Ref)
    requires |h0| <= |h1| == c && |h2| == c + 1
    requires forall q :: |h0| <= q < |h1| ==> q in chain
    ensures forall q :: |h0| <= q < |h2| ==> q in chain + [c]
  {
    forall q | |h0| <= q < |h2| ensures q in chain + [c] {
      if q < |h1| {
        assert q in chain;
      } else {
        assert q == (chain + [c])[|chain|];
      }
    }
  }

  /** The prefix `MadeOne` handled is answered by its new folder. */
  lemma AnswerMade(h0: Heap, fs1: FileSystem, h1: Heap, fs2: FileSystem, h2: Heap, d: Ref, chain: seq<Ref>, pieces: seq<string>, c: Ref)
    requires HeapOk(h0) && HeapOk(h1) && HeapOk(h2) && IsRoot(h0, d) && Keeps(h0, h1)
    requires forall q :: 0 <= q < |h0| ==> h0[q].files <= h1[q].files
    requires MadeOne(fs1, h1, fs2, h2, d, chain, pieces, c)
    requires Join(pieces[..|chain| + 1]) !in PathSet(h1, Files(h1, d))
    ensures PrefixAnswer(h0, fs2, h2, d, chain + [c], pieces, |chain|)
  {
    var next, n := chain + [c], |chain|;
    var p := Above(d, chain, n);
    assert next[n] == c && Above(d, next, n) == p;
    RootPaths(h0, d);
    RootPaths(h1, d);
    assert PrefixDir(h1, d, pieces, n + 1) == PrefixDir(h0, d, pieces, n + 1);
    assert h2[p] == h2[..c][p];
    if Join(pieces[..n + 1]) in PathSet(h0, Files(h0, d)) {
      PathSetGrows(h0, h1, d, Join(pieces[..n + 1]));
    }
  }

  /** Old lists that only grew by new objects keep doing so across a `MadeOne` step. */
  lemma ListsGrown(h0: Heap, h1: Heap, h2: Heap, c: Ref)
    requires |h0| <= |h1| == c && |h2| == c + 1
    requires forall q :: 0 <= q < |h0| ==> h0[q].files <= h1[q].files
    requires forall q, i :: 0 <= q < |h0| && |h0[q].files| <= i < |h1[q].files| ==> |h0| <= h1[q].files[i]
    requires forall q :: 0 <= q < |h1| ==> h2[q].files == h1[q].files || h2[q].files == h1[q].files + [c]
    ensures forall q :: 0 <= q < |h0| ==> h0[q].files <= h2[q].files
    ensures forall q, i :: 0 <= q < |h0| && |h0[q].files| <= i < |h2[q].files| ==> |h0| <= h2[q].files[i]
  {
    forall q, i | 0 <= q < |h0| && |h0[q].files| <= i < |h2[q].files| ensures |h0| <= h2[q].files[i] {
      if i < |h1[q].files| {
        assert h2[q].files[i] == h1[q].files[i];
      }
    }
  }

  /** After a `MadeOne` step the only new disk paths are still directories made for the chain. */
  lemma DirsMade(fs0: FileSystem, h0: Heap, fs1: FileSystem, h1: Heap, fs2: FileSystem, h2: Heap,
                 d: Ref, chain: seq<Ref>, pieces: seq<string>, c: Ref)
    requires HeapOk(h0) && HeapOk(h1) && IsRoot(h0, d) && Keeps(h0, h1) && |chain| < |pieces|
    requires ContentKept(fs0, fs1) && forall k :: k in fs1 && k !in fs0 ==> k in MadeDirs(h0, d, chain, pieces)
    requires MadeOne(fs1, h1, fs2, h2, d, chain, pieces, c)
    ensures ContentKept(fs0, fs2)
    ensures forall k :: k in fs2 && k !in fs0 ==> k in MadeDirs(h0, d, chain + [c], pieces)
  {
    var next, n := chain + [c], |chain|;
    var dir := PrefixDir(h1, d, pieces, n + 1);
    RootPaths(h0, d);
    RootPaths(h1, d);
    assert dir == PrefixDir(h0, d, pieces, n + 1);
    forall k | k in fs2 && k !in fs0 ensures k in MadeDirs(h0, d, next, pieces) {
      if k in fs1 {
        var j :| 0 <= j < n && j < |pieces| && |h0| <= chain[j] && k == Resolve(PrefixDir(h0, d, pieces, j + 1));
        assert next[j] == chain[j];
      } else {
        assert k == Resolve(dir) && next[n] == c;
      }
    }
  }

  /** A path some entry of the original tree has, an entry of the grown tree has too. */
  lemma PathSetGrows(h0: Heap, h1: Heap, d: Ref, path: string)
    requires HeapOk(h0) && HeapOk(h1) && IsRoot(h0, d) && Keeps(h0, h1)
    requires forall q :: 0 <= q < |h0| ==> h0[q].files <= h1[q].files
    requires path in PathSet(h0, Files(h0, d))
    ensures path in PathSet(h1, Files(h1, d))
  {
    var i :| 0 <= i < |Files(h0, d)| && Path(h0, Files(h0, d)[i]) == path;
    var x := Files(h0, d)[i];
    FilesGrow(h0, h1, d, x);
    PathKept(h0, h1, x);
    var k :| 0 <= k < |Files(h1, d)| && Files(h1, d)[k] == x;
  }

  /** `_create_and_add_missing_folders(path, folder)` on root `d`: for each
      prefix of the pieces, make the directory and a new `Folder` when the
      prefix is not among `paths` (below `d` for the first prefix, below the
      previous prefix's entry after that), otherwise take the entry
      `get_folder_by_path` finds; answer the entry for the longest prefix.
      `walk` is `new_folders`.  `None` is a raised exception: `os.mkdir`
      failing, no prefix at all (`new_folders[-1]` of an empty list), or a
      previous prefix's entry that is a `File`.  The walk also stops at an
      empty piece. */
  method CreateMissing(w: World, d: Ref, path: string, folder: bool) returns (r: Option<Ref>, ghost walk: seq<Ref>)
    requires w.Valid() && IsRoot(w.heap, d)
    modifies w
    ensures w.Valid() && w.clock == old(w.clock) && Keeps(old(w.heap), w.heap)
    ensures Pieces(path, folder) == [] ==> r.None? && w.heap == old(w.heap) && w.fs == old(w.fs)
    ensures r.Some? ==> r.value < |w.heap| && w.heap[r.value].parent.Some? && RootFolderPath(w.heap, r.value) == w.heap[d].name
    ensures r.Some? && SlashRoot(old(w.heap), d) ==> Path(w.heap, r.value) == Join(Pieces(path, folder))
    ensures r.Some? ==>
      && |walk| == |Pieces(path, folder)| && r.value == walk[|walk| - 1]
      && Walked(old(w.fs), old(w.heap), w.fs, w.heap, d, walk, Pieces(path, folder))
  {
    var pieces := Pieces(path, folder);
    walk := [];
    if |pieces| == 0 {
      return None, walk;
    }
    ghost var h0, fs0 := w.heap, w.fs;
    var chain: seq<Ref> := [];
    GrownStart(h0, d, pieces);
    WalkedStart(fs0, h0, d, pieces);
    while |chain| < |pieces|
      invariant w.Valid() && w.clock == old(w.clock) && Grown(h0, w.heap, d, chain, pieces)
      invariant Walked(fs0, h0, w.fs, w.heap, d, chain, pieces)
      decreases |pieces| - |chain|
    {
      var ok;
      ok, chain := CreateStep(w, d, pieces, chain, h0, fs0);
      if !ok {
        return None, chain;
      }
    }
    assert pieces[..|chain|] == pieces;
    r, walk := Some(chain[|chain| - 1]), chain;
  }

  /** One turn of the loop of `_create_and_add_missing_folders`: the prefix of
      `|chain| + 1` pieces is found among `paths` (nothing changes) or made
      (`MadeOne`); `false` when an exception is raised. */
  method CreateStep(w: World, d: Ref, pieces: seq<string>, chain: seq<Ref>, ghost h0: Heap, ghost fs0: FileSystem)
    returns (ok: bool, next: seq<Ref>)
    requires w.Valid() && Grown(h0, w.heap, d, chain, pieces) && |chain| < |pieces|
    requires Walked(fs0, h0, w.fs, w.heap, d, chain, pieces)
    modifies w
    ensures w.Valid() && w.clock == old(w.clock) && Keeps(h0, w.heap)
    ensures ok ==> |next| == |chain| + 1 && next[..|chain|] == chain && Grown(h0, w.heap, d, next, pieces)
    ensures ok ==> Walked(fs0, h0, w.fs, w.heap, d, next, pieces)
    ensures ok && Join(pieces[..|chain| + 1]) in PathList(old(w.heap), Files(old(w.heap), d)) ==>
      && w.heap == old(w.heap) && w.fs == old(w.fs) && next[|chain|] in Files(old(w.heap), d)
      && Path(w.heap, next[|chain|]) == Join(pieces[..|chain| + 1])
      && Some(next[|chain|]) == Found(Files(w.heap, d), FirstWithPath(w.heap, Files(w.heap, d), Join(pieces[..|chain| + 1])))
    ensures ok && Join(pieces[..|chain| + 1]) !in PathList(old(w.heap), Files(old(w.heap), d)) ==>
      MadeOne(old(w.fs), old(w.heap), w.fs, w.heap, d, chain, pieces, next[|chain|])
  {
    var dirPath := Join(pieces[..|chain| + 1]);
    var known := w.GetPaths(d, false, false);
    if dirPath !in known {
      ghost var h1, fs1 := w.heap, w.fs;
      var c;
      ok, c := MakeFolder(w, d, pieces, chain, h0);
      next := chain + [c];
      if ok {
        PathListSet(h1, Files(h1, d));
        WalkedMade(fs0, h0, fs1, h1, w.fs, w.heap, d, chain, pieces, c);
      }
    } else {
      var g := GetFolderByPath(w, d, dirPath);
      ghost var xs := Files(w.heap, d);
      PathListedFound(w.heap, xs, dirPath);
      GrownFound(h0, w.heap, d, chain, pieces, FirstWithPath(w.heap, xs, dirPath));
      ok, next := true, chain + [g.value];
      WalkedFound(fs0, h0, w.fs, w.heap, d, chain, pieces, g.value);
    }
  }

  /** A prefix missing from `paths`: `os.mkdir` under the root's path, then a
      new `Folder` named by the prefix's last piece, below `Above`, and listed
      there.  `false` is a raised exception: `os.mkdir` failing (nothing
      changes), or the name or the entry above unfit (after the directory
      was made). */
  method MakeFolder(w: World, d: Ref, pieces: seq<string>, chain: seq<Ref>, ghost h0: Heap)
    returns (ok: bool, c: Ref)
    requires w.Valid() && Grown(h0, w.heap, d, chain, pieces) && |chain| < |pieces|
    modifies w
    ensures w.Valid() && w.clock == old(w.clock) && Keeps(h0, w.heap)
    ensures !MkdirOk(old(w.fs), old(PrefixDir(w.heap, d, pieces, |chain| + 1))) ==>
      !ok && w.fs == old(w.fs) && w.heap == old(w.heap)
    ensures !ok ==> w.heap == old(w.heap)
    ensures ok ==> Grown(h0, w.heap, d, chain + [c], pieces)
    ensures ok ==> MadeOne(old(w.fs), old(w.heap), w.fs, w.heap, d, chain, pieces, c)
  {
    c := |w.heap|;
    var target := RootFolderPath(w.heap, d) + Join(pieces[..|chain| + 1]);
    if !MkdirOk(w.fs, target) {
      return false, c;
    }
    ghost var fs0 := w.fs;
    MkdirKeepsDiskOk(w.fs, target, w.clock);
    w.fs := Mkdir(w.fs, target, w.clock);
    var name := pieces[|chain|];
    var p := if chain == [] then d else chain[|chain| - 1];
    if !IsName(name) || w.heap[p].kind != FolderKind {
      return false, c;
    }
    ghost var h1, fs1 := w.heap, w.fs;
    c := w.NewEntry(FolderKind, name, Some(p));
    ghost var h2, fs2 := w.heap, w.fs;
    if GetXattr(fs1, FullPath(h2, c)).None? {
      assert fs2 == SetXattr(fs1, FullPath(h2, c), h2[c].stored);
    }
    MadeDisk(fs0, fs1, fs2, target, w.clock, FullPath(h2, c), h2[c].stored);
    BuiltUnlisted(h1, h2, fs1, fs2, c, FolderKind, name, Some(p), p);
    w.AddFile(p, c);
    ListingKeeps(h2, p, h2[p].files + [c]);
    BuiltKeeps(h1, h2, fs1, fs2, c, FolderKind, name, Some(p));
    GrownBuilt(h0, h1, h2, w.heap, d, chain, pieces, c, p);
    assert w.heap[..c] == h1[p := h1[p].(files := h1[p].files + [c])];
    ok := true;
  }

  /** `mkdir` followed by the new folder's tag: one new directory, and every
      old path keeps its kind, bytes and time. */
  lemma MadeDisk(fs0: FileSystem, fs1: FileSystem, fs2: FileSystem, target: string, now: int, path: string, t: Tag)
    requires MkdirOk(fs0, target) && fs1 == Mkdir(fs0, target, now) && Stamped(fs1, fs2, path, t)
    ensures fs2.Keys == fs0.Keys + {Resolve(target)} && IsDir(fs2, target) && ContentKept(fs0, fs2)
  {
  }

  // ------------------------------------------------ get_folder_that_contains

  /** The loop of `get_folder_that_contains` stops at entry `x` of `files`:
      a `Folder` that `fl` equals, or whose `path` is `fl`'s `source_no_root`. */
  predicate Holds(fs: FileSystem, h: Heap, x: Ref, fl: Ref)
    requires HeapOk(h) && x < |h| && fl < |h|
  {
    h[x].kind == FolderKind && (Eq(fs, h, fl, x) || Path(h, x) == SourceNoRoot(h, fl))
  }

  /** The position of the first entry of `xs` where that loop stops, or `|xs|`. */
  function FirstHolding(fs: FileSystem, h: Heap, xs: seq<Ref>, fl: Ref): (i: nat)
    requires HeapOk(h) && AllIn(h, xs) && fl < |h|
    ensures i <= |xs|
    ensures i < |xs| ==> xs[i] < |h| && Holds(fs, h, xs[i], fl)
    ensures forall j :: 0 <= j < i ==> !Holds(fs, h, xs[j], fl)
  {
    var tests := seq(|xs|, j requires 0 <= j < |xs| => Holds(fs, h, xs[j], fl));
    assert forall j :: 0 <= j < |xs| ==> tests[j] == Holds(fs, h, xs[j], fl);
    FirstTrueFrom(tests, 0)
  }


  /** What that loop leaves in `parent`: at the first stop, `fl`'s own parent
      when `fl` equals the entry, the entry itself otherwise; `None` when the
      loop runs out. */
  function Listed(fs: FileSystem, h: Heap, xs: seq<Ref>, fl: Ref): (parent: Option<Ref>)
    requires HeapOk(h) && AllIn(h, xs) && fl < |h|
    ensures parent.Some? ==> parent.value < |h|
  {
    var i := FirstHolding(fs, h, xs, fl);
    if i == |xs| then None
    else if Eq(fs, h, fl, xs[i]) then (if h[fl].parent.Some? then ParentOf(h, fl); h[fl].parent else None)
    else Some(xs[i])
  }

  /** A container the loop finds is either `fl`'s own parent, for a `Folder`
      of the list that `fl` equals, or a `Folder` of the list at `fl`'s
      `source_no_root`. */
  lemma ListedMeaning(fs: FileSystem, h: Heap, xs: seq<Ref>, fl: Ref)
    requires HeapOk(h) && AllIn(h, xs) && fl < |h|
    ensures var r := Listed(fs, h, xs, fl);
      r.Some? ==>
        || (r == h[fl].parent && exists i :: 0 <= i < |xs| && h[xs[i]].kind == FolderKind && Eq(fs, h, fl, xs[i]))
        || (r.value in xs && h[r.value].kind == FolderKind && Path(h, r.value) == SourceNoRoot(h, fl))
    ensures Listed(fs, h, xs, fl).None? ==>
      || h[fl].parent.None?
      || forall i :: 0 <= i < |xs| && h[xs[i]].kind == FolderKind ==> Path(h, xs[i]) != SourceNoRoot(h, fl)
  {
    var i := FirstHolding(fs, h, xs, fl);
    if i < |xs| && !Eq(fs, h, fl, xs[i]) {
      assert Path(h, xs[i]) == SourceNoRoot(h, fl);
    }
  }

  /** A stop of the loop at or before the first one is the first one. */
  lemma FirstHoldingAt(fs: FileSystem, h: Heap, xs: seq<Ref>, fl: Ref, i: nat)
    requires HeapOk(h) && AllIn(h, xs) && fl < |h| && i < |xs| && Holds(fs, h, xs[i], fl)
    requires i <= FirstHolding(fs, h, xs, fl)
    ensures FirstHolding(fs, h, xs, fl) == i
  {
  }

  /** The loop of `get_folder_that_contains` over the entries `xs`. */
  method FindContainer(fs: FileSystem, h: Heap, xs: seq<Ref>, fl: Ref) returns (parent: Option<Ref>)
    requires HeapOk(h) && AllIn(h, xs) && fl < |h|
    ensures parent == Listed(fs, h, xs, fl)
  {
    var i := 0;
    while i < |xs|
      invariant 0 <= i <= |xs|
      invariant i <= FirstHolding(fs, h, xs, fl)
    {
      var x := xs[i];
      if h[x].kind == FolderKind {
        if Eq(fs, h, fl, x) {
          FirstHoldingAt(fs, h, xs, fl, i);
          return h[fl].parent;
        } else if Path(h, x) == SourceNoRoot(h, fl) {
          FirstHoldingAt(fs, h, xs, fl, i);
          return Some(x);
        }
      }
      i := i + 1;
    }
    return None;
  }

  /** An entry with a non-empty `source_no_root`, below a root whose name is
      more than "/", sits two levels down at least, and its `path` is its
      `source_no_root`, "/" and its name. */
  lemma DeepWhenSourced(h: Heap, x: Ref)
    requires HeapOk(h) && x < |h| && StripSlash(RootFolderPath(h, x)) != "" && SourceNoRoot(h, x) != ""
    ensures h[x].parent.Some? && h[Parent(h, x)].parent.Some? && IsName(h[x].name)
    ensures Path(h, x) == SourceNoRoot(h, x) + "/" + h[x].name
  {
    if h[x].parent.None? {
      RootPaths(h, x);
    } else {
      ChildPath(h, x);
      assert NamedOk(h, x);
    }
  }

  /** The directory pieces of an entry's `path` join to its `source_no_root`. */
  lemma FileDirPieces(h: Heap, x: Ref)
    requires HeapOk(h) && x < |h| && StripSlash(RootFolderPath(h, x)) != "" && SourceNoRoot(h, x) != ""
    ensures Join(Pieces(Path(h, x), false)) == SourceNoRoot(h, x)
  {
    var a, n := SourceNoRoot(h, x), h[x].name;
    DeepWhenSourced(h, x);
    SplitAround(a, n);
    SplitNoSlash(n);
    assert Pieces(Path(h, x), false) == Split(a);
    JoinSplit(a);
  }

  /** Two strings that end in "/" and a slash-free piece agree before that "/". */
  lemma SameHead(a: string, n: string, b: string, m: string)
    requires '/' !in n && '/' !in m && a + "/" + n == b + "/" + m
    ensures a == b
  {
    SplitAround(a, n);
    SplitAround(b, m);
    SplitNoSlash(n);
    SplitNoSlash(m);
    assert Split(a) == (Split(a) + [n])[..|Split(a)|];
    assert Split(b) == (Split(b) + [m])[..|Split(b)|];
    JoinSplit(a);
    JoinSplit(b);
  }

  /** Below a root ending in "/", the parent of an entry at `a + "/" + m`
      (`m` a single piece) is at `a`. */
  lemma ParentAt(h: Heap, d: Ref, c: Ref, a: string, m: string)
    requires HeapOk(h) && IsRoot(h, d) && SlashRoot(h, d) && c < |h| && h[c].parent.Some?
    requires RootFolderPath(h, c) == h[d].name && '/' !in m && Path(h, c) == a + "/" + m
    ensures Path(h, Parent(h, c)) == a
  {
    ChildPath(h, c);
    assert NamedOk(h, c);
    assert Path(h, c)[|a|] == '/';
    assert h[Parent(h, c)].parent.Some?;
    SameHead(Path(h, Parent(h, c)), h[c].name, a, m);
  }

  /** An entry missing from the root, an entry `fl` of another tree whose
      `source_no_root` is `s` and the entry `c` that
      `_create_and_add_missing_folders(fl.path, fl is a Folder)` answered:
      for a `File`, `c` itself is at `s` and its parent is not; for a
      `Folder`, the parent of `c` is at `s`. */
  lemma CreatedContainer(h0: Heap, h: Heap, d: Ref, fl: Ref, c: Ref)
    requires HeapOk(h0) && HeapOk(h) && Keeps(h0, h) && IsRoot(h0, d) && SlashRoot(h0, d) && fl < |h0|
    requires StripSlash(RootFolderPath(h0, fl)) != "" && SourceNoRoot(h0, fl) != ""
    requires c < |h| && h[c].parent.Some? && RootFolderPath(h, c) == h[d].name
    requires Path(h, c) == Join(Pieces(Path(h0, fl), h0[fl].kind == FolderKind))
    ensures h0[fl].kind == FileKind ==> Path(h, c) == SourceNoRoot(h0, fl) && Path(h, Parent(h, c)) != SourceNoRoot(h0, fl)
    ensures h0[fl].kind == FolderKind ==> Path(h, Parent(h, c)) == SourceNoRoot(h0, fl)
  {
    assert h[d].name == h0[d].name && h[d].parent.None? && h[d].kind == FolderKind;
    if h0[fl].kind == FileKind {
      FileDirPieces(h0, fl);
      ChildPathLonger(h, c);
    } else {
      JoinSplit(Path(h0, fl));
      DeepWhenSourced(h0, fl);
      ParentAt(h, d, c, SourceNoRoot(h0, fl), h0[fl].name);
    }
  }

  /** The case of `get_folder_that_contains` that makes folders: nothing in
      the root's `files` holds `fl`, and `fl` is not directly in its root. */
  ghost predicate Creates(fs: FileSystem, h: Heap, d: Ref, fl: Ref)
  {
    HeapOk(h) && IsRoot(h, d) && fl < |h| && AllIn(h, Files(h, d))
    && Listed(fs, h, Files(h, d), fl).None? && SourceNoRoot(h, fl) != ""
  }

  /** That case, with both roots named as the program is started, ending in "/". */
  ghost predicate SlashCreates(fs: FileSystem, h: Heap, d: Ref, fl: Ref)
  {
    Creates(fs, h, d, fl) && SlashRoot(h, d) && StripSlash(RootFolderPath(h, fl)) != ""
  }

  /** The cases of `get_folder_that_contains` that change nothing: the loop
      found a container, or `fl` sits directly in its root and the answer is
      the root folder. */
  ghost predicate Answered(fs0: FileSystem, h0: Heap, fs1: FileSystem, h1: Heap, d: Ref, fl: Ref, r: Option<Ref>)
  {
    HeapOk(h0) && IsRoot(h0, d) && fl < |h0| && AllIn(h0, Files(h0, d))
    && var found := Listed(fs0, h0, Files(h0, d), fl);
    && (found.Some? ==> r == found && h1 == h0 && fs1 == fs0)
    && (found.None? && SourceNoRoot(h0, fl) == "" ==> r == Some(d) && h1 == h0 && fs1 == fs0)
  }

  /** `get_folder_that_contains(fl)` on root `d`, as written: the loop's
      container; else the root when `fl` is directly in its root; else the
      `parent_folder` of the entry `_create_and_add_missing_folders` answers
      for `fl.path`.  For a `File` that entry is the folder at
      `fl.source_no_root` itself, so the answer lands one level too high:
      below roots ending in "/", its `path` is never `fl.source_no_root`. */
  method GetFolderThatContains(w: World, d: Ref, fl: Ref) returns (r: Option<Ref>)
    requires w.Valid() && IsRoot(w.heap, d) && fl < |w.heap|
    modifies w
    ensures w.Valid() && w.clock == old(w.clock) && Keeps(old(w.heap), w.heap)
    ensures r.Some? ==> r.value < |w.heap|
    ensures Answered(old(w.fs), old(w.heap), w.fs, w.heap, d, fl, r)
    ensures SlashCreates(old(w.fs), old(w.heap), d, fl) && r.Some? ==>
      (old(w.heap)[fl].kind == FileKind <==> Path(w.heap, r.value) != SourceNoRoot(old(w.heap), fl))
  {
    var xs := w.GetFiles(d, [], false);
    assert xs == Files(w.heap, d);
    var parent := FindContainer(w.fs, w.heap, xs, fl);
    if parent.Some? {
      return parent;
    }
    if SourceNoRoot(w.heap, fl) == "" {
      return Some(RootFolder(w.heap, d));
    }
    ghost var h0 := w.heap;
    var c, walk := CreateMissing(w, d, Path(w.heap, fl), w.heap[fl].kind == FolderKind);
    if c.None? {
      return None;
    }
    ParentOf(w.heap, c.value);
    r := w.heap[c.value].parent;
    if SlashRoot(h0, d) && StripSlash(RootFolderPath(h0, fl)) != "" {
      CreatedContainer(h0, w.heap, d, fl, c.value);
    }
  }

  /** `get_folder_that_contains(fl)` as evidently intended: as written, but
      a `File` goes into the entry `_create_and_add_missing_folders` answers
      for its directory, not into that entry's parent.  Below roots ending in
      "/", a container it creates is at `fl.source_no_root` for both kinds. */
  method GetFolderThatContainsFixed(w: World, d: Ref, fl: Ref) returns (r: Option<Ref>)
    requires w.Valid() && IsRoot(w.heap, d) && fl < |w.heap|
    modifies w
    ensures w.Valid() && w.clock == old(w.clock) && Keeps(old(w.heap), w.heap)
    ensures r.Some? ==> r.value < |w.heap|
    ensures Answered(old(w.fs), old(w.heap), w.fs, w.heap, d, fl, r)
    ensures SlashCreates(old(w.fs), old(w.heap), d, fl) && r.Some? ==>
      Path(w.heap, r.value) == SourceNoRoot(old(w.heap), fl)
  {
    var xs := w.GetFiles(d, [], false);
    assert xs == Files(w.heap, d);
    var parent := FindContainer(w.fs, w.heap, xs, fl);
    if parent.Some? {
      return parent;
    }
    if SourceNoRoot(w.heap, fl) == "" {
      return Some(RootFolder(w.heap, d));
    }
    ghost var h0 := w.heap;
    var isFolder := w.heap[fl].kind == FolderKind;
    var c, walk := CreateMissing(w, d, Path(w.heap, fl), isFolder);
    if c.None? {
      return None;
    }
    ParentOf(w.heap, c.value);
    r := if isFolder then w.heap[c.value].parent else c;
    if SlashRoot(h0, d) && StripSlash(RootFolderPath(h0, fl)) != "" {
      CreatedContainer(h0, w.heap, d, fl, c.value);
    }
  }
}
