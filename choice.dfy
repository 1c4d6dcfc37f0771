/** The decisions `init_equilibrium` takes without touching anything: the
    order it visits the source entries in, and which of its four branches an
    entry falls into, judged against the children of its destination folder. */
module Choice {
  import opened Disk
  import opened Entries

  // ------------------------------------------------------------ visit order

  /** The entries of `xs` of kind `k`, in their order in `xs`. */
  function OfKind(h: Heap, xs: seq<Ref>, k: Kind): (r: seq<Ref>)
    requires AllIn(h, xs)
    ensures forall i :: 0 <= i < |r| ==> r[i] < |h| && h[r[i]].kind == k
    decreases |xs|
  {
    if xs == [] then []
    else (if h[xs[0]].kind == k then [xs[0]] else []) + OfKind(h, xs[1..], k)
  }

  /** `sorted(source.files, key=lambda x: str(type(x)), reverse=True)`: the
      key of a `Folder` is the larger of the two class names, and Python's
      sort is stable also when reversed, so the folders come first and the
      files after them, each kind in its original order. */
  function FoldersFirst(h: Heap, xs: seq<Ref>): seq<Ref>
    requires AllIn(h, xs)
  {
    OfKind(h, xs, FolderKind) + OfKind(h, xs, FileKind)
  }

  lemma OfKindCons(h: Heap, x: Ref, xs: seq<Ref>, k: Kind)
    requires x < |h| && AllIn(h, xs)
    ensures OfKind(h, [x] + xs, k) == (if h[x].kind == k then [x] else []) + OfKind(h, xs, k)
  {
    assert ([x] + xs)[1..] == xs;
  }

  lemma {:induction false} OfKindSplit(h: Heap, xs: seq<Ref>)
    requires AllIn(h, xs)
    ensures multiset(OfKind(h, xs, FolderKind)) + multiset(OfKind(h, xs, FileKind)) == multiset(xs)
    decreases |xs|
  {
    if xs != [] {
      var x, rest := xs[0], xs[1..];
      assert xs == [x] + rest;
      OfKindCons(h, x, rest, FolderKind);
      OfKindCons(h, x, rest, FileKind);
      OfKindSplit(h, rest);
      var folders, files := OfKind(h, rest, FolderKind), OfKind(h, rest, FileKind);
      assert multiset(xs) == multiset{x} + multiset(rest);
      if h[x].kind == FolderKind {
        assert multiset([x] + folders) == multiset{x} + multiset(folders);
      } else {
        assert multiset([x] + files) == multiset{x} + multiset(files);
      }
    }
  }

  lemma {:induction false} OfKindAppend(h: Heap, a: seq<Ref>, b: seq<Ref>, k: Kind)
    requires AllIn(h, a) && AllIn(h, b)
    ensures OfKind(h, a + b, k) == OfKind(h, a, k) + OfKind(h, b, k)
    decreases |a|
  {
    if a != [] {
      var x, rest := a[0], a[1..];
      assert a + b == [x] + (rest + b);
      OfKindCons(h, x, rest + b, k);
      OfKindAppend(h, rest, b, k);
    } else {
      assert a + b == b;
    }
  }

  /** Keeping one kind twice, or keeping a kind among entries of another, is
      what one would expect. */
  lemma {:induction false} OfKindOfKind(h: Heap, xs: seq<Ref>, k: Kind, j: Kind)
    requires AllIn(h, xs)
    ensures OfKind(h, OfKind(h, xs, j), k) == if k == j then OfKind(h, xs, j) else []
    decreases |xs|
  {
    if xs != [] {
      var x, rest := xs[0], xs[1..];
      OfKindOfKind(h, rest, k, j);
      if h[x].kind == j {
        var tail := OfKind(h, rest, j);
        assert OfKind(h, xs, j) == [x] + tail;
        OfKindCons(h, x, tail, k);
      } else {
        assert OfKind(h, xs, j) == OfKind(h, rest, j);
      }
    }
  }

  /** The visit order is a permutation of the source entries. */
  lemma FoldersFirstPermutes(h: Heap, xs: seq<Ref>)
    requires AllIn(h, xs)
    ensures multiset(FoldersFirst(h, xs)) == multiset(xs)
  {
    OfKindSplit(h, xs);
  }

  /** In the visit order no file comes before a folder. */
  lemma FoldersFirstOrdered(h: Heap, xs: seq<Ref>)
    requires AllIn(h, xs)
    ensures var r := FoldersFirst(h, xs);
      forall i, j :: 0 <= i < j < |r| && h[r[i]].kind == FileKind ==> h[r[j]].kind == FileKind
  {
    var a, b := OfKind(h, xs, FolderKind), OfKind(h, xs, FileKind);
    var r := a + b;
    forall i, j | 0 <= i < j < |r| && h[r[i]].kind == FileKind ensures h[r[j]].kind == FileKind {
      assert r[j] == b[j - |a|];
    }
  }

  /** The visit order keeps the entries of each kind in their original order. */
  lemma FoldersFirstStable(h: Heap, xs: seq<Ref>, k: Kind)
    requires AllIn(h, xs)
    ensures OfKind(h, FoldersFirst(h, xs), k) == OfKind(h, xs, k)
  {
    var a, b := OfKind(h, xs, FolderKind), OfKind(h, xs, FileKind);
    OfKindAppend(h, a, b, k);
    OfKindOfKind(h, xs, k, FolderKind);
    OfKindOfKind(h, xs, k, FileKind);
  }

  // ----------------------------------------------------------- the branches

  /** What the destination folder's children already hold of entry `fl`:
      its path (`core_paths`), its hash (`core_hashes`), its tag
      (`core_metadatas`) and its name (`core_file_names`). */
  datatype Seen = Seen(path: bool, hash: bool, tag: bool, name: bool)

  /** The four membership tests of `init_equilibrium` against folder `d`. */
  function Survey(fs: FileSystem, h: Heap, fl: Ref, d: Ref): Seen
    requires HeapOk(h) && fl < |h| && d < |h|
  {
    var cs := CoreFiles(h, d);
    Seen(Path(h, fl) in PathSet(h, cs),
         h[fl].hash.Some? && h[fl].hash.value in Hashes(h, cs),
         Metadata(fs, h, fl) in MetadataList(fs, h, cs),
         h[fl].name in NameList(h, cs))
  }

  /** What each test finds among the children: a child with the entry's path,
      one with its hash (a missing hash is never among `core_hashes`, which
      holds only real ones), one with its tag, one with its name. */
  lemma SurveyMeaning(fs: FileSystem, h: Heap, fl: Ref, d: Ref)
    requires HeapOk(h) && fl < |h| && d < |h|
    ensures var s, cs := Survey(fs, h, fl, d), CoreFiles(h, d);
      && (s.path <==> exists i :: 0 <= i < |cs| && Path(h, cs[i]) == Path(h, fl))
      && (s.hash <==> h[fl].hash.Some? && exists i :: 0 <= i < |cs| && h[cs[i]].hash == h[fl].hash)
      && (s.tag <==> exists i :: 0 <= i < |cs| && Metadata(fs, h, cs[i]) == Metadata(fs, h, fl))
      && (s.name <==> exists i :: 0 <= i < |cs| && h[cs[i]].name == h[fl].name)
  {
    var cs := CoreFiles(h, d);
    ListedIn(MetadataList(fs, h, cs), Metadata(fs, h, fl));
    ListedIn(NameList(h, cs), h[fl].name);
  }

  /** Membership in a list is having a position in it. */
  lemma ListedIn<T>(xs: seq<T>, x: T)
    ensures x in xs <==> exists i :: 0 <= i < |xs| && xs[i] == x
  {
  }

  /** The branch `init_equilibrium` takes for an entry absent from the
      destination: give the destination file the source tag, rename the older
      of two files with the same hash, overwrite the older of two files at the
      same path, copy the entry over, or do nothing. */
  datatype Branch = AdoptTag | RenameOlder | Overwrite | CopyNew | Pass

  /** The `if`/`elif` chain: the first test that holds decides. */
  function Pick(s: Seen): Branch
  {
    if s.path && s.hash && !s.tag then AdoptTag
    else if s.hash && !s.name then RenameOlder
    else if !s.hash && s.path then Overwrite
    else if !s.hash && !s.name then CopyNew
    else Pass
  }

  /** Each branch is taken exactly when its own test holds and no earlier one does. */
  lemma PickFirstMatch(s: Seen)
    ensures var adopt, rename := s.path && s.hash && !s.tag, s.hash && !s.name;
      var overwrite, copy := !s.hash && s.path, !s.hash && !s.name;
      && (Pick(s) == AdoptTag <==> adopt)
      && (Pick(s) == RenameOlder <==> !adopt && rename)
      && (Pick(s) == Overwrite <==> !adopt && !rename && overwrite)
      && (Pick(s) == CopyNew <==> !adopt && !rename && !overwrite && copy)
      && (Pick(s) == Pass <==> !adopt && !rename && !overwrite && !copy)
  {
  }

  /** Nothing is done exactly when some child already carries the entry's
      name and, if some child carries its path, children carry its hash and
      its tag too. */
  lemma PickPass(s: Seen)
    ensures Pick(s) == Pass <==> s.name && (s.path ==> s.hash && s.tag)
  {
  }

  /** An entry without a hash — every folder — is never given a tag nor
      renamed: it is overwritten when its path is taken, copied when neither
      its path nor its name is, and otherwise left alone. */
  lemma PickHashless(fs: FileSystem, h: Heap, fl: Ref, d: Ref)
    requires HeapOk(h) && fl < |h| && d < |h| && h[fl].hash.None?
    ensures var s := Survey(fs, h, fl, d);
      && (Pick(s) == Overwrite <==> s.path)
      && (Pick(s) == CopyNew <==> !s.path && !s.name)
      && (Pick(s) == Pass <==> !s.path && s.name)
  {
  }
}
