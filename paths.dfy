/** What the path properties of `_BaseFile` (`source`, `full_path`,
    `root_folder_path`, `path`, `source_no_root`) amount to: a root's paths,
    one step down the tree, the root name as a prefix, how the OS resolves a
    full path, and which heap changes leave the paths alone. */
module PathFacts {
  import opened Wrappers
  import opened Text
  import opened Disk
  import opened Entries

  /** The root name ends in "/". */
  predicate EndsWithSlash(s: string)
  {
    |s| > 0 && s[|s| - 1] == '/'
  }

  /** A root's full path is its name, its `path`, `source` and `source_no_root` are empty. */
  lemma RootPaths(h: Heap, r: Ref)
    requires HeapOk(h) && r < |h| && h[r].parent.None?
    ensures Source(h, r) == "" && FullPath(h, r) == h[r].name && RootFolderPath(h, r) == h[r].name
    ensures Path(h, r) == "" && SourceNoRoot(h, r) == ""
  {
    var n := h[r].name;
    assert OccursAt(n, n, 0) by {
      assert n[0..|n|] == n;
    }
  }

  /** One step down: the source of an entry is its parent's source, "/" and the
      parent's name without a trailing "/" (just that name below a root). */
  lemma SourceStep(h: Heap, c: Ref)
    requires HeapOk(h) && c < |h| && h[c].parent.Some?
    ensures var p := Parent(h, c);
      Source(h, c) == (if h[p].parent.None? then StripSlash(h[p].name) else Source(h, p) + "/" + StripSlash(h[p].name))
    ensures RootFolderPath(h, c) == RootFolderPath(h, Parent(h, c))
  {
    var p := h[c].parent.value;
    ParentOf(h, c);
    var x := StripSlash(h[p].name);
    assert SourceList(h, c) == [x] + SourceList(h, p);
    assert Reverse(SourceList(h, c)) == Reverse(SourceList(h, p)) + [x];
    if h[p].parent.Some? {
      JoinSnoc(Reverse(SourceList(h, p)), x);
    }
  }

  /** With a root named neither "" nor "/", every entry below it has a
      non-empty source, its full path is that source, "/" and its name, and that
      source is the parent's full path (the root name without its trailing "/"
      for a child of the root). */
  lemma ChildFullPath(h: Heap, c: Ref)
    requires HeapOk(h) && c < |h| && h[c].parent.Some?
    requires StripSlash(RootFolderPath(h, c)) != ""
    ensures var p := Parent(h, c);
      && Source(h, c) != ""
      && FullPath(h, c) == Source(h, c) + "/" + h[c].name
      && Source(h, c) == (if h[p].parent.None? then StripSlash(h[p].name) else FullPath(h, p))
  {
    var p := h[c].parent.value;
    SourceStep(h, c);
    if h[p].parent.None? {
      RootPaths(h, p);
    } else {
      SourceStep(h, p);
      assert NamedOk(h, p);
      assert StripSlash(h[p].name) == h[p].name;
      var pp := h[p].parent.value;
      if h[pp].parent.None? {
        RootPaths(h, pp);
      }
      assert Source(h, p) != "";
    }
  }

  /** `s.find(root)` is 0 when `s` starts with `root`, so the cut leaves `tail`. */
  lemma CutAtPrefix(s: string, root: string, tail: string)
    requires s == root + tail
    ensures Find(s, root) == 0 && SliceFrom(s, Find(s, root) + |root|) == tail
  {
    assert OccursAt(s, root, 0) by {
      assert s[0..|root|] == root;
    }
  }

  /** An entry whose full path is the root name followed by `tail` has `path` `tail`. */
  lemma PathFromPrefix(h: Heap, r: Ref, tail: string)
    requires HeapOk(h) && r < |h| && FullPath(h, r) == RootFolderPath(h, r) + tail
    ensures Path(h, r) == tail && RootCut(h, r) == |RootFolderPath(h, r)|
  {
    CutAtPrefix(FullPath(h, r), RootFolderPath(h, r), tail);
  }

  /** A child of a root `R` has full path `R` + name, or `R` + "/" + name when
      `R` does not end in "/". */
  lemma TopFullPath(h: Heap, c: Ref)
    requires HeapOk(h) && c < |h| && h[c].parent.Some? && h[Parent(h, c)].parent.None?
    requires StripSlash(RootFolderPath(h, c)) != ""
    ensures var R, n := RootFolderPath(h, c), h[c].name;
      FullPath(h, c) == R + (if EndsWithSlash(R) then n else "/" + n)
  {
    var p, R, n := Parent(h, c), RootFolderPath(h, c), h[c].name;
    ChildFullPath(h, c);
    SourceStep(h, c);
    RootPaths(h, p);
    assert FullPath(h, c) == StripSlash(R) + "/" + n;
    if EndsWithSlash(R) {
      assert R == StripSlash(R) + "/";
    } else {
      assert R == StripSlash(R);
    }
  }

  /** A child of a folder `p` below the root has full path `full_path(p)` + "/" + name. */
  lemma DeepFullPath(h: Heap, c: Ref)
    requires HeapOk(h) && c < |h| && h[c].parent.Some? && h[Parent(h, c)].parent.Some?
    requires StripSlash(RootFolderPath(h, c)) != ""
    ensures FullPath(h, c) == FullPath(h, Parent(h, c)) + "/" + h[c].name
    ensures RootFolderPath(h, c) == RootFolderPath(h, Parent(h, c))
  {
    ChildFullPath(h, c);
    SourceStep(h, c);
  }

  /** The prefix property for a child of the root. */
  lemma TopPrefix(h: Heap, r: Ref)
    requires HeapOk(h) && r < |h| && h[r].parent.Some? && h[Parent(h, r)].parent.None?
    requires StripSlash(RootFolderPath(h, r)) != ""
    ensures FullPath(h, r) == RootFolderPath(h, r) + Path(h, r)
    ensures RootCut(h, r) == |RootFolderPath(h, r)|
  {
    var R, n := RootFolderPath(h, r), h[r].name;
    TopFullPath(h, r);
    PathFromPrefix(h, r, if EndsWithSlash(R) then n else "/" + n);
  }

  /** The prefix property one step below an entry that has it. */
  lemma DeepPrefix(h: Heap, r: Ref)
    requires HeapOk(h) && r < |h| && h[r].parent.Some? && h[Parent(h, r)].parent.Some?
    requires StripSlash(RootFolderPath(h, r)) != ""
    requires FullPath(h, Parent(h, r)) == RootFolderPath(h, Parent(h, r)) + Path(h, Parent(h, r))
    ensures FullPath(h, r) == RootFolderPath(h, r) + Path(h, r)
    ensures RootCut(h, r) == |RootFolderPath(h, r)|
  {
    var R, p, n := RootFolderPath(h, r), Parent(h, r), h[r].name;
    DeepFullPath(h, r);
    Regroup(FullPath(h, r), FullPath(h, p), R, Path(h, p), n);
    PathFromPrefix(h, r, Path(h, p) + "/" + n);
  }

  lemma Regroup(s: string, fp: string, root: string, tail: string, n: string)
    requires s == fp + "/" + n && fp == root + tail
    ensures s == root + (tail + "/" + n)
  {
  }

  /** With a root named neither "" nor "/", every full path starts with the
      root name, and `path` is the rest of it. */
  lemma {:induction false} RootPrefix(h: Heap, r: Ref)
    requires HeapOk(h) && r < |h|
    requires StripSlash(RootFolderPath(h, r)) != ""
    ensures FullPath(h, r) == RootFolderPath(h, r) + Path(h, r)
    ensures RootCut(h, r) == |RootFolderPath(h, r)|
    decreases r
  {
    if h[r].parent.None? {
      RootPaths(h, r);
      PathFromPrefix(h, r, "");
    } else if h[Parent(h, r)].parent.None? {
      TopPrefix(h, r);
    } else {
      var p := Parent(h, r);
      SourceStep(h, r);
      RootPrefix(h, p);
      DeepPrefix(h, r);
    }
  }

  lemma SliceAfterPrefix(s: string, root: string, tail: string)
    requires s == root + tail
    ensures SliceFrom(s, |root|) == tail
  {
  }

  /** `path` and `source_no_root` of a child of the root. */
  lemma TopChildPath(h: Heap, c: Ref)
    requires HeapOk(h) && c < |h| && h[c].parent.Some? && h[Parent(h, c)].parent.None?
    requires StripSlash(RootFolderPath(h, c)) != ""
    ensures var R, n := RootFolderPath(h, c), h[c].name;
      SourceNoRoot(h, c) == "" && Path(h, c) == (if EndsWithSlash(R) then n else "/" + n)
  {
    var p, R, n := Parent(h, c), RootFolderPath(h, c), h[c].name;
    TopPrefix(h, c);
    TopFullPath(h, c);
    PathFromPrefix(h, c, if EndsWithSlash(R) then n else "/" + n);
    SourceStep(h, c);
    RootPaths(h, p);
    assert |Source(h, c)| <= |R|;
  }

  /** `path` and `source_no_root` of a child of a folder below the root. */
  lemma DeepChildPath(h: Heap, c: Ref)
    requires HeapOk(h) && c < |h| && h[c].parent.Some? && h[Parent(h, c)].parent.Some?
    requires StripSlash(RootFolderPath(h, c)) != ""
    ensures SourceNoRoot(h, c) == Path(h, Parent(h, c))
    ensures Path(h, c) == Path(h, Parent(h, c)) + "/" + h[c].name
  {
    var p, R, n := Parent(h, c), RootFolderPath(h, c), h[c].name;
    SourceStep(h, c);
    RootPrefix(h, p);
    DeepPrefix(h, c);
    DeepFullPath(h, c);
    Regroup(FullPath(h, c), FullPath(h, p), R, Path(h, p), n);
    PathFromPrefix(h, c, Path(h, p) + "/" + n);
    ChildFullPath(h, c);
    SliceAfterPrefix(Source(h, c), R, Path(h, p));
  }

  /** One step down for `path` and `source_no_root`: a child of the root has an
      empty `source_no_root` and its `path` is its name ("/" and its name when
      the root name does not end in "/"); deeper down, `source_no_root` is the
      parent's `path` and `path` adds "/" and the name to it. */
  lemma ChildPath(h: Heap, c: Ref)
    requires HeapOk(h) && c < |h| && h[c].parent.Some?
    requires StripSlash(RootFolderPath(h, c)) != ""
    ensures var p, R, n := Parent(h, c), RootFolderPath(h, c), h[c].name;
      && SourceNoRoot(h, c) == (if h[p].parent.None? then "" else Path(h, p))
      && Path(h, c) == (if h[p].parent.None? then (if EndsWithSlash(R) then n else "/" + n) else Path(h, p) + "/" + n)
  {
    if h[Parent(h, c)].parent.None? {
      TopChildPath(h, c);
    } else {
      DeepChildPath(h, c);
    }
  }

  /** A child's `path` is never empty, and is longer than its parent's. */
  lemma ChildPathLonger(h: Heap, c: Ref)
    requires HeapOk(h) && c < |h| && h[c].parent.Some?
    requires StripSlash(RootFolderPath(h, c)) != ""
    ensures |Path(h, c)| > |Path(h, Parent(h, c))|
  {
    ChildPath(h, c);
    var p := h[c].parent.value;
    assert NamedOk(h, c);
    if h[p].parent.None? {
      RootPaths(h, p);
    }
  }

  lemma ResolveEmpty()
    ensures Resolve("") == []
  {
    assert Split("") == [""];
  }

  /** Resolving "source/name" (just "name" for an empty source) adds the name. */
  lemma ResolveAppendName(s: string, n: string)
    requires IsName(n)
    ensures Resolve(if s == "" then n else s + "/" + n) == Resolve(s) + [n]
  {
    ResolveName(n);
    if s == "" {
      ResolveEmpty();
    } else {
      ResolveAround(s, n);
    }
  }

  /** The OS reads a child's full path as its parent's full path plus its name,
      whatever the root is called. */
  lemma ResolveFullPath(h: Heap, c: Ref)
    requires HeapOk(h) && c < |h| && h[c].parent.Some?
    ensures Resolve(FullPath(h, c)) == Resolve(FullPath(h, Parent(h, c))) + [h[c].name]
  {
    var p := h[c].parent.value;
    SourceStep(h, c);
    ResolveStripSlash(h[p].name);
    if h[p].parent.None? {
      RootPaths(h, p);
    } else {
      assert NamedOk(h, p);
      ResolveAround(Source(h, p), StripSlash(h[p].name));
      ResolveAppendName(Source(h, p), h[p].name);
    }
    assert Resolve(Source(h, c)) == Resolve(FullPath(h, p));
    assert NamedOk(h, c);
    ResolveAppendName(Source(h, c), h[c].name);
  }

  // ------------------------------------------------------------- framing

  /** Two heaps agree on the chain above `r`: the same parents, and the same
      names for roots and folders (a file's name is never part of another
      entry's path). */
  ghost predicate AncestryAgrees(h1: Heap, h2: Heap, r: Ref)
  {
    && r < |h1| && r < |h2|
    && forall q :: 0 <= q <= r ==>
         && h1[q].parent == h2[q].parent
         && h1[q].kind == h2[q].kind
         && (h1[q].kind == FolderKind || h1[q].parent.None? ==> h1[q].name == h2[q].name)
  }

  /** Heaps that agree on the chain above `r` give `r` the same source, root and root name. */
  lemma {:induction false} SourceFramed(h1: Heap, h2: Heap, r: Ref)
    requires HeapOk(h1) && HeapOk(h2) && AncestryAgrees(h1, h2, r)
    ensures SourceList(h1, r) == SourceList(h2, r) && Source(h1, r) == Source(h2, r)
    ensures RootFolderPath(h1, r) == RootFolderPath(h2, r) && RootFolder(h1, r) == RootFolder(h2, r)
    decreases r
  {
    if h1[r].parent.Some? {
      var p := h1[r].parent.value;
      ParentOf(h1, r);
      SourceFramed(h1, h2, p);
    }
  }

  /** ... and, when `r` keeps its name too, the same full path, `path` and `source_no_root`. */
  lemma PathsFramed(h1: Heap, h2: Heap, r: Ref)
    requires HeapOk(h1) && HeapOk(h2) && AncestryAgrees(h1, h2, r) && h1[r].name == h2[r].name
    ensures FullPath(h1, r) == FullPath(h2, r) && Path(h1, r) == Path(h2, r)
    ensures SourceNoRoot(h1, r) == SourceNoRoot(h2, r) && RootCut(h1, r) == RootCut(h2, r)
  {
    SourceFramed(h1, h2, r);
  }

  /** Appending objects to the heap leaves the paths of the old ones alone. */
  lemma AppendKeepsPaths(h1: Heap, h2: Heap, r: Ref)
    requires HeapOk(h1) && HeapOk(h2) && |h1| <= |h2| && h2[..|h1|] == h1 && r < |h1|
    ensures FullPath(h1, r) == FullPath(h2, r) && Path(h1, r) == Path(h2, r)
    ensures SourceNoRoot(h1, r) == SourceNoRoot(h2, r) && Source(h1, r) == Source(h2, r)
    ensures RootFolderPath(h1, r) == RootFolderPath(h2, r) && RootFolder(h1, r) == RootFolder(h2, r)
  {
    assert forall q :: 0 <= q < |h1| ==> h2[..|h1|][q] == h2[q];
    assert AncestryAgrees(h1, h2, r);
    SourceFramed(h1, h2, r);
    PathsFramed(h1, h2, r);
  }
}
