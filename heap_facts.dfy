/** The heap changes the program makes — building an object, updating its
    fields, listing a child, replacing the child list — and why each keeps the
    heap invariant and leaves the paths and `files` of other objects alone. */
module HeapFacts {
  import opened Wrappers
  import opened Disk
  import opened Entries
  import opened PathFacts
  import opened TreeFacts

  /** A freshly built object: a proper name, a parent folder built before it, no children yet. */
  ghost predicate Fresh(h: Heap, o: Obj)
  {
    && o.name != [] && o.files == [] && o.oldFiles.None?
    && (o.parent.Some? ==> o.parent.value < |h| && h[o.parent.value].kind == FolderKind && IsName(o.name))
  }

  lemma AppendOk(h: Heap, o: Obj)
    requires HeapOk(h) && Fresh(h, o)
    ensures HeapOk(h + [o])
  {
    var h' := h + [o];
    forall r | 0 <= r < |h'| ensures ParentOk(h', r) && NamedOk(h', r) && ChildrenOk(h', r) {
      if r < |h| {
        assert ParentOk(h, r) && NamedOk(h, r) && ChildrenOk(h, r);
        assert h'[r] == h[r];
        if h[r].oldFiles.Some? {
          assert forall i :: 0 <= i < |h[r].oldFiles.value| ==> h[r].oldFiles.value[i] < |h'|;
        }
      }
    }
  }

  /** Replacing an object by one with the same links and a proper name keeps the invariant. */
  lemma UpdateOk(h: Heap, r: Ref, o: Obj)
    requires HeapOk(h) && r < |h|
    requires o.kind == h[r].kind && o.parent == h[r].parent && o.files == h[r].files && o.oldFiles == h[r].oldFiles
    requires o.name != [] && (o.parent.Some? ==> IsName(o.name))
    ensures HeapOk(h[r := o])
  {
    var h' := h[r := o];
    forall q | 0 <= q < |h'| ensures ParentOk(h', q) && NamedOk(h', q) && ChildrenOk(h', q) {
      assert ParentOk(h, q) && NamedOk(h, q) && ChildrenOk(h, q);
    }
  }

  /** Replacing an object's old-state fields keeps the invariant, given the old list names objects. */
  lemma SetOldOk(h: Heap, r: Ref, o: Obj)
    requires HeapOk(h) && r < |h|
    requires o == h[r].(oldFiles := o.oldFiles, oldHashes := o.oldHashes, oldPaths := o.oldPaths)
    requires o.oldFiles.Some? ==> AllIn(h, o.oldFiles.value)
    ensures HeapOk(h[r := o])
  {
    var h' := h[r := o];
    forall q | 0 <= q < |h'| ensures ParentOk(h', q) && NamedOk(h', q) && ChildrenOk(h', q) {
      assert ParentOk(h, q) && NamedOk(h, q) && ChildrenOk(h, q);
    }
  }

  /** Listing a new child `c` at the end of folder `f` keeps the invariant. */
  lemma AddChildOk(h: Heap, f: Ref, c: Ref)
    requires HeapOk(h) && f < c < |h| && h[f].kind == FolderKind && h[c].parent == Some(f) && c !in h[f].files
    ensures HeapOk(h[f := h[f].(files := h[f].files + [c])])
  {
    var h' := h[f := h[f].(files := h[f].files + [c])];
    forall q | 0 <= q < |h'| ensures ParentOk(h', q) && NamedOk(h', q) && ChildrenOk(h', q) {
      assert ParentOk(h, q) && NamedOk(h, q) && ChildrenOk(h, q);
      if q == f {
        var fs := h[f].files + [c];
        forall i, j | 0 <= i < j < |fs| ensures fs[i] != fs[j] {
          if j == |fs| - 1 {
            assert fs[i] in h[f].files;
          }
        }
      }
    }
  }

  /** Replacing a folder's child list by a sub-list keeps the invariant. */
  lemma ShrinkChildrenOk(h: Heap, f: Ref, cs: seq<Ref>)
    requires HeapOk(h) && f < |h| && NoDup(cs) && forall x :: x in cs ==> x in h[f].files
    ensures HeapOk(h[f := h[f].(files := cs)])
  {
    var h' := h[f := h[f].(files := cs)];
    forall q | 0 <= q < |h'| ensures ParentOk(h', q) && NamedOk(h', q) && ChildrenOk(h', q) {
      assert ParentOk(h, q) && NamedOk(h, q) && ChildrenOk(h, q);
      if q == f {
        if h[f].kind == FileKind {
          SubListOfEmpty(cs, h[f].files);
        }
        forall i | 0 <= i < |cs| ensures f < cs[i] < |h| && h[cs[i]].parent == Some(f) {
          assert cs[i] in h[f].files;
        }
      }
    }
  }

  lemma SubListOfEmpty(cs: seq<Ref>, xs: seq<Ref>)
    requires forall x :: x in cs ==> x in xs
    ensures xs == [] ==> cs == []
  {
    if cs != [] {
      assert cs[0] in cs;
    }
  }

  /** Heaps with the same names, parents and kinds give every object the same paths. */
  lemma SameShapeSamePaths(h1: Heap, h2: Heap)
    requires HeapOk(h1) && HeapOk(h2) && |h1| == |h2|
    requires forall q :: 0 <= q < |h1| ==> h1[q].name == h2[q].name && h1[q].parent == h2[q].parent && h1[q].kind == h2[q].kind
    ensures forall r :: 0 <= r < |h1| ==> FullPath(h1, r) == FullPath(h2, r) && Path(h1, r) == Path(h2, r) && SourceNoRoot(h1, r) == SourceNoRoot(h2, r) && Source(h1, r) == Source(h2, r) && RootFolderPath(h1, r) == RootFolderPath(h2, r)
  {
    forall r | 0 <= r < |h1|
      ensures FullPath(h1, r) == FullPath(h2, r) && Path(h1, r) == Path(h2, r) && SourceNoRoot(h1, r) == SourceNoRoot(h2, r) && Source(h1, r) == Source(h2, r) && RootFolderPath(h1, r) == RootFolderPath(h2, r)
    {
      assert AncestryAgrees(h1, h2, r);
      SourceFramed(h1, h2, r);
      PathsFramed(h1, h2, r);
    }
  }

  /** Heaps with the same kinds and child lists give every folder the same `files`. */
  lemma SameLinksSameFiles(h1: Heap, h2: Heap)
    requires HeapOk(h1) && HeapOk(h2) && |h1| <= |h2|
    requires forall q :: 0 <= q < |h1| ==> h1[q].kind == h2[q].kind && h1[q].files == h2[q].files
    ensures forall f :: 0 <= f < |h1| ==> Files(h1, f) == Files(h2, f)
  {
    forall f | 0 <= f < |h1| ensures Files(h1, f) == Files(h2, f) {
      FilesFrame(h1, h2, f);
    }
  }

  /** `h1` is `h0` with one entry `r` built by a constructor, and `fs1` the disk after it. */
  ghost predicate Built(h0: Heap, h1: Heap, fs0: FileSystem, fs1: FileSystem, r: Ref, kind: Kind, name: string, parent: Option<Ref>)
  {
    && HeapOk(h1) && r == |h0| && |h1| == r + 1 && h1[..r] == h0
    && h1[r].kind == kind && h1[r].name == name && h1[r].parent == parent
    && h1[r].files == [] && h1[r].oldFiles.None? && h1[r].oldHashes.None? && h1[r].oldPaths.None?
    && h1[r].statPath == FullPath(h1, r)
    && Stamped(fs0, fs1, FullPath(h1, r), h1[r].stored)
    && h1[r].hash == if kind == FileKind then HashFile(fs1, FullPath(h1, r)) else None
  }

  lemma BuiltFrom(h: Heap, o: Obj, fs0: FileSystem, fs1: FileSystem, full: string, tag: Tag, hash: Option<Hash>)
    requires HeapOk(h) && Fresh(h, o) && o.oldHashes.None? && o.oldPaths.None? && HeapOk(h + [o])
    requires full == FullPath(h + [o], |h|) && Stamped(fs0, fs1, full, tag)
    requires hash == if o.kind == FileKind then HashFile(fs1, full) else None
    ensures Built(h, h + [o.(hash := hash, stored := tag, statPath := full)], fs0, fs1, |h|, o.kind, o.name, o.parent)
  {
    var final := o.(hash := hash, stored := tag, statPath := full);
    AppendOk(h, o);
    AppendOk(h, final);
    var h0, h1 := h + [o], h + [final];
    assert AncestryAgrees(h0, h1, |h|);
    PathsFramed(h0, h1, |h|);
    assert h1[..|h|] == h;
  }

  /** Keeping the old state and clearing the child list keeps the invariant. */
  lemma ResetOk(h: Heap, f: Ref, xs: seq<Ref>, hs: set<Hash>, ps: set<string>)
    requires HeapOk(h) && f < |h| && AllIn(h, xs)
    ensures HeapOk(h[f := h[f].(files := [], oldFiles := Some(xs), oldHashes := Some(hs), oldPaths := Some(ps))])
  {
    var o := h[f].(oldFiles := Some(xs), oldHashes := Some(hs), oldPaths := Some(ps));
    SetOldOk(h, f, o);
    var h' := h[f := o];
    ShrinkChildrenOk(h', f, []);
    assert h'[f := h'[f].(files := [])] == h[f := h[f].(files := [], oldFiles := Some(xs), oldHashes := Some(hs), oldPaths := Some(ps))];
  }

  /** A constructor leaves the objects before it as they were, so none of them lists the new one. */
  lemma BuiltUnlisted(h0: Heap, h1: Heap, fs0: FileSystem, fs1: FileSystem, r: Ref, kind: Kind, name: string,
                      parent: Option<Ref>, f: Ref)
    requires HeapOk(h0) && Built(h0, h1, fs0, fs1, r, kind, name, parent) && f < |h0|
    ensures h1[f] == h0[f] && r !in h1[f].files
  {
    assert h1[f] == h1[..r][f];
    assert ChildrenOk(h0, f);
  }
}
