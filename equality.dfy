/** What `_BaseFile.__eq__` amounts to: an entry without a hash compares by
    `path` alone, every `Folder` is built without one, and so the comparison
    is not symmetric between a folder and a file at the same relative path. */
module Equality {
  import opened Wrappers
  import opened Disk
  import opened Entries
  import opened PathFacts
  import opened HeapFacts

  /** An entry without a hash equals exactly the entries at its `path`. */
  lemma HashlessComparesByPath(fs: FileSystem, h: Heap, a: Ref, b: Ref)
    requires HeapOk(h) && a < |h| && b < |h| && h[a].hash.None?
    ensures Eq(fs, h, a, b) <==> Path(h, a) == Path(h, b)
  {
  }

  /** A folder fresh from its constructor has no hash (the base constructor
      overwrites the `dirhash` value), so it compares by `path` alone. */
  lemma BuiltFolderComparesByPath(h0: Heap, h1: Heap, fs0: FileSystem, fs1: FileSystem, r: Ref, name: string,
                                  parent: Option<Ref>, x: Ref)
    requires Built(h0, h1, fs0, fs1, r, FolderKind, name, parent) && x < |h1|
    ensures h1[r].hash.None?
    ensures Eq(fs1, h1, r, x) <==> Path(h1, r) == Path(h1, x)
  {
  }

  /** Two replicas, `src` holding a folder `a` and `dst` holding a file `a`. */
  function FolderAndFile(): (h: Heap)
    ensures |h| == 4
  {
    [Obj(FolderKind, "src", None, None, "t0", "src", [2], None, None, None),
     Obj(FolderKind, "dst", None, None, "t1", "dst", [3], None, None, None),
     Obj(FolderKind, "a", Some(0), None, "t2", "src/a", [], None, None, None),
     Obj(FileKind, "a", Some(1), Some("h"), "t3", "dst/a", [], None, None, None)]
  }

  /** The two replicas form a proper heap. */
  lemma FolderAndFileOk()
    ensures HeapOk(FolderAndFile())
  {
    var h := FolderAndFile();
    forall r | 0 <= r < |h| ensures ParentOk(h, r) && NamedOk(h, r) && ChildrenOk(h, r) {
      assert r == 0 || r == 1 || r == 2 || r == 3;
    }
  }

  /** Both entries named `a` have the relative path "/a". */
  lemma FolderAndFilePaths()
    ensures HeapOk(FolderAndFile())
    ensures Path(FolderAndFile(), 2) == "/a" && Path(FolderAndFile(), 3) == "/a"
  {
    var h := FolderAndFile();
    FolderAndFileOk();
    assert RootFolderPath(h, 2) == "src" && RootFolderPath(h, 3) == "dst";
    TopChildPath(h, 2);
    TopChildPath(h, 3);
  }

  /** `__eq__` is not symmetric: a folder equals a file at its relative path,
      but the file, which has a hash, does not equal the folder. */
  lemma EqNotSymmetric(fs: FileSystem)
    ensures exists h: Heap, a: Ref, b: Ref ::
      && HeapOk(h) && a < |h| && b < |h|
      && h[a].kind == FolderKind && h[b].kind == FileKind && Eq(fs, h, a, b) && !Eq(fs, h, b, a)
  {
    var h := FolderAndFile();
    FolderAndFilePaths();
    assert Eq(fs, h, 2, 3) && !Eq(fs, h, 3, 2);
  }
}
