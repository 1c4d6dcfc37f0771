/** What `Folder._get_files` (the `files` property) produces: every entry below
    the folder exactly once, the contents of each sub-folder right before the
    sub-folder itself, the folder's own children in insertion order; and the
    entries it reaches, described without the list. */
module TreeFacts {
  import opened Wrappers
  import opened Disk
  import opened Entries

  /** `x` is `a` or lies below `a` along the parent chain. */
  ghost predicate AtOrUnder(h: Heap, a: Ref, x: Ref)
    requires HeapOk(h) && x < |h|
    decreases x
  {
    x == a || (h[x].parent.Some? && AtOrUnder(h, a, Parent(h, x)))
  }

  /** `x` lies strictly below `a`. */
  ghost predicate Below(h: Heap, a: Ref, x: Ref)
    requires HeapOk(h) && x < |h|
  {
    h[x].parent.Some? && AtOrUnder(h, a, Parent(h, x))
  }

  lemma {:induction false} AtOrUnderLe(h: Heap, a: Ref, x: Ref)
    requires HeapOk(h) && x < |h| && AtOrUnder(h, a, x)
    ensures a <= x
    decreases x
  {
    if x != a {
      AtOrUnderLe(h, a, Parent(h, x));
    }
  }

  lemma {:induction false} AtOrUnderTrans(h: Heap, a: Ref, c: Ref, x: Ref)
    requires HeapOk(h) && c < |h| && x < |h| && AtOrUnder(h, a, c) && AtOrUnder(h, c, x)
    ensures AtOrUnder(h, a, x)
    decreases x
  {
    if x != c {
      AtOrUnderTrans(h, a, c, Parent(h, x));
    }
  }

  /** `root_folder` climbs the parent chain: what it returns lies above the
      entry, and it is the only object without a parent that does. */
  lemma {:induction false} RootFolderAbove(h: Heap, r: Ref)
    requires HeapOk(h) && r < |h|
    ensures AtOrUnder(h, RootFolder(h, r), r)
    ensures forall a :: 0 <= a < |h| && h[a].parent.None? && AtOrUnder(h, a, r) ==> a == RootFolder(h, r)
    decreases r
  {
    if h[r].parent.Some? {
      var p := Parent(h, r);
      ParentOf(h, r);
      RootFolderAbove(h, p);
      forall a | 0 <= a < |h| && h[a].parent.None? && AtOrUnder(h, a, r) ensures a == RootFolder(h, r) {
        assert a != r && AtOrUnder(h, a, p);
      }
    }
  }

  /** Two different entries with the same parent have nothing below them in common. */
  lemma {:induction false} SiblingsDisjoint(h: Heap, a: Ref, b: Ref, x: Ref)
    requires HeapOk(h) && a < |h| && b < |h| && x < |h| && a != b
    requires h[a].parent.Some? && h[a].parent == h[b].parent
    ensures !(AtOrUnder(h, a, x) && AtOrUnder(h, b, x))
    decreases x
  {
    if x == a {
      if AtOrUnder(h, b, a) {
        assert Parent(h, a) == Parent(h, b);
        AtOrUnderLe(h, b, Parent(h, a));
      }
    } else if x == b {
      if AtOrUnder(h, a, b) {
        assert Parent(h, a) == Parent(h, b);
        AtOrUnderLe(h, a, Parent(h, b));
      }
    } else if h[x].parent.Some? {
      SiblingsDisjoint(h, a, b, Parent(h, x));
    }
  }

  /** The children of `f` listed in `cs`. */
  ghost predicate ChildRun(h: Heap, f: Ref, cs: seq<Ref>)
    requires HeapOk(h) && f < |h|
  {
    forall i :: 0 <= i < |cs| ==> f < cs[i] < |h| && h[cs[i]].parent == Some(f)
  }

  /** What one child `c` contributes to the flattened list. */
  function Block(h: Heap, c: Ref): (b: seq<Ref>)
    requires HeapOk(h) && c < |h|
    ensures |b| >= 1 && b[|b| - 1] == c
  {
    (if h[c].kind == FolderKind then Files(h, c) else []) + [c]
  }

  lemma CollectCons(h: Heap, f: Ref, cs: seq<Ref>)
    requires HeapOk(h) && f < |h| && cs != [] && forall i :: 0 <= i < |cs| ==> f < cs[i] < |h|
    ensures Collect(h, f, cs) == Block(h, cs[0]) + Collect(h, f, cs[1..])
  {
  }

  lemma AppendAssoc<T>(a: seq<T>, b: seq<T>, c: seq<T>)
    ensures a + (b + c) == (a + b) + c
  {
  }

  /** Flattening one more child adds that child's block at the end. */
  lemma {:induction false} CollectSnoc(h: Heap, f: Ref, cs: seq<Ref>, c: Ref)
    requires HeapOk(h) && f < |h| && f < c < |h| && forall i :: 0 <= i < |cs| ==> f < cs[i] < |h|
    ensures Collect(h, f, cs + [c]) == Collect(h, f, cs) + Block(h, c)
    decreases |cs|
  {
    if cs == [] {
      assert cs + [c] == [c];
    } else {
      assert (cs + [c])[1..] == cs[1..] + [c];
      CollectSnoc(h, f, cs[1..], c);
      AppendAssoc(Block(h, cs[0]), Collect(h, f, cs[1..]), Block(h, c));
    }
  }

  // ---------------------------------------------------- everything is below

  /** Every entry of `files` lies strictly below the folder. */
  lemma {:induction false} FilesBelow(h: Heap, f: Ref)
    requires HeapOk(h) && f < |h|
    ensures forall i :: 0 <= i < |Files(h, f)| ==> Below(h, f, Files(h, f)[i])
    decreases |h| - f, 1, 0
  {
    assert ChildrenOk(h, f);
    CollectBelow(h, f, h[f].files);
  }

  lemma {:induction false} CollectBelow(h: Heap, f: Ref, cs: seq<Ref>)
    requires HeapOk(h) && f < |h| && ChildRun(h, f, cs)
    ensures forall i :: 0 <= i < |Collect(h, f, cs)| ==> Below(h, f, Collect(h, f, cs)[i])
    decreases |h| - f, 0, |cs|
  {
    if cs != [] {
      var c := cs[0];
      CollectCons(h, f, cs);
      CollectBelow(h, f, cs[1..]);
      assert Below(h, f, c);
      if h[c].kind == FolderKind {
        FilesBelow(h, c);
        forall x | x in Files(h, c) ensures Below(h, f, x) {
          AtOrUnderTrans(h, f, c, Parent(h, x));
        }
      }
      var b, rest := Block(h, c), Collect(h, f, cs[1..]);
      forall i | 0 <= i < |b + rest| ensures Below(h, f, (b + rest)[i]) {
        if i >= |b| {
          assert (b + rest)[i] == rest[i - |b|];
        }
      }
    }
  }

  /** Everything in one child's block is that child or below it. */
  lemma BlockUnder(h: Heap, c: Ref, x: Ref)
    requires HeapOk(h) && c < |h| && x in Block(h, c)
    ensures x < |h| && AtOrUnder(h, c, x)
  {
    if x != c {
      FilesBelow(h, c);
      var i :| 0 <= i < |Files(h, c)| && Files(h, c)[i] == x;
    }
  }

  /** Everything in the flattening of a run of children is at or below one of them. */
  lemma {:induction false} CollectWithin(h: Heap, f: Ref, cs: seq<Ref>, x: Ref)
    requires HeapOk(h) && f < |h| && ChildRun(h, f, cs) && x in Collect(h, f, cs)
    ensures x < |h| && exists j :: 0 <= j < |cs| && AtOrUnder(h, cs[j], x)
    decreases |cs|
  {
    CollectCons(h, f, cs);
    if x in Block(h, cs[0]) {
      BlockUnder(h, cs[0], x);
    } else {
      CollectWithin(h, f, cs[1..], x);
      var j :| 0 <= j < |cs[1..]| && AtOrUnder(h, cs[1..][j], x);
      assert cs[1..][j] == cs[j + 1];
    }
  }

  // ------------------------------------------------------------ each once

  lemma NoDupConcat(a: seq<Ref>, b: seq<Ref>)
    requires NoDup(a) && NoDup(b) && forall x :: x in a ==> x !in b
    ensures NoDup(a + b)
  {
    forall i, j | 0 <= i < j < |a + b| ensures (a + b)[i] != (a + b)[j] {
      if i < |a| && j >= |a| {
        assert (a + b)[i] in a && (a + b)[j] in b;
      }
    }
  }

  /** `files` lists each entry once. */
  lemma {:induction false} FilesNoDup(h: Heap, f: Ref)
    requires HeapOk(h) && f < |h|
    ensures NoDup(Files(h, f))
    decreases |h| - f, 1, 0
  {
    assert ChildrenOk(h, f);
    CollectNoDup(h, f, h[f].files);
  }

  lemma {:induction false} CollectNoDup(h: Heap, f: Ref, cs: seq<Ref>)
    requires HeapOk(h) && f < |h| && ChildRun(h, f, cs) && NoDup(cs)
    ensures NoDup(Collect(h, f, cs))
    decreases |h| - f, 0, |cs|
  {
    if cs != [] {
      var c := cs[0];
      CollectCons(h, f, cs);
      assert NoDup(cs[1..]);
      CollectNoDup(h, f, cs[1..]);
      var rest := Collect(h, f, cs[1..]);
      if h[c].kind == FolderKind {
        FilesNoDup(h, c);
        assert c !in Files(h, c);
        NoDupConcat(Files(h, c), [c]);
      }
      forall x | x in Block(h, c) ensures x !in rest {
        BlockUnder(h, c, x);
        if x in rest {
          CollectWithin(h, f, cs[1..], x);
          var j :| 0 <= j < |cs[1..]| && AtOrUnder(h, cs[1..][j], x);
          assert cs[1..][j] == cs[j + 1] && cs[j + 1] != c;
          SiblingsDisjoint(h, c, cs[j + 1], x);
        }
      }
      NoDupConcat(Block(h, c), rest);
    }
  }

  // ------------------------------------------------------------ post-order

  /** A sub-folder's own `files` sit right before it in the folder's `files`. */
  ghost predicate ContentsBefore(h: Heap, xs: seq<Ref>)
    requires HeapOk(h) && AllIn(h, xs)
  {
    forall i :: 0 <= i < |xs| && h[xs[i]].kind == FolderKind ==>
      |Files(h, xs[i])| <= i && xs[i - |Files(h, xs[i])|..i] == Files(h, xs[i])
  }

  lemma SliceRight(a: seq<Ref>, b: seq<Ref>, k: int, m: int)
    requires 0 <= m <= k < |b|
    ensures (a + b)[|a| + k - m..|a| + k] == b[k - m..k] && (a + b)[|a| + k] == b[k]
  {
  }

  lemma SliceLeft(a: seq<Ref>, b: seq<Ref>, k: int, m: int)
    requires 0 <= m <= k < |a|
    ensures (a + b)[k - m..k] == a[k - m..k] && (a + b)[k] == a[k]
  {
  }

  lemma ContentsAt(h: Heap, xs: seq<Ref>, k: int)
    requires HeapOk(h) && AllIn(h, xs) && ContentsBefore(h, xs) && 0 <= k < |xs| && h[xs[k]].kind == FolderKind
    ensures |Files(h, xs[k])| <= k && xs[k - |Files(h, xs[k])|..k] == Files(h, xs[k])
  {
  }

  lemma ContentsBeforeConcat(h: Heap, a: seq<Ref>, b: seq<Ref>)
    requires HeapOk(h) && AllIn(h, a) && AllIn(h, b) && ContentsBefore(h, a) && ContentsBefore(h, b)
    ensures AllIn(h, a + b) && ContentsBefore(h, a + b)
  {
    var s := a + b;
    forall i | 0 <= i < |s| && h[s[i]].kind == FolderKind
      ensures |Files(h, s[i])| <= i && s[i - |Files(h, s[i])|..i] == Files(h, s[i])
    {
      if i >= |a| {
        var k := i - |a|;
        assert s[i] == b[k];
        ContentsAt(h, b, k);
        SliceRight(a, b, k, |Files(h, b[k])|);
      } else {
        assert s[i] == a[i];
        ContentsAt(h, a, i);
        SliceLeft(a, b, i, |Files(h, a[i])|);
      }
    }
  }

  /** In `files`, every sub-folder comes right after its own contents (post-order). */
  lemma {:induction false} FilesPostOrder(h: Heap, f: Ref)
    requires HeapOk(h) && f < |h|
    ensures ContentsBefore(h, Files(h, f))
    decreases |h| - f, 1, 0
  {
    assert ChildrenOk(h, f);
    CollectPostOrder(h, f, h[f].files);
  }

  lemma {:induction false} CollectPostOrder(h: Heap, f: Ref, cs: seq<Ref>)
    requires HeapOk(h) && f < |h| && ChildRun(h, f, cs)
    ensures ContentsBefore(h, Collect(h, f, cs))
    decreases |h| - f, 0, |cs|
  {
    if cs != [] {
      var c := cs[0];
      CollectCons(h, f, cs);
      CollectPostOrder(h, f, cs[1..]);
      var b := Block(h, c);
      BlockPostOrder(h, c);
      ContentsBeforeConcat(h, b, Collect(h, f, cs[1..]));
    }
  }

  /** A child's block, its own `files` and then itself, is in post-order. */
  lemma {:induction false} BlockPostOrder(h: Heap, c: Ref)
    requires HeapOk(h) && c < |h|
    ensures ContentsBefore(h, Block(h, c))
    decreases |h| - c, 2, 0
  {
    var b := Block(h, c);
    if h[c].kind == FolderKind {
      FilesPostOrder(h, c);
      var fc := Files(h, c);
      var i := |fc|;
      assert b[i] == c && b[..i] == fc;
      forall k | 0 <= k < |b| && h[b[k]].kind == FolderKind
        ensures |Files(h, b[k])| <= k && b[k - |Files(h, b[k])|..k] == Files(h, b[k])
      {
        if k == i {
          assert b[k - |fc|..k] == fc;
        } else {
          assert k < |fc| && b[k] == fc[k];
          var m := |Files(h, fc[k])|;
          assert b[k - m..k] == fc[k - m..k];
        }
      }
    } else {
      assert b == [c];
    }
  }


  // ------------------------------------------------------ direct children

  /** The entries of `xs` whose parent is `f`, in order. */
  function DirectOnly(h: Heap, f: Ref, xs: seq<Ref>): (r: seq<Ref>)
    requires AllIn(h, xs)
    ensures |r| <= |xs|
  {
    if xs == [] then []
    else (if h[xs[0]].parent == Some(f) then [xs[0]] else []) + DirectOnly(h, f, xs[1..])
  }

  lemma {:induction false} DirectOnlyConcat(h: Heap, f: Ref, a: seq<Ref>, b: seq<Ref>)
    requires AllIn(h, a) && AllIn(h, b)
    ensures DirectOnly(h, f, a + b) == DirectOnly(h, f, a) + DirectOnly(h, f, b)
    decreases |a|
  {
    if a == [] {
      assert a + b == b;
    } else {
      var ab := a + b;
      assert ab[0] == a[0] && ab[1..] == a[1..] + b;
      DirectOnlyConcat(h, f, a[1..], b);
      var hd := if h[a[0]].parent == Some(f) then [a[0]] else [];
      assert DirectOnly(h, f, ab) == hd + DirectOnly(h, f, ab[1..]);
      assert DirectOnly(h, f, a) == hd + DirectOnly(h, f, a[1..]);
      assert hd + (DirectOnly(h, f, a[1..]) + DirectOnly(h, f, b)) == (hd + DirectOnly(h, f, a[1..])) + DirectOnly(h, f, b);
    }
  }

  lemma {:induction false} DirectOnlyNone(h: Heap, f: Ref, xs: seq<Ref>)
    requires AllIn(h, xs) && forall i :: 0 <= i < |xs| ==> h[xs[i]].parent != Some(f)
    ensures DirectOnly(h, f, xs) == []
    decreases |xs|
  {
    if xs != [] {
      DirectOnlyNone(h, f, xs[1..]);
    }
  }

  /** `core_files` is exactly the entries of `files` whose parent is the folder,
      in the same order: the direct children, in the order they were added. */
  lemma FilesDirect(h: Heap, f: Ref)
    requires HeapOk(h) && f < |h|
    ensures DirectOnly(h, f, Files(h, f)) == CoreFiles(h, f)
  {
    assert ChildrenOk(h, f);
    CollectDirect(h, f, h[f].files);
  }

  lemma {:induction false} CollectDirect(h: Heap, f: Ref, cs: seq<Ref>)
    requires HeapOk(h) && f < |h| && ChildRun(h, f, cs)
    ensures DirectOnly(h, f, Collect(h, f, cs)) == cs
    decreases |cs|
  {
    if cs != [] {
      var c := cs[0];
      CollectCons(h, f, cs);
      CollectDirect(h, f, cs[1..]);
      assert DirectOnly(h, f, [c]) == [c];
      BlockDirect(h, f, c);
      DirectOnlyConcat(h, f, Block(h, c), Collect(h, f, cs[1..]));
      assert cs == [c] + cs[1..];
    }
  }

  /** A child's block holds one direct child of `f`: the child itself. */
  lemma BlockDirect(h: Heap, f: Ref, c: Ref)
    requires HeapOk(h) && f < c < |h| && h[c].parent == Some(f)
    ensures DirectOnly(h, f, Block(h, c)) == [c]
  {
    assert DirectOnly(h, f, [c]) == [c];
    if h[c].kind == FolderKind {
      var fc := Files(h, c);
      FilesBelow(h, c);
      forall i | 0 <= i < |fc| ensures h[fc[i]].parent != Some(f) {
        assert Below(h, c, fc[i]);
        AtOrUnderLe(h, c, Parent(h, fc[i]));
      }
      DirectOnlyNone(h, f, fc);
      DirectOnlyConcat(h, f, fc, [c]);
    }
  }

  // --------------------------------------------------- what files reaches

  /** `x` is reached from `f` along listed links: its parent lists it, and that
      parent is `f` or is itself reached from `f`. */
  ghost predicate Reach(h: Heap, f: Ref, x: Ref)
    requires HeapOk(h) && x < |h|
    decreases x
  {
    h[x].parent.Some? && x in h[Parent(h, x)].files && (Parent(h, x) == f || Reach(h, f, Parent(h, x)))
  }

  lemma {:induction false} ReachTrans(h: Heap, f: Ref, c: Ref, x: Ref)
    requires HeapOk(h) && c < |h| && x < |h| && Reach(h, f, c) && Reach(h, c, x)
    ensures Reach(h, f, x)
    decreases x
  {
    if Parent(h, x) != c {
      ReachTrans(h, f, c, Parent(h, x));
    }
  }

  lemma SliceMember(xs: seq<Ref>, lo: int, hi: int, ys: seq<Ref>, x: Ref)
    requires 0 <= lo <= hi <= |xs| && xs[lo..hi] == ys && x in ys
    ensures x in xs
  {
    var k :| 0 <= k < |ys| && ys[k] == x;
    assert xs[lo + k] == x;
  }

  /** A sub-folder listed in `files` has its own `files` inside the folder's. */
  lemma SubFiles(h: Heap, f: Ref, d: Ref, x: Ref)
    requires HeapOk(h) && f < |h| && d in Files(h, f) && h[d].kind == FolderKind && x in Files(h, d)
    ensures x in Files(h, f)
  {
    FilesPostOrder(h, f);
    var xs := Files(h, f);
    var i :| 0 <= i < |xs| && xs[i] == d;
    ContentsAt(h, xs, i);
    SliceMember(xs, i - |Files(h, d)|, i, Files(h, d), x);
  }

  /** A child listed by `f` is in `files`. */
  lemma ChildInFiles(h: Heap, f: Ref, x: Ref)
    requires HeapOk(h) && f < |h| && x in h[f].files
    ensures x in Files(h, f)
  {
    FilesDirect(h, f);
    DirectOnlyIn(h, f, Files(h, f), x);
  }

  lemma {:induction false} DirectOnlyIn(h: Heap, f: Ref, xs: seq<Ref>, x: Ref)
    requires AllIn(h, xs) && x in DirectOnly(h, f, xs)
    ensures x in xs
    decreases |xs|
  {
    if xs[0] != x {
      DirectOnlyIn(h, f, xs[1..], x);
    }
  }

  /** `files` holds exactly the entries reached from the folder along listed links. */
  lemma {:induction false} FilesReach(h: Heap, f: Ref, x: Ref)
    requires HeapOk(h) && f < |h| && x < |h|
    ensures x in Files(h, f) <==> Reach(h, f, x)
    decreases x
  {
    if x in Files(h, f) {
      FilesBelow(h, f);
      assert ChildrenOk(h, f);
      CollectReach(h, f, h[f].files, x);
    }
    if Reach(h, f, x) {
      var p := Parent(h, x);
      if p == f {
        ChildInFiles(h, f, x);
      } else {
        FilesReach(h, f, p);
        ChildInFiles(h, p, x);
        SubFiles(h, f, p, x);
      }
    }
  }

  lemma {:induction false} CollectReach(h: Heap, f: Ref, cs: seq<Ref>, x: Ref)
    requires HeapOk(h) && f < |h| && ChildRun(h, f, cs) && x in Collect(h, f, cs)
    requires forall i :: 0 <= i < |cs| ==> cs[i] in h[f].files
    ensures x < |h| && Reach(h, f, x)
    decreases |h| - f, |cs|
  {
    CollectCons(h, f, cs);
    var c := cs[0];
    if x == c {
    } else if x in Block(h, c) {
      assert x in Files(h, c);
      FilesBelow(h, c);
      var i :| 0 <= i < |Files(h, c)| && Files(h, c)[i] == x;
      assert ChildrenOk(h, c);
      CollectReach(h, c, h[c].files, x);
      assert Reach(h, f, c);
      ReachTrans(h, f, c, x);
    } else {
      CollectReach(h, f, cs[1..], x);
    }
  }

  /** Growing the heap, or adding children to listed folders, keeps what was reached. */
  lemma {:induction false} ReachMonotone(h1: Heap, h2: Heap, f: Ref, x: Ref)
    requires HeapOk(h1) && HeapOk(h2) && x < |h1| <= |h2| && Reach(h1, f, x)
    requires forall q :: 0 <= q < |h1| ==> h2[q].parent == h1[q].parent && forall y :: y in h1[q].files ==> y in h2[q].files
    ensures Reach(h2, f, x)
    decreases x
  {
    if Parent(h1, x) != f {
      ReachMonotone(h1, h2, f, Parent(h1, x));
    }
  }

  /** Growing the heap, or adding children to listed folders, keeps every
      entry of `files`. */
  lemma FilesGrow(h1: Heap, h2: Heap, f: Ref, x: Ref)
    requires HeapOk(h1) && HeapOk(h2) && f < |h1| <= |h2| && x in Files(h1, f)
    requires forall q :: 0 <= q < |h1| ==> h2[q].parent == h1[q].parent && forall y :: y in h1[q].files ==> y in h2[q].files
    ensures x in Files(h2, f)
  {
    FilesReach(h1, f, x);
    ReachMonotone(h1, h2, f, x);
    FilesReach(h2, f, x);
  }

  /** Listing a new, empty entry `c` in folder `g` makes exactly `c` newly reached
      (from a folder that reaches `g`, or from `g` itself). */
  lemma {:induction false} ReachAfterAdd(h: Heap, g: Ref, c: Ref, f: Ref, x: Ref)
    requires HeapOk(h) && g < c < |h| && h[c].parent == Some(g) && h[c].files == [] && x < |h|
    requires HeapOk(h[g := h[g].(files := h[g].files + [c])])
    ensures var h' := h[g := h[g].(files := h[g].files + [c])];
      Reach(h', f, x) <==> Reach(h, f, x) || (x == c && (g == f || Reach(h, f, g)))
    decreases x
  {
    var h' := h[g := h[g].(files := h[g].files + [c])];
    if h[x].parent.Some? {
      var p := Parent(h, x);
      assert Parent(h', x) == p;
      assert x in h'[p].files <==> x in h[p].files || (p == g && x == c);
      if p != f {
        ReachAfterAdd(h, g, c, f, p);
        if Reach(h, f, p) || (p == c && (g == f || Reach(h, f, g))) {
          if p == c {
            assert h'[c].files == [];
          }
        }
      }
    }
  }

  /** What is reached from `f` is never older than `f`'s oldest listed child. */
  lemma {:induction false} ReachAbove(h: Heap, f: Ref, n: nat, x: Ref)
    requires HeapOk(h) && f < |h| && x < |h| && Reach(h, f, x)
    requires forall y :: y in h[f].files ==> y >= n
    ensures x >= n
    decreases x
  {
    var p := Parent(h, x);
    if p != f {
      ReachAbove(h, f, n, p);
      assert ChildrenOk(h, p);
    }
  }

  /** `files` depends only on the kinds and child lists of the folder and what is after it. */
  lemma {:induction false} FilesFrame(h1: Heap, h2: Heap, f: Ref)
    requires HeapOk(h1) && HeapOk(h2) && f < |h1| <= |h2|
    requires forall q :: f <= q < |h1| ==> h2[q].kind == h1[q].kind && h2[q].files == h1[q].files
    ensures Files(h1, f) == Files(h2, f)
    decreases |h1| - f, 1, 0
  {
    assert ChildrenOk(h1, f);
    CollectFrame(h1, h2, f, h1[f].files);
  }

  lemma {:induction false} CollectFrame(h1: Heap, h2: Heap, f: Ref, cs: seq<Ref>)
    requires HeapOk(h1) && HeapOk(h2) && f < |h1| <= |h2|
    requires forall i :: 0 <= i < |cs| ==> f < cs[i] < |h1|
    requires forall q :: f <= q < |h1| ==> h2[q].kind == h1[q].kind && h2[q].files == h1[q].files
    ensures Collect(h1, f, cs) == Collect(h2, f, cs)
    decreases |h1| - f, 0, |cs|
  {
    if cs != [] {
      var c := cs[0];
      if h1[c].kind == FolderKind {
        FilesFrame(h1, h2, c);
      }
      CollectFrame(h1, h2, f, cs[1..]);
    }
  }
}
