/** `Folder.pop_fl`: a depth-first search of the child lists for an entry equal
    to the one sought, which takes it out of the list that holds it. */
module Popping {
  import opened Wrappers
  import opened Disk
  import opened Entries
  import opened HeapFacts
  import opened TreeFacts
  import opened Replica

  /** The objects after a `pop_fl` call and the entry it returned. */
  datatype Popped = Popped(heap: Heap, found: Option<Ref>)

  /** `h1` is `h0` with child lists shortened and nothing else touched; the
      objects before `below` are untouched altogether. */
  ghost predicate Trimmed(h0: Heap, h1: Heap, below: Ref)
  {
    && |h1| == |h0| && HeapOk(h1)
    && (forall q :: 0 <= q < |h0| ==> h1[q] == h0[q].(files := h1[q].files))
    && (forall q, y :: 0 <= q < |h0| && y in h1[q].files ==> y in h0[q].files)
    && (forall q :: 0 <= q < below && q < |h0| ==> h1[q] == h0[q])
  }

  /** Every object that is not `f` or below it is the same in `h1` as in `h0`. */
  ghost predicate OutsideKept(h0: Heap, h1: Heap, f: Ref)
    requires HeapOk(h0) && |h1| == |h0|
  {
    forall q :: 0 <= q < |h0| && !AtOrUnder(h0, f, q) ==> h1[q] == h0[q]
  }

  /** Whether `x` is at or under `a` depends on the parent links alone. */
  lemma {:induction false} AtOrUnderFramed(h0: Heap, h1: Heap, a: Ref, x: Ref)
    requires HeapOk(h0) && HeapOk(h1) && |h1| == |h0| && x < |h0|
    requires forall q :: 0 <= q < |h0| ==> h1[q].parent == h0[q].parent
    ensures AtOrUnder(h1, a, x) == AtOrUnder(h0, a, x)
    decreases x
  {
    if x != a && h0[x].parent.Some? {
      AtOrUnderFramed(h0, h1, a, Parent(h0, x));
    }
  }

  /** A search of child folder `b1` of `b2`, then a search of `b2` from what it
      left, together touch nothing outside `b2`. */
  lemma OutsideTrans(h0: Heap, h1: Heap, h2: Heap, b1: Ref, b2: Ref)
    requires HeapOk(h0) && Trimmed(h0, h1, b1) && Trimmed(h1, h2, b2)
    requires b1 < |h0| && h0[b1].parent == Some(b2)
    requires OutsideKept(h0, h1, b1) && OutsideKept(h1, h2, b2)
    ensures OutsideKept(h0, h2, b2)
  {
    forall q | 0 <= q < |h0| && !AtOrUnder(h0, b2, q) ensures h2[q] == h0[q] {
      if AtOrUnder(h0, b1, q) {
        assert AtOrUnder(h0, b2, b1);
        AtOrUnderTrans(h0, b2, b1, q);
      }
      AtOrUnderFramed(h0, h1, b2, q);
    }
  }

  /** A child folder's search touches nothing outside its parent either. */
  lemma SearchedChild(h0: Heap, h1: Heap, fl: Ref, f: Ref)
    requires HeapOk(h0) && f < |h0| && fl in h0[f].files
    requires Trimmed(h0, h1, fl) && OutsideKept(h0, h1, fl)
    ensures Trimmed(h0, h1, f) && OutsideKept(h0, h1, f)
  {
    assert ChildrenOk(h0, f);
    forall q | 0 <= q < |h0| && !AtOrUnder(h0, f, q) ensures h1[q] == h0[q] {
      if AtOrUnder(h0, fl, q) {
        assert AtOrUnder(h0, f, fl);
        AtOrUnderTrans(h0, f, fl, q);
      }
    }
  }

  /** The frames of a child folder's search and the rest of the loop compose. */
  lemma SearchedBoth(h0: Heap, h1: Heap, h2: Heap, fl: Ref, f: Ref)
    requires HeapOk(h0) && f < |h0| && fl in h0[f].files
    requires Trimmed(h0, h1, fl) && Trimmed(h1, h2, f)
    requires OutsideKept(h0, h1, fl) && OutsideKept(h1, h2, f)
    ensures Trimmed(h0, h2, f) && OutsideKept(h0, h2, f)
  {
    assert ChildrenOk(h0, f);
    TrimmedTrans(h0, h1, h2, fl, f);
    OutsideTrans(h0, h1, h2, fl, f);
  }

  lemma TrimmedTrans(h0: Heap, h1: Heap, h2: Heap, b1: Ref, b2: Ref)
    requires Trimmed(h0, h1, b1) && Trimmed(h1, h2, b2)
    ensures Trimmed(h0, h2, if b1 < b2 then b1 else b2)
  {
  }

  /** Taking the item at `i` out of a list without repeats leaves a list
      without repeats, drawn from the old one, that no longer holds that item. */
  lemma RemoveAtOk(xs: seq<Ref>, i: nat)
    requires NoDup(xs) && i < |xs|
    ensures var ys := xs[..i] + xs[i + 1..];
      && NoDup(ys) && (forall y :: y in ys ==> y in xs) && xs[i] !in ys
  {
    var ys := xs[..i] + xs[i + 1..];
    forall a, b | 0 <= a < b < |ys| ensures ys[a] != ys[b] {
      var a', b' := if a < i then a else a + 1, if b < i then b else b + 1;
      assert ys[a] == xs[a'] && ys[b] == xs[b'];
    }
  }

  /** `__eq__` is reflexive, so `index` finds an item that is in the list. */
  lemma IndexOfMember(fs: FileSystem, h: Heap, x: Ref, xs: seq<Ref>)
    requires HeapOk(h) && x < |h| && AllIn(h, xs) && x in xs
    ensures IndexOf(fs, h, x, xs) < |xs|
  {
    var k :| 0 <= k < |xs| && xs[k] == x;
    assert Eq(fs, h, xs[k], x);
  }

  /** `pop_fl(find)` called on folder `f`. */
  function Pop(fs: FileSystem, h: Heap, f: Ref, find: Ref): (p: Popped)
    requires HeapOk(h) && f < |h| && find < |h|
    ensures Trimmed(h, p.heap, f) && OutsideKept(h, p.heap, f) && (p.found.Some? ==> p.found.value < |h|)
    decreases |h| - f, 1, 0
  {
    assert ChildrenOk(h, f);
    PopFrom(fs, h, f, find, h[f].files)
  }

  /** The children `cs` of `f` that the loop has still to visit. */
  ghost predicate Pending(h: Heap, f: Ref, cs: seq<Ref>)
    requires f < |h|
  {
    forall i :: 0 <= i < |cs| ==> cs[i] in h[f].files && f < cs[i] < |h|
  }

  /** The `for` loop of `pop_fl` on folder `f`, with the children `cs` still
      to visit.  A child equal to `find` is popped and returned; a child
      folder is searched in turn, and what it returns ends the loop only if
      that equals `find`. */
  function PopFrom(fs: FileSystem, h: Heap, f: Ref, find: Ref, cs: seq<Ref>): (p: Popped)
    requires HeapOk(h) && f < |h| && find < |h| && Pending(h, f, cs)
    ensures Trimmed(h, p.heap, f) && OutsideKept(h, p.heap, f) && (p.found.Some? ==> p.found.value < |h|)
    decreases |h| - f, 0, |cs|
  {
    if cs == [] then Popped(h, None)
    else
      var fl := cs[0];
      if Eq(fs, h, fl, find) then PopHere(fs, h, f, fl)
      else if h[fl].kind == FolderKind then
        var sub := Pop(fs, h, fl, find);
        if sub.found.Some? && Eq(fs, sub.heap, sub.found.value, find) then
          SearchedChild(h, sub.heap, fl, f);
          sub
        else
          assert Pending(sub.heap, f, cs[1..]) by { assert sub.heap[f] == h[f]; }
          var rest := PopFrom(fs, sub.heap, f, find, cs[1..]);
          SearchedBoth(h, sub.heap, rest.heap, fl, f);
          rest
      else PopFrom(fs, h, f, find, cs[1..])
  }

  /** `self._files.pop(self._files.index(fl))` for a child `fl` of `f`: the
      first child equal to `fl` leaves `f`'s list and is returned. */
  function PopHere(fs: FileSystem, h: Heap, f: Ref, fl: Ref): (p: Popped)
    requires HeapOk(h) && f < |h| && fl < |h| && fl in h[f].files
    ensures Trimmed(h, p.heap, f) && OutsideKept(h, p.heap, f) && p.found.Some? && p.found.value < |h|
    ensures Removed(h, p.heap, p.found.value) && Eq(fs, h, p.found.value, fl)
  {
    assert ChildrenOk(h, f);
    var xs := h[f].files;
    IndexOfMember(fs, h, fl, xs);
    var i := IndexOf(fs, h, fl, xs);
    RemoveAtOk(xs, i);
    ShrinkChildrenOk(h, f, RemoveFirst(fs, h, fl, xs));
    Popped(h[f := h[f].(files := RemoveFirst(fs, h, fl, xs))], Some(xs[i]))
  }

  /** `pop_fl(find_fl)` on folder `f`: the loop over the folder's own list,
      which recurses into child folders. */
  method PopFl(w: World, f: Ref, find: Ref) returns (r: Option<Ref>)
    requires w.Valid() && f < |w.heap| && find < |w.heap|
    modifies w
    ensures w.Valid() && w.fs == old(w.fs) && w.clock == old(w.clock)
    ensures Popped(w.heap, r) == Pop(old(w.fs), old(w.heap), f, find)
    decreases |w.heap| - f, 1
  {
    ghost var h0 := w.heap;
    assert ChildrenOk(h0, f);
    var xs := w.heap[f].files;
    var i := 0;
    while i < |xs|
      invariant 0 <= i <= |xs| && w.Valid() && w.fs == old(w.fs) && w.clock == old(w.clock)
      invariant |w.heap| == |h0| && w.heap[f] == h0[f] && Pending(w.heap, f, xs[i..])
      invariant Pop(w.fs, h0, f, find) == PopFrom(w.fs, w.heap, f, find, xs[i..])
    {
      var done;
      done, r := PopChild(w, f, find, xs[i..]);
      if done {
        return;
      }
      assert xs[i..][1..] == xs[i + 1..];
      i := i + 1;
    }
    return None;
  }

  /** One pass of the loop of `pop_fl`, over the first of the children `cs`
      still to visit: `done` when it returns. */
  method PopChild(w: World, f: Ref, find: Ref, cs: seq<Ref>) returns (done: bool, r: Option<Ref>)
    requires w.Valid() && f < |w.heap| && find < |w.heap| && Pending(w.heap, f, cs) && cs != []
    modifies w
    ensures w.Valid() && w.fs == old(w.fs) && w.clock == old(w.clock)
    ensures |w.heap| == |old(w.heap)|
    ensures done ==> Popped(w.heap, r) == PopFrom(w.fs, old(w.heap), f, find, cs)
    ensures !done ==>
      && w.heap[f] == old(w.heap)[f] && Pending(w.heap, f, cs[1..])
      && PopFrom(w.fs, old(w.heap), f, find, cs) == PopFrom(w.fs, w.heap, f, find, cs[1..])
    decreases |w.heap| - f, 0
  {
    var fl := cs[0];
    ghost var h1 := w.heap;
    if Eq(w.fs, w.heap, fl, find) {
      var p := PopHere(w.fs, w.heap, f, fl);
      TakeHere(w.fs, h1, f, find, cs);
      done, r := true, p.found;
      w.heap := p.heap;
    } else if w.heap[fl].kind == FolderKind {
      r := PopFl(w, fl, find);
      done := r.Some? && Eq(w.fs, w.heap, r.value, find);
      if done {
        TakeFolder(w.fs, h1, f, find, cs);
      } else {
        SkipFolder(w.fs, h1, f, find, cs);
      }
    } else {
      done, r := false, None;
      SkipFile(w.fs, h1, f, find, cs);
    }
  }

  /** The loop stops at a child equal to the one sought. */
  lemma TakeHere(fs: FileSystem, h: Heap, f: Ref, find: Ref, cs: seq<Ref>)
    requires HeapOk(h) && f < |h| && find < |h| && Pending(h, f, cs) && cs != []
    requires Eq(fs, h, cs[0], find)
    ensures PopFrom(fs, h, f, find, cs) == PopHere(fs, h, f, cs[0])
  {
  }

  /** The loop stops at a child folder whose search returned the entry sought. */
  lemma TakeFolder(fs: FileSystem, h: Heap, f: Ref, find: Ref, cs: seq<Ref>)
    requires HeapOk(h) && f < |h| && find < |h| && Pending(h, f, cs) && cs != []
    requires !Eq(fs, h, cs[0], find) && h[cs[0]].kind == FolderKind
    requires var sub := Pop(fs, h, cs[0], find); sub.found.Some? && Eq(fs, sub.heap, sub.found.value, find)
    ensures PopFrom(fs, h, f, find, cs) == Pop(fs, h, cs[0], find)
  {
  }

  /** The loop passes over a child file that is not the one sought. */
  lemma SkipFile(fs: FileSystem, h: Heap, f: Ref, find: Ref, cs: seq<Ref>)
    requires HeapOk(h) && f < |h| && find < |h| && Pending(h, f, cs) && cs != []
    requires !Eq(fs, h, cs[0], find) && h[cs[0]].kind == FileKind
    ensures Pending(h, f, cs[1..]) && PopFrom(fs, h, f, find, cs) == PopFrom(fs, h, f, find, cs[1..])
  {
  }

  /** The loop passes over a child folder whose search did not return the
      entry sought, and goes on from the objects that search left behind. */
  lemma SkipFolder(fs: FileSystem, h: Heap, f: Ref, find: Ref, cs: seq<Ref>)
    requires HeapOk(h) && f < |h| && find < |h| && Pending(h, f, cs) && cs != []
    requires !Eq(fs, h, cs[0], find) && h[cs[0]].kind == FolderKind
    requires var sub := Pop(fs, h, cs[0], find); !(sub.found.Some? && Eq(fs, sub.heap, sub.found.value, find))
    ensures var sub := Pop(fs, h, cs[0], find);
      && Pending(sub.heap, f, cs[1..]) && PopFrom(fs, h, f, find, cs) == PopFrom(fs, sub.heap, f, find, cs[1..])
  {
    var sub := Pop(fs, h, cs[0], find);
    assert sub.heap[f] == h[f];
  }

  /** Entry `x` was in its parent's child list in `h0` and is not in it in `h1`. */
  ghost predicate Removed(h0: Heap, h1: Heap, x: Ref)
    requires |h1| == |h0|
  {
    && x < |h0| && h0[x].parent.Some? && h0[x].parent.value < |h0|
    && x in h0[h0[x].parent.value].files && x !in h1[h0[x].parent.value].files
  }

  lemma RemovedLift(h0: Heap, h1: Heap, h2: Heap, b: Ref, x: Ref)
    requires Trimmed(h0, h1, b) && Trimmed(h1, h2, 0) && Removed(h1, h2, x)
    ensures Removed(h0, h2, x)
  {
  }

  /** Heaps that differ only in child lists give every entry the same paths. */
  lemma TrimmedPaths(h0: Heap, h1: Heap, b: Ref)
    requires HeapOk(h0) && Trimmed(h0, h1, b)
    ensures forall r :: 0 <= r < |h0| ==> Path(h0, r) == Path(h1, r)
  {
    forall q | 0 <= q < |h0|
      ensures h0[q].name == h1[q].name && h0[q].parent == h1[q].parent && h0[q].kind == h1[q].kind
    {
      assert h1[q] == h0[q].(files := h1[q].files);
    }
    SameShapeSamePaths(h0, h1);
  }

  /** What `pop_fl` returns was taken out of its parent's child list, and it
      has the path of the entry sought. */
  lemma {:induction false} PopFound(fs: FileSystem, h: Heap, f: Ref, find: Ref)
    requires HeapOk(h) && f < |h| && find < |h|
    ensures var p := Pop(fs, h, f, find);
      p.found.Some? ==> Removed(h, p.heap, p.found.value) && Path(h, p.found.value) == Path(h, find)
    decreases |h| - f, 1, 0
  {
    assert ChildrenOk(h, f);
    PopFromFound(fs, h, f, find, h[f].files);
  }

  lemma {:induction false} PopFromFound(fs: FileSystem, h: Heap, f: Ref, find: Ref, cs: seq<Ref>)
    requires HeapOk(h) && f < |h| && find < |h| && Pending(h, f, cs)
    ensures var p := PopFrom(fs, h, f, find, cs);
      p.found.Some? ==> Removed(h, p.heap, p.found.value) && Path(h, p.found.value) == Path(h, find)
    decreases |h| - f, 0, |cs|
  {
    if cs != [] {
      var fl := cs[0];
      if !Eq(fs, h, fl, find) && h[fl].kind == FolderKind {
        var sub := Pop(fs, h, fl, find);
        PopFound(fs, h, fl, find);
        if !(sub.found.Some? && Eq(fs, sub.heap, sub.found.value, find)) {
          assert Pending(sub.heap, f, cs[1..]) by { assert sub.heap[f] == h[f]; }
          PopFromFound(fs, sub.heap, f, find, cs[1..]);
          FoundLift(fs, h, sub.heap, PopFrom(fs, sub.heap, f, find, cs[1..]), fl, find);
        }
      } else if !Eq(fs, h, fl, find) {
        PopFromFound(fs, h, f, find, cs[1..]);
      }
    }
  }

  /** A later pass of the loop, which starts from the objects `h1` an earlier
      search left behind, returns an entry that was removed relative to `h0`. */
  lemma FoundLift(fs: FileSystem, h0: Heap, h1: Heap, p: Popped, b: Ref, find: Ref)
    requires HeapOk(h0) && find < |h0| && Trimmed(h0, h1, b) && Trimmed(h1, p.heap, 0)
    requires p.found.Some? ==> Removed(h1, p.heap, p.found.value) && Path(h1, p.found.value) == Path(h1, find)
    ensures p.found.Some? ==> Removed(h0, p.heap, p.found.value) && Path(h0, p.found.value) == Path(h0, find)
  {
    if p.found.Some? {
      TrimmedPaths(h0, h1, b);
      RemovedLift(h0, h1, p.heap, b, p.found.value);
    }
  }

  /** When no entry below `f` equals `find`, `pop_fl` returns `None` and
      changes nothing. */
  lemma {:induction false} PopAbsent(fs: FileSystem, h: Heap, f: Ref, find: Ref)
    requires HeapOk(h) && f < |h| && find < |h|
    requires NoneEqual(fs, h, Files(h, f), find)
    ensures Pop(fs, h, f, find) == Popped(h, None)
    decreases |h| - f, 1, 0
  {
    assert ChildrenOk(h, f);
    assert Files(h, f) == Collect(h, f, h[f].files);
    PopFromAbsent(fs, h, f, find, h[f].files);
  }

  lemma {:induction false} PopFromAbsent(fs: FileSystem, h: Heap, f: Ref, find: Ref, cs: seq<Ref>)
    requires HeapOk(h) && f < |h| && find < |h| && Pending(h, f, cs)
    requires NoneEqual(fs, h, Collect(h, f, cs), find)
    ensures PopFrom(fs, h, f, find, cs) == Popped(h, None)
    decreases |h| - f, 0, |cs|
  {
    if cs != [] {
      var fl := cs[0];
      var inner := if h[fl].kind == FolderKind then Files(h, fl) else [];
      NoneEqualSplit(fs, h, inner, [fl], Collect(h, f, cs[1..]), find);
      if h[fl].kind == FolderKind {
        PopAbsent(fs, h, fl, find);
      }
      PopFromAbsent(fs, h, f, find, cs[1..]);
    }
  }

  /** No entry of `xs` equals `find`. */
  predicate NoneEqual(fs: FileSystem, h: Heap, xs: seq<Ref>, find: Ref)
    requires HeapOk(h) && find < |h|
  {
    forall x | x in xs :: x < |h| && !Eq(fs, h, x, find)
  }

  lemma NoneEqualSplit(fs: FileSystem, h: Heap, a: seq<Ref>, b: seq<Ref>, c: seq<Ref>, find: Ref)
    requires HeapOk(h) && find < |h| && NoneEqual(fs, h, a + b + c, find)
    ensures NoneEqual(fs, h, a, find) && NoneEqual(fs, h, b, find) && NoneEqual(fs, h, c, find)
  {
    forall x | x in a || x in b || x in c ensures x < |h| && !Eq(fs, h, x, find) {
      assert x in a + b + c;
    }
  }
}
