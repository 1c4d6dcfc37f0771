/** What the searches of `Folder` find: `get_folder_by_path` and `get_file`
    scan the flattened `files` list front to back and return the first entry
    that fits, or `None` when none does. */
module Searches {
  import opened Wrappers
  import opened Positions
  import opened Disk
  import opened Entries

  /** The position of the first entry of `xs` whose `path` is `p`, or `|xs|`. */
  function FirstWithPath(h: Heap, xs: seq<Ref>, p: string): (i: nat)
    requires HeapOk(h) && AllIn(h, xs)
    ensures i <= |xs|
    ensures i < |xs| ==> Path(h, xs[i]) == p
    ensures forall j :: 0 <= j < i ==> Path(h, xs[j]) != p
  {
    var tests := seq(|xs|, j requires 0 <= j < |xs| => Path(h, xs[j]) == p);
    assert forall j :: 0 <= j < |xs| ==> tests[j] == (Path(h, xs[j]) == p);
    FirstTrueFrom(tests, 0)
  }


  /** The entry at position `i` of `xs`, when there is one. */
  function Found(xs: seq<Ref>, i: nat): (r: Option<Ref>)
    ensures r.Some? <==> i < |xs|
    ensures r.Some? ==> r.value == xs[i]
  {
    if i < |xs| then Some(xs[i]) else None
  }

  /** A filter argument of `get_file` lets `v` through: it was not given, it
      is the empty string (both are falsy in Python), or it equals `v`. */
  predicate Admits(filter: Option<string>, v: string)
  {
    filter.None? || filter.value == "" || filter.value == v
  }

  /** `get_file(path, source_no_root, hash_val)` accepts entry `x`: it is a
      `File` and fits every filter that was given.  A given hash must equal
      the entry's hash, so a `File` without one never fits it. */
  predicate FileFits(h: Heap, x: Ref, path: Option<string>, sourceNoRoot: Option<string>, hash: Option<Hash>)
    requires HeapOk(h) && x < |h|
  {
    && h[x].kind == FileKind
    && Admits(path, Path(h, x))
    && Admits(sourceNoRoot, SourceNoRoot(h, x))
    && (hash.None? || hash.value == "" || h[x].hash == hash)
  }

  /** The position of the first entry of `xs` that `get_file` accepts, or `|xs|`. */
  function FirstFitting(h: Heap, xs: seq<Ref>, path: Option<string>, sourceNoRoot: Option<string>, hash: Option<Hash>): (i: nat)
    requires HeapOk(h) && AllIn(h, xs)
    ensures i <= |xs|
    ensures i < |xs| ==> FileFits(h, xs[i], path, sourceNoRoot, hash)
    ensures forall j :: 0 <= j < i ==> !FileFits(h, xs[j], path, sourceNoRoot, hash)
  {
    var tests := seq(|xs|, j requires 0 <= j < |xs| => FileFits(h, xs[j], path, sourceNoRoot, hash));
    assert forall j :: 0 <= j < |xs| ==> tests[j] == FileFits(h, xs[j], path, sourceNoRoot, hash);
    FirstTrueFrom(tests, 0)
  }


  /** With no filter given, `get_file` returns the first `File` of the list. */
  lemma {:induction false} NoFilterFirstFile(h: Heap, xs: seq<Ref>)
    requires HeapOk(h) && AllIn(h, xs)
    ensures var i := FirstFitting(h, xs, None, None, None);
      && (i < |xs| ==> h[xs[i]].kind == FileKind)
      && (forall j :: 0 <= j < i ==> h[xs[j]].kind == FolderKind)
  {
    var i := FirstFitting(h, xs, None, None, None);
    forall j | 0 <= j < i ensures h[xs[j]].kind == FolderKind {
      assert !FileFits(h, xs[j], None, None, None);
    }
  }

  /** Adding a filter can only move the first fitting entry further down the list. */
  lemma {:induction false} FilterNarrows(h: Heap, xs: seq<Ref>, path: Option<string>, sourceNoRoot: Option<string>, hash: Option<Hash>)
    requires HeapOk(h) && AllIn(h, xs)
    ensures FirstFitting(h, xs, None, None, None) <= FirstFitting(h, xs, path, sourceNoRoot, hash)
  {
    var i, k := FirstFitting(h, xs, None, None, None), FirstFitting(h, xs, path, sourceNoRoot, hash);
    if k < |xs| {
      assert FileFits(h, xs[k], None, None, None);
    }
  }

  /** A position meeting the first-match property is the one `FirstWithPath` finds. */
  lemma FirstWithPathAt(h: Heap, xs: seq<Ref>, p: string, i: nat)
    requires HeapOk(h) && AllIn(h, xs) && i <= |xs|
    requires i < |xs| ==> Path(h, xs[i]) == p
    requires forall j :: 0 <= j < i ==> Path(h, xs[j]) != p
    ensures FirstWithPath(h, xs, p) == i
  {
    var k := FirstWithPath(h, xs, p);
    assert k < |xs| ==> Path(h, xs[k]) == p;
  }

  /** A position meeting the first-match property is the one `FirstFitting` finds. */
  lemma FirstFittingAt(h: Heap, xs: seq<Ref>, path: Option<string>, sourceNoRoot: Option<string>, hash: Option<Hash>, i: nat)
    requires HeapOk(h) && AllIn(h, xs) && i <= |xs|
    requires i < |xs| ==> FileFits(h, xs[i], path, sourceNoRoot, hash)
    requires forall j :: 0 <= j < i ==> !FileFits(h, xs[j], path, sourceNoRoot, hash)
    ensures FirstFitting(h, xs, path, sourceNoRoot, hash) == i
  {
    var k := FirstFitting(h, xs, path, sourceNoRoot, hash);
    assert k < |xs| ==> FileFits(h, xs[k], path, sourceNoRoot, hash);
  }

  /** A path among `paths` is found by `get_folder_by_path`. */
  lemma PathListedFound(h: Heap, xs: seq<Ref>, p: string)
    requires HeapOk(h) && AllIn(h, xs)
    ensures p in PathSet(h, xs) <==> FirstWithPath(h, xs, p) < |xs|
  {
    if p in PathSet(h, xs) {
      var i :| 0 <= i < |xs| && Path(h, xs[i]) == p;
    }
  }
}
