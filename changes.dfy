/** What `Folder.get_changes` reports, stated over values.

    The current `files` are scanned in order against what is left of
    `old_files`.  A current entry that some leftover prior entry equals is
    matched, and the first such prior entry leaves `old_files`.  Otherwise the
    first leftover prior entry whose stored tag is the entry's tag on the disk is
    reported as modified.  Otherwise the entry is new.  Leftover prior entries
    that equal no current entry are reported as removed. */
module Changes {
  import opened Wrappers
  import opened Positions
  import opened Disk
  import opened Entries

  /** How the scan handled one current entry. */
  datatype Outcome = Matched | Modified(previous: Ref) | Added

  /** The reports so far, what is left of `old_files`, and one outcome per
      current entry scanned. */
  datatype Scan = Scan(modified: seq<Ref>, newFiles: seq<Ref>, left: seq<Ref>, outcomes: seq<Outcome>)

  /** The position of the first entry of `xs` whose stored tag is `tag`, or `|xs|`. */
  function FirstStored(h: Heap, xs: seq<Ref>, tag: Option<Tag>): (i: nat)
    requires AllIn(h, xs)
    ensures i <= |xs|
    ensures i < |xs| ==> Some(h[xs[i]].stored) == tag
    ensures forall j :: 0 <= j < i ==> Some(h[xs[j]].stored) != tag
  {
    var tests := seq(|xs|, j requires 0 <= j < |xs| => Some(h[xs[j]].stored) == tag);
    assert forall j :: 0 <= j < |xs| ==> tests[j] == (Some(h[xs[j]].stored) == tag);
    FirstTrueFrom(tests, 0)
  }


  /** Which way the scan goes for the current entry `fl`, given the leftover prior entries. */
  function Classify(fs: FileSystem, h: Heap, left: seq<Ref>, fl: Ref): Outcome
    requires HeapOk(h) && fl < |h| && AllIn(h, left)
  {
    if In(fs, h, fl, left) then Matched
    else
      var k := FirstStored(h, left, Metadata(fs, h, fl));
      if k < |left| then Modified(left[k]) else Added
  }

  /** One pass of the first loop of `get_changes`, for the current entry `fl`. */
  function Handle(fs: FileSystem, h: Heap, s: Scan, fl: Ref): (r: Scan)
    requires HeapOk(h) && fl < |h| && AllIn(h, s.left)
    ensures AllIn(h, r.left)
  {
    match Classify(fs, h, s.left, fl)
    case Matched =>
      InIndexOf(fs, h, fl, s.left);
      s.(left := RemoveFirst(fs, h, fl, s.left), outcomes := s.outcomes + [Matched])
    case Modified(previous) => s.(modified := s.modified + [previous], outcomes := s.outcomes + [Modified(previous)])
    case Added => s.(newFiles := s.newFiles + [fl], outcomes := s.outcomes + [Added])
  }

  /** One step records one more outcome: the way `Classify` sends the entry. */
  lemma HandleOutcome(fs: FileSystem, h: Heap, s: Scan, fl: Ref)
    requires HeapOk(h) && fl < |h| && AllIn(h, s.left)
    ensures Handle(fs, h, s, fl).outcomes == s.outcomes + [Classify(fs, h, s.left, fl)]
  {
  }

  /** A prefix no longer than a list is unchanged by appending to the list. */
  lemma PrefixOfSnoc(os: seq<Outcome>, o: Outcome, k: nat)
    requires k <= |os|
    ensures (os + [o])[..k] == os[..k]
  {
  }

  /** What one step does to each part of the scan. */
  lemma HandleEffect(fs: FileSystem, h: Heap, s: Scan, fl: Ref)
    requires HeapOk(h) && fl < |h| && AllIn(h, s.left)
    ensures var r, o := Handle(fs, h, s, fl), Classify(fs, h, s.left, fl);
      && r.outcomes == s.outcomes + [o]
      && r.modified == s.modified + (if o.Modified? then [o.previous] else [])
      && r.newFiles == s.newFiles + (if o.Added? then [fl] else [])
      && |r.modified| == |s.modified| + (if o.Modified? then 1 else 0)
      && |r.newFiles| == |s.newFiles| + (if o.Added? then 1 else 0)
      && |r.left| == |s.left| - (if o.Matched? then 1 else 0)
      && (o.Matched? ==> multiset(r.left) + multiset{s.left[IndexOf(fs, h, fl, s.left)]} == multiset(s.left))
      && (!o.Matched? ==> r.left == s.left)
      && (o.Modified? ==> o.previous in s.left)
  {
    if Classify(fs, h, s.left, fl).Matched? {
      InIndexOf(fs, h, fl, s.left);
      RemoveFirstBag(fs, h, fl, s.left);
    }
  }

  /** `xs.remove(x)` takes exactly one item out of the list: the first one equal to `x`. */
  lemma RemoveFirstBag(fs: FileSystem, h: Heap, x: Ref, xs: seq<Ref>)
    requires HeapOk(h) && x < |h| && AllIn(h, xs) && IndexOf(fs, h, x, xs) < |xs|
    ensures multiset(RemoveFirst(fs, h, x, xs)) + multiset{xs[IndexOf(fs, h, x, xs)]} == multiset(xs)
  {
    DropBag(xs, IndexOf(fs, h, x, xs));
  }

  lemma DropBag(xs: seq<Ref>, k: nat)
    requires k < |xs|
    ensures multiset(xs[..k] + xs[k + 1..]) + multiset{xs[k]} == multiset(xs)
  {
    assert xs == xs[..k] + [xs[k]] + xs[k + 1..];
  }

  /** The first loop of `get_changes` over the current entries `cur`, starting
      from `prior` (the `old_files` list). */
  function ScanFrom(fs: FileSystem, h: Heap, cur: seq<Ref>, prior: seq<Ref>): (s: Scan)
    requires HeapOk(h) && AllIn(h, cur) && AllIn(h, prior)
    ensures AllIn(h, s.left) && |s.outcomes| == |cur|
    decreases |cur|
  {
    if cur == [] then Scan([], [], prior, [])
    else Handle(fs, h, ScanFrom(fs, h, cur[..|cur| - 1], prior), cur[|cur| - 1])
  }

  /** One more pass: the scan of the first `i + 1` entries is the pass over
      entry `i` after the scan of the first `i`. */
  lemma ScanNext(fs: FileSystem, h: Heap, cur: seq<Ref>, prior: seq<Ref>, i: nat)
    requires HeapOk(h) && AllIn(h, cur) && AllIn(h, prior) && i < |cur|
    ensures ScanFrom(fs, h, cur[..i + 1], prior) == Handle(fs, h, ScanFrom(fs, h, cur[..i], prior), cur[i])
  {
    var pre := cur[..i + 1];
    assert pre[..i] == cur[..i] && pre[i] == cur[i];
  }

  /** The second loop: the leftover prior entries that equal no current entry, in order. */
  function Removed(fs: FileSystem, h: Heap, left: seq<Ref>, cur: seq<Ref>): (r: seq<Ref>)
    requires HeapOk(h) && AllIn(h, left) && AllIn(h, cur)
    ensures forall x :: x in r <==> x in left && !In(fs, h, x, cur)
    decreases |left|
  {
    if left == [] then []
    else
      var init := Removed(fs, h, left[..|left| - 1], cur);
      var last := left[|left| - 1];
      assert left == left[..|left| - 1] + [last];
      if In(fs, h, last, cur) then init else init + [last]
  }

  /** `get_changes()` as a value: modified, new and removed entries, and the
      list `old_files` is left holding. */
  function Changes(fs: FileSystem, h: Heap, cur: seq<Ref>, prior: seq<Ref>): (seq<Ref>, seq<Ref>, seq<Ref>, seq<Ref>)
    requires HeapOk(h) && AllIn(h, cur) && AllIn(h, prior)
  {
    var s := ScanFrom(fs, h, cur, prior);
    (s.modified, s.newFiles, Removed(fs, h, s.left, cur), s.left)
  }

  // ------------------------------------------------------------ counting

  /** How many outcomes are of the kind `Matched`, `Modified` or `Added`. */
  function CountMatched(os: seq<Outcome>): nat
  {
    if os == [] then 0 else CountMatched(os[..|os| - 1]) + (if os[|os| - 1].Matched? then 1 else 0)
  }

  function CountModified(os: seq<Outcome>): nat
  {
    if os == [] then 0 else CountModified(os[..|os| - 1]) + (if os[|os| - 1].Modified? then 1 else 0)
  }

  function CountAdded(os: seq<Outcome>): nat
  {
    if os == [] then 0 else CountAdded(os[..|os| - 1]) + (if os[|os| - 1].Added? then 1 else 0)
  }

  /** Appending one outcome adds one to the count of its own kind only. */
  lemma CountsSnoc(os: seq<Outcome>, o: Outcome)
    ensures CountMatched(os + [o]) == CountMatched(os) + (if o.Matched? then 1 else 0)
    ensures CountModified(os + [o]) == CountModified(os) + (if o.Modified? then 1 else 0)
    ensures CountAdded(os + [o]) == CountAdded(os) + (if o.Added? then 1 else 0)
  {
    assert (os + [o])[..|os|] == os;
  }

  lemma {:induction false} CountsAddUp(os: seq<Outcome>)
    ensures CountMatched(os) + CountModified(os) + CountAdded(os) == |os|
    decreases |os|
  {
    if os != [] {
      CountsAddUp(os[..|os| - 1]);
    }
  }

  /** Every current entry is handled in exactly one way: one outcome each;
      the modified and new reports grow by one per `Modified` and `Added`
      outcome, and `old_files` shrinks by exactly the number of matched entries. */
  lemma {:induction false} ScanAccounts(fs: FileSystem, h: Heap, cur: seq<Ref>, prior: seq<Ref>)
    requires HeapOk(h) && AllIn(h, cur) && AllIn(h, prior)
    ensures var s := ScanFrom(fs, h, cur, prior);
      && |s.modified| == CountModified(s.outcomes)
      && |s.newFiles| == CountAdded(s.outcomes)
      && |s.left| + CountMatched(s.outcomes) == |prior|
      && |s.modified| + |s.newFiles| + (|prior| - |s.left|) == |cur|
    decreases |cur|
  {
    var s := ScanFrom(fs, h, cur, prior);
    if cur != [] {
      var init := cur[..|cur| - 1];
      var p := ScanFrom(fs, h, init, prior);
      ScanAccounts(fs, h, init, prior);
      HandleEffect(fs, h, p, cur[|cur| - 1]);
      CountsSnoc(p.outcomes, Classify(fs, h, p.left, cur[|cur| - 1]));
    }
    CountsAddUp(s.outcomes);
  }

  /** Scanning a prefix records the prefix of the outcomes. */
  lemma OutcomesPrefix(fs: FileSystem, h: Heap, cur: seq<Ref>, prior: seq<Ref>, k: nat)
    requires HeapOk(h) && AllIn(h, cur) && AllIn(h, prior) && k <= |cur|
    ensures ScanFrom(fs, h, cur[..k], prior).outcomes == ScanFrom(fs, h, cur, prior).outcomes[..k]
  {
    var outs := seq(|cur| + 1, i requires 0 <= i <= |cur| => ScanFrom(fs, h, cur[..i], prior).outcomes);
    forall i | 0 <= i < |cur|
      ensures outs[i + 1][..i] == outs[i]
    {
      OutcomesStep(fs, h, cur, prior, i);
    }
    GrowingPrefix(outs, k, |cur|);
    assert cur[..|cur|] == cur;
  }

  /** Scanning one more entry keeps the outcomes recorded so far. */
  lemma OutcomesStep(fs: FileSystem, h: Heap, cur: seq<Ref>, prior: seq<Ref>, i: nat)
    requires HeapOk(h) && AllIn(h, cur) && AllIn(h, prior) && i < |cur|
    ensures ScanFrom(fs, h, cur[..i + 1], prior).outcomes[..i] == ScanFrom(fs, h, cur[..i], prior).outcomes
  {
    var p := ScanFrom(fs, h, cur[..i], prior);
    ScanNext(fs, h, cur, prior, i);
    HandleOutcome(fs, h, p, cur[i]);
    PrefixOfSnoc(p.outcomes, Classify(fs, h, p.left, cur[i]), i);
  }

  /** In a run of lists each extending the one before, the `k`-th is the
      first `k` items of every later one. */
  lemma {:induction false} GrowingPrefix(outs: seq<seq<Outcome>>, k: nat, j: nat)
    requires forall i :: 0 <= i < |outs| ==> |outs[i]| == i
    requires forall i :: 0 <= i < |outs| - 1 ==> outs[i + 1][..i] == outs[i]
    requires k <= j < |outs|
    ensures outs[j][..k] == outs[k]
    decreases j
  {
    if k < j {
      GrowingPrefix(outs, k, j - 1);
      assert outs[j][..j - 1] == outs[j - 1];
      assert outs[j][..k] == outs[j][..j - 1][..k];
    }
  }

  /** The outcome recorded for the `i`-th current entry is the way `Classify`
      sent it, against the prior entries the first `i` left. */
  lemma OutcomeAt(fs: FileSystem, h: Heap, cur: seq<Ref>, prior: seq<Ref>, i: nat)
    requires HeapOk(h) && AllIn(h, cur) && AllIn(h, prior) && i < |cur|
    ensures ScanFrom(fs, h, cur, prior).outcomes[i] == Classify(fs, h, ScanFrom(fs, h, cur[..i], prior).left, cur[i])
  {
    OutcomesPrefix(fs, h, cur, prior, i + 1);
    ScanNext(fs, h, cur, prior, i);
    var p := ScanFrom(fs, h, cur[..i], prior);
    HandleOutcome(fs, h, p, cur[i]);
    assert |p.outcomes| == i;
  }

  /** The leftover prior entries are prior entries: removing items only ever takes from `prior`. */
  lemma {:induction false} LeftFromOld(fs: FileSystem, h: Heap, cur: seq<Ref>, prior: seq<Ref>)
    requires HeapOk(h) && AllIn(h, cur) && AllIn(h, prior)
    ensures multiset(ScanFrom(fs, h, cur, prior).left) <= multiset(prior)
    ensures forall x :: x in ScanFrom(fs, h, cur, prior).modified ==> x in prior
    ensures forall x :: x in ScanFrom(fs, h, cur, prior).newFiles ==> x in cur
    decreases |cur|
  {
    if cur != [] {
      var init := cur[..|cur| - 1];
      LeftFromOld(fs, h, init, prior);
      HandleShrinks(fs, h, ScanFrom(fs, h, init, prior), cur[|cur| - 1]);
      assert forall x :: x in init ==> x in cur;
    }
  }

  /** One step only takes from the leftovers, reports a leftover as modified,
      or reports the current entry as new. */
  lemma HandleShrinks(fs: FileSystem, h: Heap, s: Scan, fl: Ref)
    requires HeapOk(h) && fl < |h| && AllIn(h, s.left)
    ensures var r := Handle(fs, h, s, fl);
      && multiset(r.left) <= multiset(s.left)
      && (forall x :: x in r.modified ==> x in s.modified || x in multiset(s.left))
      && (forall x :: x in r.newFiles ==> x in s.newFiles || x == fl)
  {
    HandleEffect(fs, h, s, fl);
  }

  /** An entry that no prior entry equals and whose tag no prior entry stored is
      always reported as new. */
  lemma BrandNewReported(fs: FileSystem, h: Heap, cur: seq<Ref>, prior: seq<Ref>, i: nat)
    requires HeapOk(h) && AllIn(h, cur) && AllIn(h, prior) && i < |cur|
    requires !In(fs, h, cur[i], prior)
    requires forall j :: 0 <= j < |prior| ==> Some(h[prior[j]].stored) != Metadata(fs, h, cur[i])
    ensures ScanFrom(fs, h, cur, prior).outcomes[i] == Added
  {
    OutcomeAt(fs, h, cur, prior, i);
    var left := ScanFrom(fs, h, cur[..i], prior).left;
    LeftFromOld(fs, h, cur[..i], prior);
    forall k | 0 <= k < |left| ensures !Eq(fs, h, left[k], cur[i]) && Some(h[left[k]].stored) != Metadata(fs, h, cur[i]) {
      assert left[k] in multiset(prior);
      var j :| 0 <= j < |prior| && prior[j] == left[k];
    }
  }

  /** A matched entry is one some leftover prior entry equals; a modified report
      is an prior entry whose stored tag is the current entry's tag. */
  lemma OutcomeMeaning(fs: FileSystem, h: Heap, cur: seq<Ref>, prior: seq<Ref>, i: nat)
    requires HeapOk(h) && AllIn(h, cur) && AllIn(h, prior) && i < |cur|
    ensures var o := ScanFrom(fs, h, cur, prior).outcomes[i];
      && (o.Matched? ==> In(fs, h, cur[i], prior))
      && (o.Modified? ==> o.previous in prior && Some(h[o.previous].stored) == Metadata(fs, h, cur[i]) && !In(fs, h, cur[i], ScanFrom(fs, h, cur[..i], prior).left))
  {
    OutcomeAt(fs, h, cur, prior, i);
    var left := ScanFrom(fs, h, cur[..i], prior).left;
    LeftFromOld(fs, h, cur[..i], prior);
    var o := ScanFrom(fs, h, cur, prior).outcomes[i];
    if o.Matched? {
      var k :| 0 <= k < |left| && Eq(fs, h, left[k], cur[i]);
      assert left[k] in multiset(prior);
      var j :| 0 <= j < |prior| && prior[j] == left[k];
    } else if o.Modified? {
      assert o.previous in multiset(prior);
    }
  }
}
