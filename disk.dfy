/** The filesystem the replicas live on, as abstract state: a map from a
    resolved path to what is stored there (kind, content hash, the
    `user.data` extended attribute that holds an entry's identity tag, and
    the modification time).  The OS primitives the replica tree calls
    (`getxattr`, `setxattr`, `isfile`, `isdir`, `stat`, `listdir`, `rename`,
    `shutil.copy2`, `mkdir`) are functions over that map. */
module Disk {
  import opened Wrappers
  import opened Text

  /** An MD5 hex digest of a file's bytes, treated as an opaque value. */
  type Hash = string

  /** The identity tag stored in an entry's `user.data` attribute. */
  type Tag = string

  datatype Kind = FileKind | FolderKind

  /** What the filesystem holds at one path.  Directories carry no content hash. */
  datatype Node = Node(kind: Kind, hash: Option<Hash>, tag: Option<Tag>, mtime: int)

  /** A path as the OS sees it: its non-empty "/"-separated pieces. */
  type Key = seq<string>

  type FileSystem = map<Key, Node>

  /** A piece of a resolved path. */
  predicate IsName(n: string)
  {
    n != [] && '/' !in n
  }

  ghost predicate KeyOk(k: Key)
  {
    forall i :: 0 <= i < |k| ==> IsName(k[i])
  }

  /** A directory is stored at `k`. */
  predicate IsDirKey(fs: FileSystem, k: Key)
  {
    k in fs && fs[k].kind == FolderKind
  }

  /** The directory that would hold `k` exists (the top level always does). */
  predicate ParentPresent(fs: FileSystem, k: Key)
  {
    |k| < 2 || IsDirKey(fs, k[..|k| - 1])
  }

  /** Every path on the disk is made of proper pieces and sits in a directory. */
  ghost predicate DiskOk(fs: FileSystem)
  {
    forall k :: k in fs ==> KeyOk(k) && ParentPresent(fs, k)
  }

  /** The pieces of `parts` that are not empty, in order. */
  function NonEmpty(parts: seq<string>): (r: seq<string>)
    ensures |r| <= |parts|
    ensures forall i :: 0 <= i < |r| ==> r[i] != [] && r[i] in parts
  {
    if parts == [] then []
    else if parts[0] == [] then NonEmpty(parts[1..])
    else [parts[0]] + NonEmpty(parts[1..])
  }

  lemma {:induction false} NonEmptyAppend(a: seq<string>, b: seq<string>)
    ensures NonEmpty(a + b) == NonEmpty(a) + NonEmpty(b)
    decreases |a|
  {
    if a == [] {
      assert a + b == b;
    } else {
      assert (a + b)[1..] == a[1..] + b;
      NonEmptyAppend(a[1..], b);
    }
  }

  /** How the OS reads a path string: "a//b/" and "a/b" name the same entry. */
  function Resolve(p: string): (k: Key)
    ensures KeyOk(k)
  {
    NonEmpty(Split(p))
  }

  /** Resolving "a" + "/" + "b" resolves each side and puts them together. */
  lemma ResolveAround(a: string, b: string)
    ensures Resolve(a + "/" + b) == Resolve(a) + Resolve(b)
  {
    SplitAround(a, b);
    NonEmptyAppend(Split(a), Split(b));
  }

  /** A proper name resolves to itself. */
  lemma ResolveName(n: string)
    requires IsName(n)
    ensures Resolve(n) == [n]
  {
    SplitNoSlash(n);
  }

  /** Dropping one trailing "/" does not change what a path names. */
  lemma ResolveStripSlash(p: string)
    ensures Resolve(StripSlash(p)) == Resolve(p)
  {
    var q := StripSlash(p);
    if p == q + "/" {
      ResolveAround(q, "");
      assert q + "/" + "" == p;
    }
  }

  /** `"/".join` of proper names resolves to those names. */
  lemma {:induction false} ResolveJoin(parts: seq<string>)
    requires forall i :: 0 <= i < |parts| ==> IsName(parts[i])
    ensures Resolve(Join(parts)) == parts
    decreases |parts|
  {
    if |parts| == 1 {
      ResolveName(parts[0]);
    } else if |parts| > 1 {
      ResolveName(parts[0]);
      ResolveJoin(parts[1..]);
      ResolveAround(parts[0], Join(parts[1..]));
      assert parts == [parts[0]] + parts[1..];
    }
  }

  /** `os.getxattr(p, 'user.data')`; an `OSError` reads as `None`. */
  function GetXattr(fs: FileSystem, p: string): Option<Tag>
  {
    if Resolve(p) in fs then fs[Resolve(p)].tag else None
  }

  /** `os.setxattr(p, 'user.data', t)`; a missing path is ignored (the `FileNotFoundError` branch). */
  function SetXattr(fs: FileSystem, p: string, t: Tag): (fs': FileSystem)
    ensures fs'.Keys == fs.Keys
    ensures forall k :: k in fs && k != Resolve(p) ==> fs'[k] == fs[k]
    ensures Resolve(p) in fs ==> fs'[Resolve(p)] == fs[Resolve(p)].(tag := Some(t))
  {
    var k := Resolve(p);
    if k in fs then fs[k := fs[k].(tag := Some(t))] else fs
  }

  /** Reading the tag back after writing it gives what was written, on a path that exists. */
  lemma GetAfterSet(fs: FileSystem, p: string, q: string, t: Tag)
    ensures GetXattr(SetXattr(fs, p, t), q) ==
            if Resolve(q) == Resolve(p) && Resolve(p) in fs then Some(t) else GetXattr(fs, q)
  {
  }

  /** `os.path.isfile(p)`. */
  predicate IsFile(fs: FileSystem, p: string)
  {
    Resolve(p) in fs && fs[Resolve(p)].kind == FileKind
  }

  /** `os.path.isdir(p)`. */
  predicate IsDir(fs: FileSystem, p: string)
  {
    Resolve(p) in fs && fs[Resolve(p)].kind == FolderKind
  }

  /** The modification time `stat` reports, if the path exists. */
  function Mtime(fs: FileSystem, p: string): Option<int>
  {
    if Resolve(p) in fs then Some(fs[Resolve(p)].mtime) else None
  }

  /** `hash_file(p)`: the content hash of a regular file. */
  function HashFile(fs: FileSystem, p: string): Option<Hash>
  {
    if IsFile(fs, p) then fs[Resolve(p)].hash else None
  }

  /** `os.listdir(p)`: the names directly inside `p` (in no particular order). */
  function ListDir(fs: FileSystem, p: string): set<string>
  {
    var k := Resolve(p);
    set key | key in fs && |key| == |k| + 1 && key[..|k|] == k :: key[|k|]
  }

  /** `os.listdir(p)` reports `n` exactly when `p/n` exists. */
  lemma ListDirMembers(fs: FileSystem, p: string, n: string)
    ensures n in ListDir(fs, p) <==> Resolve(p) + [n] in fs
  {
    var k := Resolve(p);
    if Resolve(p) + [n] in fs {
      var key := k + [n];
      assert key[..|k|] == k && key[|k|] == n;
    }
    if n in ListDir(fs, p) {
      var key :| key in fs && |key| == |k| + 1 && key[..|k|] == k && key[|k|] == n;
      assert key == k + [n];
    }
  }

  /** On a proper disk every listed name is a proper name. */
  lemma ListedNamesOk(fs: FileSystem, p: string, n: string)
    requires DiskOk(fs) && n in ListDir(fs, p)
    ensures IsName(n)
  {
    ListDirMembers(fs, p, n);
    var k := Resolve(p) + [n];
    assert KeyOk(k);
    assert k[|k| - 1] == n;
  }

  /** Whether `os.rename(src, dst)` of a file succeeds: `src` is a file,
      `dst` is not a directory and its directory exists. */
  predicate RenameOk(fs: FileSystem, src: string, dst: string)
  {
    var ks, kd := Resolve(src), Resolve(dst);
    ks in fs && fs[ks].kind == FileKind && ks != kd && kd != [] && ParentPresent(fs, kd) && !IsDirKey(fs, kd)
  }

  /** `os.rename(src, dst)` of a file: the record moves from `src` to `dst`,
      replacing a file at `dst`.  When the call would raise, nothing changes. */
  function Rename(fs: FileSystem, src: string, dst: string): (fs': FileSystem)
    ensures RenameOk(fs, src, dst) ==>
      && Resolve(dst) in fs' && fs'[Resolve(dst)] == fs[Resolve(src)]
      && Resolve(src) !in fs'
      && fs'.Keys == fs.Keys - {Resolve(src)} + {Resolve(dst)}
    ensures forall k :: k != Resolve(src) && k != Resolve(dst) && k in fs ==> k in fs' && fs'[k] == fs[k]
    ensures !RenameOk(fs, src, dst) ==> fs' == fs
  {
    var ks, kd := Resolve(src), Resolve(dst);
    if RenameOk(fs, src, dst) then (fs - {ks})[kd := fs[ks]] else fs
  }

  /** The path `shutil.copy2(src, dst)` writes to: into `dst` when it is a directory. */
  function CopyTarget(fs: FileSystem, src: string, dst: string): Key
  {
    var ks, kd := Resolve(src), Resolve(dst);
    if IsDirKey(fs, kd) && ks != [] then kd + [ks[|ks| - 1]] else kd
  }

  /** Whether `shutil.copy2(src, dst)` succeeds: `src` is a file and the target
      is another path, not a directory, in an existing directory. */
  predicate CopyOk(fs: FileSystem, src: string, dst: string)
  {
    var t := CopyTarget(fs, src, dst);
    IsFile(fs, src) && t != [] && t != Resolve(src) && ParentPresent(fs, t) && !IsDirKey(fs, t)
  }

  /** `shutil.copy2(src, dst)` of a regular file: the target gets the bytes (hash), the
      modification time and the extended attributes of the source; a source
      without a tag leaves the target's own tag in place.  When the call would
      raise, nothing changes. */
  function Copy2(fs: FileSystem, src: string, dst: string): (fs': FileSystem)
    ensures CopyOk(fs, src, dst) ==>
      var t := CopyTarget(fs, src, dst);
      var s := fs[Resolve(src)];
      && t in fs'
      && fs'[t].kind == FileKind && fs'[t].hash == s.hash && fs'[t].mtime == s.mtime
      && fs'[t].tag == (if s.tag.Some? then s.tag else if t in fs then fs[t].tag else None)
      && fs'.Keys == fs.Keys + {t}
    ensures forall k :: k in fs && k != CopyTarget(fs, src, dst) ==> k in fs' && fs'[k] == fs[k]
    ensures !CopyOk(fs, src, dst) ==> fs' == fs
  {
    if !CopyOk(fs, src, dst) then fs
    else
      var t := CopyTarget(fs, src, dst);
      var s := fs[Resolve(src)];
      var tag := if s.tag.Some? then s.tag else if t in fs then fs[t].tag else None;
      fs[t := Node(FileKind, s.hash, tag, s.mtime)]
  }

  /** Whether `os.mkdir(p)` succeeds: nothing is at `p` and its directory exists. */
  predicate MkdirOk(fs: FileSystem, p: string)
  {
    var k := Resolve(p);
    k != [] && k !in fs && ParentPresent(fs, k)
  }

  /** `os.mkdir(p)` at time `now`.  When the call would raise, nothing changes. */
  function Mkdir(fs: FileSystem, p: string, now: int): (fs': FileSystem)
    ensures MkdirOk(fs, p) ==> fs'.Keys == fs.Keys + {Resolve(p)} && fs'[Resolve(p)] == Node(FolderKind, None, None, now)
    ensures forall k :: k in fs ==> k in fs' && fs'[k] == fs[k]
    ensures !MkdirOk(fs, p) ==> fs' == fs
  {
    var k := Resolve(p);
    if MkdirOk(fs, p) then fs[k := Node(FolderKind, None, None, now)] else fs
  }

  /** Writing a tag keeps the disk a proper tree. */
  lemma SetXattrKeepsDiskOk(fs: FileSystem, p: string, t: Tag)
    requires DiskOk(fs)
    ensures DiskOk(SetXattr(fs, p, t))
  {
    var fs' := SetXattr(fs, p, t);
    forall k | k in fs' ensures KeyOk(k) && ParentPresent(fs', k) {
      assert ParentPresent(fs, k);
    }
  }

  /** Moving a file keeps the disk a proper tree. */
  lemma RenameKeepsDiskOk(fs: FileSystem, src: string, dst: string)
    requires DiskOk(fs)
    ensures DiskOk(Rename(fs, src, dst))
  {
    var fs', ks := Rename(fs, src, dst), Resolve(src);
    if RenameOk(fs, src, dst) {
      forall k | k in fs' ensures KeyOk(k) && ParentPresent(fs', k) {
        if k in fs {
          assert ParentPresent(fs, k);
          if |k| >= 2 {
            assert k[..|k| - 1] != ks;
          }
        }
      }
    }
  }

  /** Copying a file keeps the disk a proper tree. */
  lemma Copy2KeepsDiskOk(fs: FileSystem, src: string, dst: string)
    requires DiskOk(fs)
    ensures DiskOk(Copy2(fs, src, dst))
  {
    var fs', ks, t := Copy2(fs, src, dst), Resolve(src), CopyTarget(fs, src, dst);
    if CopyOk(fs, src, dst) {
      if ks != [] {
        assert KeyOk([ks[|ks| - 1]]);
      }
      assert KeyOk(t);
      forall k | k in fs' ensures KeyOk(k) && ParentPresent(fs', k) {
        if k in fs {
          assert ParentPresent(fs, k);
        }
      }
    }
  }

  /** Making a directory keeps the disk a proper tree. */
  lemma MkdirKeepsDiskOk(fs: FileSystem, p: string, now: int)
    requires DiskOk(fs)
    ensures DiskOk(Mkdir(fs, p, now))
  {
    var fs' := Mkdir(fs, p, now);
    forall k | k in fs' ensures KeyOk(k) && ParentPresent(fs', k) {
      if k in fs {
        assert ParentPresent(fs, k);
      }
    }
  }

  /** A character `secrets.choice` can draw for a new tag: one of
      `string.ascii_letters + string.digits`. */
  predicate IsTagChar(c: char)
  {
    'a' <= c <= 'z' || 'A' <= c <= 'Z' || '0' <= c <= '9'
  }

  /** A new tag is 15 characters long. */
  const TagLength: nat := 15

  /** A tag `add_metadata` can generate for an entry that has none. */
  predicate IsGeneratedTag(t: Tag)
  {
    |t| == TagLength && forall i :: 0 <= i < |t| ==> IsTagChar(t[i])
  }

  /** The tag a constructor settles on for the entry at `p`: the one already
      on the disk, left as it is; otherwise a generated one, written to the disk. */
  ghost predicate Stamped(fs0: FileSystem, fs1: FileSystem, p: string, t: Tag)
  {
    match GetXattr(fs0, p)
    case Some(existing) => t == existing && fs1 == fs0
    case None => IsGeneratedTag(t) && fs1 == SetXattr(fs0, p, t)
  }
}
