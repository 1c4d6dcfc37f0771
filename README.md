# syncFolders in Dafny

syncFolders keeps two directory trees, a *source* and a *destination*, in
step. Each tree is loaded into a replica: a tree of `File` and `Folder`
objects. Each object knows its name, its parent folder, a content hash (an
MD5 digest for files; `None` for folders) and an identity *tag*. The tag is a
15-character string kept in the entry's `user.data` extended attribute, and
the object also keeps a copy of it as its stored tag.

From the parent chain an entry derives its paths:

- `full_path`: the path on disk.
- `path`: the path relative to its root.
- `source_no_root`: the relative path of the directory that holds it.

Each folder also has queries over its subtree:

- `files`: the post-order flattening of the subtree.
- `core_files`: its direct children.
- the hash, path, name and tag collections of either list.

A `Syncer` drives the rest:

- **Bootstrap.** `init_equilibrium` walks the source entries, folders first.
  For every entry that no destination entry equals, it finds (or creates) the
  destination folder that should hold it. It then either gives the
  destination file the source tag, renames the older of two files with the
  same hash, overwrites the older of two files at the same path, copies the
  entry across, or does nothing.
- **Later calls.** On every later `sync` call, each replica is reloaded. The
  old listing is compared with the new one (`get_changes`), and entries that
  are new on one side are copied to the other. Source and destination swap
  after every pass.

The model is in these modules:

| module | file | what it holds |
|---|---|---|
| `Disk` | `disk.dfy` | The filesystem as a map from resolved path to a record: kind, hash, tag, mtime. `getxattr`, `setxattr`, `isfile`/`isdir`, `stat`, `listdir`, `rename`, `shutil.copy2` and `mkdir` are functions over that map. |
| `Entries` | `entries.dfy` | The object graph: a `Heap` of `Obj` records indexed by reference, parents built before children. It also holds the path properties, `__eq__`, `__gt__`, list search/index/remove, and the flattenings and their collections. |
| `PathFacts`, `TreeFacts`, `HeapFacts` | | What the path properties and the flattening mean, and why each heap update keeps the invariant. |
| `Equality` | `equality.dfy` | What `__eq__` amounts to. |
| `Replica` | `world.dfy` | `class World`: the disk, the heap and the clock. Its methods are the constructors, `add_metadata`, `add_file`, `_get_files`/`_get_hashes`/`_get_paths`, `rename_self_as_input` and `load_files`. |
| `Loading` | `load.dfy` | What `load_files` builds: a mirror of the directory below the folder. |
| `Searches`, `FolderOps` | | `get_folder_by_path` and `get_file`. `get_changes` as a method proved against the specification functions of `Changes`. |
| `Creating` | `create.dfy` | `_create_and_add_missing_folders` and `get_folder_that_contains`. |
| `Copying` | `copying.dfy` | `do_copy` for files and folders, and `copy_over_oldest_file`. |
| `Popping` | `pop.dfy` | `pop_fl`. |
| `Choice` | `choice.dfy` | The visit order and the branch of `init_equilibrium`. |
| `Equilibrium` | `equilibrium.dfy` | `init_equilibrium`, branch by branch. |
| `Syncing` | `syncer.dfy` | `_action_changes`/`_add_new_files` and `class Syncer`: `reverse_folders`, `_get_files`, `init_sync`, `sync`. |

Hashes and tags are opaque strings. A hash is read from the disk record. A
generated tag is any 15-character string of ASCII letters and digits. Times
are integers. An operation the OS refuses is modelled in one of two ways:

- A refused call whose exception the program catches becomes a no-op.
- A refused call that would raise out of the program makes the method return
  `false` (`ok == false`). The contract says which inputs raise. What the
  program already changed before raising is stated where the contract says
  so (for instance `Copying.DoCopyFile` and `Replica.World.LoadFiles`), and
  is otherwise left open.

`get_folder_that_contains` puts a new file one level too high when it has to
create the file's directory (see "## Findings"). `init_equilibrium` and
`_add_new_files` are modelled with the corrected version. Every member that reaches it is listed under "## Left out".

## Model

| member | source | states |
|---|---|---|
| Text.JoinSplit | sync.py:623-629 | Splitting a path at "/" and joining the pieces again gives the path back. |
| Text.SplitJoin | sync.py:623-629 | Joining slash-free pieces and splitting the result gives the pieces back. |
| Disk.GetAfterSet | sync.py:54 | After `setxattr` on one path, `getxattr` returns the new tag there (when the path exists) and the old tag on every other path. The `metadata` property at sync.py:174 reads it back. |
| Disk.SetXattr | sync.py:54 | Writing a tag keeps the set of paths and changes only the tag of the record at that path. |
| Disk.Rename | sync.py:115 | A file rename the OS accepts moves the record to the new key. Other keys are untouched. A refused rename changes nothing. |
| Disk.Copy2 | sync.py:279 | A copy the OS accepts puts the source's record at the target. Other keys are untouched. A refused copy changes nothing. `copy2` is also called at sync.py:284. |
| Disk.Mkdir | sync.py:632 | A `mkdir` the OS accepts adds exactly one directory record, stamped with the current time, and keeps every other record. `mkdir` is also called at sync.py:371. |
| Disk.RenameKeepsDiskOk | sync.py:115 | Renaming keeps the disk well formed: every record's parent is a directory. |
| Disk.Copy2KeepsDiskOk | sync.py:279-284 | Copying keeps the disk well formed. |
| Disk.MkdirKeepsDiskOk | sync.py:632 | `mkdir` keeps the disk well formed (also at sync.py:371). |
| Disk.ListDirMembers | sync.py:394 | `listdir` lists exactly the names one level below the directory. |
| Entries.Parent | sync.py:24-25 | An entry's parent is a folder built before it. |
| Entries.RootFolder | sync.py:145-152 | `root_folder` is an object without a parent, allocated no later than the entry. That it is on the entry's parent chain is `TreeFacts.RootFolderAbove`. |
| Entries.IndexOf | sync.py:467 | `list.index`: the first position whose item equals the entry, or the length when none does. |
| Entries.InIndexOf | sync.py:328 | `in` on a list holds exactly when `index` finds a position. |
| Entries.RemoveFirst | sync.py:329 | `list.remove` drops exactly the item at the first equal position and keeps the rest in order. |
| Entries.CoreFiles | sync.py:512-515 | `core_files` lists only direct children (the flattening itself is sync.py:594-605). |
| Entries.Hashes | sync.py:527-535 | `hashes` holds a value exactly when some listed entry has that value as its hash. `None` is never in it (the loop of `_get_hashes` is sync.py:586-592). |
| Entries.PathSet | sync.py:537-545 | `paths` holds exactly the `path` of some listed entry. |
| Entries.PathList | sync.py:579-584 | `_get_paths` gives the `path` of each entry, position by position. |
| Entries.FullPathList | sync.py:547-555 | `_get_paths(no_root=True)` gives the `full_path` of each entry, position by position (the loop of `_get_paths` is sync.py:579-584). |
| Entries.NameList | sync.py:557-565 | The name lists give each entry's name, position by position. |
| Entries.MetadataList | sync.py:567-575 | The tag lists give each entry's current tag, position by position. |
| PathFacts.RootPaths | sync.py:178-202 | A root's `full_path` and `root_folder_path` are its name. Its `source`, `path` and `source_no_root` are empty (with `full_path` at sync.py:164-168 and `root_folder_path` at sync.py:136-143). |
| PathFacts.SourceStep | sync.py:194-202 | An entry's `source` is its parent's `source`, "/" and the parent's name with one trailing "/" removed. Just that name below a root (the parent links are set at sync.py:241-256). |
| PathFacts.ChildFullPath | sync.py:164-168 | Below a root with a proper name, a child's `full_path` is its non-empty `source`, "/" and its name. That `source` is the parent's `full_path`, or the root's name with one trailing "/" removed for a child of the root (the parent links are set at sync.py:241-256). |
| PathFacts.RootPrefix | sync.py:178-184 | The `full_path` of every entry starts with its `root_folder_path`, where `find` locates it, and `path` is what follows. |
| PathFacts.ChildPath | sync.py:178-192 | A child of a root has `source_no_root` "" and `path` "/name", or "name" below a root ending in "/". Deeper down, `source_no_root` is the parent's `path` and `path` adds "/name". |
| PathFacts.ChildPathLonger | sync.py:178-184 | A child's `path` is strictly longer than its parent's. |
| PathFacts.ResolveFullPath | sync.py:164-168 | On disk, a child's `full_path` is its parent's `full_path` with its name added. |
| PathFacts.AppendKeepsPaths | sync.py:20-27 | Building new objects changes no existing entry's paths. |
| TreeFacts.RootFolderAbove | sync.py:145-152 | `root_folder` lies on the entry's parent chain (it is the entry itself or an ancestor), and it is the only parentless object there. |
| TreeFacts.FilesNoDup | sync.py:594-605 | `files` lists no entry twice. |
| TreeFacts.FilesPostOrder | sync.py:594-605 | In `files`, every folder comes right after the entries of its own subtree. |
| TreeFacts.FilesDirect | sync.py:512-520 | Keeping only the direct children from `files` gives `core_files`, in insertion order (the flattening itself is sync.py:594-605). |
| TreeFacts.FilesBelow | sync.py:594-605 | Every entry of `files` lies strictly below the folder. |
| TreeFacts.FilesReach | sync.py:594-605 | An entry is in `files` if and only if the folder reaches it through child lists. |
| TreeFacts.FilesFrame | sync.py:594-605 | `files` depends only on the kinds and child lists of the folder's subtree. |
| HeapFacts.AppendOk | sync.py:298-306 | Building an object keeps the heap invariant (the base constructor is sync.py:20-38). |
| HeapFacts.AddChildOk | sync.py:403-405 | `add_file` of a child built for that folder keeps the invariant. |
| HeapFacts.ShrinkChildrenOk | sync.py:467 | Removing children from a folder keeps the invariant. |
| HeapFacts.SameLinksSameFiles | sync.py:594-605 | Two heaps with the same kinds and child lists flatten alike. |
| Equality.HashlessComparesByPath | sync.py:65-75 | An entry without a hash equals exactly the entries at its `path`. |
| Equality.BuiltFolderComparesByPath | sync.py:298-306 | A freshly built folder has no hash, so it compares by `path` alone (the hash is reset to `None` at sync.py:30). |
| Equality.EqNotSymmetric | sync.py:65-75 | There is a folder that equals a file at its path while the file does not equal the folder. |
| Replica.HashesSnoc | sync.py:586-592 | Adding an entry adds its hash to `hashes` only when it has one. |
| Replica.CollectHashes | sync.py:586-592 | The loop of `_get_hashes` computes the set of the non-`None` hashes. |
| Replica.CollectPaths | sync.py:579-584 | The loop of `_get_paths` computes each entry's `path` or `full_path`, in order. |
| Replica.PathListSet | sync.py:537-545 | `set(_get_paths())` is `paths`. |
| Replica.World.AddMetadata | sync.py:40-63 | Writes the given tag, or a generated 15-character alphanumeric one, to the path. An entry also stores it. Nothing else changes. |
| Replica.World.NewEntry | sync.py:20-38 | Builds one childless entry. Its stored tag is the tag already on disk, else a generated one that is written there. A file gets its contents' hash; a folder gets `None` (the `File` and `Folder` constructors are sync.py:263-265 and sync.py:298-306). |
| Replica.World.AddFile | sync.py:403-405 | Appends the child to the folder's own list and changes nothing else. |
| Replica.World.GetFiles | sync.py:594-605 | The accumulator recursion of `_get_files` returns `files` (or `core_files`) after the accumulator. |
| Replica.World.GetHashes | sync.py:586-592 | Returns `hashes` (or `core_hashes`). |
| Replica.World.GetPaths | sync.py:579-584 | Returns the `path` (or `full_path`) list of `files` (or `core_files`). |
| Replica.World.RenameSelfAsInput | sync.py:112-117 | `false` exactly when the entry exists and `os.rename` refuses; nothing has changed then. When the entry exists and the rename goes through, the disk record moves to `source + "/" + fl.file_name`, and the entry takes `fl`'s name and hash while its `source` stays. A vanished entry changes nothing. |
| Replica.World.LoadFiles | sync.py:376-401 | `false` exactly when the folder's path is not a directory, where `os.listdir` raises: the disk is then unchanged, and the folder's previous `files`, hashes and path set are kept as the old ones and its list emptied. Otherwise as `Replica.World.LoadTree`. |
| Replica.World.LoadTree | sync.py:376-401 | `old_files`/`old_hashes`/`old_paths` keep the previous `files`, hashes and path set. The rebuilt subtree mirrors exactly the disk below the folder, one entry per path. Only new tags are added to the disk, and existing objects keep their fields. |
| Replica.World.KeepOld | sync.py:382-390 | Saves `files`, `hashes` and `paths` into the old fields and empties the child list. |
| Loading.LoadKeeps | sync.py:376-401 | Loading keeps every existing object's parent, kind, name, hash and stored tag. |
| Loading.KeepsTrans | sync.py:376-401 | Keeping objects is transitive across a sequence of loads and builds. |
| Loading.LoadDone | sync.py:376-401 | The finished recursion of `load_files` meets its effect: the subtree mirrors the disk, and only tags below the folder were added. |
| Changes.FirstStored | sync.py:331-334 | The first leftover old entry whose stored tag equals the current tag, or none. |
| Changes.HandleEffect | sync.py:327-337 | One loop pass: a matched entry removes the first equal old entry; a modified one reports the old entry; a new one is reported as new. |
| Changes.HandleOutcome | sync.py:327-337 | Handling one entry appends exactly one outcome to those already recorded, and changes none of them. |
| Changes.ScanAccounts | sync.py:327-337 | Every current entry is handled in exactly one way. `modified` and `new_files` grow once per such outcome, and `old_files` shrinks by exactly the number of matched entries. |
| Changes.CountsAddUp | sync.py:327-337 | The three outcome counts add up to the number of current entries. |
| Changes.OutcomeAt | sync.py:327-337 | The outcome of the i-th entry is decided against the old entries left after the first i. |
| Changes.LeftFromOld | sync.py:327-337 | What is left of `old_files` is a sub-multiset of it. Modified reports come from `old_files`, new ones from the current list. |
| Changes.OutcomeMeaning | sync.py:328-334 | A matched entry equals some old entry. A modified report is an old entry storing the entry's tag, and no leftover entry equals the current one. |
| Changes.BrandNewReported | sync.py:327-337 | An entry that no old entry equals and whose tag no old entry stored is reported as new. |
| Changes.Removed | sync.py:340-342 | `removed` holds exactly the leftover old entries that equal no current entry. |
| Changes.RemoveFirstBag | sync.py:329 | `remove` takes exactly one copy of the matched item out of the multiset. |
| Changes.ScanNext | sync.py:327-337 | Scanning the first i+1 entries is scanning the first i and then handling entry i. |
| Changes.OutcomesPrefix | sync.py:327-337 | Scanning a prefix of the list records the same outcomes as the first entries of a full scan. |
| Searches.FirstWithPath | sync.py:415-420 | The first entry whose `path` is the given one, none before it. |
| Searches.Found | sync.py:415-420 | Falling off the loop returns `None`; otherwise the entry found. The same return shape ends `get_file` at sync.py:443-461. |
| Searches.FirstFitting | sync.py:443-461 | The first `File` that passes every given (truthy) filter, none before it. |
| Searches.NoFilterFirstFile | sync.py:453-460 | With no filter, `get_file` returns the first `File`; everything before it is a folder. |
| Searches.FilterNarrows | sync.py:453-460 | Adding filters never moves the answer earlier. |
| Searches.FirstWithPathAt | sync.py:415-420 | A position with the path and none before it is the answer. |
| Searches.FirstFittingAt | sync.py:443-461 | A fitting position with none before it is the answer. |
| Searches.PathListedFound | sync.py:415-420 | A path is in `paths` if and only if `get_folder_by_path` finds an entry for it. This is the test `_create_and_add_missing_folders` relies on at sync.py:630 and sync.py:643. |
| FolderOps.GetFolderByPath | sync.py:415-420 | Returns the first entry of `files` at the path, or `None`. |
| FolderOps.FirstIndex | sync.py:418-420 | The loop's index stops at the first position holding the path, or at the end when no position holds it. |
| FolderOps.FindPath | sync.py:418-420 | The loop of `get_folder_by_path` meets the specification. |
| FolderOps.GetFile | sync.py:443-461 | Returns the first `File` of `files` that fits every given filter, or `None`. |
| FolderOps.FindFile | sync.py:453-461 | The loop of `get_file` meets the specification. |
| FolderOps.Fits | sync.py:453-461 | The filter test of one entry in `get_file` holds exactly when the entry fits every given filter. |
| FolderOps.GetChanges | sync.py:314-344 | The three lists are those of the scan specification. `old_files` is left holding the unmatched old entries. Disk and clock are unchanged. |
| FolderOps.HandleOne | sync.py:327-337 | One pass takes the scan of the first i entries to the scan of the first i+1. A matched entry removes the first equal old entry. Otherwise the first old entry storing its tag is reported as modified, or else the entry is reported as new. |
| FolderOps.ScanLoop | sync.py:327-337 | The first loop of `get_changes` computes the scan specification: modified, new and leftover. |
| FolderOps.CollectRemoved | sync.py:340-342 | The second loop computes `removed`. |
| Creating.Pieces | sync.py:623-625 | The pieces of a path, without the last one when `folder` is false. |
| Creating.CreateMissing | sync.py:614-645 | Keeps existing objects. With no piece it does nothing. Otherwise `walk` (`new_folders`) holds one entry per prefix, and the answer is the last one, below the root. Each prefix already in `paths` maps to the listed entry with that `path`. Each missing one maps to a new `Folder` named by the prefix's last piece, listed under the root (first prefix) or the previous prefix's entry; its directory exists on disk. Old child lists only grow, and only by new folders. The disk gains only those directories and keeps every byte and tag. Below a root ending in "/", the answer's `path` is the pieces joined. |
| Creating.CreateStep | sync.py:628-643 | One prefix. One already in `paths` reuses the first listed entry whose `path` is the prefix, the one `get_folder_by_path` returns, and changes nothing. A missing one is made as `MakeFolder` states. Either way the walk so far keeps the meaning `CreateMissing` states. |
| Creating.MakeFolder | sync.py:631-640 | When `mkdir` of the prefix below the root's path is refused, `false` and nothing changes. Otherwise the disk gains exactly that directory and keeps all content. The heap gains exactly one object: a childless `Folder` named by the prefix's last piece, whose parent is the root or the previous prefix's entry, and that entry's `files` gains it at the end. |
| Creating.FirstHolding | sync.py:426-433 | The first folder of the root's `files` that equals the entry or sits at its `source_no_root`. |
| Creating.ListedMeaning | sync.py:425-433 | A container the loop finds is the entry's own parent (for a folder the entry equals) or a folder at its `source_no_root`. No container means no folder there. |
| Creating.FindContainer | sync.py:426-433 | The loop meets `Listed`. |
| Creating.CreatedContainer | sync.py:441 | For a file, the entry created for its `path` is the folder at its `source_no_root`, so that folder's parent is not. For a folder, the parent of the created entry is at its `source_no_root`. |
| Creating.GetFolderThatContains | sync.py:422-441 | As written. A found container or the root changes nothing. When folders are created for a file, the answer's `path` is not the file's `source_no_root`. |
| Creating.GetFolderThatContainsFixed | sync.py:422-441 | The corrected version: when folders are created, a file's answer's `path` is its `source_no_root`, and so is a folder's. |
| Copying.StampedSameContent | sync.py:286 | Tagging changes no bytes. |
| Copying.DoCopyFile | sync.py:270-291 | The copy lands the source's bytes and mtime at `fl`'s path or inside `fldr`. The copy carries the source's tag (a generated one when the source had none). `fldr` then lists a `File` with `fl`'s name (or the source's), added only when no equal entry was already in its `files`. A refusal before the copy changes nothing. The result is `false` exactly when the copy is refused or the `File` built for it finds no regular file to hash at `fldr`'s path plus the name (a directory there, say). In that last case the copy and its tag have already been written, and `fldr`'s list is unchanged. |
| Copying.CopyAndTag | sync.py:279-286 | `copy2` then `add_metadata`: the target has the source's content and mtime. Its tag is the source's tag, or a generated one when the source had none. Objects do not change. |
| Copying.DoCopyFolder | sync.py:363-374 | The location (`fl`'s name or the entry's, inside `fldr`) is a directory afterwards. `fldr`'s `files` changes, and it lists a `Folder` with the entry's own name. A refusal changes no object. |
| Copying.EnsureDir | sync.py:369-370 | Afterwards the location is a directory, exactly when it was one or `mkdir` can make it. Otherwise the disk is unchanged. Objects never change. |
| Copying.CopyOverOldestFile | sync.py:119-132 | A vanished entry changes nothing. With `fl`, a pair whose modification times cannot both be read gives `false` and changes nothing. If `fl` is strictly newer, `fl` is copied onto the entry inside the entry's parent, unless `fl` has vanished. Otherwise the entry is copied onto `fl`, or into `fldr` without `fl`. In each copy the target gets the source's bytes and tag, and the folder lists the result. |
| Popping.Pop | sync.py:463-473 | `pop_fl` only removes children from folders of the subtree. Every object outside the subtree is unchanged. What it returns is an existing entry. |
| Popping.PopHere | sync.py:466-467 | Pops the first child equal to the entry, from the folder's own list. |
| Popping.PopFl | sync.py:463-473 | The loop meets the specification `Pop`. |
| Popping.PopFound | sync.py:463-473 | What `pop_fl` returns was taken out of its parent's list and has the path of the entry sought. |
| Popping.PopAbsent | sync.py:463-473 | When no entry below equals the one sought, it returns `None` and changes nothing. |
| Choice.OfKind | sync.py:688 | Keeps only entries of the given kind. |
| Choice.FoldersFirstPermutes | sync.py:688 | The visit order is a permutation of the source's `files`. |
| Choice.FoldersFirstOrdered | sync.py:688 | No file is visited before a folder. |
| Choice.FoldersFirstStable | sync.py:688 | Each kind keeps its original order (the sort is stable). |
| Choice.SurveyMeaning | sync.py:698-720 | The four tests of a branch find a child with the entry's path, with its (real) hash, with its tag, and with its name. |
| Choice.PickFirstMatch | sync.py:698-723 | Each branch is taken exactly when its own test holds and no earlier one does. |
| Choice.PickPass | sync.py:722-723 | Nothing is done exactly when a child has the entry's name and, if a child has its path, children have its hash and tag. |
| Choice.PickHashless | sync.py:698-721 | A folder is never retagged or renamed: overwrite when its path is taken, copy when neither path nor name is, else nothing. |
| Equilibrium.AdoptStep | sync.py:698-701 | Exactly when a destination file has the entry's `source_no_root` and hash, that file gets the source tag (or a new one), on disk and stored. |
| Equilibrium.RenameStep | sync.py:704-711 | `true` exactly when a destination file has the hash, both modification times can be read, and the older entry (the source entry on a tie) has vanished or can be renamed. Then the older is renamed to the other's name, or nothing changes when it has vanished. |
| Equilibrium.OverwriteStep | sync.py:714-717 | For a file, `copy_over_oldest_file` with the destination file at its path: the newer of the two overwrites the other, carrying its bytes and tag. Without such a file the copy lands in the folder. A folder changes nothing. |
| Equilibrium.CopyStep | sync.py:720-721 | `copy_over_oldest_file` with no `fl`: an existing entry is copied into the destination folder, with its bytes and tag for a file, or as a directory for a folder. The folder lists the copy. A vanished entry changes nothing. |
| Equilibrium.Look | sync.py:698-720 | Computes the four membership tests from `core_paths`, `core_hashes`, `core_metadatas` and `core_file_names`. |
| Equilibrium.VisitEntry | sync.py:689-723 | An entry equal to some destination entry changes nothing. Otherwise the container is found (or created), the branch is `Pick` of the tests, and its effect is that branch's predicate. |
| Equilibrium.VisitNext | sync.py:689-723 | One pass of the loop visits the entry at the next position, and the record of passes grows by exactly that pass. |
| Equilibrium.InitEquilibrium | sync.py:679-723 | Visits the source's `files` folders first. Each visit is recorded with the states before and after it, and the last state is the result. |
| Equilibrium.ParentedOrder | sync.py:688 | Every entry of the visit order has a parent. |
| Syncing.AddOne | sync.py:351-353 | One new entry: a container is found or created for it (no container is `false`), and the entry is copied there as `copy_over_oldest_file` states. |
| Syncing.AddNewFiles | sync.py:350-353 | Visits every new entry in order. Each visit is recorded, and objects are kept. |
| Syncing.NewFilesListed | sync.py:314-344 | The new entries `get_changes` reports are objects of the heap it leaves. |
| Syncing.Compare | sync.py:745-746 | The test of a pass holds exactly when the source has no `old_files` or its `files` differ from them, and its `files` differ from the destination's. |
| Syncing.Syncer.constructor | sync.py:659-664 | `first_run` is false, both roots are built with the given names and no children, and no swap has happened. |
| Syncing.Syncer.ReverseFolders | sync.py:673-677 | Source and destination swap; nothing else changes. |
| Syncing.Syncer.GetFiles | sync.py:666-671 | `false` exactly when either root is not a directory, where `os.listdir` raises. Otherwise it loads the source, then the destination, each with the effect of `load_files`. |
| Syncing.Syncer.LoadAndBalance | sync.py:727-728 | Loads both roots, then balances the source into the destination. A root that is not a directory gives `false`. |
| Syncing.Syncer.InitSync | sync.py:725-731 | Two half-syncs, source into destination and then back, with one swap between them. |
| Syncing.Syncer.ActionChanges | sync.py:346-353 | Takes the source's changes (`old_files` left holding the unmatched entries) and copies exactly the new entries into the destination. |
| Syncing.Syncer.Pass | sync.py:745-749 | A pass acts exactly when the source's `files` differ from its `old_files` and from the destination's `files`. A pass that does not act changes nothing. It always swaps the roots once. |
| Syncing.Syncer.Sync | sync.py:733-749 | `first_run` becomes true. The first call swaps three times (so the roots end swapped), later calls twice (so their order is kept). |

## Left out

- Content hashing (`hash_file`, `dirhash`) is an opaque value read from the disk record. A folder's hash is always `None` anyway.
- Extended attributes are a field of the disk record. `secrets.choice` is any 15-character string over letters and digits.
- `print_tree`, `size`, `accessed`, the `print` calls, `__hash__`, `move_file_to_folder` and `delete_self` are not modelled. They are output, formatting or unused.
- The `__main__` polling loop with `time.sleep` is not modelled.
- The empty handlers `_remove_deleted_files` and `_ammend_modified_files` are not modelled. They are empty, and `_action_changes` never calls them.
- `_ignore` (set only for a bare `_BaseFile`) is not modelled.
- The `PermissionError` path of `add_metadata` is not modelled: a refused tag write is not distinguished from a missing path, and both leave the disk unchanged.
- Datetimes are integers.
- Disk.Rename: only a file source is modelled. A directory source counts as a refused rename and changes nothing, where `os.rename` would move the whole subtree. Only file renames reach it (see Replica.World.RenameSelfAsInput).
- Exceptions that would escape are not modelled as exceptions: a failing `mkdir`/`copy2`/`rename`, a `stat` that cannot read a modification time in `__gt__`, `old_files` still `None`, no container for a new entry, `hash_file` of a path that is not a regular file in the `File` that `File.do_copy` builds, `os.listdir` of a folder that is not a directory. The method returns `false` instead. Where the contract says which inputs raise and what had changed by then, that is stated; otherwise nothing is promised about the state it stops in.
- Copying.DoCopyFile: with `fl` given and `fldr` missing or not a folder, Python copies and tags before it raises. The model raises first and changes nothing. No caller passes such a `fldr`.
- Replica.World.RenameSelfAsInput: a path that is a directory on disk is never renamed; that counts as a refused rename. Only files reach it: both entries carry a hash, and a folder's hash is `None`.
- Equilibrium.VisitEntry: finds the container with Creating.GetFolderThatContainsFixed, not the version as written (see "## Findings"). For a new file whose directory has to be created, the program as written copies it one level too high; the model does not.
- Equilibrium.InitEquilibrium: uses the corrected container through Equilibrium.VisitEntry.
- Syncing.AddOne: finds the container with Creating.GetFolderThatContainsFixed, not the version as written (see "## Findings").
- Syncing.AddNewFiles: uses the corrected container through Syncing.AddOne.
- Syncing.Syncer.ActionChanges: uses the corrected container through Syncing.AddNewFiles.
- Syncing.Syncer.LoadAndBalance: uses the corrected container through Equilibrium.InitEquilibrium.
- Syncing.Syncer.InitSync: uses the corrected container through Syncing.Syncer.LoadAndBalance.
- Syncing.Syncer.Pass: uses the corrected container through Syncing.Syncer.ActionChanges.
- Syncing.Syncer.Sync: uses the corrected container through Syncing.Syncer.InitSync and Syncing.Syncer.Pass.
- Replica.World.LoadFiles: the order in which `os.listdir` yields names is left open. The child list is stated as a mirror of the directory, not as a particular order.
- Creating.CreateMissing: the `path` of the returned entry is stated only for roots whose name ends in "/" (as the program is started). Below other roots the relative paths carry a leading "/" that `get_folder_by_path` never matches.
- Creating.CreateMissing: requires a root folder, as every caller passes one.
- Creating.GetFolderThatContains: when the entry equals a listed folder, the answer is the entry's own parent; only that fact is stated (sync.py:428-429).
- Equilibrium.OverwriteStep: for a folder, the source branch does nothing; the model says only that.
- Equilibrium.InitEquilibrium, Syncing.AddNewFiles, Syncing.Syncer.InitSync, Syncing.Syncer.Sync: when a step would raise, the rest is not described.
- Syncing.Syncer.Sync: states the order of the roots and `first_run`. What each pass does is stated by Syncing.Syncer.Pass.
- Popping.PopFl: when two siblings share a path, only the first equal child is popped. The model states this through `Pop`, not through a list-level postcondition.
- Concurrency and the real filesystem's timing are not modelled.

## Findings

| source | as written | input that shows it | evidently intended | confidence | as-written member | corrected member |
|---|---|---|---|---|---|---|
| sync.py:441 | `get_folder_that_contains` returns the `parent_folder` of the entry created for `fl.path` even when `fl` is a `File`. For a file, that entry is already the folder that should hold it. | Both roots are given with a trailing "/" (`src/`, `dest/`). Between two `sync` calls the source gains folder `a` holding `b.txt`. `files` is post-order, so `_add_new_files` meets `b.txt` (`path` `a/b.txt`) before `a`. It creates `dest/a` but answers the root, and the file is copied to `dest/b.txt`. | For a file, return the entry created for its directory; for a folder, its parent. | not executed | Creating.GetFolderThatContains | Creating.GetFolderThatContainsFixed |
