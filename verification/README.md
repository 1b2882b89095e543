# ShirleysOS kernel: verified models

A Dafny model of eight parts of the ShirleysOS kernel whose correctness spans many calls:
the exFAT write path, the write-back block cache, the kernel heap, the x86_64 page tables,
ext4 block mapping, UTF-16 and WTF-8 conversion, the physical page allocator, and the input
ring with VFS path resolution. `dafny verify dfyconfig.toml` checks all of it.

Each part with state is a class with the fields the kernel keeps, an invariant (`Valid`), and methods
with the kernel's own loops and branches. A ghost field or a specification function gives
the value the class stands for, and every method says how that value changes.

- **exFAT** (`Exfat*.dfy`). FAT words, bitmap bytes, cluster bytes and directory slots are
  modelled as stored. Ghost state names the cluster list of every live stream (`lay`), the
  entry sets of every directory (`dirs`) and a rank that makes the directories a tree.
  `Valid` says that lists, bitmap and FAT agree, that each directory's bytes parse to
  exactly its sets, and that no two streams share a cluster. The layers are `ExfatDisk`
  (chains and bytes), `ExfatLayout` (who owns which cluster), `ExfatEntries` and
  `ExfatDirectory` (entry sets as bytes), `ExfatTree`, `ExfatMoves`, `ExfatIds`,
  `ExfatFiles`, `ExfatRename` (what an operation keeps), and `ExfatVolume` (the driver).
  `Volume.Format` constructs an empty volume, so `Valid` can be met; `ExfatRuns` starts from
  it. `MoveGuard` sets the VFS guard of `rename` against the volume's names.
- **Block cache** (`BlockCache.dfy`). Any device transfer may fail, and a failed write may
  leave anything in its own range. `view` is the plain block array the cache stands for.
- **Heap** (`Heap.dfy`). Memory is 16-byte cells, so a payload may look like headers.
- **Page tables** (`Paging.dfy`). Entries are 64-bit words; table pages hang in a radix tree
  that stands for a finite map on 36-bit page numbers (Intel SDM volume 3A, section 4.5).
- **ext4** (`Ext4*.dfy`). Extent trees and pointer blocks are bytes, sound or not.
- **UTF** (`Utf.dfy`). Both conversion loops, against `Encode` and `Decode`
  (section 3 of RFC 3629, with surrogates allowed).
- **Page allocator** (`PageExtents.dfy`, `PageAllocator.dfy`). Extent arrays edited in place.
- **Input ring** (`InputQueue.dfy`). Each load and store of a shared cell is one step of a
  state machine; the two parties interleave freely.
- **VFS paths** (`VfsPath.dfy`, `Vfs.dfy`). Character buffers against a stack of components.

Loops that copy or compare bytes are kept; calls into other parts of the kernel (the heap
behind the cache, the page allocator behind the page tables, file systems below the VFS)
are parameters or free choices.

## Findings

- **`insert_extent` can lose an extent** (kernel/memory/page_allocator.cpp:63). The copy runs
  from the last extent down also when it moves extents down. When two or more extents are
  absorbed and at least as many follow, an extent is overwritten before it is read.
  `PageExtents.InsertExact` proves that insertion is set union, and keeps the list in order,
  if and only if `MovesSafely` holds: at most one extent is absorbed, or fewer follow than
  are absorbed. `PageExtents.InsertExample` is the smallest case: filling the gap between
  4096..8192 and 12288..16384 with 20480..24576 and 28672..32768 behind them drops the third
  extent and doubles the fourth. `PageAllocator.LosesPage` reaches such a state from an
  8-page map with seven `allocate_page` and four `free_page` calls; page 20480, given back
  by the third of the four, is no longer free. `Allocator.FreePage` states the exact
  condition for every call. `PageAllocator.AscendingOrderly` shows that `initialize` is not
  affected by a map that lists its usable regions in ascending order.
- **`rename` can move an exFAT directory into itself** (kernel/fs/vfs.cpp:546-548). The VFS
  guard compares the bytes of the two paths, while exFAT looks names up after folding case,
  and exFAT's own `rename` has no guard. Renaming "/a" to "/A/b" passes, and the target is
  the directory being moved: `MoveGuard.GuardRun` builds such a volume from `Format` and
  `create`. `MoveGuard.GuardExact` proves that the target lies in the moved directory if and
  only if the path of the one starts with the path of the other, component by component
  after folding case; what the guard refuses it refuses rightly, and what it misses is
  exactly the targets spelled differently. `ExfatMoves.MoveExact` proves that a move leaves a
  tree if and only if a directory does not go into itself or below; otherwise
  `ExfatMoves.CutOff` shows that no ranking makes the result a tree.
- **exFAT `create` can report an error for a set it has added** (kernel/fs/exfat.cpp:839-841).
  A name of at most 255 UTF-16 units whose UTF-8 form is longer than 255 bytes is written to
  disk, and then `to_node` fails, so the result is InvalidArgument. `Volume.Create` states
  that this happens exactly for names of more than 255 bytes. `ExfatRuns.LongName` gives such
  names, 86 to 255 times U+0800, and `ExfatRuns.LongNameAdded` is the run. The VFS passes no such name, since `parent_of` copies it into 256 bytes
  (kernel/fs/vfs.cpp:205).
- **`translate` answers 0 both for no mapping and for offset 0 of frame 0**
  (arch/x86_64/paging.cpp:134-152). `PageTable.Translate` states that it answers 0 in these
  two cases and no other. `Paging.FrameZero` maps a page to frame 0, leaves another unmapped,
  and gets 0 for both.
- **exFAT `insert` grows a directory by one cluster only** (kernel/fs/exfat.cpp:1206-1246).
  With clusters of 512 bytes a long set may still not fit, and the call ends in NoSpace
  although clusters are free: `ExfatRuns.FilledRoot` gets there with one `create` on a new
  volume of 100 clusters, and the next one fails (`ExfatRuns.ShortRoot`). `Volume.Insert`,
  `Create` and `Rename` state when they succeed as an if-and-only-if for every cluster size.
  `ExfatDirectory.GrownExact` gives the condition in numbers: the free slots at the end of
  the directory and those of one cluster must together hold the set. From 1024 bytes on one
  cluster is always enough (`Volume.RoomyClusters`).

## Model

| member | source | states |
|---|---|---|
| ExfatVolume.Volume.ClusterAt | kernel/fs/exfat.cpp:428-457 | With the resume cursor, the cluster found is the one a walk from the first cluster reaches under the FAT as it is now, for contiguous and chained streams; the cursor stays right |
| ExfatVolume.Volume.ReadStream | kernel/fs/exfat.cpp:459-481 | The bytes of the stream's cluster list in order, cut at the stream's length |
| ExfatVolume.Volume.WriteStream | kernel/fs/exfat.cpp:959-980 | Splices the bytes into the content of the stream's own clusters and touches no other cluster; past the end it changes nothing |
| ExfatVolume.Volume.ZeroStream | kernel/fs/exfat.cpp:982-992 | The given range of the stream's content becomes zeros, nothing else changes |
| ExfatVolume.Volume.BitmapTest | kernel/fs/exfat.cpp:1001-1007 | The mark of that cluster in the bitmap as stored, and it always answers |
| ExfatVolume.Volume.BitmapSet | kernel/fs/exfat.cpp:1009-1017 | Exactly one cluster's mark changes in the bitmap as stored |
| ExfatVolume.Volume.AllocateCluster | kernel/fs/exfat.cpp:1027-1063 | Hands out a free cluster, the preferred one if it is free, marks exactly that one, and fails only when none is free |
| ExfatVolume.Volume.ReleaseClusters | kernel/fs/exfat.cpp:1071-1097 | The kept part of the list is still a valid stream; exactly the rest is unmarked; other links stay |
| ExfatVolume.Volume.Grow | kernel/fs/exfat.cpp:1106-1147 | The growing half of `resize`: succeeds if and only if enough clusters are free, appends to the list, and undoes its own marks byte for byte when it cannot finish |
| ExfatVolume.Volume.Resize | kernel/fs/exfat.cpp:1106-1147 | Keeps the common prefix of the cluster list, also when it turns a contiguous stream into a chain; leaves every other list as it is; succeeds if and only if enough clusters are free; on NoSpace the bitmap is byte for byte as before; cluster count plus free clusters is conserved |
| ExfatVolume.ReshapeCount | kernel/fs/exfat.cpp:1106-1147 | What one cluster list gains or loses is exactly what the free clusters lose or gain |
| ExfatLayout.ReshapeKeeps | kernel/fs/exfat.cpp:1106-1147 | Replacing one list by clusters that were its own or free keeps every other stream intact and the bitmap exact |
| ExfatVolume.Volume.NextEntry | kernel/fs/exfat.cpp:491-560 | Finds the next entry set of the directory at or after a slot, with its decoded name, attributes and stream, and never one past the end marker |
| ExfatDirectory.InsertKeeps | kernel/fs/exfat.cpp:1198-1247 | Writing a good set into a free run that follows no end marker makes the directory parse to the old sets and that one |
| ExfatDirectory.StoreKeeps | kernel/fs/exfat.cpp:1153-1173 | Rewriting the stream fields and the checksum of one set changes that set's stream alone; every other set parses as before |
| ExfatDirectory.EraseKeeps | kernel/fs/exfat.cpp:1178-1188 | Clearing the in-use bits of a set removes that set and no other, and exposes no end marker |
| ExfatDirectory.GrowKeeps | kernel/fs/exfat.cpp:1222-1246 | A zeroed cluster at the end of a directory adds no set and takes none away |
| ExfatDirectory.GrownExact | kernel/fs/exfat.cpp:1206-1246 | A directory without a free run of n slots has one after it grew if and only if its free slots at the end and the new ones make n |
| ExfatDirectory.GrownShort | kernel/fs/exfat.cpp:1206-1246 | A directory with every slot in use has no run of 17 slots or more, and none after growing by 512 bytes |
| ExfatEntries.AssembledSet | kernel/fs/exfat.cpp:807-842 | A File entry, a Stream Extension with the name's length and hash, and the name entries, under the set checksum, parse back to exactly that name, attributes and stream |
| ExfatEntries.StoredSet | kernel/fs/exfat.cpp:1153-1173 | A good set with new stream fields and a new checksum is good, and decodes to the stream just stored with all else as it was |
| ExfatEntries.HashOfUpcase | kernel/fs/exfat.cpp:577-585 | Names that fold alike have one hash, so comparing hashes first hides no match |
| ExfatVolume.Volume.Find | kernel/fs/exfat.cpp:642-655 | Finds a set if and only if one has an up-case-equal name; the hash comparison never hides a match |
| ExfatVolume.Volume.Locate | kernel/fs/exfat.cpp:587-606 | An identifier resolves to the set it was made for, read through the parent as the identifier remembers it, even after the parent has become chained |
| ExfatIds.IdRoundTrip | kernel/fs/exfat.cpp:121-142 | First cluster, slot and layout bit all come back out of an identifier |
| ExfatIds.HandleKept | kernel/fs/exfat.cpp:121-142 | An identifier stays good while the directory only grows or turns from contiguous to chained |
| ExfatIds.HandleReaches | kernel/fs/exfat.cpp:121-142 | The part of the parent an old identifier walks is a true prefix of the directory's cluster list now |
| ExfatVolume.Volume.IdsStay | kernel/fs/exfat.cpp:121-142 | An identifier valid before an operation is valid after it as long as its set exists, across growth and conversion of the parent |
| ExfatVolume.Volume.Store | kernel/fs/exfat.cpp:1153-1173 | The set at a slot has the new stream, all other sets and the tree are untouched |
| ExfatVolume.Volume.Erase | kernel/fs/exfat.cpp:1178-1188 | The directory loses that one set, and no cluster but its own changes |
| ExfatVolume.Volume.Insert | kernel/fs/exfat.cpp:1198-1247 | One set is added in a free run, if need be after growing the directory by one zeroed cluster; succeeds if and only if there is such a run now, or a cluster can be had and there is one then; with a run at hand the root is not lengthened and no cluster is taken |
| ExfatVolume.Volume.RoomyClusters | kernel/fs/exfat.cpp:1206-1246 | With clusters of 1024 bytes or more there is room whenever a cluster can be had |
| ExfatVolume.Volume.Read | kernel/fs/exfat.cpp:684-706 | The requested window of the file's byte sequence: stored bytes up to ValidDataLength, zeros up to DataLength |
| ExfatVolume.Volume.Write | kernel/fs/exfat.cpp:708-750 | Success splices the data into the zero-padded old content; the result code is an exact function of the request and the free space; every other file keeps its bytes |
| ExfatVolume.Volume.Truncate | kernel/fs/exfat.cpp:754-770 | The file is cut or zero-extended to the size; bytes cut off earlier and stale cluster bytes never come back |
| ExfatVolume.Volume.Create | kernel/fs/exfat.cpp:777-842 | Exactly one set is added, with the decoded name, attributes and stream; the checks fail in order with the tree unchanged; NoSpace leaves the same sets and happens exactly without room, for every cluster size; the node returned names the set; a name of more than 255 bytes, and no other good name, is reported as an error after the set was added |
| ExfatRuns.LongName | kernel/fs/exfat.cpp:839-841 | 86 to 255 times U+0800 is a good name of more than 255 bytes |
| ExfatRuns.LongNameAdded | kernel/fs/exfat.cpp:839-841 | A run in which `create` answers InvalidArgument and the set is in the root |
| ExfatRuns.FilledRoot | kernel/fs/exfat.cpp:1206-1246 | A run on a new volume of 512-byte clusters to a state with clusters free in which a name that passes every check has no room |
| ExfatRuns.ShortRoot | kernel/fs/exfat.cpp:1206-1246 | The same run with one more `create`, which answers NoSpace |
| ExfatRuns.NeverRoom | kernel/fs/exfat.cpp:1206-1246 | However many clusters are free, a root of 512-byte clusters with every slot in use takes no set of 17 slots or more |
| ExfatVolume.Volume.Remove | kernel/fs/exfat.cpp:844-864 | Exactly one set goes, the one of that name, and (with `Exact`) its clusters are free; a directory only when empty; each error happens exactly on its own condition, with the tree unchanged; every other file keeps its bytes |
| ExfatVolume.Volume.Rename | kernel/fs/exfat.cpp:866-925 | One set moves with its attributes, stream and file bytes, under the new name; every other set stays; the checks fail in order with the tree unchanged; NoSpace leaves the same sets and happens exactly without room, for every cluster size |
| ExfatVolume.Volume.Lookup | kernel/fs/exfat.cpp:657-663 | The node of the set with that name, if one exists; a name as listed looks up to the node it was listed with |
| ExfatVolume.Volume.List | kernel/fs/exfat.cpp:665-682 | The set with exactly `position` shown sets before it |
| ExfatVolume.Volume.Exact | kernel/fs/exfat.cpp:708-925 | Between operations a cluster belongs to at most one stream, every stream is the root, the bitmap, the up-case table or that of a live set, and the bitmap marks a cluster if and only if it belongs to one |
| ExfatMoves.ShapeMoved | kernel/fs/exfat.cpp:866-925 | Moving a directory anywhere but into itself keeps the directories a tree |
| ExfatMoves.MoveExact | kernel/fs/exfat.cpp:866-925 | After a move there is a ranking that makes the directories a tree if and only if a directory did not go into itself or below |
| ExfatMoves.CutOff | kernel/fs/vfs.cpp:546-548 | A directory moved into itself or below is cut off: under no ranking is the result a tree |
| MoveGuard.GuardMisses | kernel/fs/vfs.cpp:546-548 | For names "a" and "A" that fold alike, "/A/b" does not start with "/a" as bytes, and yet the target is the directory being moved |
| MoveGuard.GuardRun | kernel/fs/vfs.cpp:546-548 | A run from an empty volume to a state in which that rename passes every check of `rename` and the guard, and its target is the directory being moved |
| MoveGuard.InsideExact | kernel/fs/vfs.cpp:546-548 | A directory lies in another if and only if its path starts with the other's, component by component after folding |
| MoveGuard.GuardExact | kernel/fs/vfs.cpp:546-548 | The guard refuses only targets inside the moved directory, and misses exactly those whose path spells that directory differently |
| MoveGuard.OnePath | kernel/fs/exfat.cpp:642-655 | A directory has one path, but for how its components are spelled |
| ExfatRename.MovesMake | kernel/fs/exfat.cpp:866-925 | Writing the new set, relabelling its clusters and erasing the old set is one move |
| BlockCache.Cache.Initialize | kernel/io/block_cache.cpp:34-62 | Succeeds under exactly the kernel's conditions, and then the view is the device |
| BlockCache.Cache.Find | kernel/io/block_cache.cpp:197-201 | An entry holding the block, if and only if one does |
| BlockCache.Cache.Victim | kernel/io/block_cache.cpp:211-220 | An unpinned entry if there is one: the first empty one, else the one unused the longest, the first of several |
| BlockCache.Cache.WriteBack | kernel/io/block_cache.cpp:222-227 | Success makes the block clean and the device agree; failure leaves it valid and dirty, whatever the device did to its range |
| BlockCache.Cache.Acquire | kernel/io/block_cache.cpp:116-161 | A pinned buffer of that block; reading leaves the view alone; no pinned buffer is reassigned; it succeeds on a hit, and on a miss whenever a buffer is free and no transfer failed; failure changes nothing visible |
| BlockCache.Cache.Edit | kernel/io/block_cache.cpp:116-161 | What a holder writes into an acquired buffer is at once the view of that block, and of no other |
| BlockCache.Cache.Release | kernel/io/block_cache.cpp:163-168 | One pin less, dirty if said so, no other entry touched |
| BlockCache.Cache.ReadBlocks | kernel/io/block_cache.cpp:82-97 | The view's blocks; after a failure, exactly those before it; with a free buffer and no failed transfer it succeeds |
| BlockCache.Cache.WriteBlocks | kernel/io/block_cache.cpp:99-114 | After a failure at block i, exactly the first i blocks of the view have changed |
| BlockCache.Cache.Sync | kernel/io/block_cache.cpp:170-185 | The view never changes; succeeds if and only if no transfer failed, and then nothing is dirty and, with nothing being edited, the device holds the view |
| BlockCache.Cache.Shutdown | kernel/io/block_cache.cpp:64-74 | Drops the buffers only when the device holds the whole view |
| BlockCache.Cache.DirtyCount | kernel/io/block_cache.cpp:187-192 | The number of blocks not yet written back |
| BlockCache.Cache.ViewIs | kernel/io/block_cache.cpp:197-201 | The view is the one cached copy, else the device; an entry neither dirty nor being edited agrees with the device |
| BlockCache.ViewDetermined | kernel/io/block_cache.cpp:116-185 | Cache and device determine the view |
| BlockCache.Evicted | kernel/io/block_cache.cpp:136-150 | Giving up a clean, unpinned buffer, whatever it holds afterwards, leaves the view as it was |
| BlockCache.Flushed | kernel/io/block_cache.cpp:170-185 | With nothing dirty and nothing being edited the device holds the whole view |
| Heap.KernelHeap.Initialize | kernel/memory/heap.cpp:82-95 | The aligned part of the region becomes one free block, or the heap is empty |
| Heap.KernelHeap.AllocatedBlock | kernel/memory/heap.cpp:70-78 | True exactly for the start of a block in use, whatever bytes payloads hold |
| Heap.KernelHeap.Allocate | kernel/memory/heap.cpp:97-143 | Fails if and only if no free block can serve the request; else takes the lowest block that fits, carved into gap, allocation and tail; with default alignment it succeeds exactly when the rounded size is at most `largest_available()` |
| Heap.KernelHeap.Free | kernel/memory/heap.cpp:145-180 | A pointer to a live allocation gives its block back, merged with both free neighbours; any other pointer changes nothing |
| Heap.KernelHeap.LargestAvailable | kernel/memory/heap.cpp:185-190 | The payload of the largest free block |
| Heap.KernelHeap.Consistent | kernel/memory/heap.cpp:192-217 | Returns true in every reachable state |
| Heap.KernelHeap.UserWrite | kernel/memory/heap.cpp:64-78 | Any bytes written inside a live payload keep the heap sound |
| Heap.KernelHeap.AllocateFree | kernel/memory/heap.cpp:97-180 | Allocating and freeing at once restores the block layout, the free list and the free count, for any size and alignment |
| Heap.LiveApart | kernel/memory/heap.cpp:97-143 | Live allocations lie inside the heap, aligned as asked, and apart |
| Heap.CarvedChained | kernel/memory/heap.cpp:127-140 | Splitting keeps the free list exactly the free blocks in address order |
| Heap.FreedChained | kernel/memory/heap.cpp:154-179 | Merging keeps the free list exactly the free blocks in address order |
| Heap.CarvedSums | kernel/memory/heap.cpp:127-140 | Carving leaves no two free blocks side by side, and lowers the free cells by exactly the block taken |
| Heap.FreedSums | kernel/memory/heap.cpp:154-179 | Merging leaves no two free blocks side by side, and raises the free cells by exactly the block given back |
| Heap.FreeUndoes | kernel/memory/heap.cpp:97-180 | Freeing the piece just carved restores the list of blocks |
| Paging.IndexWraps | arch/x86_64/paging.cpp:33-35 | An index depends on the low 36 bits of the page number only |
| Paging.PageTable.Initialize | arch/x86_64/paging.cpp:85-92 | Succeeds if and only if there is a tree or a free page for its root, and maps nothing |
| Paging.PageTable.Descend | arch/x86_64/paging.cpp:39-56 | The table one level down; a new one is empty, taken from the free pages, and changes no translation |
| Paging.PageTable.Map | arch/x86_64/paging.cpp:102-117 | The map gains that page and no other; it succeeds if and only if the tree is set up, both addresses are aligned and the missing tables are no more than the free pages; failing changes no translation |
| Paging.PageTable.Unmap | arch/x86_64/paging.cpp:119-132 | Succeeds if and only if the page is mapped, and removes it alone |
| Paging.PageTable.Translate | arch/x86_64/paging.cpp:134-152 | The abstract map's answer at every address, which is 0 if and only if the page is not mapped or the address is offset 0 of frame 0 |
| Paging.FrameZero | arch/x86_64/paging.cpp:134-152 | A run in which a page mapped to frame 0 and a page not mapped both translate to 0 |
| Paging.PageTable.FreeLevel | arch/x86_64/paging.cpp:69-79 | Gives back the tables of one subtree, each once, and no other page |
| Paging.PageTable.Destroy | arch/x86_64/paging.cpp:94-100 | Every page the tree took is free again and no other page is freed |
| Paging.TableAdded | arch/x86_64/paging.cpp:39-56 | After a table is hung in, exactly one more place is reached and all others are reached as before |
| Paging.Leaf | arch/x86_64/paging.cpp:58-64 | The word written decodes to the frame and the flags asked for |
| Ext4Volume.Volume.MapExtent | kernel/fs/ext4.cpp:386-479 | On any bytes it ends, and blocks it names lie in the volume; on a sound tree the answer is the tree's mapping for the whole run, from the memo or by descent; it fails only on a failed read or an unsound tree |
| Ext4Extents.Apart | kernel/fs/ext4.cpp:386-479 | No two extents of a sound tree cover one block |
| Ext4Extents.OnePlace | kernel/fs/ext4.cpp:386-479 | A sound tree is a function from logical to physical blocks |
| Ext4Extents.Inside | kernel/fs/ext4.cpp:386-479 | The extents of a sound tree lie in its range of logical blocks and in the volume |
| Ext4Extents.Search | kernel/fs/ext4.cpp:452-472 | Only the entry whose range holds a block can lead to an extent covering it |
| Ext4Volume.Volume.MapIndirect | kernel/fs/ext4.cpp:484-525 | The pointer the block's number, in base pointers-per-block, leads to; refused exactly when that leaves the volume or a read fails |
| Ext4Indirect.FromTop | kernel/fs/ext4.cpp:512-520 | Walking from the top by quotient and remainder is following the digits of the block number |
| Ext4Volume.Volume.MapBlock | kernel/fs/ext4.cpp:368-378 | One answer for both kinds of map, right for the whole run, zeros past the limit |
| Ext4Volume.Volume.ReadInode | kernel/fs/ext4.cpp:527-555 | The file's bytes as its map places them, holes as zeros, up to the file's size; what was read before a failure is right |
| Ext4Volume.Volume.LoadBlock | kernel/fs/ext4.cpp:563-580 | The buffer holds the directory block it is said to hold, although mapping shares it |
| Ext4Volume.Volume.ReadBytes | kernel/fs/ext4.cpp:248-274 | The device's bytes from a place in a block on; what came before a failure is right |
| Ext4Volume.LocatedOnce | kernel/fs/ext4.cpp:368-378 | In a sound file every block has one place |
| Utf.DecodeEncode | kernel/text/utf.cpp:11-103 | UTF-16 to WTF-8 and back is the identity on every null-free unit sequence, lone surrogates included |
| Utf.EncodeDecode | kernel/text/utf.cpp:11-103 | WTF-8 to UTF-16 and back is the identity on every accepted byte string |
| Utf.OneSpelling | kernel/text/utf.cpp:53-103 | Two accepted byte strings with the same units are the same bytes |
| Utf.Utf16ToUtf8 | kernel/text/utf.cpp:11-51 | Succeeds exactly when the name is null-free and fits with its terminator, writing its encoding; else leaves the empty string |
| Utf.Utf8ToUtf16 | kernel/text/utf.cpp:53-103 | Succeeds exactly when the bytes are WTF-8 and the units fit, writing those units |
| PageExtents.InsertExtent | kernel/memory/page_allocator.cpp:52-67 | The list the two scans and the downward copy leave, overwritten entries included; refused only by a full table |
| PageExtents.InsertExact | kernel/memory/page_allocator.cpp:52-67 | Insertion is set union, and leaves the list in order, if and only if at most one extent is absorbed or fewer follow than are absorbed |
| PageExtents.InsertLoses | kernel/memory/page_allocator.cpp:63-63 | Unless the move is safe, the first extent that follows loses its first page |
| PageExtents.InsertRepeats | kernel/memory/page_allocator.cpp:63-63 | Unless the move is safe, the list is no longer in order |
| PageExtents.InsertExample | kernel/memory/page_allocator.cpp:63-63 | Absorbing the first two of four extents loses the third and doubles the fourth |
| PageExtents.SubtractExtent | kernel/memory/page_allocator.cpp:69-92 | The pieces each extent is cut into, in order, on any list, with the room there is at each split |
| PageExtents.SubtractExact | kernel/memory/page_allocator.cpp:69-92 | The list stays in order and denotes a part of the difference, and all of it if and only if there is room or nothing is split |
| PageAllocator.UsablePages | kernel/memory/page_allocator.cpp:22-34 | A page counts as usable when all of it is, page 0 aside |
| PageAllocator.ReservedPages | kernel/memory/page_allocator.cpp:36-50 | A page counts as reserved when any of it is |
| PageAllocator.Allocator.Initialize | kernel/memory/page_allocator.cpp:115-134 | The managed list is what inserting and cutting in order leave; the allocator is sound for every map taken in order |
| PageAllocator.InitialPages | kernel/memory/page_allocator.cpp:115-134 | For such a map only usable pages are managed and never a reserved one; all of them when there are no more regions than table entries |
| PageAllocator.AscendingOrderly | kernel/memory/page_allocator.cpp:118-122 | Usable regions in ascending order are taken in order |
| PageAllocator.Allocator.CountPages | kernel/memory/page_allocator.cpp:94-103 | The pages of all extents together, but never more than the largest size_t |
| PageAllocator.NeverStops | kernel/memory/page_allocator.cpp:94-103 | Extents of 64-bit addresses, as many as the table may hold, never reach the count at which `count_pages` stops |
| PageAllocator.Allocator.Contains | kernel/memory/page_allocator.cpp:105-111 | True exactly for addresses in the list, although it stops at the first extent past the address |
| PageAllocator.Allocator.AllocatePage | kernel/memory/page_allocator.cpp:136-146 | The lowest free page leaves the free set, and nothing else does; 0 exactly when none is free |
| PageAllocator.TakenMeans | kernel/memory/page_allocator.cpp:136-146 | Taking a page keeps the list in order, takes exactly the lowest page, and lowers the total by one page |
| PageAllocator.Allocator.FreePage | kernel/memory/page_allocator.cpp:148-152 | A page not managed, already free or unaligned is ignored, and so is one a full table has no room for; otherwise the allocator stays sound, with exactly that page added, if and only if the insertion moves safely |
| PageAllocator.TakenBack | kernel/memory/page_allocator.cpp:136-152 | Freeing the page just allocated restores the free list itself |
| PageAllocator.LosesPage | kernel/memory/page_allocator.cpp:136-152 | A run of allocations and frees on a sound allocator, at the end of which page 20480, managed and given back earlier, is not free, and another page is free twice |
| InputQueue.RunSafe | kernel/io/input_queue.cpp:14-42 | For every interleaving, what was read or cleared is in order a prefix of what was accepted, the rest sits unread in the ring, at most 255 of them, `available` counts them, and no store hits an unread slot |
| InputQueue.NotOverwritten | kernel/io/input_queue.cpp:14-27 | The slot `push` is about to write holds no unread character |
| InputQueue.OnlyWhenFullOrEmpty | kernel/io/input_queue.cpp:14-42 | A character is dropped only when 255 wait, and a read stops early only when none does |
| VfsPath.FixedPoint | kernel/fs/vfs.cpp:328-361 | A normal path is a fixed point of normalization, and fits wherever it fits |
| VfsPath.ComponentsRender | kernel/fs/vfs.cpp:328-361 | Splitting a rendered stack gives the stack back |
| VfsPath.RenderOnce | kernel/fs/vfs.cpp:328-361 | A normal path stands for one stack of components |
| VfsPath.StartsWithIs | kernel/fs/vfs.cpp:58-64 | The byte test for "lies under" is the prefix test on components |
| VfsPath.LongerPath | kernel/fs/vfs.cpp:72-84 | Of two mounts covering one path, the longer path has more components, and equally long ones are the same |
| Vfs.RemoveLast | kernel/fs/vfs.cpp:37-44 | The buffer holds the path of the parent; the root's parent is the root |
| Vfs.AppendComponent | kernel/fs/vfs.cpp:46-50 | The buffer holds the path with one component more, if and only if that fits |
| Vfs.Normalize | kernel/fs/vfs.cpp:328-361 | Succeeds exactly when every step fits, leaving the path of the stack of base then path, "." dropped and ".." popping |
| Vfs.MountTable.MountFor | kernel/fs/vfs.cpp:72-84 | Of the mounts covering a path, the one with the most components, and there is only one |
| Vfs.Walk | kernel/fs/vfs.cpp:94-127 | Succeeds exactly when the names lead somewhere through directories, and the node's path is the path asked for |
| Vfs.MountTable.Stat | kernel/fs/vfs.cpp:363-370 | The node found has the normalized path and is what the deepest mount has there; it is found exactly when the path fits and something is there |
| Vfs.MountTable.AddMount | kernel/fs/vfs.cpp:255-294 | A mount point is added if and only if the path is absolute, "/" for the first, short enough, not taken, and its parent is an existing directory |

## Left out

- exFAT mounting: boot sector checks, volume flags and loading the up-case table; their outcome is the invariant at the start.
- exFAT device errors and power cuts: the exFAT model has a device that does not fail, and says nothing about a run that stops midway.
- ExfatVolume.Volume.Rename: requires that the target directory is not the moved one or below it; the VFS guard does not ensure this (see Findings), and what such a rename does to the volume is stated for the tree only, by `ExfatMoves.CutOff`.
- ExfatVolume.Volume.Locate: requires an identifier whose set is still there, as do all operations on a node; for any other the kernel parses whatever the slot holds now, through clusters that may belong to another stream, so no general answer is promised.
- exFAT timestamps: they are bytes of the set, and nothing is stated about them.
- BlockCache.Cache.Shutdown: for callers that are not editing a buffer; the kernel does not look at pins here.
- BlockCache.Cache.Release: a holder who edited a buffer says so on the last release, unless the block is dirty already.
- The cache's hit and miss counters, which are kept and about which nothing is stated.
- Heap addresses and sizes are mathematical integers; of the overflow tests, the one on the region's end is modelled.
- Paging: TLB invalidation, huge pages (the kernel installs none in these trees), activation, and arch/arm64/paging.cpp, a tree of the same shape with other descriptor bits.
- Ext4Volume.Volume.ReadBytes: states the bytes and the failures of `read_bytes`, not the split into device blocks and the bounce buffer.
- ext4 superblock, group descriptor and inode parsing, and directory entry parsing after the block is loaded.
- PageAllocator.Allocator.Initialize: soundness is given for maps taken in order and not as an equivalence, because a later region can cover what an earlier insertion lost.
- Memory ordering between processors: the input ring's steps are sequentially consistent here.
- Vfs.Normalize: requires that a base given is a normal path, as does Vfs.MountTable.Stat; the shell's working directory is the path of a node that `stat` returned (kernel/shell/shell.cpp:299), which is normal by the contract of Stat.
- Vfs.MountTable.Stat: see Vfs.Normalize on the base.
- VFS unmounting, open files and descriptors, the busy checks of remove and rename, and listing of nested mounts.
- Platform code, drivers, the shell, user programs, the scheduler, the loader, shrfs, devfs, partition tables and checksums of other formats.
