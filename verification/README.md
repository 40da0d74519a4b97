# A verified model of the FAT16/FAT32 file system in src/utility

The project models the layers of the SdFat code behind the SD library and proves what each layer
promises to the next one:

1. **Block cache** (`BlockCache`, `CacheSession`). One cached block with write-back and a pending copy
   for the second FAT, on a device whose every access may fail. Its meaning is a plain block map.
2. **Layout, FAT and allocator** (`Bits`, `Bytes`, `VolumeLayout`, `Device`, `Mount`, `Fat`, `Chains`, `Allocation`,
   `Volume`). The first FAT decodes to one number for each cluster; files are chains in it. `Device` says in
   numbers where everything lies: the fields of the boot block, the bytes of a FAT entry, of a file, of the root.
   `SdVolume.Valid` holds between all calls: the first two FATs agree, the pending mirror belongs to the
   cached block, and no cluster below the search start is free.
3. **Files** (`FileData`, `File`, `FileRuns`). A handle stands for a byte sequence with a position; the
   current cluster is the one of the byte before the position.
4. **Directories, names, trees and paths** (`DirEntry`, `DirTable`, `DirOnDisk`, `Names`, `Frames`,
   `Directories`, `Removal`, `Filing`, `Contiguous`, `MakingDir`, `DirTree`, `TreeRemoval`, `Path`,
   `PathWalk`). A directory is a finite map from 11-byte names to entries; its subtree is a tree of nodes.
5. **The volume over whole runs** (`FatRuns`, `DirState`, `DirTurns`, and `FileRuns` again). A volume is its
   FAT, its blocks and the chains of everything on it. Every operation is one step that keeps all chains
   sound and disjoint and leaves what it is not about alone, whether it succeeds or breaks off.
6. **The plain directory** (`PlainDirs`, `DirShown`, `DirMoves`, `DirRuns`, `Startup`, `ReadBack`, `Cards`).
   A directory with its open handles stands for a finite map from names to byte sequences, and every request
   does to it what the request does to that map (`PlainDirs.Answered`). Only whether there is room is decided by
   the volume.
   `Startup.Session` goes from the blocks of a formatted card to any sequence of requests, and
   `ReadBack.StoreAndFetch` to one: what is written to a new file is read back. `Cards` holds two
   formatted cards.

`Findings` holds inputs on which the code falls short of its documentation:

- Writing a whole block that is dirty in the cache forgets the block number but not the dirty flag
  (src/utility/SdFile.cpp:1178-1180). From then on every flush writes to the nonexistent block 0xFFFFFFFF and
  fails. `Findings.RewriteStart` is a client that gets there with two writes and a seek to 0; `SdFile.Write`
  states exactly which writes do it (`FileData.Rewrites`), and `Findings.WriteInOrder` proves that files
  written in order never do.
- `remove` leaves the clusters of an empty file allocated (`Removal.Remove` has the exact condition). A first
  write that runs out of space after its first cluster makes such a file, as `Findings.LeakOnFullDisk` shows;
  on a disk that is full from the start the write takes nothing. `rmRfStar` inherits the leak:
  `TreeRemoval.EverythingReaped` gives the exact condition.
- `makeDir` creates its entry before it looks for a cluster (src/utility/SdFile.cpp:293-300). If none is left, it
  fails with an empty normal file under the new name, unlike `createContiguous`, which takes its entry back.
  `MakingDir.RoomForDir`, a count of free clusters before the call, is the exact condition
  (`MakingDir.MakeDir`), and `Findings.MakeDirWithoutRoom` a client that meets it.
- `read` is documented to stop at the end of the file. With the position behind the size it does not
  (src/utility/SdFile.cpp:672), and after a write on a full disk it goes on to the end mark of the chain as if
  that were a cluster: `Findings.FillDisk`, with the condition before the write.
- `rmRfStar` keeps the index of an entry in 16 bits (src/utility/SdFile.cpp:880). A directory with a file or
  subdirectory behind slot 65535 is emptied up to there, and the call fails: `TreeRemoval.RmRfStar` with
  `DirTree.Indexed`.
- `contiguousRange` takes an entry whose first cluster is 1 for a contiguous file if entry 1 of the FAT is an
  end mark, as it commonly is: `Contiguous.ContiguousRange` with `Contiguous.RunEnds`.
- Path components longer than twelve characters are split, although getNextPathComponent is documented
  to split at separators: `Path.WalkJoin` gives the exact condition.

## Reading the contracts

- `Sd2Card.faults` counts card accesses that failed. "Absent I/O errors" reads
  `faults == old(faults)`; an operation that fails because of the card ensures `faults > old(faults)`.
  It is the sum of `hardware` and `refused` (accesses to blocks that do not exist or are protected);
  `Cache.Valid` keeps that nothing was refused unless `misused` holds. Every operation on files and
  directories but `write` ensures `misused == old(misused)`, and `write` sets it only if `Dooms` holds before,
  so that with a sound cache "absent I/O errors" is the same as "on hardware that works"
  (`SdVolume.SameFaults`). The runs, `Filing.WriteCloseOpen` and the
  clients of the first four findings are specified in terms of `hardware`.
- The definitions of `Device` use literal offsets and ordinary arithmetic and none of the functions that the
  operations call. `Init`, `FatGet`, `FatPut`, `ChainSize`, `AllocContiguous`, `Read`, `Write`, `SeekSet`, `Truncate`,
  `ContiguousRange`, `MakeDir`, `Make83Name` and `GetNextPathComponent` state their results in these terms too;
  the lemmas named `...ByBytes`, `...ByCodes`, `...ByNumber` and `...OnDevice` connect the rest.
- `vol.disk` is the block map (device overlaid with the cache), `vol.fat` the decoded first FAT. Both are
  ghost fields of `SdVolume` that `Valid` ties to the real fields.
- A handle's ghost field `chain` lists its clusters. Operations that have to find a chain they do not hold
  yet take it as a ghost parameter, with a precondition only where the entry in question exists.
- `Step(fat, fat', own, after)`: one file's chain `own` became the sound chain `after`, using only its own
  and free clusters, and no other entry in use has changed. `Confined` is the frame part alone and holds
  after failures too.
- `Framed(file, dir, own, after)` (`Frames.Frame`) is the frame of an operation on one entry of a directory,
  on success and failure: only FAT entries of the directory, of the file's old chain `own` and free ones
  changed; blocks in use by anything else are the same but for that one entry; `after` and the grown
  directory took only free clusters and are disjoint.
- Methods on directories are module-level methods; `file` or `dir` is the object that the C++ method is
  called on. The bits of `flags_` and of `oflag` are records of booleans.
- `Filing.WriteCloseOpen`, `Contiguous.CreateAndLocate`, the methods of `Findings`, `CacheSession.Run`, `FileRuns.Run`,
  `DirRuns.Run`, `Startup.Session`, `ReadBack.StoreAndFetch` and `Cards.StoreOnCard16` are clients: they call the
  operations as a program would, and their contracts are the laws about several calls.
- `FileData.Space(lay, fat, chain)` is what a file can grow to: its clusters and all free ones.
- A cluster is lost (`FatRuns.Orphans`) if its entry is in use and no chain of the volume has it. `FatRuns.Tight` says
  of a step that it loses none but those listed.

## Model

| member | source | states |
|---|---|---|
| BlockCache.Sd2Card.ReadData | src/utility/Sd2Card.cpp:204-270 | A read stores exactly the addressed bytes or, if it fails, nothing. |
| BlockCache.Sd2Card.WriteBlock | src/utility/Sd2Card.cpp:343-373 | A write replaces one block; block 0 and blocks past the end are refused; a failed write leaves that block arbitrary and every other block alone. |
| BlockCache.Cache.Flush | src/utility/SdVolume.cpp:99-114 | The block map that device and cache stand for never changes, not even when the first or the mirror write fails; success makes the device equal to it; a wedged cache can never be flushed. |
| BlockCache.Cache.RawBlock | src/utility/SdVolume.cpp:116-124 | Bringing a block into the cache keeps the block map, delivers its block, and changes the device only in the dirty block and its pending copy. |
| BlockCache.Cache.ZeroBlock | src/utility/SdVolume.cpp:127-137 | The block map gets a zero block and nothing else; on failure it is unchanged. |
| BlockCache.Cache.StoreMirrored | src/utility/SdVolume.cpp:167-192 | A store into a cached FAT block appears in the block map in the block and in its copy in the second FAT at once, while both are still pending. |
| BlockCache.Cache.WriteThrough | src/utility/SdFile.cpp:1175-1182 | The direct write of a whole block changes exactly that block of the map; it leaves the cache wedged (dirty without a block) if and only if it was wedged before or held this very block dirty. |
| BlockCache.Cache.ReadDirect | src/utility/SdFile.cpp:699-703 | A read past the cache yields the block map's bytes as long as the block is not the cached one. |
| CacheSession.Perform | src/utility/SdVolume.cpp:99-137 | One access of any kind is one step on a plain block map; but for the whole-block write only the dirty block and its copy ever change on the device, and the cache is never misused. |
| CacheSession.Run | src/utility/SdVolume.cpp:99-137 | Any sequence of cached, direct, whole-block, zeroing and flushing accesses is a run of a plain block map: every successful read returns the block of the map at that point; a failed access changes nothing, unless it is a whole-block write, which may leave anything in its block; FAT blocks equal their copies in every state; only whole-block writes can misuse the cache. |
| CacheSession.RunKeepsCopies | src/utility/SdVolume.cpp:99-114 | In every state of every run of the plain block map, also behind failed writes, each block of the first FAT equals its copy. |
| Bits.AndIsLow | src/utility/SdFat.h:541-542 | Masking with blocksPerCluster - 1 is taking the bits below the cluster shift. |
| Bits.DivMod | src/utility/SdFat.h:541-544 | Shift and mask are quotient and remainder by the power of two. |
| VolumeLayout.ClusterBlockInjective | src/utility/SdFat.h:541-546 | (cluster, block in cluster) to device block is injective. |
| VolumeLayout.DataAreaSeparate | src/utility/SdFat.h:543-546 | Blocks of clusters lie on the device and never meet the FATs or the FAT16 root area. |
| VolumeLayout.NthBlockInjective | src/utility/SdFat.h:541-546 | Different blocks of a file or directory are different device blocks. |
| VolumeLayout.NthBlockDisjoint | src/utility/SdFat.h:541-546 | Files without a common cluster have no device block in common. |
| Mount.LayoutFits | src/utility/SdVolume.cpp:253-293 | For a parameter block whose regions fit the device, the 32-bit computation gives exactly the layout that the FAT specification defines, and that layout is sound. |
| Mount.BpbFields | src/utility/SdVolume.cpp:251-263 | The fields that init reads are the numbers in bytes 11 to 47 of the boot block; the size of a FAT is the one at 22 unless that is 0, the number of blocks the one at 19 unless that is 0. |
| Mount.BpbFitsDevice | src/utility/SdVolume.cpp:251-293 | That the regions fit into the device, by the bytes of the boot block. |
| Mount.ComputedIsDescribed | src/utility/SdVolume.cpp:263-292 | What init computes for any boot block, by its bytes and modulo 2^32. |
| Mount.PartitionOnDevice | src/utility/SdVolume.cpp:236-249 | The partition of a number, and whether it can be used, by the bytes of the partition table. |
| Mount.Init | src/utility/SdVolume.cpp:227-295 | Absent I/O errors it succeeds exactly on a valid partition with a plausible parameter block; where the regions fit the device (Mount.Mountable, read off the blocks), the layout is Mount.LayoutOn of the blocks, and sound; nothing on the device changes. In bytes: blocks of a FAT, of the volume and of the root area, the starts of the regions and the cluster count are the numbers in the boot block as the FAT specification defines them, the 16-bit fields counting before the 32-bit ones (Device.Describes, and Device.DescribesIn32 for any boot block). |
| Mount.ClusterShift | src/utility/SdVolume.cpp:257-261 | The shift loop succeeds exactly for the powers of two up to 128, and ends for all other values. |
| Fat.StoreEntry | src/utility/SdVolume.cpp:167-192 | Storing an entry changes that entry of the decoded FAT (cut to 16 or 28 bits) and no other. |
| Fat.EntryIsField | src/utility/SdVolume.cpp:151-164 | The entry of cluster c is the number in bytes 2c and 2c + 1 of the first FAT, of FAT32 in bytes 4c to 4c + 3 without the upper four bits, the low byte first. |
| Volume.StoredBytes | src/utility/SdVolume.cpp:167-192 | Storing an entry changes exactly these bytes of the first FAT, and of the second one if there is one, to the digits of the value. |
| Fat.FatDependsOnFirstFat | src/utility/SdVolume.cpp:151-164 | What the FAT decodes to depends on the blocks of the first FAT only. |
| Volume.StoredDiskSound | src/utility/SdVolume.cpp:167-192 | The block map after fatPut decodes to the FAT with one entry changed, and the first two FATs still agree. |
| Volume.SdVolume.DeviceFatsAgree | src/utility/SdVolume.cpp:99-114 | On the device the first two FATs agree block for block except at most in the one cached block whose mirror write is pending. |
| Volume.SdVolume.FaultsAreHardware | src/utility/SdVolume.cpp:99-137 | As long as the cache was never made to hold dirty contents without a writable block, every failure counted is one of the hardware. |
| Volume.SdVolume.FatGet | src/utility/SdVolume.cpp:151-164 | Yields the entry of the decoded FAT, which is the number in its bytes on the block map; fails only beyond the last cluster or on an I/O error. |
| Volume.SdVolume.FatPut | src/utility/SdVolume.cpp:167-192 | Changes exactly one entry of the decoded FAT, and exactly its bytes in the first FAT and in the copy, to those of the value; fails only for a reserved or nonexistent cluster or on an I/O error, and then changes nothing. |
| Volume.SdVolume.SearchFree | src/utility/SdVolume.cpp:59-77 | The search loop finds the first fit from its start, wrapping once; it fails only if no free run is long enough on either side of the start, or on an I/O error. |
| Volume.SdVolume.LinkRun | src/utility/SdVolume.cpp:78-85 | The stores link the run from its end down; after a failure at any of them only free entries have changed. |
| Volume.SdVolume.AllocContiguous | src/utility/SdVolume.cpp:31-97 | With *curCluster = 0 and absent I/O errors it succeeds exactly if `count` consecutive free clusters exist and returns the lowest such run; the run is linked, ended by EOC (0xFFFF, or 0x0FFFFFFF) and attached behind *curCluster; a failure changes no entry in use. The search start never passes a free cluster. |
| Allocation.HintSeesAll | src/utility/SdVolume.cpp:46-50 | With no free cluster below the search start, a search from there sees every free run, and finds the lowest. |
| Allocation.HintAdvances | src/utility/SdVolume.cpp:93-94 | After a single cluster was allocated, no cluster up to it is free, so the search start may move behind it. |
| Allocation.AllocatedChain | src/utility/SdVolume.cpp:78-91 | The allocated run, appended to the chain of the file, is a chain again, and no entry of any other chain has changed. |
| Volume.SdVolume.FreeChain | src/utility/SdVolume.cpp:195-210 | Ends on any FAT, cyclic or corrupt; on a chain it clears exactly that chain's entries; it moves the search start back to 2 first. |
| Chains.InUseShrinks | src/utility/SdVolume.cpp:195-210 | Clearing an entry that is in use leaves fewer entries in use: the measure by which freeChain ends. |
| Volume.SdVolume.ChainSize | src/utility/SdVolume.cpp:140-148 | The bytes of the clusters that the links from the first one pass, modulo 2^32, on any FAT on which these links lead anywhere; absent I/O errors it succeeds exactly if that is an end mark. In numbers: the clusters times their blocks times 512, and 0xFFF8, of FAT32 0x0FFFFFF8, or more. |
| Volume.SdVolume.CacheFlush | src/utility/SdVolume.cpp:99-114 | On success the device equals the block map. |
| Chains.ChainUnique | src/utility/SdVolume.cpp:195-210 | A FAT has at most one chain from a cluster. |
| Chains.ChainDistinct | src/utility/SdVolume.cpp:31-97 | A chain that ends in an EOC is acyclic. |
| Chains.ChainsMeet | src/utility/SdVolume.cpp:31-97 | Chains that share a cluster agree from there on. |
| Chains.ChainIsEnded | src/utility/SdVolume.cpp:195-210 | A chain in numbers: clusters from 2 on, each entry the number of the next cluster, the last one 0xFFF8, of FAT32 0x0FFFFFF8, or more. |
| Chains.OthersKeepTheirChains | src/utility/SdVolume.cpp:78-91 | Any change confined to free entries and one file's own leaves every other chain intact, also when an operation breaks off. |
| Chains.StepTrans | src/utility/SdFile.cpp:1129-1221 | Steps of one file compose. |
| FatRuns.NextKeepsHealth | src/utility/SdFile.cpp:779-1221 | Whatever changes only its own and free FAT entries, and gives what it names sound and disjoint chains or none, keeps all chains on the volume sound and pairwise disjoint. FileRuns.Run and DirRuns.Run prove that every operation is such a step. |
| FatRuns.HealthyRun | src/utility/SdVolume.cpp:31-210 | In every state of every run each live chain is in range, acyclic, ended by an EOC, without free clusters, and disjoint from all others. |
| FatRuns.UnaffectedInRun | src/utility/SdVolume.cpp:31-210 | What no step of a run is about keeps its chain and every block of it. |
| FatRuns.SameContent | src/utility/SdFat.h:541-546 | With its blocks a chain keeps its bytes. |
| FatRuns.OrphansAfter | src/utility/SdFile.cpp:1069-1089 | After a step that frees what it gives up, but for the clusters in `kept`, the clusters in use without an owner are those there were and `kept`. |
| FatRuns.FrameNext | src/utility/SdFile.cpp:389-465 | An operation with the frame of one directory entry is one step about that name, whether it ends with a chain under the name, without the name, or broken off. |
| Frames.FrameTrans | src/utility/SdFile.cpp:128-147 | Frames of two operations on the same entry, one after the other, compose. |
| Frames.FrameKeepsFile | src/utility/SdFile.cpp:389-465 | An operation with the frame of one directory entry leaves every other file its chain and its bytes, and takes none of its clusters. |
| Frames.FrameKeepsEntry | src/utility/SdFile.cpp:389-465 | And every other directory entry in use as it is. |
| FileData.NextByte | src/utility/SdFile.cpp:1145-1166 | Stepping from byte p - 1 to byte p enters the next cluster exactly where the driver tests for a cluster start. |
| FileData.BlockOfByte | src/utility/SdFat.h:545-546 | The block that the driver computes from the current cluster is the block of the byte at the position. |
| FileData.NthBlockOnDevice | src/utility/SdFile.cpp:680-693 | Block i of the FAT16 root lies at rootDirStart + i, block i of a chain at dataStart + (c - 2) * blocksPerCluster + i % blocksPerCluster for its cluster c at index i / blocksPerCluster. |
| FileData.ByteOnDevice | src/utility/SdFile.cpp:680-697 | Byte p of a file or directory is byte p % 512 of that block. |
| FileData.IndexByNumber | src/utility/SdFile.cpp:935-937 | The index of the cluster of byte p is p / 512 / blocksPerCluster. |
| FileData.SpaceInBytes | src/utility/SdFile.cpp:1161-1165 | What a file can grow to is 512 bytes for each block of its clusters and of the free ones. |
| FileData.NextCluster | src/utility/SdFile.cpp:682-692 | From the cluster of byte p - 1, the FAT entry names the cluster of byte p or is an EOC exactly at the end of the chain. |
| FileData.IndexByShift | src/utility/SdFile.cpp:935-937 | The shift by cluster and block size is the index of the cluster in its chain. |
| FileData.ClustersForIsCeiling | src/utility/SdFile.cpp:135 | The driver's cluster count for a size is size / cluster size, rounded up. |
| FileData.OthersKeepTheirBytes | src/utility/SdFile.cpp:1129-1221 | A file that shares no cluster with the operating file keeps its bytes. |
| FileData.NotBehind | src/utility/SdFile.cpp:1175-1182 | A dirty block that lies before the position is never the whole block about to be written directly. |
| FileData.RewritesStep | src/utility/SdFile.cpp:1175-1182 | A write whose whole blocks reach a given block reaches it with the block at hand or with one of the following ones of the same cluster. |
| FileData.ChunkDooms | src/utility/SdFile.cpp:1144-1201 | Whether a write stores a dirty cached block directly is decided before it begins: each round of its loop carries the condition over. |
| FileData.SeekDooms | src/utility/SdFile.cpp:1139-1142 | The condition can be read off before the seek for O_APPEND: if that follows a link of the chain, a FAT block takes the place of the dirty one, and nothing is rewritten. |
| FileData.SplicedContent | src/utility/SdFile.cpp:1167-1200 | Block-wise stores from a position on make the content the old one with the bytes spliced in. |
| FileData.CutSound | src/utility/SdFile.cpp:1082-1098 | Cutting a chain frees exactly its suffix and leaves a chain. |
| FileData.CutKeepsBytes | src/utility/SdFile.cpp:1070-1111 | The kept clusters hold the first `length` bytes of the content. |
| FileData.Prolongation | src/utility/SdFile.cpp:32-41 | A chain that takes clusters and the free clusters together keep their number, so that what a file can grow to is the same after any write to it. |
| FileData.CutExact | src/utility/SdFile.cpp:1069-1089 | Cutting a chain frees exactly the clusters cut off. |
| File.SdFile.AddCluster | src/utility/SdFile.cpp:32-41 | The chain gets one formerly free cluster at its end, the first that fits behind its last one; the first cluster is recorded for an empty file; absent I/O errors it fails only when no cluster is free, and then changes nothing. |
| File.SdFile.EnterCluster | src/utility/SdFile.cpp:1145-1166 | Makes the cluster of the byte at the position current, by following the chain or prolonging it; absent I/O errors it fails only at the end of the chain, with no cluster free. |
| File.SdFile.StoreChunk | src/utility/SdFile.cpp:1167-1200 | Exactly one block of the map changes, in exactly the addressed bytes unless it holds no file data yet; the exact condition under which the cache is wedged. |
| File.SdFile.WriteLoop | src/utility/SdFile.cpp:1144-1201 | Up to the position reached, the bytes are in place, all other bytes of the file and all blocks of other files are as before; without an I/O error it stops only on a full disk, short of the end; the FAT is the same if no cluster was added; the exact condition under which the cache is misused. |
| File.SdFile.Write | src/utility/SdFile.cpp:1129-1221 | Success: on the device, byte p of the file is src[p - from] from the start of the write on, and the old byte elsewhere; content becomes content[..p] + src + content[p + len(src)..] (p the size under O_APPEND), position p + len(src), size the larger of both; nothing but this file and its entry is touched. Without an I/O error it succeeds if and only if all of it fits into the clusters of the file and the free ones (FileData.Space before the call); if not, exactly the bytes up to there are stored, the position is there, and the size unchanged. No cluster gets lost. Unless the hardware fails, a sound cache is wedged afterwards if and only if the write starts at a block boundary, not at a cluster boundary other than 0, one of its whole blocks in that cluster is dirty in the cache, and no seek for O_APPEND has followed the FAT before. |
| File.SdFile.Read | src/utility/SdFile.cpp:665-716 | Delivers, byte by byte, what the device has at the place of each position: in the FAT16 root at block rootDirStart + p / 512, in a file in the block of its cluster. That is content[p..min(p + n, size)], read through cached and direct blocks alike, and the position moves with it; -1 only on a handle not open for reading or an I/O error, and the count wraps to a negative number above 32767. With the position behind the size, the count is not cut off, and the bytes of the file's blocks from there on are read. |
| File.SdFile.SeekSet | src/utility/SdFile.cpp:921-951 | By either route the current cluster becomes the one at index (pos - 1) / 512 / blocksPerCluster of the chain, 0 at position 0, which leaves the cache alone; it fails beyond the size. |
| File.SdFile.FollowChain | src/utility/SdFile.cpp:946-948 | Following n links from one cluster of the chain reaches the n-th after it. |
| File.SdFile.Truncate | src/utility/SdFile.cpp:1070-1111 | Keeps content[..length] in exactly ceil(length / clusterBytes) clusters, frees exactly the removed suffix, sets the position to min(position, length); on the device each kept byte is the same, the freed entries are 0, and the last kept one is an end mark; leaves empty files alone. |
| File.SdFile.Sync | src/utility/SdFile.cpp:962-986 | On success the device equals the block map and the entry holds size, first cluster and stamp of the handle; nothing else changes. |
| File.SdFile.SyncReady | src/utility/SdFile.cpp:962-986 | Afterwards the entry agrees with the handle whenever the dirty flag is clear; name, attributes and content are unchanged. |
| File.SdFile.Close | src/utility/SdFile.cpp:73-77 | After success the entry on the device names first cluster and size, and the content is unchanged; with a wedged cache it fails. |
| DirEntry.SyncedFields | src/utility/SdFile.cpp:966-984 | The updated entry has the handle's size (unless a directory) and first cluster, and its old name and attributes. |
| FileRuns.OtherStays | src/utility/SdFile.cpp:1129-1221 | Whatever one file's operation does, another file keeps chain, entry and content. |
| FileRuns.Perform | src/utility/SdFile.cpp:665-1221 | One command on one of several open files acts on it as on a plain byte sequence and leaves every other file as it is, even if it fails; a write succeeds exactly if it fits into what the file can grow to, and stores what fits; unless the hardware fails, a sound cache is misused afterwards exactly if the command is a write that stores a dirty block directly; the command is a step of FatRuns and loses no cluster. |
| FileRuns.Run | src/utility/SdFile.cpp:665-1221 | Any sequence of writes, reads, seeks, truncations and syncs on any open files is a run of independent plain byte sequences, with the same results: state, clusters and command determine the result, also of a write on a full disk. On hardware that works, the run reaches its end unless one of its commands is a write that stores a dirty block directly, which can be read off the plain files and the cache before the command; the cache is misused by such commands only. Beside it runs the FAT: every command, also one that an I/O error breaks off, is a step that keeps all chains sound and disjoint, and the clusters in use without an owner stay the same. |
| FileRuns.WrittenIsStored | src/utility/SdFile.cpp:1129-1221 | The content after a write is the plain file's store. |
| DirTable.SlotOf | src/utility/SdFile.cpp:405-424 | The first live slot with a name. |
| DirTable.FirstEmpty | src/utility/SdFile.cpp:410-418 | The first slot that can take a new entry. |
| DirTable.TableMapRepresents | src/utility/SdFile.cpp:389-465 | With unique names a table stands for a finite map with exactly its live entries. |
| DirTable.MapUnique | src/utility/SdFile.cpp:389-465 | A table stands for at most one map. |
| DirTable.Insert | src/utility/SdFile.cpp:427-457 | A new name in the first empty slot adds exactly that name to the map; no live entry follows the end marker, names stay unique. |
| DirTable.Delete | src/utility/SdFile.cpp:787-788 | Marking an entry deleted takes exactly its name out of the map. |
| DirTable.Replace | src/utility/SdFile.cpp:966-984 | Updating an entry without renaming it changes exactly the value under its name. |
| DirTable.Extend | src/utility/SdFile.cpp:45-56 | Growing a full table by free slots keeps the map. |
| DirTable.OneSlotOthers | src/utility/SdFile.cpp:389-465 | A change of the slot of one name, or of the first empty slot, leaves slot and entry of every other name. |
| DirTable.VacatedSlot | src/utility/SdFile.cpp:787-788 | If the map has lost a name, its slot is not live. |
| DirOnDisk.SlotIsContent | src/utility/SdFile.cpp:748-763 | Slots of a directory are its content in 32-byte pieces. |
| DirOnDisk.SlotOnDevice | src/utility/SdFile.cpp:748-763 | Slot k of the FAT16 root is in block rootDirStart + k / 16, from byte 32 * (k % 16) on; of a chain, in the blocks of its clusters. |
| DirOnDisk.TableUpdate | src/utility/SdFile.cpp:440-457 | Changing one entry of the block map changes exactly one slot. |
| DirOnDisk.TableGrows | src/utility/SdFile.cpp:45-56 | A zeroed cluster behind the chain leaves the old slots and adds free ones only. |
| Directories.ReadDirCache | src/utility/SdFile.cpp:748-763 | Brings the slot at the position into the cache and steps over it. |
| Directories.FindEntry | src/utility/SdFile.cpp:402-424 | Finds exactly the slot of the name, or remembers the first empty slot. |
| Directories.AddDirCluster | src/utility/SdFile.cpp:45-56 | The directory gains one zeroed cluster: its old slots followed by free ones; other files' clusters and blocks are untouched. |
| Directories.CacheNewSlot | src/utility/SdFile.cpp:429-438 | Room for a new entry: the first empty slot, and then the FAT is the same, or else the first slot of exactly one new cluster, the first free one that fits behind the directory's last; without an I/O error it fails only on a full directory that cannot grow. |
| Directories.ProlongedFree | src/utility/SdFile.cpp:429-438 | After room for an entry was made, the free clusters are the same, or, if no slot was empty, all but the one that the directory has taken. |
| Directories.ProlongedRuns | src/utility/SdFile.cpp:128-141 | Whether a run of n free clusters is left then can be seen in the FAT before: after taking the first fit behind the directory's last cluster, if no slot is empty. |
| Directories.CreateEntry | src/utility/SdFile.cpp:439-461 | The directory's map gains exactly the new name, in the first empty slot; the directory grows by one cluster if and only if no slot was empty; without a clock the entry is stamped 1 January 2000, 01:00; the frame of one entry holds also when it fails. |
| Directories.OpenCachedEntry | src/utility/SdFile.cpp:507-543 | The handle has first cluster, size, kind and flags of the entry, at position 0, read from bytes 26, 20, 28 and 11 of the slot; exact conditions for refusal; O_TRUNC empties the file. |
| Directories.OpenableByBytes | src/utility/SdFile.cpp:510-524 | Which entries may be opened, by the attribute byte: no volume label; neither read-only nor a directory for writing; O_TRUNC needs O_WRITE. |
| Directories.Open | src/utility/SdFile.cpp:389-465 | Looking up or creating refines the finite map: an existing name is opened as its entry says, also under O_TRUNC with a sound directory changed only under that name; O_CREAT adds exactly one new empty file, and the directory grows by one cluster if and only if no slot was empty; absent I/O errors it fails exactly on a handle in use, a bad name, or when refused, and then changes nothing. Success or failure, no other entry, cluster in use or block in use is touched. |
| Directories.OpenRoot | src/utility/SdFile.cpp:555-583 | A read-only handle on the whole root directory of a FAT16 or FAT32 volume. |
| Directories.DirSize | src/utility/SdVolume.cpp:140-148 | The size that chainSize yields counts exactly the slots of the directory. |
| Removal.Remove | src/utility/SdFile.cpp:779-795 | Marks exactly this entry deleted, and frees all clusters of the file if and only if it has bytes or no clusters; nothing else changes, also on failure. |
| Removal.RemoveNamed | src/utility/SdFile.cpp:815-819 | The directory's map loses exactly this name; success or failure, no other entry, cluster in use or block in use is touched. |
| Removal.RmDir | src/utility/SdFile.cpp:836-857 | Absent I/O errors it removes the directory exactly if it is a subdirectory without files and subdirectories before its first free slot; success or failure, no block changes but for its entry, and no FAT entry in use but those of its clusters. |
| Removal.RmDirFrom | src/utility/SdFile.cpp:836-857 | Seen from the directory that lists it: absent I/O errors it succeeds exactly if the subdirectory looks empty, and then that loses exactly its name, and exactly the subdirectory's clusters are free; the frame of one entry holds also when it fails. |
| Removal.RmDirNamed | src/SD.cpp:327-335 | Opening by name and removing, as callback_rmdir does: absent I/O errors it succeeds exactly for the name of a subdirectory that looks empty, and then exactly that name is gone and exactly its clusters are free; else nothing has changed. |
| Removal.OpenByIndex | src/utility/SdFile.cpp:481-504 | Opens exactly the entry of that slot; refuses free, deleted and dot entries. |
| TreeRemoval.RmRfStar | src/utility/SdFile.cpp:874-911 | Ends; absent I/O errors it fails exactly if some file or subdirectory of the tree has an index of more than 16 bits in its directory, which the code cuts off (TreeRemoval.RemoveSlot). Else it frees exactly the clusters of non-empty files and of subdirectories below the directory, plus its own if it is not a root; below a root exactly the files' and subdirectories' entries are deleted. Even after an error only FAT entries and blocks of the tree, and the directory's own entry, have changed. |
| TreeRemoval.ClearDir | src/utility/SdFile.cpp:875-906 | The sweep deletes exactly the files and subdirectories of the directory, of any size; absent I/O errors it stops exactly at an index of more than 16 bits in the tree. |
| TreeRemoval.EverythingReaped | src/utility/SdFile.cpp:874-911 | All clusters below the directory become free if and only if no empty file there has clusters. |
| TreeRemoval.OutsideSurvives | src/utility/SdFile.cpp:874-911 | Files, directories and entries outside the removed tree keep clusters, bytes and contents. |
| DirTree.TreeFrame | src/utility/SdFile.cpp:874-911 | Changes outside a tree leave the whole tree as it is. |
| DirTree.PartOfAll | src/utility/SdFile.cpp:874-911 | What is freed belongs to the tree. |
| Frames.FileStepInDir | src/utility/SdFile.cpp:962-986 | Any operation on a file leaves its directory sound and changes the directory's map only under the file's name. |
| Filing.WriteFiled | src/utility/SdFile.cpp:1129-1221 | The same, for a write, with the frame of its entry and the exact condition of success. |
| Filing.WriteCloseOpen | src/utility/SdFile.cpp:73-77 | Write, close, open by name: same first cluster, size, clusters and content. On hardware that works and with a sound cache, it succeeds if and only if the write fits, unless the write stores a dirty block directly; the frame of the one entry holds in every case. |
| Contiguous.ContiguousRange | src/utility/SdFile.cpp:90-108 | Ends on any FAT; absent I/O errors it succeeds exactly if the clusters from the first one on are linked in ascending order up to an end mark, with exactly their blocks, dataStart + (first - 2) * blocksPerCluster and n * blocksPerCluster of them; for the first cluster 1, too, which is no cluster of a chain, in 32-bit arithmetic. |
| Contiguous.RunReaches | src/utility/SdFile.cpp:94-107 | What the loop has seen decides whether there is such a run. |
| Contiguous.RunIsChain | src/utility/SdFile.cpp:90-108 | Behind cluster 1, such a run is an ascending chain. |
| Contiguous.CreateContiguous | src/utility/SdFile.cpp:128-147 | A new file with ceil(size / clusterBytes) consecutive clusters, the lowest such run, listed under its name. For a name that open would create and size > 0, absent I/O errors it succeeds if and only if a free run of that length is there besides the cluster that the entry may need; if not, the directory's map is the old one again; refused otherwise, nothing has changed. Success or failure, the clusters were free before, and no other entry, cluster in use or block in use is touched. |
| Contiguous.CreateAndLocate | src/utility/SdFile.cpp:90-147 | createContiguous, then contiguousRange: ceil(size / clusterBytes) * blocksPerCluster blocks from the first cluster on. |
| MakingDir.MakeDir | src/utility/SdFile.cpp:289-341 | The directory's map gains the new subdirectory, whose table is '.', '..' and free slots; in bytes, '..' names the first cluster of the directory that lists the new one, 0 for a root, and '.' its own, both with attribute 16. For a name that open would create, absent I/O errors it succeeds if and only if a cluster is free, two if no slot of the directory is empty; if not, the entry of an empty file stays under the name. Refused otherwise, nothing has changed. Success or failure, no other entry, cluster in use or block in use is touched. |
| MakingDir.BuildDir | src/utility/SdFile.cpp:296-340 | The new directory takes one free cluster; only that cluster and its own entry change. |
| MakingDir.NewTableIsEmpty | src/utility/SdFile.cpp:313-340 | A new directory is sound and empty, so rmDir may remove it. |
| MakingDir.NewTableByBytes | src/utility/SdFile.cpp:313-340 | The two entries of a new directory, by their bytes. |
| DirState.HandleStays | src/utility/SdFile.cpp:389-465 | A handle stays as good as it was if its slot is where and what it was and its chain is still one. |
| DirState.OnlookerOpen | src/utility/SdFile.cpp:389-465 | An operation on one name leaves every open file of the directory ready, with entry, position and chain. |
| DirState.BystanderClosed | src/utility/SdFile.cpp:389-465 | And every closed one described by its entry. |
| DirState.Settle | src/utility/SdFile.cpp:389-465 | An operation on one name that keeps to its frame and leaves its own name in order is a step of FatRuns and leaves everything in order. |
| DirShown.PlainNowStands | src/utility/SdFile.cpp:389-465 | A directory in order, with its open handles, stands for a plain directory: a map from names to plain files, subdirectories and reserved names, and one from handles to names. |
| DirShown.StillShown | src/utility/SdFile.cpp:389-465 | After an operation on one name it stands for the plain directory in which only that name, and at most one handle, have changed. |
| DirShown.ClosedSize | src/utility/SdFile.cpp:73-77 | The plain file of a name that is not open has the size of its entry. |
| DirTurns.OnFile | src/utility/SdFile.cpp:665-1221 | A command on an open file of a directory, beside other open files: as on its plain byte sequence; one step about its name; all in order afterwards; no cluster gets lost. |
| DirTurns.CloseFile | src/utility/SdFile.cpp:73-77 | Closing it: succeeds unless a card access fails; its entry then describes it; one step about its name; no cluster gets lost. |
| DirTurns.OpenFile | src/utility/SdFile.cpp:389-465 | Opening, truncating or creating a file by name: absent I/O errors it succeeds exactly if open does not refuse and the name is no subdirectory; one step about the name, or nothing has changed; no cluster gets lost. |
| DirTurns.CreateContiguousFile | src/utility/SdFile.cpp:128-147 | createContiguous: absent I/O errors the clusters free before decide; one step about the name, also when the entry is taken back; no cluster gets lost. |
| DirTurns.MakeSubDir | src/utility/SdFile.cpp:289-341 | makeDir: absent I/O errors the clusters free before decide; one step about the name, also when an empty file is left; no cluster gets lost. |
| DirTurns.RemoveFile | src/utility/SdFile.cpp:815-819 | remove by name: absent I/O errors it succeeds exactly unless open for writing is refused; one step about the name; its clusters become free, or, of a file without bytes, stay in use without an owner. |
| DirTurns.RemoveSubDir | src/SD.cpp:327-335 | rmDir by name: absent I/O errors it succeeds exactly for a subdirectory that looks empty; one step about the name; no cluster gets lost. |
| DirMoves.Use | src/utility/SdFile.cpp:665-1221 | On the plain directory, a command changes the plain file under the name of its handle as the command does, and nothing else. |
| DirMoves.Close | src/utility/SdFile.cpp:73-77 | Closing takes the handle away and leaves the bytes up to the size under its name. |
| DirMoves.OpenByName | src/utility/SdFile.cpp:389-465 | Opening succeeds exactly for the name of a file that may be opened this way, or for a new one if there is room for an entry; it gives the handle the name and its mode, and the name the old bytes, none under O_TRUNC. |
| DirMoves.Create | src/utility/SdFile.cpp:128-147 | createContiguous succeeds exactly for a new name, if there are room for an entry and a run of clusters; the name then stands for a file of that size, open at its start; else the plain directory is the same. |
| DirMoves.Make | src/utility/SdFile.cpp:289-341 | makeDir succeeds exactly for a new name, if there are room for an entry and one more cluster; with room for the entry only, it fails and the name stands for an empty file. |
| DirMoves.Remove | src/utility/SdFile.cpp:815-819 | remove succeeds exactly for the name of a file that is not read-only, and takes exactly that name away. |
| DirMoves.RemoveDir | src/SD.cpp:327-335 | rmDir succeeds exactly for the name of a subdirectory that looks empty on the volume, and takes exactly that name away. |
| DirRuns.AllowedIsLegal | src/utility/SdFile.cpp:389-465 | Which requests may be made is seen from the plain directory and the length of its table. |
| DirRuns.Run | src/utility/SdFile.cpp:73-1221 | Any sequence of requests (opening, creating, truncating, using, closing and removing files, making and removing directories, through any number of handles) is a run of the plain directory: each request has the reply and the effect that it has there, and these are determined, with the room on the volume. Each is one step of the volume about the name of the request, also the one that an I/O error breaks off, which ends the run: in every state all chains on the volume are sound and disjoint, and everything outside the directory keeps its clusters and blocks. There are chains for exactly what is listed, a new file has no clusters, and the only clusters that get lost are those of removed files without bytes. On hardware that works, the run reaches its end unless a request is a write that stores a dirty block directly; such requests alone misuse the cache. |
| Startup.Begin | src/utility/SdFile.cpp:555-583 | Mounting a sound volume and opening its root directory, FAT16 or FAT32: unless the hardware fails or the partition is invalid, the directory and a pool of handles are in order, on the layout and the blocks of the card. |
| Startup.FormattedTidy | src/utility/SdVolume.cpp:227-295 | A FAT16 or FAT32 volume with equal FATs and an empty root directory, of FAT32 one cluster, is sound. |
| Startup.Session | src/utility/SdFile.cpp:73-1221 | From a formatted card, FAT16 or FAT32: mounting, opening the root directory, then any sequence of requests does what it does to an empty plain directory, to its end if the hardware works and no request is a write that stores a dirty block directly. The run of the volume beside it starts with the blocks and the FAT of the card and ends with those of the volume, and what DirRuns.Run says of runs holds of it. |
| ReadBack.ReadIsWritten | src/utility/SdFile.cpp:665-1221 | In every such run that creates a file on a formatted FAT16 card, writes to it, closes it, opens it again and reads: all succeeds but the write, which does exactly if the bytes fit into the free clusters of the card, and what is read is what was written, or nothing if it did not fit. |
| ReadBack.NothingFatal | src/utility/SdFile.cpp:1175-1182 | None of these requests can misuse the cache: the new file has no block that could be dirty in it. |
| ReadBack.SpaceStays | src/utility/SdFile.cpp:440-457 | Creating the file takes no cluster: all that were free are there for the write. |
| ReadBack.StoreAndFetch | src/utility/SdFile.cpp:73-1221 | A client that does so on any formatted FAT16 card, from the blocks of the card on, unless the hardware fails. |
| Cards.Card16IsFormatted | src/utility/SdVolume.cpp:227-295 | A FAT16 card of 4085 clusters, given by its blocks, that can be mounted and is formatted. |
| Cards.Card32IsFormatted | src/utility/SdVolume.cpp:227-295 | The same for a FAT32 card of 65525 clusters. |
| Cards.StoreOnCard16 | src/utility/SdFile.cpp:73-1221 | What is written to a new file on the first of these cards is read back, unless the hardware fails. |
| Names.Make83Name | src/utility/SdFile.cpp:244-275 | Succeeds exactly on 8.3 names and yields their 11-byte encoding. In codes: what is before the first dot from byte 0 on, what follows it from byte 8 on, blanks between, 0x61 to 0x7A minus 0x20 and every other character unchanged; no small letter is left. |
| Names.Name83ByCodes | src/utility/SdFile.cpp:244-275 | Which names are accepted, by the codes of their characters. |
| Names.EncodeByCodes | src/utility/SdFile.cpp:244-275 | Which bytes the encoding has. |
| Names.CaseDoesNotMatter | src/utility/SdFile.cpp:244-275 | Names that differ only by 0x20 in letters have the same encoding. |
| Names.DisplayByCodes | src/utility/SdFile.cpp:177-185 | Which characters dirName shows: those of the name and, behind a dot, those of the extension that are no blanks. |
| Names.DirName | src/utility/SdFile.cpp:177-185 | Writes the shown name and its terminator into at most 13 bytes. |
| Names.DisplayEncode | src/utility/SdFile.cpp:177-185 | What dirName shows of an encoded name is the name in upper case without a trailing dot. |
| Names.RoundTrip | src/utility/SdFile.cpp:244-275 | Encoding the shown name again gives the same 11 bytes. |
| Names.EncodedFirstByte | src/utility/SdFile.cpp:244-275 | The first byte of an encoded name is never a free, deleted or dot marker. |
| DirEntry.NewEntryFields | src/utility/SdFile.cpp:440-457 | A new entry has the name, no attributes, no cluster and size 0. |
| DirEntry.FieldsByBytes | src/utility/FatStructs.h:307-418 | Name, attributes, first cluster and size of an entry, and what it is (free, deleted, dot, file, subdirectory), by its bytes. |
| DirEntry.SyncedBytes | src/utility/SdFile.cpp:966-984 | Each byte of an updated entry: the digits of size, first cluster and stamp, and the old bytes elsewhere. |
| DirEntry.NewEntryBytes | src/utility/SdFile.cpp:440-457 | Each byte of a new entry: name, stamps, zeros. |
| Path.GetNextPathComponent | src/SD.cpp:66-121 | Copies at most twelve characters other than 0x2F, skips one 0x2F on each side, and tells whether anything is left. |
| Path.WalkJoin | src/SD.cpp:66-121 | Splitting a path made of components gives back the components if and only if none is longer than twelve characters; the leading separator may be missing. |
| PathWalk.WalkPath | src/SD.cpp:125-225 | With callback_pathExists and absent I/O errors: true exactly if each component is found in the directory before it; nothing on the volume changes. |
| PathWalk.CallbackPathExists | src/SD.cpp:240-259 | True exactly if the directory has a file or subdirectory of that name. |
| Findings.RewriteStart | src/utility/SdFile.cpp:1129-1221 | A client writes part of a block at the start of a file, goes back to 0 and writes at least a whole block: unless the hardware fails, the first write succeeds exactly if it fits, and then the cache is wedged, the close fails, and so does every later flush. |
| Findings.WriteInOrder | src/utility/SdFile.cpp:1129-1221 | Writing a file in order, in parts of any size, and closing it: unless the hardware fails, every write and the close succeed if and only if all parts fit on the disk; the cache is never wedged. |
| Findings.LeakOnFullDisk | src/utility/SdFile.cpp:779-795 | A client writes more to an empty file than the disk has room for, closes it and removes it: unless the hardware fails, the write fails, the name is gone, and the clusters that the write took, all that were free, stay in use. |
| Findings.MakeDirWithoutRoom | src/utility/SdFile.cpp:289-341 | A client makes a directory under a new name when no cluster is left for it but room for its entry is: unless the hardware fails it gets false, and the name lists an empty file. |
| Findings.FillDisk | src/utility/SdFile.cpp:665-716 | A client writes more than fits, to a file for which what fits ends behind its size: unless the hardware fails the write fails and the position is at the end of the file's last cluster, behind the size. A following read is not cut off, and what it takes for the next cluster is the end mark of the chain, which leads behind the volume. |
| Findings.LongComponent | src/SD.cpp:66-121 | A component of thirteen characters is taken apart. |

## Left out

- Directories.OpenCachedEntry: after a failed O_TRUNC the handle is not described beyond the untouched rest of the volume, because an I/O error may have left it anywhere in truncate.
- File.SdFile.Write: does not model positions that wrap around 2^32, because the driver relies on its caller there; the end of the write is below 2^32.
- File.SdFile.Write: the result is a success flag, because the returned byte count is the one asked for or 0; the error flag of the Print class is left out.
- File.SdFile.Read: with the position behind the size, only as far as the file's clusters reach; where the end mark of the chain leads as a cluster number depends on the device, and only that it leads behind the volume is stated (`Findings.FillDisk`).
- Volume.SdVolume.ChainSize: not on a FAT on which the links from the first cluster go in a circle, because the loop does not end there.
- Directories.Open: creation requires that the directory stays below 2^32 bytes, because chainSize counts modulo 2^32; `dirFile` is a directory, because the code checks only for the FAT16 root.
- Mount.Init: a volume on which the 32-bit sums wrap gets some layout that the model does not describe further; the volume code is proved for sound layouts only, with FAT32 cluster numbers below the EOC range and a FAT with an entry for each cluster, which `init` does not check.
- TreeRemoval.RmRfStar: `int` has at least 32 bits.
- Names.RoundTrip: the table of illegal characters, compiled only for AVR and ARM, is a parameter set without capital letters.
- Names.DirName: the target is a 13-byte array; writing past smaller ones is not modelled.
- The SPI protocol, card commands, tokens, checksums, timeouts and erasing: the card is an abstract device.
- Time: the date and time callback supplies arbitrary values; `timestamp` is not modelled.
- Printing and listing: `ls`, `printDirName`, `printFatDate`, `printFatTime`, the `write` variants for text, `readDir` and `dirEntry`.
- `seekCur` and `seekEnd`: one call of `seekSet` each.
- FAT12 volumes, more than one volume, and mounting again: the cache is static in the source; here one cache belongs to one volume.
- Several handles on one file: the library documents that they corrupt it.
- DirRuns.Run: requests that open a file twice, remove an open file, name no 8.3 name, or leave the 16- or 32-bit ranges are skipped (`PlainDirs.Legal`); it closes a subdirectory that `open` finds; it stays in one directory, and `rmRfStar`, whose effect on whole trees is `TreeRemoval.RmRfStar`, is not among its requests.
- Startup.Session: an empty root directory only; `Startup.Begin` takes any sound volume.
- ReadBack.StoreAndFetch: FAT16 roots only, which cannot grow; at most 32767 bytes, the most that `read` can return.
- FileRuns.Run: writes that would end at 2^32 or behind, reads of more than 32767 bytes, and reads behind the size are skipped.
- `walkPath` with `callback_makeDirPath`, `callback_remove` or `callback_rmdir`: the walk is modelled with `callback_pathExists`; what the last two do at its end is `Removal.RemoveNamed` and `Removal.RmDirNamed`.
- `SDClass` and its folder-backed files: wrappers over the host's file system.
- A failed `truncate` may leave the file's last entry naming a free cluster: only the frame is stated for failures.
