/** Open files: a byte sequence in a cluster chain, with a position and a cached cluster. */
module File {
  import opened Bytes
  import opened Bits
  import opened VolumeLayout
  import opened Chains
  import opened Allocation
  import opened FileData
  import Device
  import opened DirEntry
  import opened Volume

  datatype FileType = Closed | Normal | Root16Dir | Root32Dir | SubDir

  /** The bits of `flags_`. */
  datatype Flags = Flags(read: bool, write: bool, append: bool, sync: bool, unbuffered: bool, dirDirty: bool)

  /** The largest position and size that the 32-bit fields hold. */
  const SIZE_LIMIT: nat := 0x1_0000_0000

  /** The state in which a write began, as far as it matters for what the write promises. */
  datatype Began = Began(disk: seq<Block>, fat: seq<nat>, chain: seq<nat>, from: nat, size: nat, flags: Flags,
                         first: nat, doomed: bool, safe: bool, misused: bool, faults: nat)

  class SdFile {
    const vol: SdVolume
    /** Whether the user supplied a date and time callback. */
    const hasClock: bool
    var flags: Flags
    var kind: FileType
    var curCluster: nat
    var curPosition: nat
    var dirBlock: nat
    var dirIndex: nat
    var fileSize: nat
    var firstCluster: nat

    /** The clusters of the file, in order. */
    ghost var chain: seq<nat>

    constructor (vol: SdVolume, hasClock: bool)
      ensures this.vol == vol && this.hasClock == hasClock && kind == Closed
    {
      this.vol := vol;
      this.hasClock := hasClock;
      kind := Closed;
      flags := Flags(false, false, false, false, false, false);
      curCluster, curPosition, dirBlock, dirIndex, fileSize, firstCluster := 0, 0, 0, 0, 0, 0;
      chain := [];
    }

    ghost function Place(): Extent
      reads this
    {
      if kind == Root16Dir then Extent.Root16 else Clusters(chain)
    }

    /** The handle agrees with the FAT: its clusters are a chain that has room for its bytes. */
    ghost predicate Linked()
      reads this, vol
    {
      && kind != Closed
      && (kind == Root16Dir ==> vol.lay.fatType == 16 && firstCluster == 0)
      && FileChain(vol.lay, vol.fat, firstCluster, chain)
      && fileSize < SIZE_LIMIT
      && fileSize <= Capacity(vol.lay, Place())
    }

    /** The cached cluster is the one of the byte before the position. */
    ghost predicate Positioned()
      reads this
    {
      && curPosition < SIZE_LIMIT
      && (kind != Root16Dir ==> CursorAt(vol.lay, chain, curPosition, curCluster))
    }

    lemma PlaceOk()
      requires vol.Valid() && Linked()
      ensures vol.lay.ExtentOk(Place()) && vol.lay.ExtentOk(Clusters(chain))
    {
      vol.Facts();
      FileExtent(vol.lay, vol.fat, firstCluster, chain);
    }

    predicate IsDir()
      reads this
    {
      kind == Root16Dir || kind == Root32Dir || kind == SubDir
    }

    predicate IsRoot()
      reads this
    {
      kind == Root16Dir || kind == Root32Dir
    }

    /** The directory entry of the file lies on the device, outside the FATs. */
    ghost predicate EntryOnDisk()
      reads this, vol
    {
      0 < dirBlock < |vol.disk| && !vol.lay.InFat(dirBlock) && dirIndex < ENTRIES_PER_BLOCK
    }

    /** It lies in the root area or in a cluster that is in use, but not in a cluster of the file itself. */
    ghost predicate EntryPlaced()
      reads this, vol
    {
      && EntryOnDisk()
      && !Owned(vol.lay, chain, dirBlock)
      && UsedBlock(vol.lay, vol.fat, dirBlock)
    }

    ghost function DiskEntry(): Entry
      requires EntryOnDisk()
      reads this, vol
    {
      EntryAt(vol.disk[dirBlock], dirIndex)
    }

    /** The directory entry still has its name and attributes. */
    twostate predicate SameName()
      reads this, vol
    {
      && old(EntryOnDisk()) && EntryOnDisk()
      && Name(DiskEntry()) == old(Name(DiskEntry())) && Attributes(DiskEntry()) == old(Attributes(DiskEntry()))
    }

    /** Unless an update is due, the directory entry names the file's first cluster and size. */
    ghost predicate EntryAgrees()
      requires EntryOnDisk()
      reads this, vol
    {
      !flags.dirDirty ==>
        FirstCluster(DiskEntry()) == firstCluster && (kind == Normal ==> Size(DiskEntry()) == fileSize)
    }

    /** The handle fits the volume; its directory entry may be out of date. */
    ghost predicate Attached()
      reads this, vol
    {
      && Linked()
      && Positioned()
      && (if IsRoot() then !flags.dirDirty else EntryPlaced())
    }

    /** An open file between calls. */
    ghost predicate Ready()
      reads this, vol
    {
      Attached() && (!IsRoot() ==> EntryAgrees())
    }

    lemma ReadyOnDisk()
      requires Ready() && kind == Normal
      ensures EntryOnDisk() && FileChain(vol.lay, vol.fat, firstCluster, chain)
    {
    }

    /** A dirty block in the cache, if it is no FAT block, is none of this file's blocks at or behind `p`. */
    ghost predicate NothingAhead(p: nat)
      reads this, vol, vol.cache
    {
      vol.cache.dirty && !vol.lay.InFat(vol.cache.blockNumber) ==>
        Behind(vol.lay, vol.fat, chain, vol.cache.blockNumber, p)
    }

    /** Moving on from `p` to `q` keeps it so. */
    twostate predicate StaysBehind(p: nat, q: nat)
      reads this, vol, vol.cache
    {
      old(NothingAhead(p)) ==> NothingAhead(q)
    }

    /** Then the cache is not misused, whether the operation succeeds or not. */
    twostate predicate StaysSafe(p: nat)
      reads this, vol, vol.cache
    {
      old(NothingAhead(p)) ==> vol.cache.misused == old(vol.cache.misused)
    }

    /** A write of `m` bytes at `p` stores a dirty cached block directly; see Rewrites. */
    ghost predicate IsDoomed(p: nat, m: nat)
      reads this, vol.cache
    {
      vol.lay.blocksPerCluster > 0 && Doomed(vol.lay, chain, vol.CacheNow(), p, m)
    }

    /** `write` of `m` bytes finds the cache misused, or stores a dirty cached block directly. */
    ghost predicate Dooms(m: nat)
      reads this, vol.cache
    {
      vol.lay.blocksPerCluster > 0 && WriteDooms(vol.lay, chain, vol.CacheNow(), curPosition, WriteStart(), m)
    }

    /** The block of the position, if it is not filled, is dirty in the cache. */
    ghost predicate PartCached()
      reads this, vol.cache
    {
      curPosition % BLOCK_SIZE != 0 ==>
        vol.cache.dirty && IsBlockOf(vol.lay, chain, vol.cache.blockNumber, curPosition)
    }

    /** addCluster */
    method AddCluster() returns (ok: bool)
      requires vol.Valid() && Linked() && kind != Root16Dir
      requires if chain == [] then curCluster == 0 else curCluster == chain[|chain| - 1]
      modifies this`curCluster, this`firstCluster, this`flags, this`chain
      modifies vol, vol.cache, vol.cache.card, vol.cache.buffer
      ensures vol.Valid() && Linked()
      ensures SameOutsideFat(vol.lay, old(vol.disk), vol.disk) && vol.OnlyFatDirtied()
      ensures Step(vol.lay, old(vol.fat), vol.fat, old(chain), chain)
      ensures ok ==> chain == old(chain) + [curCluster]
      ensures ok ==> 2 <= curCluster < |old(vol.fat)| && old(vol.fat)[curCluster] == 0
      ensures ok ==> vol.lay.InFat(vol.cache.blockNumber)
      ensures ok ==> OnlyOf(old(vol.fat), vol.fat, chain)
      ensures ok ==> FirstFit(old(vol.fat), old(vol.SearchFrom(curCluster)), 1, curCluster)
      ensures old(firstCluster) != 0 ==> firstCluster == old(firstCluster) && flags == old(flags)
      ensures flags == old(flags) || flags == old(flags).(dirDirty := true)
      ensures firstCluster != old(firstCluster) ==> flags.dirDirty
      ensures ok ==> vol.cache.card.faults == old(vol.cache.card.faults)
      ensures !ok ==> chain == old(chain) && curCluster == old(curCluster) && firstCluster == old(firstCluster)
      ensures !ok ==> flags == old(flags)
      ensures !ok && vol.cache.card.faults == old(vol.cache.card.faults) ==>
        vol.fat == old(vol.fat) && vol.disk == old(vol.disk) && NoneFree(vol.fat)
    {
      hide SdVolume.Valid, Layout.WellFormed, Layout.EocMin, Layout.Stored, NoRun, NoFit, FirstFit, FreeRun;
      hide FileChain, IsChain, Step, Confined, Allocated, OnlyOf, Capacity, SameOutsideFat, EocAboveClusters;
      ghost var f0 := vol.fat;
      ghost var from := vol.SearchFrom(curCluster);
      vol.Facts();
      LastCluster(vol.lay, f0, firstCluster, chain);
      ok, curCluster := vol.AllocContiguous(1, curCluster);
      if !ok {
        if vol.cache.card.faults == old(vol.cache.card.faults) {
          SingleFit(f0, from);
        }
        FileStays(vol.lay, f0, vol.fat, firstCluster, chain);
        return false;
      }
      FirstFitRun(f0, from, 1, curCluster);
      FileGrows(vol.lay, f0, firstCluster, chain, curCluster);
      if firstCluster == 0 {
        firstCluster := curCluster;
        flags := flags.(dirDirty := true);
      }
      chain := chain + [curCluster];
      return true;
    }

    /** The next byte would need a cluster that the file does not have. */
    ghost predicate AtChainEnd()
      reads this
    {
      vol.lay.ClusterIndex(curPosition) == |chain|
    }

    /** The head of the loop of `write`: make the cluster of the next byte current, allocating it if need be. */
    method EnterCluster() returns (ok: bool)
      requires vol.Valid() && Linked() && Positioned() && kind == Normal
      modifies this`curCluster, this`firstCluster, this`flags, this`chain
      modifies vol, vol.cache, vol.cache.card, vol.cache.buffer
      ensures vol.Valid() && Linked()
      ensures SameOutsideFat(vol.lay, old(vol.disk), vol.disk) && vol.OnlyFatDirtied()
      ensures Step(vol.lay, old(vol.fat), vol.fat, old(chain), chain)
      ensures ok ==> vol.lay.ClusterIndex(curPosition) < |chain|
      ensures ok ==> curCluster == chain[vol.lay.ClusterIndex(curPosition)]
      ensures ok ==> chain == old(chain) || chain == old(chain) + [curCluster]
      ensures vol.lay.blocksPerCluster > 0
      ensures ok ==>
        if AtClusterStart(vol.lay, curPosition) && (curPosition > 0 || old(chain) == [])
        then vol.lay.InFat(vol.cache.blockNumber)
        else vol.CacheNow() == old(vol.CacheNow()) && chain == old(chain)
      ensures !ok ==> AtClusterStart(vol.lay, curPosition) && (curPosition > 0 || old(chain) == [])
      ensures vol.cache.card.faults == old(vol.cache.card.faults) ==>
        NoLeak(old(vol.fat), old(chain), vol.fat, chain)
      ensures flags == old(flags) || flags == old(flags).(dirDirty := true)
      ensures firstCluster != old(firstCluster) ==> flags.dirDirty
      ensures ok ==> vol.cache.card.faults == old(vol.cache.card.faults)
      ensures !ok ==> chain == old(chain) && curCluster == old(curCluster) && firstCluster == old(firstCluster)
      ensures !ok ==> flags == old(flags)
      ensures !ok && vol.cache.card.faults == old(vol.cache.card.faults) ==>
        vol.fat == old(vol.fat) && vol.disk == old(vol.disk) && NoneFree(vol.fat) && AtChainEnd()
    {
      hide SdVolume.Valid, Layout.WellFormed, Layout.EocMin, Layout.Stored, Layout.IsEoc, Layout.ClusterIndex;
      hide Layout.InFat, FileChain, IsChain, Step, Confined, Capacity, SameOutsideFat, EocAboveClusters, CursorAt;
      vol.Facts();
      NextCluster(vol.lay, |vol.disk|, vol.fat, firstCluster, chain, curPosition, curCluster);
      SameFile(vol.lay, vol.fat, vol.disk, firstCluster, chain);
      ok := true;
      if vol.lay.BlockOfCluster(curPosition) == 0 && curPosition % BLOCK_SIZE == 0 {
        if curCluster == 0 {
          if firstCluster == 0 {
            ok := AddCluster();
          } else {
            curCluster := firstCluster;
          }
        } else {
          var next;
          ok, next := vol.FatGet(curCluster);
          if !ok {
            return false;
          }
          if vol.lay.IsEoc(next) {
            ok := AddCluster();
          } else {
            curCluster := next;
          }
        }
      }
    }

    /** Device block of the byte at the position. */
    ghost function PositionBlock(): nat
      requires vol.lay.blocksPerCluster > 0 && curCluster >= 2
      reads this
    {
      vol.lay.ClusterStart(curCluster) + vol.lay.BlockOfCluster(curPosition)
    }

    /**
     * The body of the loop of `write`: store bytes in the block at the position, directly when
     * they fill it, else through the cache, without reading a block that holds no file data yet.
     */
    method StoreChunk(src: seq<byte>) returns (ok: bool)
      requires vol.Valid() && vol.lay.IsCluster(curCluster)
      requires 0 < |src| && curPosition % BLOCK_SIZE + |src| <= BLOCK_SIZE
      modifies vol`disk, vol.cache, vol.cache.card, vol.cache.buffer
      ensures vol.Valid() && vol.lay.blocksPerCluster > 0
      ensures PositionBlock() < |vol.disk| == |old(vol.disk)|
      ensures vol.disk == old(vol.disk)[PositionBlock() := vol.disk[PositionBlock()]]
      ensures ok ==> var at := curPosition % BLOCK_SIZE;
        && vol.disk[PositionBlock()][at..at + |src|] == src
        && ((at == 0 && curPosition >= fileSize)
            || vol.disk[PositionBlock()] == Overwrite(old(vol.disk)[PositionBlock()], at, src))
      ensures ok ==> vol.cache.card.faults == old(vol.cache.card.faults)
      ensures ok && |src| < BLOCK_SIZE ==> vol.cache.dirty && vol.cache.blockNumber == PositionBlock()
      ensures ok ==>
        (vol.cache.Wedged() <==>
         && |src| == BLOCK_SIZE
         && (old(vol.cache.Wedged()) || (old(vol.cache.dirty) && old(vol.cache.blockNumber) == PositionBlock())))
      ensures !ok ==> vol.cache.card.faults > old(vol.cache.card.faults)
      ensures vol.cache.misused <==>
        old(vol.cache.misused)
        || (|src| == BLOCK_SIZE && old(vol.cache.dirty) && old(vol.cache.blockNumber) == PositionBlock())
      ensures |src| == BLOCK_SIZE ==>
        && vol.cache.dirty == old(vol.cache.dirty)
        && vol.cache.blockNumber
           == if old(vol.cache.blockNumber) == PositionBlock() then NO_BLOCK else old(vol.cache.blockNumber)
      ensures |src| < BLOCK_SIZE && !ok ==> vol.OnlyFatDirtied()
      ensures var after := FilledCache(old(vol.CacheNow()), PositionBlock(), |src|);
        vol.cache.misused == after.misused && (ok ==> vol.CacheNow() == after)
    {
      hide SdVolume.Valid, Layout.WellFormed, Layout.ClusterStart, Layout.BlockOfCluster, Overwrite;
      vol.Facts();
      vol.ClusterBlocks(curCluster);
      var block := vol.lay.ClusterStart(curCluster) + vol.lay.BlockOfCluster(curPosition);
      if |src| == BLOCK_SIZE {
        ok := vol.WriteThrough(block, src);
        OverwriteAll(vol.disk[block], old(vol.disk)[block], src);
      } else {
        ok := StorePart(block, src);
      }
    }

    lemma OverwriteAll(b: Block, d: Block, src: seq<byte>)
      requires |src| == BLOCK_SIZE
      ensures Overwrite(d, 0, src) == src && b[0..0 + |src|] == b
    {
    }

    /** Bytes that do not fill a block go through the cache. */
    method StorePart(block: nat, src: seq<byte>) returns (ok: bool)
      requires vol.Valid() && 0 < block < |vol.disk| && !vol.lay.InFat(block)
      requires 0 < |src| < BLOCK_SIZE && curPosition % BLOCK_SIZE + |src| <= BLOCK_SIZE
      modifies vol`disk, vol.cache, vol.cache.card, vol.cache.buffer
      ensures vol.Valid() && |vol.disk| == |old(vol.disk)| && vol.disk == old(vol.disk)[block := vol.disk[block]]
      ensures ok ==> var at := curPosition % BLOCK_SIZE;
        && vol.disk[block][at..at + |src|] == src
        && ((at == 0 && curPosition >= fileSize) || vol.disk[block] == Overwrite(old(vol.disk)[block], at, src))
      ensures ok ==> vol.cache.dirty && vol.cache.blockNumber == block
      ensures ok ==> vol.cache.card.faults == old(vol.cache.card.faults)
      ensures !ok ==> vol.OnlyFatDirtied() && vol.cache.card.faults > old(vol.cache.card.faults)
      ensures vol.cache.misused == old(vol.cache.misused)
    {
      hide SdVolume.Valid;
      var blockOffset := curPosition % BLOCK_SIZE;
      if blockOffset == 0 && curPosition >= fileSize {
        ok := vol.AdoptBlock(block);
      } else {
        ok := vol.CacheRawBlock(block, true);
      }
      if ok {
        vol.CopyIn(blockOffset, src);
      }
    }

    /** Store the bytes that fit into the block at the position, whose cluster is current. */
    method FillBlock(src: seq<byte>) returns (ok: bool, n: nat)
      requires vol.Valid() && Linked() && kind == Normal
      requires 0 < |src| && curPosition + |src| < SIZE_LIMIT && curPosition <= Capacity(vol.lay, Place())
      requires vol.lay.ClusterIndex(curPosition) < |chain|
      requires curCluster == chain[vol.lay.ClusterIndex(curPosition)]
      modifies this`curPosition, vol`disk, vol.cache, vol.cache.card, vol.cache.buffer
      ensures vol.Valid() && Linked() && vol.lay.ExtentOk(Place())
      ensures SameElsewhere(vol.lay, old(vol.disk), vol.disk, chain)
      ensures vol.lay.WellFormed(|vol.disk|) && |vol.disk| == |old(vol.disk)|
      ensures ok ==> 0 < n <= |src| && curPosition == old(curPosition) + n && Positioned()
      ensures ok ==> curPosition <= Capacity(vol.lay, Place())
      ensures ok ==> Spliced(vol.lay, old(vol.disk), chain, vol.disk, chain, old(curPosition), src[..n], n, fileSize)
      ensures ok ==> vol.cache.card.faults == old(vol.cache.card.faults)
      ensures !ok ==> curPosition == old(curPosition) && vol.cache.card.faults > old(vol.cache.card.faults)
      ensures n == if BLOCK_SIZE - old(curPosition) % BLOCK_SIZE > |src| then |src|
                   else BLOCK_SIZE - old(curPosition) % BLOCK_SIZE
      ensures old(curPosition) / BLOCK_SIZE < vol.lay.BlockCount(Clusters(chain))
      ensures var after := FilledCache(old(vol.CacheNow()),
                                       vol.lay.NthBlock(Clusters(chain), old(curPosition) / BLOCK_SIZE), n);
        vol.cache.misused == after.misused && (ok ==> vol.CacheNow() == after && PartCached())
      ensures StaysSafe(old(curPosition)) && (ok ==> StaysBehind(old(curPosition), curPosition))
    {
      hide SdVolume.Valid, Layout.WellFormed, Layout.EocMin, Layout.ClusterIndex, Layout.ExtentOk;
      hide Layout.BlockOfCluster, Layout.ClusterStart, FileChain, IsChain, Capacity, Spliced, SameElsewhere;
      hide SameOutsideFat, CursorAt, EocAboveClusters, Overwrite, Behind, FilledCache;
      vol.Facts();
      FileExtent(vol.lay, vol.fat, firstCluster, chain);
      LastClusters(vol.lay, vol.fat, firstCluster, chain);
      ghost var d, pos := vol.disk, curPosition;
      n := BLOCK_SIZE - curPosition % BLOCK_SIZE;
      if n > |src| {
        n := |src|;
      }
      BlockOfByte(vol.lay, |d|, chain, pos);
      BlockAt(vol.lay, |d|, vol.fat, chain, pos, n, vol.cache.blockNumber);
      ok := StoreChunk(src[..n]);
      StoredElsewhere(vol.lay, d, d, chain, pos, vol.disk[PositionBlock()]);
      if !ok {
        return false, n;
      }
      ChunkStored(vol.lay, d, chain, pos, src[..n], fileSize, vol.disk[PositionBlock()]);
      CursorAfter(vol.lay, chain, pos, n);
      SameUnlessFull(pos, n);
      curPosition := curPosition + n;
    }

    static lemma SameUnlessFull(p: nat, n: nat)
      requires p % BLOCK_SIZE + n <= BLOCK_SIZE
      ensures (p + n) % BLOCK_SIZE != 0 ==> (p + n) / BLOCK_SIZE == p / BLOCK_SIZE
    {
    }

    /** One round of the loop of `write`: the bytes that fit into the block at the position. */
    method WriteChunk(src: seq<byte>) returns (ok: bool, n: nat)
      requires vol.Valid() && Linked() && Positioned() && kind == Normal
      requires 0 < |src| && curPosition + |src| < SIZE_LIMIT
      modifies this`curCluster, this`curPosition, this`firstCluster, this`flags, this`chain
      modifies vol, vol.cache, vol.cache.card, vol.cache.buffer
      ensures vol.Valid() && Linked()
      ensures Grown(vol.lay, old(vol.disk), old(vol.fat), old(chain), vol.disk, vol.fat, chain)
      ensures flags == old(flags) || flags == old(flags).(dirDirty := true)
      ensures firstCluster != old(firstCluster) ==> flags.dirDirty
      ensures ok ==> 0 < n <= |src| && curPosition == old(curPosition) + n && Positioned()
      ensures ok ==>
        Progress(vol.lay, old(vol.disk), old(vol.fat), old(chain), vol.disk, vol.fat, chain,
                 old(curPosition), src[..n], n, fileSize)
      ensures ok ==> vol.cache.card.faults == old(vol.cache.card.faults)
      ensures !ok ==> curPosition == old(curPosition)
      ensures StaysSafe(old(curPosition))
      ensures ok ==> (IsDoomed(curPosition, |src| - n) <==> old(IsDoomed(curPosition, |src|))) && PartCached()
      ensures vol.cache.misused ==> old(IsDoomed(curPosition, |src|))
      ensures old(IsDoomed(curPosition, |src|)) && !ok ==>
        vol.cache.misused || vol.cache.card.faults > old(vol.cache.card.faults)
      ensures vol.cache.card.faults == old(vol.cache.card.faults) ==> StaysBehind(old(curPosition), curPosition)
      ensures !ok && vol.cache.card.faults == old(vol.cache.card.faults) ==>
        && chain == old(chain) && curCluster == old(curCluster) && firstCluster == old(firstCluster)
        && flags == old(flags) && vol.disk == old(vol.disk) && vol.fat == old(vol.fat)
        && NoneFree(vol.fat) && AtChainEnd()
    {
      hide SdVolume.Valid, Layout.WellFormed, Layout.EocMin, Layout.ClusterIndex, Layout.ExtentOk, FileChain, IsChain;
      hide Step, Capacity, Spliced, SameElsewhere, SameOutsideFat, CursorAt, EocAboveClusters, Behind, ChainOrEmpty;
      hide AtClusterStart, Rewrites, IsBlockOf, Layout.NthBlock, Layout.BlockCount, FilledCache, Doomed, Layout.InFat;
      ghost var d0, chain0, pos, c0 := vol.disk, chain, curPosition, vol.CacheNow();
      n := 0;
      ok := EnterForWrite(src);
      if !ok {
        NotDoomed(vol.lay, chain0, c0, pos, |src|);
        return false, 0;
      }
      ghost var d1, c1 := vol.disk, vol.CacheNow();
      ok, n := FillBlock(src);
      ChunkDooms(vol.lay, |d0|, chain0, chain, pos, |src|, n, c0, c1,
                 FilledCache(c1, vol.lay.NthBlock(Clusters(chain), pos / BLOCK_SIZE), n));
      SameElsewhereTrans(vol.lay, d0, d1, vol.disk, chain, chain);
      if ok {
        SplicedJoin(vol.lay, d0, chain0, d1, vol.disk, chain, pos, src, n, fileSize);
      }
    }

    /** EnterCluster, and what it does not change: the bytes of the file and the dirty data block. */
    method EnterForWrite(ghost src: seq<byte>) returns (ok: bool)
      requires vol.Valid() && Linked() && Positioned() && kind == Normal
      modifies this`curCluster, this`firstCluster, this`flags, this`chain
      modifies vol, vol.cache, vol.cache.card, vol.cache.buffer
      ensures vol.Valid() && Linked() && vol.lay.blocksPerCluster > 0
      ensures vol.lay.WellFormed(|vol.disk|) && |vol.disk| == |old(vol.disk)|
      ensures vol.lay.ExtentOk(Clusters(old(chain))) && vol.lay.ExtentOk(Clusters(chain)) && old(chain) <= chain
      ensures Step(vol.lay, old(vol.fat), vol.fat, old(chain), chain)
      ensures SameElsewhere(vol.lay, old(vol.disk), vol.disk, chain)
      ensures curPosition <= Capacity(vol.lay, Clusters(old(chain))) <= Capacity(vol.lay, Clusters(chain))
      ensures fileSize <= Capacity(vol.lay, Clusters(old(chain)))
      ensures Spliced(vol.lay, old(vol.disk), old(chain), vol.disk, chain, curPosition, src, 0, fileSize)
      ensures StaysSafe(curPosition) && StaysBehind(curPosition, curPosition)
      ensures vol.cache.misused == old(vol.cache.misused)
      ensures ok ==>
        vol.lay.ClusterIndex(curPosition) < |chain| && curCluster == chain[vol.lay.ClusterIndex(curPosition)]
      ensures ok ==>
        if AtClusterStart(vol.lay, curPosition) && (curPosition > 0 || old(chain) == [])
        then vol.lay.InFat(vol.cache.blockNumber)
        else vol.CacheNow() == old(vol.CacheNow()) && chain == old(chain)
      ensures !ok ==> AtClusterStart(vol.lay, curPosition) && (curPosition > 0 || old(chain) == [])
      ensures vol.cache.card.faults == old(vol.cache.card.faults) ==>
        NoLeak(old(vol.fat), old(chain), vol.fat, chain)
      ensures flags == old(flags) || flags == old(flags).(dirDirty := true)
      ensures firstCluster != old(firstCluster) ==> flags.dirDirty
      ensures ok ==> vol.cache.card.faults == old(vol.cache.card.faults)
      ensures !ok ==> chain == old(chain) && curCluster == old(curCluster) && firstCluster == old(firstCluster)
      ensures !ok ==> flags == old(flags)
      ensures !ok && vol.cache.card.faults == old(vol.cache.card.faults) ==>
        vol.fat == old(vol.fat) && vol.disk == old(vol.disk) && NoneFree(vol.fat) && AtChainEnd()
    {
      hide SdVolume.Valid, Layout.WellFormed, Layout.EocMin, Layout.ClusterIndex, Layout.ExtentOk, Layout.InFat;
      hide FileChain, IsChain, Step, Capacity, Spliced, SameElsewhere, SameOutsideFat, CursorAt;
      hide EocAboveClusters, Behind, ChainOrEmpty, AtClusterStart;
      vol.Facts();
      FileExtent(vol.lay, vol.fat, firstCluster, chain);
      CursorInCapacity(vol.lay, chain, curPosition, curCluster);
      ghost var d0, f0, chain0, pos := vol.disk, vol.fat, chain, curPosition;
      ok := EnterCluster();
      vol.Facts();
      FileExtent(vol.lay, vol.fat, firstCluster, chain);
      SameOutsideIsElsewhere(vol.lay, d0, vol.disk, chain);
      SplicedGrow(vol.lay, d0, chain0, vol.disk, chain, pos, src, fileSize);
      if vol.cache.dirty && Behind(vol.lay, f0, chain0, vol.cache.blockNumber, pos) {
        GrowsBehind(vol.lay, f0, vol.fat, chain0, chain, vol.cache.blockNumber, pos);
      }
    }

    /**
     * The loop of `write`. It stops early when the disk is full or the card fails; on a full
     * disk everything up to the position has been written.
     */
    method WriteLoop(src: seq<byte>, ghost g: Began) returns (ok: bool)
      requires vol.Valid() && Linked() && Positioned() && kind == Normal && At(g, src) && g.from + |src| < SIZE_LIMIT
      modifies this`curCluster, this`curPosition, this`firstCluster, this`flags, this`chain
      modifies vol, vol.cache, vol.cache.card, vol.cache.buffer
      ensures vol.Valid()
      ensures ok ==> Writing(g, src, |src|)
      ensures !ok ==> Halted(g, src)
    {
      hide SdVolume.Valid, Layout.WellFormed, Layout.EocMin, Layout.ClusterIndex, Layout.ExtentOk, Layout.InFat;
      hide FileChain, IsChain, Step, Capacity, Spliced, SameElsewhere, CursorAt, EocAboveClusters;
      hide Behind, Doomed, IsBlockOf, Grown, Progress;
      vol.Facts();
      FileExtent(vol.lay, vol.fat, firstCluster, chain);
      CursorInCapacity(vol.lay, chain, curPosition, curCluster);
      ProgressStart(vol.lay, vol.disk, vol.fat, firstCluster, chain, curPosition, src, fileSize);
      ProgressGrown(vol.lay, g.disk, g.fat, g.chain, vol.disk, vol.fat, chain, g.from, src, 0, fileSize);
      var done := 0;
      while done < |src|
        invariant vol.Valid() && 0 <= done <= |src| && Writing(g, src, done)
      {
        var n;
        ok, n := WriteRound(src, done, g);
        if !ok {
          return false;
        }
        done := done + n;
      }
      return true;
    }

    /** One round of the loop of `write` that began in state `g`. */
    method WriteRound(src: seq<byte>, done: nat, ghost g: Began) returns (ok: bool, n: nat)
      requires vol.Valid() && done < |src| && Writing(g, src, done) && kind == Normal && g.from + |src| < SIZE_LIMIT
      modifies this`curCluster, this`curPosition, this`firstCluster, this`flags, this`chain
      modifies vol, vol.cache, vol.cache.card, vol.cache.buffer
      ensures vol.Valid()
      ensures ok ==> 0 < n <= |src| - done && Writing(g, src, done + n)
      ensures !ok ==> Halted(g, src)
    {
      hide SdVolume.Valid, Layout.WellFormed, Layout.EocMin, Layout.ClusterIndex, Layout.ExtentOk, Layout.InFat;
      hide FileChain, IsChain, Step, Capacity, Spliced, SameElsewhere, CursorAt, EocAboveClusters;
      hide Behind, Doomed, IsBlockOf, Grown, Progress;
      ghost var d1, f1, chain1 := vol.disk, vol.fat, chain;
      ProgressGrown(vol.lay, g.disk, g.fat, g.chain, d1, f1, chain1, g.from, src, done, fileSize);
      ok, n := WriteChunk(src[done..]);
      GrownTrans(vol.lay, g.disk, g.fat, g.chain, d1, f1, chain1, vol.disk, vol.fat, chain);
      if ok {
        ProgressTrans(vol.lay, g.disk, g.fat, g.chain, d1, f1, chain1, vol.disk, vol.fat, chain,
                      g.from, src, done, n, fileSize);
      }
    }

    /** The handle is about to write `src`, as `g` has it. */
    ghost predicate At(g: Began, src: seq<byte>)
      reads this, vol, vol.cache, vol.cache.card
    {
      && vol.disk == g.disk && vol.fat == g.fat && chain == g.chain && curPosition == g.from && fileSize == g.size
      && flags == g.flags && firstCluster == g.first && vol.cache.card.faults == g.faults
      && (IsDoomed(curPosition, |src|) <==> g.doomed) && (g.safe ==> NothingAhead(curPosition))
      && vol.cache.misused == g.misused
    }

    /** What a write that stops has kept of the state `g` in which it began. */
    ghost predicate Kept(g: Began)
      reads this, vol, vol.cache
    {
      && Linked() && fileSize == g.size
      && (flags == g.flags || flags == g.flags.(dirDirty := true)) && (firstCluster != g.first ==> flags.dirDirty)
      && Grown(vol.lay, g.disk, g.fat, g.chain, vol.disk, vol.fat, chain)
      && (g.safe ==> vol.cache.misused == g.misused)
    }

    /** A write of `src` that began in state `g` has stored `done` bytes. */
    ghost predicate Writing(g: Began, src: seq<byte>, done: nat)
      reads this, vol, vol.cache, vol.cache.card
    {
      && Kept(g) && Positioned() && done <= |src| && curPosition == g.from + done
      && Progress(vol.lay, g.disk, g.fat, g.chain, vol.disk, vol.fat, chain, g.from, src, done, g.size)
      && (IsDoomed(curPosition, |src| - done) <==> g.doomed) && (done > 0 ==> PartCached())
      && vol.cache.card.faults == g.faults && (g.safe ==> NothingAhead(curPosition))
    }

    /** It has stopped early: the card has failed, or the disk is full. */
    ghost predicate Halted(g: Began, src: seq<byte>)
      reads this, vol, vol.cache, vol.cache.card
    {
      && Kept(g)
      && (vol.cache.misused ==> g.doomed)
      && (g.doomed ==> vol.cache.misused || vol.cache.card.faults > g.faults)
      && (vol.cache.card.faults == g.faults ==>
            && Positioned() && g.from <= curPosition < g.from + |src|
            && Progress(vol.lay, g.disk, g.fat, g.chain, vol.disk, vol.fat, chain,
                        g.from, src, curPosition - g.from, g.size)
            && NoneFree(vol.fat) && AtChainEnd()
            && (g.safe ==> NothingAhead(curPosition)))
    }

    // -------------------------------------------------------------- positioning

    /**
     * seekSet: follow the chain from the current cluster, or from the first one when the new
     * position lies before it. Either way the cluster at hand becomes the one of byte pos - 1.
     */
    method SeekSet(pos: nat) returns (ok: bool)
      requires vol.Valid() && (kind != Closed ==> Linked() && Positioned())
      modifies this`curCluster, this`curPosition, vol.cache, vol.cache.card, vol.cache.buffer
      ensures vol.Valid()
      ensures ok ==> kind != Closed && pos <= fileSize && curPosition == pos && Positioned()
      ensures ok && kind != Root16Dir ==> Device.ClusterBefore(vol.lay, chain, pos, curCluster)
      ensures ok ==> vol.cache.card.faults == old(vol.cache.card.faults)
      ensures !ok ==> curPosition == old(curPosition)
      ensures kind == Closed || pos > fileSize ==>
        !ok && curCluster == old(curCluster) && vol.cache.card.faults == old(vol.cache.card.faults)
      ensures kind != Closed && pos <= fileSize && !ok ==> vol.cache.card.faults > old(vol.cache.card.faults)
      ensures vol.cache.dirty ==> old(vol.cache.dirty)
      ensures vol.OnlyFatDirtied()
      ensures kind != Closed && pos <= fileSize ==>
        if kind == Root16Dir || old(Links(vol.lay, curPosition, pos)) == 0
        then ok && vol.CacheNow() == old(vol.CacheNow())
        else ok ==> vol.lay.InFat(vol.cache.blockNumber)
    {
      hide SdVolume.Valid, Layout.WellFormed, Layout.EocMin, Layout.ClusterIndex, Capacity, FileChain, IsChain;
      hide EocAboveClusters, Shr;
      if kind == Closed || pos > fileSize {
        return false;
      }
      if kind == Root16Dir {
        curPosition := pos;
        return true;
      }
      if pos == 0 {
        curCluster := 0;
        curPosition := 0;
        return true;
      }
      var shift := vol.lay.clusterSizeShift + 9;
      var nCur := Shr(if curPosition == 0 then SIZE_LIMIT - 1 else curPosition - 1, shift);
      var nNew := Shr(pos - 1, shift);
      IndexByShift(vol.lay, pos - 1);
      IndexByShift(vol.lay, if curPosition == 0 then SIZE_LIMIT - 1 else curPosition - 1);
      InRoom(vol.lay, chain, pos - 1, fileSize);
      vol.Facts();
      IndexByNumber(vol.lay, |vol.disk|, pos - 1);
      ghost var target := nNew;
      if nNew < nCur || curPosition == 0 {
        FileHead(vol.lay, vol.fat, firstCluster, chain);
        curCluster := firstCluster;
      } else {
        nNew := nNew - nCur;
      }
      ok := FollowChain(nNew, target);
      if !ok {
        return false;
      }
      curPosition := pos;
    }

    /** The loop of `seekSet`. */
    method FollowChain(steps: nat, ghost target: nat) returns (ok: bool)
      requires vol.Valid() && FileChain(vol.lay, vol.fat, firstCluster, chain)
      requires steps <= target < |chain| && curCluster == chain[target - steps]
      modifies this`curCluster, vol.cache, vol.cache.card, vol.cache.buffer
      ensures vol.Valid()
      ensures ok ==> curCluster == chain[target] && vol.cache.card.faults == old(vol.cache.card.faults)
      ensures !ok ==> vol.cache.card.faults > old(vol.cache.card.faults)
      ensures vol.cache.dirty ==> old(vol.cache.dirty)
      ensures vol.OnlyFatDirtied()
      ensures if steps == 0 then ok && vol.CacheNow() == old(vol.CacheNow())
              else ok ==> vol.lay.InFat(vol.cache.blockNumber)
    {
      hide SdVolume.Valid, Layout.WellFormed, Layout.EocMin, IsChain, EocAboveClusters;
      var n := steps;
      vol.Facts();
      while n > 0
        invariant vol.Valid() && 0 <= n <= steps && curCluster == chain[target - n]
        invariant vol.cache.card.faults == old(vol.cache.card.faults)
        invariant vol.cache.dirty ==> old(vol.cache.dirty)
        invariant vol.OnlyFatDirtied()
        invariant if n == steps then vol.CacheNow() == old(vol.CacheNow()) else vol.lay.InFat(vol.cache.blockNumber)
      {
        ChainNext(vol.lay, vol.fat, chain, target - n);
        var next;
        ok, next := vol.FatGet(curCluster);
        if !ok {
          return false;
        }
        curCluster := next;
        n := n - 1;
      }
      return true;
    }

    // -------------------------------------------------------------- the directory entry

    /** The block map after the directory entry was updated from the handle. */
    ghost function SyncedDisk(d: seq<Block>, stamp: Stamp): seq<Block>
      requires dirBlock < |d| && dirIndex < ENTRIES_PER_BLOCK
      reads this
    {
      d[dirBlock := WithEntry(d[dirBlock], dirIndex,
        Synced(EntryAt(d[dirBlock], dirIndex), IsDir(), fileSize, firstCluster, stamp))]
    }

    /** sync: update the directory entry if due, then make the device equal to the block map. */
    method Sync() returns (ok: bool, ghost stamp: Stamp)
      requires vol.Valid() && (kind != Closed && flags.dirDirty ==> EntryOnDisk())
      modifies this`flags, vol`disk, vol.cache, vol.cache.card, vol.cache.buffer
      ensures vol.Valid() && |vol.disk| == |old(vol.disk)| && vol.cache.misused == old(vol.cache.misused)
      ensures flags == old(flags) || flags == old(flags).(dirDirty := false)
      ensures kind == Closed ==> !ok
      ensures old(vol.cache.Wedged()) ==> !ok
      ensures ok ==> !flags.dirDirty && vol.Flushed()
      ensures ok ==> vol.cache.card.faults == old(vol.cache.card.faults)
      ensures !ok && kind != Closed ==> vol.cache.card.faults > old(vol.cache.card.faults)
      ensures kind == Closed || !old(flags).dirDirty || flags.dirDirty ==> vol.disk == old(vol.disk)
      ensures kind != Closed && old(flags).dirDirty && !flags.dirDirty ==>
        dirBlock < |vol.disk| && dirIndex < ENTRIES_PER_BLOCK && vol.disk == SyncedDisk(old(vol.disk), stamp)
      ensures vol.cache.card.hardware >= old(vol.cache.card.hardware)
    {
      hide SdVolume.Valid, Overwrite, Synced, Layout.InFat;
      stamp := NoStamp;
      if kind == Closed {
        return false, stamp;
      }
      if flags.dirDirty {
        ok := vol.CacheRawBlock(dirBlock, true);
        if !ok {
          return false, stamp;
        }
        var now := NoStamp;
        if hasClock {
          var date: nat, time: nat := *, *;
          now := Stamp(date, time);
        }
        var e := EntryAt(vol.cache.buffer[..], dirIndex);
        vol.CopyIn(ENTRY_SIZE * dirIndex, Synced(e, IsDir(), fileSize, firstCluster, now));
        stamp := now;
        flags := flags.(dirDirty := false);
      }
      ok := vol.CacheFlush();
    }

    /** What `sync` promises: the entry agrees with the handle, and nothing else has changed. */
    twostate predicate SyncOutcome()
      reads this, vol
    {
      && Ready() && (!IsRoot() ==> SameName())
      && SameButEntry(vol.lay, old(vol.disk), vol.disk, [], dirBlock, dirIndex)
      && vol.lay.WellFormed(|old(vol.disk)|) && vol.lay.WellFormed(|vol.disk|) && vol.lay.ExtentOk(Place())
      && fileSize <= Capacity(vol.lay, Place())
      && Content(vol.lay, vol.disk, Place(), fileSize) == Content(vol.lay, old(vol.disk), Place(), fileSize)
    }

    /** `sync` of an open file. */
    method SyncReady() returns (ok: bool)
      requires vol.Valid() && kind != Closed && (flags.dirDirty ==> EntryOnDisk())
      modifies this`flags, vol`disk, vol.cache, vol.cache.card, vol.cache.buffer
      ensures vol.Valid() && (old(Ready()) ==> SyncOutcome()) && vol.cache.misused == old(vol.cache.misused)
      ensures flags == old(flags) || flags == old(flags).(dirDirty := false)
      ensures !old(flags).dirDirty ==> vol.disk == old(vol.disk)
      ensures ok ==> !flags.dirDirty && vol.Flushed()
      ensures old(vol.cache.Wedged()) ==> !ok
      ensures ok ==> vol.cache.card.faults == old(vol.cache.card.faults)
      ensures !ok ==> vol.cache.card.faults > old(vol.cache.card.faults)
      ensures vol.cache.card.hardware >= old(vol.cache.card.hardware)
    {
      hide SdVolume.Valid, Layout.WellFormed, Layout.EocMin, Layout.ExtentOk, Layout.InFat, Capacity;
      hide FileChain, IsChain, EocAboveClusters, CursorAt, Synced, WithEntry, EntryAt, SameButEntry, FirstCluster, Size;
      hide Owned, UsedBlock, Name, Attributes;
      ghost var d, ready := vol.disk, Ready();
      if ready {
        vol.Facts();
        PlaceOk();
        FirstClusterBound(vol.lay, |vol.disk|, vol.fat, firstCluster, chain);
        NothingReplaced(vol.lay, d, dirBlock, dirIndex);
      }
      ghost var stamp;
      ok, stamp := Sync();
      if ready && !IsRoot() {
        SyncedFields(EntryAt(d[dirBlock], dirIndex), IsDir(), fileSize, firstCluster, stamp);
        ghost var e := Synced(EntryAt(d[dirBlock], dirIndex), IsDir(), fileSize, firstCluster, stamp);
        EntryReplaced(vol.lay, d, dirBlock, dirIndex, e);
        WithEntryAt(d[dirBlock], dirIndex, e, dirIndex);
        OwnEntryKeepsBytes(vol.lay, d, vol.disk, dirBlock, dirIndex, chain, fileSize);
      }
    }

    /**
     * close: `sync`, then the handle is closed. The directory entry now names the file's first
     * cluster and size, and the device holds everything.
     */
    method Close() returns (ok: bool)
      requires vol.Valid() && (kind != Closed && flags.dirDirty ==> EntryOnDisk())
      modifies this`flags, this`kind, vol`disk, vol.cache, vol.cache.card, vol.cache.buffer
      ensures vol.Valid() && vol.cache.misused == old(vol.cache.misused)
      ensures ok <==> kind == Closed != old(kind)
      ensures old(vol.cache.Wedged()) ==> !ok
      ensures old(kind) == Closed || !old(flags).dirDirty ==> vol.disk == old(vol.disk)
      ensures old(kind) != Closed ==>
        && (!ok ==> vol.cache.card.faults > old(vol.cache.card.faults) && (old(Ready()) ==> SyncOutcome()))
        && (ok ==> vol.Flushed() && vol.cache.card.faults == old(vol.cache.card.faults))
      ensures old(kind) != Closed && old(Ready()) ==>
        && SameButEntry(vol.lay, old(vol.disk), vol.disk, [], dirBlock, dirIndex)
        && (!old(IsRoot()) ==> SameName())
      ensures ok && old(kind) == Normal && old(Ready()) ==>
        && EntryPlaced() && FirstCluster(DiskEntry()) == firstCluster && Size(DiskEntry()) == fileSize
        && WellPlaced(old(vol.disk), chain, 0, fileSize) && WellPlaced(vol.disk, chain, 0, fileSize)
        && Content(vol.lay, vol.disk, Clusters(chain), fileSize)
           == Content(vol.lay, old(vol.disk), Clusters(chain), fileSize)
      ensures vol.cache.card.hardware >= old(vol.cache.card.hardware)
    {
      hide SdVolume.Valid, Layout.WellFormed, Layout.EocMin, Layout.ExtentOk, Layout.InFat, Capacity, Positioned;
      hide FileChain, IsChain, EntryAt, SameButEntry, FirstCluster, Size, Name, Attributes, Owned, UsedBlock, Content;
      if kind == Closed {
        return false;
      }
      ok := SyncReady();
      if ok {
        kind := Closed;
      }
    }

    // -------------------------------------------------------------- write

    /** Where `write` stores its first byte. */
    function WriteStart(): nat
      reads this
    {
      if flags.append then fileSize else curPosition
    }

    /** The content after `src` was written at position `from` of a file of `size` bytes. */
    static ghost function Written(lay: Layout, d: seq<Block>, chain: seq<nat>, size: nat, from: nat,
                                  src: seq<byte>): seq<byte>
      requires lay.WellFormed(|d|) && lay.ExtentOk(Clusters(chain))
      requires from <= Capacity(lay, Clusters(chain)) && size <= Capacity(lay, Clusters(chain))
    {
      Content(lay, d, Clusters(chain), from) + src
      + (if from + |src| > size then [] else Content(lay, d, Clusters(chain), size)[from + |src|..])
    }

    /** The head of `write`: a file opened with O_APPEND is written at its end. */
    method SeekForAppend() returns (ok: bool)
      requires vol.Valid() && Ready() && kind == Normal
      modifies this`curCluster, this`curPosition, vol.cache, vol.cache.card, vol.cache.buffer
      ensures vol.Valid()
      ensures ok ==> curPosition == old(WriteStart()) && Ready() && vol.cache.card.faults == old(vol.cache.card.faults)
      ensures !ok ==> vol.cache.card.faults > old(vol.cache.card.faults)
      ensures vol.OnlyFatDirtied()
      ensures if old(Links(vol.lay, curPosition, WriteStart())) == 0 then ok && vol.CacheNow() == old(vol.CacheNow())
              else ok ==> vol.lay.InFat(vol.cache.blockNumber)
    {
      hide SdVolume.Valid, FileChain, Capacity, CursorAt, Owned, UsedBlock, EntryAt, FirstCluster, Size;
      NoLinks(vol.lay, curPosition);
      ok := true;
      if flags.append && curPosition != fileSize {
        ok := SeekSet(fileSize);
      }
    }

    /** What a write that began in state `g` and stored `done` bytes of `src` has done to the volume. */
    ghost predicate WroteUpTo(g: Began, src: seq<byte>, done: nat)
      reads this, vol
    {
      && vol.lay.WellFormed(|g.disk|) && |vol.disk| == |g.disk|
      && vol.lay.ExtentOk(Clusters(g.chain)) && vol.lay.ExtentOk(Clusters(chain))
      && g.from <= Capacity(vol.lay, Clusters(g.chain)) && g.size <= Capacity(vol.lay, Clusters(g.chain))
      && Capacity(vol.lay, Clusters(g.chain)) <= Capacity(vol.lay, Clusters(chain))
      && done <= |src| && g.from + done <= Capacity(vol.lay, Clusters(chain))
      && Spliced(vol.lay, g.disk, g.chain, vol.disk, chain, g.from, src, done, g.size)
    }

    /** What `write` promises of a writable file, from the state `g` in which it began. */
    ghost predicate Wrote(g: Began, src: seq<byte>, ok: bool)
      reads this, vol, vol.cache, vol.cache.card
    {
      && flags == g.flags.(dirDirty := flags.dirDirty)
      // nothing but this file and its directory entry is touched
      && FileChain(vol.lay, vol.fat, firstCluster, chain)
      && Step(vol.lay, g.fat, vol.fat, g.chain, chain) && g.chain <= chain
      && SameButEntry(vol.lay, g.disk, vol.disk, chain, dirBlock, dirIndex)
      // a dirty block that was not ahead never is
      && (g.safe ==> vol.cache.misused == g.misused)
      && (g.safe && vol.cache.card.faults == g.faults ==> NothingAhead(curPosition))
      // and the cache is misused exactly if a dirty block is rewritten
      && (vol.cache.misused ==> g.doomed) && (g.doomed ==> vol.cache.misused || vol.cache.card.faults > g.faults)
      && (ok && !flags.sync && src != [] ==> PartCached())
      // no cluster is taken but those of the file
      && (vol.cache.card.faults == g.faults ==> NoLeak(g.fat, g.chain, vol.fat, chain))
      // success
      && (ok ==>
            && Ready() && vol.cache.card.faults == g.faults
            && curPosition == g.from + |src|
            && fileSize == (if curPosition > g.size then curPosition else g.size)
            && WellPlaced(g.disk, g.chain, g.from, g.size) && WellPlaced(vol.disk, chain, curPosition, fileSize)
            && Content(vol.lay, vol.disk, Clusters(chain), fileSize)
               == Written(vol.lay, g.disk, g.chain, g.size, g.from, src))
      // disk full: everything up to the position was stored, the size is still the old one
      && (!ok && vol.cache.card.faults == g.faults ==>
            && Ready() && fileSize == g.size && NoneFree(vol.fat) && AtChainEnd()
            && g.from <= curPosition < g.from + |src| && WroteUpTo(g, src, curPosition - g.from))
    }

    /** Byte by byte on the device: the bytes of `src` from `from` on, and around them those that were in `d`. */
    ghost predicate Landed(d: seq<Block>, chain0: seq<nat>, from: nat, src: seq<byte>)
      reads this, vol
    {
      forall p {:trigger Device.FileByte(vol.lay, vol.disk, Clusters(chain), p)} :: 0 <= p < fileSize ==>
        Device.FileByte(vol.lay, vol.disk, Clusters(chain), p)
        == if from <= p < from + |src| then src[p - from] as int
           else Device.FileByte(vol.lay, d, Clusters(chain0), p)
    }

    lemma WroteLanded(g: Began, src: seq<byte>)
      requires vol.Valid() && Wrote(g, src, true)
      ensures curPosition == g.from + |src| && Landed(g.disk, g.chain, g.from, src)
    {
      hide SdVolume.Valid, Ready, Layout.WellFormed, Layout.ExtentOk, Device.FileByte, Step, SameButEntry, Capacity;
      hide ByteAt, FileChain, NothingAhead, PartCached, NoLeak;
      var e0, e, n := Clusters(g.chain), Clusters(chain), fileSize;
      var was, now := Content(vol.lay, g.disk, e0, g.size), Content(vol.lay, vol.disk, e, n);
      forall p | 0 <= p < n
        ensures Device.FileByte(vol.lay, vol.disk, e, p)
          == if g.from <= p < g.from + |src| then src[p - g.from] as int else Device.FileByte(vol.lay, g.disk, e0, p)
      {
        ByteOnDevice(vol.lay, vol.disk, e, p);
        assert now[p] == Written(vol.lay, g.disk, g.chain, g.size, g.from, src)[p];
        if p < g.from {
          ByteOnDevice(vol.lay, g.disk, e0, p);
        } else if p >= g.from + |src| {
          ByteOnDevice(vol.lay, g.disk, e0, p);
          assert was[g.from + |src|..][p - (g.from + |src|)] == was[p];
        }
      }
    }

    /** The rest of `write` up to the final `sync` of a file opened with O_SYNC. */
    method WriteBytes(src: seq<byte>, ghost g: Began) returns (ok: bool)
      requires vol.Valid() && Ready() && kind == Normal && At(g, src) && g.from + |src| < SIZE_LIMIT
      modifies this`curCluster, this`curPosition, this`fileSize, this`firstCluster, this`flags, this`chain
      modifies vol, vol.cache, vol.cache.card, vol.cache.buffer
      ensures vol.Valid() && Wrote(g, src, ok)
      ensures old(EntryOnDisk()) && EntryOnDisk() && vol.disk[dirBlock] == old(vol.disk)[dirBlock]
    {
      hide SdVolume.Valid, Layout.WellFormed, Layout.EocMin, Layout.ClusterIndex, Layout.ExtentOk, Layout.InFat;
      hide FileChain, IsChain, Step, Capacity, Spliced, SameElsewhere, SameButEntry, CursorAt, EocAboveClusters;
      hide Owned, UsedBlock, EntryAt, FirstCluster, Size, Behind, Doomed, IsBlockOf, NoLeak, Content, Written;
      ok := WriteLoop(src, g);
      EntryStays(vol.lay, g.fat, vol.fat, g.chain, chain, g.disk, vol.disk, dirBlock);
      ElsewhereButEntry(vol.lay, g.disk, vol.disk, chain, dirBlock, dirIndex);
      if ok {
        vol.Facts();
        NothingDooms(vol.lay, chain, vol.CacheNow(), curPosition);
        SplicedIsWritten(vol.lay, g.disk, g.chain, vol.disk, chain, g.from, src, g.size);
        UpdateSize(|src|);
      }
      OnlyDirDirty(g.flags, flags);
    }

    static lemma OnlyDirDirty(f0: Flags, f: Flags)
      requires f == f0 || f == f0.(dirDirty := true)
      ensures f == f0.(dirDirty := f.dirDirty)
    {
    }

    /** The tail of `write`: a larger size, or a new stamp, has to reach the directory entry. */
    method UpdateSize(nbyte: nat)
      modifies this`fileSize, this`flags
      ensures fileSize == (if curPosition > old(fileSize) then curPosition else old(fileSize))
      ensures flags == old(flags) || flags == old(flags).(dirDirty := true)
      ensures fileSize != old(fileSize) ==> flags.dirDirty
    {
      if curPosition > fileSize {
        fileSize := curPosition;
        flags := flags.(dirDirty := true);
      } else if hasClock && nbyte > 0 {
        flags := flags.(dirDirty := true);
      }
    }

    /**
     * write: on success the file's content is the old one with `src` spliced in, whichever
     * blocks went through the cache. Failure without an I/O error means that the disk is full.
     */
    method Write(src: seq<byte>) returns (ok: bool)
      requires vol.Valid() && (kind == Normal ==> Ready()) && |src| < 0x1_0000
      requires kind == Normal ==> WriteStart() + |src| < SIZE_LIMIT
      modifies this`curCluster, this`curPosition, this`fileSize, this`firstCluster, this`flags, this`chain
      modifies vol, vol.cache, vol.cache.card, vol.cache.buffer
      ensures vol.Valid()
      ensures old(Writable()) ==> WriteOutcome(src, ok)
      // in numbers, from the end of the file on under O_APPEND, else from the position on
      ensures old(Writable()) && ok ==> var from := if old(flags.append) then old(fileSize) else old(curPosition);
        && curPosition == from + |src|
        && fileSize == (if from + |src| > old(fileSize) then from + |src| else old(fileSize))
        && Landed(old(vol.disk), old(chain), from, src)
      // absent I/O errors the space before decides, and a write that fails uses it up
      ensures old(Writable()) && vol.cache.card.faults == old(vol.cache.card.faults) ==> BySpace(src, ok)
      ensures ok && flags.sync ==> vol.Flushed() && !flags.dirDirty
      // unless the hardware fails, the cache is wedged exactly if the write rewrites a dirty block directly
      ensures old(Writable() && !vol.cache.Wedged()) ==>
        && (vol.cache.Wedged() ==> old(Dooms(|src|)))
        && (old(Dooms(|src|)) ==> vol.cache.Wedged() || vol.cache.card.hardware > old(vol.cache.card.hardware))
      ensures !old(Writable()) ==>
        !ok && unchanged(this`chain, this`fileSize, this`curPosition, this`curCluster, this`firstCluster, this`flags)
      ensures !old(Writable()) ==>
        vol.disk == old(vol.disk) && vol.fat == old(vol.fat) && vol.cache.misused == old(vol.cache.misused)
    {
      hide SdVolume.Valid, Doomed, IsBlockOf, Behind, Content, Written, FileChain, Step, SameButEntry, WroteUpTo;
      hide WellPlaced, NoLeak, Landed;
      vol.MisusedIsWedged();
      if !vol.cache.misused {
        vol.FaultsAreHardware();
      }
      if kind != Normal || !flags.write {
        return false;
      }
      FileIsChain(vol.lay, vol.fat, firstCluster, chain);
      ghost var g := Before(src);
      ok := WriteFile(src);
      if ok {
        WroteLanded(g, src);
      }
      if vol.cache.card.faults == g.faults {
        SpaceDecides(g, src, ok);
      }
      vol.MisusedIsWedged();
      if !vol.cache.misused {
        vol.FaultsAreHardware();
      }
    }

    /**
     * The write succeeds exactly if all of it fits; else it has stopped where no cluster was left.
     * What the file can grow to is the same afterwards.
     */
    twostate predicate BySpace(src: seq<byte>, ok: bool)
      reads this, vol
    {
      && Space(vol.lay, vol.fat, chain) == old(Space(vol.lay, vol.fat, chain))
      && (ok <==> old(WriteStart()) + |src| <= old(Space(vol.lay, vol.fat, chain)))
      && (!ok ==> curPosition == old(Space(vol.lay, vol.fat, chain)))
    }

    /** The position of a file lies within what it can grow to. */
    lemma StartInSpace()
      requires vol.Valid() && Ready() && kind == Normal
      ensures WriteStart() <= Space(vol.lay, vol.fat, chain)
    {
      hide SdVolume.Valid, FileChain, CursorAt;
      vol.Facts();
      PlaceOk();
      CursorInCapacity(vol.lay, chain, curPosition, curCluster);
      ShlMonotone(|chain|, |chain| + |FreeClusters(vol.fat)|, vol.lay.clusterSizeShift);
    }

    lemma SpaceDecides(g: Began, src: seq<byte>, ok: bool)
      requires vol.Valid() && Wrote(g, src, ok) && vol.cache.card.faults == g.faults
      requires ChainOrEmpty(vol.lay, g.fat, g.chain)
      ensures Space(vol.lay, vol.fat, chain) == Space(vol.lay, g.fat, g.chain)
      ensures ok ==> g.from + |src| <= Space(vol.lay, g.fat, g.chain)
      ensures !ok ==> curPosition == Space(vol.lay, g.fat, g.chain) < g.from + |src|
    {
      hide SdVolume.Valid, Step, SameButEntry, Content, Written, FileChain, ChainOrEmpty, EocAboveClusters;
      hide FreeClusters, NothingAhead, PartCached, Spliced, NoneFree, Layout.WellFormed, Layout.ExtentOk;
      hide Layout.ClusterIndex;
      vol.Facts();
      Prolongation(vol.lay, g.fat, g.chain, vol.fat, chain);
      NoneFreeIsEmpty(vol.fat);
      InCapacity(vol.lay, chain, curPosition);
      ShlMonotone(|chain|, |chain| + |FreeClusters(vol.fat)|, vol.lay.clusterSizeShift);
    }

    predicate Writable()
      reads this
    {
      kind == Normal && flags.write
    }

    ghost function Before(src: seq<byte>): Began
      reads this, vol, vol.cache, vol.cache.card
    {
      Began(vol.disk, vol.fat, chain, WriteStart(), fileSize, flags, firstCluster, Dooms(|src|),
            NothingAhead(WriteStart()), vol.cache.misused, vol.cache.card.faults)
    }

    /** What `write` promises of a writable file. */
    twostate predicate WriteOutcome(src: seq<byte>, ok: bool)
      reads this, vol, vol.cache, vol.cache.card
    {
      Wrote(old(Before(src)), src, ok) && SameName()
    }

    method WriteFile(src: seq<byte>) returns (ok: bool)
      requires vol.Valid() && Ready() && kind == Normal && WriteStart() + |src| < SIZE_LIMIT
      modifies this`curCluster, this`curPosition, this`fileSize, this`firstCluster, this`flags, this`chain
      modifies vol, vol.cache, vol.cache.card, vol.cache.buffer
      ensures vol.Valid() && WriteOutcome(src, ok)
      ensures ok && flags.sync ==> vol.Flushed() && !flags.dirDirty
    {
      hide SdVolume.Valid, Layout.WellFormed, Layout.EocMin, Layout.ExtentOk, Layout.InFat;
      hide FileChain, IsChain, Step, Capacity, Spliced, SameButEntry, Content, Written, NoLeak, Before;
      hide Positioned, EntryPlaced, EntryAgrees, WroteUpTo, Doomed, IsBlockOf, Behind;
      ghost var d := vol.disk;
      BeforeIs(src);
      ok := WriteCached(src);
      if ok && flags.sync {
        ghost var d1 := vol.disk;
        ok := SyncReady();
        SameButEntryWiden(vol.lay, d, d1, vol.disk, chain, dirBlock, dirIndex);
      }
    }

    lemma BeforeIs(src: seq<byte>)
      ensures Before(src).disk == vol.disk && Before(src).faults == vol.cache.card.faults
    {
    }

    method WriteCached(src: seq<byte>) returns (ok: bool)
      requires vol.Valid() && Ready() && kind == Normal && WriteStart() + |src| < SIZE_LIMIT
      modifies this`curCluster, this`curPosition, this`fileSize, this`firstCluster, this`flags, this`chain
      modifies vol, vol.cache, vol.cache.card, vol.cache.buffer
      ensures vol.Valid() && WriteOutcome(src, ok)
    {
      hide SdVolume.Valid, Layout.WellFormed, Layout.EocMin, Layout.ClusterIndex, Layout.ExtentOk, Layout.InFat;
      hide Name, Attributes, Behind, Doomed, IsBlockOf, Ready, Links, WriteDooms, Wrote, EntryAt;
      ghost var c0, cur, g := vol.CacheNow(), curPosition, Before(src);
      vol.Facts();
      ReadyOnDisk();
      ok := SeekForAppend();
      if ok {
        SeekDooms(vol.lay, |vol.disk|, chain, c0, vol.CacheNow(), cur, g.from, |src|);
        ok := WriteBytes(src, g);
      } else {
        NothingWritten(src, g, c0, cur);
      }
    }

    /** The seek has failed: nothing but the cache has changed. */
    lemma NothingWritten(src: seq<byte>, g: Began, c0: CacheState, cur: nat)
      requires vol.Valid() && vol.disk == g.disk && vol.fat == g.fat && chain == g.chain && flags == g.flags
      requires FileChain(vol.lay, vol.fat, firstCluster, chain) && vol.cache.card.faults > g.faults
      requires vol.cache.misused == g.misused == c0.misused && vol.lay.blocksPerCluster > 0
      requires g.doomed == WriteDooms(vol.lay, chain, c0, cur, g.from, |src|)
      ensures Wrote(g, src, false)
    {
      hide SdVolume.Valid;
      vol.Facts();
      SameFile(vol.lay, vol.fat, vol.disk, firstCluster, chain);
      SameOutsideIsElsewhere(vol.lay, vol.disk, vol.disk, chain);
      ElsewhereButEntry(vol.lay, vol.disk, vol.disk, chain, dirBlock, dirIndex);
      if c0.misused {
        AlreadyMisused(vol.lay, chain, c0, cur, g.from, |src|);
      }
    }

    static lemma SplicedIsWritten(lay: Layout, d0: seq<Block>, chain0: seq<nat>, d: seq<Block>, chain: seq<nat>,
                                  from: nat, src: seq<byte>, size: nat)
      requires lay.WellFormed(|d0|) && lay.WellFormed(|d|)
      requires lay.ExtentOk(Clusters(chain0)) && lay.ExtentOk(Clusters(chain))
      requires from <= Capacity(lay, Clusters(chain0)) && size <= Capacity(lay, Clusters(chain0))
      requires Capacity(lay, Clusters(chain0)) <= Capacity(lay, Clusters(chain))
      requires from + |src| <= Capacity(lay, Clusters(chain))
      requires Spliced(lay, d0, chain0, d, chain, from, src, |src|, size)
      ensures Content(lay, d, Clusters(chain), if from + |src| > size then from + |src| else size)
           == Written(lay, d0, chain0, size, from, src)
    {
      SplicedContent(lay, d0, chain0, d, chain, from, src, size);
    }

    ghost predicate WellPlaced(d: seq<Block>, chain: seq<nat>, pos: nat, size: nat)
    {
      && vol.lay.WellFormed(|d|) && vol.lay.ExtentOk(Clusters(chain))
      && pos <= Capacity(vol.lay, Clusters(chain)) && size <= Capacity(vol.lay, Clusters(chain))
    }

    // -------------------------------------------------------------- read

    /** The head of the loop of `read`: the block that holds the next byte. */
    method LocateForRead() returns (ok: bool, block: nat)
      requires vol.Valid() && Linked() && Positioned() && curPosition < Capacity(vol.lay, Place())
      modifies this`curCluster, vol.cache, vol.cache.card, vol.cache.buffer
      ensures vol.Valid() && vol.lay.ExtentOk(Place()) && curPosition / BLOCK_SIZE < vol.lay.BlockCount(Place())
      ensures vol.cache.misused == old(vol.cache.misused)
      ensures ok ==> block == vol.lay.NthBlock(Place(), curPosition / BLOCK_SIZE)
      ensures ok ==> block < |vol.disk| && !vol.lay.InFat(block)
      ensures ok && kind != Root16Dir ==> vol.lay.ClusterIndex(curPosition) < |chain|
      ensures ok && kind != Root16Dir ==> curCluster == chain[vol.lay.ClusterIndex(curPosition)]
      ensures ok ==> vol.cache.card.faults == old(vol.cache.card.faults)
      ensures !ok ==> vol.cache.card.faults > old(vol.cache.card.faults)
    {
      hide SdVolume.Valid, Layout.WellFormed, Layout.EocMin, Layout.IsEoc, Layout.ClusterIndex, Layout.InFat;
      hide Layout.ClusterStart, Layout.ExtentOk, FileChain, IsChain, CursorAt, EocAboveClusters;
      vol.Facts();
      PlaceOk();
      block := vol.lay.rootDirStart + curPosition / BLOCK_SIZE;
      NthBlockPlace(vol.lay, |vol.disk|, Place(), curPosition / BLOCK_SIZE);
      if kind != Root16Dir {
        NextCluster(vol.lay, |vol.disk|, vol.fat, firstCluster, chain, curPosition, curCluster);
        InRoom(vol.lay, chain, curPosition, Capacity(vol.lay, Place()));
        BlockOfByte(vol.lay, |vol.disk|, chain, curPosition);
        LastClusters(vol.lay, vol.fat, firstCluster, chain);
        var blockOfCluster := vol.lay.BlockOfCluster(curPosition);
        if curPosition % BLOCK_SIZE == 0 && blockOfCluster == 0 {
          if curPosition == 0 {
            curCluster := firstCluster;
          } else {
            var next;
            ok, next := vol.FatGet(curCluster);
            if !ok {
              return false, block;
            }
            curCluster := next;
          }
        }
        block := vol.lay.ClusterStart(curCluster) + blockOfCluster;
      }
      return true, block;
    }

    /** The bytes of the file. */
    ghost function FileContent(): (s: seq<byte>)
      requires vol.lay.WellFormed(|vol.disk|) && vol.lay.ExtentOk(Place()) && fileSize <= Capacity(vol.lay, Place())
      reads this, vol
      ensures |s| == fileSize
    {
      Content(vol.lay, vol.disk, Place(), fileSize)
    }

    /** The bytes of all its blocks, also those behind the end. */
    ghost function AllBytes(): (s: seq<byte>)
      requires vol.lay.WellFormed(|vol.disk|) && vol.lay.ExtentOk(Place())
      reads this, vol
      ensures |s| == Capacity(vol.lay, Place())
    {
      Content(vol.lay, vol.disk, Place(), Capacity(vol.lay, Place()))
    }

    /** They are those of the device. */
    lemma BytesOnDevice(from: nat, to: nat)
      requires vol.lay.WellFormed(|vol.disk|) && vol.lay.ExtentOk(Place()) && from <= to <= Capacity(vol.lay, Place())
      ensures forall i :: 0 <= i < to - from ==>
        AllBytes()[from..to][i] == Device.FileByte(vol.lay, vol.disk, Place(), from + i)
    {
      hide Layout.WellFormed, Layout.ExtentOk, Capacity;
      forall i: nat | i < to - from
        ensures AllBytes()[from..to][i] == Device.FileByte(vol.lay, vol.disk, Place(), from + i)
      {
        ByteOnDevice(vol.lay, vol.disk, Place(), from + i);
      }
    }

    lemma FileIsPrefix(from: nat, to: nat)
      requires HasContent() && from <= to <= fileSize
      ensures FileContent()[from..to] == AllBytes()[from..to]
    {
    }

    /** The content can be spoken of. */
    ghost predicate HasContent()
      reads this, vol
    {
      vol.lay.WellFormed(|vol.disk|) && vol.lay.ExtentOk(Place()) && fileSize <= Capacity(vol.lay, Place())
    }

    /** Copy part of a block to the caller, directly if it is whole or unbuffered and not cached. */
    method Fetch(block: nat, offset: nat, n: nat, buf: array<byte>, at: nat) returns (ok: bool)
      requires vol.Valid() && block < |vol.disk| && !vol.lay.InFat(block) && buf != vol.cache.buffer
      requires offset + n <= BLOCK_SIZE && at + n <= buf.Length
      modifies buf, vol.cache, vol.cache.card, vol.cache.buffer
      ensures vol.Valid()
      ensures vol.cache.misused == old(vol.cache.misused)
      ensures ok ==> buf[..] == Overwrite(old(buf[..]), at, vol.disk[block][offset..offset + n])
      ensures ok && n < BLOCK_SIZE && !flags.unbuffered ==> vol.cache.blockNumber == block
      ensures ok ==> vol.cache.card.faults == old(vol.cache.card.faults)
      ensures !ok ==> vol.cache.card.faults > old(vol.cache.card.faults)
    {
      hide SdVolume.Valid, Layout.InFat, Overwrite;
      if (flags.unbuffered || n == BLOCK_SIZE) && block != vol.cache.blockNumber {
        ok := vol.ReadDirect(block, offset, n, buf, at);
      } else {
        ok := vol.CacheRawBlock(block, false);
        if ok {
          vol.CopyOut(offset, n, buf, at);
        }
      }
    }

    /** One round of the loop of `read`: what lies within one block. */
    method ReadChunk(buf: array<byte>, at: nat, toRead: nat) returns (ok: bool, n: nat)
      requires vol.Valid() && Linked() && Positioned() && buf != vol.cache.buffer
      requires 0 < toRead && curPosition + toRead <= Capacity(vol.lay, Place()) && at + toRead <= buf.Length
      requires curPosition + toRead < SIZE_LIMIT
      modifies this`curCluster, this`curPosition, buf, vol.cache, vol.cache.card, vol.cache.buffer
      ensures vol.Valid() && HasContent()
      ensures vol.cache.misused == old(vol.cache.misused)
      ensures ok ==> 0 < n <= toRead && curPosition == old(curPosition) + n && Positioned()
      ensures ok ==> curPosition <= Capacity(vol.lay, Place())
      ensures ok ==> buf[..] == Overwrite(old(buf[..]), at, AllBytes()[old(curPosition)..curPosition])
      ensures ok ==> LastBlockCached(n)
      ensures ok ==> vol.cache.card.faults == old(vol.cache.card.faults)
      ensures !ok ==> curPosition == old(curPosition) && vol.cache.card.faults > old(vol.cache.card.faults)
    {
      hide SdVolume.Valid, Layout.WellFormed, Layout.EocMin, Layout.ClusterIndex, Layout.InFat, Layout.NthBlock;
      hide Layout.ClusterStart, Layout.ExtentOk, Layout.BlockCount, FileChain, CursorAt, EocAboveClusters, Overwrite;
      hide Content, Capacity;
      vol.Facts();
      PlaceOk();
      var offset := curPosition % BLOCK_SIZE;
      n := toRead;
      if n > BLOCK_SIZE - offset {
        n := BLOCK_SIZE - offset;
      }
      ok := FetchHere(buf, at, n);
      if !ok {
        return false, 0;
      }
      if kind != Root16Dir {
        CursorAfter(vol.lay, chain, curPosition, n);
      }
      SameBlock(curPosition, n);
      curPosition := curPosition + n;
    }

    /** Find the block of the next byte and copy `n` bytes from there. */
    method FetchHere(buf: array<byte>, at: nat, n: nat) returns (ok: bool)
      requires vol.Valid() && Linked() && Positioned() && buf != vol.cache.buffer
      requires 0 < n && curPosition + n <= Capacity(vol.lay, Place()) && at + n <= buf.Length
      requires curPosition % BLOCK_SIZE + n <= BLOCK_SIZE
      modifies this`curCluster, buf, vol.cache, vol.cache.card, vol.cache.buffer
      ensures vol.Valid() && vol.lay.WellFormed(|vol.disk|) && vol.lay.ExtentOk(Place())
      ensures vol.cache.misused == old(vol.cache.misused)
      ensures ok ==> buf[..] == Overwrite(old(buf[..]), at, AllBytes()[curPosition..curPosition + n])
      ensures ok && n < BLOCK_SIZE && !flags.unbuffered ==>
        && curPosition / BLOCK_SIZE < vol.lay.BlockCount(Place())
        && vol.cache.blockNumber == vol.lay.NthBlock(Place(), curPosition / BLOCK_SIZE)
      ensures ok && kind != Root16Dir ==>
        vol.lay.ClusterIndex(curPosition) < |chain| && curCluster == chain[vol.lay.ClusterIndex(curPosition)]
      ensures ok ==> vol.cache.card.faults == old(vol.cache.card.faults)
      ensures !ok ==> vol.cache.card.faults > old(vol.cache.card.faults)
    {
      hide SdVolume.Valid, Layout.WellFormed, Layout.EocMin, Layout.ClusterIndex, Layout.InFat, Layout.NthBlock;
      hide Layout.ClusterStart, Layout.ExtentOk, Layout.BlockCount, FileChain, CursorAt, EocAboveClusters, Overwrite;
      hide Content, Capacity;
      vol.Facts();
      PlaceOk();
      var block;
      ok, block := LocateForRead();
      if ok {
        ok := Fetch(block, curPosition % BLOCK_SIZE, n, buf, at);
        ChunkContent(vol.lay, vol.disk, Place(), Capacity(vol.lay, Place()), curPosition, n);
      }
    }

    /** The last of `n` bytes lies in the block of the first. */
    static lemma SameBlock(p: nat, n: nat)
      requires n > 0 && p % BLOCK_SIZE + n <= BLOCK_SIZE
      ensures (p + n - 1) / BLOCK_SIZE == p / BLOCK_SIZE
    {
    }

    /** How many bytes `read` delivers: at most those that are left, unless the position is behind the end. */
    static function ReadCount(size: nat, pos: nat, nbyte: nat): nat {
      if nbyte > Wrap(size - pos) then Wrap(size - pos) else nbyte
    }

    /** The buffer begins with the `n` bytes from position `from` on, each from its place on the device. */
    ghost predicate Delivered(buf: array<byte>, from: nat, n: nat)
      reads this, vol, buf
    {
      n <= buf.Length
      && forall i {:trigger buf[i]} :: 0 <= i < n ==> buf[i] == Device.FileByte(vol.lay, vol.disk, Place(), from + i)
    }

    /** The file is open for reading, and no card access has failed. */
    twostate predicate CouldRead()
      reads this, vol, vol.cache, vol.cache.card
    {
      kind != Closed && flags.read && vol.cache.card.faults == old(vol.cache.card.faults)
    }

    /**
     * read: the bytes from the position on, as many as asked for and left in the file; -1 on error.
     * Behind the end, where a write that filled the disk leaves the position, the subtraction wraps
     * around, and what lies there is read. A count above 32767 is returned as a negative number.
     */
    method Read(buf: array<byte>, nbyte: nat) returns (r: int)
      requires vol.Valid() && (kind != Closed ==> Linked() && Positioned())
      requires kind != Closed && curPosition > fileSize ==>
        curPosition + nbyte <= Capacity(vol.lay, Place()) && curPosition + nbyte < SIZE_LIMIT
      requires nbyte < 0x1_0000 && nbyte <= buf.Length && buf != vol.cache.buffer
      modifies this`curCluster, this`curPosition, buf, vol.cache, vol.cache.card, vol.cache.buffer
      ensures vol.Valid() && vol.cache.misused == old(vol.cache.misused)
      ensures kind == Closed || !flags.read ==>
        curPosition == old(curPosition) && curCluster == old(curCluster) && buf[..] == old(buf[..])
      ensures kind != Closed ==> HasContent() && (old(curPosition) <= fileSize ==> curPosition <= fileSize)
      ensures r == if CouldRead() then Int16(ReadCount(fileSize, old(curPosition), nbyte)) else -1
      ensures CouldRead() ==>
        && curPosition == old(curPosition) + ReadCount(fileSize, old(curPosition), nbyte) <= Capacity(vol.lay, Place())
        && buf[..] == Overwrite(old(buf[..]), 0, AllBytes()[old(curPosition)..curPosition])
        && Positioned() && LastBlockCached(ReadCount(fileSize, old(curPosition), nbyte))
      // byte by byte, what the device has in the root area or in the clusters of the file
      ensures CouldRead() ==> Delivered(buf, old(curPosition), curPosition - old(curPosition))
      ensures CouldRead() ==>
        r == curPosition - old(curPosition) - (if curPosition - old(curPosition) < 0x8000 then 0 else 0x1_0000)
      ensures CouldRead() && old(curPosition) > fileSize ==>
        curPosition - old(curPosition)
        == if nbyte <= 0x1_0000_0000 - (old(curPosition) - fileSize) then nbyte
           else 0x1_0000_0000 - (old(curPosition) - fileSize)
      ensures CouldRead() && old(curPosition) <= fileSize ==>
        && curPosition == (if nbyte > fileSize - old(curPosition) then fileSize else old(curPosition) + nbyte)
        && buf[..] == Overwrite(old(buf[..]), 0, FileContent()[old(curPosition)..curPosition])
      ensures vol.cache.card.faults >= old(vol.cache.card.faults)
    {
      hide SdVolume.Valid, Layout.WellFormed, Layout.EocMin, Layout.NthBlock, Positioned;
      hide Layout.ExtentOk, Layout.BlockCount, FileChain, CursorAt, EocAboveClusters, Overwrite, Content, Capacity;
      hide FileContent, AllBytes, LastBlockCached, Delivered;
      ghost var from := curPosition;
      if kind == Closed {
        return -1;
      }
      vol.Facts();
      PlaceOk();
      if !flags.read {
        return -1;
      }
      var n := nbyte;
      if n > Wrap(fileSize - curPosition) {
        n := Wrap(fileSize - curPosition);
      }
      var ok := ReadLoop(buf, n);
      if !ok {
        return -1;
      }
      if curPosition <= fileSize {
        FileIsPrefix(from, curPosition);
      }
      return Int16(n);
    }

    /** The loop of `read`. */
    method ReadLoop(buf: array<byte>, n: nat) returns (ok: bool)
      requires vol.Valid() && Linked() && Positioned() && buf != vol.cache.buffer
      requires curPosition + n <= Capacity(vol.lay, Place()) && curPosition + n < SIZE_LIMIT && n <= buf.Length
      modifies this`curCluster, this`curPosition, buf, vol.cache, vol.cache.card, vol.cache.buffer
      ensures vol.Valid() && HasContent() && curPosition <= old(curPosition) + n <= Capacity(vol.lay, Place())
      ensures vol.cache.misused == old(vol.cache.misused)
      ensures ok ==> curPosition == old(curPosition) + n && Positioned()
      ensures ok ==> buf[..] == Overwrite(old(buf[..]), 0, AllBytes()[old(curPosition)..curPosition])
      ensures ok ==> Delivered(buf, old(curPosition), n)
      ensures ok ==> LastBlockCached(n)
      ensures ok ==> vol.cache.card.faults == old(vol.cache.card.faults)
      ensures !ok ==> vol.cache.card.faults > old(vol.cache.card.faults)
    {
      hide SdVolume.Valid, Layout.WellFormed, Layout.EocMin, Layout.NthBlock, Positioned;
      hide Layout.ExtentOk, Layout.BlockCount, FileChain, CursorAt, EocAboveClusters, Overwrite, Content, Capacity;
      vol.Facts();
      PlaceOk();
      ghost var c, b, from := AllBytes(), buf[..], curPosition;
      OverwriteNothing(b, c[from..from]);
      var done := 0;
      while done < n
        invariant vol.Valid() && Positioned() && HasContent() && AllBytes() == c
        invariant vol.cache.misused == old(vol.cache.misused)
        invariant 0 <= done <= n && curPosition == from + done
        invariant buf[..] == Overwrite(b, 0, c[from..from + done])
        invariant LastBlockCached(done)
        invariant vol.cache.card.faults == old(vol.cache.card.faults)
      {
        var k;
        ok, k := ReadChunk(buf, done, n - done);
        if !ok {
          return false;
        }
        OverwriteTwice(b, c, from, done, k);
        done := done + k;
      }
      BytesOnDevice(from, curPosition);
      return true;
    }

    /** After a buffered read of `n` bytes, less than a block, the block of the last byte is cached. */
    ghost predicate LastBlockCached(n: nat)
      reads this, vol, vol.cache
    {
      0 < n < BLOCK_SIZE && !flags.unbuffered && curPosition > 0 && vol.lay.ExtentOk(Place()) ==>
        && (curPosition - 1) / BLOCK_SIZE < vol.lay.BlockCount(Place())
        && vol.cache.blockNumber == vol.lay.NthBlock(Place(), (curPosition - 1) / BLOCK_SIZE)
    }

    // -------------------------------------------------------------- truncate

    /** Free the clusters behind the first `keep` ones: the middle part of `truncate`. */
    method CutChain(ghost keep: nat) returns (ok: bool)
      requires vol.Valid() && FileChain(vol.lay, vol.fat, firstCluster, chain) && chain != [] && keep <= |chain|
      requires curPosition == 0 <==> keep == 0
      requires keep > 0 ==> curCluster == chain[keep - 1]
      modifies this`firstCluster, this`chain, vol, vol.cache, vol.cache.card, vol.cache.buffer
      ensures vol.Valid() && SameOutsideFat(vol.lay, old(vol.disk), vol.disk)
      ensures vol.cache.misused == old(vol.cache.misused)
      ensures ok ==> chain == old(chain)[..keep] && vol.cache.card.faults == old(vol.cache.card.faults)
      ensures ok ==> forall i :: 0 <= i < |old(chain)| ==> old(chain)[i] < |old(vol.fat)|
      ensures ok ==> vol.fat == CutFat(vol.lay, old(vol.fat), old(chain), keep)
      ensures ok ==> FileChain(vol.lay, vol.fat, firstCluster, chain)
      ensures ok ==> Step(vol.lay, old(vol.fat), vol.fat, old(chain), chain)
      ensures !ok ==> Confined(old(vol.fat), vol.fat, old(chain)) && vol.cache.card.faults > old(vol.cache.card.faults)
      ensures !ok ==> chain == old(chain)
    {
      hide SdVolume.Valid, Layout.WellFormed, Layout.EocMin, Layout.Stored, FileChain, IsChain, Step, Confined;
      hide SameOutsideFat, EocAboveClusters, Freed;
      ghost var f, s := vol.fat, chain;
      vol.Facts();
      CutPoint(vol.lay, f, firstCluster, s, keep);
      CutSound(vol.lay, f, firstCluster, s, keep);
      SameFile(vol.lay, f, vol.disk, firstCluster, s);
      if curPosition == 0 {
        ok := vol.FreeChain(firstCluster, s);
        if !ok {
          return false;
        }
        firstCluster := 0;
      } else {
        var toFree;
        ok, toFree := vol.FatGet(curCluster);
        StepConfined(vol.lay, f, f, s, s);
        if !ok {
          return false;
        }
        if !vol.lay.IsEoc(toFree) {
          ok := FreeBehind(toFree, keep);
          if !ok {
            return false;
          }
        }
      }
      chain := chain[..keep];
      return true;
    }

    /** Free the chain from `toFree` on and end the file's chain in the current cluster. */
    method FreeBehind(toFree: nat, ghost keep: nat) returns (ok: bool)
      requires vol.Valid() && 0 < keep < |chain| && toFree != 0 && vol.lay.IsCluster(curCluster)
      requires curCluster == chain[keep - 1] && FileChain(vol.lay, vol.fat, toFree, chain[keep..])
      modifies vol, vol.cache, vol.cache.card, vol.cache.buffer
      ensures vol.Valid() && SameOutsideFat(vol.lay, old(vol.disk), vol.disk)
      ensures vol.cache.misused == old(vol.cache.misused)
      ensures curCluster < |old(vol.fat)|
      ensures ok ==> vol.fat == Freed(old(vol.fat), chain[keep..])[curCluster := vol.lay.Stored(EOC)]
      ensures ok ==> vol.cache.card.faults == old(vol.cache.card.faults)
      ensures !ok ==> Confined(old(vol.fat), vol.fat, chain) && vol.cache.card.faults > old(vol.cache.card.faults)
    {
      hide SdVolume.Valid, Layout.WellFormed, Layout.EocMin, Layout.Stored, FileChain, IsChain, Confined;
      hide EocAboveClusters, Freed;
      ghost var f := vol.fat;
      vol.Facts();
      ok := vol.FreeChain(toFree, chain[keep..]);
      if !ok {
        PartConfined(f, vol.fat, chain, keep);
        return false;
      }
      FreedConfined(f, chain[keep..], |chain[keep..]|);
      assert chain[keep..][..|chain[keep..]|] == chain[keep..];
      PartConfined(f, vol.fat, chain, keep);
      ok := vol.FatPut(curCluster, EOC);
    }

    /** What `truncate` promises of a writable file that is not empty. */
    twostate predicate TruncateOutcome(length: nat, position: nat, ok: bool)
      reads this, vol, vol.cache, vol.cache.card
    {
      // nothing but this file's clusters and its directory entry is touched
      && SameButEntry(vol.lay, old(vol.disk), vol.disk, [], dirBlock, dirIndex) && SameName()
      && Confined(old(vol.fat), vol.fat, old(chain)) && chain <= old(chain)
      && (!ok ==> vol.cache.card.faults > old(vol.cache.card.faults))
      && (ok ==>
            && Ready() && vol.cache.card.faults == old(vol.cache.card.faults)
            && fileSize == length
            && curPosition == position && length <= old(fileSize)
            && Shortened(old(vol.disk), vol.disk, old(vol.fat), vol.fat, old(chain), chain, old(fileSize), length)
            && vol.Flushed() && !flags.dirDirty)
    }

    /** The same in numbers: the clusters of the first `length` bytes stay, with these bytes; the others become free. */
    ghost predicate CutDown(d: seq<Block>, d': seq<Block>, f: seq<nat>, f': seq<nat>, s: seq<nat>, s': seq<nat>,
                            length: nat)
      reads this, vol
    {
      var n := 512 * vol.lay.blocksPerCluster;
      && s' <= s && n > 0 && |s'| == (length + n - 1) / n
      && (forall p {:trigger Device.FileByte(vol.lay, d', Clusters(s'), p)} :: 0 <= p < length ==>
            Device.FileByte(vol.lay, d', Clusters(s'), p) == Device.FileByte(vol.lay, d, Clusters(s), p))
      && (s' != [] ==> Device.EndedChain(vol.lay, f', s'))
      && |f'| == |f|
      && (forall i :: |s'| <= i < |s| ==> s[i] < |f| && f'[s[i]] == 0)
      && (forall c :: 0 <= c < |f| && c !in s ==> f'[c] == f[c])
    }

    lemma ShortenedIsCutDown(d: seq<Block>, d': seq<Block>, f: seq<nat>, f': seq<nat>, s: seq<nat>, s': seq<nat>,
                             size: nat, length: nat)
      requires vol.Valid() && f' == vol.fat && FileChain(vol.lay, f', firstCluster, s') && |f| == |f'|
      requires ChainOrEmpty(vol.lay, f, s) && Shortened(d, d', f, f', s, s', size, length)
      ensures CutDown(d, d', f, f', s, s', length)
    {
      hide SdVolume.Valid, Layout.WellFormed, Layout.ExtentOk, Layout.IsEoc, Layout.EocMin, FileChain, IsChain;
      hide Device.FileByte, Device.EndedChain, Step, ClustersFor, Capacity, ByteAt;
      vol.Facts();
      ClustersForIsCeiling(vol.lay, |d|, length);
      FileIsChain(vol.lay, f', firstCluster, s');
      ChainIsEnded(vol.lay, f', s');
      forall p | 0 <= p < length
        ensures Device.FileByte(vol.lay, d', Clusters(s'), p) == Device.FileByte(vol.lay, d, Clusters(s), p)
      {
        ByteOnDevice(vol.lay, d', Clusters(s'), p);
        ByteOnDevice(vol.lay, d, Clusters(s), p);
        assert Content(vol.lay, d', Clusters(s'), length)[p] == Content(vol.lay, d, Clusters(s), size)[p];
      }
      LastKept(f, s, |s'|);
    }

    lemma LastKept(f: seq<nat>, s: seq<nat>, keep: nat)
      requires vol.Valid() && ChainOrEmpty(vol.lay, f, s) && keep <= |s|
      ensures keep > 0 ==> s[keep - 1] !in s[keep..]
    {
      hide SdVolume.Valid, IsChain;
      vol.Facts();
      if s != [] {
        ChainDistinct(vol.lay, f, s);
      }
    }

    /**
     * truncate. An empty file is left alone even if it has clusters: they stay allocated.
     */
    method Truncate(length: nat) returns (ok: bool)
      requires vol.Valid() && (kind == Normal ==> Attached())
      modifies this`curCluster, this`curPosition, this`fileSize, this`firstCluster, this`flags, this`chain
      modifies vol, vol.cache, vol.cache.card, vol.cache.buffer
      ensures vol.Valid() && flags == old(flags).(dirDirty := flags.dirDirty)
      ensures vol.cache.misused == old(vol.cache.misused)
      ensures !old(Writable()) || length > old(fileSize) ==> !ok
      ensures old(Writable()) && length == old(fileSize) == 0 ==> ok
      ensures !old(Writable()) || length > old(fileSize) || old(fileSize) == 0 ==>
        && unchanged(this`chain, this`fileSize, this`curPosition, this`curCluster, this`firstCluster, this`flags)
        && unchanged(vol, vol.cache, vol.cache.card, vol.cache.buffer)
      ensures old(Writable()) && length <= old(fileSize) && old(fileSize) > 0 ==>
        TruncateOutcome(length, if old(curPosition) > length then length else old(curPosition), ok)
      ensures ok && old(fileSize) > 0 ==>
        CutDown(old(vol.disk), vol.disk, old(vol.fat), vol.fat, old(chain), chain, length)
    {
      hide SdVolume.Valid, Shortened, CutDown, FileChain, SameButEntry;
      if kind != Normal || !flags.write {
        return false;
      }
      if length > fileSize {
        return false;
      }
      if fileSize == 0 {
        return true;
      }
      ghost var size := fileSize;
      FileIsChain(vol.lay, vol.fat, firstCluster, chain);
      ok := TruncateFile(length);
      if ok {
        ShortenedIsCutDown(old(vol.disk), vol.disk, old(vol.fat), vol.fat, old(chain), chain, size, length);
      }
    }

    method TruncateFile(length: nat) returns (ok: bool)
      requires vol.Valid() && Attached() && kind == Normal && 0 < fileSize && length <= fileSize
      modifies this`curCluster, this`curPosition, this`fileSize, this`firstCluster, this`flags, this`chain
      modifies vol, vol.cache, vol.cache.card, vol.cache.buffer
      ensures vol.Valid() && flags == old(flags).(dirDirty := flags.dirDirty)
      ensures vol.cache.misused == old(vol.cache.misused)
      ensures TruncateOutcome(length, if old(curPosition) > length then length else old(curPosition), ok)
    {
      hide SdVolume.Valid, Layout.WellFormed, Layout.EocMin, Layout.ClusterIndex, Layout.ExtentOk, Layout.InFat;
      hide FileChain, IsChain, Step, Capacity, SameOutsideFat, SameButEntry, CursorAt, EocAboveClusters;
      hide Owned, UsedBlock, EntryAt, FirstCluster, Size, Confined, CutFat, Content, ClustersFor;
      var newPos := if curPosition > length then length else curPosition;
      ok := CutAndSync(length);
      if ok {
        ok := SeekSet(newPos);
        vol.CleanIsFlushed();
      }
    }

    method CutAndSync(length: nat) returns (ok: bool)
      requires vol.Valid() && Attached() && kind == Normal && 0 < fileSize && length <= fileSize
      modifies this`curCluster, this`curPosition, this`fileSize, this`firstCluster, this`flags, this`chain
      modifies vol, vol.cache, vol.cache.card, vol.cache.buffer
      ensures vol.Valid() && flags == old(flags).(dirDirty := flags.dirDirty)
      ensures vol.cache.misused == old(vol.cache.misused)
      ensures TruncateOutcome(length, length, ok)
    {
      hide SdVolume.Valid, Layout.WellFormed, Layout.EocMin, Layout.ClusterIndex, Layout.ExtentOk, Layout.InFat;
      hide FileChain, IsChain, Step, Capacity, SameButEntry, EocAboveClusters, Positioned;
      hide Owned, UsedBlock, EntryAt, FirstCluster, Size, Confined, CutFat, Content, Name, Attributes, ClustersFor;
      ghost var d := vol.disk;
      ok := CutTo(length);
      if ok {
        ghost var d1 := vol.disk;
        ok := SyncReady();
        SameButEntryWiden(vol.lay, d, d1, vol.disk, [], dirBlock, dirIndex);
      }
    }

    /** The body of `truncate` up to `sync`: seek, free what lies behind, note the new size. */
    method CutTo(length: nat) returns (ok: bool)
      requires vol.Valid() && Attached() && kind == Normal && 0 < fileSize && length <= fileSize
      modifies this`curCluster, this`curPosition, this`fileSize, this`firstCluster, this`flags, this`chain
      modifies vol, vol.cache, vol.cache.card, vol.cache.buffer
      ensures vol.Valid()
      ensures vol.cache.misused == old(vol.cache.misused)
      ensures SameButEntry(vol.lay, old(vol.disk), vol.disk, [], dirBlock, dirIndex)
      ensures |vol.disk| == |old(vol.disk)| && EntryOnDisk() && vol.disk[dirBlock] == old(vol.disk)[dirBlock]
      ensures Confined(old(vol.fat), vol.fat, old(chain)) && chain <= old(chain)
      ensures !ok ==> flags == old(flags) && vol.cache.card.faults > old(vol.cache.card.faults)
      ensures ok ==>
        && Ready() && flags == old(flags).(dirDirty := true) && vol.cache.card.faults == old(vol.cache.card.faults)
        && fileSize == curPosition == length
        && Shortened(old(vol.disk), vol.disk, old(vol.fat), vol.fat, old(chain), chain, old(fileSize), length)
    {
      hide SdVolume.Valid, Layout.WellFormed, Layout.EocMin, Layout.ClusterIndex, Layout.ExtentOk, Layout.InFat;
      hide FileChain, IsChain, Step, Capacity, SameOutsideFat, SameElsewhere, SameButEntry, EocAboveClusters;
      hide Owned, UsedBlock, EntryAt, FirstCluster, Size, Confined, CutFat, Content;
      ghost var d, f, s, size, keep := vol.disk, vol.fat, chain, fileSize, ClustersFor(vol.lay, length);
      vol.Facts();
      PlaceOk();
      SameFile(vol.lay, f, d, firstCluster, s);
      StepConfined(vol.lay, f, f, s, s);
      NothingReplaced(vol.lay, d, dirBlock, dirIndex);
      CutKeepsBytes(vol.lay, d, d, s, size, length);
      ok := SeekSet(length);
      if !ok {
        return false;
      }
      NotEmpty(vol.lay, s, size);
      ok := CutChain(keep);
      ghost var d1 := vol.disk;
      OutsideButEntry(vol.lay, d, d1, dirBlock, dirIndex);
      if !ok {
        return false;
      }
      CutKeepsBytes(vol.lay, d, d1, s, size, length);
      SameOutsideIsElsewhere(vol.lay, d, d1, chain);
      EntryStays(vol.lay, f, vol.fat, s, chain, d, d1, dirBlock);
      StepConfined(vol.lay, f, vol.fat, s, chain);
      fileSize := length;
      flags := flags.(dirDirty := true);
    }

    /** The chain `s` was cut to the clusters of the first `length` bytes, which kept their contents. */
    ghost predicate Shortened(d: seq<Block>, d': seq<Block>, f: seq<nat>, f': seq<nat>, s: seq<nat>, s': seq<nat>,
                              size: nat, length: nat)
    {
      && length <= size && ClustersFor(vol.lay, length) <= |s| && s' == s[..ClustersFor(vol.lay, length)]
      && Step(vol.lay, f, f', s, s')
      && (forall i :: 0 <= i < |s| ==> s[i] < |f|)
      && f' == CutFat(vol.lay, f, s, ClustersFor(vol.lay, length))
      && WellPlaced(d, s, length, size) && WellPlaced(d', s', 0, length)
      && Content(vol.lay, d', Clusters(s'), length) == Content(vol.lay, d, Clusters(s), size)[..length]
    }
  }

  /** The handle has not changed. */
  twostate predicate SameHandle(g: SdFile)
    reads g
  {
    && g.flags == old(g.flags) && g.kind == old(g.kind) && g.curCluster == old(g.curCluster)
    && g.curPosition == old(g.curPosition) && g.dirBlock == old(g.dirBlock) && g.dirIndex == old(g.dirIndex)
    && g.fileSize == old(g.fileSize) && g.firstCluster == old(g.firstCluster) && g.chain == old(g.chain)
  }
}
