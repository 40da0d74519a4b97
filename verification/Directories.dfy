/**
 * Directories: the operations of SdFile on directory entries. `file` and `dir` stand for the
 * object a method is called on and the directory handle it is given.
 */
module Directories {
  import opened Bytes
  import opened Bits
  import opened VolumeLayout
  import opened Device
  import opened Chains
  import opened Allocation
  import opened FileData
  import opened DirEntry
  import opened DirTable
  import opened DirOnDisk
  import opened Volume
  import opened File
  import opened Names
  import opened Frames

  /** The flags of `open`. */
  datatype OpenMode = OpenMode(read: bool, write: bool, append: bool, sync: bool, creat: bool, excl: bool, trunc: bool)

  const READ_ONLY: OpenMode := OpenMode(true, false, false, false, false, false, false)

  /** Slots of an open directory. */
  ghost function SlotCount(dir: SdFile): nat
    reads dir
  {
    if dir.kind == Root16Dir then dir.vol.lay.rootDirEntryCount
    else ENTRIES_PER_BLOCK * dir.vol.lay.BlockCount(Clusters(dir.chain))
  }

  /** A directory whose size counts its slots; while it is being made it has none yet. */
  ghost predicate DirCounts(dir: SdFile)
    reads dir, dir.vol
  {
    && dir.Linked() && dir.IsDir() && !dir.flags.unbuffered
    && dir.fileSize == ENTRY_SIZE * SlotCount(dir)
  }

  /** An open directory. */
  ghost predicate DirHandle(dir: SdFile)
    reads dir, dir.vol
  {
    DirCounts(dir) && (dir.kind != Root16Dir ==> dir.chain != [])
  }

  /** The slots can be spoken of. */
  ghost predicate HasSlots(dir: SdFile)
    reads dir, dir.vol
  {
    && dir.vol.lay.WellFormed(|dir.vol.disk|) && dir.vol.lay.ExtentOk(dir.Place())
    && SlotCount(dir) <= ENTRIES_PER_BLOCK * dir.vol.lay.BlockCount(dir.Place())
  }

  ghost function Slots(dir: SdFile): (t: seq<Entry>)
    requires HasSlots(dir)
    reads dir, dir.vol
    ensures |t| == SlotCount(dir)
  {
    Table(dir.vol.lay, dir.vol.disk, dir.Place(), SlotCount(dir))
  }

  lemma SlotsOk(dir: SdFile)
    requires dir.vol.Valid() && DirHandle(dir)
    ensures HasSlots(dir) && dir.fileSize == ENTRY_SIZE * SlotCount(dir)
  {
    CountsOk(dir);
  }

  lemma CountsOk(dir: SdFile)
    requires dir.vol.Valid() && DirCounts(dir)
    ensures HasSlots(dir)
  {
    dir.PlaceOk();
    dir.vol.Facts();
  }

  /** rewind */
  method Rewind(dir: SdFile)
    requires DirHandle(dir) && HasSlots(dir)
    modifies dir`curCluster, dir`curPosition
    ensures DirHandle(dir) && dir.Positioned() && dir.curPosition == 0
    ensures HasSlots(dir) && SlotCount(dir) == old(SlotCount(dir)) && Slots(dir) == old(Slots(dir))
    ensures dir.Place() == old(dir.Place())
  {
    dir.curPosition := 0;
    dir.curCluster := 0;
  }

  /** seekSet to slot `k`. */
  method SeekSlot(dir: SdFile, k: nat) returns (ok: bool)
    requires dir.vol.Valid() && DirHandle(dir) && dir.Positioned() && HasSlots(dir)
    modifies dir`curCluster, dir`curPosition, dir.vol.cache, dir.vol.cache.card, dir.vol.cache.buffer
    ensures dir.vol.Valid() && DirHandle(dir) && HasSlots(dir)
    ensures dir.vol.cache.misused == old(dir.vol.cache.misused)
    ensures SlotCount(dir) == old(SlotCount(dir)) && Slots(dir) == old(Slots(dir)) && dir.Place() == old(dir.Place())
    ensures ok ==> k <= SlotCount(dir) && dir.curPosition == ENTRY_SIZE * k && dir.Positioned()
    ensures ok ==> dir.vol.cache.card.faults == old(dir.vol.cache.card.faults)
    ensures !ok ==> k > SlotCount(dir) || dir.vol.cache.card.faults > old(dir.vol.cache.card.faults)
  {
    hide SdVolume.Valid, Layout.WellFormed, Layout.ExtentOk, Layout.BlockCount, SlotBlock, Table, FileChain, Capacity;
    hide CursorAt;
    SlotsOk(dir);
    ok := dir.SeekSet(ENTRY_SIZE * k);
  }

  /** Slot `k` is in the cache, at `index`. */
  ghost predicate SlotCached(dir: SdFile, k: nat, index: nat)
    requires HasSlots(dir)
    reads dir, dir.vol, dir.vol.cache, dir.vol.cache.buffer
  {
    && k < SlotCount(dir) && index == k % ENTRIES_PER_BLOCK
    && dir.vol.cache.blockNumber == SlotBlock(dir.vol.lay, dir.Place(), k)
    && dir.vol.cache.buffer.Length == BLOCK_SIZE
    && EntryAt(dir.vol.cache.buffer[..], index) == Slots(dir)[k]
  }

  /** readDirCache: bring the slot at the position into the cache and step over it. */
  method ReadDirCache(dir: SdFile) returns (ok: bool, index: nat)
    requires dir.vol.Valid() && DirHandle(dir) && dir.Positioned() && HasSlots(dir)
    requires dir.curPosition % ENTRY_SIZE == 0 && dir.curPosition <= dir.fileSize
    modifies dir`curCluster, dir`curPosition, dir.vol.cache, dir.vol.cache.card, dir.vol.cache.buffer
    ensures dir.vol.Valid() && DirHandle(dir) && HasSlots(dir) && SlotCount(dir) == old(SlotCount(dir))
    ensures dir.vol.cache.misused == old(dir.vol.cache.misused)
    ensures old(HasSlots(dir)) && Slots(dir) == old(Slots(dir)) && dir.Place() == old(dir.Place())
    ensures ok ==> dir.curPosition == old(dir.curPosition) + ENTRY_SIZE <= dir.fileSize && dir.Positioned()
    ensures ok ==> SlotCached(dir, old(dir.curPosition) / ENTRY_SIZE, index)
    ensures ok ==> dir.vol.cache.card.faults == old(dir.vol.cache.card.faults)
    ensures !ok && dir.flags.read && old(dir.curPosition) < dir.fileSize ==>
      dir.vol.cache.card.faults > old(dir.vol.cache.card.faults)
  {
    hide SdVolume.Valid, Layout.WellFormed, Layout.ExtentOk, Layout.BlockCount, Layout.NthBlock, Layout.ClusterIndex;
    hide FileChain, Capacity, Overwrite, Content;
    hide Table, CursorAt, SlotBlock, EntryAt;
    SlotsOk(dir);
    ghost var k := dir.curPosition / ENTRY_SIZE;
    SlotPosition(dir.curPosition, SlotCount(dir));
    index := dir.curPosition / ENTRY_SIZE % ENTRIES_PER_BLOCK;
    var b := new byte[1];
    var r := dir.Read(b, 1);
    if r != 1 {
      return false, index;
    }
    SlotInCache(dir, k);
    PositionMoves(dir, k);
    dir.curPosition := dir.curPosition + 31;
    return true, index;
  }

  /** Positions of slots. */
  lemma SlotPosition(p: nat, n: nat)
    requires p % ENTRY_SIZE == 0
    ensures p < ENTRY_SIZE * n ==> p + ENTRY_SIZE <= ENTRY_SIZE * n && p / ENTRY_SIZE < n
    ensures p / BLOCK_SIZE == p / ENTRY_SIZE / ENTRIES_PER_BLOCK && (p + 31) / BLOCK_SIZE == p / BLOCK_SIZE
  {
  }

  /** The block of the byte just read holds the slot. */
  lemma SlotInCache(dir: SdFile, k: nat)
    requires dir.vol.Valid() && HasSlots(dir) && k < SlotCount(dir)
      && k / ENTRIES_PER_BLOCK < dir.vol.lay.BlockCount(dir.Place())
    requires dir.vol.cache.blockNumber == dir.vol.lay.NthBlock(dir.Place(), k / ENTRIES_PER_BLOCK)
    ensures SlotCached(dir, k, k % ENTRIES_PER_BLOCK)
  {
    hide SdVolume.Valid;
    NthBlockPlace(dir.vol.lay, |dir.vol.disk|, dir.Place(), k / ENTRIES_PER_BLOCK);
    dir.vol.CachedBlock();
    assert Slots(dir)[k] == SlotAt(dir.vol.lay, dir.vol.disk, dir.Place(), k);
  }

  /** The rest of the slot lies in the cluster of its first byte. */
  lemma PositionMoves(dir: SdFile, k: nat)
    requires dir.Positioned() && dir.curPosition == ENTRY_SIZE * k + 1
    ensures dir.kind != Root16Dir ==> CursorAt(dir.vol.lay, dir.chain, dir.curPosition + 31, dir.curCluster)
  {
    SlotPosition(ENTRY_SIZE * k, k + 1);
    SameBlockSameCluster(dir.vol.lay, ENTRY_SIZE * k, ENTRY_SIZE * k + 31);
  }

  /** The slot that `open` remembers for a new entry is the first empty one, if any was seen. */
  ghost predicate SlotRemembered(file: SdFile, dir: SdFile, found: bool, seen: nat)
    requires HasSlots(dir) && seen <= SlotCount(dir)
    reads file, dir, dir.vol
  {
    var e := FirstEmpty(Slots(dir));
    && (found <==> e < seen)
    && (found ==> file.dirBlock == SlotBlock(dir.vol.lay, dir.Place(), e) && file.dirIndex == e % ENTRIES_PER_BLOCK)
  }

  datatype Search = IoError | Found(index: nat) | NotFound(emptyFound: bool)

  /** The search loop of `open` by name. */
  method FindEntry(file: SdFile, dir: SdFile, name: seq<byte>) returns (r: Search)
    requires file != dir && file.vol == dir.vol
    requires dir.vol.Valid() && DirHandle(dir) && dir.flags.read && HasSlots(dir) && FreeTail(Slots(dir))
    modifies dir`curCluster, dir`curPosition, file`dirBlock, file`dirIndex
    modifies dir.vol.cache, dir.vol.cache.card, dir.vol.cache.buffer
    ensures dir.vol.Valid() && DirHandle(dir) && HasSlots(dir) && SlotCount(dir) == old(SlotCount(dir))
    ensures dir.vol.cache.misused == old(dir.vol.cache.misused)
    ensures Slots(dir) == old(Slots(dir)) && dir.Place() == old(dir.Place())
    ensures r.Found? ==> SlotOf(Slots(dir), name) < SlotCount(dir)
    ensures r.Found? ==> SlotCached(dir, SlotOf(Slots(dir), name), r.index)
    ensures r.NotFound? ==> SlotOf(Slots(dir), name) == SlotCount(dir)
    ensures r.NotFound? ==> SlotRemembered(file, dir, r.emptyFound, SlotCount(dir))
    ensures r.NotFound? && !r.emptyFound ==> dir.curPosition == dir.fileSize && dir.Positioned()
    ensures !r.IoError? ==> dir.vol.cache.card.faults == old(dir.vol.cache.card.faults)
    ensures r.IoError? ==> dir.vol.cache.card.faults > old(dir.vol.cache.card.faults)
  {
    hide SdVolume.Valid, Layout.WellFormed, Layout.ExtentOk, Layout.BlockCount, SlotBlock, Table;
    hide FileChain, Capacity, Name, Searched, FirstEmpty, SlotOf, DirHandle, SdFile.Linked, SdFile.Positioned;
    hide Slots, SlotCount, HasSlots, SdFile.Place, EntryAt, FreeTail;
    SlotsOk(dir);
    Rewind(dir);
    var emptyFound := false;
    ghost var t, k := Slots(dir), 0;
    SearchBegin(t, name);
    while dir.curPosition < dir.fileSize
      invariant dir.vol.Valid() && HasSlots(dir) && Slots(dir) == t && dir.Positioned() && DirHandle(dir)
      invariant dir.vol.cache.misused == old(dir.vol.cache.misused)
      invariant SlotCount(dir) == old(SlotCount(dir)) && dir.Place() == old(dir.Place())
      invariant dir.curPosition == ENTRY_SIZE * k && k <= |t|
      invariant Searched(t, name, k) && SlotRemembered(file, dir, emptyFound, k)
      invariant dir.vol.cache.card.faults == old(dir.vol.cache.card.faults)
      decreases dir.fileSize - dir.curPosition
    {
      var ok, index := ReadDirCache(dir);
      if !ok {
        return IoError;
      }
      DirTable.SearchStep(t, name, k);
      var p := EntryAt(dir.vol.cache.buffer[..], index);
      if p[0] == NAME_FREE || p[0] == NAME_DELETED {
        if !emptyFound {
          emptyFound := true;
          file.dirIndex := index;
          file.dirBlock := dir.vol.cache.blockNumber;
        }
        if p[0] == NAME_FREE {
          return NotFound(emptyFound);
        }
      } else if Name(p) == name {
        return Found(index);
      }
      k := k + 1;
    }
    DirTable.SearchDone(t, name);
    return NotFound(emptyFound);
  }

  // ---------------------------------------------------------------- opening an entry

  /** The entry describes a sound file: its clusters are a chain with room for its bytes. */
  ghost predicate EntryFits(lay: Layout, fat: seq<nat>, e: Entry, block: nat, chain: seq<nat>) {
    && FileChain(lay, fat, FirstCluster(e), chain)
    && !Owned(lay, chain, block)
    && (IsFile(e) ==> Size(e) <= Capacity(lay, Clusters(chain)))
    && (IsSubDir(e) ==> chain != [] && ChainBytes(lay, |chain|) < SIZE_LIMIT)
  }

  /** The handle has the first cluster, the kind and, of a file, the size that the bytes of the entry say. */
  ghost predicate ReadsEntry(file: SdFile, e: Entry)
    reads file
  {
    && file.firstCluster == Word(e, 26) + 65536 * Word(e, 20)
    && (if e[11] / 8 % 4 == 0 then file.kind == Normal && file.fileSize == Long(e, 28)
        else e[11] / 8 % 4 == 2 && file.kind == SubDir)
  }

  /** What a handle opened on an entry, and not truncated, looks like. */
  ghost predicate OpenedAs(file: SdFile, e: Entry, block: nat, index: nat, mode: OpenMode, chain: seq<nat>)
    reads file, file.vol
  {
    && file.dirBlock == block && file.dirIndex == index
    && file.firstCluster == FirstCluster(e) && file.chain == chain
    && file.kind == (if IsFile(e) then Normal else SubDir)
    && (IsFile(e) ==> file.fileSize == Size(e))
    && file.flags == Flags(mode.read, mode.write, mode.append, mode.sync, false, false)
    && file.curPosition == 0
    && file.Ready()
    && (IsSubDir(e) ==> DirHandle(file))
    && ReadsEntry(file, e)
  }

  /** The handle has the flags that the mode asks for. */
  predicate OpenedFlags(file: SdFile, mode: OpenMode)
    reads file
  {
    file.flags.(dirDirty := false) == Flags(mode.read, mode.write, mode.append, mode.sync, false, false)
  }

  /** A file that may not be opened for writing: read-only, or a directory. */
  predicate Denied(e: Entry, mode: OpenMode) {
    (HasBit(Attributes(e), ATT_READ_ONLY) || HasBit(Attributes(e), ATT_DIRECTORY)) && (mode.write || mode.trunc)
  }

  /** An entry that may be opened this way. */
  predicate Openable(e: Entry, mode: OpenMode) {
    IsFileOrSubDir(e) && !Denied(e, mode) && (mode.trunc ==> mode.write)
  }

  /** By the attribute byte: 1 is read-only, 8 a volume label, 16 a directory. */
  lemma OpenableByBytes(e: Entry, mode: OpenMode)
    ensures Denied(e, mode) <==> (e[11] % 2 == 1 || e[11] / 16 % 2 == 1) && (mode.write || mode.trunc)
    ensures Openable(e, mode) <==>
      && e[11] / 8 % 2 == 0
      && (e[11] % 2 == 1 || e[11] / 16 % 2 == 1 ==> !mode.write && !mode.trunc)
      && (mode.trunc ==> mode.write)
  {
  }

  /** openCachedEntry up to the truncation. */
  method FillHandle(file: SdFile, index: nat, mode: OpenMode, ghost chain: seq<nat>) returns (ok: bool)
    requires file.vol.Valid() && file.kind == Closed && index < ENTRIES_PER_BLOCK
    requires 0 < file.vol.cache.blockNumber < |file.vol.disk| && !file.vol.lay.InFat(file.vol.cache.blockNumber)
    requires UsedBlock(file.vol.lay, file.vol.fat, file.vol.cache.blockNumber)
    requires var e := EntryAt(file.vol.disk[file.vol.cache.blockNumber], index);
      IsFileOrSubDir(e) ==> EntryFits(file.vol.lay, file.vol.fat, e, file.vol.cache.blockNumber, chain)
    modifies file, file.vol.cache, file.vol.cache.card, file.vol.cache.buffer
    ensures file.vol.Valid() && file.vol.cache.card.faults >= old(file.vol.cache.card.faults)
    ensures file.vol.cache.misused == old(file.vol.cache.misused)
    ensures old(file.vol.cache.blockNumber) < |file.vol.disk|
    ensures (file.dirBlock == old(file.vol.cache.blockNumber) && file.dirIndex == index)
         || (file.dirBlock == old(file.dirBlock) && file.dirIndex == old(file.dirIndex))
    ensures var e := EntryAt(file.vol.disk[old(file.vol.cache.blockNumber)], index);
      && (ok ==> IsFileOrSubDir(e) && !Denied(e, mode))
      && (ok ==> OpenedAs(file, e, old(file.vol.cache.blockNumber), index, mode, chain))
      && (ok ==> file.vol.cache.card.faults == old(file.vol.cache.card.faults))
      && (!ok && IsFileOrSubDir(e) && !Denied(e, mode) ==> file.vol.cache.card.faults > old(file.vol.cache.card.faults))
      && (!ok ==> file.kind == Closed)
  {
    hide SdVolume.Valid, Layout.WellFormed, Layout.InFat, Layout.ExtentOk, Layout.EocMin, FileChain, IsChain;
    hide Capacity, Owned, UsedBlock, EntryAt, FirstCluster, Size, Attributes, HasBit, ChainBytes, EocAboveClusters;
    hide OpenedAs, EntryFits, HasSlots, SdFile.Ready, Denied;
    var vol := file.vol;
    vol.Facts();
    vol.CachedBlock();
    var block := vol.cache.blockNumber;
    var e := EntryAt(vol.cache.buffer[..], index);
    if Denied(e, mode) {
      return false;
    }
    HeadOfChain(vol.lay, vol.fat, e, block, chain);
    file.dirIndex := index;
    file.dirBlock := block;
    file.firstCluster := FirstCluster(e);
    ok := SetKindAndSize(file, e, chain);
    if ok {
      file.flags := Flags(mode.read, mode.write, mode.append, mode.sync, false, false);
      file.curCluster := 0;
      file.curPosition := 0;
      file.chain := chain;
      Opened(file, e, mode);
    }
  }

  /** The part of openCachedEntry that makes sure the entry is a normal file or a subdirectory. */
  method SetKindAndSize(file: SdFile, e: Entry, ghost chain: seq<nat>) returns (ok: bool)
    requires file.vol.Valid() && file.firstCluster == FirstCluster(e) && file.kind == Closed
    requires IsSubDir(e) ==> IsChain(file.vol.lay, file.vol.fat, chain) && chain[0] == FirstCluster(e)
    modifies file`kind, file`fileSize, file.vol.cache, file.vol.cache.card, file.vol.cache.buffer
    ensures file.vol.Valid()
    ensures file.vol.cache.misused == old(file.vol.cache.misused)
    ensures ok ==> IsFile(e) || IsSubDir(e)
    ensures ok && IsFile(e) ==> file.kind == Normal && file.fileSize == Size(e)
    ensures ok && IsSubDir(e) ==>
      file.kind == SubDir && file.fileSize == ChainBytes(file.vol.lay, |chain|) % 0x1_0000_0000
    ensures ok ==> file.vol.cache.card.faults == old(file.vol.cache.card.faults)
    ensures !ok ==> file.kind == Closed
    ensures !ok && (IsFile(e) || IsSubDir(e)) ==> file.vol.cache.card.faults > old(file.vol.cache.card.faults)
    ensures file.vol.cache.card.faults >= old(file.vol.cache.card.faults)
  {
    hide SdVolume.Valid, FirstCluster, Size, Attributes, HasBit, ChainBytes;
    if IsFile(e) {
      file.fileSize := Size(e);
      file.kind := Normal;
      return true;
    }
    if IsSubDir(e) {
      var size;
      file.vol.Facts();
      ChainPasses(file.vol.lay, file.vol.fat, chain);
      ok, size := file.vol.ChainSize(file.firstCluster, chain);
      if ok {
        file.fileSize := size;
        file.kind := SubDir;
      }
      return ok;
    }
    return false;
  }

  lemma Opened(file: SdFile, e: Entry, mode: OpenMode)
    requires file.vol.Valid() && file.EntryOnDisk() && file.DiskEntry() == e && (IsFile(e) || IsSubDir(e))
    requires UsedBlock(file.vol.lay, file.vol.fat, file.dirBlock)
    requires EntryFits(file.vol.lay, file.vol.fat, e, file.dirBlock, file.chain)
    requires file.firstCluster == FirstCluster(e)
    requires IsFile(e) ==> file.kind == Normal && file.fileSize == Size(e)
    requires IsSubDir(e) ==> file.kind == SubDir
    requires IsSubDir(e) ==> file.fileSize == ChainBytes(file.vol.lay, |file.chain|) % 0x1_0000_0000
    requires file.curCluster == 0 && file.curPosition == 0
    requires file.flags == Flags(mode.read, mode.write, mode.append, mode.sync, false, false)
    ensures OpenedAs(file, e, file.dirBlock, file.dirIndex, mode, file.chain)
  {
    hide SdVolume.Valid, Layout.WellFormed, Layout.InFat, Layout.ExtentOk, FileChain;
    hide Capacity, Owned, UsedBlock, EntryAt, FirstCluster, Size, Attributes, HasBit, ChainBytes;
    FieldsByBytes(e);
    if IsFile(e) {
      SizeBound(e);
    } else {
      DirSize(file.vol.lay, file.chain);
    }
  }

  lemma SizeBound(e: Entry)
    ensures Size(e) < SIZE_LIMIT
  {
  }

  lemma HeadOfChain(lay: Layout, fat: seq<nat>, e: Entry, block: nat, chain: seq<nat>)
    requires IsFileOrSubDir(e) ==> EntryFits(lay, fat, e, block, chain)
    ensures IsSubDir(e) ==> IsChain(lay, fat, chain) && chain[0] == FirstCluster(e)
  {
  }

  /** The size that chainSize computes counts the slots of the directory. */
  lemma DirSize(lay: Layout, chain: seq<nat>)
    requires ChainBytes(lay, |chain|) < SIZE_LIMIT
    ensures ChainBytes(lay, |chain|) % 0x1_0000_0000
         == ENTRY_SIZE * (ENTRIES_PER_BLOCK * lay.BlockCount(Clusters(chain)))
    ensures ChainBytes(lay, |chain|) % 0x1_0000_0000 <= Capacity(lay, Clusters(chain))
    ensures ChainBytes(lay, |chain|) % 0x1_0000_0000 < SIZE_LIMIT
  {
    ChainBytesOfBlocks(lay, |chain|);
  }

  // ---------------------------------------------------------------- growing a directory

  /** At its end, a directory's current cluster is its last one. */
  lemma LastAtEnd(lay: Layout, n: nat, chain: seq<nat>, pos: nat, cur: nat)
    requires lay.WellFormed(n) && CursorAt(lay, chain, pos, cur)
    requires pos == Capacity(lay, Clusters(chain))
    ensures if chain == [] then cur == 0 else cur == chain[|chain| - 1]
  {
    if chain == [] {
      ShlZero(lay.clusterSizeShift);
    } else {
      InCapacity(lay, chain, pos);
      InCapacity(lay, chain, 0);
      NextByte(lay, n, pos);
      NextByte(lay, n, 0);
    }
  }

  /** The loop of addDirCluster: zero the blocks of cluster `c`, the first block last. */
  method ZeroBlocks(vol: SdVolume, c: nat) returns (ok: bool)
    requires vol.Valid() && vol.lay.IsCluster(c)
    modifies vol`disk, vol.cache, vol.cache.card, vol.cache.buffer
    ensures vol.Valid() && |vol.disk| == |old(vol.disk)| && SameElsewhere(vol.lay, old(vol.disk), vol.disk, [c])
    ensures vol.cache.misused == old(vol.cache.misused)
    ensures ok ==> ZeroCluster(vol.lay, vol.disk, c)
    ensures ok ==> vol.cache.blockNumber == vol.lay.ClusterStart(c) && vol.cache.dirty
    ensures ok ==> vol.cache.card.faults == old(vol.cache.card.faults)
    ensures !ok ==> vol.cache.card.faults > old(vol.cache.card.faults)
  {
    hide SdVolume.Valid, Layout.WellFormed, Layout.InFat, Layout.DataEnd;
    vol.Facts();
    vol.ClusterRange(c);
    var block := vol.lay.ClusterStart(c);
    var i := vol.lay.blocksPerCluster;
    while i != 0
      invariant vol.Valid() && 0 <= i <= vol.lay.blocksPerCluster && |vol.disk| == |old(vol.disk)|
      invariant vol.cache.misused == old(vol.cache.misused)
      invariant SameElsewhere(vol.lay, old(vol.disk), vol.disk, [c])
      invariant forall b :: block + i <= b < block + vol.lay.blocksPerCluster ==> IsZeroBlock(vol.disk[b])
      invariant i < vol.lay.blocksPerCluster ==> vol.cache.blockNumber == block + i && vol.cache.dirty
      invariant vol.cache.card.faults == old(vol.cache.card.faults)
    {
      assert !vol.lay.InFat(block + i - 1);
      ok := vol.CacheZeroBlock(block + i - 1);
      if !ok {
        return false;
      }
      i := i - 1;
    }
    return true;
  }

  /** The directory has at most grown at its end, and nothing but its new clusters has changed. */
  twostate predicate AtMostGrown(dir: SdFile)
    reads dir, dir.vol
  {
    && |dir.vol.disk| == |old(dir.vol.disk)| && old(dir.chain) <= dir.chain
    && Step(dir.vol.lay, old(dir.vol.fat), dir.vol.fat, old(dir.chain), dir.chain)
    && FileChain(dir.vol.lay, dir.vol.fat, dir.firstCluster, dir.chain)
    && SameElsewhere(dir.vol.lay, old(dir.vol.disk), dir.vol.disk, dir.chain[|old(dir.chain)|..])
  }

  /** A FAT after a directory has got room for an entry: with `grow` by the free cluster found first behind its last. */
  ghost predicate Prolonged(f0: seq<nat>, f1: seq<nat>, s0: seq<nat>, s1: seq<nat>, grow: bool) {
    if !grow then f1 == f0 && s1 == s0
    else
      && s0 != [] && |s1| == |s0| + 1 && s0 <= s1
      && FirstFit(f0, s0[|s0| - 1] + 1, 1, s1[|s0|]) && OnlyOf(f0, f1, s1)
  }

  /** What is free afterwards. */
  lemma ProlongedFree(lay: Layout, f0: seq<nat>, f1: seq<nat>, s0: seq<nat>, s1: seq<nat>, grow: bool)
    requires Prolonged(f0, f1, s0, s1, grow) && ChainOrEmpty(lay, f0, s0) && ChainOrEmpty(lay, f1, s1)
    ensures |f1| == |f0|
    ensures grow ==> s1[|s0|] in FreeClusters(f0) && FreeClusters(f1) == FreeClusters(f0) - {s1[|s0|]}
    ensures |FreeClusters(f1)| == |FreeClusters(f0)| - (if grow then 1 else 0)
  {
    if grow {
      forall c | 2 <= c < |f0|
        ensures f1[c] == 0 <==> f0[c] == 0 && c != s1[|s0|]
      {
        if c in s1 {
          ChainInUse(lay, f1, s1, c);
          if c != s1[|s0|] {
            assert c in s0;
            ChainInUse(lay, f0, s0, c);
          }
        }
      }
      assert FreeClusters(f1) == FreeClusters(f0) - {s1[|s0|]};
    }
  }

  /** A run of `n` free clusters is left when a directory of clusters `s` has got room for an entry. */
  ghost predicate RunLeft(fat: seq<nat>, s: seq<nat>, grow: bool, n: nat) {
    if !grow then !NoRun(fat, 2, |fat|, n)
    else s != [] && exists c {:trigger fat[c]} ::
      0 <= c < |fat| && FirstFit(fat, s[|s| - 1] + 1, 1, c) && !NoRun(fat[c := 1], 2, |fat|, n)
  }

  lemma ProlongedRuns(lay: Layout, f0: seq<nat>, f1: seq<nat>, first0: nat, first1: nat, s0: seq<nat>, s1: seq<nat>,
                      grow: bool, n: nat)
    requires FileChain(lay, f0, first0, s0) && FileChain(lay, f1, first1, s1) && Prolonged(f0, f1, s0, s1, grow)
    ensures !NoRun(f1, 2, |f1|, n) <==> RunLeft(f0, s0, grow, n)
  {
    FileIsChain(lay, f0, first0, s0);
    FileIsChain(lay, f1, first1, s1);
    if grow {
      ProlongedFree(lay, f0, f1, s0, s1, true);
      var c, start := s1[|s0|], s0[|s0| - 1] + 1;
      forall x | 2 <= x < |f0|
        ensures f1[x] == 0 <==> f0[c := 1][x] == 0
      {
        assert x in FreeClusters(f1) <==> x in FreeClusters(f0) && x != c;
      }
      SameRuns(f1, f0[c := 1], n);
      forall x | 0 <= x < |f0| && FirstFit(f0, start, 1, x)
        ensures x == c
      {
        FirstFitUnique(f0, start, 1, x, c);
      }
    }
  }

  /** addDirCluster: prolong a directory, read to its end, by a zeroed cluster. */
  method AddDirCluster(dir: SdFile) returns (ok: bool)
    requires dir.vol.Valid() && DirCounts(dir) && dir.kind != Root16Dir && HasSlots(dir)
    requires dir.Positioned() && dir.curPosition == dir.fileSize
    requires dir.fileSize + dir.vol.lay.ClusterBytes() < SIZE_LIMIT
    modifies dir`curCluster, dir`firstCluster, dir`flags, dir`chain, dir`fileSize
    modifies dir.vol, dir.vol.cache, dir.vol.cache.card, dir.vol.cache.buffer
    ensures dir.vol.Valid() && AtMostGrown(dir)
    ensures dir.vol.cache.misused == old(dir.vol.cache.misused)
    ensures ok ==> dir.vol.lay.IsCluster(dir.curCluster) && dir.chain == old(dir.chain) + [dir.curCluster]
    ensures ok ==> 2 <= dir.curCluster < |old(dir.vol.fat)| && old(dir.vol.fat)[dir.curCluster] == 0
    ensures ok ==> OnlyOf(old(dir.vol.fat), dir.vol.fat, dir.chain)
    ensures ok && old(dir.chain) != [] ==>
      Prolonged(old(dir.vol.fat), dir.vol.fat, old(dir.chain), dir.chain, true)
    ensures ok && old(dir.chain) != [] ==> dir.firstCluster == old(dir.firstCluster) && dir.flags == old(dir.flags)
    ensures ok && old(dir.chain) == [] ==> dir.flags == old(dir.flags).(dirDirty := true)
    ensures ok ==> DirHandle(dir) && HasSlots(dir) && SlotCount(dir) > old(SlotCount(dir))
    ensures ok ==> Slots(dir) == old(Slots(dir)) + seq(SlotCount(dir) - old(SlotCount(dir)), _ => ZERO_ENTRY)
    ensures ok ==> dir.vol.cache.blockNumber == dir.vol.lay.ClusterStart(dir.curCluster) && dir.vol.cache.dirty
    ensures ok ==> SameElsewhere(dir.vol.lay, old(dir.vol.disk), dir.vol.disk, [dir.curCluster])
    ensures ok ==> dir.vol.cache.card.faults == old(dir.vol.cache.card.faults)
    ensures !ok && dir.vol.cache.card.faults == old(dir.vol.cache.card.faults) ==>
      && dir.vol.fat == old(dir.vol.fat) && dir.vol.disk == old(dir.vol.disk) && SameDir(dir)
      && NoneFree(dir.vol.fat)
  {
    hide SdVolume.Valid, Layout.WellFormed, Layout.ExtentOk, Layout.BlockCount, Layout.ClusterStart, FileChain;
    hide IsChain, Capacity, CursorAt, Step, SameElsewhere, SameOutsideFat, Table, ZeroCluster, EocAboveClusters;
    hide Layout.ClusterBytes;
    var vol := dir.vol;
    ghost var d0, chain0 := vol.disk, dir.chain;
    DirCapacity(vol.lay, chain0);
    ok := TakeCluster(dir);
    ghost var d1 := vol.disk;
    if !ok {
      return false;
    }
    assert dir.chain[|chain0|..] == [dir.curCluster];
    ok := ZeroBlocks(vol, dir.curCluster);
    SameElsewhereTrans(vol.lay, d0, d1, vol.disk, [dir.curCluster], [dir.curCluster]);
    if !ok {
      return false;
    }
    vol.Facts();
    DirGrowth(vol.lay, chain0, dir.curCluster);
    TableGrows(vol.lay, d0, vol.disk, chain0, dir.curCluster);
    dir.fileSize := dir.fileSize + vol.lay.ClusterBytes();
    return true;
  }

  /** Its first half: the cluster is appended, but has no contents yet. */
  method TakeCluster(dir: SdFile) returns (ok: bool)
    requires dir.vol.Valid() && DirCounts(dir) && dir.kind != Root16Dir && HasSlots(dir)
    requires dir.Positioned() && dir.curPosition == dir.fileSize
    modifies dir`curCluster, dir`firstCluster, dir`flags, dir`chain
    modifies dir.vol, dir.vol.cache, dir.vol.cache.card, dir.vol.cache.buffer
    ensures dir.vol.Valid() && AtMostGrown(dir)
    ensures dir.vol.cache.misused == old(dir.vol.cache.misused)
    ensures ok ==> dir.vol.lay.IsCluster(dir.curCluster) && dir.chain == old(dir.chain) + [dir.curCluster]
    ensures ok ==> 2 <= dir.curCluster < |old(dir.vol.fat)| && old(dir.vol.fat)[dir.curCluster] == 0
    ensures ok ==> OnlyOf(old(dir.vol.fat), dir.vol.fat, dir.chain)
    ensures ok && old(dir.chain) != [] ==>
      Prolonged(old(dir.vol.fat), dir.vol.fat, old(dir.chain), dir.chain, true)
    ensures ok && old(dir.chain) != [] ==> dir.firstCluster == old(dir.firstCluster) && dir.flags == old(dir.flags)
    ensures ok && old(dir.chain) == [] ==> dir.flags == old(dir.flags).(dirDirty := true)
    ensures ok ==> dir.vol.lay.ExtentOk(Clusters(dir.chain))
    ensures ok ==> SameElsewhere(dir.vol.lay, old(dir.vol.disk), dir.vol.disk, [dir.curCluster])
    ensures ok ==> dir.vol.cache.card.faults == old(dir.vol.cache.card.faults)
    ensures !ok && dir.vol.cache.card.faults == old(dir.vol.cache.card.faults) ==>
      && dir.vol.fat == old(dir.vol.fat) && dir.vol.disk == old(dir.vol.disk) && SameDir(dir)
      && NoneFree(dir.vol.fat)
  {
    hide SdVolume.Valid, Layout.WellFormed, Layout.ExtentOk, Layout.BlockCount, FileChain, IsChain;
    hide Capacity, CursorAt, Step, SameElsewhere, SameOutsideFat, EocAboveClusters, OnlyOf, FirstFit;
    var vol := dir.vol;
    ghost var d0, chain0 := vol.disk, dir.chain;
    vol.Facts();
    FileExtent(vol.lay, vol.fat, dir.firstCluster, chain0);
    LastCluster(vol.lay, vol.fat, dir.firstCluster, chain0);
    DirCapacity(vol.lay, chain0);
    LastAtEnd(vol.lay, |vol.disk|, chain0, dir.curPosition, dir.curCluster);
    ok := dir.AddCluster();
    SameOutsideIsElsewhere(vol.lay, d0, vol.disk, dir.chain[|chain0|..]);
    if ok {
      vol.Facts();
      FileExtent(vol.lay, vol.fat, dir.firstCluster, dir.chain);
      LastCluster(vol.lay, vol.fat, dir.firstCluster, dir.chain);
      assert dir.chain[|chain0|..] == [dir.curCluster];
    }
  }

  /** A directory fills its clusters. */
  lemma DirCapacity(lay: Layout, chain: seq<nat>)
    ensures Capacity(lay, Clusters(chain)) == ENTRY_SIZE * (ENTRIES_PER_BLOCK * lay.BlockCount(Clusters(chain)))
  {
  }

  lemma DirGrowth(lay: Layout, chain: seq<nat>, c: nat)
    ensures Capacity(lay, Clusters(chain + [c]))
         == ENTRY_SIZE * (ENTRIES_PER_BLOCK * lay.BlockCount(Clusters(chain))) + lay.ClusterBytes()
    ensures Capacity(lay, Clusters(chain + [c]))
      == ENTRY_SIZE * (ENTRIES_PER_BLOCK * lay.BlockCount(Clusters(chain + [c])))
  {
    ShlNext(|chain|, lay.clusterSizeShift);
    ShlTimes(1, BLOCK_SIZE, lay.clusterSizeShift);
    ShlOne(lay.clusterSizeShift);
  }

  // ---------------------------------------------------------------- creating an entry

  /** What every writer of an entry leaves: slot `k` is `e`, and nothing else has changed. */
  twostate predicate SlotWritten(dir: SdFile, k: nat, e: Entry)
    reads dir, dir.vol
  {
    && DirHandle(dir) && HasSlots(dir) && old(HasSlots(dir))
    && k < old(SlotCount(dir)) == SlotCount(dir)
    && Slots(dir) == old(Slots(dir))[k := e]
    && SlotAt(dir.vol.lay, dir.vol.disk, dir.Place(), k) == e
    && SameButEntry(dir.vol.lay, old(dir.vol.disk), dir.vol.disk, [],
                    SlotBlock(dir.vol.lay, dir.Place(), k), k % ENTRIES_PER_BLOCK)
  }

  /** Store an entry into the cached slot `k`. */
  method WriteSlot(dir: SdFile, ghost k: nat, index: nat, e: Entry)
    requires dir.vol.Valid() && DirHandle(dir) && HasSlots(dir) && k < SlotCount(dir) && index == k % ENTRIES_PER_BLOCK
    requires dir.vol.cache.dirty && dir.vol.cache.blockNumber == SlotBlock(dir.vol.lay, dir.Place(), k)
    modifies dir.vol`disk, dir.vol.cache.buffer
    ensures dir.vol.Valid() && SlotWritten(dir, k, e)
    ensures dir.vol.cache.misused == old(dir.vol.cache.misused)
  {
    hide SdVolume.Valid, Layout.WellFormed, Layout.ExtentOk, Layout.BlockCount, Layout.InFat, FileChain, Capacity;
    hide SameButEntry, Table, WithEntry, EntryAt;
    var vol := dir.vol;
    ghost var d := vol.disk;
    NthBlockPlace(vol.lay, |d|, dir.Place(), k / ENTRIES_PER_BLOCK);
    vol.CopyIn(ENTRY_SIZE * index, e);
    ghost var b := SlotBlock(vol.lay, dir.Place(), k);
    WithEntryIs(d[b], index, e);
    EntryReplaced(vol.lay, d, b, index, e);
    WithEntryAt(d[b], index, e, index);
    TableUpdate(vol.lay, d, vol.disk, [], dir.Place(), SlotCount(dir), k);
  }

  lemma WithEntryIs(b: Block, i: nat, e: Entry)
    requires i < ENTRIES_PER_BLOCK
    ensures WithEntry(b, i, e) == Overwrite(b, ENTRY_SIZE * i, e)
  {
  }

  /** The first slot of the cluster a directory grew by. */
  lemma FirstNewSlot(lay: Layout, chain: seq<nat>, c: nat)
    requires c >= 2 && lay.ExtentOk(Clusters(chain + [c]))
    ensures var k := ENTRIES_PER_BLOCK * lay.BlockCount(Clusters(chain));
      && k / ENTRIES_PER_BLOCK < lay.BlockCount(Clusters(chain + [c])) && k % ENTRIES_PER_BLOCK == 0
      && SlotBlock(lay, Clusters(chain + [c]), k) == lay.ClusterStart(c)
  {
    ShlNext(|chain|, lay.clusterSizeShift);
    Join(|chain|, 0, lay.clusterSizeShift);
  }

  /** No slot is empty, and the directory cannot grow. */
  ghost predicate Full(dir: SdFile)
    requires HasSlots(dir)
    reads dir, dir.vol
  {
    && FirstEmpty(Slots(dir)) == SlotCount(dir)
    && (dir.kind == Root16Dir || NoneFree(dir.vol.fat))
  }

  /** What an operation on entry `index` of block `block` and its file may change: see Frame. */
  twostate predicate FramedAt(dir: SdFile, own: seq<nat>, after: seq<nat>, block: nat, index: nat)
    reads dir, dir.vol
  {
    && FileChain(dir.vol.lay, dir.vol.fat, dir.firstCluster, dir.chain)
    && Frame(dir.vol.lay, old(dir.vol.fat), dir.vol.fat, old(dir.vol.disk), dir.vol.disk, old(dir.chain), dir.chain,
             own, after, dir.Place(), block, index)
  }

  /** The same for the entry of `file`. */
  twostate predicate Framed(file: SdFile, dir: SdFile, own: seq<nat>, after: seq<nat>)
    reads file, dir, dir.vol
  {
    FramedAt(dir, own, after, file.dirBlock, file.dirIndex)
  }

  /** The block of a name's slot; 0 if there is none. */
  ghost function NamedBlock(dir: SdFile, name: seq<byte>): nat
    requires HasSlots(dir)
    reads dir, dir.vol
  {
    var k := SlotOf(Slots(dir), name);
    if k < SlotCount(dir) then SlotBlock(dir.vol.lay, dir.Place(), k) else 0
  }

  /** The directory has grown by one cluster if no slot was empty, else not at all. */
  twostate predicate GrownIfFull(dir: SdFile)
    requires old(HasSlots(dir))
    reads dir, dir.vol
  {
    Prolonged(old(dir.vol.fat), dir.vol.fat, old(dir.chain), dir.chain, old(FirstEmpty(Slots(dir)) == SlotCount(dir)))
  }

  /** The directory has at most grown, and no entry of the FAT has changed but its own and those of `after`. */
  twostate predicate OnlyGrown(dir: SdFile, after: seq<nat>)
    reads dir, dir.vol
  {
    old(dir.chain) <= dir.chain && OnlyOf(old(dir.vol.fat), dir.vol.fat, dir.chain + after)
  }

  lemma ProlongedOnly(f0: seq<nat>, f1: seq<nat>, f2: seq<nat>, s0: seq<nat>, s1: seq<nat>, grow: bool, after: seq<nat>)
    requires Prolonged(f0, f1, s0, s1, grow) && OnlyOf(f1, f2, after)
    ensures s0 <= s1 && OnlyOf(f0, f2, s1 + after)
  {
    OnlyOfJoin(f0, f1, f2, s1, after);
  }

  /** The slot for a new entry is cached for writing, in a directory with room for it. */
  twostate predicate NewSlotCached(file: SdFile, dir: SdFile, name: seq<byte>)
    reads file, dir, dir.vol, dir.vol.cache, dir.vol.cache.card
  {
    && DirHandle(dir) && HasSlots(dir) && old(HasSlots(dir)) && dir.flags == old(dir.flags)
    && RoomFor(old(Slots(dir)), Slots(dir), name) && Extended(old(Slots(dir)), Slots(dir)) && !old(Full(dir))
    && dir.vol.cache.dirty && file.dirIndex == FirstEmpty(Slots(dir)) % ENTRIES_PER_BLOCK
    && dir.vol.cache.blockNumber == SlotBlock(dir.vol.lay, dir.Place(), FirstEmpty(Slots(dir)))
    && old(dir.chain) <= dir.chain && GrownIfFull(dir)
    && SameElsewhere(dir.vol.lay, old(dir.vol.disk), dir.vol.disk, dir.chain[|old(dir.chain)|..])
    && dir.vol.cache.card.faults == old(dir.vol.cache.card.faults)
  }

  /** Cache the slot for a new entry: the remembered empty one, or the first of a new cluster. */
  method CacheNewSlot(file: SdFile, dir: SdFile, emptyFound: bool, ghost name: seq<byte>) returns (ok: bool)
    requires file != dir && file.vol == dir.vol
    requires dir.vol.Valid() && DirHandle(dir) && HasSlots(dir) && Sound(Slots(dir))
    requires SlotRemembered(file, dir, emptyFound, SlotCount(dir)) && SlotOf(Slots(dir), name) == SlotCount(dir)
    requires !emptyFound ==> dir.Positioned() && dir.curPosition == dir.fileSize
    requires dir.fileSize + dir.vol.lay.ClusterBytes() < SIZE_LIMIT
    modifies dir`curCluster, dir`firstCluster, dir`flags, dir`chain, dir`fileSize, file`dirIndex
    modifies dir.vol, dir.vol.cache, dir.vol.cache.card, dir.vol.cache.buffer
    ensures dir.vol.Valid() && AtMostGrown(dir)
    ensures dir.vol.cache.misused == old(dir.vol.cache.misused)
    ensures ok ==> NewSlotCached(file, dir, name)
    ensures ok && emptyFound ==> dir.vol.cache.blockNumber == file.dirBlock
    ensures ok && !emptyFound ==> Owned(dir.vol.lay, dir.chain[|old(dir.chain)|..], dir.vol.cache.blockNumber)
    ensures !ok && dir.vol.cache.card.faults == old(dir.vol.cache.card.faults) ==>
      && dir.vol.fat == old(dir.vol.fat) && dir.vol.disk == old(dir.vol.disk) && SameDir(dir)
      && old(Full(dir))
  {
    hide SdVolume.Valid, Layout.WellFormed, Layout.EocMin, FileChain, Capacity, HasSlots, DirHandle;
    hide SameElsewhere, SameOutsideFat, Step, NewSlotCached, Sound, Table, SlotBlock;
    var vol := dir.vol;
    vol.Facts();
    NoChange(dir);
    if emptyFound {
      ok := CacheFoundSlot(file, dir, name);
      return ok;
    }
    if dir.kind == Root16Dir {
      return false;
    }
    ok := CacheGrownSlot(file, dir, name);
  }

  lemma NoChange(dir: SdFile)
    requires dir.vol.Valid() && DirHandle(dir)
    ensures Step(dir.vol.lay, dir.vol.fat, dir.vol.fat, dir.chain, dir.chain)
    ensures FileChain(dir.vol.lay, dir.vol.fat, dir.firstCluster, dir.chain)
    ensures SameElsewhere(dir.vol.lay, dir.vol.disk, dir.vol.disk, dir.chain[|dir.chain|..])
    ensures SameElsewhere(dir.vol.lay, dir.vol.disk, dir.vol.disk, [])
  {
    dir.vol.Facts();
    SameFile(dir.vol.lay, dir.vol.fat, dir.vol.disk, dir.firstCluster, dir.chain);
  }

  method CacheFoundSlot(file: SdFile, dir: SdFile, ghost name: seq<byte>) returns (ok: bool)
    requires file.vol == dir.vol
    requires dir.vol.Valid() && DirHandle(dir) && HasSlots(dir) && Sound(Slots(dir))
    requires SlotRemembered(file, dir, true, SlotCount(dir)) && SlotOf(Slots(dir), name) == SlotCount(dir)
    modifies dir.vol.cache, dir.vol.cache.card, dir.vol.cache.buffer
    ensures dir.vol.Valid()
    ensures dir.vol.cache.misused == old(dir.vol.cache.misused)
    ensures ok ==> NewSlotCached(file, dir, name) && dir.vol.cache.blockNumber == file.dirBlock
    ensures !ok ==> dir.vol.cache.card.faults > old(dir.vol.cache.card.faults)
  {
    hide SdVolume.Valid, Layout.WellFormed, Layout.ExtentOk, Layout.BlockCount, Layout.InFat, DirHandle;
    hide SameElsewhere, Table, TableMap, FirstEmpty, SlotOf, Sound;
    ghost var t := Slots(dir);
    NoChange(dir);
    RoomFound(t, name);
    ExtendedSelf(t);
    NthBlockPlace(dir.vol.lay, |dir.vol.disk|, dir.Place(), FirstEmpty(t) / ENTRIES_PER_BLOCK);
    ok := dir.vol.CacheRawBlock(file.dirBlock, true);
    assert dir.chain[|dir.chain|..] == [];
  }

  method CacheGrownSlot(file: SdFile, dir: SdFile, ghost name: seq<byte>) returns (ok: bool)
    requires file != dir && file.vol == dir.vol && dir.kind != Root16Dir
    requires dir.vol.Valid() && DirHandle(dir) && HasSlots(dir) && Sound(Slots(dir))
    requires SlotRemembered(file, dir, false, SlotCount(dir)) && SlotOf(Slots(dir), name) == SlotCount(dir)
    requires dir.Positioned() && dir.curPosition == dir.fileSize
    requires dir.fileSize + dir.vol.lay.ClusterBytes() < SIZE_LIMIT
    modifies dir`curCluster, dir`firstCluster, dir`flags, dir`chain, dir`fileSize, file`dirIndex
    modifies dir.vol, dir.vol.cache, dir.vol.cache.card, dir.vol.cache.buffer
    ensures dir.vol.Valid() && AtMostGrown(dir)
    ensures dir.vol.cache.misused == old(dir.vol.cache.misused)
    ensures ok ==> NewSlotCached(file, dir, name)
    ensures ok ==> Owned(dir.vol.lay, dir.chain[|old(dir.chain)|..], dir.vol.cache.blockNumber)
    ensures !ok && dir.vol.cache.card.faults == old(dir.vol.cache.card.faults) ==>
      && dir.vol.fat == old(dir.vol.fat) && dir.vol.disk == old(dir.vol.disk) && SameDir(dir)
      && NoneFree(dir.vol.fat)
  {
    hide SdVolume.Valid, Layout.WellFormed, Layout.ExtentOk, Layout.InFat, DirCounts, SdFile.Positioned;
    hide SameElsewhere, Step, Table, TableMap, FirstEmpty, SlotOf, Sound, SlotBlock;
    ghost var t, chain0 := Slots(dir), dir.chain;
    ok := AddDirCluster(dir);
    if ok {
      file.dirIndex := 0;
      ghost var more := Slots(dir)[|t|..];
      assert Slots(dir) == t + more;
      RoomMade(t, more, name);
      ExtendedByZero(t, more);
      StartOwned(dir.vol.lay, dir.curCluster);
      FirstNewSlot(dir.vol.lay, chain0, dir.curCluster);
      assert dir.chain[|chain0|..] == [dir.curCluster];
    }
  }

  /** An empty new file, in a directory whose map has gained exactly its name. */
  twostate predicate Created(dir: SdFile, name: seq<byte>, e: Entry, block: nat, index: nat)
    reads dir, dir.vol, dir.vol.cache, dir.vol.cache.card
  {
    && Name(e) == name && Attributes(e) == 0 && FirstCluster(e) == 0 && Size(e) == 0
    && DirHandle(dir) && HasSlots(dir) && old(HasSlots(dir)) && dir.flags == old(dir.flags)
    && Sound(Slots(dir))
    && name !in old(TableMap(Slots(dir))) && !old(Full(dir))
    && TableMap(Slots(dir)) == old(TableMap(Slots(dir)))[name := e]
    && old(dir.chain) <= dir.chain && GrownIfFull(dir)
    && InSlot(dir, name, block, index) && SlotOf(Slots(dir), name) == FirstEmpty(old(Slots(dir)))
    && OneSlot(old(Slots(dir)), Slots(dir), FirstEmpty(old(Slots(dir))))
    && 0 < block < |dir.vol.disk| && UsedBlock(dir.vol.lay, dir.vol.fat, block) && !dir.vol.lay.InFat(block)
    && index < ENTRIES_PER_BLOCK && EntryAt(dir.vol.disk[block], index) == e
    && SameButEntry(dir.vol.lay, old(dir.vol.disk), dir.vol.disk, dir.chain[|old(dir.chain)|..], block, index)
  }

  /** The slot of that name is this entry of the block map. */
  ghost predicate InSlot(dir: SdFile, name: seq<byte>, block: nat, index: nat)
    requires HasSlots(dir)
    reads dir, dir.vol
  {
    var k := SlotOf(Slots(dir), name);
    k < SlotCount(dir) && block == SlotBlock(dir.vol.lay, dir.Place(), k) && index == k % ENTRIES_PER_BLOCK
  }

  /** The block of a slot is in use. */
  lemma SlotBlockUsed(dir: SdFile, k: nat)
    requires dir.vol.Valid() && DirHandle(dir) && HasSlots(dir) && k < SlotCount(dir)
    ensures 0 < SlotBlock(dir.vol.lay, dir.Place(), k) < |dir.vol.disk|
    ensures !dir.vol.lay.InFat(SlotBlock(dir.vol.lay, dir.Place(), k))
    ensures UsedBlock(dir.vol.lay, dir.vol.fat, SlotBlock(dir.vol.lay, dir.Place(), k))
  {
    var lay := dir.vol.lay;
    dir.vol.Facts();
    NthBlockPlace(lay, |dir.vol.disk|, dir.Place(), k / ENTRIES_PER_BLOCK);
    if dir.kind != Root16Dir {
      var c := lay.ClusterOf(SlotBlock(lay, dir.Place(), k));
      assert c in dir.chain;
      ChainInUse(lay, dir.vol.fat, dir.chain, c);
    }
  }

  lemma GrowthFramed(dir: SdFile, f0: seq<nat>, d0: seq<Block>, s0: seq<nat>, block: nat, index: nat)
    requires dir.vol.Valid() && Step(dir.vol.lay, f0, dir.vol.fat, s0, dir.chain) && s0 <= dir.chain
    requires SameButEntry(dir.vol.lay, d0, dir.vol.disk, dir.chain[|s0|..], block, index)
    requires InPlace(dir.vol.lay, dir.Place(), block)
          || SameElsewhere(dir.vol.lay, d0, dir.vol.disk, dir.chain[|s0|..])
    ensures Frame(dir.vol.lay, f0, dir.vol.fat, d0, dir.vol.disk, s0, dir.chain, [], [], dir.Place(), block, index)
  {
    hide SdVolume.Valid;
    dir.vol.Facts();
    FrameOfGrowth(dir.vol.lay, f0, dir.vol.fat, d0, dir.vol.disk, s0, dir.chain, dir.Place(), block, index);
  }

  /** The frame of a change of slot `k`, wherever `file` says that its entry is. */
  lemma EntryFramed(file: SdFile, dir: SdFile, f0: seq<nat>, d0: seq<Block>, s0: seq<nat>, k: nat, found: bool)
    requires dir.vol.Valid() && Step(dir.vol.lay, f0, dir.vol.fat, s0, dir.chain) && s0 <= dir.chain
    requires HasSlots(dir) && k < SlotCount(dir) && file.dirIndex == k % ENTRIES_PER_BLOCK
    requires SameButEntry(dir.vol.lay, d0, dir.vol.disk, dir.chain[|s0|..], SlotBlock(dir.vol.lay, dir.Place(), k),
                          file.dirIndex)
    requires if found then file.dirBlock == SlotBlock(dir.vol.lay, dir.Place(), k)
             else Owned(dir.vol.lay, dir.chain[|s0|..], SlotBlock(dir.vol.lay, dir.Place(), k))
    ensures Frame(dir.vol.lay, f0, dir.vol.fat, d0, dir.vol.disk, s0, dir.chain, [], [], dir.Place(),
                  SlotBlock(dir.vol.lay, dir.Place(), k), file.dirIndex)
    ensures Frame(dir.vol.lay, f0, dir.vol.fat, d0, dir.vol.disk, s0, dir.chain, [], [], dir.Place(),
                  file.dirBlock, file.dirIndex)
  {
    hide SdVolume.Valid, Frame, Step, SameButEntry, SameElsewhere, Owned, InPlace, Layout.WellFormed, Layout.ExtentOk;
    var lay, b, more := dir.vol.lay, SlotBlock(dir.vol.lay, dir.Place(), k), dir.chain[|s0|..];
    SlotInPlace(lay, |dir.vol.disk|, dir.Place(), k);
    GrowthFramed(dir, f0, d0, s0, b, file.dirIndex);
    if !found {
      EntryInOwn(lay, d0, dir.vol.disk, b, file.dirIndex, more);
      ElsewhereButEntry(lay, d0, dir.vol.disk, more, file.dirBlock, file.dirIndex);
      GrowthFramed(dir, f0, d0, s0, file.dirBlock, file.dirIndex);
    }
  }

  /** `open` from the allocation of a slot to the flush of the new entry. */
  method CreateEntry(file: SdFile, dir: SdFile, emptyFound: bool, name: seq<byte>)
    returns (ok: bool, ghost e: Entry)
    requires file != dir && file.vol == dir.vol
    requires dir.vol.Valid() && DirHandle(dir) && HasSlots(dir) && Sound(Slots(dir))
    requires |name| == 11 && name[0] != NAME_FREE && name[0] != NAME_DELETED
    requires SlotRemembered(file, dir, emptyFound, SlotCount(dir)) && SlotOf(Slots(dir), name) == SlotCount(dir)
    requires !emptyFound ==> dir.Positioned() && dir.curPosition == dir.fileSize
    requires dir.fileSize + dir.vol.lay.ClusterBytes() < SIZE_LIMIT
    modifies dir`curCluster, dir`firstCluster, dir`flags, dir`chain, dir`fileSize, file`dirIndex
    modifies dir.vol, dir.vol.cache, dir.vol.cache.card, dir.vol.cache.buffer
    ensures dir.vol.Valid()
    ensures dir.vol.cache.misused == old(dir.vol.cache.misused)
    ensures Framed(file, dir, [], [])
    ensures ok ==> FramedAt(dir, [], [], dir.vol.cache.blockNumber, file.dirIndex)
    ensures ok ==> Created(dir, name, e, dir.vol.cache.blockNumber, file.dirIndex) && dir.vol.Flushed()
    ensures ok ==> file.hasClock || e == NewEntry(name, FAT_DEFAULT_DATE, FAT_DEFAULT_TIME)
    ensures ok ==> dir.vol.cache.card.faults == old(dir.vol.cache.card.faults)
    ensures !ok && dir.vol.cache.card.faults == old(dir.vol.cache.card.faults) ==>
      && dir.vol.fat == old(dir.vol.fat) && dir.vol.disk == old(dir.vol.disk) && SameDir(dir)
      && old(Full(dir))
  {
    hide SdVolume.Valid, Layout.WellFormed, Layout.EocMin, Layout.ExtentOk, Layout.InFat, FileChain, Capacity;
    hide DirHandle, SameElsewhere, SameButEntry, Step, UniqueNames, FreeTail, SlotRemembered, TableMap, RoomFor;
    hide FirstEmpty, SlotOf, Table, UsedBlock, OneSlot, Extended, Frame, Owned, SdFile.Positioned, Name, Attributes;
    hide FirstCluster, Size, EntryAt, NewEntry;
    ghost var t, d, fat, chain0 := Slots(dir), dir.vol.disk, dir.vol.fat, dir.chain;
    e := ZERO_ENTRY;
    Lookup(t, name);
    ok := CacheNewSlot(file, dir, emptyFound, name);
    ElsewhereButEntry(dir.vol.lay, d, dir.vol.disk, dir.chain[|chain0|..], file.dirBlock, file.dirIndex);
    GrowthFramed(dir, fat, d, chain0, file.dirBlock, file.dirIndex);
    if !ok {
      return false, e;
    }
    e := StoreEntry(file, dir, name, emptyFound, t, d, fat, chain0);
    ok := dir.vol.CacheFlush();
  }

  /** Store the entry of an empty file in the slot that is cached for it. */
  method StoreEntry(file: SdFile, dir: SdFile, name: seq<byte>, ghost found: bool,
                    ghost t0: seq<Entry>, ghost d0: seq<Block>, ghost f0: seq<nat>, ghost s0: seq<nat>)
    returns (ghost e: Entry)
    requires file.vol == dir.vol && dir.vol.Valid() && DirHandle(dir) && HasSlots(dir)
    requires |name| == 11 && name[0] != NAME_FREE && name[0] != NAME_DELETED && SlotOf(t0, name) == |t0|
    requires RoomFor(t0, Slots(dir), name) && Extended(t0, Slots(dir))
    requires dir.vol.cache.dirty && file.dirIndex == FirstEmpty(Slots(dir)) % ENTRIES_PER_BLOCK
    requires dir.vol.cache.blockNumber == SlotBlock(dir.vol.lay, dir.Place(), FirstEmpty(Slots(dir)))
    requires Step(dir.vol.lay, f0, dir.vol.fat, s0, dir.chain) && s0 <= dir.chain
    requires SameElsewhere(dir.vol.lay, d0, dir.vol.disk, dir.chain[|s0|..])
    requires if found then file.dirBlock == dir.vol.cache.blockNumber
             else Owned(dir.vol.lay, dir.chain[|s0|..], dir.vol.cache.blockNumber)
    modifies dir.vol`disk, dir.vol.cache.buffer
    ensures dir.vol.Valid() && DirHandle(dir) && HasSlots(dir) && Sound(Slots(dir))
    ensures dir.vol.cache.misused == old(dir.vol.cache.misused)
    ensures Name(e) == name && Attributes(e) == 0 && FirstCluster(e) == 0 && Size(e) == 0
    ensures file.hasClock || e == NewEntry(name, FAT_DEFAULT_DATE, FAT_DEFAULT_TIME)
    ensures TableMap(Slots(dir)) == TableMap(t0)[name := e]
    ensures SlotOf(Slots(dir), name) == FirstEmpty(t0) && OneSlot(t0, Slots(dir), FirstEmpty(t0))
    ensures var block := dir.vol.cache.blockNumber;
      && InSlot(dir, name, block, file.dirIndex)
      && 0 < block < |dir.vol.disk| && UsedBlock(dir.vol.lay, dir.vol.fat, block) && !dir.vol.lay.InFat(block)
      && file.dirIndex < ENTRIES_PER_BLOCK && EntryAt(dir.vol.disk[block], file.dirIndex) == e
      && SameButEntry(dir.vol.lay, d0, dir.vol.disk, dir.chain[|s0|..], block, file.dirIndex)
      && Frame(dir.vol.lay, f0, dir.vol.fat, d0, dir.vol.disk, s0, dir.chain, [], [], dir.Place(), block, file.dirIndex)
    ensures Frame(dir.vol.lay, f0, dir.vol.fat, d0, dir.vol.disk, s0, dir.chain, [], [], dir.Place(),
                  file.dirBlock, file.dirIndex)
  {
    hide SdVolume.Valid, Layout.WellFormed, Layout.EocMin, Layout.ExtentOk, Layout.InFat, FileChain, Capacity;
    hide DirHandle, SameElsewhere, SameButEntry, Step, UniqueNames, FreeTail, TableMap, FirstEmpty, SlotOf, Table;
    hide UsedBlock, OneSlot, Extended, Frame, Owned, SdFile.Positioned, Name, Attributes, FirstCluster, Size, EntryAt;
    hide NewEntry;
    ghost var d1, t1, k := dir.vol.disk, Slots(dir), FirstEmpty(Slots(dir));
    var date, time := FAT_DEFAULT_DATE, FAT_DEFAULT_TIME;
    if file.hasClock {
      date, time := *, *;
    }
    var entry := NewEntry(name, date, time);
    e := entry;
    NewEntryFields(name, date, time);
    NewEntryLive(name, date, time);
    WriteSlot(dir, k, file.dirIndex, entry);
    Insert(t1, e);
    SlotBlockUsed(dir, k);
    ElsewhereButEntry(dir.vol.lay, d0, d1, dir.chain[|s0|..], dir.vol.cache.blockNumber, file.dirIndex);
    SameButEntryWiden(dir.vol.lay, d0, d1, dir.vol.disk, dir.chain[|s0|..], dir.vol.cache.blockNumber, file.dirIndex);
    ExtendedThenOne(t0, t1, k, e);
    EntryFramed(file, dir, f0, d0, s0, k, found);
  }

  lemma NewEntryLive(name: seq<byte>, date: nat, time: nat)
    requires |name| == 11 && name[0] != NAME_FREE && name[0] != NAME_DELETED
    ensures IsLive(NewEntry(name, date, time))
  {
  }

  // ---------------------------------------------------------------- open

  /** openCachedEntry: fill the handle and truncate the file if asked to. */
  method OpenCachedEntry(file: SdFile, index: nat, mode: OpenMode, ghost chain: seq<nat>) returns (ok: bool)
    requires file.vol.Valid() && file.kind == Closed && index < ENTRIES_PER_BLOCK
    requires 0 < file.vol.cache.blockNumber < |file.vol.disk| && !file.vol.lay.InFat(file.vol.cache.blockNumber)
    requires UsedBlock(file.vol.lay, file.vol.fat, file.vol.cache.blockNumber)
    requires var e := EntryAt(file.vol.disk[file.vol.cache.blockNumber], index);
      IsFileOrSubDir(e) ==> EntryFits(file.vol.lay, file.vol.fat, e, file.vol.cache.blockNumber, chain)
    modifies file, file.vol, file.vol.cache, file.vol.cache.card, file.vol.cache.buffer
    ensures file.vol.Valid() && old(file.vol.cache.blockNumber) < |old(file.vol.disk)|
    ensures file.vol.cache.misused == old(file.vol.cache.misused)
    ensures file.vol.cache.card.faults >= old(file.vol.cache.card.faults)
    ensures var e := EntryAt(old(file.vol.disk)[old(file.vol.cache.blockNumber)], index);
      && (ok ==> Openable(e, mode) && file.Ready())
      && (ok && (!mode.trunc || (IsFile(e) && Size(e) == 0)) ==>
            OpenedAs(file, e, old(file.vol.cache.blockNumber), index, mode, chain))
      && (ok && mode.trunc ==> file.kind == Normal && file.fileSize == 0 && file.curPosition == 0)
      && (ok && mode.trunc ==> file.chain == if Size(e) > 0 then [] else chain)
      && (ok && mode.trunc ==>
            file.vol.fat == if Size(e) > 0 then Freed(old(file.vol.fat), chain) else old(file.vol.fat))
      && ((IsFile(e) && Size(e) == 0) || !mode.trunc ==>
            file.vol.disk == old(file.vol.disk) && file.vol.fat == old(file.vol.fat))
      && (ok ==> file.vol.cache.card.faults == old(file.vol.cache.card.faults))
      && (!ok ==> !Openable(e, mode) || file.vol.cache.card.faults > old(file.vol.cache.card.faults))
      && (!ok && file.vol.cache.card.faults == old(file.vol.cache.card.faults) ==>
            file.vol.disk == old(file.vol.disk) && file.vol.fat == old(file.vol.fat))
    ensures ok ==> file.chain == chain || file.chain == []
    ensures !ok && file.vol.cache.card.faults == old(file.vol.cache.card.faults) && Consistent(mode) ==>
      file.kind == Closed
    ensures ok ==> file.dirBlock == old(file.vol.cache.blockNumber) && file.dirIndex == index && !file.IsRoot()
    ensures ok ==> OpenedFlags(file, mode)
    ensures (file.dirBlock == old(file.vol.cache.blockNumber) && file.dirIndex == index)
         || (file.dirBlock == old(file.dirBlock) && file.dirIndex == old(file.dirIndex)
             && file.vol.disk == old(file.vol.disk) && file.vol.fat == old(file.vol.fat))
    ensures |file.vol.disk| == |old(file.vol.disk)|
    ensures Name(EntryAt(file.vol.disk[old(file.vol.cache.blockNumber)], index))
         == Name(EntryAt(old(file.vol.disk)[old(file.vol.cache.blockNumber)], index))
    ensures Attributes(EntryAt(file.vol.disk[old(file.vol.cache.blockNumber)], index))
         == Attributes(EntryAt(old(file.vol.disk)[old(file.vol.cache.blockNumber)], index))
    ensures Confined(old(file.vol.fat), file.vol.fat, chain)
    ensures SameButEntry(file.vol.lay, old(file.vol.disk), file.vol.disk, [], old(file.vol.cache.blockNumber), index)
  {
    hide SdVolume.Valid, Layout.WellFormed, Layout.InFat, Layout.ExtentOk, Layout.EocMin, FileChain, IsChain;
    hide Capacity, Owned, UsedBlock, EntryAt, FirstCluster, Size, Attributes, HasBit, SameButEntry, EntryFits;
    hide CutFat, Content, Step, Confined, Name, SdFile.Linked, SdFile.Positioned, SdFile.EntryPlaced;
    hide SdFile.EntryAgrees;
    ghost var block := file.vol.cache.blockNumber;
    NothingReplaced(file.vol.lay, file.vol.disk, block, index);
    NothingConfined(file.vol.fat, chain);
    ok := FillHandle(file, index, mode, chain);
    if ok && mode.trunc {
      ok := TruncateOpened(file, EntryAt(file.vol.disk[block], index), block, index, mode, chain);
    }
  }

  /** Its last step: truncate the file that was just opened. */
  method TruncateOpened(file: SdFile, ghost e: Entry, ghost block: nat, ghost index: nat, mode: OpenMode,
                        ghost chain: seq<nat>)
    returns (ok: bool)
    requires file.vol.Valid() && OpenedAs(file, e, block, index, mode, chain) && mode.trunc
    requires index < ENTRIES_PER_BLOCK && block < |file.vol.disk| && e == EntryAt(file.vol.disk[block], index)
    requires IsFileOrSubDir(e) && !Denied(e, mode)
    modifies file, file.vol, file.vol.cache, file.vol.cache.card, file.vol.cache.buffer
    ensures file.vol.Valid() && |file.vol.disk| == |old(file.vol.disk)|
    ensures file.vol.cache.misused == old(file.vol.cache.misused)
    ensures file.vol.cache.card.faults >= old(file.vol.cache.card.faults)
    ensures file.dirBlock == block && file.dirIndex == index && !file.IsRoot() && OpenedFlags(file, mode)
    ensures ok ==> mode.write && file.Ready() && file.kind == Normal && file.fileSize == 0 && file.curPosition == 0
    ensures ok ==> file.chain == if Size(e) > 0 then [] else chain
    ensures ok ==> file.vol.fat == if Size(e) > 0 then Freed(old(file.vol.fat), chain) else old(file.vol.fat)
    ensures ok ==> file.vol.cache.card.faults == old(file.vol.cache.card.faults)
    ensures IsFile(e) && Size(e) == 0 ==> file.vol.disk == old(file.vol.disk) && file.vol.fat == old(file.vol.fat)
    ensures ok && IsFile(e) && Size(e) == 0 ==> OpenedAs(file, e, block, index, mode, chain)
    ensures !ok && file.vol.cache.card.faults == old(file.vol.cache.card.faults) ==>
      !mode.write && file.vol.disk == old(file.vol.disk) && file.vol.fat == old(file.vol.fat)
    ensures Name(EntryAt(file.vol.disk[block], index)) == Name(e)
    ensures Attributes(EntryAt(file.vol.disk[block], index)) == Attributes(e)
    ensures Confined(old(file.vol.fat), file.vol.fat, chain)
    ensures SameButEntry(file.vol.lay, old(file.vol.disk), file.vol.disk, [], block, index)
  {
    hide SdVolume.Valid, Layout.WellFormed, Layout.InFat, Layout.ExtentOk, Layout.EocMin, FileChain, IsChain;
    hide Capacity, Owned, UsedBlock, EntryAt, FirstCluster, Size, Attributes, SameButEntry;
    hide CutFat, Content, Step, Confined, Name;
    ghost var d := file.vol.disk;
    NothingReplaced(file.vol.lay, d, block, index);
    NothingConfined(file.vol.fat, chain);
    ghost var fat := file.vol.fat;
    ok := file.Truncate(0);
    SameLength(file.vol.lay, d, file.vol.disk, [], block, index);
    if ok && Size(e) > 0 {
      CutAll(file.vol.lay, fat, chain);
    }
  }

  lemma NothingConfined(fat: seq<nat>, own: seq<nat>)
    ensures Confined(fat, fat, own)
  {
  }

  /** The entry of that name, and the place of its slot. */
  ghost predicate NamedFits(dir: SdFile, name: seq<byte>, chain: seq<nat>)
    requires HasSlots(dir)
    reads dir, dir.vol
  {
    var k := SlotOf(Slots(dir), name);
    k < SlotCount(dir) && IsFileOrSubDir(Slots(dir)[k]) ==>
      EntryFits(dir.vol.lay, dir.vol.fat, Slots(dir)[k], SlotBlock(dir.vol.lay, dir.Place(), k), chain)
  }

  /** The only reasons other than I/O errors for `open` by name to fail. */
  ghost predicate OpenRefused(dir: SdFile, name: seq<byte>, mode: OpenMode)
    requires HasSlots(dir)
    reads dir, dir.vol
  {
    if name in TableMap(Slots(dir)) then (mode.creat && mode.excl) || !Openable(TableMap(Slots(dir))[name], mode)
    else !(mode.creat && mode.write) || Full(dir)
  }

  /** What `open` by name does, for a name that the directory has. */
  twostate predicate OpenedExisting(file: SdFile, dir: SdFile, name: seq<byte>, mode: OpenMode, chain: seq<nat>)
    reads file, file.vol, dir, dir.vol
  {
    && old(HasSlots(dir)) && old(SlotOf(Slots(dir), name) < SlotCount(dir))
    && var k := old(SlotOf(Slots(dir), name));
    && var e := old(Slots(dir))[k];
    && !(mode.creat && mode.excl) && Openable(e, mode) && file.Ready()
    && file.dirBlock == old(SlotBlock(dir.vol.lay, dir.Place(), k)) && file.dirIndex == k % ENTRIES_PER_BLOCK
    && file.EntryOnDisk() && Attributes(file.DiskEntry()) == Attributes(e) && OpenedFlags(file, mode)
    && (!mode.trunc ==>
          && OpenedAs(file, e, old(SlotBlock(dir.vol.lay, dir.Place(), k)), k % ENTRIES_PER_BLOCK, mode, chain)
          && file.vol.disk == old(file.vol.disk) && file.vol.fat == old(file.vol.fat)
          && DirHandle(dir) && HasSlots(dir) && SlotCount(dir) == old(SlotCount(dir))
          && dir.Place() == old(dir.Place()) && dir.chain == old(dir.chain))
    && (mode.trunc ==> file.kind == Normal && file.fileSize == 0 && file.curPosition == 0)
    && (mode.trunc ==> file.chain == if Size(e) > 0 then [] else chain)
    && (mode.trunc ==> file.vol.fat == if Size(e) > 0 then Freed(old(file.vol.fat), chain) else old(file.vol.fat))
  }

  /** The directory is still a sound handle, and its map has changed only under this name. */
  twostate predicate OnlyNamed(dir: SdFile, name: seq<byte>)
    reads dir, dir.vol
  {
    && old(HasSlots(dir)) && DirHandle(dir) && HasSlots(dir) && Sound(Slots(dir)) && SameDir(dir)
    && dir.Place() == old(dir.Place()) && SlotCount(dir) == old(SlotCount(dir))
    && var k := old(SlotOf(Slots(dir), name));
    && k < SlotCount(dir) && OneSlot(old(Slots(dir)), Slots(dir), k) && SlotOf(Slots(dir), name) == k
    && TableMap(Slots(dir)) == old(TableMap(Slots(dir)))[name := Slots(dir)[k]]
  }

  /** Nothing of the directory handle has changed but its position. */
  twostate predicate SameDir(dir: SdFile)
    reads dir
  {
    && dir.flags == old(dir.flags) && dir.kind == old(dir.kind) && dir.firstCluster == old(dir.firstCluster)
    && dir.fileSize == old(dir.fileSize) && dir.chain == old(dir.chain)
  }

  /** A mode that asks for nothing impossible: only a file opened for writing can be truncated. */
  predicate Consistent(mode: OpenMode) { mode.trunc ==> mode.write }

  /** Opening for reading changes nothing of the directory but its position. */
  twostate predicate DirUntouched(dir: SdFile, mode: OpenMode)
    reads dir, dir.vol, dir.vol.cache, dir.vol.cache.card
  {
    && dir.flags == old(dir.flags) && dir.chain == old(dir.chain) && dir.firstCluster == old(dir.firstCluster)
    && dir.vol.cache.card.faults >= old(dir.vol.cache.card.faults)
    && (!mode.trunc ==>
          && dir.vol.disk == old(dir.vol.disk) && dir.vol.fat == old(dir.vol.fat)
          && old(HasSlots(dir)) && DirHandle(dir) && HasSlots(dir)
          && SlotCount(dir) == old(SlotCount(dir)) && dir.Place() == old(dir.Place()))
  }

  /** What `open` by name does, for a name that is new: it creates an empty file and opens it. */
  twostate predicate OpenedNew(file: SdFile, dir: SdFile, name: seq<byte>, mode: OpenMode)
    reads file, file.vol, dir, dir.vol, dir.vol.cache, dir.vol.cache.card
  {
    && mode.creat && mode.write && file.Ready()
    && file.kind == Normal && file.fileSize == 0 && file.firstCluster == 0 && file.chain == [] && file.curPosition == 0
    && file.flags == Flags(mode.read, mode.write, mode.append, mode.sync, false, false)
    && file.EntryOnDisk() && Created(dir, name, file.DiskEntry(), file.dirBlock, file.dirIndex)
  }

  /** `open` by name, after the name was encoded. */
  method OpenNamed(file: SdFile, dir: SdFile, name: seq<byte>, mode: OpenMode, ghost chain: seq<nat>) returns (ok: bool)
    requires file != dir && file.vol == dir.vol && file.kind == Closed
    requires dir.vol.Valid() && DirHandle(dir) && dir.flags.read && HasSlots(dir) && FreeTail(Slots(dir))
    requires mode.creat ==> UniqueNames(Slots(dir)) && dir.fileSize + dir.vol.lay.ClusterBytes() < SIZE_LIMIT
    requires |name| == 11 && name[0] != NAME_FREE && name[0] != NAME_DELETED
    requires !(mode.creat && mode.excl) ==> NamedFits(dir, name, chain)
    modifies file, dir`curCluster, dir`curPosition, dir`firstCluster, dir`flags, dir`chain, dir`fileSize
    modifies dir.vol, dir.vol.cache, dir.vol.cache.card, dir.vol.cache.buffer
    ensures dir.vol.Valid()
    ensures dir.vol.cache.misused == old(dir.vol.cache.misused)
    ensures ok ==> dir.vol.cache.card.faults == old(dir.vol.cache.card.faults)
    ensures ok && name in old(TableMap(Slots(dir))) ==> OpenedExisting(file, dir, name, mode, chain)
    ensures ok && name !in old(TableMap(Slots(dir))) ==> OpenedNew(file, dir, name, mode)
    ensures Disjoint(chain, old(dir.chain)) ==> Framed(file, dir, chain, if ok then file.chain else [])
    ensures Disjoint(chain, old(dir.chain)) && name in old(TableMap(Slots(dir))) && old(Sound(Slots(dir))) ==>
      OnlyNamed(dir, name)
    ensures !mode.creat ==> DirUntouched(dir, mode)
    ensures ok ==> !old(OpenRefused(dir, name, mode))
    ensures !ok && dir.vol.cache.card.faults == old(dir.vol.cache.card.faults) ==>
      && old(OpenRefused(dir, name, mode)) && dir.vol.disk == old(dir.vol.disk) && dir.vol.fat == old(dir.vol.fat)
      && SameDir(dir) && (Consistent(mode) ==> file.kind == Closed)
  {
    hide SdVolume.Valid, Layout.WellFormed, Layout.InFat, Layout.ExtentOk, Layout.EocMin, FileChain, IsChain;
    hide Capacity, UsedBlock, EntryFits, OpenedAs, Step, Confined, SameButEntry, DirHandle, FreeTail, UniqueNames;
    hide SdFile.Linked;
    hide TableMap, SlotOf, FirstEmpty, Table, SlotRemembered, Denied, SdFile.Positioned, SdFile.Ready;
    hide Name, FirstCluster, Size, Attributes, EntryAt, IsFileOrSubDir;
    hide OneSlot, Frame;
    ghost var d, fat, chain0 := dir.vol.disk, dir.vol.fat, dir.chain;
    Lookup(Slots(dir), name);
    var r := FindEntry(file, dir, name);
    NothingFramed(dir, chain);
    NothingNamed(Slots(dir), name);
    match r {
      case IoError => return false;
      case Found(index) =>
        if mode.creat && mode.excl {
          return false;
        }
        ok := OpenFoundEntry(file, dir, index, name, mode, chain);
      case NotFound(emptyFound) =>
        if !(mode.creat && mode.write) {
          return false;
        }
        ok := OpenNewEntry(file, dir, emptyFound, name, mode);
        FrameWiden(dir.vol.lay, fat, dir.vol.fat, d, dir.vol.disk, chain0, dir.chain, chain,
                   if ok then file.chain else [], dir.Place(), file.dirBlock, file.dirIndex);
    }
  }

  lemma NothingFramed(dir: SdFile, own: seq<nat>)
    requires dir.vol.Valid() && DirHandle(dir)
    ensures FileChain(dir.vol.lay, dir.vol.fat, dir.firstCluster, dir.chain)
    ensures forall block: nat, index: nat ::
      Frame(dir.vol.lay, dir.vol.fat, dir.vol.fat, dir.vol.disk, dir.vol.disk, dir.chain, dir.chain, own, [],
            dir.Place(), block, index)
  {
    DirInUse(dir.vol.lay, dir.vol.fat, dir.firstCluster, dir.chain);
    forall block: nat, index: nat
      ensures Frame(dir.vol.lay, dir.vol.fat, dir.vol.fat, dir.vol.disk, dir.vol.disk, dir.chain, dir.chain, own, [],
                    dir.Place(), block, index)
    {
      NoFrame(dir.vol.lay, dir.vol.fat, dir.vol.disk, dir.chain, own, [], dir.Place(), block, index);
    }
  }

  lemma NothingNamed(t: seq<Entry>, name: seq<byte>)
    ensures name in TableMap(t) ==>
      SlotOf(t, name) < |t| && OneSlot(t, t, SlotOf(t, name)) && TableMap(t) == TableMap(t)[name := t[SlotOf(t, name)]]
  {
    Lookup(t, name);
  }

  method OpenFoundEntry(file: SdFile, dir: SdFile, index: nat, ghost name: seq<byte>, mode: OpenMode,
                        ghost chain: seq<nat>)
    returns (ok: bool)
    requires file != dir && file.vol == dir.vol && file.kind == Closed && !(mode.creat && mode.excl)
    requires dir.vol.Valid() && DirHandle(dir) && HasSlots(dir)
    requires SlotOf(Slots(dir), name) < SlotCount(dir) && SlotCached(dir, SlotOf(Slots(dir), name), index)
    requires NamedFits(dir, name, chain)
    modifies file, dir.vol, dir.vol.cache, dir.vol.cache.card, dir.vol.cache.buffer
    ensures dir.vol.Valid() && dir.vol.cache.card.faults >= old(dir.vol.cache.card.faults)
    ensures dir.vol.cache.misused == old(dir.vol.cache.misused)
    ensures !mode.trunc ==> dir.vol.disk == old(dir.vol.disk) && dir.vol.fat == old(dir.vol.fat)
    ensures !mode.trunc ==> DirHandle(dir) && HasSlots(dir)
    ensures ok ==> OpenedExisting(file, dir, name, mode, chain)
    ensures Disjoint(chain, old(dir.chain)) ==> Framed(file, dir, chain, if ok then file.chain else [])
    ensures Disjoint(chain, old(dir.chain)) && old(Sound(Slots(dir))) ==> OnlyNamed(dir, name)
    ensures ok ==> dir.vol.cache.card.faults == old(dir.vol.cache.card.faults)
    ensures var e := old(Slots(dir))[old(SlotOf(Slots(dir), name))];
      && (ok ==> Openable(e, mode))
      && (!ok && dir.vol.cache.card.faults == old(dir.vol.cache.card.faults) ==>
            && !Openable(e, mode) && dir.vol.disk == old(dir.vol.disk) && dir.vol.fat == old(dir.vol.fat)
            && (Consistent(mode) ==> file.kind == Closed))
  {
    hide SdVolume.Valid, Layout.WellFormed, Layout.InFat, Layout.ExtentOk, Layout.EocMin, FileChain, IsChain;
    hide Capacity, UsedBlock, EntryFits, OpenedAs, Step, Confined, SameButEntry, FreeTail, UniqueNames;
    hide SlotOf, Denied, SdFile.Positioned, SdFile.Ready, Name, FirstCluster, Size, Attributes, EntryAt;
    hide OneSlot, Frame, TableMap, Table;
    ghost var k, t, d, fat, place := SlotOf(Slots(dir), name), Slots(dir), dir.vol.disk, dir.vol.fat, dir.Place();
    SlotBlockUsed(dir, k);
    assert Slots(dir)[k] == SlotAt(dir.vol.lay, dir.vol.disk, dir.Place(), k);
    ok := OpenCachedEntry(file, index, mode, chain);
    if ok {
      ReadyEntry(file);
    }
    if Disjoint(chain, dir.chain) {
      OpenedFramed(file, dir, fat, d, k, chain, if ok then file.chain else []);
      if Sound(t) {
        FoundInTable(dir, fat, d, k, chain);
      }
    }
  }

  lemma ReadyEntry(file: SdFile)
    requires file.Ready() && !file.IsRoot()
    ensures file.EntryOnDisk()
  {
  }

  /** The frame of an operation on the file of slot `k`. */
  lemma SlotFramed(dir: SdFile, f0: seq<nat>, d0: seq<Block>, k: nat, own: seq<nat>, after: seq<nat>, touched: seq<nat>)
    requires dir.vol.Valid() && FileChain(dir.vol.lay, f0, dir.firstCluster, dir.chain) && Disjoint(own, dir.chain)
    requires HasSlots(dir) && k < SlotCount(dir)
    requires Confined(f0, dir.vol.fat, own) && Taken(f0, own, after) && Taken(f0, own, touched)
    requires SameButEntry(dir.vol.lay, d0, dir.vol.disk, touched, SlotBlock(dir.vol.lay, dir.Place(), k),
                          k % ENTRIES_PER_BLOCK)
    ensures FileChain(dir.vol.lay, dir.vol.fat, dir.firstCluster, dir.chain)
    ensures Frame(dir.vol.lay, f0, dir.vol.fat, d0, dir.vol.disk, dir.chain, dir.chain, own, after, dir.Place(),
                  SlotBlock(dir.vol.lay, dir.Place(), k), k % ENTRIES_PER_BLOCK)
  {
    hide SdVolume.Valid, Layout.WellFormed, Layout.ExtentOk, SlotBlock, InPlace, SameButEntry, SameElsewhere;
    hide Confined, Taken;
    var lay := dir.vol.lay;
    SlotInPlace(lay, |dir.vol.disk|, dir.Place(), k);
    DisjointSwap(own, dir.chain);
    ChainSurvives(lay, f0, dir.vol.fat, dir.firstCluster, dir.chain, own);
    DirInUse(lay, f0, dir.firstCluster, dir.chain);
    FrameOfFile(lay, f0, dir.vol.fat, d0, dir.vol.disk, dir.chain, own, after, touched, dir.Place(),
                SlotBlock(lay, dir.Place(), k), k % ENTRIES_PER_BLOCK);
  }

  /** The frame of opening, truncating or removing the file of slot `k`. */
  lemma OpenedFramed(file: SdFile, dir: SdFile, f0: seq<nat>, d0: seq<Block>, k: nat, own: seq<nat>, after: seq<nat>)
    requires dir.vol.Valid() && FileChain(dir.vol.lay, f0, dir.firstCluster, dir.chain) && Disjoint(own, dir.chain)
    requires HasSlots(dir) && k < SlotCount(dir) && Confined(f0, dir.vol.fat, own) && (after == own || after == [])
    requires SameButEntry(dir.vol.lay, d0, dir.vol.disk, [], SlotBlock(dir.vol.lay, dir.Place(), k),
                          k % ENTRIES_PER_BLOCK)
    requires (file.dirBlock == SlotBlock(dir.vol.lay, dir.Place(), k) && file.dirIndex == k % ENTRIES_PER_BLOCK)
          || (dir.vol.disk == d0 && dir.vol.fat == f0)
    ensures FileChain(dir.vol.lay, dir.vol.fat, dir.firstCluster, dir.chain)
    ensures Frame(dir.vol.lay, f0, dir.vol.fat, d0, dir.vol.disk, dir.chain, dir.chain, own, after, dir.Place(),
                  file.dirBlock, file.dirIndex)
  {
    hide SdVolume.Valid, SlotBlock;
    SlotFramed(dir, f0, d0, k, own, after, []);
    if dir.vol.disk == d0 && dir.vol.fat == f0 {
      DirInUse(dir.vol.lay, f0, dir.firstCluster, dir.chain);
      NoFrame(dir.vol.lay, f0, d0, dir.chain, own, after, dir.Place(), file.dirBlock, file.dirIndex);
    }
  }

  lemma DirInUse(lay: Layout, fat: seq<nat>, first: nat, s: seq<nat>)
    requires FileChain(lay, fat, first, s)
    ensures InUseBy(fat, s)
  {
    forall c | c in s
      ensures c < |fat| && fat[c] != 0
    {
      ChainInUse(lay, fat, s, c);
    }
  }

  /** An operation on the file of slot `k` that does not rename it changes only that slot. */
  lemma FoundInTable(dir: SdFile, f0: seq<nat>, d0: seq<Block>, k: nat, own: seq<nat>)
    requires dir.vol.Valid() && FileChain(dir.vol.lay, f0, dir.firstCluster, dir.chain) && Disjoint(own, dir.chain)
    requires HasSlots(dir) && k < SlotCount(dir) && |d0| == |dir.vol.disk| && Confined(f0, dir.vol.fat, own)
    requires SameButEntry(dir.vol.lay, d0, dir.vol.disk, [], SlotBlock(dir.vol.lay, dir.Place(), k),
                          k % ENTRIES_PER_BLOCK)
    requires Sound(Table(dir.vol.lay, d0, dir.Place(), SlotCount(dir)))
    requires IsLive(Table(dir.vol.lay, d0, dir.Place(), SlotCount(dir))[k])
    requires Name(SlotAt(dir.vol.lay, dir.vol.disk, dir.Place(), k))
          == Name(Table(dir.vol.lay, d0, dir.Place(), SlotCount(dir))[k])
    ensures FileChain(dir.vol.lay, dir.vol.fat, dir.firstCluster, dir.chain)
    ensures var t := Table(dir.vol.lay, d0, dir.Place(), SlotCount(dir));
      && OneSlot(t, Slots(dir), k) && Sound(Slots(dir))
      && SlotOf(t, Name(t[k])) == k == SlotOf(Slots(dir), Name(t[k]))
      && TableMap(Slots(dir)) == TableMap(t)[Name(t[k]) := Slots(dir)[k]]
  {
    hide SdVolume.Valid, Layout.WellFormed, Layout.ExtentOk, Layout.BlockCount, SlotBlock, SlotAt, Table, Sound;
    hide TableMap, SlotOf, Confined, SameButEntry, Name, IsLive;
    FileStepInDir(dir.vol.lay, f0, dir.vol.fat, d0, dir.vol.disk, dir.Place(), dir.firstCluster, dir.chain,
                  SlotCount(dir), k, own, []);
  }

  method OpenNewEntry(file: SdFile, dir: SdFile, emptyFound: bool, name: seq<byte>, mode: OpenMode) returns (ok: bool)
    requires file != dir && file.vol == dir.vol && file.kind == Closed && mode.creat && mode.write
    requires dir.vol.Valid() && DirHandle(dir) && HasSlots(dir) && Sound(Slots(dir))
    requires |name| == 11 && name[0] != NAME_FREE && name[0] != NAME_DELETED
    requires SlotRemembered(file, dir, emptyFound, SlotCount(dir)) && SlotOf(Slots(dir), name) == SlotCount(dir)
    requires !emptyFound ==> dir.Positioned() && dir.curPosition == dir.fileSize
    requires dir.fileSize + dir.vol.lay.ClusterBytes() < SIZE_LIMIT
    modifies file, dir`curCluster, dir`firstCluster, dir`flags, dir`chain, dir`fileSize
    modifies dir.vol, dir.vol.cache, dir.vol.cache.card, dir.vol.cache.buffer
    ensures dir.vol.Valid() && Framed(file, dir, [], if ok then file.chain else [])
    ensures dir.vol.cache.misused == old(dir.vol.cache.misused)
    ensures ok ==> OpenedNew(file, dir, name, mode) && dir.vol.cache.card.faults == old(dir.vol.cache.card.faults)
    ensures !ok && dir.vol.cache.card.faults == old(dir.vol.cache.card.faults) ==>
      && old(Full(dir)) && dir.vol.disk == old(dir.vol.disk) && dir.vol.fat == old(dir.vol.fat)
      && SameDir(dir) && (Consistent(mode) ==> file.kind == Closed)
  {
    hide SdVolume.Valid, Layout.WellFormed, Layout.InFat, Layout.ExtentOk, Layout.EocMin, FileChain, IsChain;
    hide Capacity, UsedBlock, EntryFits, Step, Confined, SameButEntry, SlotRemembered, TableMap, SlotOf;
    hide Name, FirstCluster, Size, Attributes, EntryAt, Sound, Frame, OneSlot;
    hide Full, SdFile.Positioned, Table, SlotBlock, FirstEmpty, FreeTail, UniqueNames;
    ghost var e;
    ok, e := CreateEntry(file, dir, emptyFound, name);
    if ok {
      NewFits(dir.vol.lay, dir.vol.fat, e, dir.vol.cache.blockNumber);
      ok := OpenCachedEntry(file, file.dirIndex, mode, []);
    }
  }

  /** An empty entry describes a sound file without clusters. */
  lemma NewFits(lay: Layout, fat: seq<nat>, e: Entry, block: nat)
    requires Attributes(e) == 0 && FirstCluster(e) == 0 && Size(e) == 0
    ensures EntryFits(lay, fat, e, block, []) && IsFile(e)
  {
  }

  /** open by name */
  method Open(file: SdFile, dir: SdFile, str: seq<byte>, illegal: set<byte>, mode: OpenMode, ghost chain: seq<nat>)
    returns (ok: bool)
    requires file != dir && file.vol == dir.vol && 0 !in str
    requires dir.vol.Valid() && DirHandle(dir) && dir.flags.read && HasSlots(dir) && FreeTail(Slots(dir))
    requires mode.creat ==> UniqueNames(Slots(dir)) && dir.fileSize + dir.vol.lay.ClusterBytes() < SIZE_LIMIT
    requires IsName83(str, illegal) && !(mode.creat && mode.excl) ==> NamedFits(dir, Encode(str), chain)
    modifies file, dir`curCluster, dir`curPosition, dir`firstCluster, dir`flags, dir`chain, dir`fileSize
    modifies dir.vol, dir.vol.cache, dir.vol.cache.card, dir.vol.cache.buffer
    ensures dir.vol.Valid()
    ensures dir.vol.cache.misused == old(dir.vol.cache.misused)
    ensures ok ==> old(file.kind) == Closed && IsName83(str, illegal)
    ensures ok ==> dir.vol.cache.card.faults == old(dir.vol.cache.card.faults)
    ensures ok && Encode(str) in old(TableMap(Slots(dir))) ==> OpenedExisting(file, dir, Encode(str), mode, chain)
    ensures ok && Encode(str) !in old(TableMap(Slots(dir))) ==> OpenedNew(file, dir, Encode(str), mode)
    ensures Disjoint(chain, old(dir.chain)) ==> Framed(file, dir, chain, if ok then file.chain else [])
    ensures IsName83(str, illegal) && Disjoint(chain, old(dir.chain)) && old(Sound(Slots(dir))) ==>
      Encode(str) in old(TableMap(Slots(dir))) && old(file.kind) == Closed ==> OnlyNamed(dir, Encode(str))
    ensures !mode.creat ==> DirUntouched(dir, mode)
    ensures ok ==> !old(OpenRefused(dir, Encode(str), mode))
    ensures !ok && old(file.kind) == Closed && dir.vol.cache.card.faults == old(dir.vol.cache.card.faults) ==>
      && (IsName83(str, illegal) ==> old(OpenRefused(dir, Encode(str), mode)))
      && dir.vol.disk == old(dir.vol.disk) && dir.vol.fat == old(dir.vol.fat)
      && SameDir(dir) && (Consistent(mode) ==> file.kind == Closed)
  {
    hide SdVolume.Valid, FreeTail, UniqueNames, TableMap, SlotOf, IsName83, Encode, Table, Layout.WellFormed;
    hide Layout.ExtentOk, OpenedAs, EntryFits, SdFile.Ready, Name, FirstCluster, Size, Attributes, EntryAt;
    hide IsFileOrSubDir, Denied, SameButEntry, UsedBlock, FileChain, Capacity, SdFile.Linked, SdFile.Positioned;
    hide SdFile.EntryOnDisk, SlotBlock, Frame, OneSlot;
    NothingFramed(dir, chain);
    if file.kind != Closed {
      return false;
    }
    var dname := new byte[11];
    ok := Make83Name(str, illegal, dname);
    if !ok {
      return false;
    }
    EncodedFirstByte(str, illegal);
    ok := OpenNamed(file, dir, dname[..], mode, chain);
  }

  // ---------------------------------------------------------------- openRoot

  /** openRoot */
  method OpenRoot(file: SdFile, ghost chain: seq<nat>) returns (ok: bool)
    requires file.vol.Valid()
    requires file.vol.lay.fatType == 32 ==>
      && IsChain(file.vol.lay, file.vol.fat, chain) && chain[0] == file.vol.lay.rootDirStart
      && ChainBytes(file.vol.lay, |chain|) < SIZE_LIMIT
    modifies file, file.vol.cache, file.vol.cache.card, file.vol.cache.buffer
    ensures file.vol.Valid()
    ensures file.vol.cache.misused == old(file.vol.cache.misused)
    ensures ok ==>
      && old(file.kind) == Closed && file.IsRoot() && file.Ready() && DirHandle(file) && HasSlots(file)
      && file.flags == Flags(true, false, false, false, false, false) && file.curPosition == 0
      && (file.vol.lay.fatType == 16 ==> file.kind == Root16Dir && SlotCount(file) == file.vol.lay.rootDirEntryCount)
      && (file.vol.lay.fatType == 32 ==> file.kind == Root32Dir && file.chain == chain)
      && file.vol.cache.card.faults == old(file.vol.cache.card.faults)
    ensures !ok && old(file.kind) == Closed ==> file.vol.cache.card.faults > old(file.vol.cache.card.faults)
  {
    hide SdVolume.Valid, IsChain, ChainBytes, EocAboveClusters, Layout.EocMin, Layout.WellFormed, SdFile.Ready;
    hide DirHandle, HasSlots;
    if file.kind != Closed {
      return false;
    }
    var vol := file.vol;
    vol.Facts();
    if vol.lay.fatType == 16 {
      file.kind := Root16Dir;
      file.firstCluster := 0;
      file.fileSize := ENTRY_SIZE * vol.lay.rootDirEntryCount;
      file.chain := [];
    } else {
      var size;
      RootChain(vol.lay, vol.fat, chain);
      file.kind := Root32Dir;
      file.firstCluster := vol.lay.rootDirStart;
      ChainPasses(vol.lay, vol.fat, chain);
      ok, size := vol.ChainSize(file.firstCluster, chain);
      if !ok {
        return false;
      }
      DirSize(vol.lay, chain);
      file.fileSize := size;
      file.chain := chain;
    }
    file.flags := Flags(true, false, false, false, false, false);
    file.curCluster, file.curPosition := 0, 0;
    file.dirBlock, file.dirIndex := 0, 0;
    RootOpened(file);
    return true;
  }

  /** A root directory opened with the size of its slots. */
  lemma RootOpened(file: SdFile)
    requires file.vol.Valid() && file.IsRoot() && (file.kind == Root16Dir <==> file.vol.lay.fatType == 16)
    requires file.kind == Root16Dir ==>
      file.firstCluster == 0 && file.chain == [] && file.fileSize == ENTRY_SIZE * file.vol.lay.rootDirEntryCount
    requires file.kind == Root32Dir ==>
      && IsChain(file.vol.lay, file.vol.fat, file.chain) && file.firstCluster == file.chain[0]
      && file.fileSize == ENTRY_SIZE * (ENTRIES_PER_BLOCK * file.vol.lay.BlockCount(Clusters(file.chain))) < SIZE_LIMIT
    requires file.curCluster == file.curPosition == 0 && !file.flags.dirDirty && !file.flags.unbuffered
    ensures file.Ready() && DirHandle(file) && HasSlots(file)
  {
    hide SdVolume.Valid, EocAboveClusters, Layout.EocMin;
    file.vol.Facts();
    SlotsOk(file);
  }

  lemma RootChain(lay: Layout, fat: seq<nat>, chain: seq<nat>)
    requires IsChain(lay, fat, chain)
    ensures chain != [] && chain[0] != 0
  {
  }
}
