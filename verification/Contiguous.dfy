/** Contiguous files: contiguousRange and createContiguous. */
module Contiguous {
  import opened Bytes
  import opened Bits
  import opened VolumeLayout
  import opened Device
  import opened Chains
  import opened Allocation
  import opened FileData
  import opened DirEntry
  import opened DirTable
  import opened DirOnDisk
  import opened Names
  import opened Volume
  import opened File
  import opened Directories
  import opened Removal
  import opened Filing
  import opened Frames

  /** Each of the clusters first .. c - 1 is linked to the next one. */
  predicate Ascending(fat: seq<nat>, first: nat, c: nat) {
    forall b {:trigger fat[b]} :: first <= b < c ==> b < |fat| && fat[b] == b + 1
  }

  /** The clusters first .. first + n - 1 are linked in ascending order, and the last one has an end mark. */
  predicate RunEnds(lay: Layout, fat: seq<nat>, first: nat, n: nat) {
    n > 0 && first + n <= |fat| && Ascending(fat, first, first + n - 1) && lay.IsEoc(fat[first + n - 1])
  }

  /** Behind cluster 1, which no chain has, this says that they are a chain. */
  lemma RunIsChain(lay: Layout, fat: seq<nat>, first: nat, n: nat)
    requires |fat| == lay.clusterCount + 2 && first >= 2
    ensures RunEnds(lay, fat, first, n) <==> IsChain(lay, fat, Run(first, n))
  {
    var s := Run(first, n);
    if RunEnds(lay, fat, first, n) {
      assert forall i :: 0 <= i < n ==> lay.IsCluster(s[i]);
    }
    if IsChain(lay, fat, s) {
      assert lay.IsCluster(s[n - 1]);
      forall b | first <= b < first + n - 1
        ensures b < |fat| && fat[b] == b + 1
      {
        assert s[b - first] == b && s[b - first + 1] == b + 1;
      }
    }
  }

  /** What links c to its successor decides whether the clusters from `first` on are such a run. */
  lemma RunReaches(lay: Layout, fat: seq<nat>, first: nat, c: nat)
    requires |fat| == lay.clusterCount + 2 < lay.EocMin() && first <= c && Ascending(fat, first, c)
    ensures forall n: nat :: RunEnds(lay, fat, first, n) ==>
      n > c - first && c < |fat| && (if lay.IsEoc(fat[c]) then n == c - first + 1 else fat[c] == c + 1)
    ensures c < |fat| && lay.IsEoc(fat[c]) ==> RunEnds(lay, fat, first, c - first + 1)
  {
  }

  /** clusterStartBlock, whose sums are of 32 bits, also for the cluster number 1. */
  function StartBlock(lay: Layout, c: nat): nat
    requires c > 0
  {
    if c >= 2 then lay.ClusterStart(c) else Wrap(lay.dataStartBlock - Pow2(lay.clusterSizeShift))
  }

  /** The last block of cluster c, seen from the first block of cluster `first`. */
  lemma RunBlocks(lay: Layout, size: nat, first: nat, c: nat)
    requires lay.WellFormed(size) && 1 <= first <= c <= lay.clusterCount + 1
    ensures var bgn, n := StartBlock(lay, first), Shl(c - first + 1, lay.clusterSizeShift);
      && Wrap(StartBlock(lay, c) + lay.blocksPerCluster - 1) == Wrap(bgn + n - 1)
      && (first >= 2 ==> Wrap(bgn + n - 1) == bgn + n - 1)
  {
    hide Layout.WellFormed, Shl;
    LastBlock(lay, size, c);
    if first >= 2 {
      RunFromTwo(lay, first, c);
    } else {
      RunFromOne(lay, c);
    }
  }

  lemma RunFromTwo(lay: Layout, first: nat, c: nat)
    requires 2 <= first <= c
    ensures lay.ClusterStart(c) + Pow2(lay.clusterSizeShift)
         == lay.ClusterStart(first) + Shl(c - first + 1, lay.clusterSizeShift)
  {
    ShlNext(c - 2, lay.clusterSizeShift);
    ShlAdd(first - 2, c - first + 1, lay.clusterSizeShift);
  }

  lemma RunFromOne(lay: Layout, c: nat)
    requires c >= 1
    ensures Wrap(StartBlock(lay, c) + Pow2(lay.clusterSizeShift) - 1)
         == Wrap(StartBlock(lay, 1) + Shl(c, lay.clusterSizeShift) - 1)
  {
    hide Shl, Wrap;
    var k := lay.clusterSizeShift;
    FromOne(lay.dataStartBlock, Pow2(k), Shl(c, k));
    ShlNext(c - 1, k);
    if c >= 2 {
      ShlNext(c - 2, k);
    } else {
      ShlZero(k);
    }
  }

  lemma FromOne(start: nat, n: nat, m: nat)
    ensures Wrap(Wrap(start - n) + m - 1) == Wrap(start - n + m - 1)
  {
  }

  /** Clusters end before 2^32. */
  lemma LastBlock(lay: Layout, size: nat, c: nat)
    requires lay.WellFormed(size) && c <= lay.clusterCount + 1
    ensures lay.blocksPerCluster == Pow2(lay.clusterSizeShift)
    ensures c >= 2 ==> lay.ClusterStart(c) + lay.blocksPerCluster <= NO_BLOCK
  {
    if c >= 2 {
      ClusterBlock(lay, c, Pow2(lay.clusterSizeShift) - 1);
    }
  }

  /** Runs and their blocks in numbers. */
  lemma RunByNumbers(lay: Layout, size: nat, fat: seq<nat>, first: nat)
    requires lay.WellFormed(size)
    ensures forall n: nat {:trigger EndedRun(lay, fat, first, n)} {:trigger RunEnds(lay, fat, first, n)} ::
      RunEnds(lay, fat, first, n) <==> EndedRun(lay, fat, first, n)
    ensures forall n: nat {:trigger Shl(n, lay.clusterSizeShift)} ::
      Shl(n, lay.clusterSizeShift) == n * lay.blocksPerCluster
    ensures first >= 2 ==> StartBlock(lay, first) == lay.dataStartBlock + (first - 2) * lay.blocksPerCluster
  {
    forall n: nat
      ensures Shl(n, lay.clusterSizeShift) == n * lay.blocksPerCluster
    {
      ShlIsMul(n, lay.clusterSizeShift);
    }
    if first >= 2 {
      ShlIsMul(first - 2, lay.clusterSizeShift);
    }
  }

  /**
   * contiguousRange: ends on any FAT. Absent I/O errors it succeeds exactly if the clusters from the
   * first one on are linked in ascending order up to an end mark, and then returns their first and
   * last block.
   */
  method ContiguousRange(file: SdFile) returns (ok: bool, bgn: nat, end: nat)
    requires file.vol.Valid()
    modifies file.vol.cache, file.vol.cache.card, file.vol.cache.buffer
    ensures file.vol.Valid()
    ensures file.vol.cache.misused == old(file.vol.cache.misused)
    ensures ok ==> file.vol.cache.card.faults == old(file.vol.cache.card.faults)
    ensures ok ==> file.firstCluster > 0 && exists n: nat :: RunEnds(file.vol.lay, file.vol.fat, file.firstCluster, n)
    ensures forall n: nat :: file.firstCluster > 0 && RunEnds(file.vol.lay, file.vol.fat, file.firstCluster, n) ==>
      && (ok ==> bgn == StartBlock(file.vol.lay, file.firstCluster))
      && (ok ==> end == Wrap(bgn + Shl(n, file.vol.lay.clusterSizeShift) - 1))
      && (ok && file.firstCluster >= 2 ==> end + 1 == bgn + Shl(n, file.vol.lay.clusterSizeShift))
      && (!ok ==> file.vol.cache.card.faults > old(file.vol.cache.card.faults))
    // the same in numbers
    ensures ok ==> exists n: nat :: EndedRun(file.vol.lay, file.vol.fat, file.firstCluster, n)
    ensures forall n: nat :: file.firstCluster >= 2 && EndedRun(file.vol.lay, file.vol.fat, file.firstCluster, n) ==>
      && (ok ==> bgn == file.vol.lay.dataStartBlock + (file.firstCluster - 2) * file.vol.lay.blocksPerCluster)
      && (ok ==> end == bgn + n * file.vol.lay.blocksPerCluster - 1)
      && (!ok ==> file.vol.cache.card.faults > old(file.vol.cache.card.faults))
  {
    hide SdVolume.Valid, RunEnds, EndedRun, StartBlock, Layout.WellFormed, FatField;
    var vol := file.vol;
    vol.Facts();
    RunByNumbers(vol.lay, |vol.disk|, vol.fat, file.firstCluster);
    ghost var first := file.firstCluster;
    bgn, end := 0, 0;
    if file.firstCluster == 0 {
      return false, bgn, end;
    }
    var c := file.firstCluster;
    while true
      invariant vol.Valid() && 1 <= first <= c && vol.cache.card.faults == old(vol.cache.card.faults)
      invariant file.vol.cache.misused == old(file.vol.cache.misused)
      invariant Ascending(vol.fat, first, c)
      decreases |vol.fat| - c
    {
      RunReaches(vol.lay, vol.fat, first, c);
      var next;
      ok, next := vol.FatGet(c);
      if !ok {
        return false, bgn, end;
      }
      if next != c + 1 {
        if !vol.lay.IsEoc(next) {
          return false, bgn, end;
        }
        RunBlocks(vol.lay, |vol.disk|, first, c);
        bgn := StartBlock(vol.lay, file.firstCluster);
        end := Wrap(StartBlock(vol.lay, c) + vol.lay.blocksPerCluster - 1);
        return true, bgn, end;
      }
      c := c + 1;
    }
  }

  /** Allocate the clusters of a new file of `size` bytes: the middle of createContiguous. */
  method AllocateRun(file: SdFile, size: nat) returns (ok: bool)
    requires file.vol.Valid() && file.Ready() && file.kind == Normal && 0 < size < SIZE_LIMIT
    requires file.chain == [] && file.firstCluster == file.fileSize == file.curPosition == 0
    modifies file`firstCluster, file`fileSize, file`flags, file`chain
    modifies file.vol, file.vol.cache, file.vol.cache.card, file.vol.cache.buffer
    ensures file.vol.Valid() && file.Ready() && SameOutsideFat(file.vol.lay, old(file.vol.disk), file.vol.disk)
    ensures file.vol.cache.misused == old(file.vol.cache.misused)
    ensures Step(file.vol.lay, old(file.vol.fat), file.vol.fat, [], file.chain)
    ensures ok ==>
      && file.chain == Run(file.firstCluster, ClustersFor(file.vol.lay, size)) && file.chain != []
      && LowestRun(old(file.vol.fat), file.firstCluster, ClustersFor(file.vol.lay, size))
      && file.fileSize == size && file.vol.cache.card.faults == old(file.vol.cache.card.faults)
      && OnlyOf(old(file.vol.fat), file.vol.fat, file.chain)
    ensures !ok ==> file.chain == [] && file.fileSize == 0
    ensures !ok ==> file.vol.cache.card.faults >= old(file.vol.cache.card.faults)
    ensures file.flags == old(file.flags).(dirDirty := file.flags.dirDirty)
    ensures !ok && file.vol.cache.card.faults == old(file.vol.cache.card.faults) ==>
      file.vol.disk == old(file.vol.disk) && file.vol.fat == old(file.vol.fat)
      && NoRun(file.vol.fat, 2, |file.vol.fat|, ClustersFor(file.vol.lay, size))
  {
    hide SdVolume.Valid, Layout.WellFormed, Layout.EocMin, Layout.InFat, Layout.ClusterIndex, Capacity;
    hide EocAboveClusters, EntryAt, FirstCluster, Size, Owned, UsedBlock, NoRun, NoFit, FirstFit, Step;
    hide SameOutsideFat, IsChain, FileChain, Run, Allocated, FreeRun, Confined, Layout.Stored;
    var vol := file.vol;
    vol.Facts();
    ghost var d, f := vol.disk, vol.fat;
    EmptyFile(vol.lay, f);
    IndexByShift(vol.lay, size - 1);
    var count := Shr(size - 1, vol.lay.clusterSizeShift + 9) + 1;
    var c;
    ok, c := vol.AllocContiguous(count, file.firstCluster);
    ghost var chain: seq<nat> := [];
    if ok {
      RunFile(vol.lay, f, c, count, size);
      chain := Run(c, count);
    } else {
      FileStays(vol.lay, f, vol.fat, 0, []);
    }
    SameOutsideIsElsewhere(vol.lay, d, vol.disk, chain);
    EntryStays(vol.lay, f, vol.fat, [], chain, d, vol.disk, file.dirBlock);
    if ok {
      file.firstCluster := c;
      file.chain := chain;
      file.fileSize := size;
      file.flags := file.flags.(dirDirty := true);
    }
  }

  lemma EmptyFile(lay: Layout, fat: seq<nat>)
    requires |fat| == lay.clusterCount + 2
    ensures FileChain(lay, fat, 0, []) && Step(lay, fat, fat, [], [])
  {
  }

  /** The file made of the run just allocated has room for its bytes. */
  lemma RunFile(lay: Layout, fat: seq<nat>, c: nat, count: nat, size: nat)
    requires |fat| == lay.clusterCount + 2 && EocAboveClusters(lay) && lay.EocMin() <= lay.Stored(EOC)
    requires 0 < size && count == ClustersFor(lay, size) && FreeRun(fat, c, count)
    ensures count > 0 && c + count <= |fat| && Run(c, count) != [] && c != 0
    ensures var fat' := Allocated(lay, fat, 0, c, count);
      && Step(lay, fat, fat', [], Run(c, count)) && FileChain(lay, fat', c, Run(c, count))
      && OnlyOf(fat, fat', Run(c, count))
      && size <= Capacity(lay, Clusters(Run(c, count)))
  {
    hide Allocated, Layout.EocMin, Layout.Stored;
    AllocatedChain(lay, fat, [], c, count);
    RunOnly(lay, fat, c, count);
    assert [] + Run(c, count) == Run(c, count);
    InCapacity(lay, Run(c, count), size - 1);
  }

  lemma RunOnly(lay: Layout, fat: seq<nat>, c: nat, count: nat)
    requires count > 0 && c + count <= |fat|
    ensures OnlyOf(fat, Allocated(lay, fat, 0, c, count), Run(c, count))
  {
    forall x | 0 <= x < |fat| && x !in Run(c, count)
      ensures Allocated(lay, fat, 0, c, count)[x] == fat[x]
    {
      assert c <= x < c + count ==> Run(c, count)[x - c] == x;
    }
  }

  const NEW_FILE: OpenMode := OpenMode(true, true, false, false, true, true, false)

  method AllocateFiled(file: SdFile, dir: SdFile, ghost name: seq<byte>, size: nat) returns (ok: bool)
    requires file.vol.Valid() && file.Ready() && file.kind == Normal && 0 < size < SIZE_LIMIT
    requires file.chain == [] && file.firstCluster == file.fileSize == file.curPosition == 0
    requires Filed(file, dir, name)
    modifies file`firstCluster, file`fileSize, file`flags, file`chain
    modifies file.vol, file.vol.cache, file.vol.cache.card, file.vol.cache.buffer
    ensures file.vol.Valid() && file.Ready() && OnlyItsEntry(file, dir, name) && Framed(file, dir, [], file.chain)
    ensures file.vol.cache.misused == old(file.vol.cache.misused)
    ensures file.EntryOnDisk() && old(file.EntryOnDisk()) && file.DiskEntry() == old(file.DiskEntry())
    ensures ok ==>
      && file.chain == Run(file.firstCluster, ClustersFor(file.vol.lay, size)) && file.chain != []
      && LowestRun(old(file.vol.fat), file.firstCluster, ClustersFor(file.vol.lay, size))
      && file.fileSize == size && file.vol.cache.card.faults == old(file.vol.cache.card.faults)
      && OnlyOf(old(file.vol.fat), file.vol.fat, file.chain)
    ensures !ok ==> file.chain == [] && file.fileSize == 0
    ensures !ok ==> file.vol.cache.card.faults >= old(file.vol.cache.card.faults)
    ensures file.flags == old(file.flags).(dirDirty := file.flags.dirDirty)
    ensures !ok && file.vol.cache.card.faults == old(file.vol.cache.card.faults) ==>
      file.vol.fat == old(file.vol.fat) && NoRun(file.vol.fat, 2, |file.vol.fat|, ClustersFor(file.vol.lay, size))
  {
    hide SdVolume.Valid, Layout.WellFormed, Layout.ExtentOk, Layout.BlockCount, Table, SlotOf, FreeTail, UniqueNames;
    hide TableMap, Name, Attributes, EntryAt, SlotBlock, FileChain, Capacity, SameButEntry, Layout.InFat, IsLive;
    hide ChainOrEmpty, SdFile.Positioned, FirstCluster, Size, NoRun, Run, ClustersFor, SameOutsideFat, Confined;
    ghost var d, fat, k := file.vol.disk, file.vol.fat, SlotOf(Slots(dir), name);
    ok := AllocateRun(file, size);
    dir.vol.Facts();
    OutsideButEntry(file.vol.lay, d, file.vol.disk, file.dirBlock, file.dirIndex);
    SameButEntryOwn(file.vol.lay, d, file.vol.disk, file.chain, file.dirBlock, file.dirIndex);
    FileStepInDir(file.vol.lay, fat, file.vol.fat, d, file.vol.disk, dir.Place(), dir.firstCluster, dir.chain,
                  SlotCount(dir), k, [], file.chain);
    SlotFramed(dir, fat, d, k, [], file.chain, file.chain);
  }

  /** createContiguous after `open`: allocate and sync, or take the new entry back. */
  method FillNew(file: SdFile, dir: SdFile, ghost name: seq<byte>, size: nat) returns (ok: bool)
    requires file.vol.Valid() && file.Ready() && file.Writable() && 0 < size < SIZE_LIMIT
    requires file.chain == [] && file.firstCluster == file.fileSize == file.curPosition == 0
    requires Filed(file, dir, name) && Size(file.DiskEntry()) == 0
    modifies file, file.vol, file.vol.cache, file.vol.cache.card, file.vol.cache.buffer
    ensures file.vol.Valid() && Framed(file, dir, [], if ok then file.chain else [])
    ensures file.vol.cache.misused == old(file.vol.cache.misused)
    ensures file.dirBlock == old(file.dirBlock) && file.dirIndex == old(file.dirIndex)
    ensures ok ==>
      && OnlyItsEntry(file, dir, name)
      && file.Ready() && file.kind == Normal && file.fileSize == size && !file.flags.dirDirty && file.vol.Flushed()
      && file.curPosition == 0 && file.flags == old(file.flags).(dirDirty := file.flags.dirDirty)
      && file.chain == Run(file.firstCluster, ClustersFor(file.vol.lay, size)) && file.chain != []
      && LowestRun(old(file.vol.fat), file.firstCluster, ClustersFor(file.vol.lay, size))
      && file.vol.cache.card.faults == old(file.vol.cache.card.faults)
      && OnlyOf(old(dir.vol.fat), dir.vol.fat, file.chain)
    ensures !ok && file.vol.cache.card.faults == old(file.vol.cache.card.faults) ==>
      && dir.vol.fat == old(dir.vol.fat) && NoRun(dir.vol.fat, 2, |dir.vol.fat|, ClustersFor(dir.vol.lay, size))
      && DirHandle(dir) && HasSlots(dir) && TableMap(Slots(dir)) == old(TableMap(Slots(dir))) - {name}
      && Sound(Slots(dir)) && OneSlot(old(Slots(dir)), Slots(dir), old(SlotOf(Slots(dir), name))) && file.kind == Closed
  {
    hide SdVolume.Valid, Layout.WellFormed, Layout.ExtentOk, Layout.BlockCount, Table, SlotOf, FreeTail, UniqueNames;
    hide TableMap, Name, Attributes, EntryAt, SlotBlock, FileChain, Capacity, SameButEntry, UsedBlock, Owned, IsLive;
    hide SdFile.Positioned, FirstCluster, Size, NoRun, Run, ClustersFor, Layout.InFat, Frame, OneSlot;
    ghost var lay, d0, f0, s, p, t := dir.vol.lay, dir.vol.disk, dir.vol.fat, dir.chain, dir.Place(), Slots(dir);
    SlotOfFile(file, dir, name);
    ok := AllocateFiled(file, dir, name, size);
    ghost var d1, f1, t1 := dir.vol.disk, dir.vol.fat, Slots(dir);
    if !ok {
      SlotOfFile(file, dir, name);
      var _ := RemoveFrom(file, dir, name, []);
      FrameTrans(lay, f0, f1, dir.vol.fat, d0, d1, dir.vol.disk, s, s, s, [], [], [], p, p, file.dirBlock,
                 file.dirIndex);
      if HasSlots(dir) && OneSlot(t1, Slots(dir), SlotOf(t, name)) && |Slots(dir)| == |t1| {
        OneSlotTwice(t, t1, Slots(dir), SlotOf(t, name));
      }
      return false;
    }
    ok := SyncFiled(file, dir, name);
    FrameTrans(lay, f0, f1, dir.vol.fat, d0, d1, dir.vol.disk, s, s, s, [], file.chain, file.chain, p, p,
               file.dirBlock, file.dirIndex);
    FrameDrop(lay, f0, dir.vol.fat, d0, dir.vol.disk, s, s, [], file.chain, p, file.dirBlock, file.dirIndex);
    OneSlotTwice(t, t1, Slots(dir), SlotOf(t, name));
  }

  /** The file's entry is the slot of its name. */
  lemma SlotOfFile(file: SdFile, dir: SdFile, name: seq<byte>)
    requires Filed(file, dir, name) && file.EntryOnDisk()
    ensures SlotOf(Slots(dir), name) < SlotCount(dir) && Slots(dir)[SlotOf(Slots(dir), name)] == file.DiskEntry()
    ensures TableMap(Slots(dir))[name := file.DiskEntry()] - {name} == TableMap(Slots(dir)) - {name}
  {
    hide Layout.WellFormed, Layout.ExtentOk, Layout.BlockCount, FreeTail, UniqueNames, TableMap, EntryAt, IsLive;
    assert Slots(dir)[SlotOf(Slots(dir), name)]
        == SlotAt(dir.vol.lay, dir.vol.disk, dir.Place(), SlotOf(Slots(dir), name));
  }

  /** A run of `n` free clusters is there once the entry has been made. */
  ghost predicate RoomForRun(dir: SdFile, n: nat)
    requires HasSlots(dir)
    reads dir, dir.vol
  {
    RunLeft(dir.vol.fat, dir.chain, FirstEmpty(Slots(dir)) == SlotCount(dir), n)
  }

  /**
   * createContiguous: a new file of `size` bytes whose clusters are consecutive. Absent I/O errors
   * it fails only on a zero size, a handle in use, a bad or taken name, a full directory, or when
   * no free run is long enough; then the entry created for the file is gone again.
   */
  method CreateContiguous(file: SdFile, dir: SdFile, str: seq<byte>, illegal: set<byte>, size: nat) returns (ok: bool)
    requires file != dir && file.vol == dir.vol && 0 !in str && size < SIZE_LIMIT
    requires dir.vol.Valid() && DirHandle(dir) && dir.flags.read && HasSlots(dir) && Sound(Slots(dir))
    requires dir.fileSize + dir.vol.lay.ClusterBytes() < SIZE_LIMIT
    modifies file, dir`curCluster, dir`curPosition, dir`firstCluster, dir`flags, dir`chain, dir`fileSize
    modifies dir.vol, dir.vol.cache, dir.vol.cache.card, dir.vol.cache.buffer
    ensures dir.vol.Valid() && Framed(file, dir, [], if ok then file.chain else [])
    ensures dir.vol.cache.misused == old(dir.vol.cache.misused)
    ensures ok ==>
      && old(file.kind) == Closed && size > 0 && IsName83(str, illegal) && !old(OpenRefused(dir, Encode(str), NEW_FILE))
      && file.Ready() && file.kind == Normal && file.fileSize == size && !file.flags.dirDirty && file.vol.Flushed()
      && file.curPosition == 0 && OpenedFlags(file, NEW_FILE)
      && file.chain == Run(file.firstCluster, ClustersFor(file.vol.lay, size)) && file.chain != []
      && Filed(file, dir, Encode(str)) && file.EntryOnDisk() && Attributes(file.DiskEntry()) == 0
      && dir.flags == old(dir.flags)
      && TableMap(Slots(dir)) == old(TableMap(Slots(dir)))[Encode(str) := file.DiskEntry()]
      && OneSlot(old(Slots(dir)), Slots(dir), old(FirstEmpty(Slots(dir))))
      && SlotOf(Slots(dir), Encode(str)) == old(FirstEmpty(Slots(dir)))
      && dir.vol.cache.card.faults == old(dir.vol.cache.card.faults) && OnlyGrown(dir, file.chain)
    // given a name that open does not refuse, the runs that are free decide
    ensures dir.vol.cache.card.faults == old(dir.vol.cache.card.faults) && old(file.kind) == Closed && size > 0
            && IsName83(str, illegal) && !old(OpenRefused(dir, Encode(str), NEW_FILE)) ==>
      (ok <==> old(RoomForRun(dir, ClustersFor(dir.vol.lay, size))))
    ensures !ok && dir.vol.cache.card.faults == old(dir.vol.cache.card.faults) && old(file.kind) == Closed && size > 0
            && IsName83(str, illegal) && !old(OpenRefused(dir, Encode(str), NEW_FILE)) ==>
      && NoRun(dir.vol.fat, 2, |dir.vol.fat|, ClustersFor(dir.vol.lay, size))
      && DirHandle(dir) && HasSlots(dir) && TableMap(Slots(dir)) == old(TableMap(Slots(dir))) && Sound(Slots(dir))
      && OneSlot(old(Slots(dir)), Slots(dir), old(FirstEmpty(Slots(dir)))) && file.kind == Closed
      && dir.flags == old(dir.flags) && OnlyGrown(dir, [])
    ensures !ok && dir.vol.cache.card.faults == old(dir.vol.cache.card.faults) && old(file.kind) == Closed
            && (size == 0 || !IsName83(str, illegal) || old(OpenRefused(dir, Encode(str), NEW_FILE))) ==>
      dir.vol.disk == old(dir.vol.disk) && dir.vol.fat == old(dir.vol.fat) && SameDir(dir) && file.kind == Closed
  {
    hide SdVolume.Valid, Layout.WellFormed, Layout.ExtentOk, Layout.BlockCount, Table, SlotOf, FreeTail, UniqueNames;
    hide TableMap, Name, Attributes, EntryAt, SlotBlock, Capacity, SameButEntry, UsedBlock, Owned, Encode, Base;
    hide Extension, IsLive, SdFile.Positioned, NoRun, Run, ClustersFor, Full, Denied, Layout.InFat, Frame, OneSlot;
    hide FirstEmpty, Prolonged, RunLeft, LowestRun, RoomForRun, OpenRefused, SdFile.Ready, Size, FirstCluster;
    ghost var lay, d0, f0, s0, t := dir.vol.lay, dir.vol.disk, dir.vol.fat, dir.chain, Slots(dir);
    NothingFramed(dir, []);
    if size == 0 {
      return false;
    }
    ok := OpenForRun(file, dir, str, illegal, ClustersFor(dir.vol.lay, size));
    if !ok {
      return false;
    }
    ghost var d1, f1, s1, p, t1 := dir.vol.disk, dir.vol.fat, dir.chain, dir.Place(), Slots(dir);
    ok := FillNew(file, dir, Encode(str), size);
    if ok {
      SomeRun(f1, file.firstCluster, ClustersFor(lay, size));
    }
    if ok || dir.vol.cache.card.faults == old(dir.vol.cache.card.faults) {
      ProlongedOnly(f0, f1, dir.vol.fat, s0, s1, FirstEmpty(t) == |t|, if ok then file.chain else []);
    }
    FrameTrans(lay, f0, f1, dir.vol.fat, d0, d1, dir.vol.disk, s0, s1, s1, [], [], if ok then file.chain else [], p, p,
               file.dirBlock, file.dirIndex);
    if HasSlots(dir) && OneSlot(t1, Slots(dir), FirstEmpty(t)) && |Slots(dir)| == |t1| {
      OneSlotTwice(t, t1, Slots(dir), FirstEmpty(t));
    }
  }

  /** Its first step: an empty new file, and whether a run of `n` clusters is left for it. */
  method OpenForRun(file: SdFile, dir: SdFile, str: seq<byte>, illegal: set<byte>, ghost n: nat) returns (ok: bool)
    requires file != dir && file.vol == dir.vol && 0 !in str
    requires dir.vol.Valid() && DirHandle(dir) && dir.flags.read && HasSlots(dir) && Sound(Slots(dir))
    requires dir.fileSize + dir.vol.lay.ClusterBytes() < SIZE_LIMIT
    modifies file, dir`curCluster, dir`curPosition, dir`firstCluster, dir`flags, dir`chain, dir`fileSize
    modifies dir.vol, dir.vol.cache, dir.vol.cache.card, dir.vol.cache.buffer
    ensures dir.vol.Valid() && Framed(file, dir, [], [])
    ensures dir.vol.cache.misused == old(dir.vol.cache.misused)
    ensures ok ==>
      && old(file.kind) == Closed && IsName83(str, illegal) && !old(OpenRefused(dir, Encode(str), NEW_FILE))
      && OpenedFlags(file, NEW_FILE) && file.Ready() && file.Writable()
      && file.chain == [] && file.firstCluster == file.fileSize == file.curPosition == 0
      && Filed(file, dir, Encode(str)) && dir.flags == old(dir.flags)
      && Attributes(file.DiskEntry()) == 0 && Size(file.DiskEntry()) == 0
      && TableMap(Slots(dir)) == old(TableMap(Slots(dir)))[Encode(str) := file.DiskEntry()]
      && Encode(str) !in old(TableMap(Slots(dir)))
      && OneSlot(old(Slots(dir)), Slots(dir), old(FirstEmpty(Slots(dir))))
      && SlotOf(Slots(dir), Encode(str)) == old(FirstEmpty(Slots(dir)))
      && dir.vol.cache.card.faults == old(dir.vol.cache.card.faults)
      && (!NoRun(dir.vol.fat, 2, |dir.vol.fat|, n) <==> old(RoomForRun(dir, n))) && GrownIfFull(dir)
    ensures !ok && old(file.kind) == Closed && dir.vol.cache.card.faults == old(dir.vol.cache.card.faults) ==>
      && (IsName83(str, illegal) ==> old(OpenRefused(dir, Encode(str), NEW_FILE)))
      && dir.vol.disk == old(dir.vol.disk) && dir.vol.fat == old(dir.vol.fat) && SameDir(dir) && file.kind == Closed
  {
    hide SdVolume.Valid, Layout.WellFormed, Layout.ExtentOk, Layout.BlockCount, Table, SlotOf, FreeTail, UniqueNames;
    hide TableMap, Name, Attributes, EntryAt, SlotBlock, Capacity, SameButEntry, UsedBlock, Owned, Encode, Base;
    hide Extension, IsLive, SdFile.Positioned, NoRun, Full, Denied, Layout.InFat, Frame, OneSlot;
    hide FirstEmpty, Prolonged, RunLeft, Size, FirstCluster;
    ghost var f0, first0, s0, t := dir.vol.fat, dir.firstCluster, dir.chain, Slots(dir);
    ok := Open(file, dir, str, illegal, NEW_FILE, []);
    if ok {
      ProlongedRuns(dir.vol.lay, f0, dir.vol.fat, first0, dir.firstCluster, s0, dir.chain, FirstEmpty(t) == |t|, n);
    }
  }

  /**
   * A client that creates a contiguous file and asks for its blocks: absent I/O errors it gets
   * exactly the blocks of the clusters that the size needs, from the first cluster on.
   */
  method CreateAndLocate(file: SdFile, dir: SdFile, str: seq<byte>, illegal: set<byte>, size: nat)
    returns (created: bool, ok: bool, bgn: nat, end: nat)
    requires file != dir && file.vol == dir.vol && 0 !in str && size < SIZE_LIMIT
    requires dir.vol.Valid() && DirHandle(dir) && dir.flags.read && HasSlots(dir) && Sound(Slots(dir))
    requires dir.fileSize + dir.vol.lay.ClusterBytes() < SIZE_LIMIT
    modifies file, dir`curCluster, dir`curPosition, dir`firstCluster, dir`flags, dir`chain, dir`fileSize
    modifies dir.vol, dir.vol.cache, dir.vol.cache.card, dir.vol.cache.buffer
    ensures dir.vol.Valid()
    ensures dir.vol.cache.misused == old(dir.vol.cache.misused)
    ensures created ==> file.firstCluster >= 2 && file.vol.lay.ClusterBytes() > 0
    ensures created && file.vol.cache.card.faults == old(file.vol.cache.card.faults) ==>
      var lay := file.vol.lay;
      && ok && bgn == lay.ClusterStart(file.firstCluster)
      && end + 1 - bgn == (size + lay.ClusterBytes() - 1) / lay.ClusterBytes() * lay.blocksPerCluster
  {
    hide SdVolume.Valid, Layout.WellFormed, Layout.ExtentOk, Layout.BlockCount, Table, SlotOf, Sound, TableMap;
    hide Name, Attributes, EntryAt, SlotBlock, Capacity, SameButEntry, UsedBlock, Owned, Encode, Base, Extension;
    hide IsLive, SdFile.Positioned, Run, ClustersFor, Full, Denied, Layout.InFat, Layout.ClusterBytes, IsChain, NoRun;
    hide Frame, OneSlot, FirstEmpty, FreeTail, UniqueNames, SdFile.EntryPlaced, SdFile.EntryAgrees;
    ok, bgn, end := false, 0, 0;
    created := CreateContiguous(file, dir, str, illegal, size);
    if created {
      dir.vol.Facts();
      RunHead(file.vol.lay, file.vol.fat, file.firstCluster, ClustersFor(file.vol.lay, size), file.chain);
      ClustersForIsCeiling(file.vol.lay, |file.vol.disk|, size);
      BlocksOf(file.vol.lay, |file.vol.disk|, ClustersFor(file.vol.lay, size));
      ok, bgn, end := ContiguousRange(file);
    }
  }

  lemma RunHead(lay: Layout, fat: seq<nat>, first: nat, n: nat, chain: seq<nat>)
    requires FileChain(lay, fat, first, chain) && chain == Run(first, n) && chain != []
    requires |fat| == lay.clusterCount + 2
    ensures RunEnds(lay, fat, first, n) && first >= 2
  {
    RunIsChain(lay, fat, first, n);
  }

  lemma BlocksOf(lay: Layout, size: nat, n: nat)
    requires lay.WellFormed(size)
    ensures Shl(n, lay.clusterSizeShift) == n * lay.blocksPerCluster
  {
    ShlIsMul(n, lay.clusterSizeShift);
  }
}
