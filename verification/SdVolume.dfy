/** A mounted volume: FAT access, cluster allocation and freeing on top of the block cache. */
module Volume {
  import opened Bytes
  import opened VolumeLayout
  import opened BlockCache
  import opened Fat
  import opened Device
  import opened Chains
  import opened Allocation
  import opened FileData

  /** The first two FATs agree block for block. */
  ghost predicate FatsAgree(lay: Layout, d: seq<Block>)
    requires lay.WellFormed(|d|)
  {
    lay.fatCount > 1 ==>
      forall b: nat {:trigger lay.InFirstFat(b)} :: lay.InFirstFat(b) ==> d[b] == d[b + lay.blocksPerFat]
  }

  ghost predicate SameOnFats(lay: Layout, d: seq<Block>, d': seq<Block>) {
    |d| == |d'| && forall b {:trigger lay.InFat(b)} :: 0 <= b < |d| && lay.InFat(b) ==> d[b] == d'[b]
  }

  lemma SameOnFatsKeepsFat(lay: Layout, d: seq<Block>, d': seq<Block>, fat: seq<nat>)
    requires lay.WellFormed(|d|) && Decodes(lay, d, fat) && FatsAgree(lay, d) && SameOnFats(lay, d, d')
    ensures Decodes(lay, d', fat) && FatsAgree(lay, d')
  {
    forall b | 0 <= b < |d| && lay.InFirstFat(b)
      ensures d[b] == d'[b]
    {
      assert lay.InFat(b);
    }
    FatDependsOnFirstFat(lay, d, d', fat);
    forall b: nat | lay.fatCount > 1 && lay.InFirstFat(b)
      ensures d'[b] == d'[b + lay.blocksPerFat]
    {
      assert lay.InFat(b) && lay.InFat(b + lay.blocksPerFat);
    }
  }

  /** The block map after storing an entry in the first FAT and, if there is one, in the second. */
  ghost function StoredDisk(lay: Layout, d: seq<Block>, cluster: nat, value: nat): seq<Block>
    requires lay.WellFormed(|d|) && lay.IsCluster(cluster)
  {
    var lba := EntryBlock(lay, cluster);
    var block := PutEntry(lay, d[lba], cluster, value);
    if lay.fatCount > 1 then d[lba := block][lba + lay.blocksPerFat := block] else d[lba := block]
  }

  /** Exactly the bytes of the entry have changed, in the first FAT and in the second one. */
  lemma StoredBytes(lay: Layout, d: seq<Block>, cluster: nat, value: nat)
    requires lay.WellFormed(|d|) && lay.IsCluster(cluster) && FatsAgree(lay, d)
    ensures FieldStored(lay, d, StoredDisk(lay, d, cluster, value), cluster, value)
  {
    EntryBlockPlace(lay, |d|, cluster);
    assert lay.blocksPerFat > 0;
    hide Layout.WellFormed, PutEntry, Digit, FromField;
    var lba, d' := EntryBlock(lay, cluster), StoredDisk(lay, d, cluster, value);
    forall b, j | 0 <= b < |d| && 0 <= j < 512
      ensures d'[b][j] == FieldByte(lay, d, cluster, value, b, j)
    {
      PutBytes(lay, d[lba], cluster, value, j);
      FieldPlace(lay, lay.fatStartBlock, cluster, b, j);
      FieldPlace(lay, lay.fatStartBlock + lay.blocksPerFat, cluster, b, j);
      if b == lba || (lay.fatCount > 1 && b == lba + lay.blocksPerFat) {
        assert d'[b] == PutEntry(lay, d[lba], cluster, value);
      }
    }
  }

  lemma StoredDiskSound(lay: Layout, d: seq<Block>, fat: seq<nat>, cluster: nat, value: nat)
    requires lay.WellFormed(|d|) && lay.IsCluster(cluster) && Decodes(lay, d, fat)
    ensures |StoredDisk(lay, d, cluster, value)| == |d|
    ensures Decodes(lay, StoredDisk(lay, d, cluster, value), fat[cluster := lay.Stored(value)])
    ensures FatsAgree(lay, d) ==> FatsAgree(lay, StoredDisk(lay, d, cluster, value))
    ensures SameOutsideFat(lay, d, StoredDisk(lay, d, cluster, value))
  {
    var lba := EntryBlock(lay, cluster);
    EntryBlockPlace(lay, |d|, cluster);
    var d1 := d[lba := PutEntry(lay, d[lba], cluster, value)];
    StoreEntry(lay, d, fat, cluster, value);
    FatDependsOnFirstFat(lay, d1, StoredDisk(lay, d, cluster, value), fat[cluster := lay.Stored(value)]);
  }

  class SdVolume {
    const cache: Cache
    const lay: Layout
    var allocSearchStart: nat

    /** The block map that the cache and the device stand for. */
    ghost var disk: seq<Block>
    /** Its first FAT, decoded. */
    ghost var fat: seq<nat>

    ghost predicate Valid()
      reads this, cache, cache.card, cache.buffer
    {
      && cache.Valid()
      && disk == cache.View()
      && lay.WellFormed(|disk|)
      && Decodes(lay, disk, fat)
      && FatsAgree(lay, disk)
      && MirrorMatchesCache()
      && HintOk()
      && (cache.misused ==> cache.Wedged())
    }

    /** A wedged cache stays wedged, so that it tells whether a block was ever misused. */
    lemma MisusedIsWedged()
      requires Valid()
      ensures cache.misused <==> cache.Wedged()
    {
    }

    /** A mirror write is pending exactly while a changed block of the first FAT is cached. */
    ghost predicate MirrorMatchesCache()
      reads this, cache
    {
      && (cache.mirror != 0 <==> lay.fatCount > 1 && cache.dirty && lay.InFirstFat(cache.blockNumber))
      && (cache.mirror != 0 ==> cache.mirror == cache.blockNumber + lay.blocksPerFat)
      && (lay.InFat(cache.blockNumber) ==> lay.InFirstFat(cache.blockNumber))
    }

    /** No cluster below the search start is free. */
    ghost predicate HintOk()
      reads this
    {
      && 2 <= allocSearchStart <= |fat|
      && forall c :: 2 <= c < allocSearchStart ==> fat[c] != 0
    }

    /** What clients may know about the layout and the search start. */
    lemma Facts()
      requires Valid()
      ensures lay.WellFormed(|disk|) && |fat| == lay.clusterCount + 2 && EocAboveClusters(lay)
      ensures forall c :: 0 < c < |fat| ==> lay.Stored(c) == c
      ensures lay.Stored(EOC) >= lay.EocMin() && HintOk() && lay.blocksPerCluster > 0
    {
    }

    ghost function CacheNow(): CacheState
      reads cache
    {
      CacheState(cache.dirty, cache.blockNumber, cache.misused)
    }

    /** No block outside the FATs has become dirty, and none was addressed that must not be. */
    twostate predicate OnlyFatDirtied()
      reads this, cache
    {
      && cache.misused == old(cache.misused)
      && (cache.dirty && !lay.InFat(cache.blockNumber) ==>
            old(cache.dirty) && cache.blockNumber == old(cache.blockNumber))
    }

    /** Nothing is pending: the device is the block map. */
    ghost predicate Flushed()
      reads this, cache, cache.card
    {
      !cache.dirty && cache.card.blocks == disk
    }

    lemma CleanIsFlushed()
      requires Valid() && !cache.dirty
      ensures Flushed()
    {
    }

    /** Unless a block was addressed that must not be, all failures are those of the hardware. */
    lemma FaultsAreHardware()
      requires Valid() && !cache.misused
      ensures cache.card.faults == cache.card.hardware && !cache.Wedged()
    {
    }

    /** If the cache is not misused in between, nothing has failed exactly if the hardware has not. */
    twostate lemma SameFaults()
      requires old(Valid()) && Valid() && !old(cache.misused) && !cache.misused
      ensures cache.card.faults == old(cache.card.faults) <==> cache.card.hardware == old(cache.card.hardware)
    {
    }

    /** The buffer holds the block map's contents of the cached block. */
    lemma CachedBlock()
      requires Valid() && cache.blockNumber < |disk|
      ensures cache.buffer.Length == BLOCK_SIZE && cache.buffer[..] == disk[cache.blockNumber]
    {
    }

    /**
     * On the device itself the first two FATs agree block for block, too, except at most in the
     * block whose copy is pending; so they agree everywhere once the cache is flushed.
     */
    lemma DeviceFatsAgree(b: nat)
      requires Valid() && lay.fatCount > 1 && lay.InFirstFat(b)
      ensures b + lay.blocksPerFat < |cache.card.blocks|
      ensures cache.card.blocks[b] == cache.card.blocks[b + lay.blocksPerFat]
        || (cache.mirror == b + lay.blocksPerFat && cache.blockNumber == b && cache.dirty)
      ensures cache.mirror == 0 ==> cache.card.blocks[b] == cache.card.blocks[b + lay.blocksPerFat]
    {
      assert lay.InFat(b) && lay.InFat(b + lay.blocksPerFat);
      assert disk[b] == disk[b + lay.blocksPerFat];
    }

    /** The blocks of a cluster lie on the device, outside the FATs. */
    lemma ClusterBlocks(c: nat)
      requires Valid() && lay.IsCluster(c)
      ensures lay.blocksPerCluster > 0
      ensures forall p :: 0 < lay.ClusterStart(c) + lay.BlockOfCluster(p) < |disk|
      ensures forall p :: !lay.InFat(lay.ClusterStart(c) + lay.BlockOfCluster(p))
    {
      forall p: nat
        ensures 0 < lay.ClusterStart(c) + lay.BlockOfCluster(p) < |disk|
        ensures !lay.InFat(lay.ClusterStart(c) + lay.BlockOfCluster(p))
      {
        NextByte(lay, |disk|, p);
        DataAreaSeparate(lay, |disk|, c, lay.BlockOfCluster(p));
      }
    }

    /** The blocks of a cluster, one after the other. */
    lemma ClusterRange(c: nat)
      requires Valid() && lay.IsCluster(c)
      ensures lay.ClusterStart(c) + lay.blocksPerCluster <= |disk|
      ensures forall b :: lay.ClusterStart(c) <= b < lay.ClusterStart(c) + lay.blocksPerCluster ==>
        0 < b && !lay.InFat(b) && Owned(lay, [c], b)
    {
      forall b | lay.ClusterStart(c) <= b < lay.ClusterStart(c) + lay.blocksPerCluster
        ensures 0 < b < |disk| && !lay.InFat(b) && Owned(lay, [c], b)
      {
        ClusterBlock(lay, c, b - lay.ClusterStart(c));
        DataAreaSeparate(lay, |disk|, c, b - lay.ClusterStart(c));
      }
      ClusterBlock(lay, c, lay.blocksPerCluster - 1);
    }

    /**
     * A volume just mounted: the layout comes from the boot sector, the cache is clean and
     * the search for free clusters starts at cluster 2.
     */
    constructor (cache: Cache, lay: Layout)
      requires cache.Valid() && !cache.dirty && !cache.misused && !lay.InFat(cache.blockNumber)
      requires lay.WellFormed(|cache.View()|) && FatsAgree(lay, cache.View())
      ensures Valid() && this.cache == cache && this.lay == lay && disk == cache.View() && fat == FatOf(lay, disk)
    {
      this.cache := cache;
      this.lay := lay;
      allocSearchStart := 2;
      disk := cache.View();
      fat := FatOf(lay, cache.View());
    }

    /** cacheRawBlock, for any block but those of the second FAT; FAT blocks are only read here. */
    method CacheRawBlock(n: nat, forWrite: bool) returns (ok: bool)
      requires Valid()
      requires n < |disk| && (lay.InFat(n) ==> lay.InFirstFat(n) && !forWrite) && (forWrite ==> n > 0)
      modifies cache, cache.card, cache.buffer
      ensures Valid()
      ensures ok ==> cache.blockNumber == n && cache.buffer[..] == disk[n] && (forWrite ==> cache.dirty)
      ensures ok ==> cache.card.faults == old(cache.card.faults)
      ensures !ok ==> cache.card.faults > old(cache.card.faults)
      ensures !forWrite && cache.dirty ==> old(cache.dirty)
      ensures !forWrite || !ok ==> OnlyFatDirtied()
      ensures cache.misused == old(cache.misused) && (old(cache.Wedged()) ==> !ok)
      ensures cache.card.hardware >= old(cache.card.hardware)
    {
      ok := cache.RawBlock(n, forWrite);
    }

    /** fatGet */
    method FatGet(cluster: nat) returns (ok: bool, value: nat)
      requires Valid()
      modifies cache, cache.card, cache.buffer
      ensures Valid()
      ensures ok ==> cluster < |fat| && value == fat[cluster] && cache.card.faults == old(cache.card.faults)
      // the number in its bytes of the first FAT
      ensures ok ==> value == FatField(lay, disk, cluster)
      ensures ok ==> lay.InFat(cache.blockNumber)
      ensures !ok ==> cluster >= |fat| || cache.card.faults > old(cache.card.faults)
      ensures cache.dirty ==> old(cache.dirty)
      ensures OnlyFatDirtied()
    {
      if cluster > lay.clusterCount + 1 {
        return false, 0;
      }
      var lba := lay.fatStartBlock + (if lay.fatType == 16 then cluster / 256 else cluster / 128);
      ok := CacheRawBlock(lba, false);
      if !ok {
        return false, 0;
      }
      EntryIsField(lay, disk, cluster);
      assert fat[cluster] == Entry(lay, disk, cluster);
      value := EntryIn(lay, cache.buffer[..], cluster);
    }

    /** fatPut */
    method FatPut(cluster: nat, value: nat) returns (ok: bool)
      requires Valid()
      requires lay.Stored(value) == 0 ==> cluster < 2 || cluster >= allocSearchStart
      modifies this`disk, this`fat, cache, cache.card, cache.buffer
      ensures Valid()
      ensures ok ==> lay.IsCluster(cluster) && fat == old(fat)[cluster := lay.Stored(value)]
      ensures ok ==> SameOutsideFat(lay, old(disk), disk) && cache.card.faults == old(cache.card.faults)
      // exactly the bytes of the entry have changed, in both FATs
      ensures ok ==> FieldStored(lay, old(disk), disk, cluster, value)
      ensures ok ==> lay.InFat(cache.blockNumber)
      ensures !ok ==> disk == old(disk) && fat == old(fat)
      ensures !ok ==> !lay.IsCluster(cluster) || cache.card.faults > old(cache.card.faults)
      ensures OnlyFatDirtied()
    {
      hide Valid, Layout.WellFormed, Layout.Stored, Layout.EocMin, EocAboveClusters, FieldStored;
      Facts();
      if cluster < 2 {
        return false;
      }
      if cluster > lay.clusterCount + 1 {
        return false;
      }
      EntryBlockPlace(lay, |disk|, cluster);
      var lba := EntryBlock(lay, cluster);
      if lba != cache.blockNumber {
        ok := CacheRawBlock(lba, false);
        if !ok {
          return false;
        }
      }
      StoreInCachedFatBlock(cluster, value);
      return true;
    }

    /** The store of `fatPut` into the cached FAT block, and its pending mirror. */
    method StoreInCachedFatBlock(cluster: nat, value: nat)
      requires Valid() && lay.IsCluster(cluster) && cache.blockNumber == EntryBlock(lay, cluster)
      requires lay.Stored(value) == 0 ==> cluster < 2 || cluster >= allocSearchStart
      modifies this`disk, this`fat, cache, cache.buffer
      ensures Valid()
      ensures fat == old(fat)[cluster := lay.Stored(value)]
      ensures SameOutsideFat(lay, old(disk), disk) && OnlyFatDirtied() && lay.InFat(cache.blockNumber)
      ensures FieldStored(lay, old(disk), disk, cluster, value)
    {
      hide FieldStored;
      StoredBytes(lay, disk, cluster, value);
      StoredDiskSound(lay, disk, fat, cluster, value);
      EntryBlockPlace(lay, |disk|, cluster);
      StoreEntryBytes(cluster, value);
      disk := cache.View();
      fat := fat[cluster := lay.Stored(value)];
    }

    method StoreEntryBytes(cluster: nat, value: nat)
      requires cache.Valid() && lay.WellFormed(|cache.View()|) && MirrorMatchesCache()
      requires lay.IsCluster(cluster) && cache.blockNumber == EntryBlock(lay, cluster)
      requires lay.InFirstFat(cache.blockNumber)
      modifies cache`dirty, cache`mirror, cache.buffer
      ensures cache.Valid() && MirrorMatchesCache()
      ensures cache.misused == old(cache.misused)
      ensures cache.View() == StoredDisk(lay, old(cache.View()), cluster, value)
    {
      EntryBlockPlace(lay, |cache.View()|, cluster);
      hide Layout.WellFormed, PutU16, PutU32, Overwrite, Layout.InFat;
      var copy := if lay.fatCount > 1 then cache.blockNumber + lay.blocksPerFat else 0;
      if lay.fatType == 16 {
        cache.StoreMirrored(2 * (cluster % 256), PutU16(value), copy);
      } else {
        cache.StoreMirrored(4 * (cluster % 128), PutU32(value), copy);
      }
    }

    /** The search loop of `allocContiguous`: first fit from `start`, wrapping once. */
    method SearchFree(count: nat, start: nat) returns (ok: bool, bgn: nat, end: nat)
      requires Valid() && 2 <= start <= |fat|
      modifies cache, cache.card, cache.buffer
      ensures Valid()
      ensures cache.misused == old(cache.misused)
      ensures ok ==> count > 0 && end == bgn + count - 1 && FirstFit(fat, start, count, bgn)
      ensures ok ==> cache.card.faults == old(cache.card.faults)
      ensures !ok ==> (count > 0 ==> NoFit(fat, start, count)) || cache.card.faults > old(cache.card.faults)
      ensures cache.card.faults >= old(cache.card.faults) && OnlyFatDirtied()
    {
      hide Valid, HintOk, EocAboveClusters, Layout.WellFormed, Layout.EocMin, Layout.Stored, Layout.InFat;
      hide FreeRun, NoRun, FirstFit, NoFit, Scanning, Searching;
      Facts();
      SearchStart(fat, start, count);
      bgn, end := start, start;
      var fatEnd := lay.clusterCount + 1;
      var n := 0;
      ghost var f0 := fat;
      while true
        invariant Valid() && fat == f0 && cache.card.faults == old(cache.card.faults) && OnlyFatDirtied()
        invariant cache.misused == old(cache.misused)
        invariant n <= lay.clusterCount
        invariant Searching(f0, start, n, bgn, end, count)
        decreases lay.clusterCount - n
      {
        SearchBounds(f0, start, n, bgn, end, count);
        if n >= lay.clusterCount {
          if count > 0 {
            SearchDone(f0, start, bgn, end, count);
          }
          return false, bgn, end;
        }
        if end > fatEnd {
          assert end == |f0|;
          SearchWrap(f0, start, n, bgn, count);
          bgn, end := 2, 2;
        }
        var f;
        ok, f := FatGet(end);
        if !ok {
          return false, bgn, end;
        }
        SearchBounds(f0, start, n, bgn, end, count);
        SearchStep(f0, start, n, bgn, end, count);
        if f == 0 && end - bgn + 1 == count {
          return true, bgn, end;
        }
        bgn := if f != 0 then end + 1 else bgn;
        n, end := n + 1, end + 1;
      }
    }

    /**
     * The stores of `allocContiguous`: first the EOC, then the links from the end down.
     * A failure after any number of them has changed only clusters that were free.
     */
    method LinkRun(bgn: nat, end: nat) returns (ok: bool)
      requires Valid() && 2 <= bgn <= end && FreeRun(fat, bgn, end - bgn + 1)
      modifies this`disk, this`fat, cache, cache.card, cache.buffer
      ensures Valid() && SameOutsideFat(lay, old(disk), disk) && OnlyFatDirtied()
      ensures ok ==> fat == Linked(lay, old(fat), bgn, end) && cache.card.faults == old(cache.card.faults)
      ensures ok ==> lay.InFat(cache.blockNumber)
      ensures !ok ==> Confined(old(fat), fat, []) && cache.card.faults > old(cache.card.faults)
    {
      hide Valid, Layout.WellFormed, Layout.Stored, Layout.EocMin;
      Facts();
      ghost var f0 := fat;
      ok := FatPut(end, EOC);
      if !ok {
        return false;
      }
      var e := end;
      assert fat == Linked(lay, f0, e, end);
      while e > bgn
        invariant Valid() && SameOutsideFat(lay, old(disk), disk) && OnlyFatDirtied()
        invariant bgn <= e <= end && cache.card.faults == old(cache.card.faults) && lay.InFat(cache.blockNumber)
        invariant fat == Linked(lay, f0, e, end)
      {
        LinkedConfined(lay, f0, e, end);
        LinkedStep(lay, f0, e, end);
        ok := FatPut(e - 1, e);
        if !ok {
          return false;
        }
        e := e - 1;
      }
      return true;
    }

    /** Where `allocContiguous` begins to search. */
    ghost function SearchFrom(cur: nat): nat
      reads this
    {
      if cur == 0 then allocSearchStart else cur + 1
    }

    /**
     * allocContiguous: find `count` consecutive free clusters, link them into a chain and, if
     * `cur` is a cluster, attach the chain behind `cur`.
     */
    method AllocContiguous(count: nat, cur: nat) returns (ok: bool, cluster: nat)
      requires Valid() && (cur == 0 || lay.IsCluster(cur))
      modifies this, cache, cache.card, cache.buffer
      ensures Valid() && SameOutsideFat(lay, old(disk), disk) && OnlyFatDirtied()
      ensures ok ==> count > 0 && FirstFit(old(fat), old(SearchFrom(cur)), count, cluster)
      ensures ok ==> cluster + count <= |old(fat)| && fat == Allocated(lay, old(fat), cur, cluster, count)
      ensures ok ==> cache.card.faults == old(cache.card.faults) && lay.InFat(cache.blockNumber)
      ensures !ok ==> cluster == cur && Confined(old(fat), fat, []) && cache.card.faults >= old(cache.card.faults)
      ensures !ok && cache.card.faults == old(cache.card.faults) ==>
        fat == old(fat) && disk == old(disk) && (count > 0 ==> NoFit(fat, old(SearchFrom(cur)), count))
      ensures ok && !(cluster <= cur < cluster + count) ==>
        && EndedRun(lay, fat, cluster, count)
        && fat[cluster + count - 1] == if lay.fatType == 16 then 0xFFFF else 0x0FFF_FFFF
      // without `cur`, absent I/O failure: success exactly if there is a free run, and the lowest one
      ensures ok && cur == 0 ==> FreeRun(old(fat), cluster, count) && NoRun(old(fat), 2, cluster + count - 1, count)
      ensures !ok && cur == 0 && count > 0 && cache.card.faults == old(cache.card.faults) ==>
        NoRun(fat, 2, |fat|, count)
    {
      hide Valid, Layout.WellFormed, Layout.Stored, Layout.EocMin, NoRun, NoFit, FirstFit;
      hide EndedRun, FieldStored;
      Facts();
      var start, setStart := cur + 1, false;
      if cur == 0 {
        start, setStart := allocSearchStart, count == 1;
      }
      ghost var f0 := fat;
      if cur == 0 && count > 0 {
        HintSeesAll(f0, start, count);
      }
      var bgn, end;
      ok, bgn, end := SearchFree(count, start);
      if !ok {
        return false, cur;
      }
      FirstFitRun(f0, start, count, bgn);
      ok := LinkRun(bgn, end);
      if !ok {
        return false, cur;
      }
      if cur != 0 {
        ok := FatPut(cur, bgn);
        if !ok {
          return false, cur;
        }
      }
      cluster := bgn;
      AllocatedIsEnded(lay, f0, cur, bgn, count);
      if setStart {
        HintAdvances(lay, f0, start, bgn);
        assert fat == Allocated(lay, f0, 0, bgn, 1);
        SetSearchStart(bgn + 1);
      }
    }

    /** Move the search start past clusters known to be in use, or back to the first cluster. */
    method SetSearchStart(start: nat)
      requires Valid() && 2 <= start <= |fat|
      requires forall c :: 2 <= c < start ==> fat[c] != 0
      modifies this`allocSearchStart
      ensures Valid() && allocSearchStart == start
    {
      allocSearchStart := start;
    }

    /**
     * freeChain: clear the entries from `first` on. It ends on any FAT, cyclic or corrupt ones
     * included, and clears exactly `chain` when that is the chain of `first`.
     */
    method FreeChain(first: nat, ghost chain: seq<nat>) returns (ok: bool)
      requires Valid()
      modifies this, cache, cache.card, cache.buffer
      ensures Valid() && SameOutsideFat(lay, old(disk), disk)
      ensures cache.misused == old(cache.misused)
      ensures |fat| == |old(fat)| && forall c :: 0 <= c < |fat| ==> fat[c] == old(fat)[c] || fat[c] == 0
      ensures first != 0 && FileChain(lay, old(fat), first, chain) ==>
        && (ok ==> fat == Freed(old(fat), chain) && cache.card.faults == old(cache.card.faults))
        && (!ok ==> Confined(old(fat), fat, chain) && cache.card.faults > old(cache.card.faults))
    {
      hide Valid, Layout.WellFormed, Layout.EocMin, Layout.IsEoc, Confined, Freed, EocAboveClusters, InUse;
      hide FieldStored, FatField, Layout.InFat;
      hide FileChain, IsChain;
      Facts();
      SetSearchStart(2);
      ghost var f0, k := fat, 0;
      ghost var sound := first != 0 && FileChain(lay, f0, first, chain);
      if sound {
        ChainHead(lay, f0, first, chain);
      }
      var cluster := first;
      FreedNone(f0, chain);
      while true
        invariant Valid() && SameOutsideFat(lay, old(disk), disk)
        invariant cache.misused == old(cache.misused)
        invariant allocSearchStart == 2 && |fat| == |f0|
        invariant forall c :: 0 <= c < |fat| ==> fat[c] == f0[c] || fat[c] == 0
        invariant sound ==> k < |chain| && cluster == chain[k] && fat == Freed(f0, chain[..k])
        invariant sound ==> cache.card.faults == old(cache.card.faults)
        decreases InUse(fat), cluster
      {
        if sound {
          ChainNext(lay, f0, chain, k);
          FreeStep(lay, f0, chain, k);
          FreedConfined(f0, chain, k);
        }
        var next;
        ok, next := FatGet(cluster);
        if !ok {
          return false;
        }
        InUseShrinks(fat, cluster);
        ok := FatPut(cluster, 0);
        if !ok {
          return false;
        }
        cluster := next;
        if lay.IsEoc(cluster) {
          assert sound ==> chain[..k + 1] == chain;
          return true;
        }
        k := k + 1;
      }
    }

    /**
     * chainSize: bytes in the clusters that the links from `first` pass, modulo 2^32. It ends on any
     * FAT on which these links lead anywhere, and absent I/O errors succeeds if that is an end mark.
     */
    method ChainSize(first: nat, ghost s: seq<nat>) returns (ok: bool, size: nat)
      requires Valid() && LinksPass(lay, fat, first, s)
      modifies cache, cache.card, cache.buffer
      ensures Valid()
      ensures cache.misused == old(cache.misused)
      ensures ok ==> size == ChainBytes(lay, |s|) % 0x1_0000_0000 && EndsInMark(lay, fat, s)
      ensures ok ==> size == |s| * lay.blocksPerCluster * 512 % 0x1_0000_0000
      ensures ok ==> s != [] && s[|s| - 1] < |fat| && EndMark(lay, fat[s[|s| - 1]])
      ensures ok ==> cache.card.faults == old(cache.card.faults)
      ensures !ok ==> cache.card.faults > old(cache.card.faults) || !EndsInMark(lay, fat, s)
      ensures !ok && s != [] && s[|s| - 1] < |fat| && EndMark(lay, fat[s[|s| - 1]]) ==>
        cache.card.faults > old(cache.card.faults)
    {
      hide Valid, Layout.WellFormed, Layout.IsEoc, ChainBytes, Layout.ClusterBytes, EndMark, FatField;
      Facts();
      MarkIsNumber(lay);
      var cluster, sum := first, 0;
      ghost var k := 0;
      ChainBytesStep(lay, 0);
      while true
        invariant Valid() && k <= |s| && (if k < |s| then cluster == s[k] else cluster >= |fat|)
        invariant k == |s| ==> !EndsInMark(lay, fat, s)
        invariant cache.misused == old(cache.misused)
        invariant sum == ChainBytes(lay, k) % 0x1_0000_0000
        invariant cache.card.faults == old(cache.card.faults)
        decreases |s| - k
      {
        if k < |s| {
          LinkPassed(lay, fat, first, s, k);
        }
        ok, cluster := FatGet(cluster);
        if !ok {
          return false, 0;
        }
        sum := (sum + lay.ClusterBytes()) % 0x1_0000_0000;
        ChainBytesStep(lay, k);
        if lay.IsEoc(cluster) {
          ChainBytesByNumber(lay, |s|);
          return true, sum;
        }
        k := k + 1;
      }
    }

    // -------------------------------------------------------------- blocks outside the FATs

    /** cacheFlush: afterwards the device is the block map. */
    method CacheFlush() returns (ok: bool)
      requires Valid()
      modifies cache, cache.card
      ensures Valid() && cache.blockNumber == old(cache.blockNumber) && cache.misused == old(cache.misused)
      ensures ok ==> Flushed() && cache.card.faults == old(cache.card.faults)
      ensures !ok ==> cache.card.faults > old(cache.card.faults)
      ensures old(cache.Wedged()) ==> !ok
      ensures cache.card.hardware >= old(cache.card.hardware)
    {
      ok := cache.Flush();
    }

    /** cacheZeroBlock */
    method CacheZeroBlock(n: nat) returns (ok: bool)
      requires Valid() && 0 < n < |disk| && !lay.InFat(n)
      modifies this`disk, cache, cache.card, cache.buffer
      ensures Valid()
      ensures cache.misused == old(cache.misused)
      ensures ok ==> disk == old(disk)[n := ZERO_BLOCK] && cache.blockNumber == n && cache.dirty
      ensures ok ==> cache.card.faults == old(cache.card.faults)
      ensures !ok ==> disk == old(disk) && cache.card.faults > old(cache.card.faults)
    {
      ok := cache.ZeroBlock(n);
      NoteDisk();
    }

    /** The start of a new block in `write`: see Cache.AdoptBlock. */
    method AdoptBlock(n: nat) returns (ok: bool)
      requires Valid() && 0 < n < |disk| && !lay.InFat(n)
      modifies this`disk, cache, cache.card
      ensures Valid()
      ensures |disk| == |old(disk)| && cache.misused == old(cache.misused)
      ensures !ok ==> OnlyFatDirtied()
      ensures ok ==> disk == old(disk)[n := disk[n]] && cache.blockNumber == n && cache.dirty
      ensures ok ==> cache.card.faults == old(cache.card.faults)
      ensures !ok ==> disk == old(disk) && cache.card.faults > old(cache.card.faults)
    {
      ok := cache.AdoptBlock(n);
      NoteDisk();
    }

    /** Store bytes in the cached block, a dirty block outside the FATs. */
    method CopyIn(offset: nat, src: seq<byte>)
      requires Valid() && cache.dirty && cache.blockNumber < |disk| && !lay.InFat(cache.blockNumber)
      requires offset + |src| <= BLOCK_SIZE
      modifies this`disk, cache.buffer
      ensures Valid()
      ensures cache.misused == old(cache.misused)
      ensures var n := cache.blockNumber; disk == old(disk)[n := Overwrite(old(disk)[n], offset, src)]
    {
      cache.CopyIn(offset, src);
      NoteDisk();
    }

    /** The whole-block write of `write`: see Cache.WriteThrough. */
    method WriteThrough(n: nat, src: Block) returns (ok: bool)
      requires Valid() && 0 < n < |disk| && !lay.InFat(n)
      modifies this`disk, cache, cache.card
      ensures Valid()
      ensures ok ==> disk == old(disk)[n := src] && cache.card.faults == old(cache.card.faults)
      ensures !ok ==> |disk| == |old(disk)| && disk == old(disk)[n := disk[n]]
      ensures !ok ==> cache.card.faults > old(cache.card.faults)
      ensures cache.Wedged() <==> old(cache.Wedged()) || (old(cache.dirty) && old(cache.blockNumber) == n)
      ensures cache.dirty == old(cache.dirty)
      ensures cache.blockNumber == if old(cache.blockNumber) == n then NO_BLOCK else old(cache.blockNumber)
      ensures cache.misused <==> old(cache.misused) || (old(cache.dirty) && old(cache.blockNumber) == n)
    {
      ok := cache.WriteThrough(n, src);
      NoteDisk();
    }

    /** Direct read of a block that is not cached. */
    method ReadDirect(n: nat, offset: nat, count: nat, dst: array<byte>, at: nat) returns (ok: bool)
      requires Valid() && n < |disk| && !lay.InFat(n) && n != cache.blockNumber && dst != cache.buffer
      requires offset + count <= BLOCK_SIZE && at + count <= dst.Length
      modifies cache.card`faults, cache.card`hardware, cache.card`refused, dst
      ensures Valid()
      ensures cache.misused == old(cache.misused)
      ensures ok ==> dst[..] == Overwrite(old(dst[..]), at, disk[n][offset..offset + count])
      ensures ok ==> cache.card.faults == old(cache.card.faults)
      ensures !ok ==> cache.card.faults > old(cache.card.faults) && dst[..] == old(dst[..])
    {
      ok := cache.ReadDirect(n, offset, count, dst, at);
    }

    /** Copy bytes of the cached block to a caller's buffer. */
    method CopyOut(offset: nat, count: nat, dst: array<byte>, at: nat)
      requires Valid() && dst != cache.buffer
      requires offset + count <= BLOCK_SIZE && at + count <= dst.Length
      modifies dst
      ensures Valid() && cache.buffer.Length == BLOCK_SIZE
      ensures dst[..] == Overwrite(old(dst[..]), at, cache.buffer[offset..offset + count])
    {
      cache.CopyOut(offset, count, dst, at);
    }

    /** Record in `disk` a change of one block outside the FATs. */
    ghost method NoteDisk()
      requires cache.Valid() && MirrorMatchesCache() && HintOk()
      requires lay.WellFormed(|disk|) && Decodes(lay, disk, fat) && FatsAgree(lay, disk)
      requires SameOnFats(lay, disk, cache.View()) && (cache.misused ==> cache.Wedged())
      modifies this`disk
      ensures Valid() && disk == cache.View()
    {
      SameOnFatsKeepsFat(lay, disk, cache.View(), fat);
      disk := cache.View();
    }
  }
}
