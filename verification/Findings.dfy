/** Where the driver falls short of what its documentation promises, and exactly when. */
module Findings {
  import opened Bytes
  import opened VolumeLayout
  import opened BlockCache
  import opened Chains
  import opened Allocation
  import opened FileData
  import opened DirEntry
  import opened Volume
  import opened File
  import opened Path
  import opened Bits
  import opened Names
  import opened DirTable
  import opened DirOnDisk
  import opened Directories
  import opened Frames
  import opened Removal
  import opened Filing
  import opened MakingDir
  import opened Contiguous

  /**
   * A client that writes less than a block at the start of a file, goes back and writes a whole
   * block there. If the first write fits, the file cannot be closed any more unless the hardware
   * fails, and no later flush succeeds either.
   */
  method RewriteStart(file: SdFile, part: seq<byte>, whole: seq<byte>)
    returns (wrote: bool, closed: bool, flushed: bool)
    requires file.vol.Valid() && file.Ready() && file.Writable() && !file.vol.cache.misused
    requires !file.flags.append && !file.flags.sync && file.curPosition == 0
    requires 0 < |part| < BLOCK_SIZE <= |whole| < 0x1_0000
    modifies file, file.vol, file.vol.cache, file.vol.cache.card, file.vol.cache.buffer
    ensures file.vol.Valid()
    ensures file.vol.cache.card.hardware == old(file.vol.cache.card.hardware) ==>
      && (wrote <==> old(|part| <= Space(file.vol.lay, file.vol.fat, file.chain)))
      && (wrote ==> file.vol.cache.Wedged() && !closed && !flushed)
  {
    hide SdVolume.Valid, Doomed, IsBlockOf, SdFile.WriteOutcome, Space;
    var vol := file.vol;
    closed, flushed := false, false;
    wrote := WriteShort(file, part);
    if !wrote {
      return;
    }
    WriteOver(file, |part|, whole);
    vol.MisusedIsWedged();
    closed := file.Close();
    flushed := vol.CacheFlush();
    vol.MisusedIsWedged();
  }

  /** Its first write: the block is dirty in the cache. */
  method WriteShort(file: SdFile, part: seq<byte>) returns (ok: bool)
    requires file.vol.Valid() && file.Ready() && file.Writable() && !file.vol.cache.misused
    requires !file.flags.append && !file.flags.sync && file.curPosition == 0 && 0 < |part| < BLOCK_SIZE
    modifies file, file.vol, file.vol.cache, file.vol.cache.card, file.vol.cache.buffer
    ensures file.vol.Valid() && file.flags == old(file.flags).(dirDirty := file.flags.dirDirty)
    ensures ok ==> file.Ready() && file.Writable() && file.curPosition == |part| && file.PartCached()
    ensures ok ==> !file.vol.cache.misused && file.vol.cache.card.hardware == old(file.vol.cache.card.hardware)
    ensures file.vol.cache.card.hardware == old(file.vol.cache.card.hardware) ==>
      (ok <==> old(|part| <= Space(file.vol.lay, file.vol.fat, file.chain)))
  {
    hide SdVolume.Valid, SdFile.NothingAhead, SdFile.WroteUpTo, SdFile.WellPlaced, Content, SdFile.Written, Doomed;
    hide SdFile.SameName, SameButEntry, Step, FileChain, IsBlockOf, SdFile.Ready, Space;
    var vol := file.vol;
    vol.Facts();
    vol.FaultsAreHardware();
    NotBlockwise(vol.lay, file.chain, file.vol.CacheNow(), |part|);
    ok := file.Write(part);
    vol.FaultsAreHardware();
  }

  /** Its second write, from the start again. */
  method WriteOver(file: SdFile, n: nat, whole: seq<byte>)
    requires file.vol.Valid() && file.Ready() && file.Writable() && !file.vol.cache.misused && !file.flags.append
    requires 0 < n < BLOCK_SIZE && file.curPosition == n && file.PartCached() && BLOCK_SIZE <= |whole| < 0x1_0000
    modifies file, file.vol, file.vol.cache, file.vol.cache.card, file.vol.cache.buffer
    ensures file.vol.Valid() && file.kind == Normal && file.EntryOnDisk()
    ensures file.vol.cache.Wedged() || file.vol.cache.card.hardware > old(file.vol.cache.card.hardware)
  {
    hide SdVolume.Valid, SdFile.NothingAhead, SdFile.WroteUpTo, SdFile.WellPlaced, Content, SdFile.Written, Doomed;
    hide SameButEntry, Step, IsBlockOf, Owned, UsedBlock, FirstCluster, Size, EntryAt, FileChain, Capacity, CursorAt;
    var vol := file.vol;
    vol.Facts();
    vol.MisusedIsWedged();
    vol.FaultsAreHardware();
    StartIsDoomed(vol.lay, file.chain, file.vol.CacheNow(), n, |whole|);
    var sought := file.SeekSet(0);
    vol.FaultsAreHardware();
    var rewrote := file.Write(whole);
  }

  lemma NotBlockwise(lay: Layout, chain: seq<nat>, c: CacheState, n: nat)
    requires lay.blocksPerCluster > 0 && !c.misused && n < BLOCK_SIZE
    ensures !Doomed(lay, chain, c, 0, n)
  {
    RewritesNothing(lay, chain, c.block, 0, n);
  }

  lemma StartIsDoomed(lay: Layout, chain: seq<nat>, c: CacheState, n: nat, m: nat)
    requires lay.blocksPerCluster > 0 && 0 < n < BLOCK_SIZE <= m
    requires c.dirty && IsBlockOf(lay, chain, c.block, n)
    ensures Doomed(lay, chain, c, 0, m)
  {
    assert lay.NthBlock(Clusters(chain), 0) == c.block && BLOCK_SIZE * 0 == 0;
  }

  /** Bytes in all parts. */
  function Total(parts: seq<seq<byte>>): nat { if parts == [] then 0 else |parts[0]| + Total(parts[1..]) }

  /**
   * A client that writes a file in order and closes it is safe from that, whatever the sizes of the
   * parts: unless the hardware fails, all writes and the close succeed exactly if everything fits.
   * To begin with, no block of this file at or behind the position may be dirty in the cache.
   */
  method WriteInOrder(file: SdFile, parts: seq<seq<byte>>) returns (ok: bool, closed: bool)
    requires file.vol.Valid() && file.Ready() && file.Writable() && !file.vol.cache.misused
    requires file.NothingAhead(file.WriteStart()) && file.WriteStart() + Total(parts) < SIZE_LIMIT
    requires forall i :: 0 <= i < |parts| ==> |parts[i]| < 0x1_0000
    modifies file, file.vol, file.vol.cache, file.vol.cache.card, file.vol.cache.buffer
    ensures file.vol.Valid() && !file.vol.cache.misused
    ensures file.vol.cache.card.hardware == old(file.vol.cache.card.hardware) ==>
      ok == closed == old(file.WriteStart() + Total(parts) <= Space(file.vol.lay, file.vol.fat, file.chain))
  {
    hide SdVolume.Valid, SdFile.NothingAhead, SdFile.WroteUpTo, SdFile.WellPlaced, Content, SdFile.Written;
    hide SdFile.Linked, SdFile.Positioned, SdFile.EntryAgrees, UsedBlock, Owned, EntryAt;
    hide SdFile.SameName, SameButEntry, Step, FileChain, Space;
    var vol := file.vol;
    vol.FaultsAreHardware();
    file.StartInSpace();
    closed := false;
    ghost var rest := parts;
    for k := 0 to |parts|
      invariant vol.Valid() && file.Ready() && file.Writable() && !vol.cache.misused && rest == parts[k..]
      invariant file.NothingAhead(file.WriteStart())
      invariant file.WriteStart() + Total(rest) == old(file.WriteStart() + Total(parts))
      invariant file.WriteStart() <= Space(vol.lay, vol.fat, file.chain)
      invariant Space(vol.lay, vol.fat, file.chain) == old(Space(vol.lay, vol.fat, file.chain))
      invariant vol.cache.card.faults == old(vol.cache.card.faults)
    {
      ok := file.Write(parts[k]);
      vol.FaultsAreHardware();
      if !ok {
        return;
      }
      rest := rest[1..];
    }
    closed := file.Close();
    vol.FaultsAreHardware();
    ok := true;
  }

  /** Every cluster of the chain is in use, was free in `fat0`, and nothing else has changed or is free. */
  ghost predicate Leaked(fat0: seq<nat>, fat: seq<nat>, chain: seq<nat>) {
    && |fat| == |fat0| && chain != []
    && (forall c :: c in chain ==> c < |fat| && fat0[c] == 0 && fat[c] != 0)
    && NoneFree(fat)
    && (forall c :: 0 <= c < |fat| && c !in chain && fat0[c] != 0 ==> fat[c] == fat0[c])
  }

  /**
   * A client that writes more than fits. If what fits ends behind the size, so does the position
   * afterwards, unless the hardware fails, with the size still the old one. A read is not cut off
   * there, and the cluster that it goes on to is the end mark of the chain.
   */
  method FillDisk(file: SdFile, src: seq<byte>) returns (ok: bool)
    requires file.vol.Valid() && file.Ready() && file.Writable()
    requires |src| < 0x1_0000 && file.WriteStart() + |src| < SIZE_LIMIT
    requires !file.vol.cache.misused && !file.Dooms(|src|)
    requires file.fileSize < Space(file.vol.lay, file.vol.fat, file.chain) < file.WriteStart() + |src|
    modifies file, file.vol, file.vol.cache, file.vol.cache.card, file.vol.cache.buffer
    ensures file.vol.Valid()
    ensures file.vol.cache.card.hardware == old(file.vol.cache.card.hardware) ==>
      && !ok && file.AtChainEnd() && file.curPosition > file.fileSize == old(file.fileSize)
      && (forall n: nat :: n > 0 ==> SdFile.ReadCount(file.fileSize, file.curPosition, n) > 0)
      && LeadsBehind(file.vol.lay, file.vol.fat, file.curCluster)
  {
    hide SdVolume.Valid, Doomed, IsBlockOf, SdFile.WroteUpTo, NoneFree, LeadsBehind, SdFile.AtChainEnd, NoLeak, Step;
    hide SameButEntry, SdFile.Written, Content, FileChain, Capacity, CursorAt, Layout.WellFormed, Layout.ExtentOk;
    hide SdFile.EntryPlaced, SdFile.EntryAgrees, SdFile.NothingAhead, SdFile.WellPlaced, SdFile.PartCached, EntryAt;
    hide Space, SdFile.Dooms;
    file.vol.MisusedIsWedged();
    ok := file.Write(src);
    file.vol.SameFaults();
    if file.vol.cache.card.faults == old(file.vol.cache.card.faults) {
      EndMarkAhead(file);
    }
  }

  /** The FAT entry of this cluster is an end mark; as a cluster number it leads behind the volume. */
  ghost predicate LeadsBehind(lay: Layout, fat: seq<nat>, c: nat) {
    && c < |fat| && lay.IsEoc(fat[c]) && !lay.IsCluster(fat[c]) && fat[c] >= 2
    && lay.ClusterStart(fat[c]) >= lay.DataEnd()
  }

  lemma EndMarkAhead(file: SdFile)
    requires file.vol.Valid() && file.Linked() && file.Positioned() && file.kind == Normal && file.AtChainEnd()
    requires file.curPosition > 0
    ensures LeadsBehind(file.vol.lay, file.vol.fat, file.curCluster)
  {
    hide SdVolume.Valid, FileChain, CursorAt, Layout.ClusterIndex, AtClusterStart;
    file.vol.Facts();
    var lay, fat := file.vol.lay, file.vol.fat;
    NextCluster(lay, |file.vol.disk|, fat, file.firstCluster, file.chain, file.curPosition, file.curCluster);
    ShlMonotone(lay.clusterCount, fat[file.curCluster] - 2, lay.clusterSizeShift);
  }

  /**
   * A client that writes more to an empty file than the disk has room for, closes it and removes
   * it: unless the hardware fails, the write fails, the name is gone, and the clusters that the
   * write took stay in use although no entry names them.
   */
  method LeakOnFullDisk(file: SdFile, dir: SdFile, str: seq<byte>, illegal: set<byte>, src: seq<byte>)
    returns (wrote: bool, closed: bool, removed: bool)
    requires file.vol.Valid() && file.Ready() && file.Writable() && 0 !in str && dir.flags.read
    requires IsName83(str, illegal) && Filed(file, dir, Encode(str)) && Openable(file.DiskEntry(), WRITE_ONLY)
    requires IsFile(file.DiskEntry()) && file.fileSize == 0 && file.chain == [] && FreeClusters(file.vol.fat) != {}
    requires !file.vol.cache.misused
    requires BLOCK_SIZE * Shl(|FreeClusters(file.vol.fat)|, file.vol.lay.clusterSizeShift) < |src| < 0x1_0000
    modifies file, dir`curCluster, dir`curPosition, dir`firstCluster, dir`flags, dir`chain, dir`fileSize
    modifies file.vol, file.vol.cache, file.vol.cache.card, file.vol.cache.buffer
    ensures file.vol.Valid()
    ensures file.vol.cache.card.hardware == old(file.vol.cache.card.hardware) ==>
      && !wrote && closed && removed
      && HasSlots(dir) && Encode(str) !in TableMap(Slots(dir))
      && Leaked(old(file.vol.fat), file.vol.fat, file.chain)
  {
    hide SdVolume.Valid, SlotOf, FreeTail, UniqueNames, TableMap, Name, EntryAt, FileChain, Encode, Base, Extension;
    hide Attributes, Leaked, Openable, IsFile, SdFile.Positioned, SdFile.EntryAgrees, FreeClusters, Frame, OneSlot;
    hide Layout.WellFormed, Layout.ExtentOk;
    var faults := file.vol.cache.card.faults;
    ghost var e := file.DiskEntry();
    closed, removed := false, false;
    wrote := WriteTooMuch(file, dir, Encode(str), src);
    if file.vol.cache.card.faults != faults {
      file.vol.SameFaults();
      return;
    }
    SameAttributes(e, file.DiskEntry(), WRITE_ONLY);
    closed, removed := CloseAndRemove(file, dir, str, illegal);
    file.vol.SameFaults();
  }

  lemma SameAttributes(e: Entry, e': Entry, mode: OpenMode)
    requires Attributes(e) == Attributes(e')
    ensures IsFile(e) == IsFile(e') && Openable(e, mode) == Openable(e', mode)
  {
  }

  /** Closing and removing the file, which is still empty: the FAT stays as it is. */
  method CloseAndRemove(file: SdFile, dir: SdFile, str: seq<byte>, illegal: set<byte>)
    returns (closed: bool, removed: bool)
    requires file.vol.Valid() && file.Ready() && 0 !in str && dir.flags.read && file.fileSize == 0
      && file.kind == Normal
    requires IsName83(str, illegal) && Filed(file, dir, Encode(str)) && Openable(file.DiskEntry(), WRITE_ONLY)
    requires IsFile(file.DiskEntry())
    modifies file, dir`curCluster, dir`curPosition, dir`firstCluster, dir`flags, dir`chain, dir`fileSize
    modifies file.vol, file.vol.cache, file.vol.cache.card, file.vol.cache.buffer
    ensures file.vol.Valid() && file.chain == old(file.chain)
    ensures file.vol.cache.misused == old(file.vol.cache.misused)
    ensures file.vol.cache.card.faults == old(file.vol.cache.card.faults) ==>
      && closed && removed && file.vol.fat == old(file.vol.fat)
      && HasSlots(dir) && Encode(str) !in TableMap(Slots(dir))
  {
    hide SdVolume.Valid, Layout.WellFormed, Layout.ExtentOk, Layout.BlockCount, Table, SlotOf, FreeTail, UniqueNames;
    hide TableMap, Name, EntryAt, SlotBlock, FileChain, Capacity, SameButEntry, Content, FirstCluster, Size, Confined;
    hide SdFile.Positioned, IsLive, ChainOrEmpty, Encode, Base, Extension, Frame, OneSlot;
    removed := false;
    closed := CloseFiled(file, dir, Encode(str));
    if closed {
      removed := RemoveNamed(dir, str, illegal, file.chain);
    }
  }

  /** A write to a file without clusters rewrites nothing. */
  lemma StartNotDoomed(file: SdFile, m: nat)
    requires file.vol.Valid() && file.Ready() && file.kind == Normal && file.fileSize == 0 && file.chain == []
    ensures file.Dooms(m) ==> file.vol.cache.misused
  {
    hide SdVolume.Valid, FileChain, SdFile.EntryPlaced, SdFile.EntryAgrees;
    file.vol.Facts();
    CursorInCapacity(file.vol.lay, [], file.curPosition, file.curCluster);
    NextCluster(file.vol.lay, |file.vol.disk|, file.vol.fat, file.firstCluster, [], file.curPosition, file.curCluster);
    if file.vol.lay.blocksPerCluster > 0 {
      NotDoomed(file.vol.lay, [], file.vol.CacheNow(), 0, m);
    }
  }

  /** The write: it takes all free clusters, and the size stays 0. */
  method WriteTooMuch(file: SdFile, dir: SdFile, ghost name: seq<byte>, src: seq<byte>) returns (ok: bool)
    requires file.vol.Valid() && file.Ready() && file.Writable() && Filed(file, dir, name)
    requires file.fileSize == 0 && file.chain == [] && FreeClusters(file.vol.fat) != {}
    requires BLOCK_SIZE * Shl(|FreeClusters(file.vol.fat)|, file.vol.lay.clusterSizeShift) < |src| < 0x1_0000
    modifies file`curCluster, file`curPosition, file`fileSize, file`firstCluster, file`flags, file`chain
    modifies file.vol, file.vol.cache, file.vol.cache.card, file.vol.cache.buffer
    ensures file.vol.Valid() && (file.vol.cache.misused ==> old(file.vol.cache.misused))
    ensures file.vol.cache.card.faults == old(file.vol.cache.card.faults) ==>
      && !ok && file.Ready() && OnlyItsEntry(file, dir, name) && file.fileSize == 0
      && Leaked(old(file.vol.fat), file.vol.fat, file.chain)
  {
    hide SdVolume.Valid, Layout.WellFormed, Layout.ExtentOk, Table, SlotOf, FreeTail, UniqueNames, TableMap, Name;
    hide Attributes, EntryAt, SlotBlock, SameButEntry, Content, SdFile.Written, SdFile.WroteUpTo, IsLive;
    hide SdFile.NothingAhead, SdFile.PartCached, Frame, OneSlot, Layout.InFat;
    ghost var fat0 := file.vol.fat;
    file.vol.Facts();
    StartNotDoomed(file, |src|);
    ok := WriteFiled(file, dir, name, src);
    file.vol.Facts();
    if file.vol.cache.card.faults == old(file.vol.cache.card.faults) {
      ghost var c :| c in FreeClusters(fat0);
      forall c | c in file.chain
        ensures c < |file.vol.fat| && file.vol.fat[c] != 0
      {
        ChainInUse(file.vol.lay, file.vol.fat, file.chain, c);
      }
    }
  }

  /**
   * A client that makes a directory for which there is no room, though `open` would create a file:
   * unless the hardware fails it gets false, and the name that was new lists an empty file.
   */
  method MakeDirWithoutRoom(file: SdFile, dir: SdFile, str: seq<byte>, illegal: set<byte>) returns (ok: bool)
    requires file != dir && file.vol == dir.vol && file.kind == Closed && 0 !in str && IsName83(str, illegal)
    requires dir.vol.Valid() && DirHandle(dir) && dir.flags.read && HasSlots(dir) && Sound(Slots(dir))
    requires dir.fileSize + dir.vol.lay.ClusterBytes() < SIZE_LIMIT && !dir.vol.cache.misused
    requires !OpenRefused(dir, Encode(str), NEW_FILE) && !RoomForDir(dir)
    modifies file, dir`curCluster, dir`curPosition, dir`firstCluster, dir`flags, dir`chain, dir`fileSize
    modifies dir.vol, dir.vol.cache, dir.vol.cache.card, dir.vol.cache.buffer
    ensures Encode(str) !in old(TableMap(Slots(dir)))
    ensures dir.vol.cache.card.hardware == old(dir.vol.cache.card.hardware) ==>
      && !ok && HasSlots(dir) && Encode(str) in TableMap(Slots(dir))
      && IsEmptyFile(TableMap(Slots(dir))[Encode(str)])
  {
    hide SdVolume.Valid, Layout.WellFormed, Layout.ExtentOk, Table, TableMap, Sound, DirHandle, RoomForDir, IsEmptyFile;
    hide Encode, Base, Extension, Frame, OneSlot, FirstEmpty, SdFile.Linked;
    ok := MakeDir(file, dir, str, illegal);
    dir.vol.SameFaults();
  }

  /** A path component of thirteen characters is taken apart. */
  lemma LongComponent()
    ensures var name := [0x61, 0x62, 0x63, 0x64, 0x65, 0x66, 0x67, 0x68, 0x69, 0x6A, 0x6B, 0x6C, 0x6D];
      Walk(Path.Join([name])) != [name]
  {
    var name: seq<byte> := [0x61, 0x62, 0x63, 0x64, 0x65, 0x66, 0x67, 0x68, 0x69, 0x6A, 0x6B, 0x6C, 0x6D];
    WalkJoin([name]);
    assert |[name][0]| > MAX_COMPONENT;
  }
}
