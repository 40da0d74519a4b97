/** An open file and the directory that lists it. */
module Filing {
  import opened Bytes
  import opened VolumeLayout
  import opened Chains
  import opened FileData
  import opened DirEntry
  import opened DirTable
  import opened DirOnDisk
  import opened Names
  import opened Volume
  import opened File
  import opened Directories
  import opened Frames

  /** `dir` lists the open file `f` under `name`. */
  ghost predicate Filed(f: SdFile, dir: SdFile, name: seq<byte>)
    reads f, dir, dir.vol
  {
    && f.vol == dir.vol && f != dir && Disjoint(f.chain, dir.chain)
    && DirHandle(dir) && HasSlots(dir) && Sound(Slots(dir)) && InSlot(dir, name, f.dirBlock, f.dirIndex)
  }

  /** The directory's map has changed at most in the entry of `f`. */
  twostate predicate OnlyItsEntry(f: SdFile, dir: SdFile, name: seq<byte>)
    reads f, dir, dir.vol
  {
    && old(HasSlots(dir)) && Filed(f, dir, name) && f.EntryOnDisk() && f.SameName()
    && TableMap(Slots(dir)) == old(TableMap(Slots(dir)))[name := f.DiskEntry()]
    && dir.Place() == old(dir.Place()) && SlotCount(dir) == old(SlotCount(dir)) && dir.chain == old(dir.chain)
    && OneSlot(old(Slots(dir)), Slots(dir), SlotOf(Slots(dir), name))
    && old(SlotOf(Slots(dir), name)) == SlotOf(Slots(dir), name)
  }

  /** `write` to a file of an open directory. */
  method WriteFiled(f: SdFile, dir: SdFile, ghost name: seq<byte>, src: seq<byte>) returns (ok: bool)
    requires f.vol.Valid() && f.Ready() && f.Writable() && Filed(f, dir, name)
    requires |src| < 0x1_0000 && f.WriteStart() + |src| < SIZE_LIMIT
    modifies f`curCluster, f`curPosition, f`fileSize, f`firstCluster, f`flags, f`chain
    modifies f.vol, f.vol.cache, f.vol.cache.card, f.vol.cache.buffer
    ensures f.vol.Valid() && f.WriteOutcome(src, ok) && OnlyItsEntry(f, dir, name)
    ensures f.vol.cache.card.faults == old(f.vol.cache.card.faults) ==> f.BySpace(src, ok)
    ensures Framed(f, dir, old(f.chain), f.chain)
  {
    hide SdVolume.Valid, Layout.WellFormed, Layout.ExtentOk, Layout.BlockCount, Table, SlotOf, FreeTail, UniqueNames;
    hide TableMap, Name, Attributes, EntryAt, SlotBlock, FileChain, Capacity, SameButEntry, Content, SdFile.Written;
    hide SdFile.WroteUpTo, Confined, SdFile.Ready, SdFile.WellPlaced, IsLive, ChainOrEmpty, SdFile.BySpace, Space;
    ghost var d, fat, own, k := f.vol.disk, f.vol.fat, f.chain, SlotOf(Slots(dir), name);
    ok := f.Write(src);
    dir.vol.Facts();
    SameLength(f.vol.lay, d, f.vol.disk, f.chain, f.dirBlock, f.dirIndex);
    FileStepInDir(f.vol.lay, fat, f.vol.fat, d, f.vol.disk, dir.Place(), dir.firstCluster, dir.chain,
                  SlotCount(dir), k, own, f.chain);
    SlotFramed(dir, fat, d, k, own, f.chain, f.chain);
  }

  /** `sync` of a file of an open directory. */
  method SyncFiled(f: SdFile, dir: SdFile, ghost name: seq<byte>) returns (ok: bool)
    requires f.vol.Valid() && f.Ready() && f.kind == Normal && Filed(f, dir, name)
    modifies f`flags, f.vol`disk, f.vol.cache, f.vol.cache.card, f.vol.cache.buffer
    ensures f.vol.Valid() && f.Ready() && OnlyItsEntry(f, dir, name) && Framed(f, dir, f.chain, f.chain)
    ensures f.vol.cache.misused == old(f.vol.cache.misused)
    ensures !ok ==> f.vol.cache.card.faults > old(f.vol.cache.card.faults)
    ensures ok ==> f.vol.Flushed() && !f.flags.dirDirty && f.vol.cache.card.faults == old(f.vol.cache.card.faults)
    ensures f.flags == old(f.flags).(dirDirty := f.flags.dirDirty)
  {
    hide SdVolume.Valid, Layout.WellFormed, Layout.ExtentOk, Layout.BlockCount, Table, SlotOf, FreeTail, UniqueNames;
    hide TableMap, Name, Attributes, EntryAt, SlotBlock, FileChain, Capacity, SameButEntry, Content, FirstCluster;
    hide Size, Confined, IsLive, SdFile.Positioned, Owned, UsedBlock;
    ghost var d, fat, k := f.vol.disk, f.vol.fat, SlotOf(Slots(dir), name);
    NothingConfined(fat, f.chain);
    ok := f.SyncReady();
    dir.vol.Facts();
    SameButEntryOwn(f.vol.lay, d, f.vol.disk, f.chain, f.dirBlock, f.dirIndex);
    FileStepInDir(f.vol.lay, fat, fat, d, f.vol.disk, dir.Place(), dir.firstCluster, dir.chain,
                  SlotCount(dir), k, f.chain, f.chain);
    SlotFramed(dir, fat, d, k, f.chain, f.chain, f.chain);
  }

  /** `close` of a file of an open directory. */
  method CloseFiled(f: SdFile, dir: SdFile, ghost name: seq<byte>) returns (ok: bool)
    requires f.vol.Valid() && f.Ready() && f.kind == Normal && Filed(f, dir, name)
    modifies f`flags, f`kind, f.vol`disk, f.vol.cache, f.vol.cache.card, f.vol.cache.buffer
    ensures f.vol.Valid() && OnlyItsEntry(f, dir, name) && Framed(f, dir, f.chain, f.chain)
    ensures f.vol.cache.misused == old(f.vol.cache.misused)
    ensures !ok ==> f.vol.cache.card.faults > old(f.vol.cache.card.faults)
    ensures ok ==> f.kind == Closed && f.vol.Flushed() && f.vol.cache.card.faults == old(f.vol.cache.card.faults)
    ensures ok ==>
      && f.EntryPlaced() && FirstCluster(f.DiskEntry()) == f.firstCluster && Size(f.DiskEntry()) == f.fileSize
      && f.WellPlaced(old(f.vol.disk), f.chain, 0, f.fileSize) && f.WellPlaced(f.vol.disk, f.chain, 0, f.fileSize)
      && Content(f.vol.lay, f.vol.disk, Clusters(f.chain), f.fileSize)
         == Content(f.vol.lay, old(f.vol.disk), Clusters(f.chain), f.fileSize)
  {
    hide SdVolume.Valid, Layout.WellFormed, Layout.ExtentOk, Layout.BlockCount, Table, SlotOf, FreeTail, UniqueNames;
    hide TableMap, Name, Attributes, EntryAt, SlotBlock, FileChain, Capacity, SameButEntry, Content, FirstCluster;
    hide Size, Confined, SdFile.Ready, SdFile.WellPlaced, SdFile.EntryPlaced, IsLive;
    ghost var d, fat, k := f.vol.disk, f.vol.fat, SlotOf(Slots(dir), name);
    NothingConfined(fat, f.chain);
    f.ReadyOnDisk();
    ok := f.Close();
    dir.vol.Facts();
    SameButEntryOwn(f.vol.lay, d, f.vol.disk, f.chain, f.dirBlock, f.dirIndex);
    FileStepInDir(f.vol.lay, fat, fat, d, f.vol.disk, dir.Place(), dir.firstCluster, dir.chain,
                  SlotCount(dir), k, f.chain, f.chain);
    SlotFramed(dir, fat, d, k, f.chain, f.chain, f.chain);
  }

  lemma SameButEntryOwn(lay: Layout, d: seq<Block>, d': seq<Block>, own: seq<nat>, block: nat, index: nat)
    requires SameButEntry(lay, d, d', [], block, index)
    ensures SameButEntry(lay, d, d', own, block, index)
  {
  }

  /**
   * A client that writes a file, closes it and opens it again by name: the new handle has the
   * same first cluster, size and clusters, and reads what was written.
   */
  method WriteCloseOpen(f: SdFile, g: SdFile, dir: SdFile, str: seq<byte>, illegal: set<byte>, src: seq<byte>)
    returns (ok: bool)
    requires f.vol.Valid() && f.Ready() && f.Writable() && 0 !in str
    requires IsName83(str, illegal) && Filed(f, dir, Encode(str)) && IsFile(f.DiskEntry())
    requires g.vol == f.vol && g.kind == Closed && g != f && g != dir && dir.flags.read
    requires |src| < 0x1_0000 && f.WriteStart() + |src| < SIZE_LIMIT
    modifies f, g, dir`curCluster, dir`curPosition, dir`firstCluster, dir`flags, dir`chain, dir`fileSize
    modifies f.vol, f.vol.cache, f.vol.cache.card, f.vol.cache.buffer
    ensures f.vol.Valid() && Framed(f, dir, old(f.chain), f.chain) && OnlyNamed(dir, Encode(str))
    ensures ok ==>
      && g.Ready() && g.kind == Normal && g.curPosition == 0
      && g.firstCluster == f.firstCluster && g.fileSize == f.fileSize && g.chain == f.chain
      && f.fileSize == (var end := old(f.WriteStart()) + |src|; if end > old(f.fileSize) then end else old(f.fileSize))
      && f.WellPlaced(old(f.vol.disk), old(f.chain), old(f.WriteStart()), old(f.fileSize)) && g.HasContent()
      && g.FileContent()
         == SdFile.Written(f.vol.lay, old(f.vol.disk), old(f.chain), old(f.fileSize), old(f.WriteStart()), src)
    // with a sound cache and hardware that works, the state before decides
    ensures old(!f.vol.cache.misused && !f.Dooms(|src|))
            && f.vol.cache.card.hardware == old(f.vol.cache.card.hardware) ==>
      (ok <==> old(f.WriteStart() + |src| <= Space(f.vol.lay, f.vol.fat, f.chain)))
    ensures f.vol.cache.card.faults == old(f.vol.cache.card.faults) ==>
      (ok <==> old(f.WriteStart() + |src| <= Space(f.vol.lay, f.vol.fat, f.chain)))
  {
    hide SdVolume.Valid, Layout.WellFormed, Layout.ExtentOk, Layout.BlockCount, Table, SlotOf, FreeTail, UniqueNames;
    hide TableMap, Name, EntryAt, SlotBlock, FileChain, Capacity, SameButEntry, Content, FirstCluster, Size, Confined;
    hide SdFile.Positioned, IsLive, ChainOrEmpty, Encode, Base, Extension, Frame, OneSlot, Space;
    ok := WriteAndClose(f, dir, Encode(str), src);
    if ok {
      ok := Open(g, dir, str, illegal, READ_ONLY, f.chain);
    }
    if !f.vol.cache.misused && !old(f.vol.cache.misused) {
      f.vol.SameFaults();
    }
  }

  /** Its first half: afterwards the entry names the file's first cluster and size. */
  method WriteAndClose(f: SdFile, dir: SdFile, ghost name: seq<byte>, src: seq<byte>) returns (ok: bool)
    requires f.vol.Valid() && f.Ready() && f.Writable() && Filed(f, dir, name)
    requires |src| < 0x1_0000 && f.WriteStart() + |src| < SIZE_LIMIT
    modifies f, f.vol, f.vol.cache, f.vol.cache.card, f.vol.cache.buffer
    ensures f.vol.Valid() && Framed(f, dir, old(f.chain), f.chain) && OnlyNamed(dir, name) && Filed(f, dir, name)
    ensures f.vol.cache.misused ==> old(f.vol.cache.misused || f.Dooms(|src|))
    ensures ok ==>
      && f.kind == Closed && f.vol.cache.card.faults == old(f.vol.cache.card.faults)
      && f.EntryPlaced() && FirstCluster(f.DiskEntry()) == f.firstCluster && Size(f.DiskEntry()) == f.fileSize
      && f.SameName() && FileChain(f.vol.lay, f.vol.fat, f.firstCluster, f.chain)
      && f.fileSize == (var end := old(f.WriteStart()) + |src|; if end > old(f.fileSize) then end else old(f.fileSize))
      && f.WellPlaced(old(f.vol.disk), old(f.chain), old(f.WriteStart()), old(f.fileSize))
      && f.WellPlaced(f.vol.disk, f.chain, 0, f.fileSize)
      && Content(f.vol.lay, f.vol.disk, Clusters(f.chain), f.fileSize)
         == SdFile.Written(f.vol.lay, old(f.vol.disk), old(f.chain), old(f.fileSize), old(f.WriteStart()), src)
    ensures f.vol.cache.card.faults == old(f.vol.cache.card.faults) ==>
      (ok <==> old(f.WriteStart() + |src| <= Space(f.vol.lay, f.vol.fat, f.chain)))
  {
    hide SdVolume.Valid, Layout.WellFormed, Layout.ExtentOk, Layout.BlockCount, Table, SlotOf, FreeTail, UniqueNames;
    hide TableMap, Name, EntryAt, SlotBlock, FileChain, Capacity, SameButEntry, Content, FirstCluster, Size, Confined;
    hide Space, SdFile.Positioned, IsLive, ChainOrEmpty, Frame, OneSlot, SdFile.Written, NoLeak, SdFile.WroteUpTo;
    hide SdFile.NothingAhead, SdFile.PartCached, SdFile.Dooms, Attributes;
    ghost var lay, d0, f0, s0, own, p, t := f.vol.lay, f.vol.disk, f.vol.fat, dir.chain, f.chain, dir.Place(),
      Slots(dir);
    ok := WriteFiled(f, dir, name, src);
    if !ok {
      return false;
    }
    ghost var d1, f1, t1 := f.vol.disk, f.vol.fat, Slots(dir);
    ok := CloseFiled(f, dir, name);
    FrameTrans(lay, f0, f1, f.vol.fat, d0, d1, f.vol.disk, s0, s0, s0, own, f.chain, f.chain, p, p, f.dirBlock,
               f.dirIndex);
    OneSlotTwice(t, t1, Slots(dir), SlotOf(t, name));
  }
}
