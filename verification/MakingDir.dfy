/** makeDir: a new subdirectory with its '.' and '..' entries. */
module MakingDir {
  import opened Bytes
  import opened Bits
  import opened VolumeLayout
  import opened Device
  import opened Chains
  import opened Allocation
  import opened FileData
  import opened DirEntry
  import opened DirTable
  import opened DirOnDisk
  import opened Names
  import opened Volume
  import opened File
  import opened Directories
  import opened Filing
  import opened Frames
  import opened Contiguous

  // ---------------------------------------------------------------- the entries

  /** The entry with the directory attribute. */
  function AsDirectory(e: Entry): Entry { e[11 := 0x10] }

  /** The '.' entry of a directory whose own entry is `e`. */
  function DotOf(e: Entry): Entry { [DOT] + Blanks(10) + e[11..] }

  /** The '..' entry: it names the parent's first cluster, or 0 for a root. */
  function DotDotOf(e: Entry, parent: nat): Entry { WithFirstCluster(DotOf(e)[1 := DOT], parent) }

  lemma AsDirectoryFields(e: Entry)
    ensures var r := AsDirectory(e);
      Name(r) == Name(e) && Attributes(r) == ATT_DIRECTORY && FirstCluster(r) == FirstCluster(e) && Size(r) == Size(e)
  {
  }

  lemma DotFields(e: Entry, parent: nat)
    requires parent < 0x1_0000_0000
    ensures IsDot(DotOf(e)) && FirstCluster(DotOf(e)) == FirstCluster(e) && Attributes(DotOf(e)) == Attributes(e)
    ensures IsDot(DotDotOf(e, parent)) && FirstCluster(DotDotOf(e, parent)) == parent
    ensures Attributes(DotDotOf(e, parent)) == Attributes(e)
  {
    hide FirstCluster;
    var e1 := DotOf(e)[1 := DOT];
    FirstClusterSet(e1, parent);
    assert FirstCluster(DotOf(e)) == FirstCluster(e) by {
      SameClusterField(DotOf(e), e);
    }
    assert Name(e1)[0] == DOT && Name(DotDotOf(e, parent))[0] == DotDotOf(e, parent)[0];
  }

  lemma SameClusterField(e: Entry, e': Entry)
    requires e[11..] == e'[11..]
    ensures FirstCluster(e) == FirstCluster(e')
  {
    assert forall i {:trigger e[i]} :: 11 <= i < 32 ==> e[i] == e[11..][i - 11];
    assert forall i {:trigger e'[i]} :: 11 <= i < 32 ==> e'[i] == e'[11..][i - 11];
  }

  /** The table of a new directory: '.' and '..', then free slots only. */
  ghost predicate NewTable(t: seq<Entry>, own: nat, parent: nat) {
    && |t| >= 2
    && Name(t[0]) == [DOT] + Blanks(10) && FirstCluster(t[0]) == own && Attributes(t[0]) == ATT_DIRECTORY
    && Name(t[1]) == [DOT, DOT] + Blanks(9) && FirstCluster(t[1]) == parent && Attributes(t[1]) == ATT_DIRECTORY
    && forall k :: 2 <= k < |t| ==> t[k] == ZERO_ENTRY
  }

  /** The first two slots by their bytes: named '.' and '..', directories, of clusters `own` and `up`. */
  ghost predicate DotEntries(t: seq<Entry>, own: nat, up: nat) {
    && |t| >= 2
    && t[0][0..11] == [0x2E, 0x20, 0x20, 0x20, 0x20, 0x20, 0x20, 0x20, 0x20, 0x20, 0x20]
    && t[1][0..11] == [0x2E, 0x2E, 0x20, 0x20, 0x20, 0x20, 0x20, 0x20, 0x20, 0x20, 0x20]
    && t[0][11] == 0x10 && Word(t[0], 26) + 65536 * Word(t[0], 20) == own
    && t[1][11] == 0x10 && Word(t[1], 26) + 65536 * Word(t[1], 20) == up
  }

  /** The entry of a directory by its bytes: its attribute, its first cluster, and no size. */
  ghost predicate DirectoryEntry(e: Entry, own: nat) {
    e[11] == 0x10 && Word(e, 26) + 65536 * Word(e, 20) == own && Long(e, 28) == 0
  }

  lemma NewTableByBytes(t: seq<Entry>, own: nat, parent: nat)
    requires NewTable(t, own, parent)
    ensures DotEntries(t, own, parent)
  {
    FieldsByBytes(t[0]);
    FieldsByBytes(t[1]);
    hide Name, FirstCluster, Attributes;
    assert [DOT] + Blanks(10) == [0x2E, 0x20, 0x20, 0x20, 0x20, 0x20, 0x20, 0x20, 0x20, 0x20, 0x20];
    assert [DOT, DOT] + Blanks(9) == [0x2E, 0x2E, 0x20, 0x20, 0x20, 0x20, 0x20, 0x20, 0x20, 0x20, 0x20];
  }

  /** The new directory and its parent by bytes. */
  lemma NewDirByBytes(file: SdFile, dir: SdFile)
    requires IsNewDir(file, ParentCluster(dir)) && DirHandle(dir) && Size(file.DiskEntry()) == 0
    ensures file.chain != [] && (dir.kind == SubDir ==> dir.chain != [])
    ensures DotEntries(Slots(file), file.chain[0], if dir.kind == SubDir then dir.chain[0] else 0)
    ensures DirectoryEntry(file.DiskEntry(), file.chain[0])
  {
    FieldsByBytes(file.DiskEntry());
    hide FirstCluster, Attributes, Size, EntryAt, Table, NewTable, SdVolume.Flushed;
    NewTableByBytes(Slots(file), file.firstCluster, ParentCluster(dir));
  }

  lemma DotIsFirst(e: Entry)
    ensures Name(e) != [] && (Name(e)[0] == DOT ==> IsDot(e))
  {
  }

  /** So it is a sound and empty directory. */
  lemma NewTableIsEmpty(t: seq<Entry>, own: nat, parent: nat)
    requires NewTable(t, own, parent)
    ensures Sound(t) && IsEmptyDir(t)
  {
    hide Name, FirstCluster, Attributes;
    DotIsFirst(t[0]);
    DotIsFirst(t[1]);
    assert ([DOT] + Blanks(10))[1] != ([DOT, DOT] + Blanks(9))[1];
    ZeroIsFree();
    FreeOrLive();
  }

  // ---------------------------------------------------------------- the steps of makeDir

  /** The disk is full: the volume is unchanged, and the handle is that of a directory without clusters. */
  twostate predicate NothingBuilt(file: SdFile)
    reads file, file.vol
  {
    && file.kind == SubDir && file.chain == [] && !file.flags.dirDirty && file.vol.disk == old(file.vol.disk)
      && file.vol.fat == old(file.vol.fat)
    && NoneFree(file.vol.fat)
  }

  /** Convert the new file to a directory and give it a zeroed cluster. */
  method StartDir(file: SdFile) returns (ok: bool)
    requires file.vol.Valid() && file.Ready() && file.kind == Normal
    requires file.chain == [] && file.fileSize == file.curPosition == 0
    requires file.vol.lay.ClusterBytes() < SIZE_LIMIT
    modifies file, file.vol, file.vol.cache, file.vol.cache.card, file.vol.cache.buffer
    ensures file.vol.Valid() && |file.vol.disk| == |old(file.vol.disk)|
    ensures file.vol.cache.misused == old(file.vol.cache.misused)
    ensures file.dirBlock == old(file.dirBlock) && file.dirIndex == old(file.dirIndex)
    ensures Step(file.vol.lay, old(file.vol.fat), file.vol.fat, [], file.chain)
    ensures SameElsewhere(file.vol.lay, old(file.vol.disk), file.vol.disk, file.chain)
    ensures old(file.EntryOnDisk()) && file.EntryOnDisk() && file.DiskEntry() == old(file.DiskEntry())
    ensures ok ==>
      && file.kind == SubDir && DirHandle(file) && HasSlots(file) && file.EntryPlaced()
      && file.chain == [file.firstCluster] && file.curCluster == file.firstCluster >= 2
      && (forall k :: 0 <= k < SlotCount(file) ==> Slots(file)[k] == ZERO_ENTRY)
      && file.flags == Flags(true, false, false, false, false, true)
      && file.vol.cache.card.faults == old(file.vol.cache.card.faults)
      && OnlyOf(old(file.vol.fat), file.vol.fat, file.chain)
    ensures !ok && file.vol.cache.card.faults == old(file.vol.cache.card.faults) ==> NothingBuilt(file)
  {
    hide SdVolume.Valid, Layout.WellFormed, Layout.ExtentOk, Table, Layout.EocMin, Layout.InFat;
    hide IsChain, EocAboveClusters, Step, SameElsewhere, Owned, UsedBlock, EntryAt, FirstCluster, Size;
    ghost var d, f := file.vol.disk, file.vol.fat;
    ShlZero(file.vol.lay.clusterSizeShift);
    file.flags := Flags(true, false, false, false, false, false);
    file.kind := SubDir;
    CountsOk(file);
    ok := AddDirCluster(file);
    EntryStays(file.vol.lay, f, file.vol.fat, [], file.chain, d, file.vol.disk, file.dirBlock);
  }

  lemma AttributeStored(b: Block, i: nat)
    requires i < ENTRIES_PER_BLOCK
    ensures Overwrite(b, ENTRY_SIZE * i + 11, [0x10]) == WithEntry(b, i, AsDirectory(EntryAt(b, i)))
  {
  }

  /** Sync, then mark the entry as that of a directory. */
  method WriteDirEntry(file: SdFile) returns (ok: bool)
    requires file.vol.Valid() && file.kind == SubDir && DirHandle(file) && HasSlots(file) && file.EntryPlaced()
    requires file.flags.dirDirty
    modifies file`flags, file.vol`disk, file.vol.cache, file.vol.cache.card, file.vol.cache.buffer
    ensures file.vol.Valid() && |file.vol.disk| == |old(file.vol.disk)|
    ensures file.vol.cache.misused == old(file.vol.cache.misused)
    ensures SameButEntry(file.vol.lay, old(file.vol.disk), file.vol.disk, [], file.dirBlock, file.dirIndex)
    ensures old(file.EntryOnDisk()) && file.EntryOnDisk() && Name(file.DiskEntry()) == old(Name(file.DiskEntry()))
    ensures ok ==>
      && file.flags == old(file.flags).(dirDirty := false) && DirHandle(file) && HasSlots(file)
      && SlotCount(file) == old(SlotCount(file)) && Slots(file) == old(Slots(file))
      && Attributes(file.DiskEntry()) == ATT_DIRECTORY && FirstCluster(file.DiskEntry()) == file.firstCluster
      && file.vol.cache.blockNumber == file.dirBlock && file.vol.cache.card.faults == old(file.vol.cache.card.faults)
      && Size(file.DiskEntry()) == old(Size(file.DiskEntry()))
    ensures !ok ==> file.vol.cache.card.faults > old(file.vol.cache.card.faults)
  {
    hide SdVolume.Valid, Layout.WellFormed, Layout.ExtentOk, Layout.BlockCount, Table, Layout.InFat, Capacity;
    hide FileChain, Owned, UsedBlock, EntryAt, FirstCluster, Name, Attributes, Size, SameButEntry, Synced, WithEntry;
    hide Overwrite, AsDirectory;
    var vol := file.vol;
    ghost var d, lay, b, i := vol.disk, vol.lay, file.dirBlock, file.dirIndex;
    vol.Facts();
    FirstClusterBound(lay, |d|, vol.fat, file.firstCluster, file.chain);
    NothingReplaced(lay, d, b, i);
    ghost var stamp;
    ok, stamp := file.Sync();
    ghost var d1, e1 := vol.disk, EntryAt(d[b], i);
    if !file.flags.dirDirty {
      e1 := Synced(EntryAt(d[b], i), true, file.fileSize, file.firstCluster, stamp);
      SyncedFields(EntryAt(d[b], i), true, file.fileSize, file.firstCluster, stamp);
      EntryReplaced(lay, d, b, i, e1);
      WithEntryAt(d[b], i, e1, i);
    }
    if !ok {
      return false;
    }
    ok := vol.CacheRawBlock(file.dirBlock, true);
    if !ok {
      return false;
    }
    vol.CopyIn(ENTRY_SIZE * file.dirIndex + 11, [0x10]);
    AttributeStored(d1[b], i);
    AsDirectoryFields(e1);
    EntryReplaced(lay, d1, b, i, AsDirectory(e1));
    WithEntryAt(d1[b], i, AsDirectory(e1), i);
    SameButEntryWiden(lay, d, d1, vol.disk, [], b, i);
    TableFrame(lay, d, vol.disk, [], b, i, file.Place(), SlotCount(file));
  }

  /** Write '.' and '..' into the first two slots. */
  method WriteDots(file: SdFile, e: Entry, parent: nat) returns (ok: bool)
    requires file.vol.Valid() && file.kind == SubDir && DirHandle(file) && HasSlots(file)
    requires file.chain == [file.firstCluster] && file.firstCluster >= 2
    modifies file.vol`disk, file.vol.cache, file.vol.cache.card, file.vol.cache.buffer
    ensures file.vol.Valid() && |file.vol.disk| == |old(file.vol.disk)|
    ensures file.vol.cache.misused == old(file.vol.cache.misused)
    ensures SameElsewhere(file.vol.lay, old(file.vol.disk), file.vol.disk, file.chain)
    ensures ok ==>
      && DirHandle(file) && HasSlots(file) && SlotCount(file) == old(SlotCount(file)) >= 16
      && Slots(file) == old(Slots(file))[0 := DotOf(e)][1 := DotDotOf(e, parent)]
      && file.vol.cache.card.faults == old(file.vol.cache.card.faults)
    ensures !ok ==> file.vol.cache.card.faults > old(file.vol.cache.card.faults)
  {
    hide SdVolume.Valid, Layout.WellFormed, Layout.ExtentOk, Table, Layout.InFat, Capacity;
    hide FileChain, SameButEntry, SameElsewhere, DotOf, DotDotOf;
    var vol := file.vol;
    ghost var lay, d, c := vol.lay, vol.disk, file.firstCluster;
    vol.Facts();
    DotsBlock(lay, |d|, c);
    NothingReplaced(lay, d, lay.ClusterStart(c), 0);
    SameButEntryOwn(lay, d, d, file.chain, lay.ClusterStart(c), 0);
    EntryInOwn(lay, d, d, lay.ClusterStart(c), 0, file.chain);
    ok := vol.CacheRawBlock(vol.lay.ClusterStart(file.firstCluster), true);
    if !ok {
      return false;
    }
    WriteSlot(file, 0, 0, DotOf(e));
    ghost var d1 := vol.disk;
    SameButEntryOwn(lay, d, d1, file.chain, lay.ClusterStart(c), 0);
    EntryInOwn(lay, d, d1, lay.ClusterStart(c), 0, file.chain);
    WriteSlot(file, 1, 1, DotDotOf(e, parent));
    SameButEntryOwn(lay, d1, vol.disk, file.chain, lay.ClusterStart(c), 1);
    EntryInOwn(lay, d1, vol.disk, lay.ClusterStart(c), 1, file.chain);
    SameElsewhereTrans(lay, d, d1, vol.disk, file.chain, file.chain);
  }

  /** The first two slots lie in the first block of the cluster. */
  lemma DotsBlock(lay: Layout, n: nat, c: nat)
    requires lay.WellFormed(n) && lay.ExtentOk(Clusters([c]))
    ensures c >= 2 && lay.BlockCount(Clusters([c])) >= 1 && 0 < lay.ClusterStart(c) < n
      && !lay.InFat(lay.ClusterStart(c))
    ensures SlotBlock(lay, Clusters([c]), 0) == SlotBlock(lay, Clusters([c]), 1) == lay.ClusterStart(c)
    ensures Owned(lay, [c], lay.ClusterStart(c))
  {
    assert lay.IsCluster([c][0]);
    assert [] + [c] == [c];
    ShlZero(lay.clusterSizeShift);
    FirstNewSlot(lay, [], c);
    NthBlockPlace(lay, n, Clusters([c]), 0);
  }

  /** A new directory, as its handle and its entry show it. */
  ghost predicate IsNewDir(file: SdFile, parent: nat)
    reads file, file.vol, file.vol.cache, file.vol.cache.card
  {
    && file.kind == SubDir && DirHandle(file) && HasSlots(file) && file.EntryPlaced() && file.Positioned()
    && file.flags == Flags(true, false, false, false, false, false)
    && file.chain == [file.firstCluster] && FirstCluster(file.DiskEntry()) == file.firstCluster
    && Attributes(file.DiskEntry()) == ATT_DIRECTORY
    && NewTable(Slots(file), file.firstCluster, parent) && file.vol.Flushed()
  }

  /** makeDir after `open`. */
  method BuildDir(file: SdFile, parent: nat) returns (ok: bool)
    requires file.vol.Valid() && file.Ready() && file.kind == Normal && parent < 0x1_0000_0000
    requires file.chain == [] && file.fileSize == file.curPosition == 0
    requires file.vol.lay.ClusterBytes() < SIZE_LIMIT
    modifies file, file.vol, file.vol.cache, file.vol.cache.card, file.vol.cache.buffer
    ensures file.vol.Valid() && |file.vol.disk| == |old(file.vol.disk)|
    ensures file.vol.cache.misused == old(file.vol.cache.misused)
    ensures file.dirBlock == old(file.dirBlock) && file.dirIndex == old(file.dirIndex)
    ensures Step(file.vol.lay, old(file.vol.fat), file.vol.fat, [], file.chain)
    ensures SameButEntry(file.vol.lay, old(file.vol.disk), file.vol.disk, file.chain, file.dirBlock, file.dirIndex)
    ensures old(file.EntryOnDisk()) && file.EntryOnDisk() && Name(file.DiskEntry()) == old(Name(file.DiskEntry()))
    ensures ok ==>
      && IsNewDir(file, parent) && file.vol.cache.card.faults == old(file.vol.cache.card.faults)
      && Size(file.DiskEntry()) == old(Size(file.DiskEntry()))
      && OnlyOf(old(file.vol.fat), file.vol.fat, file.chain)
    ensures !ok && file.vol.cache.card.faults == old(file.vol.cache.card.faults) ==> NothingBuilt(file)
  {
    hide SdVolume.Valid, Layout.WellFormed, Layout.ExtentOk, Layout.BlockCount, Table, Layout.InFat, Capacity;
    hide SlotBlock, FileChain, Owned, UsedBlock, EntryAt, FirstCluster, Name, Attributes, Size, SameButEntry;
    hide SameElsewhere, Step, DirHandle, NewTable, DotOf, DotDotOf, ChainOrEmpty, Confined;
    var vol := file.vol;
    ghost var d, lay, b, i := vol.disk, vol.lay, file.dirBlock, file.dirIndex;
    ok := StartDir(file);
    ghost var d1 := vol.disk;
    ElsewhereButEntry(lay, d, d1, file.chain, b, i);
    if !ok {
      return false;
    }
    ghost var t1 := Slots(file);
    ok := WriteDirEntry(file);
    ghost var d2 := vol.disk;
    SameButEntryWiden(lay, d, d1, d2, file.chain, b, i);
    if !ok {
      return false;
    }
    vol.CachedBlock();
    var e := EntryAt(vol.cache.buffer[..], file.dirIndex);
    ok := WriteDots(file, e, parent);
    ElsewhereButEntry(lay, d2, vol.disk, file.chain, b, i);
    SameButEntryTrans(lay, d, d2, vol.disk, file.chain, file.chain, b, i);
    KeptOutside(lay, d2, vol.disk, file.chain, b);
    if !ok {
      return false;
    }
    DotTable(t1, e, file.firstCluster, parent);
    SkipDots(file);
    ok := vol.CacheFlush();
  }

  /** Position behind '..'. */
  method SkipDots(file: SdFile)
    requires DirHandle(file) && HasSlots(file) && file.chain == [file.curCluster]
    modifies file`curPosition
    ensures DirHandle(file) && HasSlots(file) && Slots(file) == old(Slots(file)) && file.Positioned()
  {
    SameBlockSameCluster(file.vol.lay, 0, 2 * ENTRY_SIZE - 1);
    ShrZero(file.vol.lay.clusterSizeShift);
    file.curPosition := 2 * ENTRY_SIZE;
  }

  lemma KeptOutside(lay: Layout, d: seq<Block>, d': seq<Block>, own: seq<nat>, b: nat)
    requires SameElsewhere(lay, d, d', own) && b < |d| && !lay.InFat(b) && !Owned(lay, own, b)
    ensures |d'| == |d| && d'[b] == d[b]
  {
  }

  lemma DotTable(t: seq<Entry>, e: Entry, own: nat, parent: nat)
    requires |t| >= 2 && forall k :: 0 <= k < |t| ==> t[k] == ZERO_ENTRY
    requires FirstCluster(e) == own && Attributes(e) == ATT_DIRECTORY && parent < 0x1_0000_0000
    ensures NewTable(t[0 := DotOf(e)][1 := DotDotOf(e, parent)], own, parent)
  {
    DotFields(e, parent);
    DotNames(e, parent);
  }

  lemma DotNames(e: Entry, parent: nat)
    ensures Name(DotOf(e)) == [DOT] + Blanks(10) && Name(DotDotOf(e, parent)) == [DOT, DOT] + Blanks(9)
  {
    FirstClusterSetName(DotOf(e)[1 := DOT], parent);
  }

  lemma FirstClusterSetName(e: Entry, c: nat)
    ensures Name(WithFirstCluster(e, c)) == Name(e)
  {
  }

  /** What `..` of a directory in `dir` names. */
  function ParentCluster(dir: SdFile): nat
    reads dir
  {
    if dir.IsRoot() then 0 else dir.firstCluster
  }

  /** BuildDir, seen from the directory that lists the new one. */
  method BuildFiled(file: SdFile, dir: SdFile, ghost name: seq<byte>) returns (ok: bool)
    requires file.vol.Valid() && file.Ready() && file.kind == Normal && Filed(file, dir, name)
    requires file.chain == [] && file.fileSize == file.curPosition == 0
    requires file.vol.lay.ClusterBytes() < SIZE_LIMIT
    modifies file, file.vol, file.vol.cache, file.vol.cache.card, file.vol.cache.buffer
    ensures file.vol.Valid() && Framed(file, dir, [], file.chain) && OnlyNamed(dir, name)
    ensures file.vol.cache.misused == old(file.vol.cache.misused)
    ensures Filed(file, dir, name) && file.EntryOnDisk()
    ensures TableMap(Slots(dir)) == old(TableMap(Slots(dir)))[name := file.DiskEntry()]
    ensures ok ==>
      && IsNewDir(file, ParentCluster(dir)) && Size(file.DiskEntry()) == old(Size(file.DiskEntry()))
      && file.vol.cache.card.faults == old(file.vol.cache.card.faults)
      && OnlyOf(old(file.vol.fat), file.vol.fat, file.chain)
    ensures !ok && file.vol.cache.card.faults == old(file.vol.cache.card.faults) ==> NothingBuilt(file)
    ensures ok ==> !NoneFree(old(file.vol.fat)) && dir.chain == old(dir.chain)
  {
    hide SdVolume.Valid, Layout.WellFormed, Layout.ExtentOk, Layout.BlockCount, Table, SlotOf, FreeTail, UniqueNames;
    hide TableMap, Name, Attributes, EntryAt, SlotBlock, FileChain, Capacity, SameButEntry, Layout.InFat, NewTable;
    hide IsLive, ChainOrEmpty, SdFile.Positioned, FirstCluster, Size, Confined, Owned, UsedBlock;
    ghost var d, fat, k := file.vol.disk, file.vol.fat, SlotOf(Slots(dir), name);
    dir.vol.Facts();
    FirstClusterBound(dir.vol.lay, |d|, fat, dir.firstCluster, dir.chain);
    ok := BuildDir(file, ParentCluster(dir));
    if ok {
      TookOne(dir.vol.lay, fat, dir.vol.fat, file.chain);
    }
    dir.vol.Facts();
    FileStepInDir(file.vol.lay, fat, file.vol.fat, d, file.vol.disk, dir.Place(), dir.firstCluster, dir.chain,
                  SlotCount(dir), k, [], file.chain);
    SlotFramed(dir, fat, d, k, [], file.chain, file.chain);
  }

  lemma NothingTaken(fat: seq<nat>, s: seq<nat>)
    ensures OnlyOf(fat, fat, s)
  {
  }

  lemma TookOne(lay: Layout, f0: seq<nat>, f1: seq<nat>, s: seq<nat>)
    requires Step(lay, f0, f1, [], s) && s != []
    ensures !NoneFree(f0)
  {
    assert s[0] in s && lay.IsCluster(s[0]);
  }

  /** Whether anything is free when the entry has been made. */
  lemma RoomLeft(lay: Layout, f0: seq<nat>, f1: seq<nat>, first0: nat, first1: nat, s0: seq<nat>, s1: seq<nat>,
                 grow: bool)
    requires FileChain(lay, f0, first0, s0) && FileChain(lay, f1, first1, s1) && Prolonged(f0, f1, s0, s1, grow)
    ensures NoneFree(f1) <==> |FreeClusters(f0)| <= if grow then 1 else 0
  {
    FileIsChain(lay, f0, first0, s0);
    FileIsChain(lay, f1, first1, s1);
    ProlongedFree(lay, f0, f1, s0, s1, grow);
    NoneFreeIsEmpty(f1);
  }

  /** Clusters enough for a new directory: one for itself and, if no slot is empty, one for its entry. */
  ghost predicate RoomForDir(dir: SdFile)
    requires HasSlots(dir)
    reads dir, dir.vol
  {
    |FreeClusters(dir.vol.fat)| > (if FirstEmpty(Slots(dir)) < SlotCount(dir) then 0 else 1)
  }

  /** The entry of an empty file. */
  predicate IsEmptyFile(e: Entry) { IsFile(e) && Attributes(e) == 0 && FirstCluster(e) == 0 && Size(e) == 0 }

  /**
   * makeDir: a new subdirectory with '.' and '..', listed in `dir` under its name. Absent I/O
   * errors it fails only on a handle in use, a bad or taken name, a full directory or a full disk.
   * On a full disk it leaves the entry of an empty file.
   */
  method MakeDir(file: SdFile, dir: SdFile, str: seq<byte>, illegal: set<byte>) returns (ok: bool)
    requires file != dir && file.vol == dir.vol && 0 !in str
    requires dir.vol.Valid() && DirHandle(dir) && dir.flags.read && HasSlots(dir) && Sound(Slots(dir))
    requires dir.fileSize + dir.vol.lay.ClusterBytes() < SIZE_LIMIT
    modifies file, dir`curCluster, dir`curPosition, dir`firstCluster, dir`flags, dir`chain, dir`fileSize
    modifies dir.vol, dir.vol.cache, dir.vol.cache.card, dir.vol.cache.buffer
    ensures dir.vol.Valid() && Framed(file, dir, [], if ok then file.chain else [])
    ensures dir.vol.cache.misused == old(dir.vol.cache.misused)
    ensures ok ==>
      && old(file.kind) == Closed && IsName83(str, illegal) && !old(OpenRefused(dir, Encode(str), NEW_FILE))
      && IsNewDir(file, ParentCluster(dir))
      && dir.vol.cache.card.faults == old(dir.vol.cache.card.faults)
    // by bytes: '..' names the first cluster of the directory that lists the new one, or 0 for a root
    ensures ok ==> file.chain != [] && (dir.kind == SubDir ==> dir.chain != [])
    ensures ok ==> DotEntries(Slots(file), file.chain[0], if dir.kind == SubDir then dir.chain[0] else 0)
    ensures ok ==> DirectoryEntry(file.DiskEntry(), file.chain[0])
    ensures !ok && dir.vol.cache.card.faults == old(dir.vol.cache.card.faults) && Started(file, dir, str, illegal) ==>
      && NoneFree(dir.vol.fat)
      && file.kind == SubDir && file.chain == [] && !file.flags.dirDirty
      && file.EntryOnDisk() && IsEmptyFile(file.DiskEntry())
    ensures !ok && dir.vol.cache.card.faults == old(dir.vol.cache.card.faults) && old(file.kind) == Closed
            && !Started(file, dir, str, illegal) ==>
      dir.vol.disk == old(dir.vol.disk) && dir.vol.fat == old(dir.vol.fat) && SameDir(dir) && file.kind == Closed
    // given a name that open does not refuse, the clusters that are free decide
    ensures dir.vol.cache.card.faults == old(dir.vol.cache.card.faults) && Started(file, dir, str, illegal) ==>
      (ok <==> old(RoomForDir(dir)))
    ensures ok || (dir.vol.cache.card.faults == old(dir.vol.cache.card.faults) && Started(file, dir, str, illegal)) ==>
      && Filed(file, dir, Encode(str)) && file.EntryOnDisk() && dir.flags == old(dir.flags)
      && OneSlot(old(Slots(dir)), Slots(dir), old(FirstEmpty(Slots(dir))))
      && SlotOf(Slots(dir), Encode(str)) == old(FirstEmpty(Slots(dir)))
      && TableMap(Slots(dir)) == old(TableMap(Slots(dir)))[Encode(str) := file.DiskEntry()]
      && OnlyGrown(dir, file.chain)
  {
    hide SdVolume.Valid, Layout.WellFormed, Layout.ExtentOk, Layout.BlockCount, Table, SlotOf, FreeTail, UniqueNames;
    hide TableMap, Name, Attributes, EntryAt, SlotBlock, Capacity, SameButEntry, UsedBlock, Owned, Encode, Base;
    hide Extension, IsLive, SdFile.Positioned, Full, Layout.InFat, IsNewDir, Frame, OneSlot, FirstEmpty, OpenRefused;
    hide IsFile, OnlyOf, Prolonged, RoomForDir, NoneFree, Size, FirstCluster, DotEntries, DirectoryEntry;
    ghost var lay, d0, f0, s0, t := dir.vol.lay, dir.vol.disk, dir.vol.fat, dir.chain, Slots(dir);
    ok := OpenForDir(file, dir, str, illegal);
    ghost var d1, f1, s1, p, t1 := dir.vol.disk, dir.vol.fat, dir.chain, dir.Place(),
      if HasSlots(dir) then Slots(dir) else [];
    if ok {
      ok := BuildFiled(file, dir, Encode(str));
      if dir.vol.cache.card.faults == old(dir.vol.cache.card.faults) {
        NothingTaken(f1, file.chain);
        if ok {
          NewDirByBytes(file, dir);
        }
        ProlongedOnly(f0, f1, dir.vol.fat, s0, dir.chain, FirstEmpty(t) == |t|, file.chain);
      }
      FrameTrans(lay, f0, f1, dir.vol.fat, d0, d1, dir.vol.disk, s0, s1, s1, [], [], file.chain, p, p,
                 file.dirBlock, file.dirIndex);
      FrameDrop(lay, f0, dir.vol.fat, d0, dir.vol.disk, s0, s1, [], file.chain, p, file.dirBlock, file.dirIndex);
      OneSlotTwice(t, t1, Slots(dir), FirstEmpty(t));
    }
  }

  /** Its first step: an empty new file, and whether a cluster is left for it. */
  method OpenForDir(file: SdFile, dir: SdFile, str: seq<byte>, illegal: set<byte>) returns (ok: bool)
    requires file != dir && file.vol == dir.vol && 0 !in str
    requires dir.vol.Valid() && DirHandle(dir) && dir.flags.read && HasSlots(dir) && Sound(Slots(dir))
    requires dir.fileSize + dir.vol.lay.ClusterBytes() < SIZE_LIMIT
    modifies file, dir`curCluster, dir`curPosition, dir`firstCluster, dir`flags, dir`chain, dir`fileSize
    modifies dir.vol, dir.vol.cache, dir.vol.cache.card, dir.vol.cache.buffer
    ensures dir.vol.Valid() && Framed(file, dir, [], [])
    ensures dir.vol.cache.misused == old(dir.vol.cache.misused)
    ensures ok ==>
      && old(file.kind) == Closed && IsName83(str, illegal) && !old(OpenRefused(dir, Encode(str), NEW_FILE))
      && file.Ready() && file.kind == Normal && file.chain == [] && file.fileSize == file.curPosition == 0
      && Filed(file, dir, Encode(str)) && IsEmptyFile(file.DiskEntry()) && dir.flags == old(dir.flags)
      && TableMap(Slots(dir)) == old(TableMap(Slots(dir)))[Encode(str) := file.DiskEntry()]
      && OneSlot(old(Slots(dir)), Slots(dir), old(FirstEmpty(Slots(dir))))
      && SlotOf(Slots(dir), Encode(str)) == old(FirstEmpty(Slots(dir)))
      && dir.vol.cache.card.faults == old(dir.vol.cache.card.faults)
      && (NoneFree(dir.vol.fat) <==> !old(RoomForDir(dir))) && GrownIfFull(dir)
    ensures !ok && old(file.kind) == Closed && dir.vol.cache.card.faults == old(dir.vol.cache.card.faults) ==>
      && (IsName83(str, illegal) ==> old(OpenRefused(dir, Encode(str), NEW_FILE)))
      && dir.vol.disk == old(dir.vol.disk) && dir.vol.fat == old(dir.vol.fat) && SameDir(dir) && file.kind == Closed
  {
    hide SdVolume.Valid, Layout.WellFormed, Layout.ExtentOk, Layout.BlockCount, Table, SlotOf, FreeTail, UniqueNames;
    hide TableMap, Name, EntryAt, SlotBlock, Capacity, SameButEntry, UsedBlock, Owned, Encode, Base;
    hide Extension, IsLive, SdFile.Positioned, Full, Layout.InFat, Frame, OneSlot, FirstEmpty, Prolonged;
    hide IsFile, Size, FirstCluster, Attributes;
    ghost var f0, first0, s0, t := dir.vol.fat, dir.firstCluster, dir.chain, Slots(dir);
    ok := Open(file, dir, str, illegal, NEW_FILE, []);
    if ok {
      RoomLeft(dir.vol.lay, f0, dir.vol.fat, first0, dir.firstCluster, s0, dir.chain, FirstEmpty(t) == |t|);
      EmptyIsFile(file.DiskEntry());
    }
  }

  lemma EmptyIsFile(e: Entry)
    ensures Attributes(e) == 0 ==> IsFile(e)
  {
  }

  /** Nothing but an I/O error or a full disk can stop makeDir any more. */
  twostate predicate Started(file: SdFile, dir: SdFile, str: seq<byte>, illegal: set<byte>)
    reads file, dir, dir.vol
  {
    old(HasSlots(dir)) && old(file.kind) == Closed && IsName83(str, illegal)
    && !old(OpenRefused(dir, Encode(str), NEW_FILE))
  }
}
