/** Removing files and directories. */
module Removal {
  import opened Bytes
  import opened Bits
  import opened VolumeLayout
  import opened Chains
  import opened FileData
  import opened DirEntry
  import opened DirTable
  import opened DirOnDisk
  import opened Volume
  import opened File
  import opened Directories
  import opened Frames
  import opened Names

  /** The entry `e'` is `e` marked as deleted, with its other name bytes and its attributes. */
  predicate Marked(e: Entry, e': Entry) {
    Name(e') == Name(e)[0 := NAME_DELETED] && Attributes(e') == Attributes(e)
  }

  lemma DeletedIsMarked(e0: Entry, e: Entry)
    requires Name(e) == Name(e0) && Attributes(e) == Attributes(e0)
    ensures Marked(e0, Deleted(e)) && IsDeleted(Deleted(e))
  {
  }

  /** What `remove` of an open file leaves. */
  twostate predicate Removed(file: SdFile)
    reads file, file.vol, file.vol.cache, file.vol.cache.card
  {
    && file.kind == Closed
    && old(file.EntryOnDisk()) && file.dirBlock == old(file.dirBlock) && file.dirIndex == old(file.dirIndex)
    && file.dirBlock < |file.vol.disk|
    && IsDeleted(EntryAt(file.vol.disk[file.dirBlock], file.dirIndex))
    && Marked(old(file.DiskEntry()), EntryAt(file.vol.disk[file.dirBlock], file.dirIndex))
    && SameButEntry(file.vol.lay, old(file.vol.disk), file.vol.disk, [], file.dirBlock, file.dirIndex)
    // exactly the file's clusters become free; those of an empty file leak
    && file.vol.fat == (if old(file.fileSize) > 0 then Freed(old(file.vol.fat), old(file.chain)) else old(file.vol.fat))
    && file.vol.Flushed()
  }

  ghost predicate AllFree(fat: seq<nat>, s: seq<nat>) {
    forall c :: c in s ==> c < |fat| && fat[c] == 0
  }

  /** Freeing frees the chain; without it the chain stays in use. */
  lemma FreedOrLeaked(lay: Layout, fat: seq<nat>, first: nat, s: seq<nat>, freed: bool)
    requires FileChain(lay, fat, first, s)
    ensures AllFree(if freed then Freed(fat, s) else fat, s) <==> freed || first == 0
  {
    forall c | c in s
      ensures c < |fat| && fat[c] != 0
    {
      ChainInUse(lay, fat, s, c);
    }
    assert first != 0 ==> s[0] in s;
  }

  /** remove */
  method Remove(file: SdFile) returns (ok: bool)
    requires file.vol.Valid() && (file.kind == Normal ==> file.Attached())
    modifies file, file.vol, file.vol.cache, file.vol.cache.card, file.vol.cache.buffer
    ensures file.vol.Valid()
    ensures file.vol.cache.misused == old(file.vol.cache.misused)
    ensures !old(file.Writable()) ==> !ok && file.vol.disk == old(file.vol.disk) && file.vol.fat == old(file.vol.fat)
    ensures ok ==> Removed(file) && file.vol.cache.card.faults == old(file.vol.cache.card.faults)
    // all its clusters are free afterwards unless it is empty but has some
    ensures ok ==> (AllFree(file.vol.fat, old(file.chain)) <==> old(file.fileSize) > 0 || old(file.firstCluster) == 0)
    ensures file.dirBlock == old(file.dirBlock) && file.dirIndex == old(file.dirIndex)
    ensures old(file.Writable()) ==>
      && Confined(old(file.vol.fat), file.vol.fat, old(file.chain))
      && SameButEntry(file.vol.lay, old(file.vol.disk), file.vol.disk, [], file.dirBlock, file.dirIndex)
    ensures old(file.Writable()) && !ok ==> file.vol.cache.card.faults > old(file.vol.cache.card.faults)
  {
    hide SdVolume.Valid, Layout.WellFormed, Layout.InFat, Layout.ExtentOk, FileChain, SdFile.Positioned;
    hide Capacity, UsedBlock, Owned, Step, Confined, SameButEntry, FirstCluster, Size, EntryAt, Content;
    hide Name, Attributes, IsDeleted, WithEntry, Overwrite, AllFree, Freed;
    var vol := file.vol;
    ghost var d, f, s, size := vol.disk, vol.fat, file.chain, file.fileSize;
    NothingConfined(f, s);
    NothingReplaced(vol.lay, d, file.dirBlock, file.dirIndex);
    if file.kind == Normal {
      FreedOrLeaked(vol.lay, f, file.firstCluster, s, size > 0);
    }
    ok := file.Truncate(0);
    if !ok {
      return false;
    }
    if size > 0 {
      CutAll(vol.lay, f, s);
    }
    ghost var d1 := vol.disk;
    ok := MarkDeleted(file);
    SameButEntryWiden(vol.lay, d, d1, vol.disk, [], file.dirBlock, file.dirIndex);
  }

  /** The end of `remove`: mark the directory entry as deleted and close the handle. */
  method MarkDeleted(file: SdFile) returns (ok: bool)
    requires file.vol.Valid() && file.EntryOnDisk()
    modifies file`kind, file.vol`disk, file.vol.cache, file.vol.cache.card, file.vol.cache.buffer
    ensures file.vol.Valid() && file.dirBlock < |file.vol.disk|
    ensures file.vol.cache.misused == old(file.vol.cache.misused)
    ensures SameButEntry(file.vol.lay, old(file.vol.disk), file.vol.disk, [], file.dirBlock, file.dirIndex)
    ensures ok ==>
      && file.kind == Closed && file.vol.Flushed() && file.vol.cache.card.faults == old(file.vol.cache.card.faults)
      && IsDeleted(EntryAt(file.vol.disk[file.dirBlock], file.dirIndex))
      && Marked(old(file.DiskEntry()), EntryAt(file.vol.disk[file.dirBlock], file.dirIndex))
    ensures !ok ==> file.vol.cache.card.faults > old(file.vol.cache.card.faults)
  {
    hide SdVolume.Valid, Layout.InFat, SameButEntry, EntryAt, Name, Attributes, Marked, IsDeleted, Deleted, WithEntry;
    hide Overwrite;
    var vol := file.vol;
    ghost var d, e0 := vol.disk, file.DiskEntry();
    DeletedIsMarked(e0, e0);
    NothingReplaced(vol.lay, d, file.dirBlock, file.dirIndex);
    ok := vol.CacheRawBlock(file.dirBlock, true);
    if !ok {
      return false;
    }
    var e := EntryAt(vol.cache.buffer[..], file.dirIndex);
    vol.CopyIn(ENTRY_SIZE * file.dirIndex, Deleted(e));
    WithEntryIs(d[file.dirBlock], file.dirIndex, Deleted(e));
    WithEntryAt(d[file.dirBlock], file.dirIndex, Deleted(e), file.dirIndex);
    EntryReplaced(vol.lay, d, file.dirBlock, file.dirIndex, Deleted(e));
    file.kind := Closed;
    ok := vol.CacheFlush();
  }

  // ---------------------------------------------------------------- rmDir

  /** The scan of `rmDir`. */
  method ScanEmpty(dir: SdFile) returns (ok: bool)
    requires dir.vol.Valid() && DirHandle(dir) && dir.flags.read && HasSlots(dir)
    modifies dir`curCluster, dir`curPosition, dir.vol.cache, dir.vol.cache.card, dir.vol.cache.buffer
    ensures dir.vol.Valid() && DirHandle(dir) && HasSlots(dir) && SlotCount(dir) == old(SlotCount(dir))
    ensures dir.vol.cache.misused == old(dir.vol.cache.misused)
    ensures ok ==> dir.Positioned() && LooksEmpty(old(Slots(dir)))
    ensures ok ==> dir.vol.cache.card.faults == old(dir.vol.cache.card.faults)
    ensures !ok ==> !LooksEmpty(old(Slots(dir))) || dir.vol.cache.card.faults > old(dir.vol.cache.card.faults)
  {
    hide SdVolume.Valid, Layout.WellFormed, Layout.ExtentOk, Layout.BlockCount, SlotBlock, Table, Attributes, HasBit;
    hide FileChain, Capacity, DirHandle, SdFile.Linked, SdFile.Positioned, Slots, SlotCount, HasSlots, SdFile.Place;
    hide LooksEmpty;
    SlotsOk(dir);
    Rewind(dir);
    ghost var t, k := Slots(dir), 0;
    while dir.curPosition < dir.fileSize
      invariant dir.vol.Valid() && HasSlots(dir) && Slots(dir) == t && dir.Positioned() && DirHandle(dir)
      invariant dir.vol.cache.misused == old(dir.vol.cache.misused)
      invariant SlotCount(dir) == old(SlotCount(dir)) && dir.Place() == old(dir.Place())
      invariant dir.curPosition == ENTRY_SIZE * k && k <= |t|
      invariant forall j :: 0 <= j < k ==> !Keeps(t[j]) && !IsFree(t[j])
      invariant dir.vol.cache.card.faults == old(dir.vol.cache.card.faults)
      decreases dir.fileSize - dir.curPosition
    {
      ScanDecides(t, k);
      var index;
      ok, index := ReadDirCache(dir);
      if !ok {
        return false;
      }
      var p := EntryAt(dir.vol.cache.buffer[..], index);
      assert p == t[k];
      if p[0] == NAME_FREE {
        return true;
      }
      if p[0] != NAME_DELETED && p[0] != DOT && IsFileOrSubDir(p) {
        return false;
      }
      k := k + 1;
    }
    ScanDecides(t, k);
    return true;
  }

  /** rmDir: remove the directory if it is a subdirectory that looks empty. */
  method RmDir(dir: SdFile) returns (ok: bool)
    requires dir.vol.Valid() && dir.kind != Closed
    requires dir.kind == SubDir ==> DirHandle(dir) && dir.flags.read && dir.EntryPlaced()
    requires dir.kind == SubDir ==> HasSlots(dir)
    modifies dir, dir.vol, dir.vol.cache, dir.vol.cache.card, dir.vol.cache.buffer
    ensures dir.vol.Valid()
    ensures dir.vol.cache.misused == old(dir.vol.cache.misused)
    ensures ok ==> old(dir.kind) == SubDir && LooksEmpty(old(Slots(dir)))
    ensures ok ==> old(dir.fileSize) > 0 && Removed(dir) && dir.vol.cache.card.faults == old(dir.vol.cache.card.faults)
    ensures old(dir.kind) == SubDir && old(LooksEmpty(Slots(dir))) ==>
      && Confined(old(dir.vol.fat), dir.vol.fat, old(dir.chain))
      && (!ok ==> dir.vol.cache.card.faults > old(dir.vol.cache.card.faults))
    ensures old(dir.kind) == SubDir && !old(LooksEmpty(Slots(dir))) ==>
      !ok && dir.kind == SubDir && dir.vol.disk == old(dir.vol.disk) && dir.vol.fat == old(dir.vol.fat)
    ensures dir.dirBlock == old(dir.dirBlock) && dir.dirIndex == old(dir.dirIndex)
    ensures old(dir.kind) == SubDir ==>
      SameButEntry(dir.vol.lay, old(dir.vol.disk), dir.vol.disk, [], dir.dirBlock, dir.dirIndex)
  {
    hide SdVolume.Valid, Layout.WellFormed, Layout.ExtentOk, Table, Attributes, HasBit, LooksEmpty;
    hide FileChain, Capacity, Confined, SameButEntry, EntryAt, FirstCluster, Size, UsedBlock, Owned;
    if dir.kind != SubDir {
      return false;
    }
    NothingConfined(dir.vol.fat, dir.chain);
    NothingReplaced(dir.vol.lay, dir.vol.disk, dir.dirBlock, dir.dirIndex);
    DirNotEmpty(dir);
    ok := ScanEmpty(dir);
    if !ok {
      return false;
    }
    dir.kind := Normal;
    dir.flags := dir.flags.(write := true);
    ok := Remove(dir);
  }

  lemma DirNotEmpty(dir: SdFile)
    requires dir.vol.Valid() && DirHandle(dir) && dir.kind == SubDir
    ensures dir.fileSize > 0
  {
    var lay := dir.vol.lay;
    ShlNext(0, lay.clusterSizeShift);
    ShlMonotone(1, |dir.chain|, lay.clusterSizeShift);
    dir.vol.Facts();
  }

  // ---------------------------------------------------------------- open by index

  /** What `open` by index finds in slot `k` of a directory. */
  twostate predicate OpenedSlot(file: SdFile, dir: SdFile, k: nat, mode: OpenMode, chain: seq<nat>)
    reads file, file.vol, dir, dir.vol
  {
    && old(HasSlots(dir)) && k < old(SlotCount(dir))
    && IsLive(old(Slots(dir))[k]) && !IsDot(old(Slots(dir))[k]) && IsFileOrSubDir(old(Slots(dir))[k])
    && !Denied(old(Slots(dir))[k], mode)
    && OpenedAs(file, old(Slots(dir))[k], old(SlotBlock(dir.vol.lay, dir.Place(), k)), k % ENTRIES_PER_BLOCK, mode,
                chain)
  }

  /** Slot `k` exists, and what it names may be opened this way. */
  ghost predicate SlotOpenable(dir: SdFile, k: nat, mode: OpenMode)
    requires HasSlots(dir)
    reads dir, dir.vol
  {
    k < SlotCount(dir) && Keeps(Slots(dir)[k]) && Openable(Slots(dir)[k], mode)
  }

  /** open by index */
  method OpenByIndex(file: SdFile, dir: SdFile, k: nat, mode: OpenMode, ghost chain: seq<nat>) returns (ok: bool)
    requires file != dir && file.vol == dir.vol && k < 0x1_0000
    requires dir.vol.Valid() && DirHandle(dir) && dir.flags.read && HasSlots(dir) && dir.Positioned()
    requires k < SlotCount(dir) && Keeps(Slots(dir)[k]) ==>
      EntryFits(dir.vol.lay, dir.vol.fat, Slots(dir)[k], SlotBlock(dir.vol.lay, dir.Place(), k), chain)
    modifies file, dir`curCluster, dir`curPosition, dir.vol, dir.vol.cache, dir.vol.cache.card, dir.vol.cache.buffer
    ensures dir.vol.Valid()
    ensures dir.vol.cache.misused == old(dir.vol.cache.misused)
    ensures ok ==> old(file.kind) == Closed && !(mode.creat && mode.excl) && old(SlotOpenable(dir, k, mode))
    ensures ok ==> file.Ready() && dir.vol.cache.card.faults == old(dir.vol.cache.card.faults)
    ensures ok && mode.trunc ==> file.kind == Normal && file.fileSize == 0 && file.curPosition == 0
    ensures !ok && old(file.kind) == Closed && !(mode.creat && mode.excl) && old(SlotOpenable(dir, k, mode)) ==>
      dir.vol.cache.card.faults > old(dir.vol.cache.card.faults)
    ensures !mode.trunc ==>
      && dir.vol.disk == old(dir.vol.disk) && dir.vol.fat == old(dir.vol.fat)
      && DirHandle(dir) && HasSlots(dir) && SlotCount(dir) == old(SlotCount(dir)) && Slots(dir) == old(Slots(dir))
      && (ok ==> dir.Positioned() && OpenedSlot(file, dir, k, mode, chain))
  {
    hide SdVolume.Valid, Layout.WellFormed, Layout.ExtentOk, Layout.BlockCount, SlotBlock, Table, Attributes, HasBit;
    hide FileChain, Capacity, SdFile.Positioned, EntryFits, OpenedAs, SdFile.Ready, Confined, SameButEntry, UsedBlock;
    hide EntryAt;
    if file.kind != Closed || (mode.creat && mode.excl) {
      return false;
    }
    var index;
    ok, index := CacheSlot(dir, k);
    if !ok {
      return false;
    }
    var p := EntryAt(dir.vol.cache.buffer[..], index);
    if p[0] == NAME_FREE || p[0] == NAME_DELETED || p[0] == DOT {
      return false;
    }
    SlotBlockUsed(dir, k);
    ok := OpenCachedEntry(file, index, mode, chain);
  }

  /** Bring slot `k` into the cache. */
  method CacheSlot(dir: SdFile, k: nat) returns (ok: bool, index: nat)
    requires dir.vol.Valid() && DirHandle(dir) && dir.flags.read && HasSlots(dir) && dir.Positioned()
    modifies dir`curCluster, dir`curPosition, dir.vol.cache, dir.vol.cache.card, dir.vol.cache.buffer
    ensures dir.vol.Valid() && DirHandle(dir) && HasSlots(dir)
    ensures dir.vol.cache.misused == old(dir.vol.cache.misused)
    ensures SlotCount(dir) == old(SlotCount(dir)) && Slots(dir) == old(Slots(dir)) && dir.Place() == old(dir.Place())
    ensures ok ==> dir.Positioned() && SlotCached(dir, k, index)
    ensures ok ==> dir.vol.cache.card.faults == old(dir.vol.cache.card.faults)
    ensures !ok ==> k >= SlotCount(dir) || dir.vol.cache.card.faults > old(dir.vol.cache.card.faults)
  {
    hide SdVolume.Valid, Layout.WellFormed, Layout.ExtentOk, Layout.BlockCount, SlotBlock, Table, EntryAt;
    hide FileChain, Capacity, SdFile.Positioned, SdFile.Linked;
    SlotsOk(dir);
    index := 0;
    ok := SeekSlot(dir, k);
    if ok {
      SlotsOk(dir);
      ok, index := ReadDirCache(dir);
    }
  }

  // ---------------------------------------------------------------- remove by name

  /** A deleted slot takes exactly its name out of the directory's map. */
  lemma SlotDeleted(lay: Layout, d: seq<Block>, d': seq<Block>, e: Extent, n: nat, k: nat)
    requires lay.WellFormed(|d|) && lay.ExtentOk(e) && n <= ENTRIES_PER_BLOCK * lay.BlockCount(e) && k < n
    requires SameButEntry(lay, d, d', [], SlotBlock(lay, e, k), k % ENTRIES_PER_BLOCK)
    requires Sound(Table(lay, d, e, n)) && IsLive(Table(lay, d, e, n)[k])
    requires IsDeleted(SlotAt(lay, d', e, k))
    ensures Table(lay, d', e, n) == Table(lay, d, e, n)[k := SlotAt(lay, d', e, k)]
    ensures Sound(Table(lay, d', e, n))
    ensures TableMap(Table(lay, d', e, n)) == TableMap(Table(lay, d, e, n)) - {Name(Table(lay, d, e, n)[k])}
  {
    hide Table, SlotAt, TableMap, Sound, IsDeleted, IsLive, SameButEntry;
    SameLength(lay, d, d', [], SlotBlock(lay, e, k), k % ENTRIES_PER_BLOCK);
    TableUpdate(lay, d, d', [], e, n, k);
    Delete(Table(lay, d, e, n), k, SlotAt(lay, d', e, k));
  }

  /** The directory has lost exactly this name. */
  twostate predicate NameGone(dir: SdFile, name: seq<byte>)
    reads dir, dir.vol
  {
    && old(HasSlots(dir)) && DirHandle(dir) && HasSlots(dir) && SlotCount(dir) == old(SlotCount(dir))
    && Sound(Slots(dir)) && name in old(TableMap(Slots(dir)))
    && TableMap(Slots(dir)) == old(TableMap(Slots(dir))) - {name}
    && var k := old(SlotOf(Slots(dir), name));
    && k < SlotCount(dir) && Slots(dir) == old(Slots(dir))[k := Slots(dir)[k]]
    && OneSlot(old(Slots(dir)), Slots(dir), k) && dir.chain == old(dir.chain) && dir.Place() == old(dir.Place())
    && SameButEntry(dir.vol.lay, old(dir.vol.disk), dir.vol.disk, [],
                    SlotBlock(dir.vol.lay, dir.Place(), k), k % ENTRIES_PER_BLOCK)
  }

  /** And the file's clusters are free. */
  twostate predicate NameRemoved(dir: SdFile, name: seq<byte>, chain: seq<nat>)
    reads dir, dir.vol
  {
    && NameGone(dir, name) && old(SlotOf(Slots(dir), name) < |Slots(dir)|)
    && dir.vol.fat == (if Size(old(Slots(dir)[SlotOf(Slots(dir), name)])) > 0
                       then Freed(old(dir.vol.fat), chain) else old(dir.vol.fat))
  }

  const WRITE_ONLY: OpenMode := OpenMode(false, true, false, false, false, false, false)

  /** remove by name */
  method RemoveNamed(dir: SdFile, str: seq<byte>, illegal: set<byte>, ghost chain: seq<nat>) returns (ok: bool)
    requires 0 !in str
    requires dir.vol.Valid() && DirHandle(dir) && dir.flags.read && HasSlots(dir) && Sound(Slots(dir))
    requires IsName83(str, illegal) ==> NamedFits(dir, Encode(str), chain)
    requires Disjoint(chain, dir.chain)
    modifies dir`curCluster, dir`curPosition, dir`firstCluster, dir`flags, dir`chain, dir`fileSize
    modifies dir.vol, dir.vol.cache, dir.vol.cache.card, dir.vol.cache.buffer
    ensures dir.vol.Valid()
    ensures dir.vol.cache.misused == old(dir.vol.cache.misused)
    ensures IsName83(str, illegal) ==>
      FramedAt(dir, chain, [], old(NamedBlock(dir, Encode(str))),
               old(SlotOf(Slots(dir), Encode(str))) % ENTRIES_PER_BLOCK)
    ensures ok ==> IsName83(str, illegal) && NameRemoved(dir, Encode(str), chain) && dir.flags == old(dir.flags)
    ensures ok ==> !old(OpenRefused(dir, Encode(str), WRITE_ONLY))
    ensures ok ==> dir.vol.Flushed() && dir.vol.cache.card.faults == old(dir.vol.cache.card.faults)
    ensures !ok && dir.vol.cache.card.faults == old(dir.vol.cache.card.faults) ==>
      && (IsName83(str, illegal) ==> old(OpenRefused(dir, Encode(str), WRITE_ONLY)))
      && dir.vol.disk == old(dir.vol.disk) && dir.vol.fat == old(dir.vol.fat) && SameDir(dir)
  {
    hide SdVolume.Valid, FreeTail, UniqueNames, TableMap, SlotOf, Base, Extension, Encode, Table, Layout.WellFormed;
    hide Layout.ExtentOk, Layout.BlockCount, SdFile.Attached, EntryFits, Name, FirstCluster, Size, Attributes;
    hide EntryAt, HasBit, SdFile.EntryAgrees, SameButEntry, UsedBlock, FileChain, Capacity, SdFile.Linked;
    hide SdFile.Positioned, SdFile.EntryOnDisk, SlotBlock, Frame, OneSlot;
    ghost var k := if IsName83(str, illegal) then SlotOf(Slots(dir), Encode(str)) else 0;
    ghost var block := if IsName83(str, illegal) then NamedBlock(dir, Encode(str)) else 0;
    NothingFramed(dir, chain);
    var file := new SdFile(dir.vol, dir.hasClock);
    ok := Open(file, dir, str, illegal, WRITE_ONLY, chain);
    if ok {
      ok := RemoveFrom(file, dir, Encode(str), chain);
    }
  }

  /** Remove a file that was opened by name. */
  method RemoveFrom(file: SdFile, dir: SdFile, ghost name: seq<byte>, ghost chain: seq<nat>) returns (ok: bool)
    requires file != dir && file.vol == dir.vol && file.vol.Valid()
    requires file.kind == Normal && file.flags.write && file.Attached() && file.chain == chain
    requires DirHandle(dir) && HasSlots(dir) && Sound(Slots(dir)) && Disjoint(chain, dir.chain)
    requires InSlot(dir, name, file.dirBlock, file.dirIndex)
    requires file.fileSize == Size(Slots(dir)[SlotOf(Slots(dir), name)])
    modifies file, file.vol, file.vol.cache, file.vol.cache.card, file.vol.cache.buffer
    ensures dir.vol.Valid() && Framed(file, dir, chain, [])
    ensures file.vol.cache.misused == old(file.vol.cache.misused)
    ensures file.dirBlock == old(file.dirBlock) && file.dirIndex == old(file.dirIndex)
    ensures ok ==> NameRemoved(dir, name, chain) && file.kind == Closed
    ensures ok ==> dir.vol.Flushed() && dir.vol.cache.card.faults == old(dir.vol.cache.card.faults)
    ensures !ok ==> dir.vol.cache.card.faults > old(dir.vol.cache.card.faults)
  {
    hide SdVolume.Valid, FreeTail, UniqueNames, TableMap, SlotOf, Table, Layout.WellFormed, Layout.ExtentOk;
    hide Layout.BlockCount, SdFile.Attached, Name, FirstCluster, Size, Attributes, EntryAt, SdFile.EntryOnDisk;
    hide IsDeleted, SlotBlock, SameButEntry, UsedBlock, FileChain, Capacity, SdFile.Positioned, Confined;
    ghost var d, fat, k := dir.vol.disk, dir.vol.fat, SlotOf(Slots(dir), name);
    Lookup(Slots(dir), name);
    ok := Remove(file);
    DisjointSwap(chain, dir.chain);
    ChainSurvives(dir.vol.lay, fat, dir.vol.fat, dir.firstCluster, dir.chain, chain);
    dir.vol.Facts();
    OpenedFramed(file, dir, fat, d, k, chain, []);
    if ok {
      SlotDeleted(dir.vol.lay, d, dir.vol.disk, dir.Place(), SlotCount(dir), k);
    }
  }

  /** rmDir of a subdirectory that the open directory `parent` lists: that loses exactly its name. */
  method RmDirFrom(dir: SdFile, parent: SdFile, ghost name: seq<byte>) returns (ok: bool)
    requires dir != parent && dir.vol == parent.vol && dir.vol.Valid() && dir.kind == SubDir && dir.EntryPlaced()
    requires DirHandle(dir) && dir.flags.read && HasSlots(dir)
    requires DirHandle(parent) && HasSlots(parent) && Sound(Slots(parent)) && Disjoint(dir.chain, parent.chain)
    requires InSlot(parent, name, dir.dirBlock, dir.dirIndex)
    modifies dir, dir.vol, dir.vol.cache, dir.vol.cache.card, dir.vol.cache.buffer
    ensures parent.vol.Valid() && Framed(dir, parent, old(dir.chain), []) && DirHandle(parent) && HasSlots(parent)
    ensures parent.vol.cache.misused == old(parent.vol.cache.misused)
    ensures dir.dirBlock == old(dir.dirBlock) && dir.dirIndex == old(dir.dirIndex)
    ensures ok <==> old(LooksEmpty(Slots(dir))) && parent.vol.cache.card.faults == old(parent.vol.cache.card.faults)
    ensures ok ==>
      && NameGone(parent, name)
      && parent.vol.fat == Freed(old(parent.vol.fat), old(dir.chain)) && dir.kind == Closed && parent.vol.Flushed()
    ensures !ok && !old(LooksEmpty(Slots(dir))) ==>
      parent.vol.disk == old(parent.vol.disk) && parent.vol.fat == old(parent.vol.fat)
  {
    hide SdVolume.Valid, FreeTail, UniqueNames, TableMap, SlotOf, Table, Layout.WellFormed, Layout.ExtentOk;
    hide Layout.BlockCount, Name, FirstCluster, Size, Attributes, EntryAt, IsDeleted, SlotBlock, SameButEntry;
    hide UsedBlock, FileChain, Capacity, SdFile.Positioned, Confined, LooksEmpty, SdFile.EntryPlaced;
    ghost var d, fat, chain, k := dir.vol.disk, dir.vol.fat, dir.chain, SlotOf(Slots(parent), name);
    NothingConfined(fat, chain);
    Lookup(Slots(parent), name);
    ok := RmDir(dir);
    DisjointSwap(chain, parent.chain);
    ChainSurvives(dir.vol.lay, fat, dir.vol.fat, parent.firstCluster, parent.chain, chain);
    dir.vol.Facts();
    OpenedFramed(dir, parent, fat, d, k, chain, []);
    if ok {
      SlotDeleted(dir.vol.lay, d, dir.vol.disk, parent.Place(), SlotCount(parent), k);
    }
  }

  /** The name is that of a subdirectory, with these clusters, that looks empty. */
  ghost predicate EmptySub(dir: SdFile, name: seq<byte>, chain: seq<nat>)
    requires HasSlots(dir)
    reads dir, dir.vol
  {
    var lay, place := dir.vol.lay, Clusters(chain);
    && name in TableMap(Slots(dir)) && IsSubDir(TableMap(Slots(dir))[name]) && lay.ExtentOk(place)
    && LooksEmpty(Table(lay, dir.vol.disk, place, ENTRIES_PER_BLOCK * lay.BlockCount(place)))
  }

  /** The slots of a subdirectory just opened. */
  lemma SubOpened(f: SdFile, dir: SdFile, name: seq<byte>, chain: seq<nat>)
    requires f.vol == dir.vol && f.vol.Valid() && HasSlots(dir) && SlotOf(Slots(dir), name) < SlotCount(dir)
    requires var k := SlotOf(Slots(dir), name);
      OpenedAs(f, Slots(dir)[k], SlotBlock(dir.vol.lay, dir.Place(), k), k % ENTRIES_PER_BLOCK, READ_ONLY, chain)
    requires IsFileOrSubDir(Slots(dir)[SlotOf(Slots(dir), name)])
    ensures f.kind == SubDir ==>
      && DirHandle(f) && HasSlots(f) && f.EntryPlaced() && f.chain == chain
      && (LooksEmpty(Slots(f)) <==> EmptySub(dir, name, chain))
    ensures f.kind != SubDir ==> !EmptySub(dir, name, chain)
  {
    hide SdVolume.Valid, Table, Layout.WellFormed, Layout.BlockCount, SlotBlock, EntryAt, FirstCluster, Size;
    hide LooksEmpty, SdFile.EntryAgrees, SdFile.Positioned, TableMap, FileChain, Capacity;
    Lookup(Slots(dir), name);
    if f.kind == SubDir {
      SlotsOk(f);
    }
  }

  /** rmDir of what was opened by name: nothing happens to a file. */
  method RmDirOpened(f: SdFile, dir: SdFile, ghost name: seq<byte>, ghost chain: seq<nat>) returns (ok: bool)
    requires f != dir && f.vol == dir.vol && f.vol.Valid() && Disjoint(chain, dir.chain)
    requires DirHandle(dir) && HasSlots(dir) && Sound(Slots(dir)) && InSlot(dir, name, f.dirBlock, f.dirIndex)
    requires var e := Slots(dir)[SlotOf(Slots(dir), name)];
      OpenedAs(f, e, f.dirBlock, f.dirIndex, READ_ONLY, chain) && IsFileOrSubDir(e)
    modifies f, f.vol, f.vol.cache, f.vol.cache.card, f.vol.cache.buffer
    ensures dir.vol.Valid() && Framed(f, dir, chain, [])
    ensures f.vol.cache.misused == old(f.vol.cache.misused)
    ensures f.dirBlock == old(f.dirBlock) && f.dirIndex == old(f.dirIndex)
    ensures ok <==> old(EmptySub(dir, name, chain)) && f.vol.cache.card.faults == old(f.vol.cache.card.faults)
    ensures ok ==> NameGone(dir, name) && dir.vol.fat == Freed(old(dir.vol.fat), chain) && dir.vol.Flushed()
    ensures !ok && dir.vol.cache.card.faults == old(dir.vol.cache.card.faults) ==>
      dir.vol.disk == old(dir.vol.disk) && dir.vol.fat == old(dir.vol.fat)
  {
    hide SdVolume.Valid, FreeTail, UniqueNames, TableMap, SlotOf, Table, Layout.WellFormed, Layout.ExtentOk;
    hide Layout.BlockCount, FirstCluster, Size, EntryAt, SlotBlock, SdFile.EntryPlaced, NameGone, SdFile.Ready, Sound;
    hide Frame, LooksEmpty, EmptySub, DirHandle, IsFileOrSubDir;
    NothingFramed(dir, chain);
    SubOpened(f, dir, name, chain);
    if f.kind != SubDir {
      return false;
    }
    ok := RmDirFrom(f, dir, name);
  }

  /** Open by name and rmDir, as callback_rmdir does. */
  method RmDirNamed(dir: SdFile, str: seq<byte>, illegal: set<byte>, ghost chain: seq<nat>) returns (ok: bool)
    requires 0 !in str
    requires dir.vol.Valid() && DirHandle(dir) && dir.flags.read && HasSlots(dir) && Sound(Slots(dir))
    requires IsName83(str, illegal) ==> NamedFits(dir, Encode(str), chain)
    requires Disjoint(chain, dir.chain)
    modifies dir`curCluster, dir`curPosition, dir`firstCluster, dir`flags, dir`chain, dir`fileSize
    modifies dir.vol, dir.vol.cache, dir.vol.cache.card, dir.vol.cache.buffer
    ensures dir.vol.Valid()
    ensures dir.vol.cache.misused == old(dir.vol.cache.misused)
    ensures IsName83(str, illegal) ==>
      FramedAt(dir, chain, [], old(NamedBlock(dir, Encode(str))),
               old(SlotOf(Slots(dir), Encode(str))) % ENTRIES_PER_BLOCK)
    ensures ok ==> IsName83(str, illegal) && NameGone(dir, Encode(str)) && dir.flags == old(dir.flags)
    ensures ok ==> dir.vol.fat == Freed(old(dir.vol.fat), chain) && dir.vol.Flushed()
    ensures dir.vol.cache.card.faults == old(dir.vol.cache.card.faults) ==>
      (ok <==> IsName83(str, illegal) && old(EmptySub(dir, Encode(str), chain)))
    ensures ok ==> dir.vol.cache.card.faults == old(dir.vol.cache.card.faults)
    ensures !ok && dir.vol.cache.card.faults == old(dir.vol.cache.card.faults) ==>
      dir.vol.disk == old(dir.vol.disk) && dir.vol.fat == old(dir.vol.fat) && SameDir(dir)
  {
    hide SdVolume.Valid, FreeTail, UniqueNames, TableMap, SlotOf, Base, Extension, Encode, Table, Layout.WellFormed;
    hide Layout.ExtentOk, Layout.BlockCount, SdFile.Attached, EntryFits, Name, FirstCluster, Size, Attributes;
    hide EntryAt, HasBit, SdFile.EntryAgrees, SameButEntry, UsedBlock, FileChain, Capacity, SdFile.Linked;
    hide SdFile.Positioned, SdFile.EntryOnDisk, SlotBlock, Frame, OneSlot, LooksEmpty;
    NothingFramed(dir, chain);
    var f := new SdFile(dir.vol, dir.hasClock);
    ok := Open(f, dir, str, illegal, READ_ONLY, chain);
    if ok {
      ok := RmDirOpened(f, dir, Encode(str), chain);
    }
  }
}
