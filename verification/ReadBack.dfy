/** A file on a formatted card: created, written, closed, opened again and read. */
module ReadBack {
  import opened Bytes
  import opened Bits
  import opened VolumeLayout
  import opened Allocation
  import opened FileData
  import opened DirEntry
  import opened DirOnDisk
  import opened Names
  import opened FatDecoding = Fat
  import opened Volume
  import opened File
  import opened Directories
  import opened BlockCache
  import opened Mount
  import opened DirMoves
  import opened Contiguous
  import opened FatRuns
  import FileRuns
  import opened PlainDirs
  import opened DirRuns
  import opened Startup

  /** Create, write, close, open and read, through handle 0. */
  function Story(str: seq<byte>, src: seq<byte>): seq<Request> {
    [OpenName(0, str, NEW_FILE), UseFile(0, FileRuns.Write(src)), CloseHandle(0), OpenName(0, str, READ_ONLY),
     UseFile(0, FileRuns.Read(|src|))]
  }

  /** How it went, as a session on a formatted FAT16 volume tells. */
  datatype Told = Told(lay: Layout, d: seq<Block>, worlds: seq<World>, changes: seq<Change>, ps: seq<PlainDir>,
                       pool: nat, str: seq<byte>, src: seq<byte>, replies: seq<Reply>, illegal: set<byte>)
  {
    ghost predicate Valid() {
      && Formatted(lay, d) && lay.fatType == 16 && lay.rootDirEntryCount > 0 && pool > 0
      && 0 !in str && IsName83(str, illegal) && |src| <= 32767
      && PlainRun(lay, true, worlds, ps, pool, Story(str, src), replies, illegal) && ps[0] == PlainDir(map[], map[])
      && IsRun(lay, worlds, changes) && EachAbout(changes, ps, Story(str, src), illegal)
      && Accounted(true, worlds, ps, Story(str, src), replies, illegal)
      && MisusedByFatal(lay, worlds, ps, Story(str, src))
      && worlds[0].disk == d && worlds[0].fat == FatOf(lay, d) && worlds[0].chains == RootOnly(lay)
      && !worlds[0].cache.misused && (forall t :: 0 <= t < |worlds| ==> Healthy(lay, worlds[t]))
    }

    /** The bytes fit into the free clusters of the card. */
    ghost predicate Fits()
      requires Valid()
    {
      |src| <= Space(lay, FatOf(lay, d), [])
    }
  }

  /** The root directory has a slot. */
  lemma SlotIsEmpty(lay: Layout, w: World)
    requires Formatted(lay, w.disk) && lay.fatType == 16 && lay.rootDirEntryCount > 0
    ensures |TableOf(lay, true, w)| == lay.rootDirEntryCount && !NoRoom(lay, true, w)
  {
    hide FatsAgree, Layout.WellFormed;
    var t := TableOf(lay, true, w);
    assert SlotAt(lay, w.disk, Root16, 0) == t[0];
  }

  lemma RootIsSmall(lay: Layout, d: seq<Block>)
    requires Formatted(lay, d)
    ensures ENTRY_SIZE * lay.rootDirEntryCount + lay.ClusterBytes() < SIZE_LIMIT
  {
    ShlBlock(lay.clusterSizeShift);
  }

  /** The file is created. */
  lemma Created(s: Told)
    requires s.Valid() && |s.replies| > 0
    ensures s.replies[0].Returned? && s.replies[0].ok
    ensures var name := Encode(s.str);
      && s.ps[1] == PlainDir(map[name := FileItem(false, EMPTY_FILE)], map[0 := HandleFor(name, NEW_FILE)])
      && ChainOf(s.worlds[1].chains, Named(name)) == []
  {
    hide Formatted, IsRun, EachAbout, MisusedByFatal, Healthy, Encode, IsName83, NoRoom, TableOf, FatOf, Orphans;
    hide ChartOf;
    SlotIsEmpty(s.lay, s.worlds[0]);
    RootIsSmall(s.lay, s.d);
    assert DirStep(s.lay, true, s.worlds[0], s.ps[0], s.ps[1], s.pool, Story(s.str, s.src)[0], s.replies[0], s.illegal);
    assert AccountedStep(s.worlds[0], s.worlds[1], s.ps[0], Story(s.str, s.src)[0], s.replies[0], s.illegal);
  }

  /** Creating it takes no cluster. */
  lemma SpaceStays(s: Told)
    requires s.Valid() && |s.replies| > 0
    ensures SpaceFor(s.lay, s.worlds[1], Named(Encode(s.str))) == Space(s.lay, FatOf(s.lay, s.d), [])
  {
    hide Formatted, MisusedByFatal, Encode, IsName83, NoRoom, TableOf, FatOf, PlainRun, Orphans, DirStep;
    Created(s);
    NoneOwned(s);
    var w, w' := s.worlds[0], s.worlds[1];
    assert AccountedStep(w, w', s.ps[0], Story(s.str, s.src)[0], s.replies[0], s.illegal);
    assert Orphans(w') == Orphans(w);
    forall c: nat
      ensures c in FreeClusters(w'.fat) <==> c in FreeClusters(w.fat)
    {
      OrphanInUse(w, c);
      OrphanInUse(w', c);
    }
    assert FreeClusters(w'.fat) == FreeClusters(w.fat);
  }

  lemma OrphanInUse(w: World, c: nat)
    requires forall i :: i in w.chains ==> w.chains[i] == []
    ensures c in Orphans(w) <==> c < |w.fat| && w.fat[c] != 0
  {
  }

  /** No file has a cluster yet. */
  lemma NoneOwned(s: Told)
    requires s.Valid() && |s.replies| > 0
    ensures forall i :: i in s.worlds[0].chains ==> s.worlds[0].chains[i] == []
    ensures forall i :: i in s.worlds[1].chains ==> s.worlds[1].chains[i] == []
  {
    hide Formatted, MisusedByFatal, Encode, IsName83, NoRoom, TableOf, FatOf, Orphans, PlainRun, Healthy, SameBlocks;
    Created(s);
    var w, w', e := s.worlds[0], s.worlds[1], s.changes[0];
    assert ChartOf(true, w', s.ps[1]);
    assert Next(s.lay, w, w', e) && IsAbout(e, s.ps[0], Story(s.str, s.src)[0], s.illegal);
    forall n
      ensures Numbered(n) !in w'.chains
    {
      NotNumbered(e, s.ps[0], Story(s.str, s.src)[0], s.illegal, n);
    }
    assert forall i :: i in w'.chains && i.Named? ==> Named(i.name) in w'.chains;
  }

  /** What the file holds: all bytes or, if they do not fit, none. */
  ghost function Kept(s: Told): seq<byte>
    requires s.Valid()
  {
    if s.Fits() then s.src else []
  }

  /** The write succeeds exactly if the bytes fit; if they do not, the size stays 0. */
  lemma Written(s: Told)
    requires s.Valid() && |s.replies| > 1
    ensures s.replies[1].Returned? && (s.replies[1].ok <==> s.Fits())
    ensures HoldsFile(s.ps[2], 0) && s.ps[2].handles == map[0 := HandleFor(Encode(s.str), NEW_FILE)]
    ensures var a := FileOf(s.ps[2], 0);
      && a.size == |Kept(s)| <= |a.bytes| && a.bytes[..a.size] == Kept(s)
      && s.ps[2].items == map[Encode(s.str) := FileItem(false, a)]
  {
    hide Formatted, IsRun, EachAbout, DirRuns.MisusedByFatal, Healthy, Encode, IsName83, NoRoom, TableOf, FatOf;
    hide Accounted, ChainOf, Space, SpaceFor;
    Created(s);
    SpaceStays(s);
    assert DirStep(s.lay, true, s.worlds[1], s.ps[1], s.ps[2], s.pool, Story(s.str, s.src)[1], s.replies[1], s.illegal);
  }

  /** Closed and opened again, it has these bytes. */
  lemma Reopened(s: Told)
    requires s.Valid() && |s.replies| > 3
    ensures s.replies[2].Returned? && s.replies[2].ok && s.replies[3].Returned? && s.replies[3].ok
    ensures var name := Encode(s.str);
      s.ps[4] == PlainDir(map[name := FileItem(false, FileRuns.PlainFile(Kept(s), |Kept(s)|, 0))],
                          map[0 := HandleFor(name, READ_ONLY)])
  {
    hide Formatted, IsRun, EachAbout, DirRuns.MisusedByFatal, Healthy, Encode, IsName83, NoRoom, TableOf, FatOf;
    hide Accounted, ChainOf, Space, SpaceFor, Kept;
    Written(s);
    assert DirStep(s.lay, true, s.worlds[2], s.ps[2], s.ps[3], s.pool, Story(s.str, s.src)[2], s.replies[2], s.illegal);
    assert DirStep(s.lay, true, s.worlds[3], s.ps[3], s.ps[4], s.pool, Story(s.str, s.src)[3], s.replies[3], s.illegal);
  }

  /** What is read is what was written, if that fits on the card, and nothing otherwise. */
  lemma ReadIsWritten(s: Told)
    requires s.Valid() && |s.replies| == 5
    ensures forall t :: 0 <= t < 5 ==> s.replies[t].Returned? && (s.replies[t].ok <==> t != 1 || s.Fits())
    ensures s.replies[4].data == if s.Fits() then s.src else []
  {
    hide Formatted, IsRun, EachAbout, DirRuns.MisusedByFatal, Healthy, Encode, IsName83, NoRoom, TableOf, FatOf;
    hide Accounted, ChainOf, Space, SpaceFor;
    Created(s);
    Written(s);
    Reopened(s);
    assert DirStep(s.lay, true, s.worlds[4], s.ps[4], s.ps[5], s.pool, Story(s.str, s.src)[4], s.replies[4], s.illegal);
  }

  /** No request is fatal: a new file has no block that could be dirty in the cache. */
  lemma NothingFatal(s: Told)
    requires s.Valid()
    ensures DirRuns.NoneFatal(s.lay, s.worlds, s.ps, Story(s.str, s.src), 5)
  {
    hide Formatted, IsRun, EachAbout, Healthy, Encode, IsName83, NoRoom, TableOf, FatOf, DirStep, AccountedStep;
    hide ChartOf;
    if |s.replies| > 0 {
      Created(s);
      if s.lay.blocksPerCluster > 0 {
        BareNotDoomed(s.lay, s.worlds[1].cache, |s.src|);
      }
    }
  }

  lemma BareNotDoomed(lay: Layout, c: CacheState, n: nat)
    requires lay.blocksPerCluster > 0
    ensures WriteDooms(lay, [], c, 0, 0, n) <==> c.misused
  {
    ShlZero(lay.clusterSizeShift);
  }

  /** What the client sees: all succeeds but a write that does not fit, and what was written is read. */
  predicate FetchedBack(replies: seq<Reply>, src: seq<byte>, fits: bool) {
    && |replies| == 5
    && (forall t :: 0 <= t < 5 ==> replies[t].Returned? && (replies[t].ok <==> t != 1 || fits))
    && replies[4].data == if fits then src else []
  }

  /**
   * On any formatted FAT16 card that works, a file that is created, written, closed, opened and read
   * has the bytes written, if they fit into the free clusters of the card.
   */
  method StoreAndFetch(cache: Cache, part: nat, hasClock: bool, str: seq<byte>, src: seq<byte>, illegal: set<byte>)
    returns (r: Start, replies: seq<Reply>)
    requires cache.Valid() && !cache.dirty && !cache.misused
    requires Mountable(cache.View(), part) && Formatted(LayoutOn(cache.View(), part), cache.View())
    requires LayoutOn(cache.View(), part).fatType == 16 && LayoutOn(cache.View(), part).rootDirEntryCount > 0
    requires 0 !in str && IsName83(str, illegal) && |src| <= 32767
    modifies cache, cache.card, cache.buffer
    ensures cache.card.hardware == old(cache.card.hardware)
            && (part == 0 || ValidPartition(old(cache.View())[0], part)) ==>
      var lay, d := old(LayoutOn(cache.View(), part)), old(cache.View());
      lay.WellFormed(|d|) && FetchedBack(replies, src, |src| <= Space(lay, FatOf(lay, d), []))
  {
    hide Mountable, ValidPartition, StartOf, LayoutOn, Layout.WellFormed, PlainRun, IsRun, EachAbout;
    hide Accounted, DirRuns.MisusedByFatal, DirRuns.NoneFatal, InOrder, Encode, IsName83, Space, FatOf, Healthy;
    ghost var lay, d := LayoutOn(cache.View(), part), cache.View();
    var open;
    ghost var ps, worlds, changes;
    r, replies, open, ps, worlds, changes := Session(cache, part, 1, hasClock, Story(str, src), illegal);
    if r.Begun? {
      ghost var told := Told(lay, d, worlds, changes, ps, 1, str, src, replies, illegal);
      NothingFatal(told);
      if |replies| == 5 {
        ReadIsWritten(told);
      }
    }
  }
}
