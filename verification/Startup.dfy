/** From mounting a volume to the first request: a sound volume with an open root directory and closed handles. */
module Startup {
  import opened Bytes
  import opened Bits
  import opened VolumeLayout
  import opened BlockCache
  import opened Chains
  import opened FileData
  import opened DirEntry
  import opened DirTable
  import opened DirOnDisk
  import opened Mount
  import opened FatDecoding = Fat
  import opened Volume
  import opened File
  import opened Directories
  import opened FatRuns
  import opened DirState
  import opened PlainDirs
  import opened DirShown
  import opened DirMoves
  import opened DirRuns

  /** The volume right after mounting. */
  ghost function Mounted(lay: Layout, d: seq<Block>, chains: map<Id, seq<nat>>): World
    requires lay.WellFormed(|d|)
  {
    World(FatOf(lay, d), d, CacheState(false, NO_BLOCK, false), chains)
  }

  function RootPlace(lay: Layout, chains: map<Id, seq<nat>>): Extent {
    if lay.fatType == 16 then Root16 else Clusters(ChainOf(chains, Directory))
  }

  /** The root directory starts where the layout says. */
  ghost predicate RootFits(lay: Layout, chain: seq<nat>) {
    if lay.fatType == 16 then chain == []
    else chain != [] && chain[0] == lay.rootDirStart && ChainBytes(lay, |chain|) < SIZE_LIMIT
  }

  /** An entry of the root directory describes the file with this chain. */
  ghost predicate SlotFits(lay: Layout, fat: seq<nat>, t: seq<Entry>, place: Extent, k: nat, chain: seq<nat>) {
    && k < |t| && lay.ExtentOk(place) && k / ENTRIES_PER_BLOCK < lay.BlockCount(place)
    && EntryFits(lay, fat, t[k], SlotBlock(lay, place, k), chain)
  }

  /**
   * A sound volume: the FATs agree, all chains are sound and disjoint, and the entries of the root
   * directory describe the chains of their files.
   */
  ghost predicate Tidy(lay: Layout, d: seq<Block>, chains: map<Id, seq<nat>>) {
    && lay.WellFormed(|d|) && FatsAgree(lay, d) && Healthy(lay, Mounted(lay, d, chains))
    && Directory in chains && RootFits(lay, chains[Directory])
    && var t := TableOf(lay, lay.fatType == 16, Mounted(lay, d, chains));
    && Sound(t)
    && (forall name {:trigger Named(name)} :: Named(name) in chains <==> Listed(t, name))
    && (forall name {:trigger Named(name)} :: Named(name) in chains ==>
          SlotFits(lay, FatOf(lay, d), t, RootPlace(lay, chains), SlotOf(t, name), chains[Named(name)]))
  }

  datatype Start = Refused | Begun(k: Desk)

  /** Closed handles on a volume. */
  method Handles(vol: SdVolume, n: nat, hasClock: bool) returns (files: seq<SdFile>)
    ensures |files| == n && forall i, j :: 0 <= i < j < n ==> files[i] != files[j]
    ensures forall i {:trigger files[i]} :: 0 <= i < n ==>
      fresh(files[i]) && files[i].vol == vol && files[i].kind == Closed
  {
    files := [];
    for i := 0 to n
      invariant |files| == i && forall a, b :: 0 <= a < b < i ==> files[a] != files[b]
      invariant forall a {:trigger files[a]} :: 0 <= a < i ==>
        fresh(files[a]) && files[a].vol == vol && files[a].kind == Closed
    {
      var f := new SdFile(vol, hasClock);
      files := files + [f];
    }
  }

  /** Mount a volume and open its root directory, with `n` handles for its files. */
  method Begin(cache: Cache, part: nat, n: nat, hasClock: bool, ghost chains: map<Id, seq<nat>>) returns (r: Start)
    requires cache.Valid() && !cache.dirty && !cache.misused
    requires Mountable(cache.View(), part) && Tidy(LayoutOn(cache.View(), part), cache.View(), chains)
    modifies cache, cache.card, cache.buffer
    ensures r.Begun? ==>
      && r.k.dir.vol.cache == cache && r.k.dir.vol.lay == old(LayoutOn(cache.View(), part)) && |r.k.files| == n
      && fresh(r.k.dir) && fresh(r.k.dir.vol) && (forall f :: f in r.k.files ==> fresh(f))
      && cache.card.hardware == old(cache.card.hardware)
    ensures r.Begun? ==> Started(r.k, old(cache.View()), chains)
    ensures !cache.misused
    ensures r.Refused? ==>
      cache.card.hardware > old(cache.card.hardware) || (part > 0 && !ValidPartition(old(cache.View())[0], part))
  {
    hide Mountable, ValidPartition, StartOf, LayoutOn, Layout.WellFormed, Sound, Listed, SlotFits, Bpb.Plausible, BpbOf;
    hide Healthy, SdVolume.Valid, DirHandle, HasSlots, SdFile.Ready, Orderly, TableOf;
    ghost var d := cache.View();
    var ok, lay;
    ghost var start;
    MountableIsPlausible(d, part);
    ok, lay, start := Init(cache, part);
    if !ok {
      return Refused;
    }
    var vol := new SdVolume(cache, lay);
    var dir := new SdFile(vol, hasClock);
    RootIsChain(lay, d, chains);
    ok := OpenRoot(dir, chains[Directory]);
    vol.FaultsAreHardware();
    if !ok {
      return Refused;
    }
    var files := Handles(vol, n, hasClock);
    r := Begun(Desk(dir, files));
    TidyIsOrderly(r.k, chains);
  }

  lemma MountableIsPlausible(d: seq<Block>, part: nat)
    requires Mountable(d, part)
    ensures part <= 4 && d != [] && StartOf(d[0], part) < |d| && BpbOf(d[StartOf(d[0], part)]).Plausible()
  {
    hide BpbOf, StartOf;
  }

  /** The root directory is open and its volume is as it was mounted. */
  ghost predicate Started(k: Desk, d: seq<Block>, chains: map<Id, seq<nat>>)
    reads k.dir, k.dir.vol, k.dir.vol.cache, k.dir.vol.cache.card, k.dir.vol.cache.buffer, k.files
  {
    && Orderly(k, chains, map[]) && k.dir.vol.lay.WellFormed(|d|)
    && k.dir.vol.disk == d && k.dir.vol.fat == FatOf(k.dir.vol.lay, d)
    && (k.dir.kind == Root16Dir <==> k.dir.vol.lay.fatType == 16)
  }

  /** The chain of the root directory of a FAT32 volume. */
  lemma RootIsChain(lay: Layout, d: seq<Block>, chains: map<Id, seq<nat>>)
    requires Tidy(lay, d, chains)
    ensures Directory in chains && lay.WellFormed(|d|) && (lay.fatType == 16 || lay.fatType == 32)
    ensures lay.fatType == 32 ==>
      && IsChain(lay, FatOf(lay, d), chains[Directory]) && chains[Directory][0] == lay.rootDirStart
      && ChainBytes(lay, |chains[Directory]|) < SIZE_LIMIT
  {
    hide Sound, Listed, SlotFits, IsChain, TableOf;
  }

  lemma TidyIsOrderly(k: Desk, chains: map<Id, seq<nat>>)
    requires k.dir.vol.Valid() && Tidy(k.dir.vol.lay, k.dir.vol.disk, chains) && Pool(k)
    requires DirHandle(k.dir) && HasSlots(k.dir) && k.dir.flags.read && k.dir.IsRoot()
    requires k.dir.vol.lay.fatType == 16 ==> k.dir.kind == Root16Dir
    requires k.dir.vol.lay.fatType == 32 ==> k.dir.kind == Root32Dir && k.dir.chain == chains[Directory]
    requires forall i {:trigger k.files[i]} :: 0 <= i < |k.files| ==> k.files[i].kind == Closed
    ensures Orderly(k, chains, map[])
  {
    hide SdVolume.Valid, Sound, Listed, SlotFits, ClosedFit, Table, SlotOf, TableOf, ChainOrEmpty, Disjoint;
    SlotsAreTable(k.dir, chains);
    TidyIsClosedFit(k.dir, chains);
  }

  /** The table of the volume is that of the handle. */
  lemma SlotsAreTable(dir: SdFile, chains: map<Id, seq<nat>>)
    requires dir.vol.Valid() && Tidy(dir.vol.lay, dir.vol.disk, chains) && DirHandle(dir) && HasSlots(dir)
    requires dir.vol.lay.fatType == 16 ==> dir.kind == Root16Dir
    requires dir.vol.lay.fatType == 32 ==> dir.kind == Root32Dir && dir.chain == chains[Directory]
    ensures dir.vol.fat == FatOf(dir.vol.lay, dir.vol.disk) && dir.chain == chains[Directory]
    ensures TableOf(dir.vol.lay, dir.vol.lay.fatType == 16, Mounted(dir.vol.lay, dir.vol.disk, chains)) == Slots(dir)
    ensures RootPlace(dir.vol.lay, chains) == dir.Place()
  {
    hide Sound, Listed, Healthy, SlotFits, Table, SlotOf;
  }

  lemma TidyIsClosedFit(dir: SdFile, chains: map<Id, seq<nat>>)
    requires Tidy(dir.vol.lay, dir.vol.disk, chains) && HasSlots(dir)
    requires dir.vol.fat == FatOf(dir.vol.lay, dir.vol.disk)
    requires TableOf(dir.vol.lay, dir.vol.lay.fatType == 16, Mounted(dir.vol.lay, dir.vol.disk, chains)) == Slots(dir)
    requires RootPlace(dir.vol.lay, chains) == dir.Place()
    ensures ClosedFit(dir, chains, map[])
  {
    hide Layout.WellFormed, Sound, Listed, Healthy, TableOf, Table, SlotOf, EntryFits, SlotBlock, RootPlace;
  }

  // ---------------------------------------------------------------- a formatted card

  /** The only chain on a formatted card is that of the root directory, of FAT32 one cluster. */
  function RootOnly(lay: Layout): map<Id, seq<nat>> {
    map[Directory := if lay.fatType == 16 then [] else [lay.rootDirStart]]
  }

  /** A volume with an empty root directory. */
  ghost predicate Formatted(lay: Layout, d: seq<Block>) {
    var root := RootPlace(lay, RootOnly(lay));
    && lay.WellFormed(|d|) && FatsAgree(lay, d)
    && (lay.fatType == 32 ==> IsChain(lay, FatOf(lay, d), [lay.rootDirStart])) && lay.ExtentOk(root)
    && forall k: nat {:trigger SlotAt(lay, d, root, k)} ::
         k / ENTRIES_PER_BLOCK < lay.BlockCount(root) ==> IsFree(SlotAt(lay, d, root, k))
  }

  lemma FormattedTidy(lay: Layout, d: seq<Block>)
    requires Formatted(lay, d)
    ensures Tidy(lay, d, RootOnly(lay))
  {
    hide Layout.BlockCount, FatsAgree, IsChain, SlotFits;
    ClusterIsSmall(lay, |d|);
    hide Layout.WellFormed;
    var t := TableOf(lay, lay.fatType == 16, Mounted(lay, d, RootOnly(lay)));
    forall name {:trigger Named(name)}
      ensures SlotOf(t, name) == |t|
    {
      assert forall k: nat :: k < |t| ==> !Holds(t, k, name);
    }
  }

  lemma ClusterIsSmall(lay: Layout, n: nat)
    requires lay.WellFormed(n)
    ensures ChainBytes(lay, 1) < SIZE_LIMIT && (lay.fatType == 16 || lay.fatType == 32)
  {
    ShlBlock(lay.clusterSizeShift);
  }

  lemma {:induction false} ShlBlock(k: nat)
    ensures Shl(BLOCK_SIZE, k) == BLOCK_SIZE * Pow2(k) && (k <= 7 ==> Pow2(k) <= 128)
  {
    if k > 0 {
      ShlBlock(k - 1);
      assert k <= 7 ==> Pow2(7) == 128;
      Pow2Grows(k, 7);
    }
  }

  lemma {:induction false} Pow2Grows(i: nat, j: nat)
    ensures i <= j ==> Pow2(i) <= Pow2(j)
  {
    if i < j {
      Pow2Grows(i, j - 1);
    }
  }

  lemma NothingLive(k: Desk, chains: map<Id, seq<nat>>)
    requires HasSlots(k.dir) && Pool(k)
    requires forall j {:trigger Slots(k.dir)[j]} :: 0 <= j < SlotCount(k.dir) ==> IsFree(Slots(k.dir)[j])
    ensures PlainNow(k, chains, map[]) == PlainDir(map[], map[])
  {
    hide ItemNow;
  }

  /** The plain directory of an empty root directory. */
  lemma RootIsEmpty(k: Desk, d: seq<Block>)
    requires Formatted(k.dir.vol.lay, d) && Started(k, d, RootOnly(k.dir.vol.lay))
    ensures HasSlots(k.dir) && Pool(k) && PlainNow(k, RootOnly(k.dir.vol.lay), map[]) == PlainDir(map[], map[])
  {
    hide SdVolume.Valid, DirHandle, Sound, HandlesFit, ClosedFit, PlainNow, FatsAgree, Layout.WellFormed, Healthy;
    hide Layout.BlockCount, IsChain;
    NothingLive(k, RootOnly(k.dir.vol.lay));
  }

  /**
   * On a formatted card, any sequence of requests does what it does to an empty plain directory, to
   * its end if the hardware works and no request is fatal. The worlds beside it are a run of the
   * volume, from the blocks of the card to those at the end.
   */
  method Session(cache: Cache, part: nat, n: nat, hasClock: bool, s: seq<Request>, illegal: set<byte>)
    returns (r: Start, replies: seq<Reply>, open: map<nat, seq<byte>>, ghost ps: seq<PlainDir>,
             ghost worlds: seq<World>, ghost changes: seq<Change>)
    requires cache.Valid() && !cache.dirty && !cache.misused
    requires Mountable(cache.View(), part) && Formatted(LayoutOn(cache.View(), part), cache.View())
    modifies cache, cache.card, cache.buffer
    ensures r.Begun? ==> var lay, d := old(LayoutOn(cache.View(), part)), old(cache.View());
      && r.k.dir.vol.lay == lay && r.k.dir.vol.cache == cache && |r.k.files| == n && r.k.dir.vol.Valid()
      && PlainRun(lay, lay.fatType == 16, worlds, ps, n, s, replies, illegal) && ps[0] == PlainDir(map[], map[])
      && IsRun(lay, worlds, changes) && EachAbout(changes, ps, s, illegal)
      && Accounted(lay.fatType == 16, worlds, ps, s, replies, illegal) && MisusedByFatal(lay, worlds, ps, s)
      && worlds[0].disk == d && worlds[0].fat == FatOf(lay, d) && worlds[0].chains == RootOnly(lay)
      && !worlds[0].cache.misused
      && worlds[|changes|] == WorldNow(r.k.dir, worlds[|changes|].chains)
      && (forall t :: 0 <= t < |worlds| ==> Healthy(lay, worlds[t]))
      && (|replies| == |s| ==> |changes| == |s| && InOrder(r.k, worlds[|s|].chains, open, ps[|s|]))
    ensures cache.card.hardware == old(cache.card.hardware) ==>
      if r.Begun? then NoneFatal(r.k.dir.vol.lay, worlds, ps, s, |s|) ==> |replies| == |s|
      else part > 0 && !ValidPartition(old(cache.View())[0], part)
  {
    hide Mountable, ValidPartition, StartOf, LayoutOn, Formatted, Layout.WellFormed, Orderly, Tidy, IsRun, EachAbout;
    hide HasSlots, DirStep, InOrder, OthersIntact, Healthy, NoneFatal, PlainNow;
    ghost var d, lay := cache.View(), LayoutOn(cache.View(), part);
    replies, open, ps, worlds, changes := [], map[], [], [], [];
    FormattedTidy(lay, d);
    r := Begin(cache, part, n, hasClock, RootOnly(lay));
    if r.Begun? {
      RootIsEmpty(r.k, d);
      replies, open, ps, worlds, changes := Run(r.k, RootOnly(lay), map[], s, illegal);
    }
  }
}
