/** A directory, the handles on its files, and the chains of everything on the volume. */
module DirState {
  import opened Bytes
  import opened VolumeLayout
  import opened Chains
  import opened FileData
  import opened DirEntry
  import opened DirTable
  import opened DirOnDisk
  import opened Volume
  import opened File
  import opened Directories
  import opened Frames
  import opened FatRuns

  /** An open directory, and a pool of handles for its files. */
  datatype Desk = Desk(dir: SdFile, files: seq<SdFile>)

  ghost predicate DirSound(dir: SdFile)
    reads dir, dir.vol, dir.vol.cache, dir.vol.cache.card, dir.vol.cache.buffer
  {
    && dir.vol.Valid() && DirHandle(dir) && dir.flags.read && HasSlots(dir) && Sound(Slots(dir))
  }

  /** The directory lists a file or a subdirectory under this name. */
  ghost predicate Listed(t: seq<Entry>, name: seq<byte>) { SlotOf(t, name) < |t| && Keeps(t[SlotOf(t, name)]) }

  /** The entry of a file that is not open describes it. */
  ghost predicate ClosedFits(dir: SdFile, name: seq<byte>, chain: seq<nat>)
    requires HasSlots(dir)
    reads dir, dir.vol
  {
    var k := SlotOf(Slots(dir), name);
    k < SlotCount(dir)
    && EntryFits(dir.vol.lay, dir.vol.fat, Slots(dir)[k], SlotBlock(dir.vol.lay, dir.Place(), k), chain)
  }

  /** `f` is the handle of the file that the directory lists under this name. */
  ghost predicate OpenOn(f: SdFile, dir: SdFile, name: seq<byte>, chain: seq<nat>)
    requires HasSlots(dir)
    reads f, dir, dir.vol
  {
    && f.vol == dir.vol && f.kind == Normal && f.Ready() && f.chain == chain && IsFile(f.DiskEntry())
    && InSlot(dir, name, f.dirBlock, f.dirIndex)
  }

  predicate Pool(k: Desk) {
    && (forall i :: 0 <= i < |k.files| ==> k.files[i].vol == k.dir.vol && k.files[i] != k.dir)
    && (forall i, j :: 0 <= i < j < |k.files| ==> k.files[i] != k.files[j])
  }

  ghost function WorldNow(dir: SdFile, chains: map<Id, seq<nat>>): World
    reads dir.vol, dir.vol.cache
  {
    World(dir.vol.fat, dir.vol.disk, dir.vol.CacheNow(), chains)
  }

  /** The chains are those of the directory, of exactly what it lists, and of anything else; all sound and disjoint. */
  ghost predicate Charted(dir: SdFile, chains: map<Id, seq<nat>>)
    requires HasSlots(dir)
    reads dir, dir.vol, dir.vol.cache
  {
    && Directory in chains && chains[Directory] == dir.chain && Healthy(dir.vol.lay, WorldNow(dir, chains))
    && (forall name {:trigger Named(name)} :: Named(name) in chains <==> Listed(Slots(dir), name))
  }

  /** The handles named in `open` are open on the files of those names; the others are closed. */
  ghost predicate HandlesFit(k: Desk, chains: map<Id, seq<nat>>, open: map<nat, seq<byte>>)
    requires HasSlots(k.dir)
    reads k.dir, k.dir.vol, k.files
  {
    && (forall i :: i in open ==>
          i < |k.files| && Named(open[i]) in chains && OpenOn(k.files[i], k.dir, open[i], chains[Named(open[i])]))
    && (forall i {:trigger k.files[i]} :: 0 <= i < |k.files| && i !in open ==> k.files[i].kind == Closed)
  }

  predicate NoneTwice(open: map<nat, seq<byte>>) {
    forall i, j :: i in open && j in open && i != j ==> open[i] != open[j]
  }

  ghost predicate ClosedFit(dir: SdFile, chains: map<Id, seq<nat>>, open: map<nat, seq<byte>>)
    requires HasSlots(dir)
    reads dir, dir.vol
  {
    forall name {:trigger Named(name)} :: Named(name) in chains && name !in open.Values ==>
      ClosedFits(dir, name, chains[Named(name)])
  }

  /** The state between two operations. */
  ghost predicate Orderly(k: Desk, chains: map<Id, seq<nat>>, open: map<nat, seq<byte>>)
    reads k.dir, k.dir.vol, k.dir.vol.cache, k.dir.vol.cache.card, k.dir.vol.cache.buffer
    reads k.files
  {
    && DirSound(k.dir) && Pool(k) && Charted(k.dir, chains)
    && HandlesFit(k, chains, open) && ClosedFit(k.dir, chains, open) && NoneTwice(open)
  }

  // ---------------------------------------------------------------- the other names

  /** A slot stays where it is when the directory grows. */
  lemma PlaceStays(lay: Layout, p0: Extent, p1: Extent, k: nat)
    requires lay.ExtentOk(p0) && lay.ExtentOk(p1) && k / ENTRIES_PER_BLOCK < lay.BlockCount(p0)
    requires if p0.Root16? then p1.Root16? else p1.Clusters? && p0.chain <= p1.chain
    ensures k / ENTRIES_PER_BLOCK < lay.BlockCount(p1) && SlotBlock(lay, p1, k) == SlotBlock(lay, p0, k)
  {
    if p0.Clusters? {
      var more := p1.chain[|p0.chain|..];
      assert p1.chain == p0.chain + more;
      NthBlockPrefix(lay, p0.chain, more, k / ENTRIES_PER_BLOCK);
    }
  }

  /** Another file keeps its chain. */
  lemma FileSurvives(lay: Layout, f0: seq<nat>, f1: seq<nat>, d0: seq<Block>, d1: seq<Block>,
                     s0: seq<nat>, s1: seq<nat>,
                     own: seq<nat>, after: seq<nat>, place: Extent, block: nat, index: nat, first: nat, t: seq<nat>)
    requires Frame(lay, f0, f1, d0, d1, s0, s1, own, after, place, block, index)
    requires FileChain(lay, f0, first, t) && Disjoint(s0, t) && Disjoint(own, t)
    ensures FileChain(lay, f1, first, t)
  {
    DisjointMembers(s0, t);
    DisjointMembers(own, t);
    MembersDisjoint(t, s0 + own);
    ChainSurvives(lay, f0, f1, first, t, s0 + own);
  }

  /** The slot of another name is what and where it was. */
  ghost predicate SlotKept(t0: seq<Entry>, t1: seq<Entry>, name: seq<byte>) {
    && (Listed(t0, name) <==> Listed(t1, name)) && (SlotOf(t0, name) < |t0| <==> SlotOf(t1, name) < |t1|)
    && (SlotOf(t0, name) < |t0| ==>
          && SlotOf(t1, name) == SlotOf(t0, name) < |t1| && t1[SlotOf(t1, name)] == t0[SlotOf(t0, name)])
  }

  /** `t1` is `t0` but for the slot of this name. */
  ghost predicate OnlySlot(t0: seq<Entry>, t1: seq<Entry>, name: seq<byte>) {
    && OneSlot(t0, t1, SlotToUse(t0, name))
    && (IsLive(t1[SlotToUse(t0, name)]) ==> Name(t1[SlotToUse(t0, name)]) == name)
  }

  lemma OtherSlotKept(t0: seq<Entry>, t1: seq<Entry>, name: seq<byte>, other: seq<byte>)
    requires OnlySlot(t0, t1, name) && other != name
    ensures SlotKept(t0, t1, other)
  {
    hide Name, IsLive, OneSlot, Keeps;
    OneSlotOthers(t0, t1, name, other);
  }

  /**
   * An operation on one name, through the handle `i` if that is one of the pool. The clusters in `left`
   * stay in use although the name is lost.
   */
  datatype Turn = Turn(k: Desk, i: nat, name: seq<byte>, after: seq<nat>, block: nat, index: nat,
                       chains: map<Id, seq<nat>>, open: map<nat, seq<byte>>, open': map<nat, seq<byte>>,
                       ending: Ending, left: seq<nat>)

  /** What every operation on one name leaves alone. */
  twostate predicate OnlyThat(x: Turn)
    reads x.k.dir, x.k.dir.vol, x.k.dir.vol.cache, x.k.dir.vol.cache.card, x.k.dir.vol.cache.buffer, x.k.files
  {
    && old(HasSlots(x.k.dir)) && DirSound(x.k.dir) && x.k.dir.kind == old(x.k.dir.kind)
    && FramedAt(x.k.dir, ChainOf(x.chains, Named(x.name)), x.after, x.block, x.index)
    && OnlySlot(old(Slots(x.k.dir)), Slots(x.k.dir), x.name)
    && (forall j {:trigger x.k.files[j]} :: 0 <= j < |x.k.files| && j != x.i ==> SameHandle(x.k.files[j]))
    && (forall j :: j in x.open && j != x.i ==> x.open[j] != x.name)
  }

  /** An open file, the directory that lists it, and its name. */
  datatype Place = Place(f: SdFile, dir: SdFile, name: seq<byte>)

  /** Its handle is as good as before if the slot is the same and the chain is still one. */
  twostate lemma HandleStays(p: Place)
    requires old(DirSound(p.dir)) && DirSound(p.dir) && old(OpenOn(p.f, p.dir, p.name, p.f.chain)) && SameHandle(p.f)
    requires SlotKept(old(Slots(p.dir)), Slots(p.dir), p.name)
    requires old(SlotBlock(p.dir.vol.lay, p.dir.Place(), SlotOf(Slots(p.dir), p.name))) == p.f.dirBlock
    requires SlotBlock(p.dir.vol.lay, p.dir.Place(), SlotOf(Slots(p.dir), p.name)) == p.f.dirBlock
    requires FileChain(p.dir.vol.lay, p.dir.vol.fat, p.f.firstCluster, p.f.chain)
    ensures OpenOn(p.f, p.dir, p.name, p.f.chain)
    ensures old(p.f.EntryOnDisk()) && p.f.EntryOnDisk() && p.f.DiskEntry() == old(p.f.DiskEntry())
  {
    hide SdVolume.Valid, Layout.WellFormed, Layout.ExtentOk, Layout.InFat, Layout.BlockCount, FileChain, Capacity;
    hide Owned, UsedBlock, EntryAt, FirstCluster, Size, CursorAt, SlotBlock, SlotOf, Sound, DirHandle, IsFile;
    var k := SlotOf(Slots(p.dir), p.name);
    SlotBlockUsed(p.dir, k);
    SlotEntry(p.dir.vol.lay, p.dir.vol.disk, p.dir.Place(), SlotCount(p.dir), k);
    SlotEntry(p.dir.vol.lay, old(p.dir.vol.disk), old(p.dir.Place()), old(SlotCount(p.dir)), k);
  }

  lemma SlotEntry(lay: Layout, d: seq<Block>, e: Extent, n: nat, k: nat)
    requires lay.WellFormed(|d|) && lay.ExtentOk(e) && n <= ENTRIES_PER_BLOCK * lay.BlockCount(e) && k < n
    ensures SlotBlock(lay, e, k) < |d|
    ensures Table(lay, d, e, n)[k] == EntryAt(d[SlotBlock(lay, e, k)], k % ENTRIES_PER_BLOCK)
  {
    NthBlockPlace(lay, |d|, e, k / ENTRIES_PER_BLOCK);
  }

  /** An operation, and a name that it is not about. */
  datatype Bystander = Bystander(x: Turn, other: seq<byte>)

  /** The slot of a bystander, its place and its chain. */
  twostate lemma BystanderKept(b: Bystander)
    requires old(Orderly(b.x.k, b.x.chains, b.x.open)) && OnlyThat(b.x)
    requires b.other != b.x.name && Named(b.other) in b.x.chains
    ensures SlotKept(old(Slots(b.x.k.dir)), Slots(b.x.k.dir), b.other)
    ensures SlotOf(Slots(b.x.k.dir), b.other) < SlotCount(b.x.k.dir)
    ensures old(SlotOf(Slots(b.x.k.dir), b.other) < SlotCount(b.x.k.dir))
    ensures SlotBlock(b.x.k.dir.vol.lay, b.x.k.dir.Place(), SlotOf(Slots(b.x.k.dir), b.other))
         == old(SlotBlock(b.x.k.dir.vol.lay, b.x.k.dir.Place(), SlotOf(Slots(b.x.k.dir), b.other)))
    ensures var lay, t := b.x.k.dir.vol.lay, b.x.chains[Named(b.other)];
      forall first :: FileChain(lay, old(b.x.k.dir.vol.fat), first, t) ==> FileChain(lay, b.x.k.dir.vol.fat, first, t)
  {
    hide SdVolume.Valid, DirHandle, Sound, Keeps, SlotOf, SlotBlock, Frame, OnlySlot, FileChain, Disjoint, ChainOrEmpty;
    hide Layout.WellFormed, Layout.ExtentOk, Layout.BlockCount, HandlesFit, ClosedFit;
    var dir, lay, t := b.x.k.dir, b.x.k.dir.vol.lay, b.x.chains[Named(b.other)];
    OtherSlotKept(old(Slots(dir)), Slots(dir), b.x.name, b.other);
    FramePrefix(lay, old(dir.vol.fat), dir.vol.fat, old(dir.vol.disk), dir.vol.disk, old(dir.chain), dir.chain,
                ChainOf(b.x.chains, Named(b.x.name)), b.x.after, dir.Place(), b.x.block, b.x.index);
    PlaceStays(lay, old(dir.Place()), dir.Place(), old(SlotOf(Slots(dir), b.other)));
    OwnApart(lay, old(WorldNow(dir, b.x.chains)), Named(b.x.name), Named(b.other));
    forall first | FileChain(lay, old(dir.vol.fat), first, t)
      ensures FileChain(lay, dir.vol.fat, first, t)
    {
      FileSurvives(lay, old(dir.vol.fat), dir.vol.fat, old(dir.vol.disk), dir.vol.disk, old(dir.chain), dir.chain,
                   ChainOf(b.x.chains, Named(b.x.name)), b.x.after, dir.Place(), b.x.block, b.x.index, first, t);
    }
  }

  lemma FramePrefix(lay: Layout, f0: seq<nat>, f1: seq<nat>, d0: seq<Block>, d1: seq<Block>, s0: seq<nat>, s1: seq<nat>,
                    own: seq<nat>, after: seq<nat>, place: Extent, block: nat, index: nat)
    requires Frame(lay, f0, f1, d0, d1, s0, s1, own, after, place, block, index)
    ensures s0 <= s1 && |d1| == |d0|
  {
  }

  /** What a closed file needs is still true of a bystander. */
  twostate lemma BystanderClosed(b: Bystander)
    requires old(Orderly(b.x.k, b.x.chains, b.x.open)) && OnlyThat(b.x)
    requires b.other != b.x.name && Named(b.other) in b.x.chains && b.other !in b.x.open.Values
    ensures ClosedFits(b.x.k.dir, b.other, b.x.chains[Named(b.other)])
  {
    hide SdVolume.Valid, DirHandle, Sound, SlotOf, SlotBlock, FileChain, OnlyThat, Charted, HandlesFit, Capacity;
    hide Layout.WellFormed, Layout.ExtentOk, Layout.BlockCount, Keeps, Owned, FirstCluster, Size, IsFile, IsSubDir;
    BystanderKept(b);
    assert old(ClosedFits(b.x.k.dir, b.other, b.x.chains[Named(b.other)]));
  }

  /** An operation, and a handle that it does not use. */
  datatype Onlooker = Onlooker(x: Turn, j: nat)

  /** What an open file needs is still true of an onlooker. */
  twostate lemma OnlookerOpen(o: Onlooker)
    requires old(Orderly(o.x.k, o.x.chains, o.x.open)) && OnlyThat(o.x) && o.j in o.x.open && o.j != o.x.i
    ensures o.j < |o.x.k.files| && Named(o.x.open[o.j]) in o.x.chains
    ensures OpenOn(o.x.k.files[o.j], o.x.k.dir, o.x.open[o.j], o.x.chains[Named(o.x.open[o.j])])
    ensures old(o.x.k.files[o.j].EntryOnDisk()) && o.x.k.files[o.j].EntryOnDisk() && SameHandle(o.x.k.files[o.j])
    ensures o.x.k.files[o.j].DiskEntry() == old(o.x.k.files[o.j].DiskEntry())
    ensures old(o.x.k.files[o.j].chain) == o.x.chains[Named(o.x.open[o.j])]
  {
    hide SdVolume.Valid, DirHandle, Sound, SlotOf, SlotBlock, FileChain, Charted, ClosedFit, Capacity, SlotKept;
    hide Layout.WellFormed, Layout.ExtentOk, Layout.BlockCount, Keeps, FramedAt, OnlySlot, SdFile.Ready, EntryAt;
    var f, dir, name := o.x.k.files[o.j], o.x.k.dir, o.x.open[o.j];
    BystanderKept(Bystander(o.x, name));
    assert old(OpenOn(f, dir, name, o.x.chains[Named(name)]));
    ReadyChain(Place(f, dir, name));
    assert SameHandle(f);
    HandleStays(Place(f, dir, name));
  }

  twostate lemma ReadyChain(p: Place)
    requires old(p.f.Ready()) && p.f.vol == p.dir.vol
    ensures FileChain(p.dir.vol.lay, old(p.dir.vol.fat), old(p.f.firstCluster), old(p.f.chain))
  {
  }

  // ---------------------------------------------------------------- an operation keeps order

  ghost function TurnChange(x: Turn): Change
    requires Directory in x.chains
  {
    EndingChange(x.chains, x.name, x.ending)
  }

  /** What the operation has done to its name and its handle. */
  ghost predicate TurnDone(x: Turn)
    requires HasSlots(x.k.dir)
    reads x.k.dir, x.k.dir.vol, x.k.files
  {
    && x.ending.dir == x.k.dir.chain && (x.i in x.open ==> x.open[x.i] == x.name)
    && match x.ending
       case Kept(_, chain) =>
         && chain == x.after && Listed(Slots(x.k.dir), x.name) && ChainOrEmpty(x.k.dir.vol.lay, x.k.dir.vol.fat, chain)
         && (if x.i in x.open' then
               && x.i < |x.k.files| && x.open' == x.open[x.i := x.name]
               && OpenOn(x.k.files[x.i], x.k.dir, x.name, chain)
             else
               && x.open' == x.open - {x.i} && ClosedFits(x.k.dir, x.name, chain)
               && (x.i < |x.k.files| ==> x.k.files[x.i].kind == Closed))
       case Lost(_) =>
         && !Listed(Slots(x.k.dir), x.name) && x.open' == x.open - {x.i}
         && (x.i < |x.k.files| ==> x.k.files[x.i].kind == Closed)
  }

  /** It is one step, also if an I/O error broke it off. */
  twostate lemma TurnNext(x: Turn)
    requires old(Orderly(x.k, x.chains, x.open)) && x.k.dir.vol.Valid()
    requires FramedAt(x.k.dir, ChainOf(x.chains, Named(x.name)), x.after, x.block, x.index)
    requires x.ending.dir == x.k.dir.chain
    requires x.ending.Kept? ==> x.ending.chain == x.after && ChainOrEmpty(x.k.dir.vol.lay, x.k.dir.vol.fat, x.after)
    ensures Next(x.k.dir.vol.lay, old(WorldNow(x.k.dir, x.chains)),
                 WorldNow(x.k.dir, After(x.chains, TurnChange(x))), TurnChange(x))
    ensures AboutName(TurnChange(x), x.name)
  {
    hide SdVolume.Valid, DirHandle, Sound, Listed, Frame, Next, Layout.WellFormed, Layout.ExtentOk, HandlesFit;
    hide ClosedFit;
    var dir := x.k.dir;
    FileIsChain(dir.vol.lay, dir.vol.fat, dir.firstCluster, dir.chain);
    FrameNext(dir.vol.lay, old(WorldNow(dir, x.chains)), dir.vol.fat, dir.vol.disk, dir.vol.CacheNow(), x.name,
              dir.chain, x.after, dir.Place(), x.block, x.index, x.ending);
  }

  twostate lemma StillCharted(x: Turn)
    requires old(Orderly(x.k, x.chains, x.open)) && OnlyThat(x) && TurnDone(x)
    ensures Charted(x.k.dir, After(x.chains, TurnChange(x)))
  {
    hide SdVolume.Valid, DirHandle, Sound, Listed, Frame, Next, Layout.WellFormed, Layout.ExtentOk, HandlesFit;
    hide ClosedFit, OnlySlot, Healthy, OpenOn, ClosedFits, ChainOrEmpty, SlotOf;
    var dir, chains' := x.k.dir, After(x.chains, TurnChange(x));
    TurnNext(x);
    NextKeepsHealth(dir.vol.lay, old(WorldNow(dir, x.chains)), WorldNow(dir, chains'), TurnChange(x));
    forall m {:trigger Named(m)}
      ensures Named(m) in chains' <==> Listed(Slots(dir), m)
    {
      if m != x.name {
        OtherSlotKept(old(Slots(dir)), Slots(dir), x.name, m);
        assert Named(m) in chains' <==> Named(m) in x.chains;
      }
    }
  }

  twostate lemma StillOpen(x: Turn)
    requires old(Orderly(x.k, x.chains, x.open)) && OnlyThat(x) && TurnDone(x)
    ensures HandlesFit(x.k, After(x.chains, TurnChange(x)), x.open')
  {
    hide SdVolume.Valid, DirHandle, Sound, Listed, FramedAt, Healthy, ClosedFit;
    hide OnlySlot, OpenOn, ClosedFits, ChainOrEmpty, SlotOf, NoneTwice;
    var dir, chains' := x.k.dir, After(x.chains, TurnChange(x));
    forall j | j in x.open'
      ensures j < |x.k.files| && Named(x.open'[j]) in chains'
      ensures OpenOn(x.k.files[j], dir, x.open'[j], chains'[Named(x.open'[j])])
    {
      if j != x.i {
        assert j in x.open && x.open'[j] == x.open[j];
        OnlookerOpen(Onlooker(x, j));
      }
    }
    forall j | 0 <= j < |x.k.files| && j !in x.open'
      ensures x.k.files[j].kind == Closed
    {
      assert j != x.i ==> SameHandle(x.k.files[j]);
    }
  }

  twostate lemma StillOnce(x: Turn)
    requires old(Orderly(x.k, x.chains, x.open)) && OnlyThat(x) && TurnDone(x)
    ensures NoneTwice(x.open')
  {
    hide SdVolume.Valid, DirHandle, Sound, Listed, FramedAt, Healthy, ClosedFit, HandlesFit, OnlySlot, OpenOn;
    hide ClosedFits;
  }

  twostate lemma StillClosed(x: Turn)
    requires old(Orderly(x.k, x.chains, x.open)) && OnlyThat(x) && TurnDone(x)
    ensures ClosedFit(x.k.dir, After(x.chains, TurnChange(x)), x.open')
  {
    hide SdVolume.Valid, DirHandle, Sound, Listed, FramedAt, Healthy, HandlesFit;
    hide OnlySlot, OpenOn, ClosedFits, ChainOrEmpty, SlotOf, SameHandle, NoneTwice;
    var dir, chains' := x.k.dir, After(x.chains, TurnChange(x));
    assert x.i in x.open' && x.open'[x.i] == x.name ==> x.name in x.open'.Values;
    forall m {:trigger Named(m)} | Named(m) in chains' && m !in x.open'.Values
      ensures ClosedFits(dir, m, chains'[Named(m)])
    {
      if m != x.name {
        ClosedBefore(x, m);
        BystanderClosed(Bystander(x, m));
      }
    }
  }

  lemma ClosedBefore(x: Turn, m: seq<byte>)
    requires x.i in x.open ==> x.open[x.i] == x.name
    requires x.open' == x.open - {x.i} || x.open' == x.open[x.i := x.name]
    requires m != x.name && m !in x.open'.Values
    ensures m !in x.open.Values
  {
    forall j | j in x.open
      ensures x.open[j] != m
    {
      assert j != x.i ==> j in x.open' && x.open'[j] == x.open[j];
    }
  }

  /** Between operations all is in order again. */
  twostate lemma Settle(x: Turn)
    requires old(Orderly(x.k, x.chains, x.open)) && OnlyThat(x) && TurnDone(x)
    ensures Orderly(x.k, After(x.chains, TurnChange(x)), x.open')
    ensures Next(x.k.dir.vol.lay, old(WorldNow(x.k.dir, x.chains)),
                 WorldNow(x.k.dir, After(x.chains, TurnChange(x))), TurnChange(x))
    ensures AboutName(TurnChange(x), x.name)
  {
    hide SdVolume.Valid, DirHandle, Sound, Listed, Frame, Next, Charted, HandlesFit, ClosedFit, NoneTwice, OnlySlot;
    hide TurnDone;
    StillCharted(x);
    StillOpen(x);
    StillOnce(x);
    StillClosed(x);
    StillNext(x);
  }

  twostate lemma StillNext(x: Turn)
    requires old(Orderly(x.k, x.chains, x.open)) && OnlyThat(x) && TurnDone(x)
    ensures Next(x.k.dir.vol.lay, old(WorldNow(x.k.dir, x.chains)),
                 WorldNow(x.k.dir, After(x.chains, TurnChange(x))), TurnChange(x))
    ensures AboutName(TurnChange(x), x.name)
  {
    hide SdVolume.Valid, DirHandle, Sound, Listed, Frame, Next, HandlesFit, ClosedFit, OnlySlot, ClosedFits, OpenOn;
    hide ChainOrEmpty;
    TurnNext(x);
  }

  // ---------------------------------------------------------------- no cluster gets lost

  /** Clusters that the name and the directory have given up are free, but for those in `left`. */
  twostate predicate NoStray(x: Turn)
    reads x.k.dir, x.k.dir.vol
  {
    var own, after := old(x.k.dir.chain) + ChainOf(x.chains, Named(x.name)), x.k.dir.chain + x.after;
    && Exact(old(x.k.dir.vol.fat), x.k.dir.vol.fat, own, after + x.left) && InUseBy(x.k.dir.vol.fat, x.left)
    && (forall c :: c in x.left ==> c in own && c !in after) && (x.ending.Lost? ==> x.after == [])
  }

  twostate lemma TurnTight(x: Turn)
    requires old(Orderly(x.k, x.chains, x.open)) && x.k.dir.vol.Valid() && NoStray(x)
    requires x.ending.dir == x.k.dir.chain && (x.ending.Kept? ==> x.ending.chain == x.after)
    ensures Tight(old(WorldNow(x.k.dir, x.chains)), WorldNow(x.k.dir, After(x.chains, TurnChange(x))), TurnChange(x),
                  x.left)
  {
    hide SdVolume.Valid, DirHandle, Sound, Listed, Healthy, HandlesFit, ClosedFit, Exact, Tight, InUseBy, NoneTwice;
    EndingTight(old(WorldNow(x.k.dir, x.chains)), x.k.dir.vol.fat, x.k.dir.vol.disk, x.k.dir.vol.CacheNow(), x.name,
                x.after, x.ending, x.left);
  }

  // ---------------------------------------------------------------- nothing happened

  /** An operation that was refused: nothing on the volume has changed. */
  twostate predicate Refused(x: Turn)
    reads x.k.dir, x.k.dir.vol, x.k.dir.vol.cache, x.k.dir.vol.cache.card, x.k.dir.vol.cache.buffer, x.k.files
  {
    && x.k.dir.vol.Valid() && x.k.dir.vol.disk == old(x.k.dir.vol.disk) && x.k.dir.vol.fat == old(x.k.dir.vol.fat)
    && SameDir(x.k.dir)
    && (forall j {:trigger x.k.files[j]} :: 0 <= j < |x.k.files| && j != x.i ==> SameHandle(x.k.files[j]))
    && x.i !in x.open && (x.i < |x.k.files| ==> x.k.files[x.i].kind == Closed)
  }

  twostate lemma StaysInOrder(x: Turn)
    requires old(Orderly(x.k, x.chains, x.open)) && Refused(x)
    ensures Orderly(x.k, x.chains, x.open)
    ensures AboutName(NO_CHANGE, x.name) && After(x.chains, NO_CHANGE) == x.chains
    ensures Next(x.k.dir.vol.lay, old(WorldNow(x.k.dir, x.chains)), WorldNow(x.k.dir, x.chains), NO_CHANGE)
  {
    hide SdVolume.Valid, Healthy, Sound, Listed, Next, NoneTwice, Table, EntryFits;
    var w0, w := old(WorldNow(x.k.dir, x.chains)), WorldNow(x.k.dir, x.chains);
    NothingNext(x.k.dir.vol.lay, w0, w.cache);
    assert w == w0.(cache := w.cache);
    NextKeepsHealth(x.k.dir.vol.lay, w0, w, NO_CHANGE);
    DirStays(x);
    StaysOpen(x);
  }

  twostate lemma DirStays(x: Turn)
    requires old(DirSound(x.k.dir)) && Refused(x)
    ensures DirSound(x.k.dir) && Slots(x.k.dir) == old(Slots(x.k.dir)) && x.k.dir.Place() == old(x.k.dir.Place())
  {
    hide SdVolume.Valid, Sound, Table, Layout.WellFormed, Layout.ExtentOk, Layout.BlockCount;
  }

  twostate lemma StaysOpen(x: Turn)
    requires old(Orderly(x.k, x.chains, x.open)) && Refused(x) && DirSound(x.k.dir)
    requires Slots(x.k.dir) == old(Slots(x.k.dir)) && x.k.dir.Place() == old(x.k.dir.Place())
    ensures HandlesFit(x.k, x.chains, x.open)
  {
    hide SdVolume.Valid, Healthy, Sound, Listed, NoneTwice, Table, ClosedFit, Charted, SdFile.Ready, SlotOf;
    hide SlotBlock, DirHandle;
    forall j | j in x.open
      ensures j < |x.k.files| && Named(x.open[j]) in x.chains
      ensures OpenOn(x.k.files[j], x.k.dir, x.open[j], x.chains[Named(x.open[j])])
    {
      assert old(OpenOn(x.k.files[j], x.k.dir, x.open[j], x.chains[Named(x.open[j])]));
      assert SameHandle(x.k.files[j]);
      ReadyChain(Place(x.k.files[j], x.k.dir, x.open[j]));
      HandleStays(Place(x.k.files[j], x.k.dir, x.open[j]));
    }
    forall j | 0 <= j < |x.k.files| && j !in x.open
      ensures x.k.files[j].kind == Closed
    {
      assert j != x.i ==> SameHandle(x.k.files[j]);
    }
  }
}
