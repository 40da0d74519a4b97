/** The directory on the volume and the plain directory that it stands for. */
module DirShown {
  import opened Bytes
  import opened VolumeLayout
  import opened Chains
  import opened FileData
  import opened DirEntry
  import opened DirTable
  import opened DirOnDisk
  import opened Volume
  import opened File
  import opened Directories
  import opened FatRuns
  import opened FileRuns
  import opened DirState
  import opened PlainDirs

  predicate ReadOnly(e: Entry) { HasBit(Attributes(e), ATT_READ_ONLY) }

  /** The bytes of a file that is not open. */
  ghost function ClosedPlain(lay: Layout, d: seq<Block>, chain: seq<nat>, size: nat): PlainFile {
    if lay.WellFormed(|d|) && lay.ExtentOk(Clusters(chain)) && size <= Capacity(lay, Clusters(chain))
    then PlainFile(Content(lay, d, Clusters(chain), size), size, 0) else EMPTY_FILE
  }

  /** What an entry with these clusters stands for, if no handle is open on it. */
  ghost function EntryItem(lay: Layout, d: seq<Block>, e: Entry, chain: seq<nat>): Item {
    if !Keeps(e) then Reserved
    else if !IsFile(e) then SubDirectory
    else FileItem(ReadOnly(e), ClosedPlain(lay, d, chain, Size(e)))
  }

  ghost function ClosedItem(dir: SdFile, name: seq<byte>, chains: map<Id, seq<nat>>): Item
    requires HasSlots(dir)
    reads dir, dir.vol
  {
    var k := SlotOf(Slots(dir), name);
    if k < SlotCount(dir) then EntryItem(dir.vol.lay, dir.vol.disk, Slots(dir)[k], ChainOf(chains, Named(name)))
    else Reserved
  }

  /** What a handle stands for. */
  ghost predicate Shows(f: SdFile, name: seq<byte>, h: Handle, item: Item)
    reads f, f.vol
  {
    && h == Handle(name, Mode(f)) && Tellable(f) && f.EntryOnDisk()
    && item == FileItem(ReadOnly(f.DiskEntry()), Plain(f))
  }

  ghost predicate NamesShown(dir: SdFile, p: PlainDir)
    requires HasSlots(dir)
    reads dir, dir.vol
  {
    forall name :: name in p.items <==> SlotOf(Slots(dir), name) < SlotCount(dir)
  }

  ghost predicate HandlesShown(k: Desk, open: map<nat, seq<byte>>, p: PlainDir)
    requires Pool(k)
    reads k.dir.vol, k.files
  {
    && p.handles.Keys == open.Keys
    && forall i :: i in open ==>
         i < |k.files| && open[i] in p.items && Shows(k.files[i], open[i], p.handles[i], p.items[open[i]])
  }

  ghost predicate ClosedShown(dir: SdFile, chains: map<Id, seq<nat>>, open: map<nat, seq<byte>>, p: PlainDir)
    requires HasSlots(dir)
    reads dir, dir.vol
  {
    forall name :: name in p.items && name !in open.Values ==> p.items[name] == ClosedItem(dir, name, chains)
  }

  /** The directory and its handles stand for this plain directory. */
  ghost predicate StandsFor(k: Desk, chains: map<Id, seq<nat>>, open: map<nat, seq<byte>>, p: PlainDir)
    requires HasSlots(k.dir) && Pool(k)
    reads k.dir, k.dir.vol, k.files
  {
    NamesShown(k.dir, p) && HandlesShown(k, open, p) && ClosedShown(k.dir, chains, open, p)
  }

  /** The handle is open on the name. */
  predicate IsOpenOn(open: map<nat, seq<byte>>, i: nat, name: seq<byte>) { i in open && open[i] == name }

  /** What an open handle shows. */
  ghost function OpenItem(f: SdFile): Item
    reads f, f.vol
  {
    if Tellable(f) && f.EntryOnDisk() then FileItem(ReadOnly(f.DiskEntry()), Plain(f)) else Reserved
  }

  /** What a name stands for: the file of its handle, or what its entry describes. */
  ghost function ItemNow(k: Desk, chains: map<Id, seq<nat>>, open: map<nat, seq<byte>>, name: seq<byte>): Item
    requires HasSlots(k.dir) && Pool(k)
    reads k.dir, k.dir.vol, k.files
  {
    if exists i: nat :: i < |k.files| && IsOpenOn(open, i, name) then
      var i: nat :| i < |k.files| && IsOpenOn(open, i, name);
      OpenItem(k.files[i])
    else ClosedItem(k.dir, name, chains)
  }

  /** The plain directory that the directory and its handles stand for. */
  ghost function PlainNow(k: Desk, chains: map<Id, seq<nat>>, open: map<nat, seq<byte>>): PlainDir
    requires HasSlots(k.dir) && Pool(k)
    reads k.dir, k.dir.vol, k.files
  {
    PlainDir(map name | name in LiveNames(Slots(k.dir)) :: ItemNow(k, chains, open, name),
             map i | i in open && i < |k.files| :: Handle(open[i], Mode(k.files[i])))
  }

  lemma PlainNowStands(k: Desk, chains: map<Id, seq<nat>>, open: map<nat, seq<byte>>)
    requires Orderly(k, chains, open)
    ensures StandsFor(k, chains, open, PlainNow(k, chains, open))
  {
    hide SdVolume.Valid, DirHandle, Sound, HasSlots, Charted, ClosedFit, NoneTwice, NamesShown, ClosedShown, PlainNow;
    hide Shows, OpenOn;
    forall i | i in open
      ensures i < |k.files| && open[i] in PlainNow(k, chains, open).items
      ensures i in PlainNow(k, chains, open).handles
      ensures Shows(k.files[i], open[i], PlainNow(k, chains, open).handles[i], PlainNow(k, chains, open).items[open[i]])
    {
      HandleItem(k, chains, open, i);
    }
    PlainNowNames(k, chains, open);
  }

  lemma PlainNowNames(k: Desk, chains: map<Id, seq<nat>>, open: map<nat, seq<byte>>)
    requires HasSlots(k.dir) && Pool(k)
    ensures NamesShown(k.dir, PlainNow(k, chains, open)) && ClosedShown(k.dir, chains, open, PlainNow(k, chains, open))
    ensures PlainNow(k, chains, open).handles.Keys <= open.Keys
  {
    hide ClosedItem, ItemNow, SlotOf, LiveNames, Mode, Pool;
    var p := PlainNow(k, chains, open);
    forall name
      ensures name in p.items <==> SlotOf(Slots(k.dir), name) < SlotCount(k.dir)
    {
      LiveName(Slots(k.dir), name);
    }
    forall name | name in p.items && name !in open.Values
      ensures p.items[name] == ClosedItem(k.dir, name, chains)
    {
      NotOpenItem(k, chains, open, name);
    }
  }

  lemma NotOpenItem(k: Desk, chains: map<Id, seq<nat>>, open: map<nat, seq<byte>>, name: seq<byte>)
    requires HasSlots(k.dir) && Pool(k) && name !in open.Values
    ensures ItemNow(k, chains, open, name) == ClosedItem(k.dir, name, chains)
  {
    hide ClosedItem, OpenItem;
    assert forall i: nat :: IsOpenOn(open, i, name) ==> name in open.Values;
  }

  lemma HandleItem(k: Desk, chains: map<Id, seq<nat>>, open: map<nat, seq<byte>>, i: nat)
    requires Orderly(k, chains, open) && i in open
    ensures i < |k.files| && open[i] in PlainNow(k, chains, open).items && i in PlainNow(k, chains, open).handles
    ensures Shows(k.files[i], open[i], PlainNow(k, chains, open).handles[i], PlainNow(k, chains, open).items[open[i]])
  {
    hide SdVolume.Valid, DirHandle, Sound, HasSlots, Charted, ClosedFit, NoneTwice, ItemNow, Shows, OpenOn, LiveNames;
    hide Mode;
    OpenShows(k, chains, open, i);
  }

  lemma OpenShows(k: Desk, chains: map<Id, seq<nat>>, open: map<nat, seq<byte>>, i: nat)
    requires Orderly(k, chains, open) && i in open
    ensures i < |k.files| && open[i] in LiveNames(Slots(k.dir))
    ensures Shows(k.files[i], open[i], Handle(open[i], Mode(k.files[i])), ItemNow(k, chains, open, open[i]))
  {
    hide SdVolume.Valid, DirHandle, Sound, Healthy, ClosedFit, ClosedItem, SlotOf, Tellable, Plain, LiveNames;
    assert OpenOn(k.files[i], k.dir, open[i], chains[Named(open[i])]);
    assert Listed(Slots(k.dir), open[i]);
    LiveName(Slots(k.dir), open[i]);
    ReadyTellable(k.files[i]);
    assert IsOpenOn(open, i, open[i]);
  }

  // ---------------------------------------------------------------- the other names

  lemma SameEntryItem(lay: Layout, d: seq<Block>, d': seq<Block>, e: Entry, chain: seq<nat>)
    requires SameBlocks(lay, d, d', chain)
    ensures EntryItem(lay, d', e, chain) == EntryItem(lay, d, e, chain)
  {
    hide Capacity, Layout.WellFormed, Layout.ExtentOk, SameBlocks, Content, Keeps, IsFile;
    SameBlocksLength(lay, d, d', chain);
    if lay.WellFormed(|d|) && lay.ExtentOk(Clusters(chain)) && Size(e) <= Capacity(lay, Clusters(chain)) {
      SameContent(lay, d, d', chain, Size(e));
    }
  }

  lemma SameBlocksLength(lay: Layout, d: seq<Block>, d': seq<Block>, chain: seq<nat>)
    requires SameBlocks(lay, d, d', chain)
    ensures |d'| == |d|
  {
  }

  lemma UnaffectedBlocks(lay: Layout, w: World, w': World, e: Change, name: seq<byte>, other: seq<byte>)
    requires Next(lay, w, w', e) && AboutName(e, name) && other != name
    ensures SameBlocks(lay, w.disk, w'.disk, ChainOf(w.chains, Named(other)))
    ensures ChainOf(w'.chains, Named(other)) == ChainOf(w.chains, Named(other))
    ensures Named(other) in w'.chains <==> Named(other) in w.chains
  {
    assert !Affects(e, Named(other));
  }

  /** A closed bystander shows the same. */
  twostate lemma BystanderShown(b: Bystander)
    requires old(Orderly(b.x.k, b.x.chains, b.x.open)) && OnlyThat(b.x) && TurnDone(b.x) && b.other != b.x.name
    ensures SlotOf(Slots(b.x.k.dir), b.other) < SlotCount(b.x.k.dir) <==>
      old(SlotOf(Slots(b.x.k.dir), b.other) < SlotCount(b.x.k.dir))
    ensures ClosedItem(b.x.k.dir, b.other, After(b.x.chains, TurnChange(b.x)))
         == old(ClosedItem(b.x.k.dir, b.other, b.x.chains))
  {
    hide SdVolume.Valid, DirHandle, Sound, Keeps, SlotOf, FramedAt, OnlySlot, Next, EntryItem, HandlesFit, ClosedFit;
    hide Healthy, Listed, Layout.WellFormed, Layout.ExtentOk, Layout.BlockCount, OpenOn, ClosedFits, ChainOrEmpty;
    var dir := b.x.k.dir;
    OtherSlotKept(old(Slots(dir)), Slots(dir), b.x.name, b.other);
    StillNext(b.x);
    UnaffectedBlocks(dir.vol.lay, old(WorldNow(dir, b.x.chains)), WorldNow(dir, After(b.x.chains, TurnChange(b.x))),
                     TurnChange(b.x), b.x.name, b.other);
    if SlotOf(Slots(dir), b.other) < SlotCount(dir) {
      SameEntryItem(dir.vol.lay, old(dir.vol.disk), dir.vol.disk, Slots(dir)[SlotOf(Slots(dir), b.other)],
                    ChainOf(b.x.chains, Named(b.other)));
    }
  }

  /** The file of another handle shows the same. */
  twostate lemma OnlookerShown(o: Onlooker)
    requires old(Orderly(o.x.k, o.x.chains, o.x.open)) && OnlyThat(o.x) && TurnDone(o.x)
    requires o.j in o.x.open && o.j != o.x.i
    ensures o.j < |o.x.k.files|
    ensures forall h, item :: old(Shows(o.x.k.files[o.j], o.x.open[o.j], h, item)) ==>
      Shows(o.x.k.files[o.j], o.x.open[o.j], h, item)
  {
    hide SdVolume.Valid, DirHandle, Sound, SlotOf, FramedAt, OnlySlot, Next, Healthy, ClosedFit, HandlesFit, InSlot;
    hide Listed, Layout.WellFormed, Layout.ExtentOk, Layout.BlockCount, TurnDone, ChainOrEmpty, SlotBlock, EntryAt;
    hide Shows;
    hide SdFile.EntryOnDisk, SdFile.Ready, SameHandle, IsFile;
    OnlookerOpen(o);
    StillNext(o.x);
    var f, dir, name := o.x.k.files[o.j], o.x.k.dir, o.x.open[o.j];
    var w, w', e := old(WorldNow(dir, o.x.chains)), WorldNow(dir, After(o.x.chains, TurnChange(o.x))), TurnChange(o.x);
    UnaffectedBlocks(dir.vol.lay, w, w', e, o.x.name, name);
    SameShown(Place(f, dir, name));
  }

  /** With the same fields, entry and blocks a handle shows the same. */
  twostate lemma SameShown(p: Place)
    requires old(DirSound(p.dir)) && DirSound(p.dir) && p.f.vol == p.dir.vol && SameHandle(p.f)
    requires old(p.f.EntryOnDisk()) && p.f.EntryOnDisk() && p.f.DiskEntry() == old(p.f.DiskEntry())
    requires SameBlocks(p.dir.vol.lay, old(p.dir.vol.disk), p.dir.vol.disk, old(p.f.chain))
    ensures forall h, item :: old(Shows(p.f, p.name, h, item)) ==> Shows(p.f, p.name, h, item)
  {
    hide SdVolume.Valid, DirHandle, Sound, Layout.WellFormed, Layout.ExtentOk, Capacity, Content, SameBlocks, EntryAt;
    SameBlocksLength(p.dir.vol.lay, old(p.dir.vol.disk), p.dir.vol.disk, p.f.chain);
    if old(Tellable(p.f)) {
      SameContent(p.dir.vol.lay, old(p.dir.vol.disk), p.dir.vol.disk, p.f.chain, Held(p.f));
    }
  }

  // ---------------------------------------------------------------- the name itself

  /** An operation, and what it does to the plain directory. */
  datatype Shown = Shown(x: Turn, p: PlainDir, p': PlainDir)

  /** Only the name of the operation, and its handle, have changed. */
  predicate SameElse(s: Shown) {
    && (forall m :: m in s.p.items && m != s.x.name ==> m in s.p'.items && s.p'.items[m] == s.p.items[m])
    && (forall m :: m in s.p'.items && m != s.x.name ==> m in s.p.items)
    && s.p'.handles.Keys == s.x.open'.Keys
    && (forall j :: j in s.p.handles && j in s.p'.handles && j != s.x.i ==> s.p'.handles[j] == s.p.handles[j])
  }

  /** The name stands for what its handle, or else its entry, shows. */
  ghost predicate NameShown(s: Shown)
    requires HasSlots(s.x.k.dir) && Pool(s.x.k)
    reads s.x.k.dir, s.x.k.dir.vol, s.x.k.files
  {
    var x, slot := s.x, SlotOf(Slots(s.x.k.dir), s.x.name);
    && (x.name in s.p'.items <==> slot < SlotCount(x.k.dir))
    && (if x.i in x.open' then
          x.i < |x.k.files| && x.name in s.p'.items && x.i in s.p'.handles
          && Shows(x.k.files[x.i], x.name, s.p'.handles[x.i], s.p'.items[x.name])
        else
          x.name in s.p'.items ==>
            s.p'.items[x.name] == EntryItem(x.k.dir.vol.lay, x.k.dir.vol.disk, Slots(x.k.dir)[slot],
                                            if x.ending.Kept? then x.after else []))
  }

  twostate lemma StillShown(s: Shown)
    requires old(Orderly(s.x.k, s.x.chains, s.x.open)) && OnlyThat(s.x) && TurnDone(s.x)
    requires old(StandsFor(s.x.k, s.x.chains, s.x.open, s.p)) && SameElse(s) && NameShown(s)
    ensures StandsFor(s.x.k, After(s.x.chains, TurnChange(s.x)), s.x.open', s.p')
  {
    hide SdVolume.Valid, DirHandle, Sound, FramedAt, OnlySlot, Charted, ClosedFit, HandlesFit, NoneTwice;
    hide NamesShown, HandlesShown, ClosedShown, SameElse, NameShown, TurnDone, SameHandle;
    StillOpenShown(s);
    StillClosedShown(s);
    StillNames(s);
  }

  twostate lemma StillNames(s: Shown)
    requires old(Orderly(s.x.k, s.x.chains, s.x.open)) && OnlyThat(s.x) && TurnDone(s.x)
    requires old(NamesShown(s.x.k.dir, s.p)) && SameElse(s) && NameShown(s)
    ensures NamesShown(s.x.k.dir, s.p')
  {
    hide SdVolume.Valid, DirHandle, Sound, SlotOf, FramedAt, OnlySlot, Charted, ClosedFit, HandlesFit, NoneTwice;
    hide Shows, EntryItem, ClosedItem, TurnDone, SameHandle;
    forall m
      ensures m in s.p'.items <==> SlotOf(Slots(s.x.k.dir), m) < SlotCount(s.x.k.dir)
    {
      if m != s.x.name {
        BystanderShown(Bystander(s.x, m));
      }
    }
  }

  twostate lemma StillOpenShown(s: Shown)
    requires old(Orderly(s.x.k, s.x.chains, s.x.open)) && OnlyThat(s.x) && TurnDone(s.x)
    requires old(HandlesShown(s.x.k, s.x.open, s.p)) && SameElse(s) && NameShown(s)
    ensures HandlesShown(s.x.k, s.x.open', s.p')
  {
    hide SdVolume.Valid, DirHandle, Sound, SlotOf, FramedAt, OnlySlot, Charted, ClosedFit, HandlesFit, NoneTwice;
    hide Listed, OpenOn, ClosedFits, ChainOrEmpty, EntryItem, Shows, SameHandle;
    var x := s.x;
    forall j | j in x.open'
      ensures j < |x.k.files| && x.open'[j] in s.p'.items
      ensures Shows(x.k.files[j], x.open'[j], s.p'.handles[j], s.p'.items[x.open'[j]])
    {
      if j != x.i {
        OnlyItsHandle(x, j);
        OnlookerShown(Onlooker(x, j));
      }
    }
  }

  lemma OnlyItsHandle(x: Turn, j: nat)
    requires x.open' == x.open - {x.i} || x.open' == x.open[x.i := x.name]
    requires j in x.open' && j != x.i
    ensures j in x.open && x.open'[j] == x.open[j]
  {
  }

  twostate lemma StillClosedShown(s: Shown)
    requires old(Orderly(s.x.k, s.x.chains, s.x.open)) && OnlyThat(s.x) && TurnDone(s.x)
    requires old(ClosedShown(s.x.k.dir, s.x.chains, s.x.open, s.p)) && SameElse(s) && NameShown(s)
    ensures ClosedShown(s.x.k.dir, After(s.x.chains, TurnChange(s.x)), s.x.open', s.p')
  {
    hide SdVolume.Valid, DirHandle, Sound, SlotOf, FramedAt, OnlySlot, Healthy, ClosedFit, HandlesFit, NoneTwice;
    hide Listed, OpenOn, ClosedFits, ChainOrEmpty, EntryItem, Shows, SameHandle;
    var x := s.x;
    assert x.i in x.open' && x.open'[x.i] == x.name ==> x.name in x.open'.Values;
    forall m | m in s.p'.items && m !in x.open'.Values
      ensures s.p'.items[m] == ClosedItem(x.k.dir, m, After(x.chains, TurnChange(x)))
    {
      if m != x.name {
        ClosedBefore(x, m);
        BystanderShown(Bystander(x, m));
      }
    }
  }

  /** After a refusal everything shows the same. */
  twostate lemma StaysShown(s: Shown)
    requires old(Orderly(s.x.k, s.x.chains, s.x.open) && StandsFor(s.x.k, s.x.chains, s.x.open, s.p))
    requires Refused(s.x) && Orderly(s.x.k, s.x.chains, s.x.open)
    ensures StandsFor(s.x.k, s.x.chains, s.x.open, s.p)
  {
    hide SdVolume.Valid, DirHandle, Sound, Charted, HandlesFit, ClosedFit, NoneTwice, Refused, NamesShown, ClosedShown;
    hide Shows;
    EntriesStayShown(s);
    forall i | i in s.x.open
      ensures i < |s.x.k.files| && Shows(s.x.k.files[i], s.x.open[i], s.p.handles[i], s.p.items[s.x.open[i]])
    {
      RefusedShown(Onlooker(s.x, i));
    }
  }

  twostate lemma EntriesStayShown(s: Shown)
    requires old(Orderly(s.x.k, s.x.chains, s.x.open)) && Refused(s.x)
    requires old(NamesShown(s.x.k.dir, s.p) && ClosedShown(s.x.k.dir, s.x.chains, s.x.open, s.p))
    ensures HasSlots(s.x.k.dir) && NamesShown(s.x.k.dir, s.p)
    ensures ClosedShown(s.x.k.dir, s.x.chains, s.x.open, s.p)
  {
    hide SdVolume.Valid, DirHandle, Sound, Charted, HandlesFit, ClosedFit, NoneTwice, EntryItem, SlotOf;
    DirStays(s.x);
  }

  twostate lemma RefusedShown(o: Onlooker)
    requires old(Orderly(o.x.k, o.x.chains, o.x.open)) && Refused(o.x) && Orderly(o.x.k, o.x.chains, o.x.open)
    requires o.j in o.x.open
    ensures o.j < |o.x.k.files|
    ensures forall h, item :: old(Shows(o.x.k.files[o.j], o.x.open[o.j], h, item)) ==>
      Shows(o.x.k.files[o.j], o.x.open[o.j], h, item)
  {
    hide SdVolume.Valid, Sound, Charted, ClosedFit, NoneTwice, Table, Shows, EntryAt, SdFile.Linked, SdFile.Positioned;
    var f := o.x.k.files[o.j];
    assert old(OpenOn(f, o.x.k.dir, o.x.open[o.j], o.x.chains[Named(o.x.open[o.j])]));
    assert SameHandle(f);
    SameShown(Place(f, o.x.k.dir, o.x.open[o.j]));
  }

  // ---------------------------------------------------------------- what the volume decides

  /** The table, the room and the clusters that are left, seen from the handle of the directory. */
  lemma RoomShown(dir: SdFile, chains: map<Id, seq<nat>>)
    requires DirSound(dir) && Charted(dir, chains)
    ensures var lay, root16, w := dir.vol.lay, dir.kind == Root16Dir, WorldNow(dir, chains);
      && TableOf(lay, root16, w) == Slots(dir) && (NoRoom(lay, root16, w) <==> Full(dir))
      && (NoSlot(lay, root16, w) <==> FirstEmpty(Slots(dir)) == SlotCount(dir))
  {
    hide SdVolume.Valid, DirHandle, Sound, Healthy, Listed, Layout.WellFormed, Layout.ExtentOk, Layout.BlockCount;
    hide Table;
  }

  /** A name that no handle is open on. */
  lemma ItemShown(k: Desk, chains: map<Id, seq<nat>>, open: map<nat, seq<byte>>, p: PlainDir, name: seq<byte>)
    requires Orderly(k, chains, open) && StandsFor(k, chains, open, p)
    requires name !in open.Values && name != [] && name[0] != DOT
    ensures name in p.items <==> name in TableMap(Slots(k.dir))
    ensures name in p.items ==> var e := TableMap(Slots(k.dir))[name];
      && p.items[name] == EntryItem(k.dir.vol.lay, k.dir.vol.disk, e, ChainOf(chains, Named(name)))
      && (p.items[name].FileItem? <==> IsFile(e)) && (p.items[name].FileItem? ==> p.items[name].readOnly == ReadOnly(e))
  {
    hide SdVolume.Valid, DirHandle, Sound, Healthy, Listed, Layout.WellFormed, Layout.ExtentOk, ClosedPlain;
    Lookup(Slots(k.dir), name);
    if name in p.items {
      LiveFile(TableMap(Slots(k.dir))[name], name);
    }
  }

  /** The plain file of such a name has the size of its entry. */
  lemma ClosedSize(k: Desk, chains: map<Id, seq<nat>>, open: map<nat, seq<byte>>, p: PlainDir, name: seq<byte>)
    requires Orderly(k, chains, open) && StandsFor(k, chains, open, p)
    requires name !in open.Values && name != [] && name[0] != DOT && name in p.items && p.items[name].FileItem?
    ensures SlotOf(Slots(k.dir), name) < SlotCount(k.dir)
    ensures p.items[name].plain.size == Size(Slots(k.dir)[SlotOf(Slots(k.dir), name)])
  {
    hide SdVolume.Valid, DirHandle, Sound, Healthy, HandlesShown, HandlesFit, EntryFits, SlotBlock, SlotOf, ClosedPlain;
    hide EocAboveClusters;
    hide Keeps, IsFile, ReadOnly, Table, Layout.WellFormed, Layout.ExtentOk, Layout.BlockCount;
    var dir, slot := k.dir, SlotOf(Slots(k.dir), name);
    assert p.items[name] == ClosedItem(dir, name, chains);
    assert ClosedFits(dir, name, chains[Named(name)]);
    dir.vol.Facts();
    SizeFits(dir.vol.lay, dir.vol.fat, dir.vol.disk, Slots(dir)[slot], SlotBlock(dir.vol.lay, dir.Place(), slot),
             chains[Named(name)]);
  }

  lemma SizeFits(lay: Layout, fat: seq<nat>, d: seq<Block>, e: Entry, block: nat, chain: seq<nat>)
    requires EntryFits(lay, fat, e, block, chain) && IsFile(e) && lay.WellFormed(|d|) && EocAboveClusters(lay)
    ensures ClosedPlain(lay, d, chain, Size(e)).size == Size(e)
  {
    hide Layout.WellFormed, IsFile, Size, Owned, Capacity, EocAboveClusters;
    FileExtent(lay, fat, FirstCluster(e), chain);
  }

  lemma LiveFile(e: Entry, name: seq<byte>)
    requires IsLive(e) && Name(e) == name && name != [] && name[0] != DOT
    ensures IsFile(e) ==> Keeps(e)
  {
  }

  /** What `open` refuses, in terms of the name. */
  lemma OpenShown(dir: SdFile, name: seq<byte>, mode: OpenMode)
    requires HasSlots(dir) && Consistent(mode)
    ensures name in TableMap(Slots(dir)) && IsFile(TableMap(Slots(dir))[name]) ==>
      (OpenRefused(dir, name, mode) <==>
         (mode.creat && mode.excl) || (ReadOnly(TableMap(Slots(dir))[name]) && (mode.write || mode.trunc)))
    ensures name !in TableMap(Slots(dir)) ==>
      (OpenRefused(dir, name, mode) <==> !(mode.creat && mode.write) || Full(dir))
    ensures name in TableMap(Slots(dir)) && !IsFile(TableMap(Slots(dir))[name]) && mode.write ==>
      OpenRefused(dir, name, mode)
  {
    hide TableMap, Full;
  }
}
