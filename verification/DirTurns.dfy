/** Operations on the files of a directory beside other open files: each is one step and keeps order. */
module DirTurns {
  import opened Bytes
  import opened VolumeLayout
  import opened Chains
  import opened FileData
  import opened DirEntry
  import opened DirTable
  import opened DirOnDisk
  import opened Names
  import opened Volume
  import opened File
  import opened Directories
  import opened Frames
  import opened Removal
  import opened Filing
  import opened MakingDir
  import opened Contiguous
  import opened FatRuns
  import opened DirState
  import Allocation
  import FileRuns

  /** The file has done as its byte sequence would. */
  twostate predicate AsPlain(f: SdFile, new c: FileRuns.Command, new ok: bool, new data: seq<byte>)
    reads f, f.vol, f.vol.cache, f.vol.cache.card
  {
    && old(FileRuns.Tellable(f))
    && (f.vol.cache.card.faults == old(f.vol.cache.card.faults) ==>
          && FileRuns.Tellable(f)
          && FileRuns.PlainStep(old(FileRuns.Plain(f)), FileRuns.Plain(f), old(FileRuns.Mode(f)), c, ok, data,
                                old(FileRuns.SpaceOf(f))))
  }

  /** A command on an open file, seen from the directory that lists it. */
  method DoFiled(f: SdFile, dir: SdFile, ghost name: seq<byte>, c: FileRuns.Command) returns (ok: bool, data: seq<byte>)
    requires f.vol.Valid() && f.Ready() && f.kind == Normal && FileRuns.Enabled(f, c) && Filed(f, dir, name)
    modifies f`curCluster, f`curPosition, f`fileSize, f`firstCluster, f`flags, f`chain
    modifies f.vol, f.vol.cache, f.vol.cache.card, f.vol.cache.buffer
    ensures f.vol.Valid() && OnlyItsEntry(f, dir, name) && Framed(f, dir, old(f.chain), f.chain)
    ensures AsPlain(f, c, ok, data) && FileRuns.FatalOutcome(f, c) && FileRuns.Mode(f) == old(FileRuns.Mode(f))
    ensures f.vol.cache.card.faults == old(f.vol.cache.card.faults) ==> f.Ready() && FileRuns.NoStray(f)
    ensures ok ==> f.vol.cache.card.faults == old(f.vol.cache.card.faults)
  {
    hide SdVolume.Valid, Layout.WellFormed, Layout.ExtentOk, Layout.BlockCount, Table, SlotOf, FreeTail, UniqueNames;
    hide TableMap, Name, Attributes, EntryAt, SlotBlock, FileChain, Capacity, SameButEntry, FileRuns.PlainStep;
    hide FileRuns.Plain, Confined, SdFile.Ready, SdFile.WellPlaced, IsLive, ChainOrEmpty, Space;
    hide FileRuns.Tellable, FileRuns.Fatal, FileRuns.NoStray;
    ghost var d, fat, own, k := f.vol.disk, f.vol.fat, f.chain, SlotOf(Slots(dir), name);
    FileRuns.ReadyTellable(f);
    ok, data := FileRuns.Do(f, c);
    dir.vol.Facts();
    SameLength(f.vol.lay, d, f.vol.disk, f.chain, f.dirBlock, f.dirIndex);
    FileStepInDir(f.vol.lay, fat, f.vol.fat, d, f.vol.disk, dir.Place(), dir.firstCluster, dir.chain,
                  SlotCount(dir), k, own, f.chain);
    SlotFramed(dir, fat, d, k, own, f.chain, f.chain);
  }

  /**
   * What every operation below promises: it is one step about its name, and unless the card fails all is
   * in order again. `moved` is false if it was refused.
   */
  twostate predicate Turned(x: Turn, new moved: bool)
    reads x.k.dir, x.k.dir.vol, x.k.dir.vol.cache, x.k.dir.vol.cache.card, x.k.dir.vol.cache.buffer, x.k.files
  {
    && x.k.dir.vol.Valid() && Directory in x.chains && x.k.dir.kind == old(x.k.dir.kind)
    && (var e := if moved then TurnChange(x) else NO_CHANGE;
        && AboutName(e, x.name)
        && Next(x.k.dir.vol.lay, old(WorldNow(x.k.dir, x.chains)), WorldNow(x.k.dir, After(x.chains, e)), e))
    && (x.k.dir.vol.cache.card.faults == old(x.k.dir.vol.cache.card.faults) ==>
          if moved then
            OnlyThat(x) && TurnDone(x) && Orderly(x.k, After(x.chains, TurnChange(x)), x.open') && NoStray(x)
          else Refused(x) && x.open' == x.open && Orderly(x.k, x.chains, x.open))
  }

  /** The operation of a request. */
  predicate TurnOf(x: Turn, k: Desk, chains: map<Id, seq<nat>>, open: map<nat, seq<byte>>, i: nat,
                   open': map<nat, seq<byte>>)
  {
    x.k == k && x.chains == chains && x.open == open && x.i == i && x.open' == open'
  }

  /** The entry of the file has kept its attributes. */
  twostate predicate SameAttributes(f: SdFile)
    reads f, f.vol
  {
    old(f.EntryOnDisk()) && f.EntryOnDisk() && Attributes(f.DiskEntry()) == old(Attributes(f.DiskEntry()))
  }

  /** What a command does to file `i`. */
  twostate predicate UsedOutcome(k: Desk, new i: nat, new c: FileRuns.Command, new ok: bool, new data: seq<byte>)
    reads k.files, set f | f in k.files :: f.vol, set f | f in k.files :: f.vol.cache,
      set f | f in k.files :: f.vol.cache.card
  {
    && i < |k.files| && AsPlain(k.files[i], c, ok, data) && FileRuns.FatalOutcome(k.files[i], c)
    && FileRuns.Mode(k.files[i]) == old(FileRuns.Mode(k.files[i])) && SameAttributes(k.files[i])
  }

  /** What closing does to file `i`. */
  twostate predicate ClosedOutcome(k: Desk, new i: nat, new name: seq<byte>, new ok: bool)
    reads k.dir, k.dir.vol, k.files, set f | f in k.files :: f.vol
  {
    && i < |k.files| && SameAttributes(k.files[i])
    && (ok ==>
          && ClosedAs(k.files[i]) && k.files[i].vol == k.dir.vol
          && HasSlots(k.dir) && InSlot(k.dir, name, k.files[i].dirBlock, k.files[i].dirIndex))
  }

  /** The entry of a closed file has its size, and the file its bytes. */
  twostate predicate ClosedAs(f: SdFile)
    reads f, f.vol
  {
    && f.EntryOnDisk() && Size(f.DiskEntry()) == f.fileSize == old(f.fileSize) && f.chain == old(f.chain)
    && f.WellPlaced(old(f.vol.disk), f.chain, 0, f.fileSize) && f.WellPlaced(f.vol.disk, f.chain, 0, f.fileSize)
    && Content(f.vol.lay, f.vol.disk, Clusters(f.chain), f.fileSize)
       == Content(f.vol.lay, old(f.vol.disk), Clusters(f.chain), f.fileSize)
  }

  lemma KeepsSame(e: Entry, e': Entry)
    requires Name(e) == Name(e') && Attributes(e) == Attributes(e')
    ensures Keeps(e) == Keeps(e') && IsFile(e) == IsFile(e')
  {
    SameMark(e, e');
  }

  /** What the state says of the open file `i`. */
  lemma OpenFiled(k: Desk, chains: map<Id, seq<nat>>, open: map<nat, seq<byte>>, i: nat)
    requires Orderly(k, chains, open) && i in open
    ensures i < |k.files| && Named(open[i]) in chains && OpenOn(k.files[i], k.dir, open[i], chains[Named(open[i])])
    ensures Filed(k.files[i], k.dir, open[i]) && Listed(Slots(k.dir), open[i])
    ensures forall j :: j in open && j != i ==> open[j] != open[i]
    ensures DirSound(k.dir) && Pool(k) && Directory in chains
  {
    hide SdVolume.Valid, DirHandle, Sound, SdFile.Ready, Listed;
  }

  /** An operation that leaves the directory's chain alone. */
  twostate lemma FileStray(x: Turn)
    requires Exact(old(x.k.dir.vol.fat), x.k.dir.vol.fat, ChainOf(x.chains, Named(x.name)), x.after)
    requires x.k.dir.chain == old(x.k.dir.chain) && x.left == [] && x.ending.Kept?
    ensures NoStray(x)
  {
  }

  /** An operation on a new name. */
  twostate lemma GrownStray(x: Turn)
    requires ChainOf(x.chains, Named(x.name)) == [] && OnlyGrown(x.k.dir, x.after) && x.left == []
    requires x.ending.Lost? ==> x.after == []
    ensures NoStray(x)
  {
    assert forall i :: 0 <= i < |old(x.k.dir.chain)| ==> old(x.k.dir.chain)[i] == x.k.dir.chain[i];
  }

  /** A command on the open file `i`. */
  method OnFile(k: Desk, ghost chains: map<Id, seq<nat>>, open: map<nat, seq<byte>>, i: nat, c: FileRuns.Command)
    returns (ok: bool, data: seq<byte>, ghost x: Turn)
    requires i < |k.files| && i in open && Orderly(k, chains, open) && FileRuns.Enabled(k.files[i], c)
    modifies k.files[i], k.dir.vol, k.dir.vol.cache, k.dir.vol.cache.card, k.dir.vol.cache.buffer
    ensures TurnOf(x, k, chains, open, i, open) && x.name == open[i]
    ensures Turned(x, true) && x.left == []
    ensures UsedOutcome(k, i, c, ok, data)
    ensures k.dir.vol.cache.card.faults == old(k.dir.vol.cache.card.faults) ==> x.ending.Kept?
  {
    hide SdVolume.Valid, Layout.WellFormed, Layout.ExtentOk, Layout.BlockCount, Table, FreeTail, UniqueNames, TableMap;
    hide Name, Attributes, EntryAt, SlotBlock, FileChain, AsPlain, Frame, OneSlot, Keeps;
    hide SdFile.Linked, SdFile.Positioned, SdFile.EntryAgrees, IsLive, ChainOrEmpty;
    hide HandlesFit, ClosedFit, NoneTwice, IsFile, Next, NoStray, Exact;
    var f, dir := k.files[i], k.dir;
    ghost var name := open[i];
    OpenFiled(k, chains, open, i);
    ghost var e0 := f.DiskEntry();
    ok, data := DoFiled(f, dir, name, c);
    KeepsSame(e0, f.DiskEntry());
    x := Turn(k, i, name, f.chain, f.dirBlock, f.dirIndex, chains, open, open,
              if dir.vol.cache.card.faults == old(dir.vol.cache.card.faults) then Kept(dir.chain, f.chain)
              else Lost(dir.chain), []);
    if dir.vol.cache.card.faults == old(dir.vol.cache.card.faults) {
      FileRuns.LinkedChain(f);
      FileStray(x);
      Settle(x);
    } else {
      TurnNext(x);
    }
  }

  /** An entry that names the file's first cluster and size describes it. */
  lemma FitsWhenClosed(f: SdFile, dir: SdFile, name: seq<byte>)
    requires dir.vol.Valid() && Filed(f, dir, name) && f.EntryPlaced() && IsFile(f.DiskEntry())
    requires FileChain(dir.vol.lay, dir.vol.fat, f.firstCluster, f.chain)
      && FirstCluster(f.DiskEntry()) == f.firstCluster
    requires Size(f.DiskEntry()) == f.fileSize && f.WellPlaced(f.vol.disk, f.chain, 0, f.fileSize)
    ensures ClosedFits(dir, name, f.chain)
  {
    hide SdVolume.Valid, Layout.WellFormed, Layout.ExtentOk, Layout.BlockCount, DirHandle, Sound, FileChain, Capacity;
    hide Owned, FirstCluster, Size, SlotOf, SlotBlock, EntryAt;
    SlotEntry(dir.vol.lay, dir.vol.disk, dir.Place(), SlotCount(dir), SlotOf(Slots(dir), name));
  }

  /** Closing the open file `i`. */
  method CloseFile(k: Desk, ghost chains: map<Id, seq<nat>>, open: map<nat, seq<byte>>, i: nat)
    returns (ok: bool, open': map<nat, seq<byte>>, ghost x: Turn)
    requires i < |k.files| && i in open && Orderly(k, chains, open)
    modifies k.files[i], k.dir.vol, k.dir.vol.cache, k.dir.vol.cache.card, k.dir.vol.cache.buffer
    ensures TurnOf(x, k, chains, open, i, open') && x.name == open[i] && open' == open - {i}
    ensures Turned(x, true) && x.left == []
    ensures ClosedOutcome(k, i, open[i], ok) && (ok ==> x.ending.Kept? && x.after == k.files[i].chain)
    ensures k.dir.vol.cache.misused == old(k.dir.vol.cache.misused)
    ensures ok ==> k.dir.vol.Flushed()
    ensures ok <==> k.dir.vol.cache.card.faults == old(k.dir.vol.cache.card.faults)
  {
    hide SdVolume.Valid, Layout.WellFormed, Layout.ExtentOk, Layout.BlockCount, Table, FreeTail, UniqueNames, TableMap;
    hide Name, Attributes, EntryAt, SlotBlock, FileChain, Frame, OneSlot, Keeps, Content, Capacity, Owned, UsedBlock;
    hide SdFile.Positioned, SdFile.EntryAgrees, IsLive, ChainOrEmpty, FirstCluster, Size;
    hide HandlesFit, ClosedFit, NoneTwice, IsFile, Next, NoStray, Exact;
    var f, dir := k.files[i], k.dir;
    ghost var name := open[i];
    OpenFiled(k, chains, open, i);
    ghost var e0 := f.DiskEntry();
    FileRuns.LinkedChain(f);
    ok := CloseFiled(f, dir, name);
    KeepsSame(e0, f.DiskEntry());
    open' := open - {i};
    x := Turn(k, i, name, f.chain, f.dirBlock, f.dirIndex, chains, open, open',
              if ok then Kept(dir.chain, f.chain) else Lost(dir.chain), []);
    if ok {
      FitsWhenClosed(f, dir, name);
      NothingExact(dir.vol.fat, f.chain);
      FileStray(x);
      Settle(x);
    } else {
      TurnNext(x);
    }
  }

  /** A name that no handle of the pool is open on. */
  predicate NameFree(str: seq<byte>, illegal: set<byte>, open: map<nat, seq<byte>>) {
    0 !in str && IsName83(str, illegal) && Encode(str) !in open.Values
  }

  /** What the state says of such a name: if there is an entry that can be opened, it describes its file. */
  lemma ClosedNamed(k: Desk, chains: map<Id, seq<nat>>, open: map<nat, seq<byte>>, str: seq<byte>, illegal: set<byte>)
    requires Orderly(k, chains, open) && NameFree(str, illegal, open)
    ensures DirSound(k.dir) && Pool(k) && Directory in chains
    ensures var name := Encode(str); var chain := ChainOf(chains, Named(name));
      && NamedFits(k.dir, name, chain) && Disjoint(chain, k.dir.chain)
      && ChainOrEmpty(k.dir.vol.lay, k.dir.vol.fat, chain)
      && (name !in TableMap(Slots(k.dir)) ==> chain == [])
      && (forall j :: j in open ==> j < |k.files| && open[j] != name)
    ensures forall j {:trigger k.files[j]} :: 0 <= j < |k.files| && j !in open ==> k.files[j].kind == Closed
  {
    hide SdVolume.Valid, DirHandle, Sound, Encode, Base, Extension, NamedFits, OpenOn, ClosedFit, Listed, Healthy;
    hide Table;
    EncodedFirstByte(str, illegal);
    ClosedEntry(k.dir, chains, open, Encode(str));
    ClosedChain(k.dir, chains, Encode(str));
  }

  /** Its entry. */
  lemma ClosedEntry(dir: SdFile, chains: map<Id, seq<nat>>, open: map<nat, seq<byte>>, name: seq<byte>)
    requires HasSlots(dir) && Charted(dir, chains) && ClosedFit(dir, chains, open) && name !in open.Values
    requires name != [] && name[0] != DOT
    ensures NamedFits(dir, name, ChainOf(chains, Named(name)))
    ensures name !in TableMap(Slots(dir)) ==> ChainOf(chains, Named(name)) == []
  {
    hide EntryFits, SlotBlock, Healthy, Table, TableMap;
    Lookup(Slots(dir), name);
    NotDotListed(Slots(dir), name);
    assert Named(name) in chains ==> Listed(Slots(dir), name);
    assert Named(name) in chains ==> ClosedFits(dir, name, chains[Named(name)]);
  }

  /** Its chain. */
  lemma ClosedChain(dir: SdFile, chains: map<Id, seq<nat>>, name: seq<byte>)
    requires HasSlots(dir) && Charted(dir, chains)
    ensures Disjoint(ChainOf(chains, Named(name)), dir.chain)
    ensures ChainOrEmpty(dir.vol.lay, dir.vol.fat, ChainOf(chains, Named(name)))
  {
    hide Listed, Table;
  }

  lemma NotDotListed(t: seq<Entry>, name: seq<byte>)
    requires name != [] && name[0] != DOT
    ensures SlotOf(t, name) < |t| && IsFileOrSubDir(t[SlotOf(t, name)]) ==> Listed(t, name)
  {
  }

  /** Removing a file that is not open. */
  method RemoveFile(k: Desk, ghost chains: map<Id, seq<nat>>, open: map<nat, seq<byte>>, str: seq<byte>,
                    illegal: set<byte>)
    returns (ok: bool, ghost x: Turn, ghost moved: bool)
    requires Orderly(k, chains, open) && NameFree(str, illegal, open)
    modifies k.dir`curCluster, k.dir`curPosition, k.dir`firstCluster, k.dir`flags, k.dir`chain, k.dir`fileSize
    modifies k.dir.vol, k.dir.vol.cache, k.dir.vol.cache.card, k.dir.vol.cache.buffer
    ensures TurnOf(x, k, chains, open, |k.files|, open) && x.name == Encode(str)
    ensures Turned(x, moved)
    ensures k.dir.vol.cache.card.faults == old(k.dir.vol.cache.card.faults) ==>
      && (moved <==> ok) && (ok <==> !old(OpenRefused(k.dir, Encode(str), WRITE_ONLY)))
      && (ok ==> x.ending.Lost? && x.name !in TableMap(Slots(k.dir)))
      && (ok ==> x.left == if old(Leaks(k.dir, Encode(str))) then ChainOf(chains, Named(Encode(str))) else [])
    ensures k.dir.vol.cache.misused == old(k.dir.vol.cache.misused)
  {
    hide SdVolume.Valid, Layout.WellFormed, Layout.ExtentOk, Layout.BlockCount, Table, FreeTail, UniqueNames, TableMap;
    hide EntryAt, SlotBlock, FileChain, FramedAt, NameGone, Encode, Base, Extension, NamedFits, SlotOf;
    hide Orderly, Next, NoStray, OnlyGrown, SdFile.Linked, OnlyThat, TurnDone;
    var dir := k.dir;
    ClosedNamed(k, chains, open, str, illegal);
    ghost var name := Encode(str);
    ghost var chain := ChainOf(chains, Named(name));
    ghost var block, index := NamedBlock(dir, name), SlotOf(Slots(dir), name) % ENTRIES_PER_BLOCK;
    ok := RemoveNamed(dir, str, illegal, chain);
    moved := true;
    x := Turn(k, |k.files|, name, [], block, index, chains, open, open, Lost(dir.chain),
              if old(Leaks(dir, name)) then chain else []);
    if ok {
      RemovedDone(x);
      RemovedStray(x);
      Settle(x);
    } else if dir.vol.cache.card.faults == old(dir.vol.cache.card.faults) {
      moved := false;
      StaysInOrder(x);
    } else {
      TurnNext(x);
    }
  }

  twostate lemma RemovedDone(x: Turn)
    requires x.k.dir.vol.Valid() && x.i == |x.k.files| && x.open' == x.open
    requires NameGone(x.k.dir, x.name) && x.k.dir.flags == old(x.k.dir.flags)
    requires FramedAt(x.k.dir, ChainOf(x.chains, Named(x.name)), x.after, x.block, x.index)
    requires x.k.dir.kind == old(x.k.dir.kind) && x.ending == Lost(x.k.dir.chain)
    requires forall j {:trigger x.k.files[j]} :: 0 <= j < |x.k.files| && j != x.i ==> SameHandle(x.k.files[j])
    requires forall j :: j in x.open ==> j < |x.k.files| && x.open[j] != x.name
    requires old(Orderly(x.k, x.chains, x.open))
    ensures OnlyThat(x) && TurnDone(x) && x.name !in TableMap(Slots(x.k.dir))
  {
    hide SdVolume.Valid, DirHandle, Sound, OneSlot, SlotOf, TableMap, OnlySlot, Listed, Frame, Charted, HandlesFit;
    hide ClosedFit, SlotBlock, SameButEntry, Freed, Size;
    RemovedSlot(old(Slots(x.k.dir)), Slots(x.k.dir), x.name);
    NotIn(x.open, x.i);
  }

  /** The file has no bytes: `remove` does not free its clusters. */
  ghost predicate Leaks(dir: SdFile, name: seq<byte>)
    requires HasSlots(dir)
    reads dir, dir.vol
  {
    SlotOf(Slots(dir), name) < SlotCount(dir) && Size(Slots(dir)[SlotOf(Slots(dir), name)]) == 0
  }

  twostate lemma RemovedStray(x: Turn)
    requires NameRemoved(x.k.dir, x.name, ChainOf(x.chains, Named(x.name))) && x.ending.Lost? && x.after == []
    requires x.left == if old(Leaks(x.k.dir, x.name)) then ChainOf(x.chains, Named(x.name)) else []
    requires ChainOrEmpty(x.k.dir.vol.lay, old(x.k.dir.vol.fat), ChainOf(x.chains, Named(x.name)))
    requires Disjoint(ChainOf(x.chains, Named(x.name)), old(x.k.dir.chain))
    ensures NoStray(x)
  {
    hide DirHandle, Sound, OneSlot, SlotOf, TableMap, SlotBlock, SameButEntry, Size, IsChain;
    var own := ChainOf(x.chains, Named(x.name));
    DisjointMembers(own, x.k.dir.chain);
    forall c | c in x.left
      ensures c < |x.k.dir.vol.fat| && x.k.dir.vol.fat[c] != 0
    {
      ChainInUse(x.k.dir.vol.lay, old(x.k.dir.vol.fat), own, c);
    }
  }

  /** Removing an empty subdirectory. */
  method RemoveSubDir(k: Desk, ghost chains: map<Id, seq<nat>>, open: map<nat, seq<byte>>, str: seq<byte>,
                      illegal: set<byte>)
    returns (ok: bool, ghost x: Turn, ghost moved: bool)
    requires Orderly(k, chains, open) && NameFree(str, illegal, open)
    modifies k.dir`curCluster, k.dir`curPosition, k.dir`firstCluster, k.dir`flags, k.dir`chain, k.dir`fileSize
    modifies k.dir.vol, k.dir.vol.cache, k.dir.vol.cache.card, k.dir.vol.cache.buffer
    ensures TurnOf(x, k, chains, open, |k.files|, open) && x.name == Encode(str)
    ensures Turned(x, moved) && x.left == []
    ensures k.dir.vol.cache.card.faults == old(k.dir.vol.cache.card.faults) ==>
      && (moved <==> ok) && (ok <==> old(EmptySub(k.dir, Encode(str), ChainOf(chains, Named(Encode(str))))))
      && (ok ==> x.ending.Lost? && x.name !in TableMap(Slots(k.dir)))
    ensures k.dir.vol.cache.misused == old(k.dir.vol.cache.misused)
  {
    hide SdVolume.Valid, Layout.WellFormed, Layout.ExtentOk, Layout.BlockCount, Table, FreeTail, UniqueNames, TableMap;
    hide EntryAt, SlotBlock, FileChain, FramedAt, NameGone, Encode, Base, Extension, NamedFits, SlotOf, EmptySub;
    hide Orderly, Next, NoStray, OnlyGrown, SdFile.Linked, OnlyThat, TurnDone;
    var dir := k.dir;
    ClosedNamed(k, chains, open, str, illegal);
    ghost var name := Encode(str);
    ghost var chain := ChainOf(chains, Named(name));
    ghost var block, index := NamedBlock(dir, name), SlotOf(Slots(dir), name) % ENTRIES_PER_BLOCK;
    ok := RmDirNamed(dir, str, illegal, chain);
    moved := true;
    x := Turn(k, |k.files|, name, [], block, index, chains, open, open, Lost(dir.chain), []);
    if ok {
      RemovedDone(x);
      SubStray(x);
      Settle(x);
    } else if dir.vol.cache.card.faults == old(dir.vol.cache.card.faults) {
      moved := false;
      StaysInOrder(x);
    } else {
      TurnNext(x);
    }
  }

  twostate lemma SubStray(x: Turn)
    requires NameGone(x.k.dir, x.name) && x.ending.Lost? && x.after == [] && x.left == []
    requires x.k.dir.vol.fat == Freed(old(x.k.dir.vol.fat), ChainOf(x.chains, Named(x.name)))
    requires Disjoint(ChainOf(x.chains, Named(x.name)), old(x.k.dir.chain))
    ensures NoStray(x)
  {
    hide DirHandle, Sound, OneSlot, SlotOf, TableMap, SlotBlock, SameButEntry;
    DisjointMembers(ChainOf(x.chains, Named(x.name)), x.k.dir.chain);
  }

  lemma RemovedSlot(t: seq<Entry>, t': seq<Entry>, name: seq<byte>)
    requires Sound(t') && SlotOf(t, name) < |t| && OneSlot(t, t', SlotOf(t, name))
      && TableMap(t') == TableMap(t) - {name}
    ensures OnlySlot(t, t', name) && !Listed(t', name)
  {
    VacatedSlot(t, t', name);
    Lookup(t', name);
  }

  lemma NotIn(open: map<nat, seq<byte>>, i: nat)
    requires i !in open
    ensures open - {i} == open
  {
  }

  // ---------------------------------------------------------------- opening and creating

  /** Opening a name through handle `i` of the pool. */
  datatype Opening = Opening(x: Turn, mode: OpenMode)

  /** What holds after the handle of the pool was opened, whether the file is new or not. */
  twostate predicate Opened(o: Opening)
    reads o.x.k.dir, o.x.k.dir.vol, o.x.k.dir.vol.cache, o.x.k.dir.vol.cache.card, o.x.k.dir.vol.cache.buffer,
      o.x.k.files
  {
    && o.x.i < |o.x.k.files| && o.x.i !in o.x.open && o.x.k.dir.vol.Valid() && o.x.k.dir.kind == old(o.x.k.dir.kind)
    && Pool(o.x.k) && o.x.k.files[o.x.i].kind == Normal
    && o.x.name != [] && o.x.name[0] != DOT && o.x.after == o.x.k.files[o.x.i].chain
    && FramedAt(o.x.k.dir, ChainOf(o.x.chains, Named(o.x.name)), o.x.after, o.x.block, o.x.index)
    && (forall j {:trigger o.x.k.files[j]} :: 0 <= j < |o.x.k.files| && j != o.x.i ==> SameHandle(o.x.k.files[j]))
    && (forall j :: j in o.x.open ==> o.x.open[j] != o.x.name)
    && o.x.open' == o.x.open[o.x.i := o.x.name] && o.x.ending == Kept(o.x.k.dir.chain, o.x.after)
  }

  twostate lemma FoundDone(o: Opening)
    requires old(DirSound(o.x.k.dir)) && Opened(o)
    requires OpenedExisting(o.x.k.files[o.x.i], o.x.k.dir, o.x.name, o.mode, ChainOf(o.x.chains, Named(o.x.name)))
    requires OnlyNamed(o.x.k.dir, o.x.name)
    ensures OnlyThat(o.x) && TurnDone(o.x)
  {
    hide SdVolume.Valid, DirHandle, Sound, OneSlot, TableMap, Frame, Layout.WellFormed, Layout.ExtentOk;
    hide Layout.BlockCount, SlotBlock, SdFile.Ready, Name, Attributes, EntryAt, HasBit, FirstCluster, Size;
    hide ChainOrEmpty, IsLive, Table;
    var f, dir := o.x.k.files[o.x.i], o.x.k.dir;
    var k := SlotOf(Slots(dir), o.x.name);
    SlotEntry(dir.vol.lay, dir.vol.disk, dir.Place(), SlotCount(dir), k);
    FoundKeeps(Slots(dir)[k], old(Slots(dir))[k], o.x.name, o.mode);
    FileRuns.LinkedChain(f);
  }

  lemma FoundKeeps(e: Entry, e0: Entry, name: seq<byte>, mode: OpenMode)
    requires IsLive(e) && Name(e) == name && name != [] && name[0] != DOT && Attributes(e) == Attributes(e0)
    requires Openable(e0, mode)
    ensures Keeps(e) && IsFile(e) == IsFile(e0)
    ensures mode.trunc ==> IsFile(e)
  {
  }

  twostate lemma CreatedDone(o: Opening)
    requires old(DirSound(o.x.k.dir)) && Opened(o)
    requires OpenedNew(o.x.k.files[o.x.i], o.x.k.dir, o.x.name, o.mode)
    ensures OnlyThat(o.x) && TurnDone(o.x)
  {
    hide SdVolume.Valid, DirHandle, Sound, OneSlot, Frame, Layout.WellFormed, Layout.ExtentOk, Layout.BlockCount;
    hide SlotBlock, SdFile.Ready, Name, Attributes, EntryAt, FirstCluster, Size, ChainOrEmpty, IsLive, Table, TableMap;
    var f, dir := o.x.k.files[o.x.i], o.x.k.dir;
    var k := SlotOf(Slots(dir), o.x.name);
    Lookup(old(Slots(dir)), o.x.name);
    SlotEntry(dir.vol.lay, dir.vol.disk, dir.Place(), SlotCount(dir), k);
    NewKeeps(Slots(dir)[k], o.x.name);
    FileRuns.LinkedChain(f);
  }

  lemma NewKeeps(e: Entry, name: seq<byte>)
    requires IsLive(e) && Name(e) == name && name != [] && name[0] != DOT && Attributes(e) == 0
    ensures Keeps(e) && IsFile(e)
  {
  }

  twostate lemma FoundStray(o: Opening)
    requires Opened(o) && OnlyNamed(o.x.k.dir, o.x.name) && o.x.left == []
    requires OpenedExisting(o.x.k.files[o.x.i], o.x.k.dir, o.x.name, o.mode, ChainOf(o.x.chains, Named(o.x.name)))
    ensures NoStray(o.x)
  {
    hide SdVolume.Valid, DirHandle, Sound, OneSlot, TableMap, FramedAt, SlotBlock, SdFile.Ready, Size, SlotOf, EntryAt;
    FileStray(o.x);
  }

  twostate lemma CreatedStray(o: Opening)
    requires Opened(o) && OpenedNew(o.x.k.files[o.x.i], o.x.k.dir, o.x.name, o.mode) && o.x.left == []
    requires ChainOf(o.x.chains, Named(o.x.name)) == []
    ensures NoStray(o.x)
  {
    hide SdVolume.Valid, DirHandle, Sound, OneSlot, TableMap, FramedAt, SdFile.Ready, Size, SlotOf, EntryAt;
    hide SameButEntry, FirstEmpty;
    GrownStray(o.x);
  }

  twostate lemma OpeningDone(o: Opening)
    requires old(DirSound(o.x.k.dir)) && Opened(o) && o.x.left == []
    requires if old(o.x.name in TableMap(Slots(o.x.k.dir))) then
        && OpenedExisting(o.x.k.files[o.x.i], o.x.k.dir, o.x.name, o.mode, ChainOf(o.x.chains, Named(o.x.name)))
        && OnlyNamed(o.x.k.dir, o.x.name)
      else
        && OpenedNew(o.x.k.files[o.x.i], o.x.k.dir, o.x.name, o.mode)
        && ChainOf(o.x.chains, Named(o.x.name)) == []
    ensures OnlyThat(o.x) && TurnDone(o.x) && NoStray(o.x)
  {
    hide SdVolume.Valid, DirHandle, Sound, TableMap, Opened, OpenedExisting, OpenedNew, OnlyNamed, OnlyThat, TurnDone;
    hide NoStray;
    if old(o.x.name in TableMap(Slots(o.x.k.dir))) {
      FoundDone(o);
      FoundStray(o);
    } else {
      CreatedDone(o);
      CreatedStray(o);
    }
  }

  /** Room for one more cluster in the 32-bit size of the directory. */
  predicate Room(dir: SdFile)
    reads dir
  {
    dir.fileSize + dir.vol.lay.ClusterBytes() < SIZE_LIMIT
  }

  /** The name is that of something else than a file. */
  ghost predicate IsNoFile(dir: SdFile, name: seq<byte>)
    requires HasSlots(dir)
    reads dir, dir.vol
  {
    name in TableMap(Slots(dir)) && !IsFile(TableMap(Slots(dir))[name])
  }

  lemma OpenedKind(e: Entry, mode: OpenMode)
    requires Openable(e, mode) && mode.trunc
    ensures IsFile(e)
  {
  }

  /** `open` by name of a normal file: a subdirectory is closed again. */
  method OpenNormal(f: SdFile, dir: SdFile, str: seq<byte>, illegal: set<byte>, mode: OpenMode, ghost chain: seq<nat>)
    returns (ok: bool)
    requires f != dir && f.vol == dir.vol && f.kind == Closed && 0 !in str && IsName83(str, illegal) && Consistent(mode)
    requires DirSound(dir) && (mode.creat ==> Room(dir)) && NamedFits(dir, Encode(str), chain)
      && Disjoint(chain, dir.chain)
    modifies f, dir`curCluster, dir`curPosition, dir`firstCluster, dir`flags, dir`chain, dir`fileSize
    modifies dir.vol, dir.vol.cache, dir.vol.cache.card, dir.vol.cache.buffer
    ensures dir.vol.Valid() && Framed(f, dir, chain, if ok then f.chain else [])
    ensures dir.vol.cache.misused == old(dir.vol.cache.misused)
    ensures ok ==> f.kind == Normal && dir.vol.cache.card.faults == old(dir.vol.cache.card.faults)
    ensures ok && Encode(str) in old(TableMap(Slots(dir))) ==>
      OpenedExisting(f, dir, Encode(str), mode, chain) && OnlyNamed(dir, Encode(str))
    ensures ok && Encode(str) !in old(TableMap(Slots(dir))) ==> OpenedNew(f, dir, Encode(str), mode)
    ensures !ok && dir.vol.cache.card.faults == old(dir.vol.cache.card.faults) ==>
      && dir.vol.disk == old(dir.vol.disk) && dir.vol.fat == old(dir.vol.fat) && SameDir(dir) && f.kind == Closed
      && (old(OpenRefused(dir, Encode(str), mode)) || old(IsNoFile(dir, Encode(str))))
    ensures ok ==> !old(OpenRefused(dir, Encode(str), mode)) && !old(IsNoFile(dir, Encode(str)))
  {
    hide SdVolume.Valid, Layout.WellFormed, Layout.ExtentOk, Layout.BlockCount, Table, FreeTail, UniqueNames, TableMap;
    hide EntryAt, SlotBlock, FileChain, Frame, Encode, Base, Extension, NamedFits, SlotOf, OpenRefused, DirHandle;
    hide SdFile.Linked, Created, Openable, Attributes, SdFile.Positioned, OneSlot, SdFile.Ready, Name;
    ghost var fat, d, s := dir.vol.fat, dir.vol.disk, dir.chain;
    ghost var t := Slots(dir);
    Lookup(t, Encode(str));
    ok := Open(f, dir, str, illegal, mode, chain);
    if ok && Encode(str) in TableMap(t) {
      if mode.trunc {
        OpenedKind(TableMap(t)[Encode(str)], mode);
      }
    }
    if ok && f.kind != Normal {
      FrameDrop(dir.vol.lay, fat, dir.vol.fat, d, dir.vol.disk, s, dir.chain, chain, f.chain, dir.Place(),
                f.dirBlock, f.dirIndex);
      ok := f.Close();
      ok := false;
    }
  }

  /** When opening succeeds, and what the handle has of the file then. */
  twostate predicate OpenOutcome(x: Turn, new mode: OpenMode, new ok: bool, new moved: bool)
    reads x.k.dir, x.k.dir.vol, x.k.dir.vol.cache, x.k.dir.vol.cache.card, x.k.files, set f | f in x.k.files :: f.vol
  {
    && old(HasSlots(x.k.dir)) && x.i < |x.k.files|
    && (moved <==> ok) && (ok ==> x.ending.Kept? && x.k.files[x.i].kind == Normal)
    && (ok <==> !old(OpenRefused(x.k.dir, x.name, mode)) && !old(IsNoFile(x.k.dir, x.name)))
    && (ok ==>
          if x.name in old(TableMap(Slots(x.k.dir)))
          then OpenedExisting(x.k.files[x.i], x.k.dir, x.name, mode, ChainOf(x.chains, Named(x.name)))
          else OpenedNew(x.k.files[x.i], x.k.dir, x.name, mode))
  }

  /** Opening a file by name through the closed handle `i`, creating it if asked to. A subdirectory is closed again. */
  method OpenFile(k: Desk, ghost chains: map<Id, seq<nat>>, open: map<nat, seq<byte>>, i: nat,
                  str: seq<byte>, illegal: set<byte>, mode: OpenMode)
    returns (ok: bool, open': map<nat, seq<byte>>, ghost x: Turn, ghost moved: bool)
    requires i < |k.files| && i !in open && Orderly(k, chains, open) && NameFree(str, illegal, open)
    requires Consistent(mode) && (mode.creat ==> Room(k.dir))
    modifies k.files[i]
    modifies k.dir`curCluster, k.dir`curPosition, k.dir`firstCluster, k.dir`flags, k.dir`chain, k.dir`fileSize
    modifies k.dir.vol, k.dir.vol.cache, k.dir.vol.cache.card, k.dir.vol.cache.buffer
    ensures TurnOf(x, k, chains, open, i, open') && x.name == Encode(str)
    ensures Turned(x, moved) && x.left == []
    ensures k.dir.vol.cache.card.faults == old(k.dir.vol.cache.card.faults) ==> OpenOutcome(x, mode, ok, moved)
    ensures k.dir.vol.cache.misused == old(k.dir.vol.cache.misused)
    ensures open' == if ok then open[i := Encode(str)] else open
  {
    hide SdVolume.Valid, Layout.WellFormed, Layout.ExtentOk, Layout.BlockCount, Table, FreeTail, UniqueNames, TableMap;
    hide EntryAt, SlotBlock, FileChain, FramedAt, Encode, Base, Extension, NamedFits, SlotOf, OpenRefused;
    hide Orderly, Next, NoStray, OnlyGrown, SdFile.Linked, OnlyThat, TurnDone, OpenedExisting, OpenedNew, OnlyNamed;
    hide DirHandle;
    var f, dir := k.files[i], k.dir;
    ClosedNamed(k, chains, open, str, illegal);
    EncodedFirstByte(str, illegal);
    ghost var name := Encode(str);
    ghost var chain := ChainOf(chains, Named(name));
    ok := OpenNormal(f, dir, str, illegal, mode, chain);
    open' := if ok then open[i := Encode(str)] else open;
    moved := true;
    x := Turn(k, i, name, if ok then f.chain else [], f.dirBlock, f.dirIndex, chains, open, open',
              if ok then Kept(dir.chain, f.chain) else Lost(dir.chain), []);
    if ok {
      OpeningDone(Opening(x, mode));
      Settle(x);
    } else if dir.vol.cache.card.faults == old(dir.vol.cache.card.faults) {
      moved := false;
      StaysInOrder(x);
    } else {
      TurnNext(x);
    }
  }

  // ---------------------------------------------------------------- making directories

  /** The directory has gained an entry for a closed file or directory with the clusters of `f`. */
  twostate predicate EntryGained(f: SdFile, dir: SdFile, new name: seq<byte>)
    reads f, dir, dir.vol, dir.vol.cache, dir.vol.cache.card, dir.vol.cache.buffer
  {
    && old(HasSlots(dir)) && name !in old(TableMap(Slots(dir))) && DirSound(dir)
    && OnlySlot(old(Slots(dir)), Slots(dir), name) && Listed(Slots(dir), name)
    && ChainOrEmpty(dir.vol.lay, dir.vol.fat, f.chain) && ClosedFits(dir, name, f.chain)
  }

  /** The entry of a new directory, or of the empty file that is left on a full disk, describes it. */
  lemma NewDirFits(f: SdFile, dir: SdFile, name: seq<byte>, parent: nat)
    requires Filed(f, dir, name) && f.EntryOnDisk() && dir.vol.Valid()
    requires IsNewDir(f, parent) || (f.chain == [] && IsEmptyFile(f.DiskEntry()))
    requires name != [] && name[0] != DOT
    ensures ChainOrEmpty(dir.vol.lay, dir.vol.fat, f.chain) && ClosedFits(dir, name, f.chain)
      && Listed(Slots(dir), name)
  {
    hide SdVolume.Valid, Layout.WellFormed, Layout.ExtentOk, Sound, SlotOf, SlotBlock, EntryAt, NewTable, Capacity;
    hide Name, Size, FirstCluster, Layout.InFat, HasSlots;
    SlotOfFile(f, dir, name);
    ChainBytesOfBlocks(dir.vol.lay, |f.chain|);
    NewDirKeeps(f.DiskEntry(), name);
  }

  lemma NewDirKeeps(e: Entry, name: seq<byte>)
    requires IsLive(e) && Name(e) == name && name != [] && name[0] != DOT
    requires Attributes(e) == ATT_DIRECTORY || IsFile(e)
    ensures Keeps(e) && (Attributes(e) == ATT_DIRECTORY ==> !IsFile(e))
  {
  }

  /** The entry that makeDir leaves: of a directory, or of an empty file. */
  ghost predicate MadeEntry(f: SdFile, e: Entry, ok: bool)
    reads f
  {
    if ok then Attributes(e) == ATT_DIRECTORY else IsEmptyFile(e) && f.chain == []
  }

  /** makeDir, with the handle closed again. `made` says whether an entry was left, as on success or a full disk. */
  method MakeAndClose(f: SdFile, dir: SdFile, str: seq<byte>, illegal: set<byte>) returns (ok: bool, ghost made: bool)
    requires f != dir && f.vol == dir.vol && f.kind == Closed && 0 !in str && IsName83(str, illegal)
    requires DirSound(dir) && Room(dir)
    modifies f, dir`curCluster, dir`curPosition, dir`firstCluster, dir`flags, dir`chain, dir`fileSize
    modifies dir.vol, dir.vol.cache, dir.vol.cache.card, dir.vol.cache.buffer
    ensures dir.vol.Valid() && Framed(f, dir, [], if made then f.chain else [])
    ensures dir.vol.cache.misused == old(dir.vol.cache.misused)
    ensures ok ==> made
    ensures made ==>
      && f.kind == Closed && dir.vol.cache.card.faults == old(dir.vol.cache.card.faults)
      && Encode(str) !in old(TableMap(Slots(dir))) && EntryGained(f, dir, Encode(str))
      && (ok <==> old(RoomForDir(dir))) && HasSlots(dir) && SlotOf(Slots(dir), Encode(str)) < SlotCount(dir)
      && MadeEntry(f, Slots(dir)[SlotOf(Slots(dir), Encode(str))], ok) && OnlyGrown(dir, f.chain)
    ensures dir.vol.cache.card.faults == old(dir.vol.cache.card.faults) ==>
      (made <==> !old(OpenRefused(dir, Encode(str), NEW_FILE)))
    ensures !made && dir.vol.cache.card.faults == old(dir.vol.cache.card.faults) ==>
      dir.vol.disk == old(dir.vol.disk) && dir.vol.fat == old(dir.vol.fat) && SameDir(dir) && f.kind == Closed
  {
    hide SdVolume.Valid, Layout.WellFormed, Layout.ExtentOk, Layout.BlockCount, Table, FreeTail, UniqueNames;
    hide TableMap, EntryAt, SlotBlock, FileChain, Frame, Encode, Base, Extension, SlotOf, DirHandle, FirstEmpty;
    hide Listed, EntryFits, SdFile.Linked, Attributes, SdFile.Positioned, OneSlot, Name, Size, FirstCluster, Capacity;
    hide IsFile, NewTable, Full, OnlyGrown, RoomForDir, ClosedFits, DotEntries, DirectoryEntry;
    ghost var fat, d, s, t := dir.vol.fat, dir.vol.disk, dir.chain, Slots(dir);
    var faults := dir.vol.cache.card.faults;
    EncodedFirstByte(str, illegal);
    ok := MakeDir(f, dir, str, illegal);
    made := ok || Started(f, dir, str, illegal);
    if dir.vol.cache.card.faults != faults {
      return false, false;
    }
    if ok {
      FrameDrop(dir.vol.lay, fat, dir.vol.fat, d, dir.vol.disk, s, dir.chain, [], f.chain, dir.Place(), f.dirBlock,
                f.dirIndex);
    }
    if made {
      NewDirFits(f, dir, Encode(str), ParentCluster(dir));
      GainedSlot(t, Slots(dir), Encode(str));
    }
    if f.kind != Closed {
      var closed := f.Close();
      if !closed {
        return false, false;
      }
    }
  }

  /** A new name in the first empty slot. */
  lemma GainedSlot(t: seq<Entry>, t': seq<Entry>, name: seq<byte>)
    requires name !in TableMap(t) && OneSlot(t, t', FirstEmpty(t)) && SlotOf(t', name) == FirstEmpty(t) < |t'|
    ensures OnlySlot(t, t', name)
  {
    Lookup(t, name);
  }

  /** A name that no entry has; operations that fail before they reach an entry are about it. */
  const NO_NAME: seq<byte> := []

  lemma NothingNameless(k: Desk, chains: map<Id, seq<nat>>, open: map<nat, seq<byte>>)
    requires Orderly(k, chains, open)
    ensures ChainOf(chains, Named(NO_NAME)) == [] && Directory in chains
  {
    hide SdVolume.Valid, DirHandle, Sound;
    assert Named(NO_NAME) in chains ==> Listed(Slots(k.dir), NO_NAME);
    NamesHaveLength(Slots(k.dir));
  }

  lemma NamesHaveLength(t: seq<Entry>)
    ensures SlotOf(t, NO_NAME) == |t|
  {
    forall i: nat | i < |t|
      ensures !Holds(t, i, NO_NAME)
    {
      assert |Name(t[i])| == 11;
    }
  }

  twostate lemma GainedDone(x: Turn)
    requires x.k.dir.vol.Valid() && x.i < |x.k.files| && x.i !in x.open
    requires EntryGained(x.k.files[x.i], x.k.dir, x.name) && x.k.files[x.i].kind == Closed
    requires x.after == x.k.files[x.i].chain && x.open' == x.open && x.k.dir.kind == old(x.k.dir.kind)
    requires FramedAt(x.k.dir, ChainOf(x.chains, Named(x.name)), x.after, x.block, x.index)
    requires x.ending == Kept(x.k.dir.chain, x.after)
    requires forall j {:trigger x.k.files[j]} :: 0 <= j < |x.k.files| && j != x.i ==> SameHandle(x.k.files[j])
    requires forall j :: j in x.open ==> x.open[j] != x.name
    requires old(Orderly(x.k, x.chains, x.open))
    ensures OnlyThat(x) && TurnDone(x)
  {
    hide SdVolume.Valid, DirHandle, Sound, SlotOf, TableMap, OnlySlot, Listed, Frame, Charted, HandlesFit, ClosedFit;
    hide ClosedFits, ChainOrEmpty;
    NotIn(x.open, x.i);
  }

  /** When an entry is made and when a directory, and what the entry is then. */
  twostate predicate MakeOutcome(x: Turn, new name: seq<byte>, new ok: bool, new moved: bool)
    reads x.k.dir, x.k.dir.vol, x.k.files
  {
    && old(HasSlots(x.k.dir)) && x.i < |x.k.files|
    && (moved <==> !old(OpenRefused(x.k.dir, name, NEW_FILE))) && (ok <==> moved && old(RoomForDir(x.k.dir)))
    && (moved ==>
          && x.name == name && name !in old(TableMap(Slots(x.k.dir))) && x.ending.Kept?
          && x.after == x.k.files[x.i].chain && HasSlots(x.k.dir)
          && SlotOf(Slots(x.k.dir), name) < SlotCount(x.k.dir)
          && MadeEntry(x.k.files[x.i], Slots(x.k.dir)[SlotOf(Slots(x.k.dir), name)], ok))
  }

  /** makeDir through the closed handle `i`. */
  method MakeSubDir(k: Desk, ghost chains: map<Id, seq<nat>>, open: map<nat, seq<byte>>, i: nat,
                    str: seq<byte>, illegal: set<byte>)
    returns (ok: bool, ghost x: Turn, ghost moved: bool)
    requires i < |k.files| && i !in open && Orderly(k, chains, open) && NameFree(str, illegal, open) && Room(k.dir)
    modifies k.files[i]
    modifies k.dir`curCluster, k.dir`curPosition, k.dir`firstCluster, k.dir`flags, k.dir`chain, k.dir`fileSize
    modifies k.dir.vol, k.dir.vol.cache, k.dir.vol.cache.card, k.dir.vol.cache.buffer
    ensures TurnOf(x, k, chains, open, i, open)
    ensures Turned(x, moved) && x.left == []
    ensures x.name == Encode(str) || x.name == NO_NAME
    ensures k.dir.vol.cache.card.faults == old(k.dir.vol.cache.card.faults) ==> MakeOutcome(x, Encode(str), ok, moved)
    ensures k.dir.vol.cache.misused == old(k.dir.vol.cache.misused)
  {
    hide SdVolume.Valid, Layout.WellFormed, Layout.ExtentOk, Layout.BlockCount, Table, FreeTail, UniqueNames, TableMap;
    hide EntryAt, SlotBlock, FileChain, FramedAt, Encode, Base, Extension, NamedFits, SlotOf, EntryGained;
    hide Orderly, Next, NoStray, OnlyGrown, SdFile.Linked, OnlyThat, TurnDone, DirHandle;
    var f, dir := k.files[i], k.dir;
    ClosedNamed(k, chains, open, str, illegal);
    NothingNameless(k, chains, open);
    ghost var made;
    ok, made := MakeAndClose(f, dir, str, illegal);
    moved := true;
    x := Turn(k, i, if made then Encode(str) else NO_NAME, if made then f.chain else [], f.dirBlock,
              f.dirIndex, chains, open, open, if made then Kept(dir.chain, f.chain) else Lost(dir.chain),
              []);
    if made {
      GainedDone(x);
      GrownStray(x);
      Settle(x);
    } else if dir.vol.cache.card.faults == old(dir.vol.cache.card.faults) {
      moved := false;
      StaysInOrder(x);
    } else {
      TurnNext(x);
    }
  }

  // ---------------------------------------------------------------- contiguous files

  /** How createContiguous may end: with the file open, without its entry, or having changed nothing. */
  datatype Built = Filled | TakenBack | Untried

  /** The directory has gained an entry that `f` is open on. */
  twostate predicate EntryOpened(f: SdFile, dir: SdFile, new name: seq<byte>)
    reads f, dir, dir.vol, dir.vol.cache, dir.vol.cache.card, dir.vol.cache.buffer
  {
    && old(HasSlots(dir)) && DirSound(dir) && OnlySlot(old(Slots(dir)), Slots(dir), name)
    && Listed(Slots(dir), name) && OpenOn(f, dir, name, f.chain)
  }

  /** The entry that was created was marked as deleted. */
  twostate predicate EntryTakenBack(dir: SdFile, new name: seq<byte>)
    reads dir, dir.vol, dir.vol.cache, dir.vol.cache.card, dir.vol.cache.buffer
  {
    && old(HasSlots(dir)) && DirSound(dir) && OnlySlot(old(Slots(dir)), Slots(dir), name) && !Listed(Slots(dir), name)
  }

  /** An open new file of this size, at its start. */
  ghost predicate NewRun(f: SdFile, size: nat)
    reads f, f.vol
  {
    && f.EntryOnDisk() && Attributes(f.DiskEntry()) == 0 && f.fileSize == size && f.curPosition == 0
    && OpenedFlags(f, NEW_FILE)
  }

  method CreateRun(f: SdFile, dir: SdFile, str: seq<byte>, illegal: set<byte>, size: nat)
    returns (ok: bool, ghost end: Built)
    requires f != dir && f.vol == dir.vol && f.kind == Closed && 0 !in str && IsName83(str, illegal)
      && size < SIZE_LIMIT
    requires DirSound(dir) && Room(dir)
    modifies f, dir`curCluster, dir`curPosition, dir`firstCluster, dir`flags, dir`chain, dir`fileSize
    modifies dir.vol, dir.vol.cache, dir.vol.cache.card, dir.vol.cache.buffer
    ensures dir.vol.Valid() && Framed(f, dir, [], if ok then f.chain else [])
    ensures dir.vol.cache.misused == old(dir.vol.cache.misused)
    ensures ok ==> dir.vol.cache.card.faults == old(dir.vol.cache.card.faults)
    ensures dir.vol.cache.card.faults == old(dir.vol.cache.card.faults) ==>
      && (ok <==> end == Filled)
      && (ok ==> EntryOpened(f, dir, Encode(str)) && NewRun(f, size) && OnlyGrown(dir, f.chain))
      && (end == Untried <==> size == 0 || old(OpenRefused(dir, Encode(str), NEW_FILE)))
      && (end == Filled <==> end != Untried && old(RoomForRun(dir, ClustersFor(dir.vol.lay, size))))
      && (end != Untried ==> Encode(str) !in old(TableMap(Slots(dir))))
      && (end == TakenBack ==>
            && f.kind == Closed && EntryTakenBack(dir, Encode(str)) && HasSlots(dir)
            && Encode(str) !in TableMap(Slots(dir)) && OnlyGrown(dir, []))
      && (end == Untried ==>
            && dir.vol.disk == old(dir.vol.disk) && dir.vol.fat == old(dir.vol.fat)
            && SameDir(dir) && f.kind == Closed)
  {
    hide SdVolume.Valid, Layout.WellFormed, Layout.ExtentOk, Layout.BlockCount, Table, FreeTail, UniqueNames;
    hide TableMap, EntryAt, SlotBlock, FileChain, Frame, Encode, Base, Extension, SlotOf, DirHandle, FirstEmpty;
    hide Keeps, OnlySlot, SdFile.Linked, Attributes, SdFile.Positioned, OneSlot, Name, Size, FirstCluster, Capacity;
    hide IsFile, Full, Allocation.NoRun, Allocation.Run, SdFile.Ready, IsLive;
    ghost var t, name := Slots(dir), Encode(str);
    EncodedFirstByte(str, illegal);
    end := if size == 0 || OpenRefused(dir, name, NEW_FILE) then Untried else TakenBack;
    ok := CreateContiguous(f, dir, str, illegal, size);
    if ok {
      end := Filled;
      GainedSlot(t, Slots(dir), name);
      SlotOfFile(f, dir, name);
      NewKeeps(Slots(dir)[SlotOf(Slots(dir), name)], name);
    } else if end == TakenBack && dir.vol.cache.card.faults == old(dir.vol.cache.card.faults) {
      LostSlot(t, Slots(dir), name);
    }
  }

  lemma LostSlot(t: seq<Entry>, t': seq<Entry>, name: seq<byte>)
    requires name !in TableMap(t) && OneSlot(t, t', FirstEmpty(t)) && TableMap(t') == TableMap(t) && Sound(t')
    ensures OnlySlot(t, t', name) && !Listed(t', name)
  {
    Lookup(t, name);
    Lookup(t', name);
    VacatedSlot(t, t', name);
  }

  twostate lemma CreatedOpen(x: Turn)
    requires x.k.dir.vol.Valid() && x.i < |x.k.files| && x.i !in x.open
    requires EntryOpened(x.k.files[x.i], x.k.dir, x.name) && x.k.dir.kind == old(x.k.dir.kind)
    requires x.after == x.k.files[x.i].chain && x.open' == x.open[x.i := x.name]
    requires FramedAt(x.k.dir, ChainOf(x.chains, Named(x.name)), x.after, x.block, x.index)
    requires x.ending == Kept(x.k.dir.chain, x.after)
    requires forall j {:trigger x.k.files[j]} :: 0 <= j < |x.k.files| && j != x.i ==> SameHandle(x.k.files[j])
    requires forall j :: j in x.open ==> x.open[j] != x.name
    requires old(Orderly(x.k, x.chains, x.open))
    ensures OnlyThat(x) && TurnDone(x)
  {
    hide SdVolume.Valid, DirHandle, Sound, SlotOf, TableMap, OnlySlot, Listed, Frame, Charted, HandlesFit, ClosedFit;
    hide SdFile.Ready, InSlot, IsFile, ChainOrEmpty;
    FileRuns.LinkedChain(x.k.files[x.i]);
  }

  twostate lemma TakenBackDone(x: Turn)
    requires x.k.dir.vol.Valid() && x.i < |x.k.files| && x.i !in x.open
    requires EntryTakenBack(x.k.dir, x.name) && x.k.dir.kind == old(x.k.dir.kind)
    requires x.k.files[x.i].kind == Closed && x.open' == x.open && x.ending == Lost(x.k.dir.chain)
    requires FramedAt(x.k.dir, ChainOf(x.chains, Named(x.name)), x.after, x.block, x.index)
    requires forall j {:trigger x.k.files[j]} :: 0 <= j < |x.k.files| && j != x.i ==> SameHandle(x.k.files[j])
    requires forall j :: j in x.open ==> x.open[j] != x.name
    requires old(Orderly(x.k, x.chains, x.open))
    ensures OnlyThat(x) && TurnDone(x)
  {
    hide SdVolume.Valid, DirHandle, Sound, SlotOf, TableMap, OnlySlot, Listed, Frame, Charted, HandlesFit, ClosedFit;
    NotIn(x.open, x.i);
  }

  /** When an entry is made and when it stays, and what the handle has of the file then. */
  twostate predicate CreateOutcome(x: Turn, new name: seq<byte>, new size: nat, new ok: bool, new moved: bool)
    reads x.k.dir, x.k.dir.vol, x.k.files, set f | f in x.k.files :: f.vol
  {
    && old(HasSlots(x.k.dir)) && x.i < |x.k.files|
    && (moved <==> size > 0 && !old(OpenRefused(x.k.dir, name, NEW_FILE)))
    && (ok <==> moved && old(RoomForRun(x.k.dir, ClustersFor(x.k.dir.vol.lay, size))))
    && (moved ==> x.name == name && name !in old(TableMap(Slots(x.k.dir))))
    && (ok ==> x.ending.Kept? && NewRun(x.k.files[x.i], size))
    && (moved && !ok ==> x.ending.Lost? && HasSlots(x.k.dir) && name !in TableMap(Slots(x.k.dir)))
  }

  /** createContiguous through the closed handle `i`. */
  method CreateContiguousFile(k: Desk, ghost chains: map<Id, seq<nat>>, open: map<nat, seq<byte>>, i: nat,
                              str: seq<byte>, illegal: set<byte>, size: nat)
    returns (ok: bool, open': map<nat, seq<byte>>, ghost x: Turn, ghost moved: bool)
    requires i < |k.files| && i !in open && Orderly(k, chains, open) && NameFree(str, illegal, open)
    requires Room(k.dir) && size < SIZE_LIMIT
    modifies k.files[i]
    modifies k.dir`curCluster, k.dir`curPosition, k.dir`firstCluster, k.dir`flags, k.dir`chain, k.dir`fileSize
    modifies k.dir.vol, k.dir.vol.cache, k.dir.vol.cache.card, k.dir.vol.cache.buffer
    ensures TurnOf(x, k, chains, open, i, open')
    ensures Turned(x, moved) && x.left == []
    ensures x.name == Encode(str) || x.name == NO_NAME
    ensures k.dir.vol.cache.card.faults == old(k.dir.vol.cache.card.faults) ==>
      CreateOutcome(x, Encode(str), size, ok, moved)
    ensures k.dir.vol.cache.misused == old(k.dir.vol.cache.misused)
    ensures open' == if ok then open[i := Encode(str)] else open
  {
    hide SdVolume.Valid, Layout.WellFormed, Layout.ExtentOk, Layout.BlockCount, Table, FreeTail, UniqueNames;
    hide TableMap, EntryAt, SlotBlock, FileChain, FramedAt, Encode, Base, Extension, NamedFits, SlotOf, EntryOpened;
    hide EntryTakenBack, Orderly, Next, NoStray, OnlyGrown, SdFile.Linked, OnlyThat, TurnDone, DirHandle;
    var f, dir := k.files[i], k.dir;
    ClosedNamed(k, chains, open, str, illegal);
    NothingNameless(k, chains, open);
    ghost var end;
    ok, end := CreateRun(f, dir, str, illegal, size);
    open' := if ok then open[i := Encode(str)] else open;
    ghost var sound := dir.vol.cache.card.faults == old(dir.vol.cache.card.faults);
    moved := true;
    x := Turn(k, i, if sound && end != Untried then Encode(str) else NO_NAME, if ok then f.chain else [],
              f.dirBlock, f.dirIndex, chains, open, open',
              if ok then Kept(dir.chain, f.chain) else Lost(dir.chain), []);
    if ok {
      CreatedOpen(x);
      GrownStray(x);
      Settle(x);
    } else if sound && end == TakenBack {
      TakenBackDone(x);
      GrownStray(x);
      Settle(x);
    } else if sound {
      moved := false;
      StaysInOrder(x);
    } else {
      TurnNext(x);
    }
  }
}
