/** Each request to a directory, against the plain directory that it stands for. */
module DirMoves {
  import opened Bytes
  import opened VolumeLayout
  import opened FileData
  import opened DirEntry
  import opened DirTable
  import opened DirOnDisk
  import opened Names
  import opened Volume
  import opened File
  import opened Directories
  import opened Removal
  import opened MakingDir
  import opened Contiguous
  import opened FatRuns
  import opened DirState
  import opened DirTurns
  import opened PlainDirs
  import opened DirShown
  import Allocation
  import FileRuns

  /** The state between two requests. */
  ghost predicate InOrder(k: Desk, chains: map<Id, seq<nat>>, open: map<nat, seq<byte>>, p: PlainDir)
    reads k.dir, k.dir.vol, k.dir.vol.cache, k.dir.vol.cache.card, k.dir.vol.cache.buffer, k.files
  {
    Orderly(k, chains, open) && StandsFor(k, chains, open, p)
  }

  /** A request and its reply, with the chains, the open files and the plain directory before and after. */
  datatype Move = Move(chains: map<Id, seq<nat>>, open: map<nat, seq<byte>>, p: PlainDir,
                       chains': map<Id, seq<nat>>, open': map<nat, seq<byte>>, p': PlainDir,
                       e: Change, r: Request, ok: bool, data: seq<byte>, illegal: set<byte>)

  /**
   * What every request keeps to: it is one step about its name, and unless the card fails all is in
   * order again, the directory has answered as the plain directory does, and no cluster has got lost
   * but those of `LeakOf`.
   */
  twostate predicate Moved(k: Desk, new m: Move)
    reads k.dir, k.dir.vol, k.dir.vol.cache, k.dir.vol.cache.card, k.dir.vol.cache.buffer, k.files
  {
    var lay, root16 := k.dir.vol.lay, k.dir.kind == Root16Dir;
    && k.dir.vol.Valid() && m.chains' == After(m.chains, m.e) && k.dir.kind == old(k.dir.kind)
    && Next(lay, old(WorldNow(k.dir, m.chains)), WorldNow(k.dir, m.chains'), m.e)
    && (AboutName(m.e, NameOf(m.p, m.r, m.illegal)) || AboutName(m.e, NO_NAME))
    && (k.dir.vol.cache.card.faults == old(k.dir.vol.cache.card.faults) ==>
          && InOrder(k, m.chains', m.open', m.p')
          && Answered(lay, root16, old(WorldNow(k.dir, m.chains)), m.p, m.p', m.r, m.ok, m.data, m.illegal)
          && Tight(old(WorldNow(k.dir, m.chains)), WorldNow(k.dir, m.chains'), m.e,
                   LeakOf(old(WorldNow(k.dir, m.chains)), m.p, m.r, m.ok, m.illegal))
          && NewIsBare(m.chains', m.p, m.r, m.ok, m.illegal))
    && (k.dir.vol.cache.misused ==>
          old(k.dir.vol.cache.misused) || FatalRequest(lay, old(WorldNow(k.dir, m.chains)), m.p, m.r))
  }

  predicate Starts(m: Move, chains: map<Id, seq<nat>>, open: map<nat, seq<byte>>, p: PlainDir, r: Request,
                   illegal: set<byte>)
  {
    m.chains == chains && m.open == open && m.p == p && m.r == r && m.illegal == illegal
  }

  predicate Ends(m: Move, open': map<nat, seq<byte>>, ok: bool, data: seq<byte>) {
    m.open' == open' && m.ok == ok && m.data == data
  }

  /** The move that an operation makes. */
  ghost function MoveOf(x: Turn, moved: bool, p: PlainDir, p': PlainDir, r: Request, ok: bool, data: seq<byte>,
                  illegal: set<byte>): Move
    requires Directory in x.chains
  {
    var e := if moved then TurnChange(x) else NO_CHANGE;
    Move(x.chains, x.open, p, After(x.chains, e), x.open', p', e, r, ok, data, illegal)
  }

  /** An operation that answers a request. */
  datatype Answer = Answer(x: Turn, moved: bool, p: PlainDir, p': PlainDir, r: Request, ok: bool, data: seq<byte>,
                           illegal: set<byte>)

  /** The directory stands for what the plain directory has become by answering the request. */
  twostate predicate Settles(a: Answer)
    reads a.x.k.dir, a.x.k.dir.vol, a.x.k.dir.vol.cache, a.x.k.files
  {
    && Directory in a.x.chains && HasSlots(a.x.k.dir) && Pool(a.x.k)
    && var chains' := After(a.x.chains, if a.moved then TurnChange(a.x) else NO_CHANGE);
    && StandsFor(a.x.k, chains', a.x.open', a.p')
    && Answered(a.x.k.dir.vol.lay, a.x.k.dir.kind == Root16Dir, old(WorldNow(a.x.k.dir, a.x.chains)), a.p, a.p', a.r,
                a.ok, a.data, a.illegal)
    && LeakOf(old(WorldNow(a.x.k.dir, a.x.chains)), a.p, a.r, a.ok, a.illegal) == (if a.moved then a.x.left else [])
    && NewIsBare(chains', a.p, a.r, a.ok, a.illegal)
  }

  /** It is a move. */
  twostate lemma AnswerMoves(a: Answer)
    requires old(Orderly(a.x.k, a.x.chains, a.x.open)) && Turned(a.x, a.moved)
    requires (a.x.name == NameOf(a.p, a.r, a.illegal) || a.x.name == NO_NAME)
    requires a.x.k.dir.vol.cache.card.faults == old(a.x.k.dir.vol.cache.card.faults) ==> Settles(a)
    requires a.x.k.dir.vol.cache.misused ==>
      old(a.x.k.dir.vol.cache.misused
          || FatalRequest(a.x.k.dir.vol.lay, WorldNow(a.x.k.dir, a.x.chains), a.p, a.r))
    ensures Directory in a.x.chains
    ensures var m := MoveOf(a.x, a.moved, a.p, a.p', a.r, a.ok, a.data, a.illegal);
      && Moved(a.x.k, m) && Starts(m, a.x.chains, a.x.open, a.p, a.r, a.illegal)
      && Ends(m, a.x.open', a.ok, a.data)
  {
    hide SdVolume.Valid, Orderly, StandsFor, OnlyThat, TurnDone, Next, FatalRequest, Answered, Refused, NoStray, Tight;
    NothingGone(a.x.chains);
    if a.x.k.dir.vol.cache.card.faults == old(a.x.k.dir.vol.cache.card.faults) {
      if a.moved {
        MovedTight(a.x);
      } else {
        RefusedTight(a.x);
      }
    }
  }

  twostate lemma MovedTight(x: Turn)
    requires old(Orderly(x.k, x.chains, x.open)) && Turned(x, true)
    requires x.k.dir.vol.cache.card.faults == old(x.k.dir.vol.cache.card.faults)
    ensures Tight(old(WorldNow(x.k.dir, x.chains)), WorldNow(x.k.dir, After(x.chains, TurnChange(x))), TurnChange(x),
                  x.left)
  {
    hide SdVolume.Valid, Orderly, Next, Listed, OpenOn, ClosedFits, OnlyThat, NoStray, Tight;
    TurnTight(x);
  }

  twostate lemma RefusedTight(x: Turn)
    requires Turned(x, false) && x.k.dir.vol.cache.card.faults == old(x.k.dir.vol.cache.card.faults)
    ensures Tight(old(WorldNow(x.k.dir, x.chains)), WorldNow(x.k.dir, After(x.chains, NO_CHANGE)), NO_CHANGE, [])
  {
    hide SdVolume.Valid, Orderly, Next, Tight;
    NothingGone(x.chains);
    NothingTight(old(WorldNow(x.k.dir, x.chains)), x.k.dir.vol.CacheNow());
  }

  lemma NothingGone(chains: map<Id, seq<nat>>)
    ensures After(chains, NO_CHANGE) == chains
  {
  }

  // ---------------------------------------------------------------- using and closing files

  /** What the handle of an open file shows. */
  lemma OpenIsShown(k: Desk, chains: map<Id, seq<nat>>, open: map<nat, seq<byte>>, p: PlainDir, i: nat)
    requires InOrder(k, chains, open, p) && i in open
    ensures i < |k.files| && k.files[i].vol == k.dir.vol && p.handles.Keys == open.Keys && open[i] in p.items
    ensures p.handles[i] == Handle(open[i], FileRuns.Mode(k.files[i])) && FileRuns.Tellable(k.files[i])
    ensures k.files[i].EntryOnDisk()
    ensures p.items[open[i]] == FileItem(ReadOnly(k.files[i].DiskEntry()), FileRuns.Plain(k.files[i]))
    ensures DirSound(k.dir) && Pool(k) && Directory in chains
  {
    hide SdVolume.Valid, DirHandle, Sound, Healthy, FileRuns.Tellable, FileRuns.Plain, SdFile.EntryOnDisk, ReadOnly;
    assert Shows(k.files[i], open[i], p.handles[i], p.items[open[i]]);
  }

  /** A fatal command is a fatal request. */
  lemma UseIsFatal(k: Desk, chains: map<Id, seq<nat>>, open: map<nat, seq<byte>>, p: PlainDir, i: nat,
                   c: FileRuns.Command)
    requires i < |k.files| && i in open && InOrder(k, chains, open, p)
    ensures FileRuns.Fatal(k.files[i], c) ==> FatalRequest(k.dir.vol.lay, WorldNow(k.dir, chains), p, UseFile(i, c))
  {
    hide Orderly, StandsFor, WriteDooms, FileRuns.Tellable, OpenOn, SdFile.EntryOnDisk, ReadOnly, DirSound, Pool;
    OpenChain(k, chains, open, i);
    OpenIsShown(k, chains, open, p, i);
  }

  /** Its chain is the one under its name. */
  lemma OpenChain(k: Desk, chains: map<Id, seq<nat>>, open: map<nat, seq<byte>>, i: nat)
    requires Orderly(k, chains, open) && i in open
    ensures i < |k.files| && k.files[i].vol == k.dir.vol && Named(open[i]) in chains
    ensures k.files[i].chain == chains[Named(open[i])]
    ensures SpaceFor(k.dir.vol.lay, WorldNow(k.dir, chains), Named(open[i])) == FileRuns.SpaceOf(k.files[i])
  {
    hide SdVolume.Valid, DirHandle, Sound, Healthy, SdFile.Ready, Space, ClosedFit, InSlot, Listed;
    OpenFiled(k, chains, open, i);
  }

  /** The file of a handle has become `a'`, and nothing else has changed. */
  lemma UseAnswered(lay: Layout, root16: bool, w: World, p: PlainDir, i: nat, c: FileRuns.Command,
                    ok: bool, data: seq<byte>, illegal: set<byte>, readOnly: bool,
                    a: FileRuns.PlainFile, a': FileRuns.PlainFile)
    requires i in p.handles && p.handles[i].name in p.items && p.items[p.handles[i].name] == FileItem(readOnly, a)
    requires a.size <= |a.bytes| && a.pos <= |a.bytes|
    requires FileRuns.PlainStep(a, a', p.handles[i].mode, c, ok, data, SpaceFor(lay, w, Named(p.handles[i].name)))
    ensures var p' := p.(items := p.items[p.handles[i].name := FileItem(readOnly, a')]);
      Answered(lay, root16, w, p, p', UseFile(i, c), ok, data, illegal)
  {
    hide FileRuns.PlainStep;
  }

  /** A command on the open file `i`. */
  method Use(k: Desk, ghost chains: map<Id, seq<nat>>, open: map<nat, seq<byte>>, ghost p: PlainDir, i: nat,
             c: FileRuns.Command, ghost illegal: set<byte>)
    returns (ok: bool, data: seq<byte>, ghost m: Move)
    requires i < |k.files| && i in open && InOrder(k, chains, open, p) && FileRuns.Enabled(k.files[i], c)
    modifies k.files[i], k.dir.vol, k.dir.vol.cache, k.dir.vol.cache.card, k.dir.vol.cache.buffer
    ensures Starts(m, chains, open, p, UseFile(i, c), illegal) && Ends(m, open, ok, data)
    ensures Moved(k, m)
  {
    hide SdVolume.Valid, Orderly, StandsFor, OnlyThat, TurnDone, Next, Answered, FatalRequest, FileRuns.Fatal, ReadOnly;
    hide FileRuns.PlainStep, FileRuns.Plain, FileRuns.Tellable, SdFile.EntryOnDisk, DirHandle, Sound, EntryAt;
    hide Attributes, Moved, Turned, Shows, SameElse, SpaceFor, FileRuns.SpaceOf;
    hide MoveOf, Starts, Ends;
    var f, dir := k.files[i], k.dir;
    OpenIsShown(k, chains, open, p, i);
    OpenChain(k, chains, open, i);
    UseIsFatal(k, chains, open, p, i, c);
    ghost var readOnly, a, w := ReadOnly(f.DiskEntry()), FileRuns.Plain(f), WorldNow(dir, chains);
    ghost var x;
    ok, data, x := OnFile(k, chains, open, i, c);
    ghost var p' := p;
    if dir.vol.cache.card.faults == old(dir.vol.cache.card.faults) {
      p' := p.(items := p.items[open[i] := FileItem(readOnly, FileRuns.Plain(f))]);
      AttributesReadOnly(f.DiskEntry(), old(f.DiskEntry()));
      TurnedRight(x);
      ShownBy(f, open[i], p.handles[i]);
      OnlyItem(x, p, p', open[i]);
      HandleShown(Shown(x, p, p'));
      UseAnswered(dir.vol.lay, dir.kind == Root16Dir, w, p, i, c, ok, data,
                  illegal, readOnly, a, FileRuns.Plain(f));
    }
    AnswerMoves(Answer(x, true, p, p', UseFile(i, c), ok, data, illegal));
    m := MoveOf(x, true, p, p', UseFile(i, c), ok, data, illegal);
  }

  lemma AttributesReadOnly(e: Entry, e': Entry)
    requires Attributes(e) == Attributes(e')
    ensures ReadOnly(e) == ReadOnly(e') && IsFile(e) == IsFile(e')
  {
  }

  lemma ShownBy(f: SdFile, name: seq<byte>, h: Handle)
    requires h == Handle(name, FileRuns.Mode(f)) && FileRuns.Tellable(f) && f.EntryOnDisk()
    ensures Shows(f, name, h, FileItem(ReadOnly(f.DiskEntry()), FileRuns.Plain(f)))
  {
  }

  /** Only the item of the name has changed, and at most the handle of the operation. */
  lemma OnlyItem(x: Turn, p: PlainDir, p': PlainDir, name: seq<byte>)
    requires x.name == name && p'.handles.Keys == x.open'.Keys
    requires p'.items == p.items[name := if name in p'.items then p'.items[name] else Reserved]
          || p'.items == p.items - {name}
    requires p'.handles == p.handles || p'.handles == p.handles - {x.i}
          || (x.i in p'.handles && p'.handles == p.handles[x.i := p'.handles[x.i]])
    ensures SameElse(Shown(x, p, p'))
  {
  }

  /** What an operation on which no card access failed leaves. */
  twostate lemma TurnedRight(x: Turn)
    requires Turned(x, true) && x.k.dir.vol.cache.card.faults == old(x.k.dir.vol.cache.card.faults)
    ensures OnlyThat(x) && TurnDone(x) && HasSlots(x.k.dir) && (x.ending.Kept? ==> Listed(Slots(x.k.dir), x.name))
    ensures x.k.dir.vol.Valid()
  {
    hide SdVolume.Valid, Orderly, Next, Listed, OpenOn, ClosedFits, FramedAt, OnlySlot, DirHandle, Sound;
  }

  /** The operation has left its handle open: what that shows is all that has changed. */
  twostate lemma HandleShown(s: Shown)
    requires old(Orderly(s.x.k, s.x.chains, s.x.open) && StandsFor(s.x.k, s.x.chains, s.x.open, s.p))
    requires OnlyThat(s.x) && TurnDone(s.x) && s.x.ending.Kept? && s.x.i in s.x.open' && SameElse(s)
    requires s.x.name in s.p'.items && s.x.i in s.p'.handles && Pool(s.x.k) && s.x.i < |s.x.k.files|
    requires Shows(s.x.k.files[s.x.i], s.x.name, s.p'.handles[s.x.i], s.p'.items[s.x.name])
    ensures HasSlots(s.x.k.dir) && StandsFor(s.x.k, After(s.x.chains, TurnChange(s.x)), s.x.open', s.p')
  {
    hide SdVolume.Valid, DirHandle, Sound, FramedAt, OnlySlot, Charted, ClosedFit, HandlesFit, NoneTwice, OpenOn;
    hide NamesShown, ClosedShown, HandlesShown, SameElse, Shows, Healthy, SlotOf;
    StillShown(s);
  }

  /** The entry of a file that was just closed shows what its handle showed. */
  lemma ClosedItemIs(f: SdFile, dir: SdFile, name: seq<byte>, d: seq<Block>, a: FileRuns.PlainFile, held: nat)
    requires f.vol == dir.vol && HasSlots(dir) && InSlot(dir, name, f.dirBlock, f.dirIndex) && f.EntryOnDisk()
    requires IsFile(f.DiskEntry()) && Listed(Slots(dir), name)
    requires Size(f.DiskEntry()) == f.fileSize == a.size <= |a.bytes|
    requires f.WellPlaced(d, f.chain, held, f.fileSize) && f.WellPlaced(f.vol.disk, f.chain, 0, f.fileSize)
    requires a.bytes == Content(f.vol.lay, d, Clusters(f.chain), held) && f.fileSize <= held
    requires Content(f.vol.lay, f.vol.disk, Clusters(f.chain), f.fileSize)
          == Content(f.vol.lay, d, Clusters(f.chain), f.fileSize)
    ensures SlotOf(Slots(dir), name) < SlotCount(dir)
    ensures EntryItem(dir.vol.lay, dir.vol.disk, Slots(dir)[SlotOf(Slots(dir), name)], f.chain)
         == FileItem(ReadOnly(f.DiskEntry()), FileRuns.PlainFile(a.bytes[..a.size], a.size, 0))
  {
    hide Layout.WellFormed, Layout.ExtentOk, Layout.BlockCount, Capacity, Content, EntryAt, Keeps, IsFile, Size;
    hide ReadOnly;
    hide SlotBlock, SlotOf;
    FileRuns.ContentPrefix(f.vol.lay, d, Clusters(f.chain), f.fileSize, held);
    SlotEntry(dir.vol.lay, dir.vol.disk, dir.Place(), SlotCount(dir), SlotOf(Slots(dir), name));
  }

  /** The operation has left its name closed: what the entry shows is all that has changed. */
  twostate lemma EntryShown(s: Shown)
    requires old(Orderly(s.x.k, s.x.chains, s.x.open) && StandsFor(s.x.k, s.x.chains, s.x.open, s.p))
    requires OnlyThat(s.x) && TurnDone(s.x) && s.x.ending.Kept? && s.x.i !in s.x.open' && SameElse(s)
    requires s.x.name in s.p'.items && Pool(s.x.k) && SlotOf(Slots(s.x.k.dir), s.x.name) < SlotCount(s.x.k.dir)
    requires s.p'.items[s.x.name]
          == EntryItem(s.x.k.dir.vol.lay, s.x.k.dir.vol.disk, Slots(s.x.k.dir)[SlotOf(Slots(s.x.k.dir), s.x.name)],
                       s.x.after)
    ensures StandsFor(s.x.k, After(s.x.chains, TurnChange(s.x)), s.x.open', s.p')
  {
    hide SdVolume.Valid, DirHandle, Sound, FramedAt, OnlySlot, Charted, ClosedFit, HandlesFit, NoneTwice, OpenOn;
    hide NamesShown, ClosedShown, HandlesShown, SameElse, Shows, Healthy, SlotOf, EntryItem, TurnDone;
    StillShown(s);
  }

  /** The handle goes, and the bytes up to the size stay. */
  lemma CloseAnswered(lay: Layout, root16: bool, w: World, p: PlainDir, i: nat, illegal: set<byte>, readOnly: bool,
                      a: FileRuns.PlainFile)
    requires i in p.handles && p.handles[i].name in p.items && p.items[p.handles[i].name] == FileItem(readOnly, a)
    requires a.size <= |a.bytes|
    ensures var item := FileItem(readOnly, FileRuns.PlainFile(a.bytes[..a.size], a.size, 0));
      Answered(lay, root16, w, p, PlainDir(p.items[p.handles[i].name := item], p.handles - {i}), CloseHandle(i), true,
               [], illegal)
  {
  }

  /** The plain directory after a handle was closed. */
  ghost function ClosedDir(p: PlainDir, i: nat): PlainDir {
    if HoldsFile(p, i) && FileOf(p, i).size <= |FileOf(p, i).bytes| then
      var name, a := p.handles[i].name, FileOf(p, i);
      PlainDir(p.items[name := FileItem(p.items[name].readOnly, FileRuns.PlainFile(a.bytes[..a.size], a.size, 0))],
               p.handles - {i})
    else p
  }

  /** Handle `i` is open on the file of this name, and shows what the plain directory has of it. */
  ghost predicate ShownOpen(k: Desk, p: PlainDir, i: nat, name: seq<byte>)
    reads k.files, set f | f in k.files :: f.vol
  {
    && i < |k.files| && i in p.handles && name in p.items && Shows(k.files[i], name, p.handles[i], p.items[name])
    && IsFile(k.files[i].DiskEntry())
  }

  twostate lemma CloseSettled(a: Answer)
    requires a.r == CloseHandle(a.x.i) && a.ok && a.data == [] && a.moved && a.p' == ClosedDir(a.p, a.x.i)
    requires old(ShownOpen(a.x.k, a.p, a.x.i, a.x.name)) && a.x.i < |a.x.k.files|
    requires a.x.left == [] && a.x.ending.Kept? && a.x.after == a.x.k.files[a.x.i].chain
    requires a.x.open' == a.x.open - {a.x.i} && a.x.i in a.x.open && a.x.open[a.x.i] == a.x.name
    requires ClosedOutcome(a.x.k, a.x.i, a.x.name, true) && a.p.handles.Keys == a.x.open.Keys
    requires a.x.k.dir.vol.cache.card.faults == old(a.x.k.dir.vol.cache.card.faults)
    requires Pool(a.x.k) && Directory in a.x.chains && old(HasSlots(a.x.k.dir))
    requires old(StandsFor(a.x.k, a.x.chains, a.x.open, a.p)) && old(Orderly(a.x.k, a.x.chains, a.x.open))
    requires Turned(a.x, true)
    ensures Settles(a)
  {
    hide SdVolume.Valid, Orderly, StandsFor, OnlyThat, TurnDone, ReadOnly, DirHandle, EntryAt, Turned, Listed, Size;
    hide SdFile.EntryOnDisk, Attributes, EntryItem, InSlot, IsFile, Content, SlotOf, Capacity, Layout.WellFormed;
    hide Layout.ExtentOk, SameElse, Answered;
    var x, f := a.x, a.x.k.files[a.x.i];
    CloseAnswered(x.k.dir.vol.lay, x.k.dir.kind == Root16Dir, old(WorldNow(x.k.dir, x.chains)), a.p, x.i, a.illegal,
                  ReadOnly(old(f.DiskEntry())), old(FileRuns.Plain(f)));
    AttributesReadOnly(f.DiskEntry(), old(f.DiskEntry()));
    TurnedRight(x);
    ClosedItemIs(f, x.k.dir, x.name, old(f.vol.disk), old(FileRuns.Plain(f)), old(FileRuns.Held(f)));
    OnlyItem(x, a.p, a.p', x.name);
    EntryShown(Shown(x, a.p, a.p'));
  }

  /** Closing the open file `i`. */
  method Close(k: Desk, ghost chains: map<Id, seq<nat>>, open: map<nat, seq<byte>>, ghost p: PlainDir, i: nat,
               ghost illegal: set<byte>)
    returns (ok: bool, open': map<nat, seq<byte>>, ghost m: Move)
    requires i < |k.files| && i in open && InOrder(k, chains, open, p)
    modifies k.files[i], k.dir.vol, k.dir.vol.cache, k.dir.vol.cache.card, k.dir.vol.cache.buffer
    ensures Starts(m, chains, open, p, CloseHandle(i), illegal) && Ends(m, open', ok, [])
    ensures Moved(k, m)
  {
    hide SdVolume.Valid, Orderly, StandsFor, OnlyThat, TurnDone, Next, FatalRequest, ReadOnly, DirHandle, Sound;
    hide EntryAt, Moved, Turned, Answered, ClosedOutcome, ClosedDir, OpenOn, Listed, IsFile, FileRuns.Plain;
    hide MoveOf, Starts, Ends, FileRuns.Tellable, SdFile.EntryOnDisk;
    OpenIsShown(k, chains, open, p, i);
    OpenIsFile(k, chains, open, p, i);
    ghost var x;
    ok, open', x := CloseFile(k, chains, open, i);
    ghost var p' := if ok then ClosedDir(p, i) else p;
    ghost var a := Answer(x, true, p, p', CloseHandle(i), ok, [], illegal);
    if ok {
      CloseSettled(a);
    }
    AnswerMoves(a);
    m := MoveOf(x, true, p, p', CloseHandle(i), ok, [], illegal);
  }

  lemma OpenIsFile(k: Desk, chains: map<Id, seq<nat>>, open: map<nat, seq<byte>>, p: PlainDir, i: nat)
    requires InOrder(k, chains, open, p) && i in open
    ensures ShownOpen(k, p, i, open[i]) && HasSlots(k.dir)
  {
    hide SdVolume.Valid, DirHandle, Sound, Healthy, Listed, IsFile, InSlot, ClosedFit, NamesShown, ClosedShown;
    OpenFiled(k, chains, open, i);
  }

  // ---------------------------------------------------------------- requests by name

  /** A file is removed unless it is read-only. */
  lemma RemoveAnswered(lay: Layout, root16: bool, w: World, p: PlainDir, str: seq<byte>, illegal: set<byte>,
                       ok: bool)
    requires IsName83(str, illegal)
    requires ok <==> Encode(str) in p.items && p.items[Encode(str)].FileItem? && !p.items[Encode(str)].readOnly
    ensures var p' := if ok then p.(items := p.items - {Encode(str)}) else p;
      Answered(lay, root16, w, p, p', RemoveName(str), ok, [], illegal)
  {
    hide Encode, Base, Extension;
  }

  /** Whether removing it leaves its clusters in use can be seen from the plain directory. */
  lemma LeakShown(k: Desk, chains: map<Id, seq<nat>>, open: map<nat, seq<byte>>, p: PlainDir, str: seq<byte>,
                  illegal: set<byte>)
    requires InOrder(k, chains, open, p) && NameFree(str, illegal, open)
    ensures HasSlots(k.dir)
    ensures var r, w := RemoveName(str), WorldNow(k.dir, chains);
      forall ok :: (ok ==> Encode(str) in p.items && p.items[Encode(str)].FileItem?) ==>
        LeakOf(w, p, r, ok, illegal) ==
          if ok && Leaks(k.dir, Encode(str)) then ChainOf(chains, Named(Encode(str))) else []
  {
    hide SdVolume.Valid, DirHandle, Sound, Charted, HandlesFit, ClosedFit, Encode, Base, Extension, Size, SlotOf;
    hide NamesShown, HandlesShown, ClosedShown;
    EncodedFirstByte(str, illegal);
    if Encode(str) in p.items && p.items[Encode(str)].FileItem? {
      ClosedSize(k, chains, open, p, Encode(str));
    }
  }

  /** What the state says of a name that no handle is open on, and of the room for a new one. */
  lemma NamedIsShown(k: Desk, chains: map<Id, seq<nat>>, open: map<nat, seq<byte>>, p: PlainDir, str: seq<byte>,
                     illegal: set<byte>)
    requires InOrder(k, chains, open, p) && NameFree(str, illegal, open)
    ensures DirSound(k.dir) && Pool(k) && Directory in chains && p.handles.Keys == open.Keys
    ensures k.dir.chain == chains[Directory] && forall j :: j in open ==> j < |k.files|
    ensures ItemFits(k.dir, chains, p, Encode(str))
    ensures Encode(str) in p.items && p.items[Encode(str)].FileItem? ==>
      p.items[Encode(str)].readOnly == ReadOnly(TableMap(Slots(k.dir))[Encode(str)])
    ensures var lay, root16, w := k.dir.vol.lay, k.dir.kind == Root16Dir, WorldNow(k.dir, chains);
      && TableOf(lay, root16, w) == Slots(k.dir) && (NoRoom(lay, root16, w) <==> Full(k.dir))
      && (NoSlot(lay, root16, w) <==> FirstEmpty(Slots(k.dir)) == SlotCount(k.dir))
  {
    hide SdVolume.Valid, DirHandle, Sound, Healthy, Listed, EntryItem, IsFile, ReadOnly, TableMap, Full, NoRoom, NoSlot;
    hide TableOf, Encode, Base, Extension, Shows, ClosedShown, NamesShown, Slots;
    EncodedFirstByte(str, illegal);
    ItemShown(k, chains, open, p, Encode(str));
    RoomShown(k.dir, chains);
  }

  /** The operation has ended without its name. */
  twostate lemma LossShown(s: Shown)
    requires old(Orderly(s.x.k, s.x.chains, s.x.open) && StandsFor(s.x.k, s.x.chains, s.x.open, s.p))
    requires OnlyThat(s.x) && TurnDone(s.x) && s.x.i !in s.x.open' && SameElse(s) && Pool(s.x.k)
    requires s.x.name !in s.p'.items && s.x.name !in TableMap(Slots(s.x.k.dir))
    ensures StandsFor(s.x.k, After(s.x.chains, TurnChange(s.x)), s.x.open', s.p')
  {
    hide SdVolume.Valid, DirHandle, Sound, FramedAt, OnlySlot, Charted, ClosedFit, HandlesFit, NoneTwice, OpenOn;
    hide NamesShown, ClosedShown, HandlesShown, SameElse, Shows, Healthy, SlotOf, EntryItem, TurnDone, TableMap;
    Lookup(Slots(s.x.k.dir), s.x.name);
    StillShown(s);
  }

  /** What a refused operation leaves. */
  twostate lemma RefusalShown(s: Shown)
    requires old(Orderly(s.x.k, s.x.chains, s.x.open) && StandsFor(s.x.k, s.x.chains, s.x.open, s.p))
    requires Turned(s.x, false) && s.x.k.dir.vol.cache.card.faults == old(s.x.k.dir.vol.cache.card.faults)
    ensures HasSlots(s.x.k.dir) && Pool(s.x.k) && s.x.open' == s.x.open
    ensures StandsFor(s.x.k, After(s.x.chains, NO_CHANGE), s.x.open, s.p)
  {
    hide SdVolume.Valid, DirHandle, Sound, Next, Charted, ClosedFit, HandlesFit, NamesShown, ClosedShown, HandlesShown;
    NothingGone(s.x.chains);
    StaysShown(s);
  }

  /** Removing a file that is not open. */
  method Remove(k: Desk, ghost chains: map<Id, seq<nat>>, open: map<nat, seq<byte>>, ghost p: PlainDir,
                str: seq<byte>, illegal: set<byte>)
    returns (ok: bool, ghost m: Move)
    requires InOrder(k, chains, open, p) && NameFree(str, illegal, open)
    modifies k.dir`curCluster, k.dir`curPosition, k.dir`firstCluster, k.dir`flags, k.dir`chain, k.dir`fileSize
    modifies k.dir.vol, k.dir.vol.cache, k.dir.vol.cache.card, k.dir.vol.cache.buffer
    ensures Starts(m, chains, open, p, RemoveName(str), illegal) && Ends(m, open, ok, [])
    ensures Moved(k, m)
  {
    hide SdVolume.Valid, Orderly, StandsFor, OnlyThat, TurnDone, Next, FatalRequest, ReadOnly, DirHandle, Sound;
    hide TableMap, EntryItem, IsFile, SlotOf, Moved, Turned, SameElse, OpenRefused, Encode, Base, Extension, Slots;
    hide NoRoom, NoSlot, TableOf, Full, Answered, Leaks, LeakOf;
    hide MoveOf, Starts, Ends;
    ghost var name, w := Encode(str), WorldNow(k.dir, chains);
    NamedIsShown(k, chains, open, p, str, illegal);
    OpenShown(k.dir, name, WRITE_ONLY);
    LeakShown(k, chains, open, p, str, illegal);
    ghost var x, moved;
    ok, x, moved := RemoveFile(k, chains, open, str, illegal);
    ghost var p' := p;
    if k.dir.vol.cache.card.faults == old(k.dir.vol.cache.card.faults) {
      if ok {
        p' := p.(items := p.items - {name});
        TurnedRight(x);
        OnlyItem(x, p, p', name);
        LossShown(Shown(x, p, p'));
      } else {
        RefusalShown(Shown(x, p, p));
      }
    }
    if k.dir.vol.cache.card.faults == old(k.dir.vol.cache.card.faults) {
      RemoveAnswered(k.dir.vol.lay, k.dir.kind == Root16Dir, w, p, str, illegal, ok);
    }
    AnswerMoves(Answer(x, moved, p, p', RemoveName(str), ok, [], illegal));
    m := MoveOf(x, moved, p, p', RemoveName(str), ok, [], illegal);
  }

  /** A subdirectory is removed if it looks empty. */
  lemma RemoveDirAnswered(lay: Layout, root16: bool, w: World, p: PlainDir, str: seq<byte>, illegal: set<byte>,
                          ok: bool)
    requires IsName83(str, illegal)
    requires ok <==>
      Encode(str) in p.items && p.items[Encode(str)].SubDirectory? && IsEmptySub(lay, w, Encode(str))
    ensures var p' := if ok then p.(items := p.items - {Encode(str)}) else p;
      Answered(lay, root16, w, p, p', RemoveDirName(str), ok, [], illegal)
  {
    hide Encode, Base, Extension, IsEmptySub;
  }

  /** Whether it does can be seen from the plain directory. */
  lemma SubShown(k: Desk, chains: map<Id, seq<nat>>, open: map<nat, seq<byte>>, p: PlainDir, str: seq<byte>,
                 illegal: set<byte>)
    requires InOrder(k, chains, open, p) && NameFree(str, illegal, open)
    ensures HasSlots(k.dir)
    ensures var name := Encode(str);
      EmptySub(k.dir, name, ChainOf(chains, Named(name))) <==>
      name in p.items && p.items[name].SubDirectory? && IsEmptySub(k.dir.vol.lay, WorldNow(k.dir, chains), name)
  {
    hide SdVolume.Valid, DirHandle, Sound, HandlesFit, ClosedFit, Encode, Base, Extension, TableMap, LooksEmpty;
    hide NamesShown, HandlesShown, ClosedShown, Listed, Healthy, Layout.WellFormed, Layout.ExtentOk, Layout.BlockCount;
    hide Table, Slots;
    var name, dir := Encode(str), k.dir;
    EncodedFirstByte(str, illegal);
    NamedIsShown(k, chains, open, p, str, illegal);
    ClosedChain(dir, chains, name);
    dir.vol.Facts();
    ChainIsExtent(dir.vol.lay, dir.vol.fat, ChainOf(chains, Named(name)));
    if name in TableMap(Slots(dir)) {
      Lookup(Slots(dir), name);
      SubKept(TableMap(Slots(dir))[name], name);
    }
  }

  lemma SubKept(e: Entry, name: seq<byte>)
    requires IsLive(e) && Name(e) == name && name != [] && name[0] != DOT
    ensures IsSubDir(e) <==> Keeps(e) && !IsFile(e)
  {
  }

  /** Removing an empty subdirectory. */
  method RemoveDir(k: Desk, ghost chains: map<Id, seq<nat>>, open: map<nat, seq<byte>>, ghost p: PlainDir,
                   str: seq<byte>, illegal: set<byte>)
    returns (ok: bool, ghost m: Move)
    requires InOrder(k, chains, open, p) && NameFree(str, illegal, open)
    modifies k.dir`curCluster, k.dir`curPosition, k.dir`firstCluster, k.dir`flags, k.dir`chain, k.dir`fileSize
    modifies k.dir.vol, k.dir.vol.cache, k.dir.vol.cache.card, k.dir.vol.cache.buffer
    ensures Starts(m, chains, open, p, RemoveDirName(str), illegal) && Ends(m, open, ok, [])
    ensures Moved(k, m)
  {
    hide SdVolume.Valid, Orderly, StandsFor, OnlyThat, TurnDone, Next, FatalRequest, ReadOnly, DirHandle, Sound;
    hide TableMap, EntryItem, IsFile, SlotOf, Moved, Turned, SameElse, EmptySub, IsEmptySub, Encode, Base, Extension;
    hide Slots, NoRoom, NoSlot, TableOf, Full, Answered, OpenRefused;
    hide MoveOf, Starts, Ends;
    ghost var name, w := Encode(str), WorldNow(k.dir, chains);
    NamedIsShown(k, chains, open, p, str, illegal);
    SubShown(k, chains, open, p, str, illegal);
    ghost var x, moved;
    ok, x, moved := RemoveSubDir(k, chains, open, str, illegal);
    ghost var p' := p;
    if k.dir.vol.cache.card.faults == old(k.dir.vol.cache.card.faults) {
      if ok {
        p' := p.(items := p.items - {name});
        TurnedRight(x);
        OnlyItem(x, p, p', name);
        LossShown(Shown(x, p, p'));
      } else {
        RefusalShown(Shown(x, p, p));
      }
      RemoveDirAnswered(k.dir.vol.lay, k.dir.kind == Root16Dir, w, p, str, illegal, ok);
    }
    AnswerMoves(Answer(x, moved, p, p', RemoveDirName(str), ok, [], illegal));
    m := MoveOf(x, moved, p, p', RemoveDirName(str), ok, [], illegal);
  }

  lemma OpenAnswered(lay: Layout, root16: bool, w: World, p: PlainDir, i: nat, str: seq<byte>,
                     mode: OpenMode, illegal: set<byte>, ok: bool)
    requires IsName83(str, illegal) && (ok <==> WillOpen(lay, root16, w, p, Encode(str), mode))
    ensures var name := Encode(str);
      var p' :=
        if ok then PlainDir(p.items[name := OpenedItem(p, name, mode)], p.handles[i := HandleFor(name, mode)]) else p;
      Answered(lay, root16, w, p, p', OpenName(i, str, mode), ok, [], illegal)
  {
    hide Encode, Base, Extension, WillOpen;
  }

  /** Whether opening succeeds can be seen from the plain directory, and so can what it finds. */
  ghost predicate OpenKnown(dir: SdFile, chains: map<Id, seq<nat>>, p: PlainDir, name: seq<byte>, mode: OpenMode)
    requires HasSlots(dir)
    reads dir, dir.vol, dir.vol.cache
  {
    && ItemFits(dir, chains, p, name)
    && (!OpenRefused(dir, name, mode) && !IsNoFile(dir, name) <==>
          WillOpen(dir.vol.lay, dir.kind == Root16Dir, WorldNow(dir, chains), p, name, mode))
  }

  lemma OpenDecided(k: Desk, chains: map<Id, seq<nat>>, open: map<nat, seq<byte>>, p: PlainDir, str: seq<byte>,
                    illegal: set<byte>, mode: OpenMode)
    requires InOrder(k, chains, open, p) && NameFree(str, illegal, open) && Consistent(mode)
    ensures Pool(k) && HasSlots(k.dir) && Directory in chains && p.handles.Keys == open.Keys
    ensures OpenKnown(k.dir, chains, p, Encode(str), mode)
  {
    hide SdVolume.Valid, DirHandle, Sound, Healthy, Listed, EntryItem, IsFile, ReadOnly, TableMap, Full, NoRoom, NoSlot;
    hide TableOf, Encode, Base, Extension, Shows, ClosedShown, NamesShown, Slots, OpenRefused;
    NamedIsShown(k, chains, open, p, str, illegal);
    OpenShown(k.dir, Encode(str), mode);
  }

  /** The handle of a file opened by its entry shows what the entry showed. */
  lemma FoundShows(f: SdFile, name: seq<byte>, d: seq<Block>, e: Entry, chain: seq<nat>, item: Item, mode: OpenMode)
    requires FileRuns.Tellable(f) && f.EntryOnDisk() && OpenedFlags(f, mode) && f.curPosition == 0
    requires Attributes(f.DiskEntry()) == Attributes(e)
    requires if mode.trunc then f.fileSize == 0 else f.fileSize == Size(e) && f.chain == chain && f.vol.disk == d
    requires item == EntryItem(f.vol.lay, d, e, chain) && item.FileItem?
    ensures Shows(f, name, HandleFor(name, mode),
                  FileItem(item.readOnly, if mode.trunc then EMPTY_FILE else item.plain))
  {
    hide Layout.WellFormed, Layout.ExtentOk, Capacity, EntryAt, Attributes, Size, Keeps, IsFile;
    assert mode.trunc ==> FileRuns.Plain(f).bytes == [];
  }

  lemma NewShows(f: SdFile, name: seq<byte>, mode: OpenMode)
    requires FileRuns.Tellable(f) && f.EntryOnDisk() && OpenedFlags(f, mode) && f.curPosition == 0
    requires Attributes(f.DiskEntry()) == 0
    ensures Shows(f, name, HandleFor(name, mode), FileItem(false, FileRuns.Plain(f)))
    ensures FileRuns.Plain(f).pos == 0 && FileRuns.Plain(f).size == |FileRuns.Plain(f).bytes| == f.fileSize
    ensures f.fileSize == 0 ==> FileRuns.Plain(f) == EMPTY_FILE
  {
    hide Layout.WellFormed, Layout.ExtentOk, Capacity, EntryAt, Attributes;
    assert HasBit(0, ATT_READ_ONLY) == false;
  }

  /** Opening or creating a file by name, through the closed handle `i`. */
  method OpenByName(k: Desk, ghost chains: map<Id, seq<nat>>, open: map<nat, seq<byte>>, ghost p: PlainDir, i: nat,
                    str: seq<byte>, mode: OpenMode, illegal: set<byte>)
    returns (ok: bool, open': map<nat, seq<byte>>, ghost m: Move)
    requires i < |k.files| && i !in open && InOrder(k, chains, open, p) && NameFree(str, illegal, open)
    requires Consistent(mode) && (mode.creat ==> Room(k.dir))
    modifies k.files[i]
    modifies k.dir`curCluster, k.dir`curPosition, k.dir`firstCluster, k.dir`flags, k.dir`chain, k.dir`fileSize
    modifies k.dir.vol, k.dir.vol.cache, k.dir.vol.cache.card, k.dir.vol.cache.buffer
    ensures Starts(m, chains, open, p, OpenName(i, str, mode), illegal) && Ends(m, open', ok, [])
    ensures Moved(k, m)
  {
    hide SdVolume.Valid, Orderly, StandsFor, OnlyThat, TurnDone, Next, FatalRequest, ReadOnly, DirHandle, Sound;
    hide TableMap, EntryItem, IsFile, SlotOf, Moved, Turned, SameElse, OpenRefused, Encode, Base, Extension, Slots;
    hide NoRoom, NoSlot, TableOf, Full, Answered, OpenedExisting, OpenedNew, Shows, OpenedDir, IsNoFile, WillOpen;
    hide MoveOf, Starts, Ends;
    hide OpenOutcome, OpenKnown, Consistent, Room, HasSlots;
    OpenDecided(k, chains, open, p, str, illegal, mode);
    ghost var x, moved;
    ok, open', x, moved := OpenFile(k, chains, open, i, str, illegal, mode);
    ghost var p' := if ok then OpenedDir(x, p, mode) else p;
    ghost var a := Answer(x, moved, p, p', OpenName(i, str, mode), ok, [], illegal);
    if k.dir.vol.cache.card.faults == old(k.dir.vol.cache.card.faults) {
      OpenSettled(a);
    }
    AnswerMoves(a);
    m := MoveOf(x, moved, p, p', OpenName(i, str, mode), ok, [], illegal);
  }

  twostate lemma OpenSettled(a: Answer)
    requires a.r.OpenName? && a.r.i == a.x.i && IsName83(a.r.str, a.illegal) && a.x.name == Encode(a.r.str)
    requires a.data == [] && a.p' == if a.ok then OpenedDir(a.x, a.p, a.r.mode) else a.p
    requires a.x.left == [] && a.x.k.dir.kind == old(a.x.k.dir.kind) && a.p.handles.Keys == a.x.open.Keys
    requires a.x.open' == if a.ok then a.x.open[a.x.i := a.x.name] else a.x.open
    requires a.x.k.dir.vol.cache.card.faults == old(a.x.k.dir.vol.cache.card.faults)
    requires Pool(a.x.k) && old(HasSlots(a.x.k.dir)) && Directory in a.x.chains
    requires old(OpenKnown(a.x.k.dir, a.x.chains, a.p, a.x.name, a.r.mode))
    requires old(StandsFor(a.x.k, a.x.chains, a.x.open, a.p)) && old(Orderly(a.x.k, a.x.chains, a.x.open))
    requires OpenOutcome(a.x, a.r.mode, a.ok, a.moved)
    requires Turned(a.x, a.moved)
    ensures Settles(a)
  {
    hide SdVolume.Valid, Orderly, StandsFor, Turned, OpenedExisting, OpenedNew, OpenRefused, WillOpen, ItemFits, Encode;
    hide Base, Extension, Answered, IsNoFile, TableMap, NoRoom;
    if a.ok {
      OpenedIsShown(a);
      OpenedBare(a);
    } else {
      RefusalShown(Shown(a.x, a.p, a.p));
    }
    OpenAnswered(a.x.k.dir.vol.lay, a.x.k.dir.kind == Root16Dir, old(WorldNow(a.x.k.dir, a.x.chains)), a.p, a.x.i,
                 a.r.str, a.r.mode, a.illegal, a.ok);
  }

  /** The plain directory after a file was opened. */
  ghost function OpenedDir(x: Turn, p: PlainDir, mode: OpenMode): PlainDir {
    PlainDir(p.items[x.name := OpenedItem(p, x.name, mode)], p.handles[x.i := HandleFor(x.name, mode)])
  }

  /** The item of the name, as its entry has it. */
  ghost predicate ItemFits(dir: SdFile, chains: map<Id, seq<nat>>, p: PlainDir, name: seq<byte>)
    requires HasSlots(dir)
    reads dir, dir.vol
  {
    var t := TableMap(Slots(dir));
    && (name in p.items <==> name in t)
    && (name in p.items ==>
          && p.items[name] == EntryItem(dir.vol.lay, dir.vol.disk, t[name], ChainOf(chains, Named(name)))
          && (p.items[name].FileItem? <==> IsFile(t[name])))
  }

  twostate lemma OpenedBare(a: Answer)
    requires a.x.i < |a.x.k.files| && a.x.open' == a.x.open[a.x.i := a.x.name] && a.x.ending.Kept?
    requires a.x.k.dir.vol.cache.card.faults == old(a.x.k.dir.vol.cache.card.faults)
    requires a.r.OpenName? && old(HasSlots(a.x.k.dir)) && old(ItemFits(a.x.k.dir, a.x.chains, a.p, a.x.name))
    requires old(a.x.name !in TableMap(Slots(a.x.k.dir))) ==>
      OpenedNew(a.x.k.files[a.x.i], a.x.k.dir, a.x.name, a.r.mode)
    requires Turned(a.x, true)
    ensures Directory in a.x.chains
    ensures a.x.name !in a.p.items ==> ChainOf(After(a.x.chains, TurnChange(a.x)), Named(a.x.name)) == []
  {
    hide SdVolume.Valid, Orderly, OnlyThat, Next, ClosedFits, Listed, NoStray, Created, TableMap, SdFile.Ready;
  }

  twostate lemma OpenedIsShown(a: Answer)
    requires a.r.OpenName? && a.p' == OpenedDir(a.x, a.p, a.r.mode) && a.p.handles.Keys == a.x.open.Keys
    requires a.x.i < |a.x.k.files| && a.x.open' == a.x.open[a.x.i := a.x.name] && a.x.ending.Kept?
    requires a.x.k.dir.vol.cache.card.faults == old(a.x.k.dir.vol.cache.card.faults)
    requires Pool(a.x.k) && old(HasSlots(a.x.k.dir)) && a.x.k.files[a.x.i].kind == Normal
    requires old(ItemFits(a.x.k.dir, a.x.chains, a.p, a.x.name)) && !old(IsNoFile(a.x.k.dir, a.x.name))
    requires if old(a.x.name in TableMap(Slots(a.x.k.dir)))
      then OpenedExisting(a.x.k.files[a.x.i], a.x.k.dir, a.x.name, a.r.mode, ChainOf(a.x.chains, Named(a.x.name)))
      else OpenedNew(a.x.k.files[a.x.i], a.x.k.dir, a.x.name, a.r.mode)
    requires old(StandsFor(a.x.k, a.x.chains, a.x.open, a.p)) && old(Orderly(a.x.k, a.x.chains, a.x.open))
    requires Turned(a.x, true)
    ensures HasSlots(a.x.k.dir) && StandsFor(a.x.k, After(a.x.chains, TurnChange(a.x)), a.x.open', a.p')
  {
    hide SdVolume.Valid, Orderly, StandsFor, OnlyThat, TurnDone, Next, ReadOnly, DirHandle, Sound, TableMap, EntryItem;
    hide IsFile, SlotOf, Turned, SameElse, OpenedExisting, OpenedNew, Shows, FileRuns.Plain, FileRuns.Tellable, EntryAt;
    var f, dir, name, mode := a.x.k.files[a.x.i], a.x.k.dir, a.x.name, a.r.mode;
    TurnedRight(a.x);
    PoolVolume(a.x.k, a.x.i);
    if old(name in TableMap(Slots(dir))) {
      FoundFacts(Finding(f, dir, name, mode, ChainOf(a.x.chains, Named(name))));
      FoundShows(f, name, old(dir.vol.disk), old(TableMap(Slots(dir))[name]), ChainOf(a.x.chains, Named(name)),
                 a.p.items[name], mode);
    } else {
      NewFacts(Finding(f, dir, name, mode, []));
      NewShows(f, name, mode);
    }
    OnlyItem(a.x, a.p, a.p', name);
    HandleShown(Shown(a.x, a.p, a.p'));
  }

  lemma PoolVolume(k: Desk, i: nat)
    requires Pool(k) && i < |k.files|
    ensures k.files[i].vol == k.dir.vol
  {
  }

  datatype Finding = Finding(f: SdFile, dir: SdFile, name: seq<byte>, mode: OpenMode, chain: seq<nat>)

  /** What an opened handle has of the entry. */
  twostate lemma FoundFacts(o: Finding)
    requires OpenedExisting(o.f, o.dir, o.name, o.mode, o.chain) && o.f.vol == o.dir.vol && o.f.vol.Valid()
    requires o.f.kind == Normal && old(o.name in TableMap(Slots(o.dir)))
    ensures FileRuns.Tellable(o.f) && o.f.EntryOnDisk() && OpenedFlags(o.f, o.mode) && o.f.curPosition == 0
    ensures Attributes(o.f.DiskEntry()) == old(Attributes(TableMap(Slots(o.dir))[o.name]))
    ensures if o.mode.trunc then o.f.fileSize == 0
            else o.f.fileSize == old(Size(TableMap(Slots(o.dir))[o.name])) && o.f.chain == o.chain
                 && o.f.vol.disk == old(o.f.vol.disk)
  {
    hide SdVolume.Valid, DirHandle, Layout.WellFormed, Layout.ExtentOk, Layout.BlockCount, Attributes, Size, EntryAt;
    hide SdFile.Ready, TableMap, FirstCluster, SlotBlock;
    Lookup(old(Slots(o.dir)), o.name);
    FileRuns.ReadyTellable(o.f);
    NormalIsFile(o.f, old(TableMap(Slots(o.dir))[o.name]), o.mode);
  }

  lemma NormalIsFile(f: SdFile, e: Entry, mode: OpenMode)
    requires f.kind == (if IsFile(e) then Normal else SubDir) == Normal
    ensures IsFile(e)
  {
  }

  twostate lemma NewFacts(o: Finding)
    requires OpenedNew(o.f, o.dir, o.name, o.mode) && o.f.vol == o.dir.vol && o.f.vol.Valid()
    ensures FileRuns.Tellable(o.f) && o.f.EntryOnDisk() && OpenedFlags(o.f, o.mode)
    ensures o.f.curPosition == 0 && o.f.fileSize == 0 && Attributes(o.f.DiskEntry()) == 0
  {
    hide SdVolume.Valid, DirHandle, Layout.WellFormed, Layout.ExtentOk, Layout.BlockCount, Attributes, Size, EntryAt;
    hide SdFile.Ready, TableMap, FirstCluster, SlotBlock, Table;
    FileRuns.ReadyTellable(o.f);
  }

  // ---------------------------------------------------------------- making directories

  /** Whether an entry and a directory can be made can be seen from the plain directory. */
  ghost predicate MakeKnown(dir: SdFile, chains: map<Id, seq<nat>>, p: PlainDir, name: seq<byte>)
    requires HasSlots(dir)
    reads dir, dir.vol, dir.vol.cache
  {
    var lay, root16, w := dir.vol.lay, dir.kind == Root16Dir, WorldNow(dir, chains);
    && (OpenRefused(dir, name, NEW_FILE) <==> name in p.items || NoRoom(lay, root16, w))
    && (RoomForDir(dir) <==> ClusterLeft(lay, root16, w))
    && (forall size :: RoomForRun(dir, ClustersFor(lay, size)) <==> ClustersLeft(lay, root16, w, size))
  }

  lemma MakeDecided(k: Desk, chains: map<Id, seq<nat>>, open: map<nat, seq<byte>>, p: PlainDir, str: seq<byte>,
                    illegal: set<byte>)
    requires InOrder(k, chains, open, p) && NameFree(str, illegal, open)
    ensures Pool(k) && HasSlots(k.dir) && Directory in chains && p.handles.Keys == open.Keys
    ensures MakeKnown(k.dir, chains, p, Encode(str))
  {
    hide SdVolume.Valid, DirHandle, Sound, Healthy, Listed, EntryItem, IsFile, ReadOnly, TableMap, Full, NoRoom;
    hide RunLeft;
    hide TableOf, Encode, Base, Extension, Shows, ClosedShown, NamesShown, Slots, Allocation.FreeClusters;
    NamedIsShown(k, chains, open, p, str, illegal);
    NewRefused(k.dir, Encode(str));
  }

  lemma NewRefused(dir: SdFile, name: seq<byte>)
    requires HasSlots(dir)
    ensures OpenRefused(dir, name, NEW_FILE) <==> name in TableMap(Slots(dir)) || Full(dir)
  {
    hide TableMap, Full;
  }

  /** The item that makeDir leaves under a new name. */
  function MadeItem(ok: bool): Item {
    if ok then SubDirectory else FileItem(false, EMPTY_FILE)
  }

  lemma MakeAnswered(lay: Layout, root16: bool, w: World, p: PlainDir, i: nat, str: seq<byte>,
                     illegal: set<byte>, ok: bool, moved: bool)
    requires IsName83(str, illegal) && (moved <==> !(Encode(str) in p.items || NoRoom(lay, root16, w)))
    requires ok <==> moved && ClusterLeft(lay, root16, w)
    ensures var p' := if moved then p.(items := p.items[Encode(str) := MadeItem(ok)]) else p;
      Answered(lay, root16, w, p, p', MakeName(i, str), ok, [], illegal)
  {
    hide Encode, Base, Extension, NoRoom, ClusterLeft;
  }

  /** The entry that was made shows the item. */
  lemma MadeShows(f: SdFile, e: Entry, ok: bool, lay: Layout, d: seq<Block>)
    requires MadeEntry(f, e, ok) && Keeps(e)
    ensures EntryItem(lay, d, e, f.chain) == MadeItem(ok)
  {
    hide Layout.WellFormed, Capacity;
    AttributeBits();
  }

  lemma AttributeBits()
    ensures HasBit(ATT_DIRECTORY, ATT_DIRECTORY) && !HasBit(0, ATT_READ_ONLY)
  {
  }

  ghost function MadeDir(x: Turn, p: PlainDir, ok: bool, moved: bool): PlainDir {
    if moved then p.(items := p.items[x.name := MadeItem(ok)]) else p
  }

  twostate lemma MakeSettled(a: Answer)
    requires a.r.MakeName? && a.r.i == a.x.i && IsName83(a.r.str, a.illegal) && a.data == []
    requires a.p' == MadeDir(a.x, a.p, a.ok, a.moved) && a.p.handles.Keys == a.x.open.Keys
    requires a.x.left == [] && a.x.k.dir.kind == old(a.x.k.dir.kind)
    requires a.x.open' == a.x.open && a.x.i !in a.x.open
    requires a.x.k.dir.vol.cache.card.faults == old(a.x.k.dir.vol.cache.card.faults)
    requires Pool(a.x.k) && old(HasSlots(a.x.k.dir)) && Directory in a.x.chains
    requires old(MakeKnown(a.x.k.dir, a.x.chains, a.p, Encode(a.r.str)))
    requires old(StandsFor(a.x.k, a.x.chains, a.x.open, a.p)) && old(Orderly(a.x.k, a.x.chains, a.x.open))
    requires MakeOutcome(a.x, Encode(a.r.str), a.ok, a.moved)
    requires Turned(a.x, a.moved)
    ensures Settles(a)
  {
    hide SdVolume.Valid, Orderly, StandsFor, Turned, OpenRefused, Encode, Base, Extension, Answered, TableMap, NoRoom;
    hide OnlyThat, TurnDone, MadeEntry, EntryItem, SlotOf, SameElse, RoomForDir, RoomForRun, ClusterLeft, ClustersLeft;
    hide DirHandle;
    var x, dir := a.x, a.x.k.dir;
    if a.moved {
      TurnedRight(x);
      MadeShows(x.k.files[x.i], Slots(dir)[SlotOf(Slots(dir), x.name)], a.ok, dir.vol.lay, dir.vol.disk);
      OnlyItem(x, a.p, a.p', x.name);
      EntryShown(Shown(x, a.p, a.p'));
    } else {
      RefusalShown(Shown(x, a.p, a.p));
    }
    MakeAnswered(dir.vol.lay, dir.kind == Root16Dir, old(WorldNow(dir, x.chains)), a.p, x.i, a.r.str,
                 a.illegal, a.ok, a.moved);
  }

  /** makeDir through the closed handle `i`. */
  method Make(k: Desk, ghost chains: map<Id, seq<nat>>, open: map<nat, seq<byte>>, ghost p: PlainDir, i: nat,
              str: seq<byte>, illegal: set<byte>)
    returns (ok: bool, ghost m: Move)
    requires i < |k.files| && i !in open && InOrder(k, chains, open, p) && NameFree(str, illegal, open) && Room(k.dir)
    modifies k.files[i]
    modifies k.dir`curCluster, k.dir`curPosition, k.dir`firstCluster, k.dir`flags, k.dir`chain, k.dir`fileSize
    modifies k.dir.vol, k.dir.vol.cache, k.dir.vol.cache.card, k.dir.vol.cache.buffer
    ensures Starts(m, chains, open, p, MakeName(i, str), illegal) && Ends(m, open, ok, [])
    ensures Moved(k, m)
  {
    hide SdVolume.Valid, Orderly, StandsFor, OnlyThat, TurnDone, Next, FatalRequest, DirHandle, Sound, TableMap;
    hide SlotOf, Moved, Turned, OpenRefused, Encode, Base, Extension, Slots, NoRoom, Answered, MadeDir;
    hide MoveOf, Starts, Ends, MakeOutcome, MakeKnown, Room, HasSlots;
    MakeDecided(k, chains, open, p, str, illegal);
    ghost var x, moved;
    ok, x, moved := MakeSubDir(k, chains, open, i, str, illegal);
    ghost var p' := MadeDir(x, p, ok, moved);
    ghost var a := Answer(x, moved, p, p', MakeName(i, str), ok, [], illegal);
    if k.dir.vol.cache.card.faults == old(k.dir.vol.cache.card.faults) {
      MakeSettled(a);
    }
    AnswerMoves(a);
    m := MoveOf(x, moved, p, p', MakeName(i, str), ok, [], illegal);
  }

  // ---------------------------------------------------------------- contiguous files

  lemma CreateAnswered(lay: Layout, root16: bool, w: World, p: PlainDir, i: nat, str: seq<byte>, size: nat,
                       illegal: set<byte>, ok: bool, moved: bool, a: FileRuns.PlainFile)
    requires IsName83(str, illegal)
    requires moved <==> size > 0 && !(Encode(str) in p.items || NoRoom(lay, root16, w))
    requires ok <==> moved && ClustersLeft(lay, root16, w, size)
    requires ok ==> |a.bytes| == a.size == size && a.pos == 0
    ensures var name := Encode(str);
      var p' :=
        if ok then PlainDir(p.items[name := FileItem(false, a)], p.handles[i := HandleFor(name, NEW_FILE)]) else p;
      Answered(lay, root16, w, p, p', CreateName(i, str, size), ok, [], illegal)
  {
    hide Encode, Base, Extension, NoRoom, ClustersLeft;
  }

  ghost function CreatedDir(x: Turn, p: PlainDir, ok: bool): PlainDir
    reads x.k.files, set f | f in x.k.files :: f.vol
  {
    if ok && x.i < |x.k.files| && FileRuns.Tellable(x.k.files[x.i]) then
      PlainDir(p.items[x.name := FileItem(false, FileRuns.Plain(x.k.files[x.i]))],
               p.handles[x.i := HandleFor(x.name, NEW_FILE)])
    else p
  }

  /** The handle that an operation has left open. */
  twostate lemma TurnHandle(x: Turn)
    requires Turned(x, true) && x.k.dir.vol.cache.card.faults == old(x.k.dir.vol.cache.card.faults)
    requires x.ending.Kept? && x.i in x.open'
    ensures x.i < |x.k.files| && x.k.files[x.i].vol == x.k.dir.vol && FileRuns.Tellable(x.k.files[x.i])
  {
    hide SdVolume.Valid, DirHandle, Sound, Next, Charted, ClosedFit, HandlesFit, FramedAt, OnlySlot, ClosedFits, Listed;
    hide SdFile.Ready, InSlot, FileRuns.Tellable, IsFile, SlotOf;
    FileRuns.ReadyTellable(x.k.files[x.i]);
  }

  twostate lemma CreateSettled(a: Answer)
    requires a.r.CreateName? && a.r.i == a.x.i && IsName83(a.r.str, a.illegal) && a.data == []
    requires a.p' == CreatedDir(a.x, a.p, a.ok) && a.p.handles.Keys == a.x.open.Keys
    requires a.x.left == [] && a.x.k.dir.kind == old(a.x.k.dir.kind) && a.x.i !in a.x.open
    requires a.x.open' == if a.ok then a.x.open[a.x.i := Encode(a.r.str)] else a.x.open
    requires a.x.k.dir.vol.cache.card.faults == old(a.x.k.dir.vol.cache.card.faults)
    requires Pool(a.x.k) && old(HasSlots(a.x.k.dir)) && Directory in a.x.chains
    requires old(MakeKnown(a.x.k.dir, a.x.chains, a.p, Encode(a.r.str)))
    requires old(StandsFor(a.x.k, a.x.chains, a.x.open, a.p)) && old(Orderly(a.x.k, a.x.chains, a.x.open))
    requires CreateOutcome(a.x, Encode(a.r.str), a.r.size, a.ok, a.moved)
    requires Turned(a.x, a.moved)
    ensures Settles(a)
  {
    hide SdVolume.Valid, Orderly, StandsFor, Turned, OpenRefused, Encode, Base, Extension, Answered, TableMap, NoRoom;
    hide OnlyThat, TurnDone, SlotOf, SameElse, RoomForDir, RoomForRun, ClusterLeft, ClustersLeft, Shows, NewRun;
    hide DirHandle, FileRuns.Tellable, FileRuns.Plain;
    var x, dir := a.x, a.x.k.dir;
    var plain := EMPTY_FILE;
    if a.ok {
      CreatedIsShown(a);
      plain := FileRuns.Plain(x.k.files[x.i]);
    } else if a.moved {
      TurnedRight(x);
      OnlyItem(x, a.p, a.p', x.name);
      LossShown(Shown(x, a.p, a.p'));
    } else {
      RefusalShown(Shown(x, a.p, a.p));
    }
    CreateAnswered(dir.vol.lay, dir.kind == Root16Dir, old(WorldNow(dir, x.chains)), a.p, x.i, a.r.str,
                   a.r.size, a.illegal, a.ok, a.moved, plain);
  }

  twostate lemma CreatedIsShown(a: Answer)
    requires a.r.CreateName? && a.p' == CreatedDir(a.x, a.p, true) && a.p.handles.Keys == a.x.open.Keys
    requires a.x.i < |a.x.k.files| && a.x.ending.Kept? && a.x.open' == a.x.open[a.x.i := a.x.name]
    requires a.x.k.dir.vol.cache.card.faults == old(a.x.k.dir.vol.cache.card.faults)
    requires Pool(a.x.k) && old(HasSlots(a.x.k.dir)) && Directory in a.x.chains
    requires NewRun(a.x.k.files[a.x.i], a.r.size)
    requires old(StandsFor(a.x.k, a.x.chains, a.x.open, a.p)) && old(Orderly(a.x.k, a.x.chains, a.x.open))
    requires Turned(a.x, true)
    ensures HasSlots(a.x.k.dir) && FileRuns.Tellable(a.x.k.files[a.x.i])
    ensures StandsFor(a.x.k, After(a.x.chains, TurnChange(a.x)), a.x.open', a.p')
    ensures var plain := FileRuns.Plain(a.x.k.files[a.x.i]);
      |plain.bytes| == plain.size == a.r.size && plain.pos == 0
  {
    hide SdVolume.Valid, Orderly, StandsFor, Turned, Encode, Base, Extension, Answered, TableMap, NoRoom;
    hide OnlyThat, TurnDone, SlotOf, SameElse, Shows, DirHandle, FileRuns.Tellable, FileRuns.Plain, EntryAt, Attributes;
    var x := a.x;
    TurnedRight(x);
    TurnHandle(x);
    NewShows(x.k.files[x.i], x.name, NEW_FILE);
    OnlyItem(x, a.p, a.p', x.name);
    HandleShown(Shown(x, a.p, a.p'));
  }

  /** createContiguous through the closed handle `i`. */
  method Create(k: Desk, ghost chains: map<Id, seq<nat>>, open: map<nat, seq<byte>>, ghost p: PlainDir, i: nat,
                str: seq<byte>, size: nat, illegal: set<byte>)
    returns (ok: bool, open': map<nat, seq<byte>>, ghost m: Move)
    requires i < |k.files| && i !in open && InOrder(k, chains, open, p) && NameFree(str, illegal, open) && Room(k.dir)
    requires size < SIZE_LIMIT
    modifies k.files[i]
    modifies k.dir`curCluster, k.dir`curPosition, k.dir`firstCluster, k.dir`flags, k.dir`chain, k.dir`fileSize
    modifies k.dir.vol, k.dir.vol.cache, k.dir.vol.cache.card, k.dir.vol.cache.buffer
    ensures Starts(m, chains, open, p, CreateName(i, str, size), illegal) && Ends(m, open', ok, [])
    ensures Moved(k, m)
  {
    hide SdVolume.Valid, Orderly, StandsFor, OnlyThat, TurnDone, Next, FatalRequest, DirHandle, Sound, TableMap;
    hide SlotOf, Moved, Turned, OpenRefused, Encode, Base, Extension, Slots, NoRoom, Answered, CreatedDir;
    hide MoveOf, Starts, Ends, CreateOutcome, MakeKnown, Room, HasSlots;
    MakeDecided(k, chains, open, p, str, illegal);
    ghost var x, moved;
    ok, open', x, moved := CreateContiguousFile(k, chains, open, i, str, illegal, size);
    ghost var p' := CreatedDir(x, p, ok);
    ghost var a := Answer(x, moved, p, p', CreateName(i, str, size), ok, [], illegal);
    if k.dir.vol.cache.card.faults == old(k.dir.vol.cache.card.faults) {
      CreateSettled(a);
    }
    AnswerMoves(a);
    m := MoveOf(x, moved, p, p', CreateName(i, str, size), ok, [], illegal);
  }
}
