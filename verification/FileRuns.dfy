/** Runs of commands on several open files, against plain byte sequences. */
module FileRuns {
  import opened Bytes
  import opened VolumeLayout
  import opened Chains
  import opened FileData
  import opened DirEntry
  import opened Volume
  import opened File
  import opened Filing
  import opened Frames
  import opened FatRuns

  // ---------------------------------------------------------------- the plain file

  /**
   * A file as a byte sequence. After a write that filled the disk the position may lie behind
   * the size; the bytes up to the position are part of the file's state then.
   */
  datatype PlainFile = PlainFile(bytes: seq<byte>, size: nat, pos: nat)

  datatype Command = Write(src: seq<byte>) | Read(n: nat) | Seek(pos: nat) | Truncate(length: nat) | Sync

  /** `src` stored from `from` on. */
  function Stored(a: PlainFile, from: nat, src: seq<byte>): seq<byte>
    requires from <= |a.bytes| && a.size <= |a.bytes|
  {
    a.bytes[..from] + src + (if from + |src| > a.size then [] else a.bytes[from + |src|..a.size])
  }

  /**
   * What a command does to the byte sequence. `space` is what the file can grow to: a write that does
   * not fit stores as many bytes as do, without the size.
   */
  ghost predicate PlainStep(a: PlainFile, a': PlainFile, flags: Flags, c: Command, ok: bool, data: seq<byte>,
                            space: nat)
    requires a.size <= |a.bytes| && a.pos <= |a.bytes|
  {
    match c
    case Write(src) =>
      if !flags.write then !ok && a' == a
      else
        var from := if flags.append then a.size else a.pos;
        && (ok <==> from + |src| <= space) && from <= a'.pos <= from + |src|
        && a'.pos == (if ok then from + |src| else space)
        && a'.bytes == Stored(a, from, src[..a'.pos - from])
        && a'.size == (if ok && a'.pos > a.size then a'.pos else a.size)
    case Read(n) =>
      if !flags.read || a.pos > a.size then !ok && data == [] && a' == a
      else
        && ok && data == (if a.pos + n > a.size then a.bytes[a.pos..a.size] else a.bytes[a.pos..a.pos + n])
        && a' == a.(pos := a.pos + |data|)
    case Seek(pos) => if pos <= a.size then ok && a' == PlainFile(a.bytes[..a.size], a.size, pos) else !ok && a' == a
    case Truncate(length) =>
      if !flags.write || length > a.size then !ok && a' == a
      else if a.size == 0 then ok && a' == a
      else ok && a' == PlainFile(a.bytes[..length], length, if a.pos > length then length else a.pos)
    case Sync => ok && a' == a
  }

  // ---------------------------------------------------------------- the open file stands for one

  ghost function Held(f: SdFile): nat
    reads f
  {
    if f.curPosition > f.fileSize then f.curPosition else f.fileSize
  }

  ghost predicate Tellable(f: SdFile)
    reads f, f.vol
  {
    f.WellPlaced(f.vol.disk, f.chain, Held(f), f.fileSize)
  }

  /** The byte sequence that an open file stands for. */
  ghost function Plain(f: SdFile): (a: PlainFile)
    requires Tellable(f)
    reads f, f.vol
    ensures a.size <= |a.bytes| && a.pos <= |a.bytes|
  {
    PlainFile(Content(f.vol.lay, f.vol.disk, Clusters(f.chain), Held(f)), f.fileSize, f.curPosition)
  }

  /** What it can grow to. */
  ghost function SpaceOf(f: SdFile): nat
    reads f, f.vol
  {
    Space(f.vol.lay, f.vol.fat, f.chain)
  }

  lemma ReadyTellable(f: SdFile)
    requires f.vol.Valid() && f.Ready() && f.kind == Normal
    ensures Tellable(f)
  {
    f.PlaceOk();
    f.vol.Facts();
    CursorInCapacity(f.vol.lay, f.chain, f.curPosition, f.curCluster);
  }

  /** A shorter content is a prefix. */
  lemma ContentPrefix(lay: Layout, d: seq<Block>, e: Extent, n: nat, m: nat)
    requires lay.WellFormed(|d|) && lay.ExtentOk(e) && n <= m <= Capacity(lay, e)
    ensures Content(lay, d, e, m)[..n] == Content(lay, d, e, n)
  {
  }

  /** A command that the handle's 16- and 32-bit fields can express. */
  predicate Enabled(f: SdFile, c: Command)
    reads f
  {
    match c
    case Write(src) => |src| < 0x1_0000 && f.WriteStart() + |src| < SIZE_LIMIT
    case Read(n) => n <= 32767 && f.curPosition <= f.fileSize
    case _ => true
  }

  /** Nothing but this file's clusters, free clusters and its directory entry is touched. */
  twostate predicate Touches(f: SdFile)
    reads f, f.vol
  {
    && f.dirBlock == old(f.dirBlock) && f.dirIndex == old(f.dirIndex) && f.kind == old(f.kind)
    && f.flags == old(f.flags).(dirDirty := f.flags.dirDirty)
    && Confined(old(f.vol.fat), f.vol.fat, old(f.chain))
    && (forall c :: c in f.chain ==> c in old(f.chain) || (c < |old(f.vol.fat)| && old(f.vol.fat)[c] == 0))
    && SameButEntry(f.vol.lay, old(f.vol.disk), f.vol.disk, f.chain, f.dirBlock, f.dirIndex) && f.SameName()
  }

  /**
   * The command is a write that finds the cache misused, or that stores a dirty cached block directly:
   * from then on nothing can be flushed any more. `cur` is the position, `from` where the write begins.
   */
  ghost predicate FatalFor(lay: Layout, chain: seq<nat>, cache: CacheState, mode: Flags, cur: nat, from: nat,
                           c: Command)
  {
    c.Write? && mode.write && lay.blocksPerCluster > 0 && WriteDooms(lay, chain, cache, cur, from, |c.src|)
  }

  ghost predicate Fatal(f: SdFile, c: Command)
    reads f, f.vol.cache
  {
    FatalFor(f.vol.lay, f.chain, f.vol.CacheNow(), Mode(f), f.curPosition, f.WriteStart(), c)
  }

  /** Unless the card fails, the cache is misused afterwards exactly if it was before or the command is fatal. */
  twostate predicate FatalOutcome(f: SdFile, new c: Command)
    reads f, f.vol, f.vol.cache, f.vol.cache.card
  {
    && (f.vol.cache.misused ==> old(f.vol.cache.misused || Fatal(f, c)))
    && (old(Fatal(f, c)) ==> f.vol.cache.misused || f.vol.cache.card.faults > old(f.vol.cache.card.faults))
  }

  /** No cluster has got lost: what the file has given up is free, and no other entry has changed. */
  twostate predicate NoStray(f: SdFile)
    reads f, f.vol
  {
    Exact(old(f.vol.fat), f.vol.fat, old(f.chain), f.chain)
  }

  method DoWrite(f: SdFile, src: seq<byte>) returns (ok: bool)
    requires f.vol.Valid() && f.Ready() && f.kind == Normal && Enabled(f, Write(src)) && Tellable(f)
    modifies f`curCluster, f`curPosition, f`fileSize, f`firstCluster, f`flags, f`chain
    modifies f.vol, f.vol.cache, f.vol.cache.card, f.vol.cache.buffer
    ensures f.vol.Valid() && Touches(f)
    ensures f.vol.cache.card.faults == old(f.vol.cache.card.faults) ==>
      && f.Ready() && Tellable(f)
      && PlainStep(old(Plain(f)), Plain(f), old(f.flags), Write(src), ok, [], old(SpaceOf(f)))
    ensures f.vol.cache.card.faults == old(f.vol.cache.card.faults) ==> NoStray(f)
    ensures ok ==> f.vol.cache.card.faults == old(f.vol.cache.card.faults)
    ensures FatalOutcome(f, Write(src))
  {
    hide SdVolume.Valid, Layout.WellFormed, Layout.ExtentOk, Capacity, Content, FileChain, SameButEntry;
    hide Owned, UsedBlock, EntryAt, FirstCluster, Size, SdFile.Positioned, Confined, WriteDooms;
    if f.flags.write {
      ok := WriteStep(f, src);
    } else {
      NothingTouched(f);
      ok := f.Write(src);
    }
  }

  method WriteStep(f: SdFile, src: seq<byte>) returns (ok: bool)
    requires f.vol.Valid() && f.Ready() && f.Writable() && Enabled(f, Write(src)) && Tellable(f)
    modifies f`curCluster, f`curPosition, f`fileSize, f`firstCluster, f`flags, f`chain
    modifies f.vol, f.vol.cache, f.vol.cache.card, f.vol.cache.buffer
    ensures f.vol.Valid() && Touches(f)
    ensures f.vol.cache.card.faults == old(f.vol.cache.card.faults) ==>
      && f.Ready() && Tellable(f)
      && PlainStep(old(Plain(f)), Plain(f), old(f.flags), Write(src), ok, [], old(SpaceOf(f)))
    ensures f.vol.cache.card.faults == old(f.vol.cache.card.faults) ==> NoStray(f)
    ensures ok ==> f.vol.cache.card.faults == old(f.vol.cache.card.faults)
    ensures FatalOutcome(f, Write(src))
  {
    hide SdVolume.Valid, Layout.WellFormed, Layout.ExtentOk, Capacity, Content, FileChain, SameButEntry;
    hide SdFile.EntryPlaced, SdFile.EntryAgrees, SdFile.Positioned, Spliced, ChainOrEmpty, Confined, SdFile.SameName;
    hide WriteDooms, SdFile.Written, Stored;
    ghost var d, fat0, chain0, from, held := f.vol.disk, f.vol.fat, f.chain, f.WriteStart(), Held(f);
    ghost var a := Plain(f);
    ok := f.Write(src);
    if f.vol.cache.card.faults == old(f.vol.cache.card.faults) {
      ghost var n := f.curPosition - from;
      if ok {
        assert src[..n] == src;
        WrittenIsStored(f.vol.lay, d, chain0, held, a, from, src);
      } else {
        SplicedIsStored(f.vol.lay, d, chain0, held, a, f.vol.disk, f.chain, from, src, n);
      }
      ReadyTellable(f);
      GrowthExact(fat0, f.vol.fat, chain0, f.chain);
    }
  }

  lemma WrittenIsStored(lay: Layout, d: seq<Block>, chain: seq<nat>, held: nat, a: PlainFile, from: nat, src: seq<byte>)
    requires lay.WellFormed(|d|) && lay.ExtentOk(Clusters(chain)) && held <= Capacity(lay, Clusters(chain))
    requires from <= held && a.size <= held && a.bytes == Content(lay, d, Clusters(chain), held)
    ensures SdFile.Written(lay, d, chain, a.size, from, src) == Stored(a, from, src)
  {
    hide Content, Capacity, Layout.WellFormed, Layout.ExtentOk;
    ContentPrefix(lay, d, Clusters(chain), from, held);
    ContentPrefix(lay, d, Clusters(chain), a.size, held);
    Tail(a.bytes, from + |src|, a.size);
  }

  lemma SplicedIsStored(lay: Layout, d: seq<Block>, chain: seq<nat>, held: nat, a: PlainFile,
                        d': seq<Block>, chain': seq<nat>, from: nat, src: seq<byte>, n: nat)
    requires lay.WellFormed(|d|) && lay.ExtentOk(Clusters(chain)) && held <= Capacity(lay, Clusters(chain))
    requires from <= held && a.size <= held && a.bytes == Content(lay, d, Clusters(chain), held)
    requires lay.WellFormed(|d'|) && lay.ExtentOk(Clusters(chain'))
    requires Capacity(lay, Clusters(chain)) <= Capacity(lay, Clusters(chain'))
    requires n <= |src| && from + n <= Capacity(lay, Clusters(chain'))
    requires Spliced(lay, d, chain, d', chain', from, src, n, a.size)
    ensures Content(lay, d', Clusters(chain'), if from + n > a.size then from + n else a.size)
      == Stored(a, from, src[..n])
  {
    hide Capacity, Layout.WellFormed, Layout.ExtentOk, Spliced, Stored, SdFile.Written;
    SplicedPart(lay, d, chain, d', chain', from, src, n, a.size);
    SplicedContent(lay, d, chain, d', chain', from, src[..n], a.size);
    WrittenIsStored(lay, d, chain, held, a, from, src[..n]);
    assert SdFile.Written(lay, d, chain, a.size, from, src[..n])
        == Content(lay, d', Clusters(chain'), if from + n > a.size then from + n else a.size) by {
      Unfold(lay, d, chain, a.size, from, src[..n]);
    }
  }

  lemma Unfold(lay: Layout, d: seq<Block>, chain: seq<nat>, size: nat, from: nat, src: seq<byte>)
    requires lay.WellFormed(|d|) && lay.ExtentOk(Clusters(chain))
    requires from <= Capacity(lay, Clusters(chain)) && size <= Capacity(lay, Clusters(chain))
    ensures SdFile.Written(lay, d, chain, size, from, src)
         == Content(lay, d, Clusters(chain), from) + src
            + (if from + |src| > size then [] else Content(lay, d, Clusters(chain), size)[from + |src|..])
  {
  }

  lemma Tail(s: seq<byte>, i: nat, n: nat)
    requires n <= |s|
    ensures i <= n ==> s[i..n] == s[..n][i..]
  {
  }

  lemma SplicedPart(lay: Layout, d0: seq<Block>, chain0: seq<nat>, d: seq<Block>, chain: seq<nat>,
                    from: nat, src: seq<byte>, n: nat, size: nat)
    requires lay.WellFormed(|d0|) && lay.WellFormed(|d|)
    requires lay.ExtentOk(Clusters(chain0)) && lay.ExtentOk(Clusters(chain))
    requires from <= Capacity(lay, Clusters(chain0)) && size <= Capacity(lay, Clusters(chain0))
    requires Capacity(lay, Clusters(chain0)) <= Capacity(lay, Clusters(chain))
    requires n <= |src| && from + n <= Capacity(lay, Clusters(chain))
    requires Spliced(lay, d0, chain0, d, chain, from, src, n, size)
    ensures Spliced(lay, d0, chain0, d, chain, from, src[..n], n, size)
  {
  }

  lemma NothingTouched(f: SdFile)
    ensures Confined(f.vol.fat, f.vol.fat, f.chain) && Exact(f.vol.fat, f.vol.fat, f.chain, f.chain)
    ensures SameButEntry(f.vol.lay, f.vol.disk, f.vol.disk, f.chain, f.dirBlock, f.dirIndex)
  {
  }

  method DoRead(f: SdFile, n: nat) returns (ok: bool, data: seq<byte>)
    requires f.vol.Valid() && f.Ready() && f.kind == Normal && Enabled(f, Read(n)) && Tellable(f)
    modifies f`curCluster, f`curPosition, f.vol.cache, f.vol.cache.card, f.vol.cache.buffer
    ensures f.vol.Valid() && Touches(f)
    ensures f.vol.cache.misused == old(f.vol.cache.misused)
    ensures f.vol.cache.card.faults == old(f.vol.cache.card.faults) ==>
      && f.Ready() && Tellable(f)
      && PlainStep(old(Plain(f)), Plain(f), old(f.flags), Read(n), ok, data, old(SpaceOf(f)))
    ensures f.vol.cache.card.faults == old(f.vol.cache.card.faults) ==> NoStray(f)
    ensures ok ==> f.vol.cache.card.faults == old(f.vol.cache.card.faults)
  {
    hide SdVolume.Valid, Layout.WellFormed, Layout.ExtentOk, Capacity, Content, FileChain, SameButEntry;
    hide Owned, UsedBlock, EntryAt, FirstCluster, Size, Confined, CursorAt;
    NothingTouched(f);
    data := [];
    var buf := new byte[n];
    var r := f.Read(buf, n);
    ok := r >= 0;
    if ok {
      data := buf[..r];
    }
  }

  method DoSeek(f: SdFile, pos: nat) returns (ok: bool)
    requires f.vol.Valid() && f.Ready() && f.kind == Normal && Tellable(f)
    modifies f`curCluster, f`curPosition, f.vol.cache, f.vol.cache.card, f.vol.cache.buffer
    ensures f.vol.Valid() && Touches(f)
    ensures f.vol.cache.misused == old(f.vol.cache.misused)
    ensures f.vol.cache.card.faults == old(f.vol.cache.card.faults) ==>
      && f.Ready() && Tellable(f)
      && PlainStep(old(Plain(f)), Plain(f), old(f.flags), Seek(pos), ok, [], old(SpaceOf(f)))
    ensures f.vol.cache.card.faults == old(f.vol.cache.card.faults) ==> NoStray(f)
    ensures ok ==> f.vol.cache.card.faults == old(f.vol.cache.card.faults)
  {
    hide SdVolume.Valid, Layout.WellFormed, Layout.ExtentOk, Capacity, Content, FileChain, SameButEntry;
    hide Owned, UsedBlock, EntryAt, FirstCluster, Size, Confined, CursorAt;
    NothingTouched(f);
    ContentPrefix(f.vol.lay, f.vol.disk, Clusters(f.chain), f.fileSize, Held(f));
    ok := f.SeekSet(pos);
  }

  method DoTruncate(f: SdFile, length: nat) returns (ok: bool)
    requires f.vol.Valid() && f.Ready() && f.kind == Normal && Tellable(f)
    modifies f`curCluster, f`curPosition, f`fileSize, f`firstCluster, f`flags, f`chain
    modifies f.vol, f.vol.cache, f.vol.cache.card, f.vol.cache.buffer
    ensures f.vol.Valid() && Touches(f)
    ensures f.vol.cache.misused == old(f.vol.cache.misused)
    ensures f.vol.cache.card.faults == old(f.vol.cache.card.faults) ==>
      && f.Ready() && Tellable(f)
      && PlainStep(old(Plain(f)), Plain(f), old(f.flags), Truncate(length), ok, [], old(SpaceOf(f)))
    ensures f.vol.cache.card.faults == old(f.vol.cache.card.faults) ==> NoStray(f)
    ensures ok ==> f.vol.cache.card.faults == old(f.vol.cache.card.faults)
  {
    hide SdVolume.Valid, Layout.WellFormed, Layout.ExtentOk, Capacity, Content, FileChain, SameButEntry, Owned;
    hide UsedBlock, EntryAt, FirstCluster, Size, SdFile.Positioned, Confined, Step, CutFat, ClustersFor, Name;
    hide Attributes;
    NothingTouched(f);
    ghost var d, fat0, chain0 := f.vol.disk, f.vol.fat, f.chain;
    ContentPrefix(f.vol.lay, d, Clusters(chain0), f.fileSize, Held(f));
    ok := f.Truncate(length);
    PrefixMembers(f.chain, chain0);
    SameButEntryOwn(f.vol.lay, d, f.vol.disk, f.chain, f.dirBlock, f.dirIndex);
    if f.vol.cache.card.faults == old(f.vol.cache.card.faults) {
      ReadyTellable(f);
      if f.flags.write && 0 < old(f.fileSize) && length <= old(f.fileSize) {
        CutExact(f.vol.lay, fat0, chain0, ClustersFor(f.vol.lay, length));
      }
    }
  }

  method DoSync(f: SdFile) returns (ok: bool)
    requires f.vol.Valid() && f.Ready() && f.kind == Normal && Tellable(f)
    modifies f`flags, f.vol`disk, f.vol.cache, f.vol.cache.card, f.vol.cache.buffer
    ensures f.vol.Valid() && Touches(f)
    ensures f.vol.cache.misused == old(f.vol.cache.misused)
    ensures f.vol.cache.card.faults == old(f.vol.cache.card.faults) ==>
      f.Ready() && Tellable(f) && PlainStep(old(Plain(f)), Plain(f), old(f.flags), Sync, ok, [], old(SpaceOf(f)))
    ensures f.vol.cache.card.faults == old(f.vol.cache.card.faults) ==> NoStray(f)
    ensures ok ==> f.vol.cache.card.faults == old(f.vol.cache.card.faults)
  {
    hide SdVolume.Valid, Layout.WellFormed, Layout.ExtentOk, Capacity, Content, FileChain, SameButEntry;
    hide SdFile.EntryAgrees, SdFile.Positioned, Confined, Owned, UsedBlock;
    NothingTouched(f);
    ghost var d := f.vol.disk;
    ok := f.SyncReady();
    SameButEntryOwn(f.vol.lay, d, f.vol.disk, f.chain, f.dirBlock, f.dirIndex);
    if f.vol.cache.card.faults == old(f.vol.cache.card.faults) {
      ReadyTellable(f);
      OwnEntryKeepsBytes(f.vol.lay, d, f.vol.disk, f.dirBlock, f.dirIndex, f.chain, Held(f));
    }
  }

  // ---------------------------------------------------------------- several files

  /** Two open files share neither clusters nor their directory entry, and neither holds the other's entry. */
  ghost predicate Apart(f: SdFile, g: SdFile)
    reads f, g
  {
    && f != g && Disjoint(f.chain, g.chain)
    && !Owned(f.vol.lay, f.chain, g.dirBlock) && !Owned(f.vol.lay, g.chain, f.dirBlock)
    && (f.dirBlock, f.dirIndex) != (g.dirBlock, g.dirIndex)
  }

  /** An operation on one file leaves everything that belongs to another one as it is. */
  lemma OtherStays(lay: Layout, fat: seq<nat>, fat': seq<nat>, d: seq<Block>, d': seq<Block>,
                   own: seq<nat>, after: seq<nat>, block: nat, index: nat,
                   first: nat, chain: seq<nat>, n: nat, b: nat, i: nat)
    requires lay.WellFormed(|d|) && lay.ExtentOk(Clusters(chain)) && n <= Capacity(lay, Clusters(chain))
    requires Confined(fat, fat', own) && forall c :: c in after ==> c in own || (c < |fat| && fat[c] == 0)
    requires SameButEntry(lay, d, d', after, block, index)
    requires FileChain(lay, fat, first, chain) && Disjoint(own, chain) && !Owned(lay, chain, block)
    requires b < |d| && !lay.InFat(b) && i < ENTRIES_PER_BLOCK && UsedBlock(lay, fat, b) && !Owned(lay, own, b)
    requires (block, index) != (b, i)
    ensures FileChain(lay, fat', first, chain) && Disjoint(after, chain) && |d'| == |d|
    ensures UsedBlock(lay, fat', b) && !Owned(lay, after, b)
    ensures EntryAt(d'[b], i) == EntryAt(d[b], i)
    ensures Content(lay, d', Clusters(chain), n) == Content(lay, d, Clusters(chain), n)
  {
    StaysApart(lay, fat, first, chain, own, after);
    DisjointSwap(own, chain);
    ChainSurvives(lay, fat, fat', first, chain, own);
    SameLength(lay, d, d', after, block, index);
    OthersKeepTheirBytes(lay, d, d', after, block, index, Clusters(chain), n);
  }

  /** The file that a command is for, and another one. */
  datatype Pair = Pair(f: SdFile, g: SdFile)

  twostate lemma OtherFileStays(p: Pair)
    requires p.f.vol == p.g.vol && old(p.f.vol.Valid()) && p.f.vol.Valid() && old(Apart(p.f, p.g))
      && old(Apart(p.g, p.f))
    requires old(p.g.Ready() && Tellable(p.g)) && p.g.kind == Normal && SameHandle(p.g) && Touches(p.f)
    ensures p.g.Ready() && Apart(p.f, p.g) && Apart(p.g, p.f)
    ensures Tellable(p.g) && Plain(p.g) == old(Plain(p.g))
  {
    hide SdVolume.Valid, Layout.WellFormed, Layout.ExtentOk, Layout.InFat, Capacity, Content, FileChain, SameButEntry;
    hide Owned, UsedBlock, EntryAt, FirstCluster, Size, CursorAt, Confined;
    OtherStays(p.f.vol.lay, old(p.f.vol.fat), p.f.vol.fat, old(p.f.vol.disk), p.f.vol.disk, old(p.f.chain),
               p.f.chain, p.f.dirBlock, p.f.dirIndex,
               p.g.firstCluster, p.g.chain, Held(p.g), p.g.dirBlock, p.g.dirIndex);
  }

  /** How the file was opened. */
  ghost function Mode(f: SdFile): Flags
    reads f
  {
    f.flags.(dirDirty := false)
  }

  /** A set of open files on one volume. */
  ghost predicate Together(vol: SdVolume, files: seq<SdFile>)
    reads vol, vol.cache, vol.cache.card, vol.cache.buffer, files
  {
    && vol.Valid()
    && (forall i {:trigger files[i]} :: 0 <= i < |files| ==>
          files[i].vol == vol && files[i].kind == Normal && files[i].Ready() && Tellable(files[i]))
    && AllApart(files)
  }

  ghost predicate AllApart(files: seq<SdFile>)
    reads files
  {
    forall i, j {:trigger files[i], files[j]} :: 0 <= i < |files| && 0 <= j < |files| && i != j ==>
      Apart(files[i], files[j])
  }

  /** Whether the entry is behind its handle does not matter to the bytes. */
  lemma StepByMode(a: PlainFile, a': PlainFile, flags: Flags, c: Command, ok: bool, data: seq<byte>, space: nat)
    requires a.size <= |a.bytes| && a.pos <= |a.bytes| && PlainStep(a, a', flags, c, ok, data, space)
    ensures PlainStep(a, a', flags.(dirDirty := false), c, ok, data, space)
  {
  }

  /** One command on one file. */
  method Do(f: SdFile, c: Command) returns (ok: bool, data: seq<byte>)
    requires f.vol.Valid() && f.Ready() && f.kind == Normal && Enabled(f, c) && Tellable(f)
    modifies f`curCluster, f`curPosition, f`fileSize, f`firstCluster, f`flags, f`chain
    modifies f.vol, f.vol.cache, f.vol.cache.card, f.vol.cache.buffer
    ensures f.vol.Valid() && Touches(f)
    ensures f.vol.cache.card.faults == old(f.vol.cache.card.faults) ==>
      f.Ready() && Tellable(f) && PlainStep(old(Plain(f)), Plain(f), old(Mode(f)), c, ok, data, old(SpaceOf(f)))
    ensures f.vol.cache.card.faults == old(f.vol.cache.card.faults) ==> NoStray(f)
    ensures ok ==> f.vol.cache.card.faults == old(f.vol.cache.card.faults)
    ensures FatalOutcome(f, c)
  {
    hide SdVolume.Valid, SdFile.Ready, Tellable, Touches, PlainStep, Plain, WriteDooms, Space;
    data := [];
    ghost var a, flags := Plain(f), f.flags;
    match c {
      case Write(src) => ok := DoWrite(f, src);
      case Read(n) => ok, data := DoRead(f, n);
      case Seek(pos) => ok := DoSeek(f, pos);
      case Truncate(length) => ok := DoTruncate(f, length);
      case Sync => ok := DoSync(f);
    }
    if f.vol.cache.card.faults == old(f.vol.cache.card.faults) {
      StepByMode(a, Plain(f), flags, c, ok, data, old(SpaceOf(f)));
    }
  }

  /**
   * One command on one of several open files: it does to that file what it would do to a plain
   * byte sequence, and nothing to the others, even if it fails.
   */
  method Perform(vol: SdVolume, files: seq<SdFile>, i: nat, c: Command)
    returns (ok: bool, data: seq<byte>, ghost e: Change)
    requires Together(vol, files) && i < |files| && Enabled(files[i], c)
    modifies files[i], vol, vol.cache, vol.cache.card, vol.cache.buffer
    ensures vol.Valid() && AllApart(files)
    ensures forall j {:trigger files[j]} :: 0 <= j < |files| && j != i ==>
      files[j].Ready() && Tellable(files[j]) && Plain(files[j]) == old(Plain(files[j]))
    ensures Mode(files[i]) == old(Mode(files[i]))
    ensures vol.cache.card.faults == old(vol.cache.card.faults) ==>
      && Together(vol, files) && After(old(ChainsOf(files)), e) == ChainsOf(files)
      && PlainStep(old(Plain(files[i])), Plain(files[i]), old(Mode(files[i])), c, ok, data, old(SpaceOf(files[i])))
    ensures Next(vol.lay, old(WorldOf(vol, files)),
                 World(vol.fat, vol.disk, vol.CacheNow(), After(old(ChainsOf(files)), e)), e)
    ensures vol.cache.card.faults == old(vol.cache.card.faults) ==>
      Tight(old(WorldOf(vol, files)), World(vol.fat, vol.disk, vol.CacheNow(), After(old(ChainsOf(files)), e)), e, [])
    ensures FatalOutcome(files[i], c)
    ensures ok ==> vol.cache.card.faults == old(vol.cache.card.faults)
  {
    hide SdVolume.Valid, SdFile.Ready, Tellable, Touches, PlainStep, Plain, Disjoint, Owned, Next, SdFile.SameName;
    hide Space, NoStray, Tight, Healthy, ChainsOf, FatalOutcome;
    ghost var chains := ChainsOf(files);
    ok, data := Do(files[i], c);
    e := DeedChange(i, old(files[i].chain), files[i].chain, vol.cache.card.faults != old(vol.cache.card.faults));
    DeedNext(Deed(vol, files, i, vol.cache.card.faults != old(vol.cache.card.faults)));
    if vol.cache.card.faults == old(vol.cache.card.faults) {
      DeedChains(Deed(vol, files, i, false));
      DeedTight(Deed(vol, files, i, false));
    }
    forall j | 0 <= j < |files| && j != i
      ensures files[j].Ready() && Tellable(files[j]) && Plain(files[j]) == old(Plain(files[j]))
      ensures Apart(files[i], files[j]) && Apart(files[j], files[i])
    {
      OtherFileStays(Pair(files[i], files[j]));
    }
    ModeStays(files[i]);
  }

  /** The chains of the open files, by their numbers. */
  ghost function ChainsOf(files: seq<SdFile>): map<Id, seq<nat>>
    reads files
  {
    map i: nat | i < |files| :: Numbered(i) := files[i].chain
  }

  ghost function WorldOf(vol: SdVolume, files: seq<SdFile>): World
    reads vol, vol.cache, files
  {
    World(vol.fat, vol.disk, vol.CacheNow(), ChainsOf(files))
  }

  lemma StartsHealthy(vol: SdVolume, files: seq<SdFile>)
    requires Together(vol, files)
    ensures Healthy(vol.lay, WorldOf(vol, files))
  {
    hide SdVolume.Valid, Tellable;
    vol.Facts();
    forall i, j | i in ChainsOf(files) && j in ChainsOf(files) && i != j
      ensures Disjoint(ChainsOf(files)[i], ChainsOf(files)[j])
    {
      assert Apart(files[i.i], files[j.i]);
    }
  }

  /** A command on file `i`, which an I/O error may have broken off. */
  datatype Deed = Deed(vol: SdVolume, files: seq<SdFile>, i: nat, broken: bool)

  function DeedChange(i: nat, own: seq<nat>, after: seq<nat>, broken: bool): Change {
    if broken then Change(own, {Numbered(i)}, map[]) else Change(own, {}, map[Numbered(i) := after])
  }

  /** It is a step. */
  twostate lemma DeedNext(k: Deed)
    requires k.i < |k.files| && old(Together(k.vol, k.files)) && k.vol.Valid() && Touches(k.files[k.i])
    requires forall j :: 0 <= j < |k.files| && j != k.i ==> SameHandle(k.files[j])
    requires !k.broken ==> k.files[k.i].Ready()
    ensures var e := DeedChange(k.i, old(k.files[k.i].chain), k.files[k.i].chain, k.broken);
      Next(k.vol.lay, old(WorldOf(k.vol, k.files)),
           World(k.vol.fat, k.vol.disk, k.vol.CacheNow(), After(old(ChainsOf(k.files)), e)), e)
  {
    hide SdVolume.Valid, SdFile.SameName, Tellable, SameButEntry, Confined, Taken, SdFile.Ready, Next, ChainOrEmpty;
    hide SameBlocks, Disjoint, Apart;
    var f, lay := k.files[k.i], k.vol.lay;
    SameLength(lay, old(k.vol.disk), k.vol.disk, f.chain, f.dirBlock, f.dirIndex);
    if !k.broken {
      LinkedChain(f);
    }
    forall j: nat | j < |k.files| && j != k.i
      ensures Disjoint(old(f.chain), old(k.files[j].chain))
      ensures SameBlocks(lay, old(k.vol.disk), k.vol.disk, old(k.files[j].chain))
    {
      assert old(Apart(f, k.files[j]));
      Spares(Pair(f, k.files[j]));
    }
    TouchedTaken(f);
    OneNext(lay, old(WorldOf(k.vol, k.files)), k.vol.fat, k.vol.disk, k.vol.CacheNow(), k.i, f.chain,
            k.broken);
  }

  /** If it was not broken off, the chains are those of the files again. */
  twostate lemma DeedChains(k: Deed)
    requires k.i < |k.files| && !k.broken && forall j :: 0 <= j < |k.files| && j != k.i ==> SameHandle(k.files[j])
    ensures After(old(ChainsOf(k.files)), DeedChange(k.i, old(k.files[k.i].chain), k.files[k.i].chain, false))
         == ChainsOf(k.files)
  {
  }

  twostate lemma TouchedTaken(f: SdFile)
    requires Touches(f)
    ensures Confined(old(f.vol.fat), f.vol.fat, old(f.chain)) && Taken(old(f.vol.fat), old(f.chain), f.chain)
  {
    hide Confined;
  }

  /** A step of one thing. */
  lemma OneNext(lay: Layout, w: World, fat': seq<nat>, disk': seq<Block>, cache': CacheState, i: nat,
                after: seq<nat>, broken: bool)
    requires Numbered(i) in w.chains && Confined(w.fat, fat', w.chains[Numbered(i)]) && |disk'| == |w.disk|
    requires !broken ==> ChainOrEmpty(lay, fat', after) && Taken(w.fat, w.chains[Numbered(i)], after)
    requires forall id :: id in w.chains && id != Numbered(i) ==>
      Disjoint(w.chains[Numbered(i)], w.chains[id]) && SameBlocks(lay, w.disk, disk', w.chains[id])
    ensures var e := DeedChange(i, w.chains[Numbered(i)], after, broken);
      Next(lay, w, World(fat', disk', cache', After(w.chains, e)), e)
  {
  }

  /** It is tight if no cluster has got lost. */
  lemma OneTight(lay: Layout, w: World, fat': seq<nat>, disk': seq<Block>, cache': CacheState, i: nat,
                 after: seq<nat>)
    requires Numbered(i) in w.chains && Exact(w.fat, fat', w.chains[Numbered(i)], after)
    ensures var e := DeedChange(i, w.chains[Numbered(i)], after, false);
      Tight(w, World(fat', disk', cache', After(w.chains, e)), e, [])
  {
    var e := DeedChange(i, w.chains[Numbered(i)], after, false);
    assert e.after[Numbered(i)] == after && Affects(e, Numbered(i));
  }

  twostate lemma DeedTight(k: Deed)
    requires k.i < |k.files| && k.files[k.i].vol == k.vol && NoStray(k.files[k.i])
    ensures var e := DeedChange(k.i, old(k.files[k.i].chain), k.files[k.i].chain, false);
      Tight(old(WorldOf(k.vol, k.files)),
            World(k.vol.fat, k.vol.disk, k.vol.CacheNow(), After(old(ChainsOf(k.files)), e)), e, [])
  {
    OneTight(k.vol.lay, old(WorldOf(k.vol, k.files)), k.vol.fat, k.vol.disk, k.vol.CacheNow(), k.i, k.files[k.i].chain);
  }

  lemma LinkedChain(f: SdFile)
    requires f.Ready()
    ensures ChainOrEmpty(f.vol.lay, f.vol.fat, f.chain)
  {
  }

  twostate lemma Spares(p: Pair)
    requires p.f.vol == p.g.vol && p.f.vol.Valid() && old(Apart(p.f, p.g)) && old(p.g.Ready()) && Touches(p.f)
    ensures Disjoint(old(p.f.chain), old(p.g.chain))
    ensures SameBlocks(p.f.vol.lay, old(p.f.vol.disk), p.f.vol.disk, old(p.g.chain))
  {
    hide SdVolume.Valid, SdFile.SameName, SameButEntry, Confined, SdFile.Positioned, FileChain, SameBlocks;
    hide Layout.WellFormed, SdFile.EntryPlaced, SdFile.EntryAgrees, Capacity, Owned;
    p.f.vol.Facts();
    SameLength(p.f.vol.lay, old(p.f.vol.disk), p.f.vol.disk, p.f.chain, p.f.dirBlock, p.f.dirIndex);
    TouchSpares(p.f.vol.lay, old(p.f.vol.fat), old(p.f.vol.disk), p.f.vol.disk, old(p.f.chain), p.f.chain,
                p.f.dirBlock, p.f.dirIndex, old(p.g.firstCluster), old(p.g.chain));
  }

  lemma TouchSpares(lay: Layout, fat: seq<nat>, d: seq<Block>, d': seq<Block>, own: seq<nat>, after: seq<nat>,
                    block: nat, index: nat, first: nat, t: seq<nat>)
    requires lay.WellFormed(|d|) && SameButEntry(lay, d, d', after, block, index) && Taken(fat, own, after)
    requires FileChain(lay, fat, first, t) && Disjoint(own, t) && !Owned(lay, t, block)
    ensures SameBlocks(lay, d, d', t)
  {
    StaysApart(lay, fat, first, t, own, after);
    DisjointMembers(after, t);
  }

  twostate lemma ModeStays(f: SdFile)
    requires Touches(f)
    ensures Mode(f) == old(Mode(f)) && f.kind == old(f.kind)
  {
  }

  // ---------------------------------------------------------------- runs

  datatype Outcome = Skipped | Done(ok: bool, data: seq<byte>)

  /** The byte sequences that the open files stand for. */
  ghost function Plains(vol: SdVolume, files: seq<SdFile>): (s: seq<PlainFile>)
    requires Together(vol, files)
    reads vol, vol.cache, vol.cache.card, vol.cache.buffer, files
    ensures |s| == |files| && forall i {:trigger s[i]} :: 0 <= i < |s| ==> s[i] == Plain(files[i])
  {
    seq(|files|, i requires 0 <= i < |files| reads vol, vol.cache, vol.cache.card, vol.cache.buffer, files
                 requires Together(vol, files) => Plain(files[i]))
  }

  /** `Enabled`, seen from the plain file. */
  predicate Expressible(a: PlainFile, flags: Flags, c: Command) {
    match c
    case Write(src) => |src| < 0x1_0000 && (if flags.append then a.size else a.pos) + |src| < SIZE_LIMIT
    case Read(n) => n <= 32767 && a.pos <= a.size
    case _ => true
  }

  lemma EnabledExpressible(f: SdFile, c: Command)
    requires Tellable(f)
    ensures Enabled(f, c) <==> Expressible(Plain(f), Mode(f), c)
  {
  }

  /** What one command does to a set of plain files; one that cannot be expressed is skipped. */
  ghost predicate PlainsStep(w: seq<PlainFile>, w': seq<PlainFile>, modes: seq<Flags>, i: nat, c: Command, out: Outcome,
                             space: nat)
  {
    && i < |w| == |w'| == |modes| && w[i].size <= |w[i].bytes| && w[i].pos <= |w[i].bytes|
    && (out.Done? <==> Expressible(w[i], modes[i], c))
    && match out
    case Skipped => w' == w
    case Done(ok, data) =>
      && PlainStep(w[i], w'[i], modes[i], c, ok, data, space)
      && w' == w[i := w'[i]]
  }

  /** A run of plain files, beside the run of the volume that they are on. */
  ghost predicate PlainsRun(lay: Layout, trace: seq<seq<PlainFile>>, modes: seq<Flags>, s: seq<(nat, Command)>,
                            outs: seq<Outcome>, worlds: seq<World>)
  {
    && |trace| == |outs| + 1 <= |worlds| && |outs| <= |s|
    && forall t :: 0 <= t < |outs| ==>
         PlainsStep(trace[t], trace[t + 1], modes, s[t].0, s[t].1, outs[t],
                    SpaceFor(lay, worlds[t], Numbered(s[t].0)))
  }

  ghost function Modes(files: seq<SdFile>): (s: seq<Flags>)
    reads files
    ensures |s| == |files| && forall i {:trigger s[i]} :: 0 <= i < |s| ==> s[i] == Mode(files[i])
  {
    seq(|files|, i requires 0 <= i < |files| reads files => Mode(files[i]))
  }

  /** The command is fatal to file `i` in this state of a run. */
  ghost predicate FatalStep(lay: Layout, w: World, plains: seq<PlainFile>, modes: seq<Flags>, i: nat, c: Command) {
    && i < |plains| == |modes| && Numbered(i) in w.chains && Expressible(plains[i], modes[i], c)
    && FatalFor(lay, w.chains[Numbered(i)], w.cache, modes[i], plains[i].pos,
                if modes[i].append then plains[i].size else plains[i].pos, c)
  }

  lemma FatalInRun(vol: SdVolume, files: seq<SdFile>, i: nat, c: Command)
    requires Together(vol, files) && i < |files| && Enabled(files[i], c) && Fatal(files[i], c)
    ensures FatalStep(vol.lay, WorldOf(vol, files), Plains(vol, files), Modes(files), i, c)
  {
    hide SdVolume.Valid, SdFile.Ready, WriteDooms;
    EnabledExpressible(files[i], c);
  }

  lemma SpaceInRun(vol: SdVolume, files: seq<SdFile>, i: nat)
    requires i < |files| && files[i].vol == vol
    ensures SpaceFor(vol.lay, WorldOf(vol, files), Numbered(i)) == SpaceOf(files[i])
  {
  }

  /** The cache becomes misused by fatal commands only. */
  ghost predicate MisusedByFatal(lay: Layout, worlds: seq<World>, trace: seq<seq<PlainFile>>, modes: seq<Flags>,
                                 s: seq<(nat, Command)>)
  {
    forall t :: 0 <= t < |worlds| - 1 && t < |trace| && t < |s| && worlds[t + 1].cache.misused ==>
      worlds[t].cache.misused || FatalStep(lay, worlds[t], trace[t], modes, s[t].0, s[t].1)
  }

  /** None of the first `n` commands is fatal. */
  ghost predicate NoneFatal(lay: Layout, worlds: seq<World>, trace: seq<seq<PlainFile>>, modes: seq<Flags>,
                            s: seq<(nat, Command)>, n: nat)
  {
    forall t :: 0 <= t < n && t < |worlds| && t < |trace| && t < |s| ==>
      !FatalStep(lay, worlds[t], trace[t], modes, s[t].0, s[t].1)
  }

  /**
   * Any sequence of commands on any open files: they behave like independent byte sequences, and a
   * write fails only on a full disk, until a card access fails. With a sound cache and hardware that
   * works this happens only after a write that rewrites a dirty block. Each command is a step of
   * FatRuns, also the one broken off, which ends the run.
   */
  method Run(vol: SdVolume, files: seq<SdFile>, s: seq<(nat, Command)>)
    returns (outs: seq<Outcome>, ghost trace: seq<seq<PlainFile>>, ghost worlds: seq<World>, ghost changes: seq<Change>)
    requires Together(vol, files) && forall i :: 0 <= i < |s| ==> s[i].0 < |files|
    modifies files, vol, vol.cache, vol.cache.card, vol.cache.buffer
    ensures vol.Valid() && AllApart(files)
    ensures PlainsRun(vol.lay, trace, old(Modes(files)), s, outs, worlds) && trace[0] == old(Plains(vol, files))
    ensures IsRun(vol.lay, worlds, changes) && Healthy(vol.lay, worlds[0]) && worlds[0] == old(WorldOf(vol, files))
    ensures worlds[|changes|].fat == vol.fat && worlds[|changes|].disk == vol.disk
    ensures MisusedByFatal(vol.lay, worlds, trace, old(Modes(files)), s)
    ensures forall t :: 0 <= t <= |outs| ==> Orphans(worlds[t]) == Orphans(worlds[0])
    ensures vol.cache.card.faults == old(vol.cache.card.faults) ==>
      && |outs| == |s| == |changes| && Together(vol, files)
      && trace[|outs|] == Plains(vol, files) && worlds[|outs|] == WorldOf(vol, files)
    ensures vol.cache.card.faults != old(vol.cache.card.faults) ==> |outs| < |s| && |changes| == |outs| + 1
    ensures !old(vol.cache.misused) && vol.cache.card.hardware == old(vol.cache.card.hardware)
            && NoneFatal(vol.lay, worlds, trace, old(Modes(files)), s, |s|) ==>
      |outs| == |s|
  {
    hide SdVolume.Valid, SdFile.Ready, Tellable, PlainStep, Plain, AllApart, Mode, Next, Healthy, Space;
    hide FatalStep, NoneFatal, IsRun, PlainsStep, ChainsOf, Apart, Tight, Orphans;
    StartsHealthy(vol, files);
    outs, trace, worlds, changes := [], [Plains(vol, files)], [WorldOf(vol, files)], [];
    NoRunYet(vol.lay, worlds[0]);
    ghost var modes := Modes(files);
    var faults := vol.cache.card.faults;
    for k := 0 to |s|
      invariant Together(vol, files) && |outs| == |changes| == k && PlainsRun(vol.lay, trace, modes, s, outs, worlds)
      invariant trace[0] == old(Plains(vol, files)) && trace[k] == Plains(vol, files)
      invariant IsRun(vol.lay, worlds, changes) && |worlds| == k + 1 && Healthy(vol.lay, worlds[0])
      invariant worlds[0] == old(WorldOf(vol, files)) && worlds[k] == WorldOf(vol, files)
      invariant MisusedByFatal(vol.lay, worlds, trace, modes, s)
      invariant forall t :: 0 <= t <= k ==> Orphans(worlds[t]) == Orphans(worlds[0])
      invariant Modes(files) == modes && vol.cache.card.faults == old(vol.cache.card.faults)
      invariant !old(vol.cache.misused) && NoneFatal(vol.lay, worlds, trace, modes, s, k) ==> !vol.cache.misused
    {
      ghost var worlds0, changes0, trace0 := worlds, changes, trace;
      ghost var doomed := FatalStep(vol.lay, worlds[k], trace[k], modes, s[k].0, s[k].1);
      var out;
      ghost var w, e;
      out, w, e := RunStep(vol, files, s[k].0, s[k].1);
      RunOn(vol.lay, worlds, changes, w, e);
      worlds, changes := worlds + [w], changes + [e];
      EarlierFatal(vol.lay, worlds0, worlds, trace0, trace, modes, s, k, |s|, doomed);
      if vol.cache.card.faults != faults {
        if !vol.cache.misused && !old(vol.cache.misused) {
          vol.SameFaults();
        }
        return;
      }
      HealthyUpTo(vol.lay, worlds0, changes0, k);
      OrphansAfter(vol.lay, worlds0[k], w, e, []);
      outs, trace := outs + [out], trace + [Plains(vol, files)];
      EarlierFatal(vol.lay, worlds0, worlds, trace0, trace, modes, s, k, k + 1, doomed);
    }
  }

  /** One command of a run, or none if it cannot be expressed. */
  method RunStep(vol: SdVolume, files: seq<SdFile>, i: nat, c: Command)
    returns (out: Outcome, ghost w: World, ghost e: Change)
    requires Together(vol, files) && i < |files|
    modifies files, vol, vol.cache, vol.cache.card, vol.cache.buffer
    ensures vol.Valid() && AllApart(files) && Modes(files) == old(Modes(files))
    ensures Next(vol.lay, old(WorldOf(vol, files)), w, e)
    ensures w.fat == vol.fat && w.disk == vol.disk && w.cache == vol.CacheNow()
    ensures vol.cache.card.faults == old(vol.cache.card.faults) ==> Tight(old(WorldOf(vol, files)), w, e, [])
    ensures vol.cache.card.faults == old(vol.cache.card.faults) ==>
      && Together(vol, files) && w == WorldOf(vol, files)
      && PlainsStep(old(Plains(vol, files)), Plains(vol, files), Modes(files), i, c, out,
                    SpaceFor(vol.lay, old(WorldOf(vol, files)), Numbered(i)))
    ensures vol.cache.misused ==>
      || old(vol.cache.misused)
      || FatalStep(vol.lay, old(WorldOf(vol, files)), old(Plains(vol, files)), Modes(files), i, c)
  {
    hide SdVolume.Valid, SdFile.Ready, Tellable, PlainStep, Plain, AllApart, Mode, Next, SpaceOf, SpaceFor, Apart;
    hide FatalStep, Fatal, Expressible, Enabled, Tight;
    NothingTight(WorldOf(vol, files), vol.CacheNow());
    SpaceInRun(vol, files, i);
    out, e := Skipped, NO_CHANGE;
    ghost var chains := ChainsOf(files);
    EnabledExpressible(files[i], c);
    NothingNext(vol.lay, WorldOf(vol, files), vol.CacheNow());
    if Enabled(files[i], c) {
      if Fatal(files[i], c) {
        FatalInRun(vol, files, i, c);
      }
      var ok, data;
      ok, data, e := Perform(vol, files, i, c);
      out := Done(ok, data);
    }
    w := World(vol.fat, vol.disk, vol.CacheNow(), After(chains, e));
  }

  /** What a longer run says of its first `k` commands and the one that follows. */
  lemma EarlierFatal(lay: Layout, worlds: seq<World>, worlds': seq<World>, trace: seq<seq<PlainFile>>,
                     trace': seq<seq<PlainFile>>, modes: seq<Flags>, s: seq<(nat, Command)>, k: nat, n: nat,
                     doomed: bool)
    requires |worlds| == |trace| == k + 1 && k < |s| && k < n && worlds <= worlds' && trace <= trace'
    requires doomed ==> FatalStep(lay, worlds[k], trace[k], modes, s[k].0, s[k].1)
    ensures NoneFatal(lay, worlds', trace', modes, s, n) ==> !doomed && NoneFatal(lay, worlds, trace, modes, s, k)
  {
    hide FatalStep;
    assert forall t :: 0 <= t <= k ==> worlds'[t] == worlds[t] && trace'[t] == trace[t];
  }
}
