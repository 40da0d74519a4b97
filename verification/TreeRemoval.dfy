/** rmRfStar: removing a directory with everything below it. */
module TreeRemoval {
  import opened Bytes
  import opened VolumeLayout
  import opened Chains
  import opened FileData
  import opened DirEntry
  import opened DirTable
  import opened DirOnDisk
  import opened Volume
  import opened File
  import opened Directories
  import opened Frames
  import opened Removal
  import opened DirTree

  // ---------------------------------------------------------------- how far the sweep has come

  /** Equal block maps except for the FATs, the directory at `place` and the clusters in `own`. */
  ghost predicate SameOutsideTree(lay: Layout, d: seq<Block>, d': seq<Block>, place: Extent, own: seq<nat>) {
    && |d| == |d'|
    && forall b {:trigger d'[b]} ::
         0 <= b < |d| && !lay.InFat(b) && !InPlace(lay, place, b) && !Owned(lay, own, b) ==> d'[b] == d[b]
  }

  /** The files and subdirectories among the first `k` slots are deleted; all other slots are as before. */
  ghost predicate SweptTable(t: seq<Entry>, t': seq<Entry>, k: nat) {
    && |t| == |t'|
    && forall j {:trigger t'[j]} :: 0 <= j < |t| ==> if j < k && Keeps(t[j]) then IsDeleted(t'[j]) else t'[j] == t[j]
  }

  /** The trees below slots `k` on are untouched. */
  ghost predicate Remaining(lay: Layout, fat: seq<nat>, d: seq<Block>, t: seq<Entry>, place: Extent, n: Node, k: nat) {
    && n.DirNode? && |t| == |n.kids| && lay.ExtentOk(place) && |t| <= ENTRIES_PER_BLOCK * lay.BlockCount(place)
    && forall j {:trigger n.kids[j]} :: k <= j < |t| ==>
         KidOk(lay, fat, d, t[j], SlotBlock(lay, place, j), n.kids[j])
  }

  /** A directory and its node: nothing below it shares a cluster with it. */
  ghost predicate Rooted(place: Extent, n: Node) {
    n.DirNode? && Apart(n) && (if place.Root16? then n.chain == [] else place.chain == n.chain)
  }

  /** A slot that is skipped leads nowhere. */
  lemma SweepSkip(lay: Layout, fat: seq<nat>, d: seq<Block>, t: seq<Entry>, place: Extent, n: Node, k: nat)
    requires Remaining(lay, fat, d, t, place, n, k) && k < |t| && !Keeps(t[k])
    ensures GatherKids(n, ReapedOf, k + 1) == GatherKids(n, ReapedOf, k)
    ensures GatherKids(n, DirsOf, k + 1) == GatherKids(n, DirsOf, k)
    ensures Remaining(lay, fat, d, t, place, n, k + 1) && n.kids[k] == NoNode
  {
    assert KidOk(lay, fat, d, t[k], SlotBlock(lay, place, k), n.kids[k]);
  }

  /** Nor do the slots from the end marker on. */
  lemma {:induction false} SweepRest(lay: Layout, fat: seq<nat>, d: seq<Block>, t: seq<Entry>, t': seq<Entry>,
                                     place: Extent, n: Node, k: nat, m: nat)
    requires Remaining(lay, fat, d, t, place, n, k) && k <= m <= |t|
    requires k < |t| ==> FreeTail(t) && IsFree(t[k])
    requires SweptTable(t, t', k) && IndexedKids(n, k)
    ensures IndexedKids(n, m)
    ensures GatherKids(n, ReapedOf, m) == GatherKids(n, ReapedOf, k)
    ensures GatherKids(n, DirsOf, m) == GatherKids(n, DirsOf, k)
    ensures SweptTable(t, t', m)
  {
    hide KidOk, SlotBlock;
    if k < m {
      SweepRest(lay, fat, d, t, t', place, n, k, m - 1);
      assert !Keeps(t[m - 1]);
      LeadsNowhere(lay, fat, d, t[m - 1], SlotBlock(lay, place, m - 1), n.kids[m - 1]);
    }
  }

  lemma LeadsNowhere(lay: Layout, fat: seq<nat>, d: seq<Block>, e: Entry, b: nat, kid: Node)
    requires KidOk(lay, fat, d, e, b, kid) && !Keeps(e)
    ensures kid == NoNode
  {
  }

  lemma FreedTwice(fat: seq<nat>, s: seq<nat>, t: seq<nat>)
    ensures Freed(Freed(fat, s), t) == Freed(fat, s + t)
  {
  }

  /** The trees below the other slots survive the removal of slot `k`. */
  lemma SweepStep(lay: Layout, fat: seq<nat>, fat': seq<nat>, d: seq<Block>, d': seq<Block>, t: seq<Entry>,
                  place: Extent, n: Node, k: nat)
    requires lay.WellFormed(|d|) && Remaining(lay, fat, d, t, place, n, k) && k < |t| && Rooted(place, n)
    requires fat' == Freed(fat, Gather(n.kids[k], ReapedOf))
    requires SameButEntry(lay, d, d', Gather(n.kids[k], DirsOf), SlotBlock(lay, place, k), k % ENTRIES_PER_BLOCK)
    ensures Remaining(lay, fat', d', t, place, n, k + 1)
  {
    hide KidOk, Layout.WellFormed, Layout.BlockCount, Layout.ExtentOk, SameButEntry, Apart, SlotBlock;
    forall j | k < j < |t|
      ensures KidOk(lay, fat', d', t[j], SlotBlock(lay, place, j), n.kids[j])
    {
      SlotOutsideKids(lay, |d|, place, n, k, j);
      KidsApart(n, k, j);
      KidFrame(lay, fat, fat', d, d', Gather(n.kids[k], DirsOf), SlotBlock(lay, place, k), k % ENTRIES_PER_BLOCK,
               t[j], SlotBlock(lay, place, j), n.kids[j]);
    }
  }

  /** A directory's own blocks lie outside everything below it. */
  lemma SlotOutsideKids(lay: Layout, size: nat, place: Extent, n: Node, k: nat, j: nat)
    requires lay.WellFormed(size) && Rooted(place, n) && j < |n.kids|
    requires lay.ExtentOk(place) && k / ENTRIES_PER_BLOCK < lay.BlockCount(place)
    ensures !Owned(lay, Gather(n.kids[j], AllOf), SlotBlock(lay, place, k))
    ensures place.Clusters? ==> Disjoint(Gather(n.kids[j], DirsOf), place.chain)
    ensures Disjoint(n.chain, Gather(n.kids[j], AllOf))
  {
    hide Layout.WellFormed;
    NthBlockPlace(lay, size, place, k / ENTRIES_PER_BLOCK);
    PartOfAll(n.kids[j], DirsOf);
    MembersApart(n.chain, Gather(n.kids[j], AllOf), Gather(n.kids[j], DirsOf));
    DisjointMembers(n.chain, Gather(n.kids[j], AllOf));
  }

  lemma KidsApart(n: Node, k: nat, j: nat)
    requires n.DirNode? && Apart(n) && k < j < |n.kids|
    ensures Disjoint(Gather(n.kids[k], DirsOf), Gather(n.kids[j], AllOf))
    ensures forall c :: c in Gather(n.kids[j], AllOf) ==> c !in Gather(n.kids[k], ReapedOf)
  {
    PartOfAll(n.kids[k], DirsOf);
    PartOfAll(n.kids[k], ReapedOf);
    DisjointMembers(Gather(n.kids[k], AllOf), Gather(n.kids[j], AllOf));
    MembersDisjoint(Gather(n.kids[k], DirsOf), Gather(n.kids[j], AllOf));
  }

  lemma OutsideStep(lay: Layout, d0: seq<Block>, d: seq<Block>, d': seq<Block>, place: Extent, own: seq<nat>,
                    more: seq<nat>, block: nat, index: nat)
    requires SameOutsideTree(lay, d0, d, place, own) && SameButEntry(lay, d, d', more, block, index)
    requires InPlace(lay, place, block)
    ensures SameOutsideTree(lay, d0, d', place, own + more)
  {
  }

  /** How far the sweep has come: `k` slots are done. */
  ghost predicate Sweeping(lay: Layout, f0: seq<nat>, d0: seq<Block>, t: seq<Entry>, fat: seq<nat>, d: seq<Block>,
                           t': seq<Entry>, place: Extent, n: Node, k: nat)
  {
    && k <= |t| && FreeTail(t) && lay.WellFormed(|d|)
    && SweptTable(t, t', k) && Remaining(lay, fat, d, t, place, n, k) && IndexedKids(n, k)
    && fat == Freed(f0, GatherKids(n, ReapedOf, k))
    && SameOutsideTree(lay, d0, d, place, GatherKids(n, DirsOf, k))
    && Confined(f0, fat, Gather(n, AllOf))
  }

  lemma SweepBegin(dir: SdFile, n: Node)
    requires HasSlots(dir) && LooksLike(dir.vol.lay, dir.vol.fat, dir.vol.disk, dir.Place(), n)
      && |n.kids| == SlotCount(dir)
    ensures Sweeping(dir.vol.lay, dir.vol.fat, dir.vol.disk, Slots(dir), dir.vol.fat, dir.vol.disk, Slots(dir),
                     dir.Place(), n, 0)
  {
    hide KidOk, FreeTail, SlotAt, SlotBlock;
  }

  lemma ChainOfPlace(dir: SdFile, n: Node)
    requires DirHandle(dir) && Rooted(dir.Place(), n)
    ensures dir.chain == n.chain
  {
  }

  /** What the sweep finds at slot `k`. */
  lemma SweepAt(lay: Layout, f0: seq<nat>, d0: seq<Block>, t: seq<Entry>, fat: seq<nat>, d: seq<Block>,
                t': seq<Entry>, place: Extent, n: Node, k: nat)
    requires Sweeping(lay, f0, d0, t, fat, d, t', place, n, k) && Rooted(place, n) && k < |t|
    ensures t'[k] == t[k] && |t'| == |t| == |n.kids| && Apart(n.kids[k])
    ensures k >= 0x1_0000 ==> !Keeps(t'[k % 0x1_0000])
    ensures lay.ExtentOk(place) && k / ENTRIES_PER_BLOCK < lay.BlockCount(place)
    ensures KidOk(lay, fat, d, t[k], SlotBlock(lay, place, k), n.kids[k])
    ensures Disjoint(n.chain, Gather(n.kids[k], AllOf))
    ensures !Owned(lay, Gather(n.kids[k], AllOf), SlotBlock(lay, place, k))
  {
    hide KidOk, FreeTail, SlotBlock, Layout.WellFormed, Layout.ExtentOk, SameOutsideTree, Confined;
    SlotOutsideKids(lay, |d|, place, n, k, k);
  }

  lemma SweepOn(lay: Layout, f0: seq<nat>, d0: seq<Block>, t: seq<Entry>, fat: seq<nat>, d: seq<Block>,
                t': seq<Entry>, place: Extent, n: Node, k: nat)
    requires Sweeping(lay, f0, d0, t, fat, d, t', place, n, k) && k < |t| && !Keeps(t[k])
    ensures Sweeping(lay, f0, d0, t, fat, d, t', place, n, k + 1)
  {
    hide KidOk, FreeTail, SlotBlock, Layout.WellFormed, Layout.ExtentOk, SameOutsideTree, Confined, Keeps;
    SweepSkip(lay, fat, d, t, place, n, k);
    assert Indexed(n.kids[k]);
  }

  /** One entry whose index does not fit makes the whole tree unfit. */
  lemma NotIndexed(lay: Layout, fat: seq<nat>, d: seq<Block>, e: Entry, b: nat, n: Node, k: nat)
    requires n.DirNode? && k < |n.kids| && KidOk(lay, fat, d, e, b, n.kids[k]) && Keeps(e)
    ensures k >= 0x1_0000 || !Indexed(n.kids[k]) ==> !Indexed(n)
  {
    hide EntryFits, LooksLike, Layout.BlockCount;
  }

  lemma KidConfined(f0: seq<nat>, fat: seq<nat>, fat': seq<nat>, n: Node, k: nat)
    requires n.DirNode? && k < |n.kids|
    requires Confined(f0, fat, Gather(n, AllOf)) && Confined(fat, fat', Gather(n.kids[k], AllOf))
    ensures Confined(f0, fat', Gather(n, AllOf))
  {
    KidInside(n, AllOf, k, |n.kids|);
    ConfinedTrans(f0, fat, fat', Gather(n, AllOf), Gather(n.kids[k], AllOf));
  }

  lemma SweepRemoved(lay: Layout, f0: seq<nat>, d0: seq<Block>, t: seq<Entry>, fat: seq<nat>, d: seq<Block>,
                     t1: seq<Entry>, fat': seq<nat>, d': seq<Block>, t2: seq<Entry>, place: Extent, n: Node, k: nat)
    requires Sweeping(lay, f0, d0, t, fat, d, t1, place, n, k) && Rooted(place, n) && k < |t|
    requires lay.ExtentOk(place) && k / ENTRIES_PER_BLOCK < lay.BlockCount(place) && |n.kids| == |t|
    requires |t2| == |t1| == |t| && t2 == t1[k := t2[k]] && IsDeleted(t2[k]) && Keeps(t[k])
    requires k < 0x1_0000 && Indexed(n.kids[k])
    requires fat' == Freed(fat, Gather(n.kids[k], ReapedOf)) && Confined(fat, fat', Gather(n.kids[k], AllOf))
    requires SameButEntry(lay, d, d', Gather(n.kids[k], DirsOf), SlotBlock(lay, place, k), k % ENTRIES_PER_BLOCK)
    ensures Sweeping(lay, f0, d0, t, fat', d', t2, place, n, k + 1)
  {
    hide KidOk, FreeTail, Layout.WellFormed, Layout.ExtentOk, SameOutsideTree, Confined, Keeps, IsDeleted, SameButEntry;
    hide Layout.BlockCount, Remaining, Apart, SlotBlock, InPlace;
    SweepStep(lay, fat, fat', d, d', t, place, n, k);
    SlotInPlace(lay, |d|, place, k);
    OutsideStep(lay, d0, d, d', place, GatherKids(n, DirsOf, k), Gather(n.kids[k], DirsOf),
                SlotBlock(lay, place, k), k % ENTRIES_PER_BLOCK);
    KidConfined(f0, fat, fat', n, k);
    FreedTwice(f0, GatherKids(n, ReapedOf, k), Gather(n.kids[k], ReapedOf));
    assert |d'| == |d| by {
      SameLength(lay, d, d', Gather(n.kids[k], DirsOf), SlotBlock(lay, place, k), k % ENTRIES_PER_BLOCK);
    }
  }

  /** At the end marker or behind the last slot, the sweep is complete. */
  lemma SweepEnd(lay: Layout, f0: seq<nat>, d0: seq<Block>, t: seq<Entry>, fat: seq<nat>, d: seq<Block>,
                 t': seq<Entry>, place: Extent, n: Node, k: nat)
    requires Sweeping(lay, f0, d0, t, fat, d, t', place, n, k) && (k < |t| ==> IsFree(t[k]))
    ensures SweptTable(t, t', |t|) && IsEmptyDir(t') && FreeTail(t') && n.DirNode? && |n.kids| == |t| && Indexed(n)
    ensures fat == Freed(f0, GatherKids(n, ReapedOf, |t|))
    ensures |d| == |d0| && SameOutsideTree(lay, d0, d, place, GatherKids(n, DirsOf, |t|))
  {
    hide KidOk, Layout.WellFormed, Layout.ExtentOk, Layout.BlockCount, Confined, SlotBlock, IsFileOrSubDir;
    SweepRest(lay, fat, d, t, t', place, n, k, |t|);
    forall j | 0 <= j < |t'|
      ensures !Keeps(t'[j]) && (IsFree(t'[j]) <==> IsFree(t[j]))
    {
    }
  }

  lemma SweepConfined(lay: Layout, f0: seq<nat>, d0: seq<Block>, t: seq<Entry>, fat: seq<nat>, d: seq<Block>,
                      t': seq<Entry>, place: Extent, n: Node, k: nat)
    requires Sweeping(lay, f0, d0, t, fat, d, t', place, n, k)
    ensures Confined(f0, fat, Gather(n, AllOf)) && SameOutsideTree(lay, d0, d, place, Gather(n, AllOf))
  {
    hide KidOk, FreeTail, Layout.WellFormed, Layout.ExtentOk, Layout.BlockCount, Confined, SlotBlock;
    PartOfAllKids(n, DirsOf, k);
    FirstKids(n, k);
    SameOutsideMore(lay, d0, d, place, GatherKids(n, DirsOf, k), Gather(n, AllOf));
  }

  lemma FirstKids(n: Node, k: nat)
    requires n.DirNode? && k <= |n.kids|
    ensures forall c :: c in GatherKids(n, AllOf, k) ==> c in Gather(n, AllOf)
  {
    forall c | c in GatherKids(n, AllOf, k)
      ensures c in Gather(n, AllOf)
    {
      var j := InsideKid(n, AllOf, k, c);
      KidInside(n, AllOf, j, |n.kids|);
    }
  }

  lemma SameOutsideMore(lay: Layout, d: seq<Block>, d': seq<Block>, place: Extent, own: seq<nat>, more: seq<nat>)
    requires SameOutsideTree(lay, d, d', place, own) && forall c :: c in own ==> c in more
    ensures SameOutsideTree(lay, d, d', place, more)
  {
  }

  /** An I/O error at slot `k`: nothing outside the directory and what lies below it has changed. */
  lemma SweepBroken(lay: Layout, d0: seq<Block>, d: seq<Block>, d': seq<Block>, place: Extent, n: Node, k: nat)
    requires lay.WellFormed(|d|) && lay.ExtentOk(place) && k / ENTRIES_PER_BLOCK < lay.BlockCount(place)
    requires SameOutsideTree(lay, d0, d, place, Gather(n, AllOf)) && n.DirNode? && k < |n.kids|
    requires SameButEntry(lay, d, d', Gather(n.kids[k], AllOf), SlotBlock(lay, place, k), k % ENTRIES_PER_BLOCK)
    ensures SameOutsideTree(lay, d0, d', place, Gather(n, AllOf))
  {
    hide SameOutsideTree, SameButEntry, InPlace, SlotBlock, Layout.WellFormed, Layout.ExtentOk, Layout.BlockCount;
    SlotInPlace(lay, |d|, place, k);
    OutsideStep(lay, d0, d, d', place, Gather(n, AllOf), Gather(n.kids[k], AllOf), SlotBlock(lay, place, k),
                k % ENTRIES_PER_BLOCK);
    KidInside(n, AllOf, k, |n.kids|);
    SameOutsideMore(lay, d0, d', place, Gather(n, AllOf) + Gather(n.kids[k], AllOf), Gather(n, AllOf));
  }

  /** A directory entry outside the tree stays in a block in use. */
  lemma EntryBlockStays(lay: Layout, fat: seq<nat>, fat': seq<nat>, own: seq<nat>, block: nat)
    requires UsedBlock(lay, fat, block) && !Owned(lay, own, block) && Confined(fat, fat', own)
    ensures UsedBlock(lay, fat', block)
  {
  }

  // ---------------------------------------------------------------- rmRfStar

  /** A sound directory handle and the tree below it. */
  ghost predicate TreeHandle(dir: SdFile, n: Node)
    reads dir, dir.vol
  {
    && DirHandle(dir) && dir.flags.read && HasSlots(dir)
    && n.DirNode? && |n.kids| == SlotCount(dir)
    && LooksLike(dir.vol.lay, dir.vol.fat, dir.vol.disk, dir.Place(), n)
    && Rooted(dir.Place(), n)
    && (dir.kind == SubDir ==> dir.EntryPlaced() && !Owned(dir.vol.lay, Gather(n, AllOf), dir.dirBlock))
  }

  /** What removing the file or subdirectory of slot `k` leaves. */
  twostate predicate SlotRemoved(dir: SdFile, k: nat, kid: Node)
    reads dir, dir.vol
  {
    var lay := dir.vol.lay;
    && old(HasSlots(dir)) && k < old(SlotCount(dir))
    && DirHandle(dir) && HasSlots(dir) && SlotCount(dir) == old(SlotCount(dir)) && dir.Place() == old(dir.Place())
    && Slots(dir) == old(Slots(dir))[k := Slots(dir)[k]] && IsDeleted(Slots(dir)[k])
    && dir.vol.fat == Freed(old(dir.vol.fat), Gather(kid, ReapedOf))
    && SameButEntry(lay, old(dir.vol.disk), dir.vol.disk, Gather(kid, DirsOf),
                    SlotBlock(lay, dir.Place(), k), k % ENTRIES_PER_BLOCK)
  }

  /** The whole directory is swept: exactly the files and subdirectories below it are gone. */
  twostate predicate Swept(dir: SdFile, n: Node)
    requires n.DirNode?
    reads dir, dir.vol
  {
    && old(HasSlots(dir)) && DirHandle(dir) && HasSlots(dir) && dir.Place() == old(dir.Place())
    && SweptTable(old(Slots(dir)), Slots(dir), |n.kids|) && IsEmptyDir(Slots(dir))
    && dir.vol.fat == Freed(old(dir.vol.fat), GatherKids(n, ReapedOf, |n.kids|))
    && SameOutsideTree(dir.vol.lay, old(dir.vol.disk), dir.vol.disk, dir.Place(), GatherKids(n, DirsOf, |n.kids|))
  }

  /** The directory itself is gone, too. */
  twostate predicate TreeRemoved(dir: SdFile, n: Node)
    reads dir, dir.vol
  {
    && dir.kind == Closed
    && old(dir.EntryOnDisk()) && dir.dirBlock == old(dir.dirBlock) && dir.dirIndex == old(dir.dirIndex)
    && dir.dirBlock < |dir.vol.disk|
    && IsDeleted(EntryAt(dir.vol.disk[dir.dirBlock], dir.dirIndex))
    && dir.vol.fat == Freed(old(dir.vol.fat), Gather(n, ReapedOf))
    && SameButEntry(dir.vol.lay, old(dir.vol.disk), dir.vol.disk, Gather(n, DirsOf), dir.dirBlock, dir.dirIndex)
  }

  /**
   * rmRfStar: on a root directory, remove everything below it; on a subdirectory, remove it
   * together with everything below it. Absent I/O errors it fails exactly if something in the tree
   * has an index of more than 16 bits.
   */
  method RmRfStar(dir: SdFile, ghost n: Node) returns (ok: bool)
    requires dir.vol.Valid() && TreeHandle(dir, n)
    modifies dir, dir.vol, dir.vol.cache, dir.vol.cache.card, dir.vol.cache.buffer
    ensures dir.vol.Valid()
    ensures dir.vol.cache.misused == old(dir.vol.cache.misused)
    ensures ok && old(dir.IsRoot()) ==> Swept(dir, n)
    ensures ok && !old(dir.IsRoot()) ==> TreeRemoved(dir, n)
    ensures ok ==> dir.vol.cache.card.faults == old(dir.vol.cache.card.faults) && Indexed(n)
    ensures !ok ==> dir.vol.cache.card.faults > old(dir.vol.cache.card.faults) || !Indexed(n)
    // also after a failure, nothing outside the tree has changed
    ensures Confined(old(dir.vol.fat), dir.vol.fat, Gather(n, AllOf))
    ensures if old(dir.IsRoot())
      then SameOutsideTree(dir.vol.lay, old(dir.vol.disk), dir.vol.disk, old(dir.Place()), Gather(n, AllOf))
      else SameButEntry(dir.vol.lay, old(dir.vol.disk), dir.vol.disk, Gather(n, AllOf), old(dir.dirBlock),
                        old(dir.dirIndex))
    decreases n, 1, 0
  {
    hide SdVolume.Valid, Layout.WellFormed, Layout.ExtentOk, Layout.InFat, FileChain, SdFile.Positioned;
    hide Capacity, UsedBlock, Owned, Confined, FirstCluster, Size, EntryAt, LooksLike, Gather, GatherKids, Table;
    hide FreeTail;
    ghost var d0, f0 := dir.vol.disk, dir.vol.fat;
    ghost var lay, all, block, index := dir.vol.lay, Gather(n, AllOf), dir.dirBlock, dir.dirIndex;
    ChainOfPlace(dir, n);
    ok := ClearDir(dir, n);
    if dir.IsRoot() {
      return ok;
    }
    TreeParts(n);
    if !ok {
      NothingReplaced(lay, dir.vol.disk, block, index);
      TreeBlocks(lay, d0, dir.vol.disk, dir.vol.disk, n, all, all, block, index);
      return false;
    }
    ghost var d1, f1 := dir.vol.disk, dir.vol.fat;
    EmptyByTail(Slots(dir));
    ok := RmDir(dir);
    DirAndBelow(f0, f1, dir.vol.fat, n);
    TreeBlocks(lay, d0, d1, dir.vol.disk, n, all, all, block, index);
    if ok {
      TreeBlocks(lay, d0, d1, dir.vol.disk, n, GatherKids(n, DirsOf, |n.kids|), Gather(n, DirsOf), block, index);
    }
  }

  /** The clusters of the directory itself come on top of those below it. */
  lemma DirAndBelow(f0: seq<nat>, f1: seq<nat>, f2: seq<nat>, n: Node)
    requires n.DirNode? && Confined(f0, f1, Gather(n, AllOf)) && Confined(f1, f2, n.chain)
    ensures Confined(f0, f2, Gather(n, AllOf))
    ensures f1 == Freed(f0, GatherKids(n, ReapedOf, |n.kids|)) && f2 == Freed(f1, n.chain) ==>
      f2 == Freed(f0, Gather(n, ReapedOf))
  {
    ConfinedTrans(f0, f1, f2, Gather(n, AllOf), n.chain);
  }

  lemma TreeParts(n: Node)
    requires n.DirNode?
    ensures Gather(n, DirsOf) == n.chain + GatherKids(n, DirsOf, |n.kids|)
    ensures forall c :: c in n.chain ==> c in Gather(n, AllOf)
  {
  }

  lemma TreeBlocks(lay: Layout, d0: seq<Block>, d1: seq<Block>, d2: seq<Block>, n: Node, below: seq<nat>,
                   own: seq<nat>, block: nat, index: nat)
    requires n.DirNode? && SameOutsideTree(lay, d0, d1, Clusters(n.chain), below)
    requires forall c :: c in n.chain + below ==> c in own
    requires SameButEntry(lay, d1, d2, [], block, index)
    ensures SameButEntry(lay, d0, d2, own, block, index)
  {
    assert forall c :: c in n.chain ==> c in n.chain + below;
    assert forall c :: c in below ==> c in n.chain + below;
    assert SameButEntry(lay, d0, d1, own, block, index);
    SameButEntryWiden(lay, d0, d1, d2, own, block, index);
  }

  /** The loop of `rmRfStar`. */
  method ClearDir(dir: SdFile, ghost n: Node) returns (ok: bool)
    requires dir.vol.Valid() && TreeHandle(dir, n)
    modifies dir`curCluster, dir`curPosition, dir.vol, dir.vol.cache, dir.vol.cache.card, dir.vol.cache.buffer
    ensures dir.vol.Valid() && DirHandle(dir) && HasSlots(dir)
    ensures dir.vol.cache.misused == old(dir.vol.cache.misused)
    ensures ok ==> Swept(dir, n) && FreeTail(Slots(dir)) && dir.vol.cache.card.faults == old(dir.vol.cache.card.faults)
    ensures ok && dir.kind == SubDir ==> dir.EntryPlaced()
    ensures ok ==> Indexed(n)
    ensures !ok ==> dir.vol.cache.card.faults > old(dir.vol.cache.card.faults) || !Indexed(n)
    ensures Confined(old(dir.vol.fat), dir.vol.fat, Gather(n, AllOf))
    ensures SameOutsideTree(dir.vol.lay, old(dir.vol.disk), dir.vol.disk, old(dir.Place()), Gather(n, AllOf))
    decreases n, 0, 1
  {
    hide SdVolume.Valid, Layout.WellFormed, Layout.ExtentOk, Layout.BlockCount, SlotBlock, Table, Attributes, HasBit;
    hide FileChain, Capacity, DirHandle, SdFile.Linked, SdFile.Positioned, Slots, SlotCount, HasSlots, SdFile.Place;
    hide KidOk, Gather, GatherKids, Confined, SameOutsideTree, SameButEntry, Remaining, SweptTable;
    hide Sweeping;
    var lay := dir.vol.lay;
    SlotsOk(dir);
    Rewind(dir);
    ghost var t, d0, f0, k, place := Slots(dir), dir.vol.disk, dir.vol.fat, 0, dir.Place();
    SweepBegin(dir, n);
    ChainOfPlace(dir, n);
    var more := true;
    while more && dir.curPosition < dir.fileSize
      invariant dir.vol.Valid() && HasSlots(dir) && dir.Positioned() && DirHandle(dir)
      invariant dir.vol.cache.misused == old(dir.vol.cache.misused)
      invariant SlotCount(dir) == |t| && dir.Place() == place
      invariant k <= |t| && (if more then dir.curPosition == ENTRY_SIZE * k else k < |t| && IsFree(t[k]))
      invariant Sweeping(lay, f0, d0, t, dir.vol.fat, dir.vol.disk, Slots(dir), place, n, k)
      invariant dir.vol.cache.card.faults == old(dir.vol.cache.card.faults)
      decreases more, dir.fileSize - dir.curPosition
    {
      ok, more := SweepSlot(dir, n, f0, d0, t, k);
      if !ok {
        return false;
      }
      k := if more then k + 1 else k;
    }
    SweepEnd(lay, f0, d0, t, dir.vol.fat, dir.vol.disk, Slots(dir), place, n, k);
    SweepConfined(lay, f0, d0, t, dir.vol.fat, dir.vol.disk, Slots(dir), place, n, k);
    if dir.kind == SubDir {
      EntryBlockStays(lay, f0, dir.vol.fat, Gather(n, AllOf), dir.dirBlock);
    }
    return true;
  }

  /** The body of the loop: slot `k`. It is the last one if it is the end marker. */
  method SweepSlot(dir: SdFile, ghost n: Node, ghost f0: seq<nat>, ghost d0: seq<Block>, ghost t: seq<Entry>,
                   ghost k: nat)
    returns (ok: bool, more: bool)
    requires dir.vol.Valid() && HasSlots(dir) && dir.Positioned() && DirHandle(dir) && dir.flags.read
    requires SlotCount(dir) == |t| && dir.curPosition == ENTRY_SIZE * k && k < |t|
    requires Rooted(dir.Place(), n) && dir.chain == n.chain
    requires Sweeping(dir.vol.lay, f0, d0, t, dir.vol.fat, dir.vol.disk, Slots(dir), dir.Place(), n, k)
    modifies dir`curCluster, dir`curPosition, dir.vol, dir.vol.cache, dir.vol.cache.card, dir.vol.cache.buffer
    ensures dir.vol.Valid() && DirHandle(dir) && HasSlots(dir)
    ensures dir.vol.cache.misused == old(dir.vol.cache.misused)
    ensures Confined(f0, dir.vol.fat, Gather(n, AllOf))
    ensures ok ==>
      && dir.Positioned() && SlotCount(dir) == |t| && dir.Place() == old(dir.Place())
      && dir.curPosition == old(dir.curPosition) + ENTRY_SIZE && (!more ==> IsFree(t[k]))
      && Sweeping(dir.vol.lay, f0, d0, t, dir.vol.fat, dir.vol.disk, Slots(dir), dir.Place(), n,
                  if more then k + 1 else k)
    ensures ok ==> dir.vol.cache.card.faults == old(dir.vol.cache.card.faults)
    ensures !ok ==> dir.vol.cache.card.faults > old(dir.vol.cache.card.faults) || !Indexed(n)
    ensures !ok ==> SameOutsideTree(dir.vol.lay, d0, dir.vol.disk, old(dir.Place()), Gather(n, AllOf))
    decreases n, 0, 0
  {
    hide SdVolume.Valid, Layout.WellFormed, Layout.ExtentOk, Layout.BlockCount, SlotBlock, Table, Attributes, HasBit;
    hide FileChain, Capacity, DirHandle, SdFile.Linked, SdFile.Positioned, Slots, SlotCount, HasSlots, SdFile.Place;
    hide KidOk, Gather, GatherKids, Confined, SameButEntry, Sweeping;
    ghost var lay, place := dir.vol.lay, dir.Place();
    var index := dir.curPosition / ENTRY_SIZE % 0x1_0000;
    SlotsOk(dir);
    SweepAt(lay, f0, d0, t, dir.vol.fat, dir.vol.disk, Slots(dir), place, n, k);
    SweepConfined(lay, f0, d0, t, dir.vol.fat, dir.vol.disk, Slots(dir), place, n, k);
    var slot;
    ok, slot := ReadDirCache(dir);
    if !ok {
      return false, false;
    }
    var p := EntryAt(dir.vol.cache.buffer[..], slot);
    if p[0] == NAME_FREE {
      return true, false;
    }
    if p[0] != NAME_DELETED && p[0] != DOT && IsFileOrSubDir(p) {
      ghost var f1, d1, t1 := dir.vol.fat, dir.vol.disk, Slots(dir);
      ok := RemoveSlot(dir, index, k, n.kids[k]);
      NotIndexed(lay, f1, d1, t[k], SlotBlock(lay, place, k), n, k);
      KidConfined(f0, f1, dir.vol.fat, n, k);
      SweepBroken(lay, d0, d1, dir.vol.disk, place, n, k);
      if !ok {
        return false, false;
      }
      SweepRemoved(lay, f0, d0, t, f1, d1, t1, dir.vol.fat, dir.vol.disk, Slots(dir), place, n, k);
      if dir.curPosition != ENTRY_SIZE * (index + 1) {
        ok := SeekSlot(dir, index + 1);
      }
    } else {
      SweepOn(lay, f0, d0, t, dir.vol.fat, dir.vol.disk, Slots(dir), place, n, k);
    }
    more := true;
  }

  lemma KeptOpenable(dir: SdFile, k: nat)
    requires HasSlots(dir)
    ensures SlotOpenable(dir, k, READ_ONLY) <==> k < SlotCount(dir) && Keeps(Slots(dir)[k])
  {
    hide Table;
  }

  /**
   * Remove the file or subdirectory of slot `k`. Its index is cut to 16 bits; one that does not fit
   * leads to a slot that the sweep has passed, which cannot be opened.
   */
  method RemoveSlot(dir: SdFile, index: nat, ghost k: nat, ghost kid: Node) returns (ok: bool)
    requires dir.vol.Valid() && DirHandle(dir) && dir.flags.read && HasSlots(dir) && dir.Positioned()
    requires k < SlotCount(dir) && index == k % 0x1_0000 && Keeps(Slots(dir)[k])
    requires k >= 0x1_0000 ==> !Keeps(Slots(dir)[index])
    requires KidOk(dir.vol.lay, dir.vol.fat, dir.vol.disk, Slots(dir)[k], SlotBlock(dir.vol.lay, dir.Place(), k), kid)
    requires Apart(kid) && Disjoint(dir.chain, Gather(kid, AllOf))
    requires !Owned(dir.vol.lay, Gather(kid, AllOf), SlotBlock(dir.vol.lay, dir.Place(), k))
    modifies dir`curCluster, dir`curPosition, dir.vol, dir.vol.cache, dir.vol.cache.card, dir.vol.cache.buffer
    ensures dir.vol.Valid() && DirHandle(dir) && HasSlots(dir)
    ensures dir.vol.cache.misused == old(dir.vol.cache.misused)
    ensures ok ==> SlotRemoved(dir, k, kid) && dir.Positioned() && k < 0x1_0000 && Indexed(kid)
    ensures ok ==> dir.vol.cache.card.faults == old(dir.vol.cache.card.faults)
    ensures !ok ==> dir.vol.cache.card.faults > old(dir.vol.cache.card.faults) || k >= 0x1_0000 || !Indexed(kid)
    ensures Confined(old(dir.vol.fat), dir.vol.fat, Gather(kid, AllOf))
    ensures SameButEntry(dir.vol.lay, old(dir.vol.disk), dir.vol.disk, Gather(kid, AllOf),
                         old(SlotBlock(dir.vol.lay, dir.Place(), k)), k % ENTRIES_PER_BLOCK)
    decreases kid, 2, 0
  {
    hide SdVolume.Valid, Layout.WellFormed, Layout.ExtentOk, Layout.BlockCount, Table, Attributes, HasBit, EntryAt;
    hide FileChain, Capacity, SdFile.Positioned, KidOk, Gather, Confined, SameButEntry, OpenedAs, IsDeleted, Indexed;
    hide IndexedKids, EntryFits, SlotOpenable, SdFile.Ready, UsedBlock;
    ghost var e, b, d, fat := Slots(dir)[k], SlotBlock(dir.vol.lay, dir.Place(), k), dir.vol.disk, dir.vol.fat;
    SlotBlockUsed(dir, k);
    KidFits(dir.vol.lay, fat, d, e, b, kid);
    NothingConfined(fat, Gather(kid, AllOf));
    NothingReplaced(dir.vol.lay, d, b, k % ENTRIES_PER_BLOCK);
    SameButEntryMore(dir.vol.lay, d, d, [], Gather(kid, AllOf), b, k % ENTRIES_PER_BLOCK);
    KeptOpenable(dir, index);
    var f := new SdFile(dir.vol, dir.hasClock);
    ok := OpenByIndex(f, dir, index, READ_ONLY, kid.Chain());
    if !ok {
      return false;
    }
    ok := RemoveOpened(f, e, b, k % ENTRIES_PER_BLOCK, kid);
    ChainSurvives(dir.vol.lay, fat, dir.vol.fat, dir.firstCluster, dir.chain, Gather(kid, AllOf));
    dir.vol.Facts();
    if ok {
      PartOfAll(kid, DirsOf);
      MembersApart(dir.chain, Gather(kid, AllOf), Gather(kid, DirsOf));
      DisjointSwap(dir.chain, Gather(kid, DirsOf));
      TableUpdate(dir.vol.lay, d, dir.vol.disk, Gather(kid, DirsOf), dir.Place(), SlotCount(dir), k);
    }
  }

  lemma KidFits(lay: Layout, fat: seq<nat>, d: seq<Block>, e: Entry, b: nat, kid: Node)
    requires KidOk(lay, fat, d, e, b, kid) && Keeps(e)
    ensures EntryFits(lay, fat, e, b, kid.Chain())
  {
  }

  /** Remove the file or subdirectory just opened. */
  method RemoveOpened(f: SdFile, ghost e: Entry, ghost block: nat, ghost index: nat, ghost kid: Node) returns (ok: bool)
    requires f.vol.Valid() && Keeps(e)
    requires OpenedAs(f, e, block, index, READ_ONLY, kid.Chain())
    requires KidOk(f.vol.lay, f.vol.fat, f.vol.disk, e, block, kid)
    requires Apart(kid) && !Owned(f.vol.lay, Gather(kid, AllOf), block)
    modifies f, f.vol, f.vol.cache, f.vol.cache.card, f.vol.cache.buffer
    ensures f.vol.Valid()
    ensures f.vol.cache.misused == old(f.vol.cache.misused)
    ensures ok ==>
      && f.vol.fat == Freed(old(f.vol.fat), Gather(kid, ReapedOf))
      && SameButEntry(f.vol.lay, old(f.vol.disk), f.vol.disk, Gather(kid, DirsOf), block, index)
      && block < |f.vol.disk| && index < ENTRIES_PER_BLOCK && IsDeleted(EntryAt(f.vol.disk[block], index))
    ensures ok ==> f.vol.cache.card.faults == old(f.vol.cache.card.faults) && Indexed(kid)
    ensures !ok ==> f.vol.cache.card.faults > old(f.vol.cache.card.faults) || !Indexed(kid)
    ensures Confined(old(f.vol.fat), f.vol.fat, Gather(kid, AllOf))
    ensures SameButEntry(f.vol.lay, old(f.vol.disk), f.vol.disk, Gather(kid, AllOf), block, index)
    decreases kid, 1, 1
  {
    hide SdVolume.Valid, Layout.WellFormed, Layout.ExtentOk, Layout.BlockCount, Table, Attributes, HasBit, EntryAt;
    hide FileChain, Capacity, CursorAt, Gather, GatherKids, Confined, SameButEntry, IsDeleted, LooksLike;
    hide FirstCluster, Size, UsedBlock, Owned, TreeHandle;
    FileSubDir(e);
    if f.kind == SubDir {
      OpenedTree(f, e, block, index, kid);
      ok := RmRfStar(f, kid);
    } else {
      FileGathers(kid, f.vol.fat);
      f.flags := f.flags.(write := true);
      ghost var d := f.vol.disk;
      ok := Remove(f);
      SameButEntryMore(f.vol.lay, d, f.vol.disk, [], Gather(kid, AllOf), block, index);
    }
  }

  /** A subdirectory just opened is the root of the tree that its entry leads to. */
  lemma OpenedTree(f: SdFile, e: Entry, block: nat, index: nat, kid: Node)
    requires f.vol.Valid() && Keeps(e) && IsSubDir(e)
    requires OpenedAs(f, e, block, index, READ_ONLY, kid.Chain())
    requires KidOk(f.vol.lay, f.vol.fat, f.vol.disk, e, block, kid)
    requires Apart(kid) && !Owned(f.vol.lay, Gather(kid, AllOf), block)
    ensures TreeHandle(f, kid)
  {
    hide SdVolume.Valid, Layout.WellFormed, Layout.ExtentOk, Layout.BlockCount, Table, Attributes, HasBit, EntryAt;
    hide FileChain, Capacity, CursorAt, Gather, GatherKids, FirstCluster, Size, UsedBlock, Owned, Apart;
    FileSubDir(e);
    SlotsOk(f);
  }

  /** A file's clusters are reaped unless it is empty. */
  lemma FileGathers(kid: Node, fat: seq<nat>)
    requires kid.FileNode?
    ensures Gather(kid, AllOf) == kid.chain && Gather(kid, DirsOf) == []
    ensures Freed(fat, Gather(kid, ReapedOf)) == if kid.size > 0 then Freed(fat, kid.chain) else fat
  {
  }

  // ---------------------------------------------------------------- consequences

  /** No file of the tree has clusters although it is empty; a full disk can leave such files. */
  ghost predicate NoIdleFiles(n: Node) {
    match n
    case NoNode => true
    case FileNode(chain, size) => size > 0 || chain == []
    case DirNode(chain, kids) => forall k :: 0 <= k < |kids| ==> NoIdleFiles(kids[k])
  }

  /** Everything below a removed directory becomes free exactly if the tree has no idle files. */
  lemma {:induction false} EverythingReaped(n: Node)
    requires Apart(n)
    ensures (forall c :: c in Gather(n, AllOf) ==> c in Gather(n, ReapedOf)) <==> NoIdleFiles(n)
  {
    match n
    case NoNode =>
    case FileNode(chain, size) =>
      if chain != [] {
        assert chain[0] in Gather(n, AllOf);
      }
    case DirNode(chain, kids) =>
      forall k | 0 <= k < |kids|
        ensures (forall c :: c in Gather(kids[k], AllOf) ==> c in Gather(kids[k], ReapedOf)) <==> NoIdleFiles(kids[k])
      {
        EverythingReaped(kids[k]);
      }
      if NoIdleFiles(n) {
        forall c | c in Gather(n, AllOf)
          ensures c in Gather(n, ReapedOf)
        {
          if c !in chain {
            var k := InsideKid(n, AllOf, |kids|, c);
            KidInside(n, ReapedOf, k, |kids|);
          }
        }
      } else if forall c :: c in Gather(n, AllOf) ==> c in Gather(n, ReapedOf) {
        forall k | 0 <= k < |kids|
          ensures NoIdleFiles(kids[k])
        {
          ReapedOfKid(n, k);
        }
      }
  }

  lemma ReapedOfKid(n: Node, k: nat)
    requires n.DirNode? && Apart(n) && k < |n.kids|
    requires forall c :: c in Gather(n, AllOf) ==> c in Gather(n, ReapedOf)
    ensures forall c :: c in Gather(n.kids[k], AllOf) ==> c in Gather(n.kids[k], ReapedOf)
  {
    KidInside(n, AllOf, k, |n.kids|);
    DisjointMembers(n.chain, Gather(n.kids[k], AllOf));
    forall c | c in Gather(n.kids[k], AllOf)
      ensures c in Gather(n.kids[k], ReapedOf)
    {
      assert Gather(n, AllOf) == n.chain + GatherKids(n, AllOf, |n.kids|);
      assert Gather(n, ReapedOf) == n.chain + GatherKids(n, ReapedOf, |n.kids|);
      assert c in GatherKids(n, AllOf, |n.kids|);
      assert c in Gather(n, AllOf);
      assert c in Gather(n, ReapedOf);
      assert c !in n.chain;
      var j := InsideKid(n, ReapedOf, |n.kids|, c);
      PartOfAll(n.kids[j], ReapedOf);
      if j < k {
        DisjointMembers(Gather(n.kids[j], AllOf), Gather(n.kids[k], AllOf));
      } else if k < j {
        DisjointMembers(Gather(n.kids[k], AllOf), Gather(n.kids[j], AllOf));
      }
    }
  }

  /** A file or directory outside the removed tree keeps its clusters, its bytes and its directory entry. */
  lemma OutsideSurvives(lay: Layout, fat: seq<nat>, fat': seq<nat>, d: seq<Block>, d': seq<Block>, n: Node,
                        block: nat, index: nat, chain: seq<nat>, size: nat, b: nat, i: nat)
    requires lay.WellFormed(|d|) && EocAboveClusters(lay)
    requires fat' == Freed(fat, Gather(n, ReapedOf)) && SameButEntry(lay, d, d', Gather(n, DirsOf), block, index)
    requires IsChain(lay, fat, chain) && size <= Capacity(lay, Clusters(chain))
    requires Disjoint(Gather(n, AllOf), chain) && !Owned(lay, chain, block)
    requires b < |d| && !lay.InFat(b) && !Owned(lay, Gather(n, AllOf), b) && i < ENTRIES_PER_BLOCK
    requires block < |d| && !lay.InFat(block) && (b, i) != (block, index)
    ensures IsChain(lay, fat', chain) && lay.ExtentOk(Clusters(chain)) && |d'| == |d|
    ensures Content(lay, d', Clusters(chain), size) == Content(lay, d, Clusters(chain), size)
    ensures EntryAt(d'[b], i) == EntryAt(d[b], i)
  {
    PartOfAll(n, DirsOf);
    PartOfAll(n, ReapedOf);
    DisjointMembers(Gather(n, AllOf), chain);
    ChainFrame(lay, fat, fat', chain);
    ChainIsExtent(lay, fat, chain);
    MembersDisjoint(Gather(n, DirsOf), chain);
    OthersKeepTheirBytes(lay, d, d', Gather(n, DirsOf), block, index, Clusters(chain), size);
  }
}
