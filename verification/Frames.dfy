/**
 * What an operation on one entry of a directory may change, whether it succeeds or not: the
 * entry, the clusters of the file that it names, free clusters, and the end of the directory.
 */
module Frames {
  import opened Bytes
  import opened VolumeLayout
  import opened Chains
  import opened FileData
  import opened DirEntry
  import opened DirTable
  import opened DirOnDisk

  /** Block `b` belongs to the extent. */
  predicate InPlace(lay: Layout, place: Extent, b: nat) {
    match place
    case Root16 => b < lay.dataStartBlock
    case Clusters(chain) => Owned(lay, chain, b)
  }

  /** Block `b` is in use, by something other than a FAT and the clusters in `own`. */
  predicate Foreign(lay: Layout, fat: seq<nat>, own: seq<nat>, b: nat) {
    !lay.InFat(b) && UsedBlock(lay, fat, b) && !Owned(lay, own, b)
  }

  /**
   * Blocks that were in use, and not by clusters in `own`, are unchanged except for entry `index`
   * of block `block`; and that is an exception only if the block belongs to the directory.
   */
  ghost predicate OthersKept(lay: Layout, fat: seq<nat>, d: seq<Block>, d': seq<Block>, own: seq<nat>,
                             place: Extent, block: nat, index: nat)
  {
    && |d| == |d'|
    && (forall b {:trigger d'[b]} :: 0 <= b < |d| ==>
          Foreign(lay, fat, own, b) && !(b == block && InPlace(lay, place, b)) ==> d'[b] == d[b])
    && (block < |d| && Foreign(lay, fat, own, block) ==>
          forall i {:trigger EntryAt(d'[block], i)} :: 0 <= i < ENTRIES_PER_BLOCK && i != index ==>
            EntryAt(d'[block], i) == EntryAt(d[block], i))
  }

  /** `after` and `dir'` took only clusters that were the file's, the directory's or free. */
  ghost predicate Taken(fat: seq<nat>, own: seq<nat>, after: seq<nat>) {
    forall c :: c in after ==> c in own || (c < |fat| && fat[c] == 0)
  }

  ghost predicate InUseBy(fat: seq<nat>, s: seq<nat>) {
    forall c :: c in s ==> c < |fat| && fat[c] != 0
  }

  /**
   * The frame of an operation: `dir` and `dir'` are the clusters of the directory, `own` and
   * `after` those of the file, before and after it.
   */
  ghost predicate Frame(lay: Layout, fat: seq<nat>, fat': seq<nat>, d: seq<Block>, d': seq<Block>,
                        dir: seq<nat>, dir': seq<nat>, own: seq<nat>, after: seq<nat>,
                        place: Extent, block: nat, index: nat)
  {
    && Confined(fat, fat', dir + own)
    && dir <= dir' && InUseBy(fat', dir') && Taken(fat, dir + own, dir' + after)
    && Disjoint(after, dir')
    && (place.Clusters? ==> place.chain == dir')
    && OthersKept(lay, fat, d, d', own, place, block, index)
  }

  lemma NoFrame(lay: Layout, fat: seq<nat>, d: seq<Block>, dir: seq<nat>, own: seq<nat>, after: seq<nat>,
                place: Extent, block: nat, index: nat)
    requires InUseBy(fat, dir) && (place.Clusters? ==> place.chain == dir) && forall c :: c in after ==> c in own
    requires Disjoint(after, dir)
    ensures Frame(lay, fat, fat, d, d, dir, dir, own, after, place, block, index)
  {
  }

  lemma FrameWiden(lay: Layout, f0: seq<nat>, f1: seq<nat>, d0: seq<Block>, d1: seq<Block>, s0: seq<nat>, s1: seq<nat>,
                   own: seq<nat>, after: seq<nat>, place: Extent, block: nat, index: nat)
    requires Frame(lay, f0, f1, d0, d1, s0, s1, [], after, place, block, index)
    ensures Frame(lay, f0, f1, d0, d1, s0, s1, own, after, place, block, index)
  {
  }

  /** Clusters that no file ends up with are lost. */
  lemma FrameDrop(lay: Layout, f0: seq<nat>, f1: seq<nat>, d0: seq<Block>, d1: seq<Block>, s0: seq<nat>, s1: seq<nat>,
                  own: seq<nat>, after: seq<nat>, place: Extent, block: nat, index: nat)
    requires Frame(lay, f0, f1, d0, d1, s0, s1, own, after, place, block, index)
    ensures Frame(lay, f0, f1, d0, d1, s0, s1, own, [], place, block, index)
  {
    assert s1 + [] == s1;
    forall c | c in s1
      ensures c in s1 + after
    {
    }
  }

  /** Two operations, one after the other, on the same entry. */
  lemma FrameTrans(lay: Layout, f0: seq<nat>, f1: seq<nat>, f2: seq<nat>,
                   d0: seq<Block>, d1: seq<Block>, d2: seq<Block>,
                   s0: seq<nat>, s1: seq<nat>, s2: seq<nat>, own: seq<nat>, mid: seq<nat>, after: seq<nat>,
                   p1: Extent, p2: Extent, block: nat, index: nat)
    requires Frame(lay, f0, f1, d0, d1, s0, s1, own, mid, p1, block, index)
    requires Frame(lay, f1, f2, d1, d2, s1, s2, mid, after, p2, block, index)
    requires p1.Clusters? <==> p2.Clusters?
    ensures Frame(lay, f0, f2, d0, d2, s0, s2, own, after, p2, block, index)
  {
    hide OthersKept;
    TakenTrans(f0, f1, s0 + own, s1 + mid, s2 + after);
    ConfinedTrans(f0, f1, f2, s0 + own, s1 + mid);
    ForeignStays(lay, f0, f1, s0, s1, own, mid);
    OthersTrans(lay, f0, f1, d0, d1, d2, own, mid, p1, p2, block, index);
  }

  lemma TakenTrans(f0: seq<nat>, f1: seq<nat>, s0: seq<nat>, s1: seq<nat>, s2: seq<nat>)
    requires Taken(f0, s0, s1) && Taken(f1, s1, s2) && Confined(f0, f1, s0)
    ensures Taken(f0, s0, s2)
  {
    forall c | c in s2 && c !in s0
      ensures c < |f0| && f0[c] == 0
    {
      assert c in s1 || f1[c] == 0;
    }
  }

  /** What is in use by something else stays so. */
  lemma ForeignStays(lay: Layout, f0: seq<nat>, f1: seq<nat>, s0: seq<nat>, s1: seq<nat>, own: seq<nat>, mid: seq<nat>)
    requires Confined(f0, f1, s0 + own) && s0 <= s1 && InUseBy(f1, s1) && Taken(f0, s0 + own, s1 + mid)
    requires Disjoint(mid, s1)
    ensures forall b: nat :: Foreign(lay, f0, own, b) ==> Foreign(lay, f1, mid, b)
  {
    PrefixMembers(s0, s1);
    DisjointMembers(mid, s1);
    forall b: nat | Foreign(lay, f0, own, b)
      ensures Foreign(lay, f1, mid, b)
    {
      if b >= lay.dataStartBlock {
        var c := lay.ClusterOf(b);
        assert c in mid ==> c in s1 + mid;
      }
    }
  }

  lemma OthersTrans(lay: Layout, f0: seq<nat>, f1: seq<nat>, d0: seq<Block>, d1: seq<Block>, d2: seq<Block>,
                    own: seq<nat>, mid: seq<nat>, p1: Extent, p2: Extent, block: nat, index: nat)
    requires OthersKept(lay, f0, d0, d1, own, p1, block, index) && OthersKept(lay, f1, d1, d2, mid, p2, block, index)
    requires forall b: nat :: Foreign(lay, f0, own, b) ==> Foreign(lay, f1, mid, b)
    requires if p1.Root16? then p2.Root16? else p2.Clusters? && p1.chain <= p2.chain
    ensures OthersKept(lay, f0, d0, d2, own, p2, block, index)
  {
    hide Foreign;
    if p1.Clusters? {
      PrefixMembers(p1.chain, p2.chain);
    }
    forall i | 0 <= i < ENTRIES_PER_BLOCK && i != index && block < |d0| && Foreign(lay, f0, own, block)
      ensures EntryAt(d2[block], i) == EntryAt(d0[block], i)
    {
      assert EntryAt(d2[block], i) == EntryAt(d1[block], i);
    }
  }

  /** An operation that only prolonged the directory, or changed an entry of it, or both. */
  lemma FrameOfGrowth(lay: Layout, f0: seq<nat>, f1: seq<nat>, d0: seq<Block>, d1: seq<Block>,
                      s0: seq<nat>, s1: seq<nat>, place: Extent, block: nat, index: nat)
    requires EocAboveClusters(lay) && Step(lay, f0, f1, s0, s1) && s0 <= s1
    requires place.Clusters? ==> place.chain == s1
    requires SameButEntry(lay, d0, d1, s1[|s0|..], block, index)
    requires InPlace(lay, place, block) || SameElsewhere(lay, d0, d1, s1[|s0|..])
    ensures Frame(lay, f0, f1, d0, d1, s0, s1, [], [], place, block, index)
  {
    assert s0 + [] == s0 && s1 + [] == s1;
    ChainSuffixFree(lay, f0, f1, s0, s1);
    forall c | c in s1
      ensures c < |f1| && f1[c] != 0
    {
      ChainInUse(lay, f1, s1, c);
    }
  }

  /** What a chain gained was free. */
  lemma ChainSuffixFree(lay: Layout, f0: seq<nat>, f1: seq<nat>, s0: seq<nat>, s1: seq<nat>)
    requires EocAboveClusters(lay) && Step(lay, f0, f1, s0, s1) && s0 <= s1
    ensures forall c :: c in s1[|s0|..] ==> c < |f0| && f0[c] == 0
  {
    if s1 != [] {
      ChainDistinct(lay, f1, s1);
    }
    forall c | c in s1[|s0|..]
      ensures c < |f0| && f0[c] == 0
    {
      var i :| |s0| <= i < |s1| && s1[i] == c;
      assert forall j :: 0 <= j < |s0| ==> s0[j] == s1[j];
      assert c !in s0 && c in s1;
    }
  }

  /** An operation on a file, and on its entry in the directory. */
  lemma FrameOfFile(lay: Layout, f0: seq<nat>, f1: seq<nat>, d0: seq<Block>, d1: seq<Block>, s: seq<nat>,
                    own: seq<nat>, after: seq<nat>, touched: seq<nat>, place: Extent, block: nat, index: nat)
    requires Confined(f0, f1, own) && Taken(f0, own, after) && Taken(f0, own, touched)
    requires InUseBy(f0, s) && Disjoint(own, s) && (place.Clusters? ==> place.chain == s)
    requires SameButEntry(lay, d0, d1, touched, block, index)
    requires InPlace(lay, place, block) || SameElsewhere(lay, d0, d1, touched)
    ensures Frame(lay, f0, f1, d0, d1, s, s, own, after, place, block, index)
  {
    DisjointMembers(own, s);
    MembersDisjoint(after, s);
    forall c | c in s
      ensures c < |f1| && f1[c] != 0
    {
      assert f1[c] == f0[c];
    }
  }

  /** Every other file keeps its clusters, which stay apart, and its bytes. */
  lemma FrameKeepsFile(lay: Layout, f0: seq<nat>, f1: seq<nat>, d0: seq<Block>, d1: seq<Block>,
                       s0: seq<nat>, s1: seq<nat>,
                       own: seq<nat>, after: seq<nat>, place: Extent, block: nat, index: nat, t: seq<nat>, size: nat)
    requires lay.WellFormed(|d0|) && EocAboveClusters(lay)
    requires Frame(lay, f0, f1, d0, d1, s0, s1, own, after, place, block, index)
    requires IsChain(lay, f0, t) && Disjoint(s0, t) && Disjoint(own, t) && size <= Capacity(lay, Clusters(t))
    ensures IsChain(lay, f1, t) && Disjoint(s1, t) && Disjoint(after, t)
    ensures lay.ExtentOk(Clusters(t)) && |d1| == |d0|
    ensures Content(lay, d1, Clusters(t), size) == Content(lay, d0, Clusters(t), size)
  {
    hide Capacity, Layout.WellFormed, Layout.ExtentOk, OthersKept, InPlace;
    ChainIsExtent(lay, f0, t);
    DisjointMembers(s0, t);
    DisjointMembers(own, t);
    TakenApart(lay, f0, s0 + own, s1 + after, t);
    DisjointParts(s1, after, t);
    MembersDisjoint(s0 + own, t);
    OthersKeepTheirChains(lay, f0, f1, s0 + own, t);
    ForeignBlocks(lay, f0, d0, d1, own, place, block, index, t, size, s1);
  }

  lemma DisjointParts(s: seq<nat>, s': seq<nat>, t: seq<nat>)
    requires Disjoint(s + s', t)
    ensures Disjoint(s, t) && Disjoint(s', t)
  {
    DisjointMembers(s + s', t);
    MembersDisjoint(s, t);
    MembersDisjoint(s', t);
  }

  /** What was taken was not in use by another chain. */
  lemma TakenApart(lay: Layout, fat: seq<nat>, own: seq<nat>, after: seq<nat>, t: seq<nat>)
    requires Taken(fat, own, after) && IsChain(lay, fat, t) && forall c :: c in own ==> c !in t
    ensures Disjoint(after, t)
  {
    forall c | c in after
      ensures c !in t
    {
      if c in t {
        ChainInUse(lay, fat, t, c);
      }
    }
    MembersDisjoint(after, t);
  }

  lemma ForeignBlocks(lay: Layout, fat: seq<nat>, d0: seq<Block>, d1: seq<Block>, own: seq<nat>, place: Extent,
                      block: nat, index: nat, t: seq<nat>, size: nat, s1: seq<nat>)
    requires lay.WellFormed(|d0|) && lay.ExtentOk(Clusters(t)) && size <= Capacity(lay, Clusters(t))
    requires OthersKept(lay, fat, d0, d1, own, place, block, index)
    requires IsChain(lay, fat, t) && Disjoint(own, t) && Disjoint(s1, t) && (place.Clusters? ==> place.chain == s1)
    ensures |d1| == |d0| && Content(lay, d1, Clusters(t), size) == Content(lay, d0, Clusters(t), size)
  {
    DisjointMembers(own, t);
    DisjointMembers(s1, t);
    forall p | 0 <= p < size
      ensures ByteAt(lay, d1, Clusters(t), p) == ByteAt(lay, d0, Clusters(t), p)
    {
      NthBlockPlace(lay, |d0|, Clusters(t), p / BLOCK_SIZE);
      var b := lay.NthBlock(Clusters(t), p / BLOCK_SIZE);
      assert lay.ClusterOf(b) in t;
      ChainInUse(lay, fat, t, lay.ClusterOf(b));
      assert Foreign(lay, fat, own, b) && !InPlace(lay, place, b);
    }
  }

  /** Every other directory entry in use stays as it is. */
  lemma FrameKeepsEntry(lay: Layout, f0: seq<nat>, f1: seq<nat>, d0: seq<Block>, d1: seq<Block>,
                        s0: seq<nat>, s1: seq<nat>,
                        own: seq<nat>, after: seq<nat>, place: Extent, block: nat, index: nat, b: nat, i: nat)
    requires Frame(lay, f0, f1, d0, d1, s0, s1, own, after, place, block, index)
    requires b < |d0| && Foreign(lay, f0, own, b) && i < ENTRIES_PER_BLOCK && (b, i) != (block, index)
    ensures |d1| == |d0| && EntryAt(d1[b], i) == EntryAt(d0[b], i) && Foreign(lay, f1, after, b)
  {
    ForeignStays(lay, f0, f1, s0, s1, own, after);
  }

  lemma SlotInPlace(lay: Layout, size: nat, place: Extent, k: nat)
    requires lay.WellFormed(size) && lay.ExtentOk(place) && k / ENTRIES_PER_BLOCK < lay.BlockCount(place)
    ensures InPlace(lay, place, SlotBlock(lay, place, k))
  {
    NthBlockPlace(lay, size, place, k / ENTRIES_PER_BLOCK);
  }

  /** A change of an entry in a cluster of one's own is no change elsewhere. */
  lemma EntryInOwn(lay: Layout, d: seq<Block>, d': seq<Block>, block: nat, index: nat, own: seq<nat>)
    requires SameButEntry(lay, d, d', own, block, index) && Owned(lay, own, block)
    ensures SameElsewhere(lay, d, d', own)
  {
  }

  /** A chain is untouched by changes confined to other clusters. */
  lemma ChainSurvives(lay: Layout, fat: seq<nat>, fat': seq<nat>, first: nat, chain: seq<nat>, own: seq<nat>)
    requires FileChain(lay, fat, first, chain) && Confined(fat, fat', own) && Disjoint(chain, own)
    ensures FileChain(lay, fat', first, chain)
  {
    if first != 0 {
      DisjointSwap(chain, own);
      OthersKeepTheirChains(lay, fat, fat', own, chain);
    }
  }

  /**
   * Whatever an operation does to a file, its directory remains a sound directory, and in the
   * directory's map only the value under the file's name changes.
   */
  lemma FileStepInDir(lay: Layout, fat: seq<nat>, fat': seq<nat>, d: seq<Block>, d': seq<Block>,
                      place: Extent, first: nat, dirChain: seq<nat>, n: nat, k: nat, own: seq<nat>, after: seq<nat>)
    requires lay.WellFormed(|d|) && lay.ExtentOk(place) && n <= ENTRIES_PER_BLOCK * lay.BlockCount(place) && k < n
    requires place.Clusters? ==> place.chain == dirChain
    requires FileChain(lay, fat, first, dirChain) && Disjoint(own, dirChain)
    requires Confined(fat, fat', own) && forall c :: c in after ==> c in own || (c < |fat| && fat[c] == 0)
    requires SameButEntry(lay, d, d', after, SlotBlock(lay, place, k), k % ENTRIES_PER_BLOCK)
    requires Sound(Table(lay, d, place, n)) && IsLive(Table(lay, d, place, n)[k])
    requires |d'| == |d| && Name(SlotAt(lay, d', place, k)) == Name(Table(lay, d, place, n)[k])
    ensures FileChain(lay, fat', first, dirChain) && Disjoint(after, dirChain)
    ensures var t, t' := Table(lay, d, place, n), Table(lay, d', place, n);
      var name := Name(t[k]);
      && t' == t[k := SlotAt(lay, d', place, k)] && Sound(t')
      && SlotOf(t, name) == k == SlotOf(t', name) && TableMap(t') == TableMap(t)[name := t'[k]]
  {
    hide Layout.WellFormed, Layout.ExtentOk, Layout.BlockCount, Table, SlotAt, SlotBlock, Sound, TableMap, SlotOf;
    hide SameButEntry, Confined, Name, IsLive;
    StaysApart(lay, fat, first, dirChain, own, after);
    DisjointSwap(own, dirChain);
    ChainSurvives(lay, fat, fat', first, dirChain, own);
    TableUpdate(lay, d, d', after, place, n, k);
    Replace(Table(lay, d, place, n), k, SlotAt(lay, d', place, k));
  }

  /** A file takes only free clusters, and a directory has none of those. */
  lemma StaysApart(lay: Layout, fat: seq<nat>, first: nat, chain: seq<nat>, own: seq<nat>, after: seq<nat>)
    requires FileChain(lay, fat, first, chain) && Disjoint(own, chain)
    requires forall c :: c in after ==> c in own || (c < |fat| && fat[c] == 0)
    ensures Disjoint(after, chain)
  {
    forall i, j | 0 <= i < |after| && 0 <= j < |chain|
      ensures after[i] != chain[j]
    {
      assert after[i] in after;
      ChainInUse(lay, fat, chain, chain[j]);
    }
  }
}
