/** A directory on the block map: its table of entries, and how stores change it. */
module DirOnDisk {
  import opened Bytes
  import opened Bits
  import opened VolumeLayout
  import opened Device
  import opened FileData
  import opened DirEntry

  /** Device block of slot `k`. */
  function SlotBlock(lay: Layout, e: Extent, k: nat): nat
    requires lay.ExtentOk(e) && k / ENTRIES_PER_BLOCK < lay.BlockCount(e)
  {
    lay.NthBlock(e, k / ENTRIES_PER_BLOCK)
  }

  function SlotAt(lay: Layout, d: seq<Block>, e: Extent, k: nat): Entry
    requires lay.WellFormed(|d|) && lay.ExtentOk(e) && k / ENTRIES_PER_BLOCK < lay.BlockCount(e)
  {
    NthBlockPlace(lay, |d|, e, k / ENTRIES_PER_BLOCK);
    EntryAt(d[SlotBlock(lay, e, k)], k % ENTRIES_PER_BLOCK)
  }

  /** The first `n` slots of the directory. */
  function Table(lay: Layout, d: seq<Block>, e: Extent, n: nat): (t: seq<Entry>)
    requires lay.WellFormed(|d|) && lay.ExtentOk(e) && n <= ENTRIES_PER_BLOCK * lay.BlockCount(e)
    ensures |t| == n
    ensures forall k {:trigger t[k]} :: 0 <= k < n ==> t[k] == SlotAt(lay, d, e, k)
  {
    seq(n, k requires 0 <= k < n => SlotAt(lay, d, e, k))
  }

  /** Slots are where the bytes of the directory file put them. */
  lemma SlotIsContent(lay: Layout, d: seq<Block>, e: Extent, k: nat)
    requires lay.WellFormed(|d|) && lay.ExtentOk(e) && k / ENTRIES_PER_BLOCK < lay.BlockCount(e)
    ensures ENTRY_SIZE * k + ENTRY_SIZE <= Capacity(lay, e)
    ensures SlotAt(lay, d, e, k)
         == Content(lay, d, e, ENTRY_SIZE * k + ENTRY_SIZE)[ENTRY_SIZE * k..]
  {
    var s := SlotAt(lay, d, e, k);
    var b := k / ENTRIES_PER_BLOCK;
    NthBlockPlace(lay, |d|, e, b);
    forall i | 0 <= i < ENTRY_SIZE
      ensures s[i] == Content(lay, d, e, ENTRY_SIZE * k + ENTRY_SIZE)[ENTRY_SIZE * k + i]
    {
      assert (ENTRY_SIZE * k + i) / BLOCK_SIZE == b;
      assert (ENTRY_SIZE * k + i) % BLOCK_SIZE == ENTRY_SIZE * (k % ENTRIES_PER_BLOCK) + i;
    }
  }

  /** The 32 bytes of slot `k`: 16 slots lie in each block of the root area, and of a cluster. */
  lemma SlotOnDevice(lay: Layout, d: seq<Block>, e: Extent, k: nat, j: nat)
    requires lay.WellFormed(|d|) && lay.ExtentOk(e) && k / ENTRIES_PER_BLOCK < lay.BlockCount(e) && j < 32
    ensures SlotAt(lay, d, e, k)[j] == Device.FileByte(lay, d, e, 32 * k + j)
    ensures e.Root16? ==> lay.rootDirStart + k / 16 < |d|
    ensures e.Root16? ==> SlotAt(lay, d, e, k)[j] == d[lay.rootDirStart + k / 16][32 * (k % 16) + j]
  {
    NthBlockPlace(lay, |d|, e, k / ENTRIES_PER_BLOCK);
    NthBlockOnDevice(lay, |d|, e, k / ENTRIES_PER_BLOCK);
    assert (32 * k + j) / 512 == k / 16 && (32 * k + j) % 512 == 32 * (k % 16) + j;
    hide Layout.WellFormed, Layout.ExtentOk, Layout.BlockCount, Layout.NthBlock;
  }

  /** Different slots of a directory are different entries of the block map. */
  lemma SlotInjective(lay: Layout, n: nat, e: Extent, j: nat, k: nat)
    requires lay.WellFormed(n) && lay.ExtentOk(e)
    requires j / ENTRIES_PER_BLOCK < lay.BlockCount(e) && k / ENTRIES_PER_BLOCK < lay.BlockCount(e)
    requires SlotBlock(lay, e, j) == SlotBlock(lay, e, k) && j % ENTRIES_PER_BLOCK == k % ENTRIES_PER_BLOCK
    ensures j == k
  {
    NthBlockInjective(lay, n, e, j / ENTRIES_PER_BLOCK, k / ENTRIES_PER_BLOCK);
  }

  /** A change of one entry of the block map that is slot `k` changes exactly that slot. */
  lemma TableUpdate(lay: Layout, d: seq<Block>, d': seq<Block>, own: seq<nat>, e: Extent, n: nat, k: nat)
    requires lay.WellFormed(|d|) && lay.ExtentOk(e) && n <= ENTRIES_PER_BLOCK * lay.BlockCount(e) && k < n
    requires SameButEntry(lay, d, d', own, SlotBlock(lay, e, k), k % ENTRIES_PER_BLOCK)
    requires e.Clusters? ==> Disjoint(own, e.chain)
    ensures Table(lay, d', e, n) == Table(lay, d, e, n)[k := SlotAt(lay, d', e, k)]
  {
    forall j | 0 <= j < n && j != k
      ensures SlotAt(lay, d', e, j) == SlotAt(lay, d, e, j)
    {
      NthBlockPlace(lay, |d|, e, j / ENTRIES_PER_BLOCK);
      if SlotBlock(lay, e, j) == SlotBlock(lay, e, k) && j % ENTRIES_PER_BLOCK == k % ENTRIES_PER_BLOCK {
        SlotInjective(lay, |d|, e, j, k);
      }
    }
  }

  /** A change elsewhere changes no slot. */
  lemma TableFrame(lay: Layout, d: seq<Block>, d': seq<Block>, own: seq<nat>, block: nat, index: nat, e: Extent, n: nat)
    requires lay.WellFormed(|d|) && lay.ExtentOk(e) && n <= ENTRIES_PER_BLOCK * lay.BlockCount(e)
    requires SameButEntry(lay, d, d', own, block, index)
    requires e.Clusters? ==> Disjoint(own, e.chain) && !Owned(lay, e.chain, block)
    requires e.Root16? ==> block >= lay.dataStartBlock
    ensures Table(lay, d', e, n) == Table(lay, d, e, n)
  {
    forall j | 0 <= j < n
      ensures SlotAt(lay, d', e, j) == SlotAt(lay, d, e, j)
    {
      NthBlockPlace(lay, |d|, e, j / ENTRIES_PER_BLOCK);
    }
  }

  /** Every block of cluster `c` is zero. */
  ghost predicate ZeroCluster(lay: Layout, d: seq<Block>, c: nat)
    requires c >= 2
  {
    && lay.ClusterStart(c) + lay.blocksPerCluster <= |d|
    && forall b :: lay.ClusterStart(c) <= b < lay.ClusterStart(c) + lay.blocksPerCluster ==> IsZeroBlock(d[b])
  }

  lemma OldSlotStays(lay: Layout, d: seq<Block>, d': seq<Block>, chain: seq<nat>, c: nat, j: nat)
    requires lay.WellFormed(|d|) && lay.ExtentOk(Clusters(chain)) && lay.ExtentOk(Clusters(chain + [c]))
    requires SameElsewhere(lay, d, d', [c]) && j / ENTRIES_PER_BLOCK < lay.BlockCount(Clusters(chain))
    ensures j / ENTRIES_PER_BLOCK < lay.BlockCount(Clusters(chain + [c]))
    ensures SlotAt(lay, d', Clusters(chain + [c]), j) == SlotAt(lay, d, Clusters(chain), j)
  {
    var b := j / ENTRIES_PER_BLOCK;
    NthBlockPrefix(lay, chain, [c], b);
    NthBlockPlace(lay, |d|, Clusters(chain), b);
    var i := Shr(b, lay.clusterSizeShift);
    assert (chain + [c])[i] != (chain + [c])[|chain|];
  }

  lemma NewSlotFree(lay: Layout, d: seq<Block>, chain: seq<nat>, c: nat, j: nat)
    requires lay.WellFormed(|d|) && lay.IsCluster(c) && ZeroCluster(lay, d, c)
    requires lay.ExtentOk(Clusters(chain + [c]))
    requires lay.BlockCount(Clusters(chain)) <= j / ENTRIES_PER_BLOCK < lay.BlockCount(Clusters(chain + [c]))
    ensures SlotAt(lay, d, Clusters(chain + [c]), j) == ZERO_ENTRY
  {
    var k, b := lay.clusterSizeShift, j / ENTRIES_PER_BLOCK;
    var r := b - Shl(|chain|, k);
    ShlNext(|chain|, k);
    Join(|chain|, r, k);
    assert lay.NthBlock(Clusters(chain + [c]), b) == lay.ClusterStart(c) + r;
    assert IsZeroBlock(d[lay.ClusterStart(c) + r]);
  }

  /** A directory that grew by a zeroed cluster: the old slots, then free ones. */
  lemma TableGrows(lay: Layout, d: seq<Block>, d': seq<Block>, chain: seq<nat>, c: nat)
    requires lay.WellFormed(|d|) && lay.IsCluster(c)
    requires lay.ExtentOk(Clusters(chain)) && lay.ExtentOk(Clusters(chain + [c]))
    requires |d| == |d'| && SameElsewhere(lay, d, d', [c]) && ZeroCluster(lay, d', c)
    ensures lay.BlockCount(Clusters(chain)) < lay.BlockCount(Clusters(chain + [c]))
    ensures var n, n' := ENTRIES_PER_BLOCK * lay.BlockCount(Clusters(chain)),
                         ENTRIES_PER_BLOCK * lay.BlockCount(Clusters(chain + [c]));
      Table(lay, d', Clusters(chain + [c]), n') == Table(lay, d, Clusters(chain), n) + seq(n' - n, _ => ZERO_ENTRY)
  {
    hide Layout.WellFormed, Layout.ExtentOk, SlotAt, SameElsewhere, ZeroCluster;
    ShlNext(|chain|, lay.clusterSizeShift);
    var e, e' := Clusters(chain), Clusters(chain + [c]);
    var n, n' := ENTRIES_PER_BLOCK * lay.BlockCount(e), ENTRIES_PER_BLOCK * lay.BlockCount(e');
    forall j | 0 <= j < n'
      ensures Table(lay, d', e', n')[j] == (Table(lay, d, e, n) + seq(n' - n, _ => ZERO_ENTRY))[j]
    {
      if j < n {
        OldSlotStays(lay, d, d', chain, c, j);
      } else {
        NewSlotFree(lay, d', chain, c, j);
      }
    }
  }
}
