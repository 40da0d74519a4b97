/** The layout of a mounted FAT volume and the block arithmetic of SdVolume. */
module VolumeLayout {
  import opened Bytes
  import opened Bits

  /** Block number that stands for "no block is cached". */
  const NO_BLOCK: nat := 0xFFFF_FFFF

  /** End-of-chain value that the driver writes; a FAT16 entry keeps its low 16 bits. */
  const EOC: nat := 0x0FFF_FFFF

  /** The blocks that hold a file: the fixed FAT16 root area or a cluster chain. */
  datatype Extent = Root16 | Clusters(chain: seq<nat>)

  datatype Layout = Layout(
    fatType: nat,
    fatCount: nat,
    blocksPerFat: nat,
    fatStartBlock: nat,
    rootDirEntryCount: nat,
    rootDirStart: nat,
    dataStartBlock: nat,
    clusterCount: nat,
    clusterSizeShift: nat,
    blocksPerCluster: nat)
  {
    /** Size of a cluster in bytes. */
    function ClusterBytes(): nat { Shl(BLOCK_SIZE, clusterSizeShift) }

    /** Entries of one FAT. */
    function FatCapacity(): nat { if fatType == 16 then 256 * blocksPerFat else 128 * blocksPerFat }

    /** Blocks of the FATs that the driver writes: the first two. */
    function FatSpan(): nat { if fatCount > 1 then 2 * blocksPerFat else blocksPerFat }

    predicate InFat(b: nat) { fatStartBlock <= b < fatStartBlock + FatSpan() }

    predicate InFirstFat(b: nat) { fatStartBlock <= b < fatStartBlock + blocksPerFat }

    /** Blocks of the FAT16 root directory area. */
    function RootBlocks(): nat { (32 * rootDirEntryCount + 511) / 512 }

    function EocMin(): nat { if fatType == 16 then 0xFFF8 else 0x0FFF_FFF8 }

    predicate IsEoc(v: nat) { v >= EocMin() }

    /** The value that `fatGet` yields after `fatPut` stored `v`. */
    function Stored(v: nat): nat { if fatType == 16 then v % 0x1_0000 else v % 0x1000_0000 }

    predicate IsCluster(c: nat) { 2 <= c <= clusterCount + 1 }

    function ClusterStart(c: nat): nat
      requires c >= 2
    {
      dataStartBlock + Shl(c - 2, clusterSizeShift)
    }

    /** The cluster that holds data block `b`. */
    function ClusterOf(b: nat): nat
      requires dataStartBlock <= b
    {
      2 + Shr(b - dataStartBlock, clusterSizeShift)
    }

    /** Index within its cluster of the block that holds byte `position`. */
    function BlockOfCluster(position: nat): nat
      requires blocksPerCluster > 0
    {
      And(position / BLOCK_SIZE, blocksPerCluster - 1)
    }

    /** Index within its chain of the cluster that holds byte `position`. */
    function ClusterIndex(position: nat): nat { Shr(position / BLOCK_SIZE, clusterSizeShift) }

    /** One past the last block of the data area. */
    function DataEnd(): nat { dataStartBlock + Shl(clusterCount, clusterSizeShift) }

    /** A layout that a sound boot sector gives on a device of `n` blocks. */
    predicate WellFormed(n: nat) {
      && (fatType == 16 || fatType == 32)
      && clusterSizeShift <= 7
      && blocksPerCluster == Pow2(clusterSizeShift)
      && fatCount >= 1
      && fatStartBlock >= 1
      && (fatType == 16 ==>
            && fatStartBlock + FatSpan() <= rootDirStart
            && rootDirStart + RootBlocks() <= dataStartBlock)
      && (fatType == 32 ==> fatStartBlock + FatSpan() <= dataStartBlock)
      && DataEnd() <= n <= NO_BLOCK
      && 1 <= clusterCount && rootDirEntryCount < 0x1_0000
      && clusterCount + 2 <= FatCapacity()
      && clusterCount + 2 < EocMin()
    }

    /** Blocks in the extent `e`. */
    function BlockCount(e: Extent): nat {
      match e
      case Root16 => RootBlocks()
      case Clusters(chain) => Shl(|chain|, clusterSizeShift)
    }

    predicate ExtentOk(e: Extent) {
      match e
      case Root16 => fatType == 16
      case Clusters(chain) => ChainInRange(chain) && Distinct(chain)
    }

    predicate ChainInRange(chain: seq<nat>) {
      forall i :: 0 <= i < |chain| ==> IsCluster(chain[i])
    }

    /** Device block of the `i`-th block of the extent. */
    function NthBlock(e: Extent, i: nat): nat
      requires ExtentOk(e) && i < BlockCount(e)
    {
      match e
      case Root16 => rootDirStart + i
      case Clusters(chain) =>
        ShrLess(i, |chain|, clusterSizeShift);
        ClusterStart(chain[Shr(i, clusterSizeShift)]) + Low(i, clusterSizeShift)
    }
  }

  predicate Distinct(s: seq<nat>) {
    forall i, j :: 0 <= i < j < |s| ==> s[i] != s[j]
  }

  /** A block of a cluster lies in the data area and determines its cluster and offset. */
  lemma ClusterBlock(lay: Layout, c: nat, j: nat)
    requires lay.IsCluster(c) && j < Pow2(lay.clusterSizeShift)
    ensures lay.dataStartBlock <= lay.ClusterStart(c) + j < lay.DataEnd()
    ensures lay.ClusterOf(lay.ClusterStart(c) + j) == c
    ensures Low(lay.ClusterStart(c) + j - lay.dataStartBlock, lay.clusterSizeShift) == j
  {
    Join(c - 2, j, lay.clusterSizeShift);
    ShlNext(c - 2, lay.clusterSizeShift);
    ShlMonotone(c - 1, lay.clusterCount, lay.clusterSizeShift);
  }

  /** (cluster, block in cluster) -> device block is injective. */
  lemma ClusterBlockInjective(lay: Layout, c: nat, j: nat, c': nat, j': nat)
    requires lay.IsCluster(c) && j < Pow2(lay.clusterSizeShift)
    requires lay.IsCluster(c') && j' < Pow2(lay.clusterSizeShift)
    requires lay.ClusterStart(c) + j == lay.ClusterStart(c') + j'
    ensures c == c' && j == j'
  {
    ClusterBlock(lay, c, j);
    ClusterBlock(lay, c', j');
  }

  /** Data blocks never meet the FATs, the FAT16 root area, or the end of the device. */
  lemma DataAreaSeparate(lay: Layout, n: nat, c: nat, j: nat)
    requires lay.WellFormed(n) && lay.IsCluster(c) && j < lay.blocksPerCluster
    ensures lay.ClusterStart(c) + j < n
    ensures !lay.InFat(lay.ClusterStart(c) + j)
    ensures lay.fatType == 16 ==> lay.ClusterStart(c) + j >= lay.rootDirStart + lay.RootBlocks()
  {
    ClusterBlock(lay, c, j);
  }

  /** Where the `i`-th block of an extent lies. */
  lemma NthBlockPlace(lay: Layout, n: nat, e: Extent, i: nat)
    requires lay.WellFormed(n) && lay.ExtentOk(e) && i < lay.BlockCount(e)
    ensures 0 < lay.NthBlock(e, i) < n
    ensures !lay.InFat(lay.NthBlock(e, i))
    ensures e.Root16? ==> lay.rootDirStart <= lay.NthBlock(e, i) < lay.dataStartBlock
    ensures e.Clusters? ==>
      && lay.NthBlock(e, i) >= lay.dataStartBlock
      && Shr(i, lay.clusterSizeShift) < |e.chain|
      && lay.ClusterOf(lay.NthBlock(e, i)) == e.chain[Shr(i, lay.clusterSizeShift)]
      && Low(lay.NthBlock(e, i) - lay.dataStartBlock, lay.clusterSizeShift) == Low(i, lay.clusterSizeShift)
  {
    if e.Clusters? {
      var k, j := Shr(i, lay.clusterSizeShift), Low(i, lay.clusterSizeShift);
      ShrLess(i, |e.chain|, lay.clusterSizeShift);
      Split(i, lay.clusterSizeShift);
      ClusterBlock(lay, e.chain[k], j);
      DataAreaSeparate(lay, n, e.chain[k], j);
    }
  }

  /** Different blocks of an extent are different device blocks. */
  lemma NthBlockInjective(lay: Layout, n: nat, e: Extent, i: nat, j: nat)
    requires lay.WellFormed(n) && lay.ExtentOk(e) && i < lay.BlockCount(e) && j < lay.BlockCount(e)
    requires lay.NthBlock(e, i) == lay.NthBlock(e, j)
    ensures i == j
  {
    if e.Clusters? {
      NthBlockPlace(lay, n, e, i);
      NthBlockPlace(lay, n, e, j);
      SameCoordinates(i, j, lay.clusterSizeShift);
    }
  }

  /** Blocks of two extents without a common cluster differ. */
  lemma NthBlockDisjoint(lay: Layout, n: nat, e: Extent, i: nat, e': Extent, j: nat)
    requires lay.WellFormed(n) && lay.ExtentOk(e) && i < lay.BlockCount(e)
    requires lay.ExtentOk(e') && j < lay.BlockCount(e')
    requires e.Clusters? || e'.Clusters?
    requires e.Clusters? && e'.Clusters? ==> Disjoint(e.chain, e'.chain)
    ensures lay.NthBlock(e, i) != lay.NthBlock(e', j)
  {
    NthBlockPlace(lay, n, e, i);
    NthBlockPlace(lay, n, e', j);
  }

  predicate Disjoint(s: seq<nat>, t: seq<nat>) {
    forall i, j :: 0 <= i < |s| && 0 <= j < |t| ==> s[i] != t[j]
  }

  lemma DisjointMembers(s: seq<nat>, t: seq<nat>)
    requires Disjoint(s, t)
    ensures forall c :: c in s ==> c !in t
  {
  }

  lemma DisjointSwap(s: seq<nat>, t: seq<nat>)
    requires Disjoint(s, t)
    ensures Disjoint(t, s)
  {
  }

  lemma MembersDisjoint(s: seq<nat>, t: seq<nat>)
    requires forall c :: c in s ==> c !in t
    ensures Disjoint(s, t)
  {
    forall i, j | 0 <= i < |s| && 0 <= j < |t|
      ensures s[i] != t[j]
    {
      assert s[i] in s && t[j] in t;
    }
  }

  /** A file grows without moving its blocks. */
  lemma NthBlockPrefix(lay: Layout, chain: seq<nat>, more: seq<nat>, i: nat)
    requires lay.ExtentOk(Clusters(chain)) && lay.ExtentOk(Clusters(chain + more))
    requires i < lay.BlockCount(Clusters(chain))
    ensures i < lay.BlockCount(Clusters(chain + more))
    ensures lay.NthBlock(Clusters(chain), i) == lay.NthBlock(Clusters(chain + more), i)
  {
    ShlMonotone(|chain|, |chain + more|, lay.clusterSizeShift);
    ShrLess(i, |chain|, lay.clusterSizeShift);
  }

  /** Bytes in `n` clusters. */
  function ChainBytes(lay: Layout, n: nat): nat { Shl(BLOCK_SIZE * n, lay.clusterSizeShift) }

  /** Adding up cluster sizes in 32 bits gives the size of the chain modulo 2^32. */
  lemma ChainBytesStep(lay: Layout, n: nat)
    ensures (ChainBytes(lay, n) % 0x1_0000_0000 + lay.ClusterBytes()) % 0x1_0000_0000
         == ChainBytes(lay, n + 1) % 0x1_0000_0000
    ensures ChainBytes(lay, 0) == 0
  {
    ShlAdd(BLOCK_SIZE * n, BLOCK_SIZE, lay.clusterSizeShift);
    ShlZero(lay.clusterSizeShift);
    WrapAdd(ChainBytes(lay, n), lay.ClusterBytes());
  }

  lemma WrapAdd(x: nat, y: nat)
    ensures (x % 0x1_0000_0000 + y) % 0x1_0000_0000 == (x + y) % 0x1_0000_0000
  {
    assert x + y == 0x1_0000_0000 * (x / 0x1_0000_0000) + (x % 0x1_0000_0000 + y);
  }

  lemma ChainBytesByNumber(lay: Layout, n: nat)
    requires lay.blocksPerCluster == Pow2(lay.clusterSizeShift)
    ensures ChainBytes(lay, n) == n * lay.blocksPerCluster * 512
  {
    ChainBytesOfBlocks(lay, n);
    ShlIsMul(n, lay.clusterSizeShift);
  }

  /** A chain of `n` clusters has 512 bytes in each of its blocks. */
  lemma ChainBytesOfBlocks(lay: Layout, n: nat)
    ensures ChainBytes(lay, n) == BLOCK_SIZE * Shl(n, lay.clusterSizeShift)
  {
    ShlTimes(n, BLOCK_SIZE, lay.clusterSizeShift);
  }
}
