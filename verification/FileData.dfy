/** The bytes of a file: where they lie on the block map and how stores change them. */
module FileData {
  import opened Bytes
  import opened Bits
  import opened VolumeLayout
  import opened Device
  import opened Chains
  import opened Allocation
  import opened DirEntry

  /** Bytes that fit into the blocks of the extent. */
  function Capacity(lay: Layout, e: Extent): nat { BLOCK_SIZE * lay.BlockCount(e) }

  /** Byte `p` of the extent. */
  function ByteAt(lay: Layout, d: seq<Block>, e: Extent, p: nat): byte
    requires lay.WellFormed(|d|) && lay.ExtentOk(e) && p < Capacity(lay, e)
  {
    NthBlockPlace(lay, |d|, e, p / BLOCK_SIZE);
    d[lay.NthBlock(e, p / BLOCK_SIZE)][p % BLOCK_SIZE]
  }

  /** The first `n` bytes of the extent. */
  function Content(lay: Layout, d: seq<Block>, e: Extent, n: nat): (s: seq<byte>)
    requires lay.WellFormed(|d|) && lay.ExtentOk(e) && n <= Capacity(lay, e)
    ensures |s| == n
    ensures forall p :: 0 <= p < n ==> s[p] == ByteAt(lay, d, e, p)
  {
    seq(n, p requires 0 <= p < n => ByteAt(lay, d, e, p))
  }

  /** Where block `i` of an extent lies. */
  lemma NthBlockOnDevice(lay: Layout, n: nat, e: Extent, i: nat)
    requires lay.WellFormed(n) && lay.ExtentOk(e) && i < lay.BlockCount(e)
    ensures e.Root16? ==> lay.NthBlock(e, i) == lay.rootDirStart + i
    ensures e.Clusters? ==>
      && lay.blocksPerCluster > 0 && i / lay.blocksPerCluster < |e.chain|
      && lay.NthBlock(e, i)
         == lay.dataStartBlock + (e.chain[i / lay.blocksPerCluster] - 2) * lay.blocksPerCluster
            + i % lay.blocksPerCluster
  {
    if e.Clusters? {
      DivMod(i, lay.clusterSizeShift);
      ShrLess(i, |e.chain|, lay.clusterSizeShift);
      ShlIsMul(e.chain[Shr(i, lay.clusterSizeShift)] - 2, lay.clusterSizeShift);
    }
  }

  /** The bytes of a file are those that the device has in the root area or in its clusters. */
  lemma ByteOnDevice(lay: Layout, d: seq<Block>, e: Extent, p: nat)
    requires lay.WellFormed(|d|) && lay.ExtentOk(e) && p < Capacity(lay, e)
    ensures ByteAt(lay, d, e, p) == Device.FileByte(lay, d, e, p)
  {
    NthBlockPlace(lay, |d|, e, p / BLOCK_SIZE);
    NthBlockOnDevice(lay, |d|, e, p / BLOCK_SIZE);
    hide Layout.WellFormed, Layout.ExtentOk, Layout.BlockCount, Layout.NthBlock;
  }

  /** A chain is an extent. */
  lemma ChainIsExtent(lay: Layout, fat: seq<nat>, s: seq<nat>)
    requires EocAboveClusters(lay) && ChainOrEmpty(lay, fat, s)
    ensures lay.ExtentOk(Clusters(s))
  {
    if s != [] {
      ChainDistinct(lay, fat, s);
    }
  }

  // ---------------------------------------------------------------- the position in the chain

  /** `cur` is the cluster that holds byte `pos - 1`, and 0 at position 0. */
  predicate CursorAt(lay: Layout, chain: seq<nat>, pos: nat, cur: nat) {
    if pos == 0 then cur == 0
    else lay.ClusterIndex(pos - 1) < |chain| && cur == chain[lay.ClusterIndex(pos - 1)]
  }

  /** The driver's test for "the next byte begins a cluster". */
  predicate AtClusterStart(lay: Layout, pos: nat)
    requires lay.blocksPerCluster > 0
  {
    lay.BlockOfCluster(pos) == 0 && pos % BLOCK_SIZE == 0
  }

  /** Byte `p` lies in the chain exactly when its cluster index does. */
  lemma InCapacity(lay: Layout, chain: seq<nat>, p: nat)
    ensures p < Capacity(lay, Clusters(chain)) <==> lay.ClusterIndex(p) < |chain|
  {
    ShrLess(p / BLOCK_SIZE, |chain|, lay.clusterSizeShift);
  }

  /** Moving on from byte pos - 1 to byte pos enters the next cluster exactly at a cluster start. */
  lemma NextByte(lay: Layout, n: nat, pos: nat)
    requires lay.WellFormed(n)
    ensures lay.BlockOfCluster(pos) == Low(pos / BLOCK_SIZE, lay.clusterSizeShift) < lay.blocksPerCluster
    ensures pos == 0 ==> AtClusterStart(lay, pos) && lay.ClusterIndex(pos) == 0
    ensures pos > 0 ==>
      lay.ClusterIndex(pos) == lay.ClusterIndex(pos - 1) + (if AtClusterStart(lay, pos) then 1 else 0)
  {
    var k, b := lay.clusterSizeShift, pos / BLOCK_SIZE;
    assert lay.blocksPerCluster == Pow2(k);
    hide Layout.WellFormed, Pow2, Shl, Shr, Low, And;
    AndIsLow(b, k);
    Split(b, k);
    if pos == 0 {
      LowZero(k);
      ShrZero(k);
    } else {
      BlockBefore(pos);
      NextBlock(b, k);
    }
  }

  /** The next block is in the next cluster if it is the first one there. */
  lemma NextBlock(b: nat, k: nat)
    ensures b > 0 ==> Shr(b, k) == Shr(b - 1, k) + (if Low(b, k) == 0 then 1 else 0)
  {
    hide Pow2, Shl, Shr, Low;
    if b > 0 {
      Split(b - 1, k);
      Advance(b - 1, k);
    }
  }

  /** The block of the byte before `pos`. */
  lemma BlockBefore(pos: nat)
    requires pos > 0
    ensures (pos - 1) / BLOCK_SIZE == pos / BLOCK_SIZE - (if pos % BLOCK_SIZE == 0 then 1 else 0)
  {
  }

  /** The block that the driver computes from the cluster at hand is the block of byte pos. */
  lemma BlockOfByte(lay: Layout, n: nat, chain: seq<nat>, pos: nat)
    requires lay.WellFormed(n) && lay.ExtentOk(Clusters(chain)) && lay.ClusterIndex(pos) < |chain|
    ensures pos / BLOCK_SIZE < lay.BlockCount(Clusters(chain))
    ensures lay.ClusterStart(chain[lay.ClusterIndex(pos)]) + lay.BlockOfCluster(pos)
         == lay.NthBlock(Clusters(chain), pos / BLOCK_SIZE)
  {
    InCapacity(lay, chain, pos);
    AndIsLow(pos / BLOCK_SIZE, lay.clusterSizeShift);
  }

  /** Where the cluster of byte `pos` is found from the cluster of byte pos - 1. */
  lemma NextCluster(lay: Layout, n: nat, fat: seq<nat>, first: nat, chain: seq<nat>, pos: nat, cur: nat)
    requires lay.WellFormed(n) && FileChain(lay, fat, first, chain) && CursorAt(lay, chain, pos, cur)
    ensures cur == 0 <==> pos == 0
    ensures first == 0 <==> chain == []
    ensures !AtClusterStart(lay, pos) ==> lay.ClusterIndex(pos) < |chain| && cur == chain[lay.ClusterIndex(pos)]
    ensures pos == 0 ==> AtClusterStart(lay, pos) && lay.ClusterIndex(pos) == 0
    ensures pos == 0 && first != 0 ==> chain[0] == first
    ensures pos > 0 && AtClusterStart(lay, pos) ==>
      && cur < |fat|
      && 0 < lay.ClusterIndex(pos) <= |chain|
      && cur == chain[lay.ClusterIndex(pos) - 1]
      && (if lay.IsEoc(fat[cur]) then lay.ClusterIndex(pos) == |chain|
          else lay.ClusterIndex(pos) < |chain| && fat[cur] == chain[lay.ClusterIndex(pos)])
  {
    NextByte(lay, n, pos);
    if pos > 0 {
      ChainNext(lay, fat, chain, lay.ClusterIndex(pos - 1));
    }
  }

  /** A position that has a cluster lies in the file's room. */
  lemma CursorInCapacity(lay: Layout, chain: seq<nat>, pos: nat, cur: nat)
    requires CursorAt(lay, chain, pos, cur)
    ensures pos <= Capacity(lay, Clusters(chain))
  {
    if pos > 0 {
      InCapacity(lay, chain, pos - 1);
    }
  }

  /** Moving within a block keeps the cluster current. */
  lemma CursorAfter(lay: Layout, chain: seq<nat>, pos: nat, n: nat)
    requires lay.ClusterIndex(pos) < |chain| && 0 < n && pos % BLOCK_SIZE + n <= BLOCK_SIZE
    ensures CursorAt(lay, chain, pos + n, chain[lay.ClusterIndex(pos)])
  {
    SameBlockSameCluster(lay, pos, pos + n - 1);
  }

  lemma FileExtent(lay: Layout, fat: seq<nat>, first: nat, chain: seq<nat>)
    requires EocAboveClusters(lay) && FileChain(lay, fat, first, chain)
    ensures lay.ExtentOk(Clusters(chain))
  {
    ChainIsExtent(lay, fat, chain);
  }

  /** The driver's shift by cluster size and block size together gives the cluster index. */
  lemma IndexByShift(lay: Layout, x: nat)
    ensures Shr(x, lay.clusterSizeShift + 9) == lay.ClusterIndex(x)
  {
    ShrShr(x, 9, lay.clusterSizeShift);
    ShrNine(x);
    assert 9 + lay.clusterSizeShift == lay.clusterSizeShift + 9;
  }

  /** In numbers: clusters have 512 bytes in each of their blocks. */
  lemma IndexByNumber(lay: Layout, size: nat, x: nat)
    requires lay.WellFormed(size)
    ensures lay.blocksPerCluster > 0 && lay.ClusterIndex(x) == x / 512 / lay.blocksPerCluster
  {
    DivMod(x / 512, lay.clusterSizeShift);
  }

  lemma ShrNine(x: nat)
    ensures Shr(x, 9) == x / BLOCK_SIZE
  {
    assert Shr(x, 1) == x / 2 && Shr(x, 2) == x / 4 && Shr(x, 3) == x / 8;
    assert Shr(x, 4) == x / 16 && Shr(x, 5) == x / 32 && Shr(x, 6) == x / 64;
    assert Shr(x, 7) == x / 128 && Shr(x, 8) == x / 256;
  }

  /** A byte of the file has a cluster. */
  lemma InRoom(lay: Layout, chain: seq<nat>, p: nat, size: nat)
    requires p < size <= Capacity(lay, Clusters(chain))
    ensures lay.ClusterIndex(p) < |chain|
  {
    InCapacity(lay, chain, p);
  }

  lemma FileHead(lay: Layout, fat: seq<nat>, first: nat, chain: seq<nat>)
    requires FileChain(lay, fat, first, chain) && chain != []
    ensures chain[0] == first
  {
  }

  /** Positions of one block share their cluster. */
  lemma SameBlockSameCluster(lay: Layout, p: nat, q: nat)
    requires p / BLOCK_SIZE == q / BLOCK_SIZE
    ensures lay.ClusterIndex(p) == lay.ClusterIndex(q)
  {
  }

  // ---------------------------------------------------------------- stores

  /** Storing one block of the extent changes exactly the bytes of that block. */
  lemma StoreBlock(lay: Layout, d: seq<Block>, e: Extent, i: nat, b: Block)
    requires lay.WellFormed(|d|) && lay.ExtentOk(e) && i < lay.BlockCount(e)
    ensures lay.NthBlock(e, i) < |d|
    ensures forall p {:trigger ByteAt(lay, d[lay.NthBlock(e, i) := b], e, p)} :: 0 <= p < Capacity(lay, e) ==>
      ByteAt(lay, d[lay.NthBlock(e, i) := b], e, p)
      == if p / BLOCK_SIZE == i then b[p % BLOCK_SIZE] else ByteAt(lay, d, e, p)
  {
    NthBlockPlace(lay, |d|, e, i);
    var d' := d[lay.NthBlock(e, i) := b];
    forall p | 0 <= p < Capacity(lay, e)
      ensures ByteAt(lay, d', e, p) == if p / BLOCK_SIZE == i then b[p % BLOCK_SIZE] else ByteAt(lay, d, e, p)
    {
      NthBlockPlace(lay, |d|, e, p / BLOCK_SIZE);
      if lay.NthBlock(e, p / BLOCK_SIZE) == lay.NthBlock(e, i) {
        NthBlockInjective(lay, |d|, e, p / BLOCK_SIZE, i);
      }
    }
  }

  /** Bytes already in a file keep their place when clusters are appended. */
  lemma BytePrefix(lay: Layout, d: seq<Block>, chain: seq<nat>, more: seq<nat>, p: nat)
    requires lay.WellFormed(|d|)
    requires lay.ExtentOk(Clusters(chain)) && lay.ExtentOk(Clusters(chain + more))
    requires p < Capacity(lay, Clusters(chain))
    ensures p < Capacity(lay, Clusters(chain + more))
    ensures ByteAt(lay, d, Clusters(chain + more), p) == ByteAt(lay, d, Clusters(chain), p)
  {
    NthBlockPrefix(lay, chain, more, p / BLOCK_SIZE);
  }

  /** Equal block maps except for the blocks of the two FATs. */
  ghost predicate SameOutsideFat(lay: Layout, d: seq<Block>, d': seq<Block>) {
    |d| == |d'| && forall b {:trigger d'[b]} :: 0 <= b < |d| && !lay.InFat(b) ==> d'[b] == d[b]
  }

  /** `d` and `d'` agree on every block outside the FATs and the clusters in `own`. */
  ghost predicate SameElsewhere(lay: Layout, d: seq<Block>, d': seq<Block>, own: seq<nat>) {
    && |d| == |d'|
    && forall b {:trigger d'[b]} :: 0 <= b < |d| && !lay.InFat(b) && !Owned(lay, own, b) ==> d'[b] == d[b]
  }

  /** Block `b` belongs to a cluster in `own`. */
  predicate Owned(lay: Layout, own: seq<nat>, b: nat) {
    b >= lay.dataStartBlock && lay.ClusterOf(b) in own
  }

  /** The first block of a cluster belongs to it. */
  lemma StartOwned(lay: Layout, c: nat)
    requires lay.IsCluster(c)
    ensures Owned(lay, [c], lay.ClusterStart(c))
  {
    ClusterBlock(lay, c, 0);
  }

  /** Block `b` lies outside the FATs and not in a free cluster. */
  predicate UsedBlock(lay: Layout, fat: seq<nat>, b: nat) {
    b >= lay.dataStartBlock ==> lay.ClusterOf(b) < |fat| && fat[lay.ClusterOf(b)] != 0
  }

  /**
   * `d` and `d'` agree outside the FATs and the clusters in `own`, except for the directory
   * entry `index` of block `block`.
   */
  ghost predicate SameButEntry(lay: Layout, d: seq<Block>, d': seq<Block>, own: seq<nat>, block: nat, index: nat) {
    && |d| == |d'|
    && (forall b {:trigger d'[b]} :: 0 <= b < |d| && !lay.InFat(b) && !Owned(lay, own, b) && b != block ==>
          d'[b] == d[b])
    && (block < |d| && !lay.InFat(block) && !Owned(lay, own, block) ==>
          forall i {:trigger EntryAt(d'[block], i)} :: 0 <= i < ENTRIES_PER_BLOCK && i != index ==>
            EntryAt(d'[block], i) == EntryAt(d[block], i))
  }

  /** An extent that shares no cluster with `own`, and does not hold the entry, keeps its bytes. */
  lemma OthersKeepTheirBytes(lay: Layout, d: seq<Block>, d': seq<Block>, own: seq<nat>, block: nat, index: nat,
                             e: Extent, n: nat)
    requires lay.WellFormed(|d|) && lay.ExtentOk(e) && n <= Capacity(lay, e)
    requires SameButEntry(lay, d, d', own, block, index)
    requires e.Clusters? ==> Disjoint(own, e.chain) && !Owned(lay, e.chain, block)
    requires e.Root16? ==> block >= lay.dataStartBlock
    ensures Content(lay, d', e, n) == Content(lay, d, e, n)
  {
    forall p | 0 <= p < n
      ensures ByteAt(lay, d', e, p) == ByteAt(lay, d, e, p)
    {
      NthBlockPlace(lay, |d|, e, p / BLOCK_SIZE);
    }
  }

  lemma ElsewhereButEntry(lay: Layout, d: seq<Block>, d': seq<Block>, own: seq<nat>, block: nat, index: nat)
    requires SameElsewhere(lay, d, d', own)
    ensures SameButEntry(lay, d, d', own, block, index)
  {
  }

  lemma SameButEntryTrans(lay: Layout, d0: seq<Block>, d1: seq<Block>, d2: seq<Block>, own1: seq<nat>, own2: seq<nat>,
                          block: nat, index: nat)
    requires SameButEntry(lay, d0, d1, own1, block, index) && SameButEntry(lay, d1, d2, own2, block, index)
    requires forall c :: c in own1 ==> c in own2
    ensures SameButEntry(lay, d0, d2, own2, block, index)
  {
  }

  lemma SameButEntryWiden(lay: Layout, d0: seq<Block>, d1: seq<Block>, d2: seq<Block>, own: seq<nat>,
                          block: nat, index: nat)
    requires SameButEntry(lay, d0, d1, own, block, index) && SameButEntry(lay, d1, d2, [], block, index)
    ensures SameButEntry(lay, d0, d2, own, block, index)
  {
    forall i | 0 <= i < ENTRIES_PER_BLOCK && i != index && block < |d0| && !lay.InFat(block) && !Owned(lay, own, block)
      ensures EntryAt(d2[block], i) == EntryAt(d0[block], i)
    {
      assert EntryAt(d2[block], i) == EntryAt(d1[block], i);
    }
  }

  lemma SameButEntryMore(lay: Layout, d: seq<Block>, d': seq<Block>, own: seq<nat>, more: seq<nat>, block: nat,
                         index: nat)
    requires SameButEntry(lay, d, d', own, block, index) && forall c :: c in own ==> c in more
    ensures SameButEntry(lay, d, d', more, block, index)
  {
  }

  lemma OutsideButEntry(lay: Layout, d: seq<Block>, d': seq<Block>, block: nat, index: nat)
    requires SameOutsideFat(lay, d, d')
    ensures SameButEntry(lay, d, d', [], block, index)
    ensures |d| == |d'| && (block < |d| && !lay.InFat(block) ==> d'[block] == d[block])
  {
  }

  /** Replacing an entry. */
  lemma EntryReplaced(lay: Layout, d: seq<Block>, block: nat, index: nat, e: Entry)
    requires block < |d| && index < ENTRIES_PER_BLOCK
    ensures SameButEntry(lay, d, d[block := WithEntry(d[block], index, e)], [], block, index)
  {
    forall i | 0 <= i < ENTRIES_PER_BLOCK && i != index
      ensures EntryAt(WithEntry(d[block], index, e), i) == EntryAt(d[block], i)
    {
      WithEntryAt(d[block], index, e, i);
    }
  }

  lemma SameLength(lay: Layout, d: seq<Block>, d': seq<Block>, own: seq<nat>, block: nat, index: nat)
    requires SameButEntry(lay, d, d', own, block, index)
    ensures |d'| == |d|
  {
  }

  lemma NothingReplaced(lay: Layout, d: seq<Block>, block: nat, index: nat)
    ensures SameButEntry(lay, d, d, [], block, index)
  {
  }

  /** A file's own directory entry lies outside its bytes. */
  lemma OwnEntryKeepsBytes(lay: Layout, d: seq<Block>, d': seq<Block>, block: nat, index: nat, chain: seq<nat>, n: nat)
    requires lay.WellFormed(|d|) && lay.ExtentOk(Clusters(chain)) && n <= Capacity(lay, Clusters(chain))
    requires SameButEntry(lay, d, d', [], block, index) && !Owned(lay, chain, block)
    ensures Content(lay, d', Clusters(chain), n) == Content(lay, d, Clusters(chain), n)
  {
    OthersKeepTheirBytes(lay, d, d', [], block, index, Clusters(chain), n);
  }

  /** Cluster numbers fit into the entry's 32 bits. */
  lemma FirstClusterBound(lay: Layout, n: nat, fat: seq<nat>, first: nat, chain: seq<nat>)
    requires lay.WellFormed(n) && FileChain(lay, fat, first, chain)
    ensures first < 0x1_0000_0000
  {
  }

  /** A step of a file leaves its directory entry where it is, in a cluster in use. */
  lemma EntryStays(lay: Layout, fat: seq<nat>, fat': seq<nat>, chain: seq<nat>, chain': seq<nat>,
                   d: seq<Block>, d': seq<Block>, block: nat)
    requires Step(lay, fat, fat', chain, chain') && SameElsewhere(lay, d, d', chain')
    requires block < |d| && !lay.InFat(block) && UsedBlock(lay, fat, block) && !Owned(lay, chain, block)
    ensures UsedBlock(lay, fat', block) && !Owned(lay, chain', block) && d'[block] == d[block]
  {
    if block >= lay.dataStartBlock {
      var c := lay.ClusterOf(block);
      assert fat'[c] == fat[c];
    }
  }

  // ---------------------------------------------------------------- the dirty block

  /**
   * Block `b` is no block of the file at or behind position `p`: it belongs to something else that
   * is in use, or it is one of the file's blocks before `p`.
   */
  ghost predicate Behind(lay: Layout, fat: seq<nat>, chain: seq<nat>, b: nat, p: nat) {
    || (UsedBlock(lay, fat, b) && !Owned(lay, chain, b))
    || (lay.ExtentOk(Clusters(chain)) && exists j: nat ::
          j < lay.BlockCount(Clusters(chain)) && BLOCK_SIZE * j < p && lay.NthBlock(Clusters(chain), j) == b)
  }

  /** The block of a byte at a block boundary is not behind it. */
  lemma NotBehind(lay: Layout, n: nat, fat: seq<nat>, chain: seq<nat>, b: nat, p: nat)
    requires lay.WellFormed(n) && lay.ExtentOk(Clusters(chain)) && Behind(lay, fat, chain, b, p) && p % BLOCK_SIZE == 0
    requires p / BLOCK_SIZE < lay.BlockCount(Clusters(chain))
    ensures b != lay.NthBlock(Clusters(chain), p / BLOCK_SIZE)
  {
    NthBlockPlace(lay, n, Clusters(chain), p / BLOCK_SIZE);
    if !(UsedBlock(lay, fat, b) && !Owned(lay, chain, b)) {
      var j: nat :| j < lay.BlockCount(Clusters(chain)) && BLOCK_SIZE * j < p && lay.NthBlock(Clusters(chain), j) == b;
      if b == lay.NthBlock(Clusters(chain), p / BLOCK_SIZE) {
        NthBlockInjective(lay, n, Clusters(chain), j, p / BLOCK_SIZE);
      }
    }
  }

  /** The block of a byte is behind every later position. */
  lemma NowBehind(lay: Layout, fat: seq<nat>, chain: seq<nat>, p: nat, q: nat)
    requires lay.ExtentOk(Clusters(chain)) && p / BLOCK_SIZE < lay.BlockCount(Clusters(chain)) && p < q
    ensures Behind(lay, fat, chain, lay.NthBlock(Clusters(chain), p / BLOCK_SIZE), q)
    ensures forall b :: Behind(lay, fat, chain, b, p) ==> Behind(lay, fat, chain, b, q)
  {
    assert BLOCK_SIZE * (p / BLOCK_SIZE) <= p;
  }

  /** The block at the position: it is behind the next position, and storing all of it hits no block behind. */
  lemma BlockAt(lay: Layout, n: nat, fat: seq<nat>, chain: seq<nat>, p: nat, k: nat, b: nat)
    requires lay.WellFormed(n) && lay.ExtentOk(Clusters(chain)) && lay.ClusterIndex(p) < |chain| && k > 0
    ensures var here := lay.ClusterStart(chain[lay.ClusterIndex(p)]) + lay.BlockOfCluster(p);
      && !lay.InFat(here) && Behind(lay, fat, chain, here, p + k)
      && (Behind(lay, fat, chain, b, p) ==> Behind(lay, fat, chain, b, p + k) && (p % BLOCK_SIZE == 0 ==> b != here))
  {
    BlockOfByte(lay, n, chain, p);
    NthBlockPlace(lay, n, Clusters(chain), p / BLOCK_SIZE);
    NowBehind(lay, fat, chain, p, p + k);
    if Behind(lay, fat, chain, b, p) && p % BLOCK_SIZE == 0 {
      NotBehind(lay, n, fat, chain, b, p);
    }
  }

  /** A file that grows leaves behind what was behind. */
  lemma GrowsBehind(lay: Layout, fat: seq<nat>, fat': seq<nat>, chain: seq<nat>, chain': seq<nat>, b: nat, p: nat)
    requires Step(lay, fat, fat', chain, chain') && chain <= chain' && lay.ExtentOk(Clusters(chain'))
    requires Behind(lay, fat, chain, b, p)
    ensures Behind(lay, fat', chain', b, p)
  {
    if UsedBlock(lay, fat, b) && !Owned(lay, chain, b) {
      if b >= lay.dataStartBlock {
        var c := lay.ClusterOf(b);
        assert fat'[c] == fat[c];
      }
    } else {
      var j: nat :| j < lay.BlockCount(Clusters(chain)) && BLOCK_SIZE * j < p && lay.NthBlock(Clusters(chain), j) == b;
      var more := chain'[|chain|..];
      assert chain' == chain + more;
      NthBlockPrefix(lay, chain, more, j);
    }
  }

  // ---------------------------------------------------------------- rewriting a dirty block

  /**
   * A write of `m` bytes from position `p` stores block `b` directly, as one of the whole blocks
   * that it reaches before anything makes the driver look into the FAT or load another block.
   */
  ghost predicate Rewrites(lay: Layout, chain: seq<nat>, b: nat, p: nat, m: nat)
    requires lay.blocksPerCluster > 0
  {
    && p % BLOCK_SIZE == 0 && (p == 0 || !AtClusterStart(lay, p)) && lay.ExtentOk(Clusters(chain))
    && exists j: nat ::
         p / BLOCK_SIZE <= j < (p + m) / BLOCK_SIZE && j < lay.BlockCount(Clusters(chain))
         && lay.ClusterIndex(BLOCK_SIZE * j) == lay.ClusterIndex(p) && lay.NthBlock(Clusters(chain), j) == b
  }

  /** The block that holds byte `p`. */
  ghost predicate IsBlockOf(lay: Layout, chain: seq<nat>, b: nat, p: nat) {
    && lay.ExtentOk(Clusters(chain)) && p / BLOCK_SIZE < lay.BlockCount(Clusters(chain))
    && b == lay.NthBlock(Clusters(chain), p / BLOCK_SIZE)
  }

  /** Less than a block is never stored directly. */
  lemma RewritesNothing(lay: Layout, chain: seq<nat>, b: nat, p: nat, m: nat)
    requires lay.blocksPerCluster > 0 && (p % BLOCK_SIZE != 0 || m < BLOCK_SIZE)
    ensures !Rewrites(lay, chain, b, p, m)
  {
  }

  /** Nor are blocks of the FATs, nor a block that lies before the position. */
  lemma RewritesNone(lay: Layout, n: nat, chain: seq<nat>, b: nat, p: nat, q: nat, m: nat)
    requires lay.WellFormed(n) && (lay.InFat(b) || (IsBlockOf(lay, chain, b, p) && p / BLOCK_SIZE < q / BLOCK_SIZE))
    ensures !Rewrites(lay, chain, b, q, m)
  {
    if Rewrites(lay, chain, b, q, m) {
      var j: nat :| q / BLOCK_SIZE <= j < (q + m) / BLOCK_SIZE && j < lay.BlockCount(Clusters(chain))
        && lay.ClusterIndex(BLOCK_SIZE * j) == lay.ClusterIndex(q) && lay.NthBlock(Clusters(chain), j) == b;
      NthBlockPlace(lay, n, Clusters(chain), j);
      if !lay.InFat(b) {
        NthBlockInjective(lay, n, Clusters(chain), j, p / BLOCK_SIZE);
      }
    }
  }

  /** A whole block at the position: it is the block at hand, or one of the following ones. */
  lemma RewritesStep(lay: Layout, n: nat, chain: seq<nat>, b: nat, p: nat, m: nat)
    requires lay.WellFormed(n) && lay.ExtentOk(Clusters(chain)) && p / BLOCK_SIZE < lay.BlockCount(Clusters(chain))
    requires p % BLOCK_SIZE == 0 && m >= BLOCK_SIZE && (p == 0 || !AtClusterStart(lay, p))
    ensures Rewrites(lay, chain, b, p, m) <==>
      IsBlockOf(lay, chain, b, p) || Rewrites(lay, chain, b, p + BLOCK_SIZE, m - BLOCK_SIZE)
  {
    var i, q := p / BLOCK_SIZE, p + BLOCK_SIZE;
    assert BLOCK_SIZE * i == p && q / BLOCK_SIZE == i + 1
      && (q + (m - BLOCK_SIZE)) / BLOCK_SIZE == (p + m) / BLOCK_SIZE;
    SameBlockSameCluster(lay, p, q - 1);
    NextByte(lay, n, q);
    if Rewrites(lay, chain, b, p, m) && !IsBlockOf(lay, chain, b, p) {
      var j: nat :| i <= j < (p + m) / BLOCK_SIZE && j < lay.BlockCount(Clusters(chain))
        && lay.ClusterIndex(BLOCK_SIZE * j) == lay.ClusterIndex(p) && lay.NthBlock(Clusters(chain), j) == b;
      ShrMonotone(i + 1, j, lay.clusterSizeShift);
      assert BLOCK_SIZE * j / BLOCK_SIZE == j;
    }
    if IsBlockOf(lay, chain, b, p) {
      assert lay.ClusterIndex(BLOCK_SIZE * i) == lay.ClusterIndex(p);
    }
  }

  /** What the cache holds: whether it is dirty, its block, and whether it was ever misused. */
  datatype CacheState = CacheState(dirty: bool, block: nat, misused: bool)

  /** The cache after `n` bytes of block `here` were stored: directly if they fill it. */
  function FilledCache(c: CacheState, here: nat, n: nat): CacheState {
    if n < BLOCK_SIZE then CacheState(true, here, c.misused)
    else CacheState(c.dirty, if c.block == here then NO_BLOCK else c.block, c.misused || (c.dirty && c.block == here))
  }

  lemma NotDoomed(lay: Layout, chain: seq<nat>, c: CacheState, p: nat, m: nat)
    requires lay.blocksPerCluster > 0 && AtClusterStart(lay, p) && (p > 0 || chain == [])
    ensures Doomed(lay, chain, c, p, m) <==> c.misused
  {
    RewritesElsewhere(lay, chain, c.block, p, m);
  }

  lemma NothingDooms(lay: Layout, chain: seq<nat>, c: CacheState, p: nat)
    requires lay.blocksPerCluster > 0
    ensures Doomed(lay, chain, c, p, 0) <==> c.misused
  {
    RewritesNothing(lay, chain, c.block, p, 0);
  }

  /** The cache is, or is going to be, misused by a write of `m` bytes at `p`. */
  ghost predicate Doomed(lay: Layout, chain: seq<nat>, c: CacheState, p: nat, m: nat)
    requires lay.blocksPerCluster > 0
  {
    c.misused || (c.dirty && Rewrites(lay, chain, c.block, p, m))
  }

  /**
   * One round of the loop of `write`, `k` of `m` bytes, decides nothing: the cache was doomed before
   * exactly if it is afterwards. `c0` is the cache before the round, `c1` after the cluster was
   * entered, `c2` after the store.
   */
  lemma ChunkDooms(lay: Layout, n: nat, chain0: seq<nat>, chain: seq<nat>, p: nat, m: nat, k: nat,
                   c0: CacheState, c1: CacheState, c2: CacheState)
    requires lay.WellFormed(n) && lay.ExtentOk(Clusters(chain)) && p / BLOCK_SIZE < lay.BlockCount(Clusters(chain))
    requires lay.blocksPerCluster > 0 && 0 < m
    requires k == (if BLOCK_SIZE - p % BLOCK_SIZE > m then m else BLOCK_SIZE - p % BLOCK_SIZE)
    requires c1.misused == c0.misused
    requires if AtClusterStart(lay, p) && (p > 0 || chain0 == []) then lay.InFat(c1.block)
             else c1 == c0 && chain == chain0
    requires c2 == FilledCache(c1, lay.NthBlock(Clusters(chain), p / BLOCK_SIZE), k)
    ensures c2.misused ==> Doomed(lay, chain0, c0, p, m)
    ensures Doomed(lay, chain, c2, p + k, m - k) <==> Doomed(lay, chain0, c0, p, m)
  {
    hide Rewrites, AtClusterStart, Layout.WellFormed, Layout.ExtentOk;
    NthBlockPlace(lay, n, Clusters(chain), p / BLOCK_SIZE);
    if k < BLOCK_SIZE {
      RewritesNothing(lay, chain0, c0.block, p, m);
      if (p + k) / BLOCK_SIZE > p / BLOCK_SIZE {
        RewritesNone(lay, n, chain, c2.block, p, p + k, m - k);
      } else {
        RewritesNothing(lay, chain, c2.block, p + k, m - k);
      }
    } else if AtClusterStart(lay, p) && (p > 0 || chain0 == []) {
      RewritesElsewhere(lay, chain0, c0.block, p, m);
      RewritesNone(lay, n, chain, c2.block, p, p + k, m - k);
    } else {
      RewritesStep(lay, n, chain, c0.block, p, m);
    }
  }

  /** How many links `seekSet` follows from position `cur` to position `pos`. */
  function Links(lay: Layout, cur: nat, pos: nat): nat {
    if pos == 0 then 0
    else if cur == 0 || lay.ClusterIndex(pos - 1) < lay.ClusterIndex(cur - 1) then lay.ClusterIndex(pos - 1)
    else lay.ClusterIndex(pos - 1) - lay.ClusterIndex(cur - 1)
  }

  /**
   * A write of `m` bytes at `from`, after a seek there from `cur`, finds the cache misused or misuses
   * it. A seek that follows a link brings a FAT block into the cache first.
   */
  ghost predicate WriteDooms(lay: Layout, chain: seq<nat>, c: CacheState, cur: nat, from: nat, m: nat)
    requires lay.blocksPerCluster > 0
  {
    if Links(lay, cur, from) == 0 then Doomed(lay, chain, c, from, m) else c.misused
  }

  /** After the seek the question is that of a write without one. */
  lemma SeekDooms(lay: Layout, n: nat, chain: seq<nat>, c0: CacheState, c1: CacheState, cur: nat, from: nat, m: nat)
    requires lay.WellFormed(n) && lay.blocksPerCluster > 0
    requires if Links(lay, cur, from) == 0 then c1 == c0 else lay.InFat(c1.block) && c1.misused == c0.misused
    ensures Doomed(lay, chain, c1, from, m) <==> WriteDooms(lay, chain, c0, cur, from, m)
  {
    if Links(lay, cur, from) > 0 {
      RewritesNone(lay, n, chain, c1.block, 0, from, m);
    }
  }

  lemma AlreadyMisused(lay: Layout, chain: seq<nat>, c: CacheState, cur: nat, from: nat, m: nat)
    requires lay.blocksPerCluster > 0 && c.misused
    ensures WriteDooms(lay, chain, c, cur, from, m)
  {
  }

  lemma NoLinks(lay: Layout, p: nat)
    ensures Links(lay, p, p) == 0 && Links(lay, p, 0) == 0
  {
  }

  /** A look into the FAT comes first. */
  lemma RewritesElsewhere(lay: Layout, chain: seq<nat>, b: nat, p: nat, m: nat)
    requires lay.blocksPerCluster > 0 && AtClusterStart(lay, p) && (p > 0 || chain == [])
    ensures !Rewrites(lay, chain, b, p, m)
  {
    ShlZero(lay.clusterSizeShift);
  }

  // ---------------------------------------------------------------- growth

  lemma LastCluster(lay: Layout, fat: seq<nat>, first: nat, own: seq<nat>)
    requires FileChain(lay, fat, first, own)
    ensures own == [] <==> first == 0
    ensures own != [] ==> lay.IsCluster(own[|own| - 1])
  {
  }

  /** A file after one cluster was allocated behind its last one. */
  lemma FileGrows(lay: Layout, fat: seq<nat>, first: nat, own: seq<nat>, c: nat)
    requires |fat| == lay.clusterCount + 2 && EocAboveClusters(lay) && lay.EocMin() <= lay.Stored(EOC)
    requires FileChain(lay, fat, first, own) && FreeRun(fat, c, 1)
    ensures (if own == [] then 0 else own[|own| - 1]) < |fat|
    ensures var fat' := Allocated(lay, fat, if own == [] then 0 else own[|own| - 1], c, 1);
      && FileChain(lay, fat', if first == 0 then c else first, own + [c])
      && Step(lay, fat, fat', own, own + [c]) && OnlyOf(fat, fat', own + [c])
    ensures Capacity(lay, Clusters(own)) <= Capacity(lay, Clusters(own + [c]))
  {
    AllocatedChain(lay, fat, own, c, 1);
    assert Run(c, 1) == [c];
    ShlMonotone(|own|, |own + [c]|, lay.clusterSizeShift);
  }

  /** A file whose entries were not touched. */
  lemma FileStays(lay: Layout, fat: seq<nat>, fat': seq<nat>, first: nat, own: seq<nat>)
    requires |fat| == lay.clusterCount + 2 && FileChain(lay, fat, first, own) && Confined(fat, fat', [])
    ensures FileChain(lay, fat', first, own) && Step(lay, fat, fat', own, own)
  {
    if first != 0 {
      OthersKeepTheirChains(lay, fat, fat', [], own);
    }
  }

  /** Doing nothing is a step. */
  lemma SameFile(lay: Layout, fat: seq<nat>, d: seq<Block>, first: nat, own: seq<nat>)
    requires |fat| == lay.clusterCount + 2 && FileChain(lay, fat, first, own)
    ensures Step(lay, fat, fat, own, own)
    ensures SameOutsideFat(lay, d, d)
  {
  }

  // ---------------------------------------------------------------- writing

  /**
   * `done` bytes of `src` have been written from position `from`: those bytes are in place and
   * the other bytes below `from` and `size` are still the ones of `d0`.
   */
  ghost predicate Spliced(lay: Layout, d0: seq<Block>, chain0: seq<nat>, d: seq<Block>, chain: seq<nat>,
                          from: nat, src: seq<byte>, done: nat, size: nat)
    requires lay.WellFormed(|d0|) && lay.WellFormed(|d|)
    requires lay.ExtentOk(Clusters(chain0)) && lay.ExtentOk(Clusters(chain))
    requires from <= Capacity(lay, Clusters(chain0)) && size <= Capacity(lay, Clusters(chain0))
    requires Capacity(lay, Clusters(chain0)) <= Capacity(lay, Clusters(chain))
    requires done <= |src| && from + done <= Capacity(lay, Clusters(chain))
  {
    && (forall q {:trigger ByteAt(lay, d, Clusters(chain), q)} :: from <= q < from + done ==>
          ByteAt(lay, d, Clusters(chain), q) == src[q - from])
    && (forall q {:trigger ByteAt(lay, d, Clusters(chain), q)} :: 0 <= q < from || from + done <= q < size ==>
          ByteAt(lay, d, Clusters(chain), q) == ByteAt(lay, d0, Clusters(chain0), q))
  }

  /** Storing a chunk in the block at its position. */
  lemma ChunkStored(lay: Layout, d: seq<Block>, chain: seq<nat>, pos: nat, src: seq<byte>, size: nat, block: Block)
    requires lay.WellFormed(|d|) && lay.ExtentOk(Clusters(chain))
    requires pos <= Capacity(lay, Clusters(chain)) && size <= Capacity(lay, Clusters(chain))
    requires lay.ClusterIndex(pos) < |chain| && 0 < |src| && pos % BLOCK_SIZE + |src| <= BLOCK_SIZE
    requires var at := pos % BLOCK_SIZE;
      var b := lay.ClusterStart(chain[lay.ClusterIndex(pos)]) + lay.BlockOfCluster(pos);
      b < |d| && block[at..at + |src|] == src && ((at == 0 && pos >= size) || block == Overwrite(d[b], at, src))
    ensures var b := lay.ClusterStart(chain[lay.ClusterIndex(pos)]) + lay.BlockOfCluster(pos);
      && pos + |src| <= Capacity(lay, Clusters(chain))
      && Spliced(lay, d, chain, d[b := block], chain, pos, src, |src|, size)
  {
    var e := Clusters(chain);
    var i, at := pos / BLOCK_SIZE, pos % BLOCK_SIZE;
    BlockOfByte(lay, |d|, chain, pos);
    StoreBlock(lay, d, e, i, block);
    var d' := d[lay.NthBlock(e, i) := block];
    forall q | pos <= q < pos + |src|
      ensures ByteAt(lay, d', e, q) == src[q - pos]
    {
      assert q / BLOCK_SIZE == i && q % BLOCK_SIZE == at + (q - pos);
      assert block[at..at + |src|][q - pos] == block[at + (q - pos)];
    }
    forall q | 0 <= q < pos || pos + |src| <= q < size
      ensures ByteAt(lay, d', e, q) == ByteAt(lay, d, e, q)
    {
      if q / BLOCK_SIZE == i {
        assert block == Overwrite(d[lay.NthBlock(e, i)], at, src);
      }
    }
  }

  /** Appending clusters and changing the FATs moves no byte of the file. */
  lemma SplicedGrow(lay: Layout, d0: seq<Block>, chain0: seq<nat>, d: seq<Block>, chain: seq<nat>,
                    from: nat, src: seq<byte>, size: nat)
    requires lay.WellFormed(|d0|) && SameOutsideFat(lay, d0, d) && chain0 <= chain
    requires lay.ExtentOk(Clusters(chain0)) && lay.ExtentOk(Clusters(chain))
    requires from <= Capacity(lay, Clusters(chain0)) && size <= Capacity(lay, Clusters(chain0))
    ensures Capacity(lay, Clusters(chain0)) <= Capacity(lay, Clusters(chain))
    ensures Spliced(lay, d0, chain0, d, chain, from, src, 0, size)
  {
    ShlMonotone(|chain0|, |chain|, lay.clusterSizeShift);
    var more := chain[|chain0|..];
    assert chain == chain0 + more;
    forall q | 0 <= q < Capacity(lay, Clusters(chain0))
      ensures ByteAt(lay, d, Clusters(chain), q) == ByteAt(lay, d0, Clusters(chain0), q)
    {
      BytePrefix(lay, d0, chain0, more, q);
      NthBlockPlace(lay, |d|, Clusters(chain), q / BLOCK_SIZE);
    }
  }

  /** A store in a block of the file changes nothing elsewhere. */
  lemma StoredElsewhere(lay: Layout, d0: seq<Block>, d: seq<Block>, chain: seq<nat>, pos: nat, block: Block)
    requires lay.WellFormed(|d0|) && lay.ExtentOk(Clusters(chain)) && lay.ClusterIndex(pos) < |chain|
    requires SameOutsideFat(lay, d0, d)
    ensures var b := lay.ClusterStart(chain[lay.ClusterIndex(pos)]) + lay.BlockOfCluster(pos);
      b < |d| && SameElsewhere(lay, d0, d[b := block], chain)
  {
    BlockOfByte(lay, |d|, chain, pos);
    NthBlockPlace(lay, |d|, Clusters(chain), pos / BLOCK_SIZE);
  }

  /** Two stretches of writing, one after the other. */
  lemma SplicedTrans(lay: Layout, d0: seq<Block>, chain0: seq<nat>, d1: seq<Block>, chain1: seq<nat>,
                     d2: seq<Block>, chain2: seq<nat>, from: nat, src: seq<byte>, done: nat, n: nat, size: nat)
    requires lay.WellFormed(|d0|) && lay.WellFormed(|d1|) && lay.WellFormed(|d2|)
    requires lay.ExtentOk(Clusters(chain0)) && lay.ExtentOk(Clusters(chain1)) && lay.ExtentOk(Clusters(chain2))
    requires from <= Capacity(lay, Clusters(chain0)) && size <= Capacity(lay, Clusters(chain0))
    requires Capacity(lay, Clusters(chain0)) <= Capacity(lay, Clusters(chain1)) <= Capacity(lay, Clusters(chain2))
    requires done + n <= |src| && from + done <= Capacity(lay, Clusters(chain1))
    requires from + done + n <= Capacity(lay, Clusters(chain2))
    requires Spliced(lay, d0, chain0, d1, chain1, from, src, done, size)
    requires Spliced(lay, d1, chain1, d2, chain2, from + done, src[done..done + n], n, size)
    ensures Spliced(lay, d0, chain0, d2, chain2, from, src, done + n, size)
  {
    forall q | from <= q < from + done + n
      ensures ByteAt(lay, d2, Clusters(chain2), q) == src[q - from]
    {
      if q < from + done {
        assert ByteAt(lay, d1, Clusters(chain1), q) == src[q - from];
      }
    }
    forall q | 0 <= q < from || from + done + n <= q < size
      ensures ByteAt(lay, d2, Clusters(chain2), q) == ByteAt(lay, d0, Clusters(chain0), q)
    {
      assert ByteAt(lay, d1, Clusters(chain1), q) == ByteAt(lay, d0, Clusters(chain0), q);
    }
  }

  lemma SplicedJoin(lay: Layout, d0: seq<Block>, chain0: seq<nat>, d1: seq<Block>, d2: seq<Block>, chain: seq<nat>,
                    from: nat, src: seq<byte>, n: nat, size: nat)
    requires lay.WellFormed(|d0|) && lay.WellFormed(|d1|) && lay.WellFormed(|d2|)
    requires lay.ExtentOk(Clusters(chain0)) && lay.ExtentOk(Clusters(chain))
    requires from <= Capacity(lay, Clusters(chain0)) && size <= Capacity(lay, Clusters(chain0))
    requires Capacity(lay, Clusters(chain0)) <= Capacity(lay, Clusters(chain))
    requires n <= |src| && from + n <= Capacity(lay, Clusters(chain))
    requires Spliced(lay, d0, chain0, d1, chain, from, src, 0, size)
    requires Spliced(lay, d1, chain, d2, chain, from, src[..n], n, size)
    ensures Spliced(lay, d0, chain0, d2, chain, from, src[..n], n, size)
  {
    assert src[..n][0..n] == src[..n];
    SplicedTrans(lay, d0, chain0, d1, chain, d2, chain, from, src[..n], 0, n, size);
  }

  /** A file that has grown from `chain0` to `chain`, while nothing but its own clusters has changed. */
  ghost predicate Grown(lay: Layout, d0: seq<Block>, f0: seq<nat>, chain0: seq<nat>,
                        d: seq<Block>, f: seq<nat>, chain: seq<nat>)
  {
    && lay.WellFormed(|d0|) && |d| == |d0| && chain0 <= chain
    && lay.ExtentOk(Clusters(chain0)) && lay.ExtentOk(Clusters(chain))
    && Capacity(lay, Clusters(chain0)) <= Capacity(lay, Clusters(chain))
    && Step(lay, f0, f, chain0, chain) && SameElsewhere(lay, d0, d, chain)
  }

  /** No cluster was taken but those of the chain. */
  ghost predicate NoLeak(f0: seq<nat>, chain0: seq<nat>, f: seq<nat>, chain: seq<nat>) {
    OnlyOf(f0, f, chain) && (chain == chain0 ==> f == f0)
  }

  /** How many bytes a file with this chain can have: its own clusters and all free ones hold as many. */
  ghost function Space(lay: Layout, fat: seq<nat>, chain: seq<nat>): nat {
    BLOCK_SIZE * Shl(|chain| + |FreeClusters(fat)|, lay.clusterSizeShift)
  }

  /** In numbers, clusters of 512 bytes a block. */
  lemma SpaceInBytes(lay: Layout, size: nat, fat: seq<nat>, chain: seq<nat>)
    requires lay.WellFormed(size)
    ensures var free := set c: nat | 2 <= c < |fat| && fat[c] == 0;
      Space(lay, fat, chain) == (|chain| + |free|) * lay.blocksPerCluster * 512
    ensures Capacity(lay, Clusters(chain)) == |chain| * lay.blocksPerCluster * 512
  {
    assert FreeClusters(fat) == set c: nat | 2 <= c < |fat| && fat[c] == 0;
    ShlIsMul(|chain| + |FreeClusters(fat)|, lay.clusterSizeShift);
    ShlIsMul(|chain|, lay.clusterSizeShift);
  }

  /** Prolonging a chain takes as many free clusters as it adds. */
  lemma Prolongation(lay: Layout, f0: seq<nat>, chain0: seq<nat>, f: seq<nat>, chain: seq<nat>)
    requires ChainOrEmpty(lay, f0, chain0) && Step(lay, f0, f, chain0, chain) && chain0 <= chain
    requires OnlyOf(f0, f, chain) && EocAboveClusters(lay)
    ensures |chain| + |FreeClusters(f)| == |chain0| + |FreeClusters(f0)|
    ensures Space(lay, f, chain) == Space(lay, f0, chain0)
  {
    hide Step, OnlyOf, EocAboveClusters, FreeClusters, ChainOrEmpty;
    var more := chain[|chain0|..];
    StepDistinct(lay, f0, f, chain0, chain);
    NewAreFree(lay, f0, chain0, f, chain);
    forall c: nat
      ensures c in FreeClusters(f) <==> c in FreeClusters(f0) && c !in more
    {
      TakenOrFree(lay, f0, chain0, f, chain, c);
    }
    assert FreeClusters(f) == FreeClusters(f0) - Members(more);
    LessSome(FreeClusters(f0), Members(more));
    MemberCount(more);
  }

  lemma StepDistinct(lay: Layout, f0: seq<nat>, f: seq<nat>, chain0: seq<nat>, chain: seq<nat>)
    requires Step(lay, f0, f, chain0, chain) && EocAboveClusters(lay)
    ensures Distinct(chain)
  {
    if chain != [] {
      ChainDistinct(lay, f, chain);
    }
  }

  /** A cluster is free afterwards if it was and the chain has not got it. */
  lemma TakenOrFree(lay: Layout, f0: seq<nat>, chain0: seq<nat>, f: seq<nat>, chain: seq<nat>, c: nat)
    requires ChainOrEmpty(lay, f0, chain0) && Step(lay, f0, f, chain0, chain) && chain0 <= chain
    requires OnlyOf(f0, f, chain)
    ensures c in FreeClusters(f) <==> c in FreeClusters(f0) && c !in chain[|chain0|..]
  {
    assert chain == chain0 + chain[|chain0|..];
    if c in chain0 {
      ChainInUse(lay, f0, chain0, c);
    }
    if c in chain {
      ChainInUse(lay, f, chain, c);
    }
  }

  lemma NewAreFree(lay: Layout, f0: seq<nat>, chain0: seq<nat>, f: seq<nat>, chain: seq<nat>)
    requires Step(lay, f0, f, chain0, chain) && chain0 <= chain && Distinct(chain)
    ensures forall c :: c in chain[|chain0|..] ==> c in FreeClusters(f0)
  {
    forall i | |chain0| <= i < |chain|
      ensures chain[i] in FreeClusters(f0)
    {
      assert chain[i] in chain;
      assert forall j :: 0 <= j < |chain0| ==> chain0[j] == chain[j];
    }
  }

  function Members(s: seq<nat>): set<nat> { set c | c in s }

  lemma {:induction false} MemberCount(s: seq<nat>)
    requires Distinct(s)
    ensures |Members(s)| == |s|
  {
    if s != [] {
      MemberCount(s[1..]);
      var rest := Members(s[1..]);
      assert s[0] !in rest;
      assert s == [s[0]] + s[1..];
      assert Members(s) == rest + {s[0]};
    }
  }

  lemma LessSome(a: set<nat>, b: set<nat>)
    requires b <= a
    ensures |a - b| == |a| - |b|
  {
  }

  lemma NoLeakTrans(f0: seq<nat>, chain0: seq<nat>, f1: seq<nat>, chain1: seq<nat>, f2: seq<nat>, chain2: seq<nat>)
    requires NoLeak(f0, chain0, f1, chain1) && NoLeak(f1, chain1, f2, chain2) && chain0 <= chain1 <= chain2
    ensures NoLeak(f0, chain0, f2, chain2)
  {
    OnlyOfTrans(f0, f1, f2, chain1, chain2);
    assert chain2 == chain0 ==> chain1 == chain0 && chain2 == chain1;
  }

  /** It has grown, and `done` bytes of `src` have been written from position `from`. */
  ghost predicate Progress(lay: Layout, d0: seq<Block>, f0: seq<nat>, chain0: seq<nat>,
                           d: seq<Block>, f: seq<nat>, chain: seq<nat>,
                           from: nat, src: seq<byte>, done: nat, size: nat)
  {
    && Grown(lay, d0, f0, chain0, d, f, chain)
    && from <= Capacity(lay, Clusters(chain0)) && size <= Capacity(lay, Clusters(chain0))
    && done <= |src| && from + done <= Capacity(lay, Clusters(chain))
    && Spliced(lay, d0, chain0, d, chain, from, src, done, size)
    && NoLeak(f0, chain0, f, chain)
  }

  lemma ProgressStart(lay: Layout, d: seq<Block>, f: seq<nat>, first: nat, chain: seq<nat>,
                      from: nat, src: seq<byte>, size: nat)
    requires lay.WellFormed(|d|) && |f| == lay.clusterCount + 2 && FileChain(lay, f, first, chain)
    requires lay.ExtentOk(Clusters(chain))
    requires from <= Capacity(lay, Clusters(chain)) && size <= Capacity(lay, Clusters(chain))
    ensures Progress(lay, d, f, chain, d, f, chain, from, src, 0, size)
  {
    SameFile(lay, f, d, first, chain);
    SplicedGrow(lay, d, chain, d, chain, from, src, size);
  }

  lemma GrownTrans(lay: Layout, d0: seq<Block>, f0: seq<nat>, chain0: seq<nat>, d1: seq<Block>, f1: seq<nat>,
                   chain1: seq<nat>, d2: seq<Block>, f2: seq<nat>, chain2: seq<nat>)
    requires Grown(lay, d0, f0, chain0, d1, f1, chain1) && Grown(lay, d1, f1, chain1, d2, f2, chain2)
    ensures Grown(lay, d0, f0, chain0, d2, f2, chain2)
  {
    StepTrans(lay, f0, f1, f2, chain0, chain1, chain2);
    PrefixMembers(chain1, chain2);
    SameElsewhereTrans(lay, d0, d1, d2, chain1, chain2);
  }

  lemma ProgressGrown(lay: Layout, d0: seq<Block>, f0: seq<nat>, chain0: seq<nat>, d: seq<Block>, f: seq<nat>,
                      chain: seq<nat>, from: nat, src: seq<byte>, done: nat, size: nat)
    requires Progress(lay, d0, f0, chain0, d, f, chain, from, src, done, size)
    ensures Grown(lay, d0, f0, chain0, d, f, chain)
  {
  }

  /** One round more: `n` bytes from where the write has come to. */
  lemma ProgressTrans(lay: Layout, d0: seq<Block>, f0: seq<nat>, chain0: seq<nat>, d1: seq<Block>, f1: seq<nat>,
                      chain1: seq<nat>, d2: seq<Block>, f2: seq<nat>, chain2: seq<nat>,
                      from: nat, src: seq<byte>, done: nat, n: nat, size: nat)
    requires done + n <= |src| && Progress(lay, d0, f0, chain0, d1, f1, chain1, from, src, done, size)
    requires Progress(lay, d1, f1, chain1, d2, f2, chain2, from + done, src[done..][..n], n, size)
    ensures Progress(lay, d0, f0, chain0, d2, f2, chain2, from, src, done + n, size)
  {
    GrownTrans(lay, d0, f0, chain0, d1, f1, chain1, d2, f2, chain2);
    NoLeakTrans(f0, chain0, f1, chain1, f2, chain2);
    assert src[done..][..n] == src[done..done + n];
    SplicedTrans(lay, d0, chain0, d1, chain1, d2, chain2, from, src, done, n, size);
  }

  lemma SameOutsideIsElsewhere(lay: Layout, d: seq<Block>, d': seq<Block>, own: seq<nat>)
    requires SameOutsideFat(lay, d, d')
    ensures SameElsewhere(lay, d, d', own)
  {
  }

  /** All clusters of a file are clusters. */
  lemma LastClusters(lay: Layout, fat: seq<nat>, first: nat, chain: seq<nat>)
    requires FileChain(lay, fat, first, chain)
    ensures forall i :: 0 <= i < |chain| ==> lay.IsCluster(chain[i])
  {
  }

  lemma PrefixMembers(s: seq<nat>, t: seq<nat>)
    requires s <= t
    ensures forall c :: c in s ==> c in t
  {
    assert forall i :: 0 <= i < |s| ==> s[i] == t[i];
  }

  lemma SameElsewhereTrans(lay: Layout, d0: seq<Block>, d1: seq<Block>, d2: seq<Block>, own1: seq<nat>, own2: seq<nat>)
    requires SameElsewhere(lay, d0, d1, own1) && SameElsewhere(lay, d1, d2, own2)
    requires forall c :: c in own1 ==> c in own2
    ensures SameElsewhere(lay, d0, d2, own2)
  {
  }

  /** The content after writing `src` at `from`. */
  lemma SplicedContent(lay: Layout, d0: seq<Block>, chain0: seq<nat>, d: seq<Block>, chain: seq<nat>,
                       from: nat, src: seq<byte>, size: nat)
    requires lay.WellFormed(|d0|) && lay.WellFormed(|d|)
    requires lay.ExtentOk(Clusters(chain0)) && lay.ExtentOk(Clusters(chain))
    requires from <= Capacity(lay, Clusters(chain0)) && size <= Capacity(lay, Clusters(chain0))
    requires Capacity(lay, Clusters(chain0)) <= Capacity(lay, Clusters(chain))
    requires from + |src| <= Capacity(lay, Clusters(chain))
    requires Spliced(lay, d0, chain0, d, chain, from, src, |src|, size)
    ensures var end := from + |src|;
      Content(lay, d, Clusters(chain), if end > size then end else size)
      == Content(lay, d0, Clusters(chain0), from) + src
         + (if end > size then [] else Content(lay, d0, Clusters(chain0), size)[end..])
  {
    var end := from + |src|;
    var n := if end > size then end else size;
    var c0 := Content(lay, d0, Clusters(chain0), from);
    var tail := if end > size then [] else Content(lay, d0, Clusters(chain0), size)[end..];
    forall q | 0 <= q < n
      ensures Content(lay, d, Clusters(chain), n)[q] == (c0 + src + tail)[q]
    {
      assert ByteAt(lay, d, Clusters(chain), q) == Content(lay, d, Clusters(chain), n)[q];
    }
  }

  // ---------------------------------------------------------------- truncation

  /** Clusters that `length` bytes occupy: the quotient by the cluster size, rounded up. */
  function ClustersFor(lay: Layout, length: nat): nat {
    if length == 0 then 0 else lay.ClusterIndex(length - 1) + 1
  }

  /** ClustersFor is the quotient by the cluster size, rounded up. */
  lemma ClustersForIsCeiling(lay: Layout, n: nat, length: nat)
    requires lay.WellFormed(n)
    ensures lay.ClusterBytes() == BLOCK_SIZE * lay.blocksPerCluster > 0
    ensures ClustersFor(lay, length) == (length + lay.ClusterBytes() - 1) / lay.ClusterBytes()
  {
    var k := lay.clusterSizeShift;
    ShlIsMul(BLOCK_SIZE, k);
    if length == 0 {
      Quotient(lay.ClusterBytes() - 1, lay.ClusterBytes(), 0, lay.ClusterBytes() - 1);
    } else {
      ByteQuotient(length - 1, k);
    }
  }

  /** Dividing by the block size and then by blocks per cluster is dividing by the cluster size. */
  lemma ByteQuotient(x: nat, k: nat)
    ensures BLOCK_SIZE * Pow2(k) > 0
    ensures Shr(x / BLOCK_SIZE, k) + 1 == (x + BLOCK_SIZE * Pow2(k)) / (BLOCK_SIZE * Pow2(k))
  {
    var q, r, m := Shr(x / BLOCK_SIZE, k), Low(x / BLOCK_SIZE, k), x % BLOCK_SIZE;
    Split(x / BLOCK_SIZE, k);
    ShlIsMul(q, k);
    TimesBlock(q, Pow2(k));
    Quotient(x + BLOCK_SIZE * Pow2(k), BLOCK_SIZE * Pow2(k), q + 1, BLOCK_SIZE * r + m);
  }

  lemma TimesBlock(q: nat, p: nat)
    ensures (q + 1) * (BLOCK_SIZE * p) == BLOCK_SIZE * (q * p) + BLOCK_SIZE * p
  {
  }

  /** The FAT after all but the first `keep` clusters of `chain` were freed. */
  function CutFat(lay: Layout, fat: seq<nat>, chain: seq<nat>, keep: nat): (f: seq<nat>)
    requires keep <= |chain| && forall i :: 0 <= i < |chain| ==> chain[i] < |fat|
    ensures |f| == |fat|
  {
    if keep == |chain| then fat
    else if keep == 0 then Freed(fat, chain)
    else Freed(fat, chain[keep..])[chain[keep - 1] := lay.Stored(EOC)]
  }

  lemma CutExact(lay: Layout, fat: seq<nat>, chain: seq<nat>, keep: nat)
    requires keep <= |chain| && forall i :: 0 <= i < |chain| ==> chain[i] < |fat|
    ensures Exact(fat, CutFat(lay, fat, chain, keep), chain, chain[..keep])
  {
    assert chain == chain[..keep] + chain[keep..];
    assert keep > 0 ==> chain[keep - 1] == chain[..keep][keep - 1];
  }

  lemma CutAll(lay: Layout, fat: seq<nat>, s: seq<nat>)
    requires forall i :: 0 <= i < |s| ==> s[i] < |fat|
    ensures ClustersFor(lay, 0) == 0
    ensures CutFat(lay, fat, s, 0) == Freed(fat, s)
  {
  }

  /** The suffix that truncation frees is a chain; the driver finds its head in the last kept cluster. */
  lemma CutPoint(lay: Layout, fat: seq<nat>, first: nat, chain: seq<nat>, keep: nat)
    requires EocAboveClusters(lay) && FileChain(lay, fat, first, chain) && chain != [] && keep <= |chain|
    ensures first != 0
    ensures forall i :: 0 <= i < |chain| ==> lay.IsCluster(chain[i]) && chain[i] < |fat|
    ensures keep == 0 ==> chain[keep..] == chain
    ensures keep > 0 ==>
      (if keep == |chain| then lay.IsEoc(fat[chain[keep - 1]])
       else
         && !lay.IsEoc(fat[chain[keep - 1]])
         && fat[chain[keep - 1]] == chain[keep]
         && chain[keep] != 0
         && FileChain(lay, fat, chain[keep], chain[keep..]))
  {
    if keep > 0 {
      ChainNext(lay, fat, chain, keep - 1);
      if keep < |chain| {
        ChainSuffix(lay, fat, chain, keep);
      }
    }
  }

  lemma StepConfined(lay: Layout, fat: seq<nat>, fat': seq<nat>, own: seq<nat>, after: seq<nat>)
    requires Step(lay, fat, fat', own, after)
    ensures Confined(fat, fat', own)
  {
  }

  /** Clearing part of a chain touches no entry outside it. */
  lemma PartConfined(fat: seq<nat>, fat': seq<nat>, chain: seq<nat>, keep: nat)
    requires keep <= |chain| && Confined(fat, fat', chain[keep..])
    ensures Confined(fat, fat', chain)
  {
  }

  /** Cutting a chain frees exactly the removed clusters and leaves a sound, shorter chain. */
  lemma CutSound(lay: Layout, fat: seq<nat>, first: nat, chain: seq<nat>, keep: nat)
    requires EocAboveClusters(lay) && lay.EocMin() <= lay.Stored(EOC) && |fat| == lay.clusterCount + 2
    requires FileChain(lay, fat, first, chain) && chain != [] && keep <= |chain|
    ensures forall i :: 0 <= i < |chain| ==> chain[i] < |fat|
    ensures FileChain(lay, CutFat(lay, fat, chain, keep), if keep == 0 then 0 else first, chain[..keep])
    ensures Step(lay, fat, CutFat(lay, fat, chain, keep), chain, chain[..keep])
    ensures forall c :: 2 <= c < |fat| ==>
      (CutFat(lay, fat, chain, keep)[c] == 0 <==> fat[c] == 0 || c in chain[keep..])
  {
    ChainDistinct(lay, fat, chain);
    forall c | c in chain
      ensures fat[c] != 0
    {
      ChainInUse(lay, fat, chain, c);
    }
    var f := CutFat(lay, fat, chain, keep);
    if 0 < keep < |chain| {
      assert chain[keep - 1] !in chain[keep..];
      forall i | 0 <= i < keep - 1
        ensures f[chain[i]] == fat[chain[i]]
      {
        assert chain[i] !in chain[keep..];
      }
      ChainCut(lay, fat, f, chain, keep);
    } else if keep == |chain| {
      assert chain[..keep] == chain;
    } else {
      assert chain[keep..] == chain;
    }
  }

  /** A file with bytes has clusters. */
  lemma NotEmpty(lay: Layout, chain: seq<nat>, size: nat)
    requires 0 < size <= Capacity(lay, Clusters(chain))
    ensures chain != []
  {
    InCapacity(lay, chain, 0);
  }

  /** The kept clusters hold the kept bytes. */
  lemma CutKeepsBytes(lay: Layout, d: seq<Block>, d': seq<Block>, chain: seq<nat>, size: nat, length: nat)
    requires lay.WellFormed(|d|) && SameOutsideFat(lay, d, d')
    requires lay.ExtentOk(Clusters(chain)) && length <= size <= Capacity(lay, Clusters(chain))
    ensures ClustersFor(lay, length) <= |chain|
    ensures lay.ExtentOk(Clusters(chain[..ClustersFor(lay, length)]))
    ensures length <= Capacity(lay, Clusters(chain[..ClustersFor(lay, length)]))
    ensures Content(lay, d', Clusters(chain[..ClustersFor(lay, length)]), length)
         == Content(lay, d, Clusters(chain), size)[..length]
  {
    var keep := ClustersFor(lay, length);
    if length > 0 {
      InRoom(lay, chain, length - 1, size);
      InCapacity(lay, chain[..keep], length - 1);
    }
    assert chain == chain[..keep] + chain[keep..];
    forall p | 0 <= p < length
      ensures ByteAt(lay, d', Clusters(chain[..keep]), p) == ByteAt(lay, d, Clusters(chain), p)
    {
      BytePrefix(lay, d, chain[..keep], chain[keep..], p);
      NthBlockPlace(lay, |d|, Clusters(chain[..keep]), p / BLOCK_SIZE);
    }
  }

  // ---------------------------------------------------------------- reading

  /** Part of a block of the extent is part of the content. */
  lemma ChunkContent(lay: Layout, d: seq<Block>, e: Extent, size: nat, pos: nat, n: nat)
    requires lay.WellFormed(|d|) && lay.ExtentOk(e) && size <= Capacity(lay, e)
    requires 0 < n && pos + n <= size && pos % BLOCK_SIZE + n <= BLOCK_SIZE
    ensures pos / BLOCK_SIZE < lay.BlockCount(e) && lay.NthBlock(e, pos / BLOCK_SIZE) < |d|
    ensures d[lay.NthBlock(e, pos / BLOCK_SIZE)][pos % BLOCK_SIZE..pos % BLOCK_SIZE + n]
         == Content(lay, d, e, size)[pos..pos + n]
  {
    NthBlockPlace(lay, |d|, e, pos / BLOCK_SIZE);
    var s := d[lay.NthBlock(e, pos / BLOCK_SIZE)][pos % BLOCK_SIZE..pos % BLOCK_SIZE + n];
    forall i | 0 <= i < n
      ensures s[i] == Content(lay, d, e, size)[pos..pos + n][i]
    {
      assert Content(lay, d, e, size)[pos..pos + n][i] == ByteAt(lay, d, e, pos + i);
      assert (pos + i) / BLOCK_SIZE == pos / BLOCK_SIZE && (pos + i) % BLOCK_SIZE == pos % BLOCK_SIZE + i;
    }
  }

  lemma OverwriteNothing(b: seq<byte>, t: seq<byte>)
    requires t == []
    ensures Overwrite(b, 0, t) == b
  {
  }

  /** Copying two adjacent pieces is copying their concatenation. */
  lemma OverwriteTwice(b: seq<byte>, c: seq<byte>, from: nat, k: nat, n: nat)
    requires from + k + n <= |c| && k + n <= |b|
    ensures Overwrite(Overwrite(b, 0, c[from..from + k]), k, c[from + k..from + k + n])
         == Overwrite(b, 0, c[from..from + k + n])
  {
  }
}
