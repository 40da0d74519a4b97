/** Two formatted cards, one for each kind of FAT, and a client that uses them. */
module Cards {
  import opened Bytes
  import opened Bits
  import opened VolumeLayout
  import opened BlockCache
  import opened DirEntry
  import opened DirOnDisk
  import opened Mount
  import opened FatDecoding = Fat
  import opened PlainDirs
  import opened Startup
  import opened ReadBack
  import opened Allocation
  import opened Names

  /**
   * 4085 clusters of one block behind a boot block, two FATs of 16 blocks and 32 blocks of 512 root
   * entries. At byte 36, where FAT32 has the size of a FAT, are drive number, signature and serial number.
   */
  const BOOT16: Block :=
    Overwrite(Overwrite(ZERO_BLOCK, 11, [0, 2, 1, 1, 0, 2, 0, 2, 0x36, 0x10, 0xF8, 16, 0]), 36,
              [0x80, 0, 0x29, 0x34, 0x12, 0x78, 0x56])

  const CARD16: seq<Block> := seq(4150, i requires 0 <= i < 4150 => if i == 0 then BOOT16 else ZERO_BLOCK)

  const LAYOUT16: Layout := Layout(16, 2, 16, 1, 512, 33, 65, 4085, 0, 1)

  lemma Card16Mounts()
    ensures Mountable(CARD16, 0) && LayoutOn(CARD16, 0) == LAYOUT16 && LAYOUT16.WellFormed(|CARD16|)
  {
    var b := BpbOf(BOOT16);
    assert Pow2(0) == 1;
    assert b == Bpb(512, 1, 1, 2, 512, 0x1036, 16, 0, 0x3429_0080, 0);
    assert b.CountOfClusters() == 4085;
  }

  lemma Card16IsFormatted()
    ensures Mountable(CARD16, 0) && Formatted(LayoutOn(CARD16, 0), CARD16)
  {
    Card16Mounts();
    forall k: nat | k / ENTRIES_PER_BLOCK < LAYOUT16.BlockCount(Root16)
      ensures IsFree(SlotAt(LAYOUT16, CARD16, Root16, k))
    {
      assert LAYOUT16.BlockCount(Root16) == 32 && CARD16[33 + k / ENTRIES_PER_BLOCK] == ZERO_BLOCK;
      assert SlotAt(LAYOUT16, CARD16, Root16, k) == EntryAt(ZERO_BLOCK, k % ENTRIES_PER_BLOCK);
    }
  }

  /** All clusters are free. */
  lemma Card16IsEmpty()
    ensures LAYOUT16.WellFormed(|CARD16|) && |FreeClusters(FatOf(LAYOUT16, CARD16))| == 4085
  {
    Card16Mounts();
    forall c: nat | c < 4087
      ensures FatDecoding.Entry(LAYOUT16, CARD16, c) == 0
    {
      assert CARD16[1 + c / 256] == ZERO_BLOCK;
    }
    FreeCount(FatOf(LAYOUT16, CARD16));
  }

  lemma {:induction false} FreeCount(fat: seq<nat>)
    requires |fat| >= 2 && forall c :: 0 <= c < |fat| ==> fat[c] == 0
    ensures |FreeClusters(fat)| == |fat| - 2
  {
    var n := |fat| - 1;
    if n == 1 {
      assert FreeClusters(fat) == {};
    } else {
      FreeCount(fat[..n]);
      assert FreeClusters(fat) == FreeClusters(fat[..n]) + {n};
    }
  }

  /** What is written to a new file on this card is read back, unless the hardware fails. */
  method StoreOnCard16(hasClock: bool, str: seq<byte>, src: seq<byte>, illegal: set<byte>)
    returns (card: Sd2Card, replies: seq<Reply>)
    requires 0 !in str && IsName83(str, illegal) && |src| <= 32767
    ensures card.hardware == 0 ==> FetchedBack(replies, src, true)
  {
    hide Mountable, LayoutOn, Formatted, Layout.WellFormed, IsName83, FetchedBack, FatOf;
    Card16IsFormatted();
    Card16Mounts();
    Card16IsEmpty();
    card := new Sd2Card(CARD16);
    var cache := new Cache(card);
    var r;
    r, replies := StoreAndFetch(cache, 0, hasClock, str, src, illegal);
  }

  /** 65525 clusters of one block behind a boot block and two FATs of 512 blocks; cluster 2 is the root directory. */
  const BOOT32: Block :=
    Overwrite(Overwrite(ZERO_BLOCK, 11, [0, 2, 1, 1, 0, 2, 0, 0, 0, 0, 0xF8, 0, 0]), 32,
              [0xF6, 3, 1, 0, 0, 2, 0, 0, 0, 0, 0, 0, 2, 0, 0, 0])

  /** The first block of a FAT in which cluster 2 ends a chain. */
  const FAT32: Block := Overwrite(ZERO_BLOCK, 8, [0xFF, 0xFF, 0xFF, 0x0F])

  const CARD32: seq<Block> :=
    seq(66550, i requires 0 <= i < 66550 => if i == 0 then BOOT32 else if i == 1 || i == 513 then FAT32 else ZERO_BLOCK)

  const LAYOUT32: Layout := Layout(32, 2, 512, 1, 0, 2, 1025, 65525, 0, 1)

  lemma Card32Mounts()
    ensures Mountable(CARD32, 0) && LayoutOn(CARD32, 0) == LAYOUT32 && LAYOUT32.WellFormed(|CARD32|)
  {
    var b := BpbOf(BOOT32);
    assert Pow2(0) == 1;
    assert b == Bpb(512, 1, 1, 2, 0, 0, 0, 66550, 512, 2);
    assert b.CountOfClusters() == 65525;
  }

  lemma Card32IsFormatted()
    ensures Mountable(CARD32, 0) && Formatted(LayoutOn(CARD32, 0), CARD32)
  {
    Card32Mounts();
    RootCluster();
    RootEntry();
    var root := Clusters([2]);
    forall k: nat | k / ENTRIES_PER_BLOCK < LAYOUT32.BlockCount(root)
      ensures IsFree(SlotAt(LAYOUT32, CARD32, root, k))
    {
      assert CARD32[1025] == ZERO_BLOCK;
      assert SlotAt(LAYOUT32, CARD32, root, k) == EntryAt(ZERO_BLOCK, k % ENTRIES_PER_BLOCK);
    }
  }

  lemma RootCluster()
    ensures LAYOUT32.ExtentOk(Clusters([2])) && LAYOUT32.BlockCount(Clusters([2])) == 1
    ensures LAYOUT32.NthBlock(Clusters([2]), 0) == 1025
  {
  }

  lemma RootEntry()
    ensures LAYOUT32.WellFormed(|CARD32|) && FatDecoding.Entry(LAYOUT32, CARD32, 2) == 0x0FFF_FFFF
  {
    Card32Mounts();
    assert CARD32[1] == FAT32;
    assert GetU16(FAT32, 8) == 0xFFFF && GetU16(FAT32, 10) == 0x0FFF;
  }
}
