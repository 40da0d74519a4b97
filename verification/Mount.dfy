/** SdVolume::init: from the boot sector to the layout of the volume. */
module Mount {
  import opened Bytes
  import opened Bits
  import opened VolumeLayout
  import opened BlockCache
  import opened Device

  const PARTITION_TABLE: nat := 446
  const PARTITION_SIZE: nat := 16

  /** Block `i` - 1 of the partition table names a usable partition. */
  predicate ValidPartition(mbr: Block, i: nat)
    requires 1 <= i <= 4
  {
    var p := PARTITION_TABLE + PARTITION_SIZE * (i - 1);
    mbr[p] % 0x80 == 0 && GetU32(mbr, p + 12) >= 100 && GetU32(mbr, p + 8) != 0
  }

  /** Where the volume begins; partition 0 stands for a device without partition table. */
  function StartOf(mbr: Block, part: nat): nat
    requires part <= 4
  {
    if part == 0 then 0 else GetU32(mbr, PARTITION_TABLE + PARTITION_SIZE * (part - 1) + 8)
  }

  /** A power of two up to 128. */
  predicate IsClusterSize(n: nat) { exists k: nat :: k <= 7 && n == Pow2(k) }

  /** The BIOS parameter block, with the quantities that the FAT specification derives from it. */
  datatype Bpb = Bpb(bytesPerSector: nat, sectorsPerCluster: nat, reserved: nat, fatCount: nat, rootEntries: nat,
                     total16: nat, fatSize16: nat, total32: nat, fatSize32: nat, rootCluster: nat)
  {
    function FatSize(): nat { if fatSize16 != 0 then fatSize16 else fatSize32 }

    function Total(): nat { if total16 != 0 then total16 else total32 }

    function RootSectors(): nat { (32 * rootEntries + 511) / 512 }

    /** Sectors of all FATs together. */
    function Fats(): nat { fatCount * FatSize() }

    /** Sectors in front of the data area. */
    function Overhead(): nat { reserved + Fats() + RootSectors() }

    function CountOfClusters(): nat
      requires sectorsPerCluster > 0 && Overhead() <= Total()
    {
      (Total() - Overhead()) / sectorsPerCluster
    }

    /** What `init` checks. */
    predicate Plausible() {
      && bytesPerSector == 512 && fatCount != 0 && reserved != 0
      && IsClusterSize(sectorsPerCluster)
    }

    /** It relies on more: the regions fit into the volume and the device, and the FAT has an entry for each cluster. */
    predicate Fits(start: nat, size: nat) {
      && Plausible() && sectorsPerCluster > 0 && rootEntries < 0x1_0000
      && Overhead() <= Total() && start + Total() <= size <= NO_BLOCK
      && var count := CountOfClusters();
      && count >= 4085
      && (if count < 65525 then count + 2 <= 256 * FatSize() && count + 2 < 0xFFF8
          else count + 2 <= 128 * FatSize() && count + 2 < 0x0FFF_FFF8)
    }
  }

  function BpbOf(b: Block): (r: Bpb)
    ensures r.sectorsPerCluster <= 255
  {
    Bpb(GetU16(b, 11), b[13], GetU16(b, 14), b[16], GetU16(b, 17),
        GetU16(b, 19), GetU16(b, 22), GetU32(b, 32), GetU32(b, 36), GetU32(b, 44))
  }

  /** The fields that `init` computes, in 32 bits. */
  function LayoutOf(b: Bpb, start: nat, shift: nat): Layout {
    var fatStart := Wrap(start + b.reserved);
    var rootStart := Wrap(fatStart + b.Fats());
    var dataStart := Wrap(rootStart + b.RootSectors());
    var count := Shr(Wrap(b.Total() - Wrap(dataStart - start)), shift);
    var fatType := if count < 4085 then 12 else if count < 65525 then 16 else 32;
    Layout(fatType, b.fatCount, b.FatSize(), fatStart, b.rootEntries,
           if fatType == 32 then b.rootCluster else rootStart, dataStart, count, shift, b.sectorsPerCluster)
  }

  /** The layout that the FAT specification defines for a parameter block, without any wrap-around. */
  function Specified(b: Bpb, start: nat, shift: nat): Layout
    requires b.sectorsPerCluster > 0 && b.Overhead() <= b.Total()
  {
    var wide := b.CountOfClusters() >= 65525;
    Layout(if wide then 32 else 16, b.fatCount, b.FatSize(), start + b.reserved, b.rootEntries,
           if wide then b.rootCluster else start + b.reserved + b.Fats(),
           start + b.Overhead(), b.CountOfClusters(), shift, b.sectorsPerCluster)
  }

  /** The partition is there, and what its parameter block describes fits into it. */
  predicate Mountable(d: seq<Block>, part: nat) {
    && part <= 4 && d != [] && StartOf(d[0], part) < |d|
    && BpbOf(d[StartOf(d[0], part)]).Fits(StartOf(d[0], part), |d|)
  }

  /** The layout of the volume in a partition. */
  function LayoutOn(d: seq<Block>, part: nat): Layout
    requires Mountable(d, part)
  {
    var b := BpbOf(d[StartOf(d[0], part)]);
    Specified(b, StartOf(d[0], part), Log2(b.sectorsPerCluster))
  }

  /** On a fitting volume the layout is the specified one, and sound. */
  lemma LayoutFits(b: Bpb, start: nat, shift: nat, size: nat)
    requires b.Fits(start, size) && shift <= 7 && b.sectorsPerCluster == Pow2(shift)
    ensures LayoutOf(b, start, shift) == Specified(b, start, shift)
    ensures Specified(b, start, shift).WellFormed(size) && !Specified(b, start, shift).InFat(start)
  {
    hide Wrap, Shr, Shl, Low, Pow2, Bpb.Fats, Bpb.CountOfClusters;
    CountIsShift(b, shift);
    NoWrap(start, b.reserved, b.Fats(), b.RootSectors(), b.Total());
    Split(b.Total() - b.Overhead(), shift);
    SpanWithin(b);
    var lay := LayoutOf(b, start, shift);
    assert lay.dataStartBlock == start + b.Overhead();
    assert lay.clusterCount == b.CountOfClusters();
  }

  /** The fields of the parameter block, by the bytes of the boot block. */
  lemma BpbFields(b: Block)
    ensures var r := BpbOf(b);
      && r.bytesPerSector == Word(b, 11) && r.sectorsPerCluster == b[13] && r.reserved == Word(b, 14)
      && r.fatCount == b[16] && r.rootEntries == Word(b, 17) < 0x1_0000 && r.rootCluster == Long(b, 44)
      && r.FatSize() == BlocksOfFat(b) && r.Total() == BlocksOfVolume(b) && r.RootSectors() == BlocksOfRoot(b)
      && r.Overhead() == BlocksInFront(b)
  {
  }

  /** The checks on it. */
  lemma BpbIsBootBlock(b: Block)
    ensures BpbOf(b).Plausible() <==> BootBlock(b)
  {
    BpbFields(b);
    hide BpbOf, Word;
    ClusterSizes(b[13]);
  }

  lemma ClusterSizes(n: nat)
    ensures IsClusterSize(n) <==> n in [1, 2, 4, 8, 16, 32, 64, 128]
  {
    assert Pow2(0) == 1 && Pow2(1) == 2 && Pow2(2) == 4 && Pow2(3) == 8;
    assert Pow2(4) == 16 && Pow2(5) == 32 && Pow2(6) == 64 && Pow2(7) == 128;
    if IsClusterSize(n) {
      var k: nat :| k <= 7 && n == Pow2(k);
      assert k in [0, 1, 2, 3, 4, 5, 6, 7];
    }
  }

  lemma BpbFitsDevice(b: Block, start: nat, size: nat)
    ensures BpbOf(b).Fits(start, size) <==> FitsDevice(b, start, size)
  {
    BpbFields(b);
    BpbIsBootBlock(b);
    hide BpbOf, Word, Bpb.Plausible, BootBlock, Bpb.FatSize, Bpb.Total, Bpb.Overhead;
    hide BlocksOfFat, BlocksOfVolume, BlocksInFront;
  }

  /** The layout that the specification defines for the parameter block is the one that the bytes describe. */
  lemma SpecifiedIsDescribed(b: Block, start: nat, shift: nat)
    requires b[13] > 0 && BlocksInFront(b) <= BlocksOfVolume(b)
    ensures var r := BpbOf(b);
      r.sectorsPerCluster > 0 && r.Overhead() <= r.Total() && Describes(b, start, Specified(r, start, shift))
  {
    BpbFields(b);
    hide BpbOf, Word;
    hide BlocksOfFat, BlocksOfVolume, BlocksOfRoot;
  }

  /** What `init` computes in 32 bits. */
  lemma ComputedIsDescribed(b: Block, start: nat, shift: nat)
    requires b[13] as int == Pow2(shift)
    ensures DescribesIn32(b, start, LayoutOf(BpbOf(b), start, shift))
  {
    BpbFields(b);
    FatsOnDevice(BpbOf(b), b);
    hide BpbOf, Word, Wrap, Bpb.Fats, Bpb.FatSize, Bpb.Total, Bpb.RootSectors, Shr, Low, Pow2;
    hide BlocksOfFat, BlocksOfVolume, BlocksOfRoot, BlocksInFront;
    var r := BpbOf(b);
    Sums32(start, r.reserved, r.Fats(), r.RootSectors(), r.Total());
    DivMod((r.Total() - r.Overhead()) % 0x1_0000_0000, shift);
  }

  /** The sums in 32 bits. */
  lemma Sums32(start: nat, reserved: nat, fats: nat, root: nat, total: nat)
    ensures var s0 := Wrap(start + reserved);
      var s1 := Wrap(s0 + fats);
      var s2 := Wrap(s1 + root);
      && s0 == (start + reserved) % 0x1_0000_0000 && s1 == (start + reserved + fats) % 0x1_0000_0000
      && s2 == (start + (reserved + fats + root)) % 0x1_0000_0000
      && Wrap(total - Wrap(s2 - start)) == (total - (reserved + fats + root)) % 0x1_0000_0000
  {
    WrapIs();
    hide Wrap;
    WrapSum(start + reserved, fats);
    WrapSum(start + reserved + fats, root);
    WrapLess(start + (reserved + fats + root), start, total);
    assert start + reserved + fats + root == start + (reserved + fats + root);
  }

  lemma FatsOnDevice(r: Bpb, b: Block)
    requires r == BpbOf(b)
    ensures r.Fats() == b[16] * BlocksOfFat(b)
  {
  }

  lemma WrapIs()
    ensures forall x: int :: Wrap(x) == x % 0x1_0000_0000
  {
  }

  lemma WrapSum(x: int, y: int)
    ensures Wrap(Wrap(x) + y) == Wrap(x + y)
  {
  }

  /** The distance from `start` is the same in 32 bits. */
  lemma WrapLess(x: int, start: int, total: int)
    ensures Wrap(total - Wrap(Wrap(x) - start)) == Wrap(total - (x - start))
  {
  }

  /** Dividing by the cluster size is the shift that `init` does. */
  lemma CountIsShift(b: Bpb, shift: nat)
    requires b.sectorsPerCluster == Pow2(shift) && b.Overhead() <= b.Total()
    ensures b.CountOfClusters() == Shr(b.Total() - b.Overhead(), shift)
  {
    DivMod(b.Total() - b.Overhead(), shift);
  }

  /** The 32-bit sums that place the regions. */
  lemma NoWrap(start: nat, reserved: nat, fats: nat, root: nat, total: nat)
    requires reserved + fats + root <= total && start + total <= NO_BLOCK
    ensures Wrap(start + reserved) == start + reserved
    ensures Wrap(start + reserved + fats) == start + reserved + fats
    ensures Wrap(start + reserved + fats + root) == start + reserved + fats + root
    ensures Wrap(reserved + fats + root) == reserved + fats + root
    ensures Wrap(total - (reserved + fats + root)) == total - (reserved + fats + root)
  {
  }

  /** The FATs that the driver writes are among those that the volume has. */
  lemma SpanWithin(b: Bpb)
    requires b.fatCount > 0
    ensures (if b.fatCount > 1 then 2 * b.FatSize() else b.FatSize()) <= b.Fats()
  {
    Scale(b.FatSize(), if b.fatCount > 1 then 2 else 1, b.fatCount);
  }

  /**
   * init: read the boot sector, check it, and compute the layout. Absent I/O errors it succeeds
   * exactly on a usable partition with a plausible parameter block.
   */
  method Init(cache: Cache, part: nat) returns (ok: bool, lay: Layout, ghost start: nat)
    requires cache.Valid() && !cache.dirty && 1 <= |cache.card.blocks|
    modifies cache, cache.card, cache.buffer
    ensures cache.Valid() && !cache.dirty && cache.View() == old(cache.View())
    ensures cache.card.faults >= old(cache.card.faults)
    ensures part <= 4 && StartOf(cache.View()[0], part) < |cache.View()| ==> cache.misused == old(cache.misused)
    ensures ok ==> part <= 4 && start < |cache.View()| && cache.card.faults == old(cache.card.faults)
    ensures ok ==> start == StartOf(cache.View()[0], part) && cache.blockNumber == start
    ensures ok ==> BpbOf(cache.View()[start]).Plausible() && (part > 0 ==> ValidPartition(cache.View()[0], part))
    ensures !ok && part <= 4 && cache.card.faults == old(cache.card.faults) ==>
      || (part > 0 && !ValidPartition(cache.View()[0], part))
      || (StartOf(cache.View()[0], part) < |cache.View()|
          && !BpbOf(cache.View()[StartOf(cache.View()[0], part)]).Plausible())
    ensures ok && Mountable(cache.View(), part) ==>
      && lay == LayoutOn(cache.View(), part) && lay.WellFormed(|cache.View()|) && !lay.InFat(cache.blockNumber)
    // by the bytes of the partition table and of the boot block
    ensures ok ==> start == FirstBlock(cache.View()[0], part) && BootBlock(cache.View()[start])
    ensures ok && part > 0 ==> UsablePartition(cache.View()[0], part)
    ensures !ok && part <= 4 && cache.card.faults == old(cache.card.faults) ==>
      || (part > 0 && !UsablePartition(cache.View()[0], part))
      || (FirstBlock(cache.View()[0], part) < |cache.View()|
          && !BootBlock(cache.View()[FirstBlock(cache.View()[0], part)]))
    ensures ok ==> DescribesIn32(cache.View()[start], start, lay)
    ensures ok && FitsDevice(cache.View()[start], start, |cache.View()|) ==>
      Describes(cache.View()[start], start, lay) && lay.WellFormed(|cache.View()|)
  {
    hide Bpb.Fits, Bpb.Plausible, BpbOf, LayoutOf, ValidPartition, StartOf, Bpb.CountOfClusters, Bpb.Overhead;
    hide FirstBlock, UsablePartition, BootBlock, FitsDevice, Describes, DescribesIn32;
    if part <= 4 {
      PartitionOnDevice(cache.View()[0], part);
    }
    FitsIsSound();
    hide Layout.WellFormed;
    StartOfZero(cache.View()[0]);
    lay := Layout(12, 0, 0, 0, 0, 0, 0, 0, 0, 0);
    var volumeStart;
    ok, volumeStart := FindVolume(cache, part);
    start := volumeStart;
    if !ok {
      return false, lay, start;
    }
    ok := cache.RawBlock(volumeStart, false);
    if !ok {
      return false, lay, start;
    }
    var boot: Block := cache.buffer[..];
    var b := BpbOf(boot);
    BpbFields(boot);
    BpbIsBootBlock(boot);
    BpbFitsDevice(boot, start, |cache.View()|);
    var shift;
    ok, shift := CheckBpb(b);
    if !ok {
      return false, lay, start;
    }
    lay := LayoutOf(b, volumeStart, shift);
    ComputedIsDescribed(boot, start, shift);
    if b.Fits(start, |cache.View()|) {
      LayoutFits(b, start, shift, |cache.View()|);
      SpecifiedIsDescribed(boot, start, shift);
      Log2OfPow2(shift);
    }
  }

  /** The partition table by its bytes. */
  lemma PartitionOnDevice(mbr: Block, part: nat)
    requires part <= 4
    ensures StartOf(mbr, part) == FirstBlock(mbr, part)
    ensures part > 0 ==> (ValidPartition(mbr, part) <==> UsablePartition(mbr, part))
  {
  }

  /** Which volumes can be mounted, by the bytes of their boot block, and what layout they have then. */
  lemma MountableOnDevice(d: seq<Block>, part: nat)
    ensures Mountable(d, part) <==>
      && part <= 4 && d != [] && FirstBlock(d[0], part) < |d|
      && FitsDevice(d[FirstBlock(d[0], part)], FirstBlock(d[0], part), |d|)
    ensures Mountable(d, part) ==> Describes(d[FirstBlock(d[0], part)], FirstBlock(d[0], part), LayoutOn(d, part))
  {
    hide Bpb.Fits, BpbOf, FitsDevice, Describes, StartOf, FirstBlock, Specified;
    if part <= 4 && d != [] && StartOf(d[0], part) < |d| {
      var start := StartOf(d[0], part);
      PartitionOnDevice(d[0], part);
      BpbFitsDevice(d[start], start, |d|);
      if Mountable(d, part) {
        FitsInFront(d[start], start, |d|);
        SpecifiedIsDescribed(d[start], start, Log2(BpbOf(d[start]).sectorsPerCluster));
      }
    } else if part <= 4 && d != [] {
      PartitionOnDevice(d[0], part);
    }
  }

  lemma FitsInFront(b: Block, start: nat, size: nat)
    requires FitsDevice(b, start, size)
    ensures b[13] > 0 && BlocksInFront(b) <= BlocksOfVolume(b)
  {
  }

  lemma FitsIsSound()
    ensures forall b: Bpb, start: nat, size: nat {:trigger b.Fits(start, size)} ::
      b.Fits(start, size) ==> b.sectorsPerCluster > 0 && b.Overhead() <= b.Total()
  {
  }

  lemma StartOfZero(mbr: Block)
    ensures StartOf(mbr, 0) == 0
  {
  }

  /** The part of `init` that reads the partition table. */
  method FindVolume(cache: Cache, part: nat) returns (ok: bool, start: nat)
    requires cache.Valid() && !cache.dirty && 1 <= |cache.card.blocks|
    modifies cache, cache.card, cache.buffer
    ensures cache.Valid() && !cache.dirty && cache.View() == old(cache.View())
    ensures cache.card.faults >= old(cache.card.faults) && cache.misused == old(cache.misused)
    ensures ok ==>
      && part <= 4 && start == StartOf(cache.View()[0], part)
      && (part > 0 ==> ValidPartition(cache.View()[0], part) && cache.blockNumber == 0)
      && cache.card.faults == old(cache.card.faults)
    ensures !ok && part <= 4 && cache.card.faults == old(cache.card.faults) ==>
      part > 0 && !ValidPartition(cache.View()[0], part)
  {
    start := 0;
    if part != 0 {
      if part > 4 {
        return false, start;
      }
      ok := cache.RawBlock(0, false);
      if !ok {
        return false, start;
      }
      var mbr: Block := cache.buffer[..];
      if !ValidPartition(mbr, part) {
        return false, start;
      }
      start := StartOf(mbr, part);
    }
    ok := true;
  }

  /** The checks of `init` on the parameter block. */
  method CheckBpb(b: Bpb) returns (ok: bool, shift: nat)
    requires b.sectorsPerCluster <= 255
    ensures ok <==> b.Plausible()
    ensures ok ==> shift <= 7 && b.sectorsPerCluster == Pow2(shift)
  {
    shift := 0;
    NoClusterSizeZero();
    if b.bytesPerSector != 512 || b.fatCount == 0 || b.reserved == 0 || b.sectorsPerCluster == 0 {
      return false, shift;
    }
    ok, shift := ClusterShift(b.sectorsPerCluster);
  }

  lemma NoClusterSizeZero()
    ensures !IsClusterSize(0)
  {
  }

  /** The loop that finds the shift for a power of two; it gives up behind 2^7. */
  method ClusterShift(n: nat) returns (ok: bool, shift: nat)
    requires n <= 255
    ensures ok <==> IsClusterSize(n)
    ensures ok ==> shift <= 7 && n == Pow2(shift)
  {
    shift := 0;
    while n != Pow2(shift)
      invariant shift <= 8 && forall k :: 0 <= k < shift ==> n != Pow2(k)
      decreases 9 - shift
    {
      if shift > 7 {
        return false, shift;
      }
      shift := shift + 1;
    }
    ByteIsSmall(shift);
    return true, shift;
  }

  lemma ByteIsSmall(k: nat)
    requires k <= 8
    ensures Pow2(k) <= 255 ==> k <= 7
  {
  }
}
