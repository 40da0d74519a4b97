/**
 * Where things lie on the device, byte by byte: the numbers of the FAT specification. Nothing here
 * is used by the operations; it is what their results are compared with.
 */
module Device {
  import opened Bytes
  import opened VolumeLayout

  /** Byte `j` of block `b`; nothing lies behind the end of the device. */
  ghost function DeviceByte(d: seq<Block>, b: int, j: int): int {
    if 0 <= b < |d| && 0 <= j < 512 then d[b][j] else -1
  }

  /** The number in two bytes, the lower one first. */
  ghost function Word(s: seq<byte>, at: nat): nat
    requires at + 2 <= |s|
  {
    var lo: int, hi: int := s[at], s[at + 1];
    lo + 256 * hi
  }

  /** The number in four bytes. */
  ghost function Long(s: seq<byte>, at: nat): nat
    requires at + 4 <= |s|
  {
    Word(s, at) + 65536 * Word(s, at + 2)
  }

  lemma LowByteFirst()
    ensures Word([0x34, 0x12], 0) == 0x1234 && Long([0x78, 0x56, 0x34, 0x12], 0) == 0x1234_5678
  {
  }

  // ---------------------------------------------------------------- the boot block and the partition table

  /** The first block of a volume: that of the device, or the one that entry `part` of the partition table names. */
  ghost function FirstBlock(mbr: Block, part: nat): nat
    requires part <= 4
  {
    if part == 0 then 0 else Long(mbr, 446 + 16 * (part - 1) + 8)
  }

  /** A partition that can be used: active or not, large enough, and not at the partition table. */
  ghost predicate UsablePartition(mbr: Block, part: nat)
    requires 1 <= part <= 4
  {
    var p := 446 + 16 * (part - 1);
    (mbr[p] == 0 || mbr[p] == 128) && Long(mbr, p + 12) >= 100 && Long(mbr, p + 8) != 0
  }

  /** The boot block of a FAT volume: 512 bytes a block, some FAT, some reserved block, 2^k blocks a cluster. */
  ghost predicate BootBlock(b: Block) {
    && Word(b, 11) == 512 && b[16] != 0 && Word(b, 14) != 0
    && b[13] in [1, 2, 4, 8, 16, 32, 64, 128]
  }

  /** Blocks of one FAT: the 16-bit field counts unless it is 0. */
  ghost function BlocksOfFat(b: Block): nat { if Word(b, 22) != 0 then Word(b, 22) else Long(b, 36) }

  /** Blocks of the volume: likewise. */
  ghost function BlocksOfVolume(b: Block): nat { if Word(b, 19) != 0 then Word(b, 19) else Long(b, 32) }

  /** Blocks of the root directory area: 16 entries in each, the last one possibly not full. */
  ghost function BlocksOfRoot(b: Block): nat { (Word(b, 17) + 15) / 16 }

  /** Blocks in front of the data area. */
  ghost function BlocksInFront(b: Block): int { Word(b, 14) + b[16] * BlocksOfFat(b) + BlocksOfRoot(b) }

  /** The layout that a boot block describes, for a volume that begins at block `start`. */
  ghost predicate Describes(b: Block, start: nat, lay: Layout) {
    && lay.blocksPerCluster == b[13] && lay.fatCount == b[16] && lay.rootDirEntryCount == Word(b, 17)
    && lay.blocksPerFat == BlocksOfFat(b)
    && lay.fatStartBlock == start + Word(b, 14)
    && lay.dataStartBlock == start + BlocksInFront(b)
    && b[13] > 0 && lay.clusterCount == (BlocksOfVolume(b) - BlocksInFront(b)) / b[13]
    && lay.fatType == (if lay.clusterCount < 65525 then 16 else 32)
    && lay.rootDirStart ==
         (if lay.clusterCount < 65525 then start + Word(b, 14) + b[16] * BlocksOfFat(b) else Long(b, 44))
  }

  /** The same in 32 bits, as the driver computes it, for any boot block. */
  ghost predicate DescribesIn32(b: Block, start: nat, lay: Layout) {
    && lay.blocksPerCluster == b[13] && lay.fatCount == b[16] && lay.rootDirEntryCount == Word(b, 17)
    && lay.blocksPerFat == BlocksOfFat(b)
    && lay.fatStartBlock == (start + Word(b, 14)) % 0x1_0000_0000
    && lay.dataStartBlock == (start + BlocksInFront(b)) % 0x1_0000_0000
    && b[13] > 0 && lay.clusterCount == (BlocksOfVolume(b) - BlocksInFront(b)) % 0x1_0000_0000 / b[13]
    && lay.fatType == (if lay.clusterCount < 4085 then 12 else if lay.clusterCount < 65525 then 16 else 32)
    && lay.rootDirStart ==
         (if lay.clusterCount < 65525 then (start + Word(b, 14) + b[16] * BlocksOfFat(b)) % 0x1_0000_0000
          else Long(b, 44))
  }

  /** All of it lies on a device of `size` blocks, with a FAT16 or FAT32 that has an entry for each cluster. */
  ghost predicate FitsDevice(b: Block, start: nat, size: nat) {
    && BootBlock(b) && b[13] > 0 && BlocksInFront(b) <= BlocksOfVolume(b) && start + BlocksOfVolume(b) <= size
    && size <= 0xFFFF_FFFF
    && var count := (BlocksOfVolume(b) - BlocksInFront(b)) / b[13];
    && count >= 4085
    && (if count < 65525 then count + 2 <= 256 * BlocksOfFat(b) && count + 2 < 0xFFF8
        else count + 2 <= 128 * BlocksOfFat(b) && count + 2 < 0x0FFF_FFF8)
  }

  // ---------------------------------------------------------------- the FATs

  /** Byte `q` of the FAT that begins at block `start`. */
  ghost function FatByte(d: seq<Block>, start: nat, q: nat): int { DeviceByte(d, start + q / 512, q % 512) }

  /** The entry of cluster `c`: two bytes, or four of which the upper four bits do not count. */
  ghost function FatField(lay: Layout, d: seq<Block>, c: nat): int {
    var s := lay.fatStartBlock;
    if lay.fatType == 16 then FatByte(d, s, 2 * c) + 256 * FatByte(d, s, 2 * c + 1)
    else
      (FatByte(d, s, 4 * c) + 256 * FatByte(d, s, 4 * c + 1) + 65536 * FatByte(d, s, 4 * c + 2)
       + 16777216 * FatByte(d, s, 4 * c + 3)) % 0x1000_0000
  }

  /** An entry that ends a chain: all ones but for the last three bits. */
  ghost predicate EndMark(lay: Layout, v: nat) { v >= (if lay.fatType == 16 then 0xFFF8 else 0x0FFF_FFF8) }

  /** `n` clusters from `first` on, each linked to the next one, up to an end mark. */
  ghost predicate EndedRun(lay: Layout, fat: seq<nat>, first: nat, n: nat) {
    && n > 0 && first + n <= |fat|
    && (forall c {:trigger fat[c]} :: first <= c < first + n - 1 ==> fat[c] == c + 1)
    && EndMark(lay, fat[first + n - 1])
  }

  /** The clusters `s`, each linked to the next one, up to an end mark. */
  ghost predicate EndedChain(lay: Layout, fat: seq<nat>, s: seq<nat>) {
    && s != [] && (forall i :: 0 <= i < |s| ==> 2 <= s[i] < |fat|)
    && (forall i :: 0 <= i < |s| - 1 ==> fat[s[i]] == s[i + 1])
    && EndMark(lay, fat[s[|s| - 1]])
  }

  /** The cluster of byte pos - 1 of a file, and 0 at its start. */
  ghost predicate ClusterBefore(lay: Layout, chain: seq<nat>, pos: nat, cur: nat) {
    if pos == 0 then cur == 0
    else
      var n := lay.blocksPerCluster;
      n > 0 && (pos - 1) / 512 / n < |chain| && cur == chain[(pos - 1) / 512 / n]
  }

  /** Digit `i` of a number to the base 256. */
  ghost function Digit(v: nat, i: nat): nat {
    if i == 0 then v % 256 else if i == 1 then v / 256 % 256 else if i == 2 then v / 65536 % 256 else v / 16777216 % 256
  }

  /** Bytes of an entry. */
  ghost function FieldWidth(lay: Layout): nat { if lay.fatType == 16 then 2 else 4 }

  /** Byte `j` of block `b`, counted from the entry of cluster `c` in the FAT that begins at block `start`. */
  ghost function FromField(lay: Layout, start: nat, c: nat, b: int, j: int): int {
    512 * (b - start) + j - FieldWidth(lay) * c
  }

  /** What byte `j` of block `b` is after `v` was stored as the entry of `c` in the first FAT, and in a second one. */
  ghost function FieldByte(lay: Layout, d: seq<Block>, c: nat, v: nat, b: nat, j: nat): int
    requires b < |d| && j < 512
  {
    var i, k := FromField(lay, lay.fatStartBlock, c, b, j),
                FromField(lay, lay.fatStartBlock + lay.blocksPerFat, c, b, j);
    if 0 <= i < FieldWidth(lay) then Digit(v, i)
    else if lay.fatCount > 1 && 0 <= k < FieldWidth(lay) then Digit(v, k)
    else d[b][j]
  }

  /** The device has changed from `d` to `d'` in the bytes of the entry of `c` only. */
  ghost predicate FieldStored(lay: Layout, d: seq<Block>, d': seq<Block>, c: nat, v: nat) {
    && |d'| == |d|
    && forall b, j {:trigger d'[b][j]} :: 0 <= b < |d| && 0 <= j < 512 ==> d'[b][j] == FieldByte(lay, d, c, v, b, j)
  }

  // ---------------------------------------------------------------- files and directories

  /** Byte `p` of a file or directory: in the root area, or in the clusters of its chain one after the other. */
  ghost function FileByte(lay: Layout, d: seq<Block>, e: Extent, p: nat): int {
    match e
    case Root16 => DeviceByte(d, lay.rootDirStart + p / 512, p % 512)
    case Clusters(chain) =>
      var n := lay.blocksPerCluster;
      if n > 0 && p / 512 / n < |chain| then
        DeviceByte(d, lay.dataStartBlock + (chain[p / 512 / n] - 2) * n + p / 512 % n, p % 512)
      else -1
  }
}
