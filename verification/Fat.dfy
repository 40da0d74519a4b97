/** The file allocation table as a sequence of entries, and the chains it links. */
module Fat {
  import opened Bytes
  import opened VolumeLayout
  import opened Device

  // ---------------------------------------------------------------- entries and their bytes

  /** Block of the first FAT that holds the entry of cluster `c`. */
  function EntryBlock(lay: Layout, c: nat): nat {
    lay.fatStartBlock + (if lay.fatType == 16 then c / 256 else c / 128)
  }

  /** The entry of cluster `c` in its FAT block `b`. */
  function EntryIn(lay: Layout, b: Block, c: nat): nat {
    if lay.fatType == 16 then GetU16(b, 2 * (c % 256)) else GetU32(b, 4 * (c % 128)) % 0x1000_0000
  }

  /** FAT entry of cluster `c` in the block map `d`. */
  function Entry(lay: Layout, d: seq<Block>, c: nat): nat
    requires lay.WellFormed(|d|) && c <= lay.clusterCount + 1
  {
    EntryIn(lay, d[EntryBlock(lay, c)], c)
  }

  /** `fat` is the first FAT decoded: one entry for each of the clusters 0 .. clusterCount + 1. */
  ghost predicate Decodes(lay: Layout, d: seq<Block>, fat: seq<nat>)
    requires lay.WellFormed(|d|)
  {
    && |fat| == lay.clusterCount + 2
    && forall c {:trigger Entry(lay, d, c)} :: 0 <= c <= lay.clusterCount + 1 ==> fat[c] == Entry(lay, d, c)
  }

  function FatOf(lay: Layout, d: seq<Block>): (f: seq<nat>)
    requires lay.WellFormed(|d|)
    ensures Decodes(lay, d, f)
  {
    seq(lay.clusterCount + 2, c requires 0 <= c < lay.clusterCount + 2 => Entry(lay, d, c))
  }

  /** An entry is the number in its bytes of the first FAT. */
  lemma EntryIsField(lay: Layout, d: seq<Block>, c: nat)
    requires lay.WellFormed(|d|) && c <= lay.clusterCount + 1
    ensures Entry(lay, d, c) == FatField(lay, d, c)
  {
    EntryBlockPlace(lay, |d|, c);
    hide Layout.WellFormed, Layout.InFirstFat, EntryBlock;
    if lay.fatType == 16 {
      ShortEntry(lay, d, c);
    } else {
      LongEntry(lay, d, c);
    }
    hide EntryIn, FatField;
  }

  lemma ShortEntry(lay: Layout, d: seq<Block>, c: nat)
    requires EntryBlock(lay, c) < |d| && lay.fatType == 16
    ensures EntryIn(lay, d[EntryBlock(lay, c)], c) == FatField(lay, d, c)
  {
    hide FatByte, GetU16;
    EntryByte(lay, d, c, 0);
    EntryByte(lay, d, c, 1);
    U16Bytes(d[EntryBlock(lay, c)], 2 * (c % 256));
  }

  lemma LongEntry(lay: Layout, d: seq<Block>, c: nat)
    requires EntryBlock(lay, c) < |d| && lay.fatType != 16
    ensures EntryIn(lay, d[EntryBlock(lay, c)], c) == FatField(lay, d, c)
  {
    hide FatByte, GetU32;
    EntryByte(lay, d, c, 0);
    EntryByte(lay, d, c, 1);
    EntryByte(lay, d, c, 2);
    EntryByte(lay, d, c, 3);
    U32Bytes(d[EntryBlock(lay, c)], 4 * (c % 128));
  }

  lemma U16Bytes(b: Block, at: nat)
    requires at + 2 <= |b|
    ensures GetU16(b, at) == b[at] as int + 256 * (b[at + 1] as int)
  {
  }

  lemma U32Bytes(b: Block, at: nat)
    requires at + 4 <= |b|
    ensures GetU32(b, at)
         == b[at] as int + 256 * (b[at + 1] as int) + 65536 * (b[at + 2] as int) + 16777216 * (b[at + 3] as int)
  {
  }

  lemma EntryByte(lay: Layout, d: seq<Block>, c: nat, i: nat)
    requires EntryBlock(lay, c) < |d| && i < (if lay.fatType == 16 then 2 else 4)
    ensures lay.fatType == 16 ==> FatByte(d, lay.fatStartBlock, 2 * c + i) == d[EntryBlock(lay, c)][2 * (c % 256) + i]
    ensures lay.fatType != 16 ==> FatByte(d, lay.fatStartBlock, 4 * c + i) == d[EntryBlock(lay, c)][4 * (c % 128) + i]
  {
    if lay.fatType == 16 {
      assert (2 * c + i) / 512 == c / 256 && (2 * c + i) % 512 == 2 * (c % 256) + i;
    } else {
      assert (4 * c + i) / 512 == c / 128 && (4 * c + i) % 512 == 4 * (c % 128) + i;
    }
  }

  /** The FAT block `b` with the entry of cluster `c` set to `v`. */
  function PutEntry(lay: Layout, b: Block, c: nat, v: nat): Block {
    if lay.fatType == 16 then Overwrite(b, 2 * (c % 256), PutU16(v))
    else Overwrite(b, 4 * (c % 128), PutU32(v))
  }

  /** It differs in the bytes of the entry only, which are the digits of the value. */
  lemma PutBytes(lay: Layout, b: Block, c: nat, v: nat, j: nat)
    requires j < 512
    ensures var i := if lay.fatType == 16 then j - 2 * (c % 256) else j - 4 * (c % 128);
      PutEntry(lay, b, c, v)[j] == if 0 <= i < FieldWidth(lay) then Digit(v, i) else b[j]
  {
    assert v / 0x1_0000 / 0x100 == v / 16777216 && v / 0x1_0000 % 0x100 == v / 65536 % 256;
  }

  /** Where the bytes of an entry are in a FAT that begins at block `start`. */
  lemma FieldPlace(lay: Layout, start: nat, c: nat, b: nat, j: nat)
    requires j < 512
    ensures
      var own := if lay.fatType == 16 then start + c / 256 else start + c / 128;
      var i := FromField(lay, start, c, b, j);
      if b == own then i == j - (if lay.fatType == 16 then 2 * (c % 256) else 4 * (c % 128))
      else !(0 <= i < FieldWidth(lay))
  {
  }

  /** Entries lie in the first FAT, whose copy lies on the device too. */
  lemma EntryBlockPlace(lay: Layout, n: nat, c: nat)
    requires lay.WellFormed(n) && c <= lay.clusterCount + 1
    ensures lay.InFirstFat(EntryBlock(lay, c))
    ensures EntryBlock(lay, c) + lay.blocksPerFat < lay.fatStartBlock + 2 * lay.blocksPerFat
    ensures lay.fatStartBlock + lay.FatSpan() <= n
  {
  }

  predicate SameOnFirstFat(lay: Layout, d: seq<Block>, d': seq<Block>) {
    |d| == |d'| && forall b :: 0 <= b < |d| && lay.InFirstFat(b) ==> d[b] == d'[b]
  }

  lemma FatDependsOnFirstFat(lay: Layout, d: seq<Block>, d': seq<Block>, fat: seq<nat>)
    requires lay.WellFormed(|d|) && SameOnFirstFat(lay, d, d') && Decodes(lay, d, fat)
    ensures Decodes(lay, d', fat)
  {
    forall c | 0 <= c <= lay.clusterCount + 1
      ensures Entry(lay, d, c) == Entry(lay, d', c)
    {
      EntryBlockPlace(lay, |d|, c);
    }
  }

  lemma PutEntrySelf(lay: Layout, b: Block, c: nat, v: nat)
    ensures EntryIn(lay, PutEntry(lay, b, c, v), c) == lay.Stored(v)
  {
    if lay.fatType == 16 {
      U16RoundTrip(b, 2 * (c % 256), v);
    } else {
      hide PutU32, GetU32, Overwrite;
      U32RoundTrip(b, 4 * (c % 128), v);
      LowBits(v);
    }
  }

  lemma PutEntryOther(lay: Layout, b: Block, c: nat, v: nat, o: nat)
    requires o != c && EntryBlock(lay, o) == EntryBlock(lay, c)
    ensures EntryIn(lay, PutEntry(lay, b, c, v), o) == EntryIn(lay, b, o)
  {
    hide PutU16, PutU32;
    if lay.fatType == 16 {
      OtherRemainder(o, c, 256);
    } else {
      OtherRemainder(o, c, 128);
    }
    hide EntryBlock;
  }

  /** Different numbers with the same quotient differ in the remainder. */
  lemma OtherRemainder(x: nat, y: nat, m: nat)
    requires m > 0 && x != y && x / m == y / m
    ensures x % m != y % m
  {
    assert x == m * (x / m) + x % m && y == m * (y / m) + y % m;
  }

  /** Storing one entry changes exactly that entry of the decoded FAT. */
  lemma StoreEntry(lay: Layout, d: seq<Block>, fat: seq<nat>, c: nat, v: nat)
    requires lay.WellFormed(|d|) && c <= lay.clusterCount + 1 && Decodes(lay, d, fat)
    ensures EntryBlock(lay, c) < |d| && lay.InFirstFat(EntryBlock(lay, c))
    ensures Decodes(lay, d[EntryBlock(lay, c) := PutEntry(lay, d[EntryBlock(lay, c)], c, v)], fat[c := lay.Stored(v)])
  {
    EntryBlockPlace(lay, |d|, c);
    var l := EntryBlock(lay, c);
    var d' := d[l := PutEntry(lay, d[l], c, v)];
    forall o | 0 <= o <= lay.clusterCount + 1
      ensures Entry(lay, d', o) == fat[c := lay.Stored(v)][o]
    {
      assert Entry(lay, d, o) == fat[o];
      if o == c {
        PutEntrySelf(lay, d[l], c, v);
      } else if EntryBlock(lay, o) == l {
        PutEntryOther(lay, d[l], c, v, o);
      }
    }
  }
}
