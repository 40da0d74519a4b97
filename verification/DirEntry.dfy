/** The 32-byte directory entry and its place in a directory block. */
module DirEntry {
  import opened Bytes
  import opened Device

  const ENTRY_SIZE: nat := 32
  const ENTRIES_PER_BLOCK: nat := 16

  const NAME_FREE: byte := 0x00
  const NAME_DELETED: byte := 0xE5
  const DOT: byte := 0x2E

  const ATT_READ_ONLY: nat := 0x01
  const ATT_VOLUME_ID: nat := 0x08
  const ATT_DIRECTORY: nat := 0x10

  /** 1 January 2000, 1 o'clock: the stamp of a new entry if there is no clock. */
  const FAT_DEFAULT_DATE: nat := 0x2821
  const FAT_DEFAULT_TIME: nat := 0x0800

  type Entry = e: seq<byte> | |e| == ENTRY_SIZE witness seq(ENTRY_SIZE, _ => 0)

  const ZERO_ENTRY: Entry := [0, 0, 0, 0, 0, 0, 0, 0, 0, 0, 0, 0, 0, 0, 0, 0,
                             0, 0, 0, 0, 0, 0, 0, 0, 0, 0, 0, 0, 0, 0, 0, 0]

  function EntryAt(b: Block, i: nat): Entry
    requires i < ENTRIES_PER_BLOCK
  {
    b[ENTRY_SIZE * i..ENTRY_SIZE * i + ENTRY_SIZE]
  }

  /** Block `b` with its `i`-th entry replaced. */
  function WithEntry(b: Block, i: nat, e: Entry): Block
    requires i < ENTRIES_PER_BLOCK
  {
    Overwrite(b, ENTRY_SIZE * i, e)
  }

  lemma WithEntryAt(b: Block, i: nat, e: Entry, j: nat)
    requires i < ENTRIES_PER_BLOCK && j < ENTRIES_PER_BLOCK
    ensures EntryAt(WithEntry(b, i, e), j) == if i == j then e else EntryAt(b, j)
  {
  }

  function Name(e: Entry): seq<byte> { e[..11] }

  function Attributes(e: Entry): byte { e[11] }

  function FirstCluster(e: Entry): nat { GetU16(e, 20) * 0x1_0000 + GetU16(e, 26) }

  function Size(e: Entry): nat { GetU32(e, 28) }

  predicate HasBit(attributes: byte, bit: nat)
    requires bit > 0
  {
    attributes / bit % 2 == 1
  }

  predicate IsFree(e: Entry) { e[0] == NAME_FREE }

  predicate IsDeleted(e: Entry) { e[0] == NAME_DELETED }

  predicate IsLive(e: Entry) { !IsFree(e) && !IsDeleted(e) }

  predicate IsDot(e: Entry) { e[0] == DOT }

  /** DIR_IS_FILE */
  predicate IsFile(e: Entry) { !HasBit(Attributes(e), ATT_VOLUME_ID) && !HasBit(Attributes(e), ATT_DIRECTORY) }

  /** DIR_IS_SUBDIR */
  predicate IsSubDir(e: Entry) { !HasBit(Attributes(e), ATT_VOLUME_ID) && HasBit(Attributes(e), ATT_DIRECTORY) }

  /** DIR_IS_FILE_OR_SUBDIR */
  predicate IsFileOrSubDir(e: Entry) { !HasBit(Attributes(e), ATT_VOLUME_ID) }

  /** A file or a subdirectory: an entry that keeps its directory from being empty. */
  predicate Keeps(e: Entry) { IsLive(e) && !IsDot(e) && IsFileOrSubDir(e) }

  /** The fields of an entry by its bytes. */
  lemma FieldsByBytes(e: Entry)
    ensures Name(e) == e[0..11] && Attributes(e) == e[11]
    ensures FirstCluster(e) == Word(e, 26) + 65536 * Word(e, 20) && Size(e) == Long(e, 28)
    ensures (IsFree(e) <==> e[0] == 0) && (IsDeleted(e) <==> e[0] == 229) && (IsDot(e) <==> e[0] == 46)
    ensures IsFile(e) <==> e[11] / 8 % 4 == 0
    ensures IsSubDir(e) <==> e[11] / 8 % 4 == 2
    ensures IsFileOrSubDir(e) <==> e[11] / 8 % 2 == 0
    ensures Keeps(e) <==> e[0] != 0 && e[0] != 229 && e[0] != 46 && e[11] / 8 % 2 == 0
  {
    AttributeBytes(e[11]);
    hide HasBit;
  }

  lemma AttributeBytes(a: byte)
    ensures (HasBit(a, 0x01) <==> a % 2 == 1) && (HasBit(a, 0x08) <==> a / 8 % 2 == 1)
    ensures (HasBit(a, 0x10) <==> a / 8 % 4 >= 2) && a / 8 % 4 % 2 == a / 8 % 2
  {
  }

  /** The entry with its size field set. */
  function WithSize(e: Entry, size: nat): Entry { Overwrite(e, 28, PutU32(size)) }

  /** The entry with its first-cluster fields set. */
  function WithFirstCluster(e: Entry, c: nat): Entry {
    Overwrite(Overwrite(e, 26, PutU16(c % 0x1_0000)), 20, PutU16(c / 0x1_0000))
  }

  /** The entry with last access date, last write time and last write date set. */
  function WithStamp(e: Entry, date: nat, time: nat): Entry {
    Overwrite(Overwrite(e, 18, PutU16(date)), 22, PutU16(time) + PutU16(date))
  }

  /** What `sync` makes of an entry: new size unless it is a directory, new first cluster, and a stamp. */
  function Synced(e: Entry, isDir: bool, size: nat, first: nat, stamp: Stamp): Entry {
    var e1 := if isDir then e else WithSize(e, size);
    var e2 := WithFirstCluster(e1, first);
    match stamp
    case NoStamp => e2
    case Stamp(date, time) => WithStamp(e2, date, time)
  }

  /** What the user's date and time callback supplies, if there is one. */
  datatype Stamp = NoStamp | Stamp(date: nat, time: nat)

  /** By its bytes: the size at 28 unless it is a directory, first cluster at 26 and 20, stamp at 18, 22 and 24. */
  lemma SyncedBytes(e: Entry, isDir: bool, size: nat, first: nat, stamp: Stamp, j: nat)
    requires size < 0x1_0000_0000 && first < 0x1_0000_0000 && j < 32
    ensures Synced(e, isDir, size, first, stamp)[j] ==
      if 28 <= j && !isDir then Digit(size, j - 28)
      else if 26 <= j < 28 then Digit(first, j - 26)
      else if 20 <= j < 22 then Digit(first, j - 18)
      else if stamp.Stamp? && 18 <= j < 20 then Digit(stamp.date, j - 18)
      else if stamp.Stamp? && 22 <= j < 24 then Digit(stamp.time, j - 22)
      else if stamp.Stamp? && 24 <= j < 26 then Digit(stamp.date, j - 24)
      else e[j]
  {
    hide Overwrite;
    LowDigits(first);
    LowDigits(size);
  }

  lemma LowDigits(v: nat)
    ensures v % 0x1_0000 % 256 == v % 256 && v % 0x1_0000 / 256 % 256 == v / 256 % 256
    ensures v / 0x1_0000 % 256 == v / 65536 % 256 && v / 0x1_0000 / 256 % 256 == v / 16777216 % 256
  {
  }

  lemma SyncedFields(e: Entry, isDir: bool, size: nat, first: nat, stamp: Stamp)
    requires size < 0x1_0000_0000 && first < 0x1_0000_0000
    ensures var r := Synced(e, isDir, size, first, stamp);
      && FirstCluster(r) == first
      && Size(r) == (if isDir then Size(e) else size)
      && Name(r) == Name(e) && Attributes(r) == Attributes(e)
  {
    hide FirstCluster, Size, Name, Attributes, WithSize, WithFirstCluster, WithStamp;
    SizeSet(e, size);
    var e1 := if isDir then e else WithSize(e, size);
    FirstClusterSet(e1, first);
    match stamp
    case NoStamp =>
    case Stamp(date, time) => StampSet(WithFirstCluster(e1, first), date, time);
  }

  lemma SizeSet(e: Entry, size: nat)
    requires size < 0x1_0000_0000
    ensures var r := WithSize(e, size);
      Size(r) == size && FirstCluster(r) == FirstCluster(e) && Name(r) == Name(e) && Attributes(r) == Attributes(e)
  {
    U32RoundTrip(e, 28, size);
  }

  lemma FirstClusterSet(e: Entry, c: nat)
    requires c < 0x1_0000_0000
    ensures var r := WithFirstCluster(e, c);
      FirstCluster(r) == c && Size(r) == Size(e) && Name(r) == Name(e) && Attributes(r) == Attributes(e)
  {
    var e1 := Overwrite(e, 26, PutU16(c % 0x1_0000));
    U16RoundTrip(e, 26, c % 0x1_0000);
    U16RoundTrip(e1, 20, c / 0x1_0000);
    hide PutU16;
    assert GetU16(WithFirstCluster(e, c), 26) == GetU16(e1, 26);
  }

  lemma StampSet(e: Entry, date: nat, time: nat)
    ensures var r := WithStamp(e, date, time);
      FirstCluster(r) == FirstCluster(e) && Size(r) == Size(e) && Name(r) == Name(e) && Attributes(r) == Attributes(e)
  {
  }

  /** The entry of a file just created: empty, with its name and creation stamps. */
  function NewEntry(name: seq<byte>, date: nat, time: nat): Entry
    requires |name| == 11
  {
    var e := Overwrite(ZERO_ENTRY, 0, name);
    Overwrite(Overwrite(e, 14, PutU16(time) + PutU16(date) + PutU16(date)), 22, PutU16(time) + PutU16(date))
  }

  /** By its bytes: the name, the creation stamp at 14 and 16, the others at 18, 22 and 24, and zeros. */
  lemma NewEntryBytes(name: seq<byte>, date: nat, time: nat, j: nat)
    requires |name| == 11 && j < 32
    ensures NewEntry(name, date, time)[j] ==
      if j < 11 then name[j]
      else if 14 <= j < 16 then Digit(time, j - 14)
      else if 16 <= j < 18 then Digit(date, j - 16)
      else if 18 <= j < 20 then Digit(date, j - 18)
      else if 22 <= j < 24 then Digit(time, j - 22)
      else if 24 <= j < 26 then Digit(date, j - 24)
      else 0
  {
    hide Overwrite;
  }

  lemma NewEntryFields(name: seq<byte>, date: nat, time: nat)
    requires |name| == 11
    ensures var e := NewEntry(name, date, time);
      Name(e) == name && Attributes(e) == 0 && FirstCluster(e) == 0 && Size(e) == 0
  {
    hide PutU16, Overwrite;
    var e1 := Overwrite(ZERO_ENTRY, 0, name);
    var e2 := Overwrite(e1, 14, PutU16(time) + PutU16(date) + PutU16(date));
    var e := Overwrite(e2, 22, PutU16(time) + PutU16(date));
    assert forall i {:trigger e[i]} :: 0 <= i < 11 ==> e[i] == name[i];
    assert forall i {:trigger e[i]} :: i == 11 || i == 20 || i == 21 || 26 <= i < 32 ==> e[i] == ZERO_ENTRY[i] == 0;
  }
}
