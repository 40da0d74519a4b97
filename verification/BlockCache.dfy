/** The block device and the one-block write-back cache (the static part of SdVolume). */
module BlockCache {
  import opened Bytes
  import opened VolumeLayout

  /**
   * An SD card as a sequence of blocks whose every access may fail.
   * A failed read stores nothing. A failed write leaves the addressed block with
   * arbitrary contents, which is the worst a card can do. `faults` counts failures:
   * those of the hardware, and accesses refused because there is no such block.
   */
  class Sd2Card {
    var blocks: seq<Block>
    var faults: nat
    ghost var hardware: nat
    ghost var refused: nat

    constructor (contents: seq<Block>)
      ensures blocks == contents && faults == hardware == refused == 0
    {
      blocks := contents;
      faults := 0;
      hardware, refused := 0, 0;
    }

    /** One more failure: of the hardware, if the access was one to an existing block. */
    twostate predicate Failed(legal: bool)
      reads this
    {
      && faults == old(faults) + 1
      && hardware == old(hardware) + (if legal then 1 else 0)
      && refused == old(refused) + (if legal then 0 else 1)
    }

    twostate predicate Worked()
      reads this
    {
      faults == old(faults) && hardware == old(hardware) && refused == old(refused)
    }

    method Fail(ghost legal: bool)
      modifies this`faults, this`hardware, this`refused
      ensures Failed(legal)
    {
      faults := faults + 1;
      if legal {
        hardware := hardware + 1;
      } else {
        refused := refused + 1;
      }
    }

    /** readData: `count` bytes at `offset` of block `n` go to `dst[at..]`. */
    method ReadData(n: nat, offset: nat, count: nat, dst: array<byte>, at: nat) returns (ok: bool)
      requires offset + count <= BLOCK_SIZE && at + count <= dst.Length
      modifies this`faults, this`hardware, this`refused, dst
      ensures ok ==> n < |blocks| && Worked()
      ensures ok ==> dst[..] == Overwrite(old(dst[..]), at, blocks[n][offset..offset + count])
      ensures !ok ==> Failed(n < |blocks|) && dst[..] == old(dst[..])
    {
      ok := *;
      if n >= |blocks| {
        ok := false;
      }
      if ok {
        forall i | 0 <= i < count {
          dst[at + i] := blocks[n][offset + i];
        }
      } else {
        Fail(n < |blocks|);
      }
    }

    /** writeBlock: block zero is write protected, blocks past the end do not exist. */
    method WriteBlock(n: nat, src: Block) returns (ok: bool)
      modifies this
      ensures |blocks| == |old(blocks)|
      ensures ok ==> 0 < n < |blocks| && blocks == old(blocks)[n := src] && Worked()
      ensures !ok ==> Failed(0 < n < |blocks|)
      ensures !ok ==> blocks == old(blocks) || (n < |blocks| && blocks == old(blocks)[n := blocks[n]])
    {
      ok := *;
      if n == 0 || n >= |blocks| {
        ok := false;
      } else if ok {
        blocks := blocks[n := src];
      } else {
        var junk: Block := *;
        blocks := blocks[n := junk];
      }
      if !ok {
        Fail(0 < n < |blocks|);
      }
    }
  }

  /**
   * cacheBuffer_, cacheBlockNumber_, cacheDirty_ and cacheMirrorBlock_.
   * `View()` is the plain block map that the cache stands for: the device with the
   * cached block, and the pending copy for the second FAT, laid over it.
   */
  class Cache {
    const card: Sd2Card
    const buffer: array<byte>
    var blockNumber: nat
    var dirty: bool
    var mirror: nat

    /** A block that does not exist, or is write-protected, was addressed or waits to be written. */
    ghost var misused: bool

    ghost predicate Valid()
      reads this, card, buffer
    {
      && buffer.Length == BLOCK_SIZE
      && |card.blocks| <= NO_BLOCK
      && (blockNumber < |card.blocks| || blockNumber == NO_BLOCK)
      && (mirror != 0 ==> dirty && blockNumber < |card.blocks| && mirror < |card.blocks| && mirror != blockNumber)
      && (!dirty && blockNumber < |card.blocks| ==> buffer[..] == card.blocks[blockNumber])
      && card.faults == card.hardware + card.refused
      && (card.refused > 0 ==> misused)
      && (dirty && (blockNumber == NO_BLOCK || blockNumber == 0) ==> misused)
    }

    /** Unless the driver addressed a block that it must not, all failures are those of the hardware. */
    lemma FaultsAreHardware()
      requires Valid() && !misused
      ensures card.faults == card.hardware && !Wedged()
    {
    }

    ghost function View(): (v: seq<Block>)
      requires Valid()
      reads this, card, buffer
      ensures |v| == |card.blocks|
    {
      var v := if blockNumber < |card.blocks| then card.blocks[blockNumber := buffer[..]] else card.blocks;
      if mirror != 0 then v[mirror := buffer[..]] else v
    }

    /** Dirty contents that belong to no block: nothing can be flushed any more. */
    ghost predicate Wedged()
      reads this
    {
      dirty && blockNumber == NO_BLOCK
    }

    /** The device has changed at most in the dirty block and its pending copy. */
    twostate predicate OnlyFlushed()
      reads this, card
    {
      && |card.blocks| == |old(card.blocks)|
      && (!old(dirty) ==> card.blocks == old(card.blocks))
      && forall b {:trigger card.blocks[b]} :: 0 <= b < |card.blocks| && b != old(blockNumber) && b != old(mirror) ==>
           card.blocks[b] == old(card.blocks)[b]
    }

    constructor (card: Sd2Card)
      requires |card.blocks| <= NO_BLOCK && card.refused == 0 && card.faults == card.hardware
      ensures Valid() && this.card == card && fresh(buffer) && !misused
      ensures blockNumber == NO_BLOCK && !dirty && View() == card.blocks
    {
      this.card := card;
      buffer := new byte[BLOCK_SIZE](_ => 0);
      blockNumber := NO_BLOCK;
      dirty := false;
      mirror := 0;
      misused := false;
    }

    /** cacheFlush */
    method Flush() returns (ok: bool)
      requires Valid()
      modifies this`dirty, this`mirror, card
      ensures Valid() && View() == old(View()) && OnlyFlushed()
      ensures mirror == 0 || mirror == old(mirror)
      ensures ok ==> !dirty && mirror == 0 && card.blocks == View() && card.faults == old(card.faults)
      ensures !ok ==> dirty && mirror == old(mirror) && card.faults > old(card.faults)
      ensures !old(dirty) ==> ok && card.blocks == old(card.blocks)
      ensures old(Wedged()) ==> !ok && card.blocks == old(card.blocks)
      ensures card.hardware >= old(card.hardware)
    {
      if dirty {
        ok := card.WriteBlock(blockNumber, buffer[..]);
        if !ok {
          return false;
        }
        if mirror != 0 {
          ok := card.WriteBlock(mirror, buffer[..]);
          if !ok {
            return false;
          }
          mirror := 0;
        }
        dirty := false;
      }
      return true;
    }

    /** cacheRawBlock */
    method RawBlock(n: nat, forWrite: bool) returns (ok: bool)
      requires Valid()
      modifies this, card, buffer
      ensures Valid() && View() == old(View()) && OnlyFlushed()
      ensures misused <==> old(misused) || n >= |card.blocks| || (forWrite && n == 0)
      ensures ok ==> n == blockNumber && (n < |card.blocks| ==> buffer[..] == View()[n])
      ensures ok ==> card.faults == old(card.faults)
      ensures ok && n == old(blockNumber) ==> dirty == (old(dirty) || forWrite) && mirror == old(mirror)
      ensures ok && n != old(blockNumber) ==> dirty == forWrite && mirror == 0 && n < |card.blocks|
      ensures !ok ==> n != old(blockNumber) && blockNumber == old(blockNumber)
      ensures !ok ==> card.faults > old(card.faults) && (mirror == 0 || (dirty && mirror == old(mirror)))
      ensures !ok ==> (dirty == old(dirty) && mirror == old(mirror)) || (!dirty && mirror == 0)
      ensures old(Wedged()) && n != NO_BLOCK ==> !ok && Wedged()
      ensures card.hardware >= old(card.hardware)
    {
      misused := misused || n >= |card.blocks| || (forWrite && n == 0);
      ok := true;
      if blockNumber != n {
        ok := Load(n);
      }
      if ok {
        dirty := dirty || forWrite;
      }
    }

    /** Replace the cached block: flush it, then read block `n`. */
    method Load(n: nat) returns (ok: bool)
      requires Valid() && n != blockNumber && (n >= |card.blocks| ==> misused)
      modifies this`dirty, this`mirror, this`blockNumber, card, buffer
      ensures Valid() && View() == old(View()) && OnlyFlushed()
      ensures ok ==> n == blockNumber && !dirty && mirror == 0 && n < |card.blocks| && buffer[..] == View()[n]
      ensures ok ==> card.faults == old(card.faults)
      ensures !ok ==> card.faults > old(card.faults) && blockNumber == old(blockNumber)
      ensures !ok ==> (dirty == old(dirty) && mirror == old(mirror)) || (!dirty && mirror == 0)
      ensures !ok ==> mirror == 0 || (dirty && mirror == old(mirror))
      ensures old(Wedged()) ==> !ok && Wedged()
      ensures card.hardware >= old(card.hardware)
    {
      ok := Flush();
      if !ok {
        return false;
      }
      ok := card.ReadData(n, 0, BLOCK_SIZE, buffer, 0);
      if !ok {
        return false;
      }
      blockNumber := n;
      assert buffer[..] == card.blocks[n];
    }

    /** cacheZeroBlock */
    method ZeroBlock(n: nat) returns (ok: bool)
      requires Valid() && n < |card.blocks|
      modifies this, card, buffer
      ensures Valid() && OnlyFlushed() && (misused <==> old(misused) || n == 0)
      ensures ok ==> blockNumber == n && dirty && mirror == 0
      ensures old(Wedged()) ==> !ok
      ensures ok ==> View() == old(View())[n := ZERO_BLOCK] && card.faults == old(card.faults)
      ensures !ok ==> View() == old(View()) && card.faults > old(card.faults)
      ensures !ok ==> blockNumber == old(blockNumber) && dirty == old(dirty) && mirror == old(mirror)
    {
      misused := misused || n == 0;
      ok := Flush();
      if !ok {
        return false;
      }
      var i := 0;
      while i < BLOCK_SIZE
        modifies buffer
        invariant i <= BLOCK_SIZE
        invariant forall j :: 0 <= j < i ==> buffer[j] == 0
      {
        buffer[i] := 0;
        i := i + 1;
      }
      blockNumber := n;
      dirty := true;
      assert buffer[..] == ZERO_BLOCK;
    }

    /**
     * Make `n` the cached block without reading it: what `write` does at the start
     * of a block that holds no file data yet. The old buffer contents become its contents.
     */
    method AdoptBlock(n: nat) returns (ok: bool)
      requires Valid() && n < |card.blocks|
      modifies this, card
      ensures Valid() && OnlyFlushed() && (misused <==> old(misused) || n == 0)
      ensures ok ==> blockNumber == n && dirty && mirror == 0
      ensures old(Wedged()) ==> !ok
      ensures ok ==> View() == old(View())[n := buffer[..]] && card.faults == old(card.faults)
      ensures !ok ==> View() == old(View()) && card.faults > old(card.faults)
      ensures !ok ==> blockNumber == old(blockNumber) && dirty == old(dirty) && mirror == old(mirror)
    {
      misused := misused || n == 0;
      ok := Flush();
      if !ok {
        return false;
      }
      blockNumber := n;
      dirty := true;
    }

    /** Store bytes in the buffer. */
    method Store(offset: nat, src: seq<byte>)
      requires buffer.Length == BLOCK_SIZE && offset + |src| <= BLOCK_SIZE
      modifies buffer
      ensures buffer[..] == Overwrite(old(buffer[..]), offset, src)
    {
      var i := 0;
      while i < |src|
        invariant i <= |src|
        invariant forall j :: 0 <= j < BLOCK_SIZE ==>
          buffer[j] == if offset <= j < offset + i then src[j - offset] else old(buffer[j])
      {
        buffer[offset + i] := src[i];
        i := i + 1;
      }
    }

    /** Copy `src` into the cached block, which is marked dirty. */
    method CopyIn(offset: nat, src: seq<byte>)
      requires Valid() && dirty && mirror == 0 && blockNumber < |card.blocks|
      requires offset + |src| <= BLOCK_SIZE
      modifies buffer
      ensures Valid()
      ensures View() == old(View())[blockNumber := Overwrite(old(View())[blockNumber], offset, src)]
    {
      Store(offset, src);
    }

    /** The store of `fatPut`: the cached block becomes dirty, its copy in the second FAT pending. */
    method StoreMirrored(offset: nat, src: seq<byte>, copy: nat)
      requires Valid() && 0 < blockNumber < |card.blocks| && offset + |src| <= BLOCK_SIZE
      requires copy != 0 ==> copy < |card.blocks| && copy != blockNumber
      requires mirror != 0 ==> mirror == copy
      modifies this`dirty, this`mirror, buffer
      ensures Valid() && dirty && mirror == copy
      ensures var block := Overwrite(old(View())[blockNumber], offset, src);
        View() == if copy != 0 then old(View())[blockNumber := block][copy := block]
                  else old(View())[blockNumber := block]
    {
      Store(offset, src);
      dirty := true;
      if copy != 0 {
        mirror := copy;
      }
    }

    /** Copy bytes of the cached block to a caller's buffer. */
    method CopyOut(offset: nat, count: nat, dst: array<byte>, at: nat)
      requires Valid() && dst != buffer
      requires offset + count <= BLOCK_SIZE && at + count <= dst.Length
      modifies dst
      ensures dst[..] == Overwrite(old(dst[..]), at, buffer[offset..offset + count])
    {
      var i := 0;
      while i < count
        modifies dst
        invariant i <= count
        invariant forall j :: 0 <= j < dst.Length ==>
          dst[j] == if at <= j < at + i then buffer[offset + j - at] else old(dst[j])
      {
        dst[at + i] := buffer[offset + i];
        i := i + 1;
      }
    }

    /**
     * The whole-block write of `write`: the cached copy of the block is dropped and the
     * device is written directly. Dropping forgets the block number only, so a dirty copy
     * leaves the cache wedged.
     */
    method WriteThrough(n: nat, src: Block) returns (ok: bool)
      requires Valid() && n < |card.blocks| && (mirror != 0 ==> n != blockNumber && n != mirror)
      modifies this, card
      ensures Valid()
      ensures ok ==> View() == old(View())[n := src] && card.faults == old(card.faults)
      ensures |card.blocks| == old(|card.blocks|)
      ensures !ok ==> View() == old(View())[n := View()[n]] && card.faults > old(card.faults)
      ensures dirty == old(dirty) && mirror == old(mirror)
      ensures blockNumber == if old(blockNumber) == n then NO_BLOCK else old(blockNumber)
      ensures Wedged() <==> old(Wedged()) || (old(dirty) && old(blockNumber) == n)
      ensures misused <==> old(misused) || (old(dirty) && old(blockNumber) == n) || n == 0
    {
      misused := misused || (dirty && blockNumber == n) || n == 0;
      if blockNumber == n {
        blockNumber := NO_BLOCK;
      }
      ok := card.WriteBlock(n, src);
    }

    /** Direct read of a block that is not cached. */
    method ReadDirect(n: nat, offset: nat, count: nat, dst: array<byte>, at: nat) returns (ok: bool)
      requires Valid() && n < |card.blocks| && n != blockNumber && (mirror != 0 ==> n != mirror) && dst != buffer
      requires offset + count <= BLOCK_SIZE && at + count <= dst.Length
      modifies card`faults, card`hardware, card`refused, dst
      ensures Valid() && View() == old(View())
      ensures ok ==> n < |card.blocks| && card.faults == old(card.faults)
      ensures ok ==> dst[..] == Overwrite(old(dst[..]), at, View()[n][offset..offset + count])
      ensures !ok ==> card.faults > old(card.faults) && dst[..] == old(dst[..])
    {
      ok := card.ReadData(n, offset, count, dst, at);
    }
  }
}
