/** Any sequence of block accesses through the cache, against a plain block map. */
module CacheSession {
  import opened Bytes
  import opened BlockCache

  /** Accesses to blocks; `Direct` bypasses the cache unless the block is cached, `Whole` writes past it. */
  datatype Access =
    | Read(n: nat)
    | Direct(n: nat)
    | Write(n: nat, offset: nat, src: seq<byte>)
    | Whole(n: nat, block: Block)
    | Zero(n: nat)
    | Sync

  /** Blocks of the first FAT and their copies in the second one. */
  type Copies = map<nat, nat>

  /** Copies are blocks of their own, and a block has at most one original. */
  ghost predicate CopiesOk(copies: Copies, size: nat) {
    && (forall n :: n in copies ==> 0 < n < size && 0 < copies[n] < size && copies[n] !in copies)
    && (forall m, n :: m in copies && n in copies && m != n ==> copies[m] != copies[n])
  }

  /** Accesses that the file system makes: existing blocks, never the second FAT, and no stores to block 0. */
  ghost predicate Legal(a: Access, copies: Copies, size: nat) {
    match a
    case Sync => true
    case Write(n, offset, src) => 0 < n < size && n !in copies.Values && offset + |src| <= BLOCK_SIZE
    case Whole(n, _) => 0 < n < size && n !in copies.Values && n !in copies
    case Zero(n) => 0 < n < size && n !in copies.Values && n !in copies
    case _ => a.n < size && a.n !in copies.Values
  }

  ghost predicate AllLegal(s: seq<Access>, copies: Copies, size: nat) {
    forall i :: 0 <= i < |s| ==> Legal(s[i], copies, size)
  }

  /** What a successful access does to a plain block map. */
  ghost function Plain(m: seq<Block>, a: Access, copies: Copies): (r: seq<Block>)
    requires CopiesOk(copies, |m|) && Legal(a, copies, |m|)
    ensures |r| == |m|
  {
    match a
    case Write(n, offset, src) =>
      var block := Overwrite(m[n], offset, src);
      if n in copies then m[n := block][copies[n] := block] else m[n := block]
    case Whole(n, block) => m[n := block]
    case Zero(n) => m[n := ZERO_BLOCK]
    case _ => m
  }

  /** One access to a plain block map. A failure changes nothing, but a whole-block write may leave anything there. */
  ghost predicate PlainStep(m: seq<Block>, m': seq<Block>, a: Access, ok: bool, copies: Copies)
    requires CopiesOk(copies, |m|) && Legal(a, copies, |m|)
  {
    if ok then m' == Plain(m, a, copies)
    else if a.Whole? then |m'| == |m| && m' == m[a.n := m'[a.n]]
    else m' == m
  }

  /** A run of a plain block map of `size` blocks. */
  ghost predicate IsPlainRun(trace: seq<seq<Block>>, size: nat, s: seq<Access>, oks: seq<bool>, copies: Copies)
    requires CopiesOk(copies, size) && AllLegal(s, copies, size)
  {
    && |trace| == |oks| + 1 && |oks| <= |s| && (forall i :: 0 <= i < |trace| ==> |trace[i]| == size)
    && forall i :: 0 <= i < |oks| ==> PlainStep(trace[i], trace[i + 1], s[i], oks[i], copies)
  }

  /** Every block of the first FAT equals its copy. */
  ghost predicate CopiesAgree(m: seq<Block>, copies: Copies)
    requires CopiesOk(copies, |m|)
  {
    forall n :: n in copies ==> m[n] == m[copies[n]]
  }

  /** The copies agree in every state of any run. */
  lemma {:induction false} RunKeepsCopies(trace: seq<seq<Block>>, size: nat, s: seq<Access>, oks: seq<bool>,
                                          copies: Copies, k: nat)
    requires CopiesOk(copies, size) && AllLegal(s, copies, size) && IsPlainRun(trace, size, s, oks, copies)
    requires CopiesAgree(trace[0], copies) && k < |trace|
    ensures CopiesAgree(trace[k], copies)
  {
    if k > 0 {
      RunKeepsCopies(trace, size, s, oks, copies, k - 1);
      StepKeepsCopies(trace[k - 1], trace[k], s[k - 1], oks[k - 1], copies);
    }
  }

  lemma StepKeepsCopies(m: seq<Block>, m': seq<Block>, a: Access, ok: bool, copies: Copies)
    requires CopiesOk(copies, |m|) && Legal(a, copies, |m|) && CopiesAgree(m, copies)
    requires |m'| == |m| && PlainStep(m, m', a, ok, copies)
    ensures CopiesAgree(m', copies)
  {
    hide Overwrite;
    forall n | n in copies
      ensures m'[n] == m'[copies[n]]
    {
      assert m[n] == m[copies[n]] && copies[n] in copies.Values;
    }
  }

  /** A pending copy belongs to the cached block. */
  ghost predicate MirrorOk(c: Cache, copies: Copies)
    reads c
  {
    && (c.mirror != 0 ==> c.blockNumber in copies && c.mirror == copies[c.blockNumber])
    && c.blockNumber !in copies.Values
  }

  /** One access; `data` is the block read, or empty. */
  method Perform(c: Cache, a: Access, copies: Copies) returns (ok: bool, data: seq<byte>)
    requires c.Valid() && CopiesOk(copies, |c.card.blocks|) && Legal(a, copies, |c.card.blocks|) && MirrorOk(c, copies)
    modifies c, c.card, c.buffer
    ensures c.Valid() && MirrorOk(c, copies) && |c.card.blocks| == |old(c.card.blocks)|
    ensures PlainStep(old(c.View()), c.View(), a, ok, copies)
    ensures ok && (a.Read? || a.Direct?) ==> data == old(c.View())[a.n]
    ensures ok && a.Sync? ==> c.card.blocks == c.View()
    ensures ok ==> c.card.faults == old(c.card.faults)
    ensures !ok ==> c.card.faults > old(c.card.faults)
    ensures !a.Whole? ==> c.OnlyFlushed() && c.misused == old(c.misused)
    ensures a.Whole? ==> (c.misused <==> old(c.misused || (c.dirty && c.blockNumber == a.n)))
  {
    data := [];
    match a {
      case Read(n) =>
        ok := c.RawBlock(n, false);
        if ok {
          data := c.buffer[..];
        }
      case Direct(n) =>
        ok, data := Fetch(c, n);
      case Write(n, offset, src) =>
        ok := Put(c, n, offset, src, copies);
      case Whole(n, block) =>
        ok := c.WriteThrough(n, block);
      case Zero(n) =>
        ok := c.ZeroBlock(n);
      case Sync =>
        ok := c.Flush();
    }
  }

  /** A read that leaves the cache as it is: of the cached block from the buffer, of others from the device. */
  method Fetch(c: Cache, n: nat) returns (ok: bool, data: seq<byte>)
    requires c.Valid() && n < |c.card.blocks| && (c.mirror != 0 ==> n != c.mirror)
    modifies c.card`faults, c.card`hardware, c.card`refused
    ensures c.Valid() && c.View() == old(c.View())
    ensures ok ==> data == c.View()[n] && c.card.faults == old(c.card.faults)
    ensures !ok ==> c.card.faults > old(c.card.faults)
  {
    if n == c.blockNumber {
      return true, c.buffer[..];
    }
    var buf := new byte[BLOCK_SIZE];
    ok := c.ReadDirect(n, 0, BLOCK_SIZE, buf, 0);
    data := buf[..];
  }

  /** A store: blocks of the first FAT get a pending copy. */
  method Put(c: Cache, n: nat, offset: nat, src: seq<byte>, copies: Copies) returns (ok: bool)
    requires c.Valid() && CopiesOk(copies, |c.card.blocks|) && MirrorOk(c, copies)
    requires Legal(Write(n, offset, src), copies, |c.card.blocks|)
    modifies c, c.card, c.buffer
    ensures c.Valid() && MirrorOk(c, copies) && |c.card.blocks| == |old(c.card.blocks)|
    ensures c.View() == if ok then Plain(old(c.View()), Write(n, offset, src), copies) else old(c.View())
    ensures ok ==> c.card.faults == old(c.card.faults)
    ensures !ok ==> c.card.faults > old(c.card.faults)
    ensures c.OnlyFlushed() && c.misused == old(c.misused)
  {
    ok := c.RawBlock(n, n !in copies);
    if ok {
      if n in copies {
        c.StoreMirrored(offset, src, copies[n]);
      } else {
        c.CopyIn(offset, src);
      }
    }
  }

  /**
   * Any sequence of accesses, failing or not: the cache stands for a plain block map that does the
   * same accesses, every successful read returns that map's block, and blocks of the first FAT keep
   * equal to their copies.
   */
  method Run(c: Cache, s: seq<Access>, copies: Copies)
    returns (oks: seq<bool>, data: seq<seq<byte>>, ghost trace: seq<seq<Block>>)
    requires c.Valid() && CopiesOk(copies, |c.card.blocks|) && MirrorOk(c, copies)
    requires AllLegal(s, copies, |c.card.blocks|)
    modifies c, c.card, c.buffer
    ensures c.Valid() && MirrorOk(c, copies) && |oks| == |data| == |s| && |c.card.blocks| == |old(c.card.blocks)|
    ensures IsPlainRun(trace, |c.card.blocks|, s, oks, copies)
    ensures trace[0] == old(c.View()) && trace[|s|] == c.View()
    ensures forall i :: 0 <= i < |s| && oks[i] && (s[i].Read? || s[i].Direct?) ==> data[i] == trace[i][s[i].n]
    ensures old(CopiesAgree(c.View(), copies)) ==> forall i :: 0 <= i < |trace| ==> CopiesAgree(trace[i], copies)
    ensures c.card.faults == old(c.card.faults) ==> forall i :: 0 <= i < |s| ==> oks[i]
    ensures (forall i :: 0 <= i < |s| ==> !s[i].Whole?) ==> c.misused == old(c.misused)
  {
    oks, data, trace := [], [], [c.View()];
    ghost var size := |c.card.blocks|;
    for i := 0 to |s|
      invariant c.Valid() && MirrorOk(c, copies) && |oks| == |data| == i && |c.card.blocks| == size
      invariant IsPlainRun(trace, size, s, oks, copies) && trace[0] == old(c.View()) && trace[i] == c.View()
      invariant forall j :: 0 <= j < i && oks[j] && (s[j].Read? || s[j].Direct?) ==> data[j] == trace[j][s[j].n]
      invariant (forall j :: 0 <= j < i ==> !s[j].Whole?) ==> c.misused == old(c.misused)
      invariant c.card.faults >= old(c.card.faults)
      invariant c.card.faults == old(c.card.faults) ==> forall j :: 0 <= j < i ==> oks[j]
    {
      var ok, block := Perform(c, s[i], copies);
      RunOn(trace, size, s, oks, c.View(), ok, copies);
      oks, data, trace := oks + [ok], data + [block], trace + [c.View()];
    }
    if CopiesAgree(trace[0], copies) {
      forall i | 0 <= i < |trace|
        ensures CopiesAgree(trace[i], copies)
      {
        RunKeepsCopies(trace, size, s, oks, copies, i);
      }
    }
  }

  /** One access more. */
  lemma RunOn(trace: seq<seq<Block>>, size: nat, s: seq<Access>, oks: seq<bool>, m: seq<Block>, ok: bool,
              copies: Copies)
    requires CopiesOk(copies, size) && AllLegal(s, copies, size) && IsPlainRun(trace, size, s, oks, copies)
    requires |m| == size && |oks| < |s| && PlainStep(trace[|oks|], m, s[|oks|], ok, copies)
    ensures IsPlainRun(trace + [m], size, s, oks + [ok], copies)
  {
    hide PlainStep;
    var trace', oks' := trace + [m], oks + [ok];
    forall i | 0 <= i < |oks'|
      ensures PlainStep(trace'[i], trace'[i + 1], s[i], oks'[i], copies)
    {
      if i < |oks| {
        assert trace'[i] == trace[i] && trace'[i + 1] == trace[i + 1] && oks'[i] == oks[i];
      }
    }
  }
}
