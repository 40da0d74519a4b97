/** Every run of operations, seen on the block map: all chains of all files and directories. */
module FatRuns {
  import opened Bytes
  import opened VolumeLayout
  import opened Chains
  import opened FileData
  import opened Frames

  /** What a chain belongs to: the directory at hand, what that lists under a name, or anything else. */
  datatype Id = Directory | Named(name: seq<byte>) | Numbered(i: nat)

  /** A volume with its cache, and the chains of its live files and directories. */
  datatype World = World(fat: seq<nat>, disk: seq<Block>, cache: CacheState, chains: map<Id, seq<nat>>)

  /** Chains are sound, and no cluster belongs to two of them. */
  ghost predicate Healthy(lay: Layout, w: World) {
    && |w.fat| == lay.clusterCount + 2
    && (forall i :: i in w.chains ==> ChainOrEmpty(lay, w.fat, w.chains[i]))
    && (forall i, j :: i in w.chains && j in w.chains && i != j ==> Disjoint(w.chains[i], w.chains[j]))
  }

  /**
   * What one operation does: it changes FAT entries of `own` and free ones, ends the things in
   * `gone`, and gives those in `after` new chains.
   */
  datatype Change = Change(own: seq<nat>, gone: set<Id>, after: map<Id, seq<nat>>)

  predicate Affects(e: Change, i: Id) { i in e.gone || i in e.after }

  /** It is about one name of the directory at most. */
  ghost predicate AboutName(e: Change, name: seq<byte>) {
    forall i :: Affects(e, i) ==> i == Directory || i == Named(name)
  }

  const NO_CHANGE: Change := Change([], {}, map[])

  /** The blocks of the chain are the same. */
  ghost predicate SameBlocks(lay: Layout, d: seq<Block>, d': seq<Block>, chain: seq<nat>) {
    |d| == |d'| && forall b {:trigger d'[b]} :: 0 <= b < |d| && Owned(lay, chain, b) ==> d'[b] == d[b]
  }

  ghost predicate Next(lay: Layout, w: World, w': World, e: Change) {
    && Confined(w.fat, w'.fat, e.own) && |w'.disk| == |w.disk|
    && w'.chains == (w.chains - e.gone) + e.after
    && (forall i :: i in e.after ==> ChainOrEmpty(lay, w'.fat, e.after[i]) && Taken(w.fat, e.own, e.after[i]))
    && (forall i, j :: i in e.after && j in e.after && i != j ==> Disjoint(e.after[i], e.after[j]))
    && (forall i :: i in w.chains && !Affects(e, i) ==>
          Disjoint(e.own, w.chains[i]) && SameBlocks(lay, w.disk, w'.disk, w.chains[i]))
  }

  /** Doing nothing, but possibly in the cache, is a step. */
  lemma NothingNext(lay: Layout, w: World, c: CacheState)
    ensures Next(lay, w, w.(cache := c), NO_CHANGE) && forall name :: AboutName(NO_CHANGE, name)
  {
  }

  lemma ChainApart(lay: Layout, fat: seq<nat>, own: seq<nat>, after: seq<nat>, t: seq<nat>)
    requires ChainOrEmpty(lay, fat, t) && Disjoint(own, t) && Taken(fat, own, after)
    ensures Disjoint(after, t) && Disjoint(t, after)
  {
    forall i, j | 0 <= i < |after| && 0 <= j < |t|
      ensures after[i] != t[j]
    {
      assert after[i] in after;
      ChainInUse(lay, fat, t, t[j]);
    }
  }

  lemma ChainKept(lay: Layout, fat: seq<nat>, fat': seq<nat>, own: seq<nat>, t: seq<nat>)
    requires ChainOrEmpty(lay, fat, t) && Confined(fat, fat', own) && Disjoint(own, t)
    ensures ChainOrEmpty(lay, fat', t)
  {
    if t != [] {
      OthersKeepTheirChains(lay, fat, fat', own, t);
    }
  }

  /** Every operation keeps all chains sound and disjoint. */
  lemma NextKeepsHealth(lay: Layout, w: World, w': World, e: Change)
    requires Healthy(lay, w) && Next(lay, w, w', e)
    ensures Healthy(lay, w')
  {
    forall i | i in w'.chains
      ensures ChainOrEmpty(lay, w'.fat, w'.chains[i])
      ensures forall j :: j in w'.chains && i != j ==> Disjoint(w'.chains[i], w'.chains[j])
    {
      if i !in e.after {
        ChainKept(lay, w.fat, w'.fat, e.own, w.chains[i]);
      }
      forall j | j in w'.chains && i != j
        ensures Disjoint(w'.chains[i], w'.chains[j])
      {
        if i in e.after && j !in e.after {
          ChainApart(lay, w.fat, e.own, e.after[i], w.chains[j]);
        } else if i !in e.after && j in e.after {
          ChainApart(lay, w.fat, e.own, e.after[j], w.chains[i]);
        }
      }
    }
  }

  // ---------------------------------------------------------------- no cluster gets lost

  ghost predicate HasOwner(w: World, c: nat) { exists i :: i in w.chains && c in w.chains[i] }

  /** Clusters in use that belong to nothing. */
  ghost function Orphans(w: World): set<nat> {
    set c: nat | c < |w.fat| && w.fat[c] != 0 && !HasOwner(w, c)
  }

  predicate GoesTo(e: Change, c: nat) { exists i :: i in e.after && c in e.after[i] }

  /**
   * The clusters that the operation gives up are free, but for those in `kept`; no entry outside the
   * old and the new chains has changed.
   */
  ghost predicate Tight(w: World, w': World, e: Change, kept: seq<nat>) {
    && |w'.fat| == |w.fat|
    && (forall c: nat :: c < |w.fat| && c !in e.own && !GoesTo(e, c) ==> w'.fat[c] == w.fat[c])
    && (forall c: nat :: c < |w.fat| && c in e.own && !GoesTo(e, c) ==> (w'.fat[c] != 0 <==> c in kept))
    && (forall c :: c in kept ==> c < |w.fat| && c in e.own && !GoesTo(e, c))
    && (forall c :: c in e.own ==> exists i :: i in w.chains && Affects(e, i) && c in w.chains[i])
    && (forall i, c :: i in w.chains && Affects(e, i) && c in w.chains[i] ==> c in e.own)
  }

  lemma NothingTight(w: World, c: CacheState)
    ensures Tight(w, w.(cache := c), NO_CHANGE, [])
  {
  }

  /** Then the orphans are the old ones and the clusters kept. */
  lemma OrphansAfter(lay: Layout, w: World, w': World, e: Change, kept: seq<nat>)
    requires Healthy(lay, w) && Next(lay, w, w', e) && Tight(w, w', e, kept)
    ensures Orphans(w') == Orphans(w) + Members(kept)
  {
    hide Next, Tight, Healthy, HasOwner, GoesTo;
    TightFat(w, w', e, kept);
    forall c: nat
      ensures c in Orphans(w') <==> c in Orphans(w) || c in kept
    {
      OrphanAfter(lay, w, w', e, kept, c);
    }
  }

  lemma TightFat(w: World, w': World, e: Change, kept: seq<nat>)
    requires Tight(w, w', e, kept)
    ensures |w'.fat| == |w.fat| && forall c :: c in kept ==> c < |w.fat|
  {
  }

  /** Who owns a cluster afterwards. */
  lemma OwnerAfter(lay: Layout, w: World, w': World, e: Change, c: nat)
    requires Healthy(lay, w) && Next(lay, w, w', e) && c < |w.fat|
    requires forall i, c :: i in w.chains && Affects(e, i) && c in w.chains[i] ==> c in e.own
    requires forall c :: c in e.own ==> exists i :: i in w.chains && Affects(e, i) && c in w.chains[i]
    ensures HasOwner(w', c) <==> GoesTo(e, c) || (HasOwner(w, c) && c !in e.own)
    ensures c in e.own ==> HasOwner(w, c)
    ensures GoesTo(e, c) ==> c in e.own || w.fat[c] == 0
  {
    hide Confined, SameBlocks, ChainOrEmpty;
    if HasOwner(w', c) && !GoesTo(e, c) {
      var i :| i in w'.chains && c in w'.chains[i];
      assert i in w.chains && w.chains[i] == w'.chains[i] && !Affects(e, i);
      DisjointMembers(e.own, w.chains[i]);
    }
    if HasOwner(w, c) && c !in e.own {
      var i :| i in w.chains && c in w.chains[i];
      assert !Affects(e, i) && i in w'.chains && w'.chains[i] == w.chains[i];
    }
    if GoesTo(e, c) {
      var i :| i in e.after && c in e.after[i];
      assert i in w'.chains && w'.chains[i] == e.after[i];
    }
  }

  lemma OrphanAfter(lay: Layout, w: World, w': World, e: Change, kept: seq<nat>, c: nat)
    requires Healthy(lay, w) && Next(lay, w, w', e) && Tight(w, w', e, kept)
    ensures c in Orphans(w') <==> c in Orphans(w) || c in kept
  {
    hide Next, HasOwner, GoesTo;
    if c < |w.fat| {
      OwnerAfter(lay, w, w', e, c);
      InUseAfter(lay, w, w', e, c);
    }
  }

  /** What an operation gives a chain is in use. */
  lemma InUseAfter(lay: Layout, w: World, w': World, e: Change, c: nat)
    requires Next(lay, w, w', e) && c < |w'.fat|
    ensures GoesTo(e, c) ==> w'.fat[c] != 0
  {
    if GoesTo(e, c) {
      var i :| i in e.after && c in e.after[i];
      ChainInUse(lay, w'.fat, e.after[i], c);
    }
  }

  // ---------------------------------------------------------------- runs

  ghost predicate IsRun(lay: Layout, run: seq<World>, changes: seq<Change>) {
    |run| == |changes| + 1 && forall k :: 0 <= k < |changes| ==> Next(lay, run[k], run[k + 1], changes[k])
  }

  lemma NoRunYet(lay: Layout, w: World)
    ensures IsRun(lay, [w], [])
  {
  }

  /** One step more. */
  lemma RunOn(lay: Layout, run: seq<World>, changes: seq<Change>, w: World, e: Change)
    requires |run| > |changes| && IsRun(lay, run, changes) && Next(lay, run[|changes|], w, e)
    ensures IsRun(lay, run + [w], changes + [e]) && |run| == |changes| + 1
  {
    var run', changes' := run + [w], changes + [e];
    forall k | 0 <= k < |changes'|
      ensures Next(lay, run'[k], run'[k + 1], changes'[k])
    {
      if k < |changes| {
        assert run'[k] == run[k] && run'[k + 1] == run[k + 1] && changes'[k] == changes[k];
      }
    }
  }

  /**
   * In every state of every run, the chain of every file stays in the range of cluster numbers,
   * has no cluster twice, ends in an EOC, has no free cluster, and shares none with another file.
   */
  lemma {:induction false} HealthyRun(lay: Layout, run: seq<World>, changes: seq<Change>, k: nat, file: Id)
    requires EocAboveClusters(lay) && IsRun(lay, run, changes) && Healthy(lay, run[0])
    requires k < |run| && file in run[k].chains
    ensures Healthy(lay, run[k])
    ensures var s, fat := run[k].chains[file], run[k].fat;
      && lay.ChainInRange(s) && Distinct(s) && (forall c :: c in s ==> c < |fat| && fat[c] != 0)
      && (s != [] ==> s[|s| - 1] < |fat| && lay.IsEoc(fat[s[|s| - 1]]))
      && forall other :: other in run[k].chains && other != file ==> Disjoint(s, run[k].chains[other])
  {
    HealthyUpTo(lay, run, changes, k);
    var s, fat := run[k].chains[file], run[k].fat;
    if s != [] {
      ChainDistinct(lay, fat, s);
      forall c | c in s
        ensures c < |fat| && fat[c] != 0
      {
        ChainInUse(lay, fat, s, c);
      }
    }
  }

  lemma {:induction false} HealthyUpTo(lay: Layout, run: seq<World>, changes: seq<Change>, k: nat)
    requires IsRun(lay, run, changes) && Healthy(lay, run[0]) && k < |run|
    ensures Healthy(lay, run[k])
  {
    if k > 0 {
      HealthyUpTo(lay, run, changes, k - 1);
      NextKeepsHealth(lay, run[k - 1], run[k], changes[k - 1]);
    }
  }

  /** What no step of a run affects keeps its clusters and its blocks. */
  lemma {:induction false} UnaffectedInRun(lay: Layout, run: seq<World>, changes: seq<Change>, k: nat, file: Id)
    requires IsRun(lay, run, changes) && k < |run| && file in run[0].chains
    requires forall e :: e in changes[..k] ==> !Affects(e, file)
    ensures file in run[k].chains && run[k].chains[file] == run[0].chains[file]
    ensures SameBlocks(lay, run[0].disk, run[k].disk, run[0].chains[file])
  {
    if k > 0 {
      assert forall e :: e in changes[..k - 1] ==> e in changes[..k];
      UnaffectedInRun(lay, run, changes, k - 1, file);
      assert changes[k - 1] in changes[..k];
    }
  }

  /** With its blocks a chain keeps its bytes. */
  lemma SameContent(lay: Layout, d: seq<Block>, d': seq<Block>, chain: seq<nat>, n: nat)
    requires lay.WellFormed(|d|) && lay.ExtentOk(Clusters(chain)) && n <= Capacity(lay, Clusters(chain))
    requires SameBlocks(lay, d, d', chain)
    ensures Content(lay, d', Clusters(chain), n) == Content(lay, d, Clusters(chain), n)
  {
    forall p | 0 <= p < n
      ensures ByteAt(lay, d', Clusters(chain), p) == ByteAt(lay, d, Clusters(chain), p)
    {
      NthBlockPlace(lay, |d|, Clusters(chain), p / BLOCK_SIZE);
    }
  }

  // ---------------------------------------------------------------- frames are steps

  /** What one entry of the directory has a frame for does not touch anything else. */
  lemma FrameSpares(lay: Layout, f0: seq<nat>, f1: seq<nat>, d0: seq<Block>, d1: seq<Block>, s0: seq<nat>, s1: seq<nat>,
                    own: seq<nat>, after: seq<nat>, place: Extent, block: nat, index: nat, t: seq<nat>)
    requires lay.WellFormed(|d0|) && Frame(lay, f0, f1, d0, d1, s0, s1, own, after, place, block, index)
    requires ChainOrEmpty(lay, f0, t) && Disjoint(s0, t) && Disjoint(own, t)
    ensures Disjoint(s0 + own, t) && SameBlocks(lay, d0, d1, t)
  {
    DisjointMembers(s0, t);
    DisjointMembers(own, t);
    MembersDisjoint(s0 + own, t);
    ChainApart(lay, f0, s0 + own, s1 + after, t);
    DisjointParts(s1, after, t);
    DisjointMembers(s1, t);
    forall b | 0 <= b < |d0| && Owned(lay, t, b)
      ensures d1[b] == d0[b]
    {
      ChainInUse(lay, f0, t, lay.ClusterOf(b));
      assert Foreign(lay, f0, own, b) && !InPlace(lay, place, b);
    }
  }

  /** The chain of a name, before it has one. */
  function ChainOf(chains: map<Id, seq<nat>>, i: Id): seq<nat> {
    if i in chains then chains[i] else []
  }

  /** How many bytes it can have. */
  ghost function SpaceFor(lay: Layout, w: World, i: Id): nat { Space(lay, w.fat, ChainOf(w.chains, i)) }

  /**
   * How an operation on a name of the directory may end: with a chain under the name, or without,
   * because it is gone or because an I/O error left it unsound.
   */
  datatype Ending = Kept(dir: seq<nat>, chain: seq<nat>) | Lost(dir: seq<nat>)

  function EndingChange(chains: map<Id, seq<nat>>, name: seq<byte>, r: Ending): Change
    requires Directory in chains
  {
    var own := chains[Directory] + ChainOf(chains, Named(name));
    match r
    case Kept(dir, chain) => Change(own, {}, map[Directory := dir, Named(name) := chain])
    case Lost(dir) => Change(own, {Named(name)}, map[Directory := dir])
  }

  function After(chains: map<Id, seq<nat>>, e: Change): map<Id, seq<nat>> { (chains - e.gone) + e.after }

  /** An operation on one name of the directory is one step. */
  lemma FrameNext(lay: Layout, w: World, f1: seq<nat>, d1: seq<Block>, c1: CacheState, name: seq<byte>, s1: seq<nat>,
                  after: seq<nat>, place: Extent, block: nat, index: nat, r: Ending)
    requires lay.WellFormed(|w.disk|) && Healthy(lay, w) && Directory in w.chains
    requires Frame(lay, w.fat, f1, w.disk, d1, w.chains[Directory], s1, ChainOf(w.chains, Named(name)), after,
                   place, block, index)
    requires r.dir == s1 && ChainOrEmpty(lay, f1, s1)
    requires r.Kept? ==> r.chain == after && ChainOrEmpty(lay, f1, after)
    ensures var e := EndingChange(w.chains, name, r);
      AboutName(e, name) && Next(lay, w, World(f1, d1, c1, After(w.chains, e)), e)
  {
    hide Frame, Confined, Taken, SameBlocks, Disjoint, ChainOrEmpty, Layout.WellFormed;
    var own, e := ChainOf(w.chains, Named(name)), EndingChange(w.chains, name, r);
    assert AboutName(e, name);
    FrameParts(lay, w.fat, f1, w.disk, d1, w.chains[Directory], s1, own, after, place, block, index);
    forall i | i in w.chains && !Affects(e, i)
      ensures Disjoint(e.own, w.chains[i]) && SameBlocks(lay, w.disk, d1, w.chains[i])
    {
      OwnApart(lay, w, Named(name), i);
      FrameSpares(lay, w.fat, f1, w.disk, d1, w.chains[Directory], s1, own, after, place, block, index, w.chains[i]);
    }
  }

  /** It is tight if nothing was given up but what is free or in `left`. */
  lemma EndingTight(w: World, f1: seq<nat>, d1: seq<Block>, c1: CacheState, name: seq<byte>, after: seq<nat>,
                    r: Ending, left: seq<nat>)
    requires Directory in w.chains && (if r.Kept? then r.chain == after else after == [])
    requires var own := w.chains[Directory] + ChainOf(w.chains, Named(name));
      && Exact(w.fat, f1, own, r.dir + after + left) && InUseBy(f1, left)
      && forall c :: c in left ==> c in own && c !in r.dir + after
    ensures var e := EndingChange(w.chains, name, r); Tight(w, World(f1, d1, c1, After(w.chains, e)), e, left)
  {
    var e := EndingChange(w.chains, name, r);
    forall c: nat
      ensures GoesTo(e, c) <==> c in r.dir + after
    {
      assert c in r.dir ==> Directory in e.after && c in e.after[Directory];
      assert r.Kept? && c in after ==> Named(name) in e.after && c in e.after[Named(name)];
    }
    forall c | c in e.own
      ensures exists i :: i in w.chains && Affects(e, i) && c in w.chains[i]
    {
      assert Affects(e, Directory) && Affects(e, Named(name));
      assert c in w.chains[Directory] || (Named(name) in w.chains && c in w.chains[Named(name)]);
    }
  }

  lemma OwnApart(lay: Layout, w: World, n: Id, i: Id)
    requires Healthy(lay, w) && Directory in w.chains && i in w.chains && i != Directory && i != n
    ensures ChainOrEmpty(lay, w.fat, w.chains[i])
    ensures Disjoint(w.chains[Directory], w.chains[i]) && Disjoint(ChainOf(w.chains, n), w.chains[i])
  {
  }

  lemma FrameParts(lay: Layout, f0: seq<nat>, f1: seq<nat>, d0: seq<Block>, d1: seq<Block>, s0: seq<nat>, s1: seq<nat>,
                   own: seq<nat>, after: seq<nat>, place: Extent, block: nat, index: nat)
    requires Frame(lay, f0, f1, d0, d1, s0, s1, own, after, place, block, index)
    ensures Confined(f0, f1, s0 + own) && |d1| == |d0| && Taken(f0, s0 + own, s1) && Taken(f0, s0 + own, after)
    ensures Disjoint(after, s1) && Disjoint(s1, after)
  {
    assert forall c :: c in s1 ==> c in s1 + after;
    assert forall c :: c in after ==> c in s1 + after;
    DisjointSwap(after, s1);
  }
}
