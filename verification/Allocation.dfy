/** What the cluster allocator promises: first fit over the free runs of the FAT. */
module Allocation {
  import opened VolumeLayout
  import opened Device
  import opened Chains

  /** `count` consecutive free clusters starting at `b`. */
  predicate FreeRun(fat: seq<nat>, b: nat, count: nat) {
    2 <= b && b + count <= |fat| && forall c :: b <= c < b + count ==> fat[c] == 0
  }

  /** No cluster can be allocated. */
  ghost predicate NoneFree(fat: seq<nat>) { forall c :: 2 <= c < |fat| ==> fat[c] != 0 }

  /** The clusters that can be allocated. */
  ghost function FreeClusters(fat: seq<nat>): set<nat> {
    set c: nat | 2 <= c < |fat| && fat[c] == 0
  }

  lemma NoneFreeIsEmpty(fat: seq<nat>)
    ensures NoneFree(fat) <==> FreeClusters(fat) == {}
  {
    forall c | 2 <= c < |fat| && fat[c] == 0
      ensures c in FreeClusters(fat)
    {
    }
  }

  /** No free run of length `count` lies in the clusters lo .. hi - 1. */
  predicate NoRun(fat: seq<nat>, lo: nat, hi: nat, count: nat) {
    forall b: nat :: lo <= b && b + count <= hi ==> !FreeRun(fat, b, count)
  }

  /** `b` is the lowest free run of this length. */
  predicate LowestRun(fat: seq<nat>, b: nat, count: nat) {
    count > 0 && FreeRun(fat, b, count) && NoRun(fat, 2, b + count - 1, count)
  }

  lemma SomeRun(fat: seq<nat>, b: nat, count: nat)
    requires LowestRun(fat, b, count)
    ensures !NoRun(fat, 2, |fat|, count)
  {
  }

  /**
   * `b` is the run a search from `start` reaches first: the lowest run at or after `start`,
   * or, if there is none, the lowest run that ends before `start`.
   */
  predicate FirstFit(fat: seq<nat>, start: nat, count: nat, b: nat) {
    && FreeRun(fat, b, count)
    && (if b >= start then NoRun(fat, start, b + count - 1, count)
        else b + count <= start && NoRun(fat, start, |fat|, count) && NoRun(fat, 2, b + count - 1, count))
  }

  /** There is only one run that a search reaches first. */
  lemma FirstFitUnique(fat: seq<nat>, start: nat, count: nat, b: nat, c: nat)
    requires count > 0 && FirstFit(fat, start, count, b) && FirstFit(fat, start, count, c)
    ensures b == c
  {
  }

  /** Only which clusters are free matters for the runs. */
  lemma SameRuns(f: seq<nat>, g: seq<nat>, count: nat)
    requires |f| == |g| && forall c :: 2 <= c < |f| ==> (f[c] == 0 <==> g[c] == 0)
    ensures NoRun(f, 2, |f|, count) <==> NoRun(g, 2, |g|, count)
  {
    forall b: nat | 2 <= b && b + count <= |f|
      ensures FreeRun(f, b, count) <==> FreeRun(g, b, count)
    {
    }
  }

  /** The search from `start` finds nothing. */
  predicate NoFit(fat: seq<nat>, start: nat, count: nat) {
    NoRun(fat, start, |fat|, count) && NoRun(fat, 2, start, count)
  }

  /** A scan from `lo` has reached `end`: the free clusters just before it begin at `bgn`. */
  predicate Scanning(fat: seq<nat>, lo: nat, bgn: nat, end: nat, count: nat) {
    && 2 <= lo <= bgn <= end <= |fat|
    && (forall c :: bgn <= c < end ==> fat[c] == 0)
    && (bgn == lo || fat[bgn - 1] != 0)
    && (count > 0 ==> end - bgn < count && NoRun(fat, lo, end, count))
  }

  lemma ScanStep(fat: seq<nat>, lo: nat, bgn: nat, end: nat, count: nat)
    requires Scanning(fat, lo, bgn, end, count) && end < |fat|
    ensures fat[end] != 0 ==> Scanning(fat, lo, end + 1, end + 1, count)
    ensures fat[end] == 0 && end - bgn + 1 != count ==> Scanning(fat, lo, bgn, end + 1, count)
    ensures fat[end] == 0 && end - bgn + 1 == count ==> FreeRun(fat, bgn, count) && NoRun(fat, lo, end, count)
  {
    if count > 0 {
      forall b: nat | lo <= b && b + count <= end + 1 && FreeRun(fat, b, count)
        ensures b + count == end + 1 && fat[end] == 0 && b >= bgn
      {
        if b + count == end + 1 {
          assert fat[b + count - 1] == 0;
          assert b < bgn ==> b <= bgn - 1 < b + count;
        }
      }
    }
  }

  /**
   * State of the search loop after `n` steps: a scan up from `start` that, having passed the
   * last cluster, goes on from cluster 2.
   */
  predicate Searching(fat: seq<nat>, start: nat, n: nat, bgn: nat, end: nat, count: nat) {
    && 2 <= start <= |fat|
    && (if n < |fat| - start || (n == |fat| - start && end == |fat|)
        then n == end - start && Scanning(fat, start, bgn, end, count)
        else
          && n == |fat| - start + (end - 2)
          && Scanning(fat, 2, bgn, end, count)
          && (count > 0 ==> NoRun(fat, start, |fat|, count)))
  }

  lemma SearchStart(fat: seq<nat>, start: nat, count: nat)
    requires 2 <= start <= |fat|
    ensures Searching(fat, start, 0, start, start, count)
  {
  }

  lemma SearchBounds(fat: seq<nat>, start: nat, n: nat, bgn: nat, end: nat, count: nat)
    requires Searching(fat, start, n, bgn, end, count)
    ensures 2 <= bgn <= end <= |fat|
  {
  }

  /** Passing the last cluster restarts the scan at cluster 2. */
  lemma SearchWrap(fat: seq<nat>, start: nat, n: nat, bgn: nat, count: nat)
    requires Searching(fat, start, n, bgn, |fat|, count) && n < |fat| - 2
    ensures n == |fat| - start
    ensures Searching(fat, start, n, 2, 2, count)
  {
  }

  lemma SearchStep(fat: seq<nat>, start: nat, n: nat, bgn: nat, end: nat, count: nat)
    requires Searching(fat, start, n, bgn, end, count) && end < |fat| && n < |fat| - 2
    ensures fat[end] != 0 || end - bgn + 1 != count ==>
      Searching(fat, start, n + 1, if fat[end] != 0 then end + 1 else bgn, end + 1, count)
    ensures fat[end] == 0 && end - bgn + 1 == count ==> count > 0 && FirstFit(fat, start, count, bgn)
  {
    if n < |fat| - start {
      ScanStep(fat, start, bgn, end, count);
    } else {
      ScanStep(fat, 2, bgn, end, count);
    }
  }

  /** After clusterCount steps every run was seen. */
  lemma SearchDone(fat: seq<nat>, start: nat, bgn: nat, end: nat, count: nat)
    requires |fat| >= 2 && Searching(fat, start, |fat| - 2, bgn, end, count) && count > 0
    ensures NoFit(fat, start, count)
  {
  }

  /** The run [b, e] linked into a chain that ends in an EOC. */
  function Linked(lay: Layout, fat: seq<nat>, b: nat, e: nat): (f: seq<nat>)
    requires b <= e < |fat|
    ensures |f| == |fat|
    ensures forall c :: 0 <= c < |f| ==>
      f[c] == if b <= c < e then c + 1 else if c == e then lay.Stored(EOC) else fat[c]
  {
    seq(|fat|, c requires 0 <= c < |fat| =>
      if b <= c < e then c + 1 else if c == e then lay.Stored(EOC) else fat[c])
  }

  /** Linking downwards: one more store links one more cluster. */
  lemma LinkedStep(lay: Layout, fat: seq<nat>, b: nat, e: nat)
    requires 0 < b <= e < |fat| && lay.Stored(b) == b
    ensures Linked(lay, fat, b, e)[b - 1 := lay.Stored(b)] == Linked(lay, fat, b - 1, e)
  {
  }

  lemma LinkedConfined(lay: Layout, fat: seq<nat>, b: nat, e: nat)
    requires b <= e < |fat| && FreeRun(fat, b, e - b + 1)
    ensures Confined(fat, Linked(lay, fat, b, e), [])
  {
  }

  /** The clusters b, b + 1, .., b + count - 1. */
  function Run(b: nat, count: nat): (s: seq<nat>)
    ensures |s| == count && forall i :: 0 <= i < count ==> s[i] == b + i
  {
    seq(count, i => b + i)
  }

  /** What allocation leaves in the FAT: the run linked, and attached behind `cur` if there is one. */
  function Allocated(lay: Layout, fat: seq<nat>, cur: nat, b: nat, count: nat): seq<nat>
    requires count > 0 && b + count <= |fat| && cur < |fat|
  {
    var f := Linked(lay, fat, b, b + count - 1);
    if cur == 0 then f else f[cur := b]
  }

  /** In numbers, the run is linked upwards, and its end mark is all ones. */
  lemma AllocatedIsEnded(lay: Layout, fat: seq<nat>, cur: nat, b: nat, count: nat)
    requires count > 0 && 2 <= b && b + count <= |fat| && cur < |fat|
    ensures b <= cur < b + count || EndedRun(lay, Allocated(lay, fat, cur, b, count), b, count)
    ensures b <= cur < b + count ||
      Allocated(lay, fat, cur, b, count)[b + count - 1] == if lay.fatType == 16 then 0xFFFF else 0x0FFF_FFFF
  {
    assert 0x0FFF_FFFF % 0x1_0000 == 0xFFFF;
  }

  lemma FirstFitRun(fat: seq<nat>, start: nat, count: nat, b: nat)
    requires FirstFit(fat, start, count, b)
    ensures FreeRun(fat, b, count) && 2 <= b && b + count <= |fat|
  {
  }

  /** With no free cluster below `start`, a search from `start` sees every free run. */
  lemma HintSeesAll(fat: seq<nat>, start: nat, count: nat)
    requires count >= 1 && 2 <= start <= |fat|
    requires forall c :: 2 <= c < start ==> fat[c] != 0
    ensures NoFit(fat, start, count) ==> NoRun(fat, 2, |fat|, count)
    ensures forall b: nat :: FirstFit(fat, start, count, b) ==> b >= start && NoRun(fat, 2, b + count - 1, count)
  {
    forall b: nat | FreeRun(fat, b, count)
      ensures b >= start
    {
      assert fat[b] == 0;
    }
  }

  /** A single cluster is found whenever any cluster is free. */
  lemma SingleFit(fat: seq<nat>, start: nat)
    requires NoFit(fat, start, 1)
    ensures NoneFree(fat)
  {
    forall c | 2 <= c < |fat|
      ensures fat[c] != 0
    {
      if fat[c] == 0 {
        assert FreeRun(fat, c, 1);
      }
    }
  }

  /** The allocated run is a chain; appended to a chain that ends in `cur` it prolongs it. */
  lemma AllocatedChain(lay: Layout, fat: seq<nat>, own: seq<nat>, b: nat, count: nat)
    requires |fat| == lay.clusterCount + 2 && EocAboveClusters(lay) && lay.EocMin() <= lay.Stored(EOC)
    requires count > 0 && FreeRun(fat, b, count)
    requires ChainOrEmpty(lay, fat, own)
    ensures var cur := if own == [] then 0 else own[|own| - 1];
      Step(lay, fat, Allocated(lay, fat, cur, b, count), own, own + Run(b, count))
  {
    hide IsChain, Allocated, Linked, FreeRun, Layout.EocMin, Layout.Stored, EocAboveClusters, Disjoint;
    OwnInUse(lay, fat, own);
    AllocatedEntries(lay, fat, own, b, count);
    var cur := if own == [] then 0 else own[|own| - 1];
    var f, r := Allocated(lay, fat, cur, b, count), Run(b, count);
    RunIsChain(lay, fat, f, b, count);
    if own == [] {
      assert own + r == r;
    } else {
      MembersDisjoint(own, r);
      ChainJoin(lay, fat, f, own, r);
    }
  }

  lemma OwnInUse(lay: Layout, fat: seq<nat>, own: seq<nat>)
    requires ChainOrEmpty(lay, fat, own)
    ensures forall c :: c in own ==> c < |fat| && fat[c] != 0
    ensures own != [] ==> 2 <= own[|own| - 1] < |fat| && own[|own| - 1] in own
  {
    forall c | c in own
      ensures c < |fat| && fat[c] != 0
    {
      ChainInUse(lay, fat, own, c);
    }
  }

  /** What the allocation leaves in the entries of the run and of the chain it prolongs. */
  lemma AllocatedEntries(lay: Layout, fat: seq<nat>, own: seq<nat>, b: nat, count: nat)
    requires count > 0 && FreeRun(fat, b, count) && forall c :: c in own ==> c < |fat| && fat[c] != 0
    requires own != [] ==> 2 <= own[|own| - 1] < |fat| && own[|own| - 1] in own
    ensures var cur := if own == [] then 0 else own[|own| - 1];
      var f := Allocated(lay, fat, cur, b, count);
      && |f| == |fat| && b + count <= |fat| && Confined(fat, f, own)
      && (forall c :: b <= c < b + count ==> f[c] == Linked(lay, fat, b, b + count - 1)[c])
      && (forall c :: c in Run(b, count) ==> c < |fat| && fat[c] == 0 && c !in own)
      && (own != [] ==> f[cur] == Run(b, count)[0])
      && forall c :: c in own && c != cur ==> f[c] == fat[c]
  {
    forall c | c in Run(b, count)
      ensures b <= c < b + count
    {
    }
  }

  /** A linked run is a chain. */
  lemma RunIsChain(lay: Layout, fat: seq<nat>, f: seq<nat>, b: nat, count: nat)
    requires |f| == |fat| == lay.clusterCount + 2 && lay.EocMin() <= lay.Stored(EOC)
    requires count > 0 && FreeRun(fat, b, count)
    requires forall c :: b <= c < b + count ==> f[c] == Linked(lay, fat, b, b + count - 1)[c]
    ensures IsChain(lay, f, Run(b, count))
  {
  }

  /** After a single cluster was taken from the hint on, the hint may move behind it. */
  lemma HintAdvances(lay: Layout, fat: seq<nat>, start: nat, b: nat)
    requires 2 <= start <= |fat| && lay.Stored(EOC) != 0
    requires forall c :: 2 <= c < start ==> fat[c] != 0
    requires FirstFit(fat, start, 1, b)
    ensures b + 1 <= |fat| && forall c :: 2 <= c < b + 1 ==> Allocated(lay, fat, 0, b, 1)[c] != 0
  {
    HintSeesAll(fat, start, 1);
    forall c | 2 <= c < b
      ensures fat[c] != 0
    {
      assert fat[c] == 0 ==> FreeRun(fat, c, 1);
    }
  }
}
