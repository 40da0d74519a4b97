/** Cluster chains: what a sound FAT links, and what one file operation may do to them. */
module Chains {
  import opened VolumeLayout
  import opened Device

  /** `s` is a chain of `fat`: consecutive clusters are linked and the last entry is an EOC. */
  predicate IsChain(lay: Layout, fat: seq<nat>, s: seq<nat>) {
    && |fat| == lay.clusterCount + 2
    && |s| > 0
    && lay.ChainInRange(s)
    && (forall i :: 0 <= i < |s| - 1 ==> fat[s[i]] == s[i + 1])
    && lay.IsEoc(fat[s[|s| - 1]])
  }

  /** The end marks are the numbers from 0xFFF8 on, of FAT32 from 0x0FFF_FFF8 on. */
  lemma MarkIsNumber(lay: Layout)
    ensures forall v: nat :: lay.IsEoc(v) <==> EndMark(lay, v)
  {
  }

  lemma ChainIsEnded(lay: Layout, fat: seq<nat>, s: seq<nat>)
    requires |fat| == lay.clusterCount + 2
    ensures IsChain(lay, fat, s) <==> EndedChain(lay, fat, s)
  {
    if EndedChain(lay, fat, s) {
      assert forall i :: 0 <= i < |s| ==> lay.IsCluster(s[i]);
    }
    if IsChain(lay, fat, s) {
      assert forall i :: 0 <= i < |s| ==> lay.IsCluster(s[i]);
    }
  }

  /** The clusters of a file whose directory entry names `first`; an empty file has none. */
  predicate FileChain(lay: Layout, fat: seq<nat>, first: nat, s: seq<nat>) {
    if first == 0 then s == [] else IsChain(lay, fat, s) && s[0] == first
  }

  predicate ChainOrEmpty(lay: Layout, fat: seq<nat>, s: seq<nat>) {
    s == [] || IsChain(lay, fat, s)
  }

  lemma FileIsChain(lay: Layout, fat: seq<nat>, first: nat, s: seq<nat>)
    requires FileChain(lay, fat, first, s)
    ensures ChainOrEmpty(lay, fat, s)
  {
  }

  lemma ChainHead(lay: Layout, fat: seq<nat>, first: nat, s: seq<nat>)
    requires first != 0 && FileChain(lay, fat, first, s)
    ensures IsChain(lay, fat, s) && |s| > 0 && s[0] == first
  {
  }

  /** EOC values are no cluster numbers. */
  predicate EocAboveClusters(lay: Layout) {
    lay.clusterCount + 1 < lay.EocMin()
  }

  /** The rest of a chain is a chain. */
  lemma ChainSuffix(lay: Layout, fat: seq<nat>, s: seq<nat>, k: nat)
    requires IsChain(lay, fat, s) && k < |s|
    ensures IsChain(lay, fat, s[k..])
  {
  }

  /** A FAT has at most one chain from a given cluster. */
  lemma {:induction false} ChainUnique(lay: Layout, fat: seq<nat>, s: seq<nat>, t: seq<nat>)
    requires EocAboveClusters(lay)
    requires IsChain(lay, fat, s) && IsChain(lay, fat, t) && s[0] == t[0]
    ensures s == t
  {
    assert |s| > 1 ==> fat[s[0]] == s[1] && lay.IsCluster(s[1]);
    assert |t| > 1 ==> fat[t[0]] == t[1] && lay.IsCluster(t[1]);
    if |s| > 1 && |t| > 1 {
      ChainUnique(lay, fat, s[1..], t[1..]);
      assert s == [s[0]] + s[1..] && t == [t[0]] + t[1..];
    }
  }

  /** Chains are acyclic: no cluster occurs twice. */
  lemma {:induction false} ChainDistinct(lay: Layout, fat: seq<nat>, s: seq<nat>)
    requires EocAboveClusters(lay) && IsChain(lay, fat, s)
    ensures Distinct(s)
  {
    forall i, j | 0 <= i < j < |s|
      ensures s[i] != s[j]
    {
      if s[i] == s[j] {
        ChainUnique(lay, fat, s[i..], s[j..]);
      }
    }
  }

  /** Two chains that share a cluster end alike; so chains with different ends are disjoint. */
  lemma ChainsMeet(lay: Layout, fat: seq<nat>, s: seq<nat>, t: seq<nat>, i: nat, j: nat)
    requires EocAboveClusters(lay) && IsChain(lay, fat, s) && IsChain(lay, fat, t)
    requires i < |s| && j < |t| && s[i] == t[j]
    ensures s[i..] == t[j..]
  {
    ChainUnique(lay, fat, s[i..], t[j..]);
  }

  /** Following a chain: the entry of a cluster names the next one, or is an EOC at the end. */
  lemma ChainNext(lay: Layout, fat: seq<nat>, s: seq<nat>, k: nat)
    requires EocAboveClusters(lay) && IsChain(lay, fat, s) && k < |s|
    ensures lay.IsCluster(s[k]) && s[k] < |fat|
    ensures if k + 1 < |s| then fat[s[k]] == s[k + 1] && !lay.IsEoc(s[k + 1]) else lay.IsEoc(fat[s[k]])
  {
    assert k + 1 < |s| ==> lay.IsCluster(s[k + 1]);
  }

  /** The links from `first` pass exactly the entries in `s`; then comes an end mark, or a number without an entry. */
  predicate LinksPass(lay: Layout, fat: seq<nat>, first: nat, s: seq<nat>) {
    if s == [] then first >= |fat|
    else
      && s[0] == first && (forall i :: 0 <= i < |s| ==> s[i] < |fat|)
      && (forall i :: 0 <= i < |s| - 1 ==> fat[s[i]] == s[i + 1]) && (forall i :: 0 < i < |s| ==> !lay.IsEoc(s[i]))
      && (lay.IsEoc(fat[s[|s| - 1]]) || fat[s[|s| - 1]] >= |fat|)
  }

  predicate EndsInMark(lay: Layout, fat: seq<nat>, s: seq<nat>) {
    s != [] && s[|s| - 1] < |fat| && lay.IsEoc(fat[s[|s| - 1]])
  }

  lemma LinkPassed(lay: Layout, fat: seq<nat>, first: nat, s: seq<nat>, k: nat)
    requires LinksPass(lay, fat, first, s) && k < |s|
    ensures s[k] < |fat|
    ensures if k + 1 < |s| then fat[s[k]] == s[k + 1] && !lay.IsEoc(s[k + 1])
            else (lay.IsEoc(fat[s[k]]) <==> EndsInMark(lay, fat, s)) && (lay.IsEoc(fat[s[k]]) || fat[s[k]] >= |fat|)
  {
  }

  lemma ChainPasses(lay: Layout, fat: seq<nat>, s: seq<nat>)
    requires EocAboveClusters(lay) && IsChain(lay, fat, s)
    ensures LinksPass(lay, fat, s[0], s) && EndsInMark(lay, fat, s)
  {
    forall i | 0 <= i < |s|
      ensures s[i] < |fat| && (i > 0 ==> !lay.IsEoc(s[i]))
    {
      assert lay.IsCluster(s[i]);
    }
  }

  /** No cluster of a chain is free. */
  lemma ChainInUse(lay: Layout, fat: seq<nat>, s: seq<nat>, c: nat)
    requires IsChain(lay, fat, s) && c in s
    ensures c < |fat| && fat[c] != 0
  {
    var i :| 0 <= i < |s| && s[i] == c;
    if i < |s| - 1 {
      assert fat[s[i]] == s[i + 1];
    }
  }

  /** A chain survives changes elsewhere. */
  lemma ChainFrame(lay: Layout, fat: seq<nat>, fat': seq<nat>, s: seq<nat>)
    requires IsChain(lay, fat, s) && |fat'| == |fat|
    requires forall c :: c in s ==> fat'[c] == fat[c]
    ensures IsChain(lay, fat', s)
  {
  }

  /** Two chains become one when the last entry of the first names the head of the second. */
  lemma ChainJoin(lay: Layout, fat: seq<nat>, fat': seq<nat>, s: seq<nat>, t: seq<nat>)
    requires EocAboveClusters(lay)
    requires IsChain(lay, fat, s) && IsChain(lay, fat', t) && Disjoint(s, t)
    requires |fat| == |fat'| && fat'[s[|s| - 1]] == t[0]
    requires forall c :: c in s && c != s[|s| - 1] ==> fat'[c] == fat[c]
    ensures IsChain(lay, fat', s + t)
  {
    ChainDistinct(lay, fat, s);
    var u := s + t;
    forall i | 0 <= i < |u| - 1
      ensures fat'[u[i]] == u[i + 1]
    {
      if i < |s| - 1 {
        assert u[i] == s[i] && s[i] in s;
      }
    }
  }

  /** A chain cut after its `n`-th cluster. */
  lemma ChainCut(lay: Layout, fat: seq<nat>, fat': seq<nat>, s: seq<nat>, n: nat)
    requires EocAboveClusters(lay) && IsChain(lay, fat, s) && 0 < n <= |s| && |fat'| == |fat|
    requires lay.IsEoc(fat'[s[n - 1]])
    requires forall i :: 0 <= i < n - 1 ==> fat'[s[i]] == fat[s[i]]
    ensures IsChain(lay, fat', s[..n])
  {
  }

  // ---------------------------------------------------------------- freeing

  /** The FAT with the entries of the clusters in `s` cleared. */
  function Freed(fat: seq<nat>, s: seq<nat>): (f: seq<nat>)
    ensures |f| == |fat|
    ensures forall c :: 0 <= c < |f| ==> f[c] == if c in s then 0 else fat[c]
  {
    seq(|fat|, c requires 0 <= c < |fat| => if c in s then 0 else fat[c])
  }

  /** Clusters whose entry is not zero. */
  ghost function InUse(fat: seq<nat>): set<nat> {
    set c: nat | 0 <= c < |fat| && fat[c] != 0
  }

  /** Clearing an entry in use leaves fewer in use; clearing a free one changes nothing. */
  lemma InUseShrinks(fat: seq<nat>, c: nat)
    requires c < |fat|
    ensures fat[c] != 0 ==> InUse(fat[c := 0]) < InUse(fat)
    ensures fat[c] == 0 ==> fat[c := 0] == fat
  {
    assert InUse(fat[c := 0]) == InUse(fat) - {c};
    assert fat[c] != 0 ==> c in InUse(fat);
  }

  /** Freeing along a chain: the next cluster's entry is still intact. */
  lemma FreeStep(lay: Layout, fat: seq<nat>, s: seq<nat>, k: nat)
    requires EocAboveClusters(lay) && IsChain(lay, fat, s) && k < |s|
    ensures s[k] < |fat| && Freed(fat, s[..k])[s[k]] == fat[s[k]]
    ensures Freed(fat, s[..k])[s[k] := 0] == Freed(fat, s[..k + 1])
  {
    ChainDistinct(lay, fat, s);
    assert s[..k + 1] == s[..k] + [s[k]];
    assert s[k] !in s[..k];
  }

  lemma FreedNone(fat: seq<nat>, s: seq<nat>)
    ensures Freed(fat, s[..0]) == fat
  {
  }

  lemma FreedConfined(fat: seq<nat>, s: seq<nat>, k: nat)
    requires k <= |s|
    ensures Confined(fat, Freed(fat, s[..k]), s)
  {
  }

  // ---------------------------------------------------------------- one operation on one file

  /**
   * An operation turned the chain `own` of one file into `after`: the new chain is sound,
   * takes only clusters that were its own or free, and only its own and free entries changed.
   */
  predicate Step(lay: Layout, fat: seq<nat>, fat': seq<nat>, own: seq<nat>, after: seq<nat>) {
    && |fat| == |fat'| == lay.clusterCount + 2
    && ChainOrEmpty(lay, fat', after)
    && Confined(fat, fat', own)
    && (forall c :: c in after ==> c in own || (c < |fat| && fat[c] == 0))
  }

  /** Exactly the entries of `own` may have changed: nothing else was taken. */
  predicate OnlyOf(fat: seq<nat>, fat': seq<nat>, own: seq<nat>) {
    |fat| == |fat'| && forall c :: 0 <= c < |fat| && c !in own ==> fat'[c] == fat[c]
  }

  lemma OnlyOfTrans(fat: seq<nat>, fat1: seq<nat>, fat2: seq<nat>, own: seq<nat>, more: seq<nat>)
    requires OnlyOf(fat, fat1, own) && OnlyOf(fat1, fat2, more) && own <= more
    ensures OnlyOf(fat, fat2, more)
  {
    assert forall i :: 0 <= i < |own| ==> own[i] == more[i];
  }

  lemma OnlyOfJoin(fat: seq<nat>, fat1: seq<nat>, fat2: seq<nat>, own: seq<nat>, more: seq<nat>)
    requires OnlyOf(fat, fat1, own) && OnlyOf(fat1, fat2, more)
    ensures OnlyOf(fat, fat2, own + more)
  {
  }

  /** No entry has changed but those of the old and the new clusters, and what was given up is free. */
  ghost predicate Exact(fat: seq<nat>, fat': seq<nat>, own: seq<nat>, after: seq<nat>) {
    && |fat| == |fat'|
    && (forall c :: 0 <= c < |fat| && c !in own && c !in after ==> fat'[c] == fat[c])
    && (forall c :: 0 <= c < |fat| && c in own && c !in after ==> fat'[c] == 0)
  }

  lemma NothingExact(fat: seq<nat>, own: seq<nat>)
    ensures Exact(fat, fat, own, own)
  {
  }

  /** A chain that only grows gives nothing up. */
  lemma GrowthExact(fat: seq<nat>, fat': seq<nat>, own: seq<nat>, after: seq<nat>)
    requires OnlyOf(fat, fat', after) && own <= after
    ensures Exact(fat, fat', own, after)
  {
    assert forall i :: 0 <= i < |own| ==> own[i] == after[i];
  }

  /** Only entries of `own` and entries that were free changed. */
  predicate Confined(fat: seq<nat>, fat': seq<nat>, own: seq<nat>) {
    |fat| == |fat'| && forall c :: 0 <= c < |fat| && fat'[c] != fat[c] ==> c in own || fat[c] == 0
  }

  /** Every chain that the operating file does not own is untouched, success or not. */
  lemma OthersKeepTheirChains(lay: Layout, fat: seq<nat>, fat': seq<nat>, own: seq<nat>, t: seq<nat>)
    requires Confined(fat, fat', own) && IsChain(lay, fat, t) && Disjoint(own, t)
    ensures IsChain(lay, fat', t)
  {
    forall c | c in t
      ensures fat'[c] == fat[c]
    {
      ChainInUse(lay, fat, t, c);
    }
    ChainFrame(lay, fat, fat', t);
  }

  lemma ConfinedTrans(fat: seq<nat>, fat1: seq<nat>, fat2: seq<nat>, own: seq<nat>, own1: seq<nat>)
    requires Confined(fat, fat1, own) && Confined(fat1, fat2, own1)
    requires forall c :: c in own1 ==> c in own || (c < |fat| && fat[c] == 0)
    ensures Confined(fat, fat2, own)
  {
    forall c | 0 <= c < |fat| && fat2[c] != fat[c]
      ensures c in own || fat[c] == 0
    {
      if fat2[c] == fat1[c] {
        assert fat1[c] != fat[c];
      } else if c !in own1 {
        assert fat1[c] == 0;
        if fat[c] != 0 {
          assert fat1[c] != fat[c];
        }
      }
    }
  }

  /** Steps of the same file compose. */
  lemma StepTrans(lay: Layout, fat: seq<nat>, fat1: seq<nat>, fat2: seq<nat>,
                  s: seq<nat>, s1: seq<nat>, s2: seq<nat>)
    requires Step(lay, fat, fat1, s, s1) && Step(lay, fat1, fat2, s1, s2)
    ensures Step(lay, fat, fat2, s, s2)
  {
    ConfinedTrans(fat, fat1, fat2, s, s1);
    forall c | c in s2
      ensures c in s || (c < |fat| && fat[c] == 0)
    {
      if c !in s1 {
        assert fat1[c] == 0;
        if fat[c] != 0 {
          assert fat1[c] != fat[c];
        }
      }
    }
  }
}
