/** Directory trees: the files and directories below a directory, and their clusters. */
module DirTree {
  import opened Bytes
  import opened VolumeLayout
  import opened Chains
  import opened FileData
  import opened DirEntry
  import opened DirTable
  import opened DirOnDisk
  import opened Directories

  /** What a slot of a directory leads to; a directory has one node for each of its slots. */
  datatype Node =
    | NoNode
    | FileNode(chain: seq<nat>, size: nat)
    | DirNode(chain: seq<nat>, kids: seq<Node>)
  {
    function Chain(): seq<nat> { if NoNode? then [] else chain }
  }

  /** Kinds of clusters of a tree: all, those of directories, those that rmRfStar frees. */
  datatype Part = AllOf | DirsOf | ReapedOf

  /** Clusters of that kind of a node and of everything below it. */
  function Gather(n: Node, part: Part): seq<nat>
    decreases n, if n.DirNode? then |n.kids| + 1 else 0
  {
    match n
    case NoNode => []
    case FileNode(chain, size) => if part.AllOf? || (part.ReapedOf? && size > 0) then chain else []
    case DirNode(chain, kids) => chain + GatherKids(n, part, |kids|)
  }

  /** Clusters below the first `k` slots of a directory. */
  function GatherKids(n: Node, part: Part, k: nat): seq<nat>
    requires n.DirNode? && k <= |n.kids|
    decreases n, k
  {
    if k == 0 then [] else GatherKids(n, part, k - 1) + Gather(n.kids[k - 1], part)
  }

  lemma {:induction false} KidInside(n: Node, part: Part, k: nat, m: nat)
    requires n.DirNode? && k < m <= |n.kids|
    ensures forall c :: c in Gather(n.kids[k], part) ==> c in GatherKids(n, part, m)
  {
    if k < m - 1 {
      KidInside(n, part, k, m - 1);
    }
  }

  /** What lies below a directory lies below one of its slots. */
  lemma {:induction false} InsideKid(n: Node, part: Part, m: nat, c: nat) returns (k: nat)
    requires n.DirNode? && m <= |n.kids| && c in GatherKids(n, part, m)
    ensures k < m && c in Gather(n.kids[k], part)
  {
    if c in Gather(n.kids[m - 1], part) {
      k := m - 1;
    } else {
      k := InsideKid(n, part, m - 1, c);
    }
  }

  /** Every kind of cluster is among all clusters. */
  lemma {:induction false} PartOfAll(n: Node, part: Part)
    ensures forall c :: c in Gather(n, part) ==> c in Gather(n, AllOf)
    decreases n, 1
  {
    if n.DirNode? {
      PartOfAllKids(n, part, |n.kids|);
    }
  }

  lemma {:induction false} PartOfAllKids(n: Node, part: Part, k: nat)
    requires n.DirNode? && k <= |n.kids|
    ensures forall c :: c in GatherKids(n, part, k) ==> c in GatherKids(n, AllOf, k)
    decreases n, 0, k
  {
    if k > 0 {
      PartOfAllKids(n, part, k - 1);
      PartOfAll(n.kids[k - 1], part);
    }
  }

  /** No cluster belongs to two files or directories of the tree. */
  ghost predicate Apart(n: Node) {
    n.DirNode? ==>
      && (forall k {:trigger n.kids[k]} :: 0 <= k < |n.kids| ==>
            Disjoint(n.chain, Gather(n.kids[k], AllOf)) && Apart(n.kids[k]))
      && (forall j, k :: 0 <= j < k < |n.kids| ==> Disjoint(Gather(n.kids[j], AllOf), Gather(n.kids[k], AllOf)))
  }

  /** Every file and subdirectory of the tree has an index of 16 bits in its directory. */
  ghost predicate Indexed(n: Node) { n.DirNode? ==> IndexedKids(n, |n.kids|) }

  ghost predicate IndexedKids(n: Node, m: nat)
    requires n.DirNode? && m <= |n.kids|
    decreases n, 0
  {
    forall k {:trigger n.kids[k]} :: 0 <= k < m ==> (n.kids[k] != NoNode ==> k < 0x1_0000) && Indexed(n.kids[k])
  }

  /** The directory at `place` and everything below it is sound and looks like `n`. */
  ghost predicate LooksLike(lay: Layout, fat: seq<nat>, d: seq<Block>, place: Extent, n: Node)
    decreases n, 0
  {
    && n.DirNode? && lay.WellFormed(|d|) && lay.ExtentOk(place)
    && |n.kids| <= ENTRIES_PER_BLOCK * lay.BlockCount(place)
    && FreeTail(Table(lay, d, place, |n.kids|))
    && forall k {:trigger n.kids[k]} :: 0 <= k < |n.kids| ==>
         KidOk(lay, fat, d, SlotAt(lay, d, place, k), SlotBlock(lay, place, k), n.kids[k])
  }

  /** An entry, found in block `block`, is what `kid` says. */
  ghost predicate KidOk(lay: Layout, fat: seq<nat>, d: seq<Block>, e: Entry, block: nat, kid: Node)
    decreases kid, 1
  {
    if !Keeps(e) then kid == NoNode
    else
      && EntryFits(lay, fat, e, block, kid.Chain())
      && (if IsFile(e) then kid.FileNode? && kid.size == Size(e)
          else
            && kid.DirNode? && |kid.kids| == ENTRIES_PER_BLOCK * lay.BlockCount(Clusters(kid.chain))
            && LooksLike(lay, fat, d, Clusters(kid.chain), kid))
  }

  /** A change elsewhere leaves a tree as it is. */
  lemma {:induction false} TreeFrame(lay: Layout, fat: seq<nat>, fat': seq<nat>, d: seq<Block>, d': seq<Block>,
                                     own: seq<nat>, block: nat, index: nat, n: Node)
    requires n.DirNode? && LooksLike(lay, fat, d, Clusters(n.chain), n)
    requires |fat'| == |fat| && SameButEntry(lay, d, d', own, block, index)
    requires forall c :: c in Gather(n, AllOf) && c < |fat| ==> fat'[c] == fat[c]
    requires Disjoint(own, Gather(n, AllOf)) && !Owned(lay, Gather(n, AllOf), block)
    ensures LooksLike(lay, fat', d', Clusters(n.chain), n)
    decreases n, 0
  {
    hide Layout.WellFormed, Layout.ExtentOk, Layout.BlockCount, Table, FreeTail, SlotAt, SlotBlock, KidOk;
    var place := Clusters(n.chain);
    assert forall i :: 0 <= i < |n.chain| ==> n.chain[i] == Gather(n, AllOf)[i];
    TableFrame(lay, d, d', own, block, index, place, |n.kids|);
    forall k | 0 <= k < |n.kids|
      ensures KidOk(lay, fat', d', SlotAt(lay, d', place, k), SlotBlock(lay, place, k), n.kids[k])
    {
      KidInside(n, AllOf, k, |n.kids|);
      assert Table(lay, d', place, |n.kids|)[k] == Table(lay, d, place, |n.kids|)[k];
      MembersApart(own, Gather(n, AllOf), Gather(n.kids[k], AllOf));
      KidFrame(lay, fat, fat', d, d', own, block, index, SlotAt(lay, d, place, k), SlotBlock(lay, place, k), n.kids[k]);
    }
  }

  lemma MembersApart(s: seq<nat>, t: seq<nat>, u: seq<nat>)
    requires Disjoint(s, t) && forall c :: c in u ==> c in t
    ensures Disjoint(s, u)
  {
    forall i, j | 0 <= i < |s| && 0 <= j < |u|
      ensures s[i] != u[j]
    {
      assert u[j] in t;
    }
  }

  lemma {:induction false} KidFrame(lay: Layout, fat: seq<nat>, fat': seq<nat>, d: seq<Block>, d': seq<Block>,
                                    own: seq<nat>, block: nat, index: nat, e: Entry, b: nat, kid: Node)
    requires KidOk(lay, fat, d, e, b, kid)
    requires |fat'| == |fat| && SameButEntry(lay, d, d', own, block, index)
    requires forall c :: c in Gather(kid, AllOf) && c < |fat| ==> fat'[c] == fat[c]
    requires Disjoint(own, Gather(kid, AllOf)) && !Owned(lay, Gather(kid, AllOf), block)
    ensures KidOk(lay, fat', d', e, b, kid)
    decreases kid, 1
  {
    hide Layout.WellFormed, Layout.ExtentOk, Layout.BlockCount, LooksLike, SameButEntry, IsFile, IsSubDir, FirstCluster;
    hide Size, IsChain, Capacity;
    if Keeps(e) {
      FileSubDir(e);
      assert forall c :: c in kid.Chain() ==> c in Gather(kid, AllOf);
      ChainFrameAt(lay, fat, fat', kid.Chain());
      if kid.DirNode? {
        TreeFrame(lay, fat, fat', d, d', own, block, index, kid);
      }
    }
  }

  lemma FileSubDir(e: Entry)
    requires IsFileOrSubDir(e)
    ensures IsFile(e) <==> !IsSubDir(e)
  {
  }

  lemma ChainFrameAt(lay: Layout, fat: seq<nat>, fat': seq<nat>, s: seq<nat>)
    requires |fat'| == |fat| && forall c :: c in s && c < |fat| ==> fat'[c] == fat[c]
    ensures IsChain(lay, fat, s) ==> IsChain(lay, fat', s)
  {
  }
}
