/** walkPath with callback_pathExists: does a path lead to a file or directory? */
module PathWalk {
  import opened Bytes
  import opened VolumeLayout
  import opened Chains
  import opened FileData
  import opened DirEntry
  import opened DirTable
  import opened DirOnDisk
  import opened Names
  import opened Volume
  import opened File
  import opened Directories
  import opened DirTree
  import opened Path

  /** The slots of the directory at `place` can be spoken of. */
  ghost predicate Readable(lay: Layout, d: seq<Block>, place: Extent, n: Node) {
    n.DirNode? && lay.WellFormed(|d|) && lay.ExtentOk(place) && |n.kids| <= ENTRIES_PER_BLOCK * lay.BlockCount(place)
  }

  /** The directory has a file or subdirectory with the 8.3 name `c`. */
  ghost predicate Finds(lay: Layout, d: seq<Block>, place: Extent, n: Node, c: seq<byte>, illegal: set<byte>)
    requires Readable(lay, d, place, n)
  {
    var t := Table(lay, d, place, |n.kids|);
    IsName83(c, illegal) && SlotOf(t, Encode(c)) < |t| && IsFileOrSubDir(t[SlotOf(t, Encode(c))])
  }

  /** The slot of that name. */
  ghost function SlotFor(lay: Layout, d: seq<Block>, place: Extent, n: Node, c: seq<byte>, illegal: set<byte>): (k: nat)
    requires Readable(lay, d, place, n) && Finds(lay, d, place, n, c, illegal)
    ensures k < |n.kids|
  {
    SlotOf(Table(lay, d, place, |n.kids|), Encode(c))
  }

  /** Starting from the directory at `place`, each component is found in the directory before it. */
  ghost predicate Exists(lay: Layout, d: seq<Block>, place: Extent, n: Node, parts: seq<seq<byte>>, illegal: set<byte>)
    decreases |parts|
  {
    && Readable(lay, d, place, n) && parts != [] && Finds(lay, d, place, n, parts[0], illegal)
    && (|parts| == 1 ||
        var k := SlotFor(lay, d, place, n, parts[0], illegal);
        && IsSubDir(SlotAt(lay, d, place, k))
        && Exists(lay, d, Clusters(n.kids[k].Chain()), n.kids[k], parts[1..], illegal))
  }

  /** What a found name leads to. */
  lemma FoundKid(lay: Layout, fat: seq<nat>, d: seq<Block>, place: Extent, n: Node, c: seq<byte>, illegal: set<byte>)
    requires LooksLike(lay, fat, d, place, n) && Readable(lay, d, place, n) && Finds(lay, d, place, n, c, illegal)
    ensures var k := SlotFor(lay, d, place, n, c, illegal);
      var e, kid := SlotAt(lay, d, place, k), n.kids[k];
      && EntryFits(lay, fat, e, SlotBlock(lay, place, k), kid.Chain())
      && (IsSubDir(e) ==>
            && kid.DirNode? && |kid.kids| == ENTRIES_PER_BLOCK * lay.BlockCount(Clusters(kid.chain))
            && LooksLike(lay, fat, d, Clusters(kid.chain), kid))
  {
    hide Layout.WellFormed, Layout.ExtentOk, Layout.BlockCount, EntryFits, SlotBlock, Encode, FreeTail, Name;
    hide Attributes, HasBit;
    var k := SlotFor(lay, d, place, n, c, illegal);
    var e := SlotAt(lay, d, place, k);
    assert e == Table(lay, d, place, |n.kids|)[k];
    EncodedFirstByte(c, illegal);
    NamedFirstByte(e, Encode(c));
    FileSubDir(e);
    assert KidOk(lay, fat, d, e, SlotBlock(lay, place, k), n.kids[k]);
  }

  lemma NamedFirstByte(e: Entry, name: seq<byte>)
    requires Name(e) == name
    ensures |name| == 11 && e[0] == name[0]
  {
  }

  /** A handle that the walk can look into, or a file. */
  ghost predicate Walkable(f: SdFile, n: Node)
    reads f, f.vol
  {
    && f.kind != Closed && !f.flags.dirDirty
    && (f.IsDir() ==>
          && DirHandle(f) && f.flags.read && HasSlots(f) && n.DirNode? && |n.kids| == SlotCount(f)
          && LooksLike(f.vol.lay, f.vol.fat, f.vol.disk, f.Place(), n))
  }

  /** The name is found in `parent`. */
  ghost predicate FindsIn(parent: SdFile, n: Node, c: seq<byte>, illegal: set<byte>)
    reads parent, parent.vol
  {
    && parent.IsDir() && Readable(parent.vol.lay, parent.vol.disk, parent.Place(), n)
    && Finds(parent.vol.lay, parent.vol.disk, parent.Place(), n, c, illegal)
  }

  /** `child` was opened on what the name leads to. */
  ghost predicate Entered(child: SdFile, parent: SdFile, n: Node, c: seq<byte>, illegal: set<byte>)
    requires FindsIn(parent, n, c, illegal)
    reads child, child.vol, parent, parent.vol
  {
    var k := SlotFor(parent.vol.lay, parent.vol.disk, parent.Place(), n, c, illegal);
    && Walkable(child, n.kids[k]) && child.kind != Root16Dir && child.chain == n.kids[k].Chain()
    && (child.IsDir() <==> IsSubDir(SlotAt(parent.vol.lay, parent.vol.disk, parent.Place(), k)))
  }

  /** `open` by name for reading; `parent` may turn out to be a file, in which nothing is found. */
  method OpenIn(child: SdFile, parent: SdFile, c: seq<byte>, illegal: set<byte>, ghost n: Node) returns (ok: bool)
    requires child != parent && child.vol == parent.vol && 0 !in c
    requires parent.vol.Valid() && Walkable(parent, n)
    modifies child, parent`curCluster, parent`curPosition, parent`firstCluster, parent`flags, parent`chain,
      parent`fileSize
    modifies parent.vol, parent.vol.cache, parent.vol.cache.card, parent.vol.cache.buffer
    ensures parent.vol.Valid() && Walkable(parent, n) && parent.Place() == old(parent.Place())
    ensures parent.vol.cache.misused == old(parent.vol.cache.misused)
    ensures parent.vol.disk == old(parent.vol.disk) && parent.vol.fat == old(parent.vol.fat)
    ensures ok ==> FindsIn(parent, n, c, illegal) && Entered(child, parent, n, c, illegal)
    ensures ok ==> parent.vol.cache.card.faults == old(parent.vol.cache.card.faults)
    ensures parent.vol.cache.card.faults >= old(parent.vol.cache.card.faults)
    ensures !ok && old(child.kind) == Closed && parent.vol.cache.card.faults == old(parent.vol.cache.card.faults) ==>
      !FindsIn(parent, n, c, illegal)
  {
    hide SdVolume.Valid, LooksLike, DirHandle, HasSlots, SlotCount, Entered;
    if !parent.IsDir() {
      if child.kind == Closed {
        var dname := new byte[11];
        ok := Make83Name(c, illegal, dname);
        if ok {
          parent.curCluster, parent.curPosition := 0, 0;
        }
      }
      return false;
    }
    ok := OpenInDir(child, parent, c, illegal, n);
  }

  method OpenInDir(child: SdFile, parent: SdFile, c: seq<byte>, illegal: set<byte>, ghost n: Node) returns (ok: bool)
    requires child != parent && child.vol == parent.vol && 0 !in c && parent.IsDir()
    requires parent.vol.Valid() && Walkable(parent, n)
    modifies child, parent`curCluster, parent`curPosition, parent`firstCluster, parent`flags, parent`chain,
      parent`fileSize
    modifies parent.vol, parent.vol.cache, parent.vol.cache.card, parent.vol.cache.buffer
    ensures parent.vol.Valid() && Walkable(parent, n) && parent.Place() == old(parent.Place())
    ensures parent.vol.cache.misused == old(parent.vol.cache.misused)
    ensures parent.vol.disk == old(parent.vol.disk) && parent.vol.fat == old(parent.vol.fat)
    ensures ok ==> FindsIn(parent, n, c, illegal) && Entered(child, parent, n, c, illegal)
    ensures ok ==> parent.vol.cache.card.faults == old(parent.vol.cache.card.faults)
    ensures parent.vol.cache.card.faults >= old(parent.vol.cache.card.faults)
    ensures !ok && old(child.kind) == Closed && parent.vol.cache.card.faults == old(parent.vol.cache.card.faults) ==>
      !FindsIn(parent, n, c, illegal)
  {
    hide SdVolume.Valid, Layout.WellFormed, Layout.ExtentOk, Layout.BlockCount, Table, SlotBlock, SlotAt, FreeTail;
    hide TableMap, SlotOf, Base, Extension, Encode, FileChain, Capacity, EntryFits, Name, FirstCluster, Size;
    hide Attributes, HasBit, SdFile.Positioned, Full;
    if IsName83(c, illegal) {
      Lookup(Slots(parent), Encode(c));
    }
    ghost var chain := [];
    ghost var lay, d, fat, place := parent.vol.lay, parent.vol.disk, parent.vol.fat, parent.Place();
    assert FreeTail(Slots(parent)) && Readable(lay, d, place, n);
    if Finds(lay, d, place, n, c, illegal) {
      FoundKid(lay, fat, d, place, n, c, illegal);
      chain := n.kids[SlotFor(lay, d, place, n, c, illegal)].Chain();
    }
    ok := Open(child, parent, c, illegal, READ_ONLY, chain);
  }

  /** callback_pathExists */
  method CallbackPathExists(parent: SdFile, c: seq<byte>, illegal: set<byte>, ghost n: Node) returns (found: bool)
    requires 0 !in c && parent.vol.Valid() && Walkable(parent, n)
    modifies parent`curCluster, parent`curPosition, parent`firstCluster, parent`flags, parent`chain, parent`fileSize
    modifies parent.vol, parent.vol.cache, parent.vol.cache.card, parent.vol.cache.buffer
    ensures parent.vol.Valid() && Walkable(parent, n) && parent.Place() == old(parent.Place())
    ensures parent.vol.cache.misused == old(parent.vol.cache.misused)
    ensures parent.vol.disk == old(parent.vol.disk) && parent.vol.fat == old(parent.vol.fat)
    ensures parent.vol.cache.card.faults >= old(parent.vol.cache.card.faults)
    ensures found ==> FindsIn(parent, n, c, illegal)
    ensures parent.IsDir() <==> old(parent.IsDir())
    ensures !found && parent.vol.cache.card.faults == old(parent.vol.cache.card.faults) ==>
      !FindsIn(parent, n, c, illegal)
  {
    hide SdVolume.Valid, LooksLike, Exists, Finds, Readable, SlotAt, IsSubDir;
    var child := new SdFile(parent.vol, parent.hasClock);
    found := OpenIn(child, parent, c, illegal, n);
    if found {
      var _ := child.Close();
    }
  }

  /**
   * walkPath with callback_pathExists. It follows the components with two alternating handles;
   * absent I/O errors it reports exactly whether the path exists, and it changes nothing.
   */
  method WalkPath(path: seq<byte>, root: SdFile, illegal: set<byte>, ghost n: Node) returns (found: bool)
    requires 0 !in path && root.vol.Valid() && root.IsDir() && Walkable(root, n)
    modifies root`curCluster, root`curPosition, root`firstCluster, root`flags, root`chain, root`fileSize
    modifies root.vol, root.vol.cache, root.vol.cache.card, root.vol.cache.buffer
    ensures root.vol.Valid() && root.vol.disk == old(root.vol.disk) && root.vol.fat == old(root.vol.fat)
    ensures root.vol.cache.misused == old(root.vol.cache.misused)
    ensures found ==> old(ExistsIn(root, n, path, illegal))
    ensures root.vol.cache.card.faults == old(root.vol.cache.card.faults) ==>
      (found <==> old(ExistsIn(root, n, path, illegal)))
  {
    hide SdVolume.Valid, LooksLike, Finds, Readable, SlotAt, IsSubDir, First, Rest, Walkable, Exists, Entered;
    hide SdFile.Place;
    var vol := root.vol;
    var subfile1 := new SdFile(vol, root.hasClock);
    var subfile2 := new SdFile(vol, root.hasClock);
    var buffer := new byte[MAX_COMPONENT + 1];
    var offset := 0;
    var child, parent := subfile1, root;
    ghost var cur, there := n, ExistsIn(root, n, path, illegal);
    assert path[0..] == path;
    found := true;
    while true
      invariant vol.Valid() && vol.disk == old(vol.disk) && vol.fat == old(vol.fat) && found
      invariant root.vol.cache.misused == old(root.vol.cache.misused)
      invariant (child == subfile1 || child == subfile2) && child != parent
      invariant parent == root || parent == subfile1 || parent == subfile2
      invariant parent == root ==> child == subfile1 && subfile2.kind == Closed
      invariant Walkable(parent, cur) && offset <= |path|
      invariant vol.cache.card.faults == old(vol.cache.card.faults) ==> child.kind == Closed
      invariant vol.cache.card.faults >= old(vol.cache.card.faults)
      invariant ExistsIn(parent, cur, path[offset..], illegal) <==> there
      decreases |path| - offset
    {
      var more;
      found, more, offset, cur := Visit(child, parent, parent == root, path, offset, buffer, illegal, cur);
      if !found || !more {
        break;
      }
      if parent == root {
        parent := subfile2;
      }
      parent, child := child, parent;
    }
    if found && parent != root {
      CloseWalked(parent, cur);
    }
  }

  /**
   * One round of the walk: the callback for the next component and, if more of them follow, the
   * descent into it. When the component is not found, the handle is closed unless it is the caller's.
   */
  method Visit(child: SdFile, parent: SdFile, keep: bool, path: seq<byte>, from: nat, buffer: array<byte>,
               illegal: set<byte>, ghost cur: Node)
    returns (found: bool, more: bool, to: nat, ghost kid: Node)
    requires child != parent && child.vol == parent.vol && parent.vol.Valid() && Walkable(parent, cur)
    requires 0 !in path && from <= |path| && buffer.Length == MAX_COMPONENT + 1 && buffer != parent.vol.cache.buffer
    modifies child, buffer, parent`curCluster, parent`curPosition, parent`firstCluster, parent`flags, parent`chain,
      parent`fileSize
    modifies if keep then {} else {parent}
    modifies parent.vol, parent.vol.cache, parent.vol.cache.card, parent.vol.cache.buffer
    ensures parent.vol.Valid() && parent.vol.disk == old(parent.vol.disk) && parent.vol.fat == old(parent.vol.fat)
    ensures parent.vol.cache.misused == old(parent.vol.cache.misused)
    ensures from <= to <= |path| && (more ==> to > from)
    ensures parent.vol.cache.card.faults >= old(parent.vol.cache.card.faults)
    ensures found && more ==>
      && Walkable(child, kid)
      && (ExistsIn(child, kid, path[to..], illegal) <==> old(ExistsIn(parent, cur, path[from..], illegal)))
      && (!keep && parent.vol.cache.card.faults == old(parent.vol.cache.card.faults) ==> parent.kind == Closed)
    ensures found && !more ==> kid == cur && Walkable(parent, cur) && old(ExistsIn(parent, cur, path[from..], illegal))
    ensures !found && old(child.kind) == Closed && parent.vol.cache.card.faults == old(parent.vol.cache.card.faults) ==>
      !old(ExistsIn(parent, cur, path[from..], illegal))
  {
    hide SdVolume.Valid, LooksLike, Finds, Readable, SlotAt, IsSubDir, First, Rest, Walkable, Exists, Entered;
    hide SdFile.Place;
    ghost var s := path[from..];
    var len;
    more, to, len := GetNextPathComponent(path, from, buffer);
    var c := buffer[..len];
    kid := cur;
    FirstOfWalk(parent, cur, s, illegal);
    found := CallbackPathExists(parent, c, illegal, cur);
    if !found {
      if !keep {
        CloseWalked(parent, cur);
      }
    } else if more {
      found, kid := Descend(child, parent, keep, c, illegal, cur, s);
    }
  }

  /** The path `s` leads somewhere from `parent`. */
  ghost predicate ExistsIn(parent: SdFile, cur: Node, s: seq<byte>, illegal: set<byte>)
    reads parent, parent.vol
  {
    parent.IsDir() && Exists(parent.vol.lay, parent.vol.disk, parent.Place(), cur, Walk(s), illegal)
  }

  /** Open the next directory of the walk, and close the one before unless it is the caller's. */
  method Descend(child: SdFile, parent: SdFile, keep: bool, c: seq<byte>, illegal: set<byte>, ghost cur: Node,
                 ghost s: seq<byte>)
    returns (ok: bool, ghost kid: Node)
    requires child != parent && child.vol == parent.vol && 0 !in c && c == First(s) && Rest(s) != []
    requires parent.vol.Valid() && Walkable(parent, cur)
    modifies child, parent`curCluster, parent`curPosition, parent`firstCluster, parent`flags, parent`chain,
      parent`fileSize
    modifies if keep then {} else {parent}
    modifies parent.vol, parent.vol.cache, parent.vol.cache.card, parent.vol.cache.buffer
    ensures parent.vol.Valid() && parent.vol.disk == old(parent.vol.disk) && parent.vol.fat == old(parent.vol.fat)
    ensures parent.vol.cache.misused == old(parent.vol.cache.misused)
    ensures ok ==>
      Walkable(child, kid) && (ExistsIn(child, kid, Rest(s), illegal) <==> old(ExistsIn(parent, cur, s, illegal)))
    ensures parent.vol.cache.card.faults >= old(parent.vol.cache.card.faults)
    ensures parent.vol.cache.card.faults == old(parent.vol.cache.card.faults) ==>
      && (!keep ==> parent.kind == Closed)
      && (!ok && old(child.kind) == Closed ==> !old(FindsIn(parent, cur, c, illegal)))
  {
    hide SdVolume.Valid, LooksLike, Finds, Readable, SlotAt, IsSubDir, First, Rest, Walkable, Exists, Entered;
    ok := OpenIn(child, parent, c, illegal, cur);
    kid := cur;
    if ok {
      kid := RestOfWalk(child, parent, cur, s, illegal);
    }
    if !keep {
      CloseWalked(parent, cur);
    }
  }

  /** Close a handle of the walk. */
  method CloseWalked(f: SdFile, ghost n: Node)
    requires f.vol.Valid() && Walkable(f, n)
    modifies f`flags, f`kind, f.vol`disk, f.vol.cache, f.vol.cache.card, f.vol.cache.buffer
    ensures f.vol.Valid() && f.vol.disk == old(f.vol.disk)
    ensures f.vol.cache.misused == old(f.vol.cache.misused)
    ensures f.vol.cache.card.faults == old(f.vol.cache.card.faults) ==> f.kind == Closed
    ensures f.vol.cache.card.faults >= old(f.vol.cache.card.faults)
  {
    hide SdVolume.Valid, SdFile.Ready, DirHandle, HasSlots, LooksLike;
    var _ := f.Close();
  }

  /** The first component decides unless more of them follow. */
  lemma FirstOfWalk(parent: SdFile, cur: Node, s: seq<byte>, illegal: set<byte>)
    ensures ExistsIn(parent, cur, s, illegal) ==> FindsIn(parent, cur, First(s), illegal)
    ensures Rest(s) == [] && FindsIn(parent, cur, First(s), illegal) ==> ExistsIn(parent, cur, s, illegal)
  {
    hide Finds, First, Rest, Readable;
    assert Walk(s)[0] == First(s);
  }

  /** Behind the first component, the walk goes on in what was opened. */
  lemma RestOfWalk(child: SdFile, parent: SdFile, cur: Node, s: seq<byte>, illegal: set<byte>) returns (kid: Node)
    requires child.vol == parent.vol && Rest(s) != []
    requires FindsIn(parent, cur, First(s), illegal) && Entered(child, parent, cur, First(s), illegal)
    ensures Walkable(child, kid)
    ensures ExistsIn(parent, cur, s, illegal) <==> ExistsIn(child, kid, Rest(s), illegal)
  {
    hide Finds, First, Rest, Walkable, SlotAt, IsSubDir, Layout.WellFormed;
    kid := cur.kids[SlotFor(parent.vol.lay, parent.vol.disk, parent.Place(), cur, First(s), illegal)];
    assert Walk(s) == [First(s)] + Walk(Rest(s));
    assert Walk(s)[1..] == Walk(Rest(s));
  }
}
