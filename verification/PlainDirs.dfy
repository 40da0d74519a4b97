/** A directory as a finite map from names to byte sequences, and what requests do to it. */
module PlainDirs {
  import opened Bytes
  import opened VolumeLayout
  import opened Allocation
  import opened FileData
  import opened DirEntry
  import opened DirTable
  import opened DirOnDisk
  import opened Names
  import opened File
  import opened Directories
  import opened FatRuns
  import opened FileRuns

  /** What a name stands for. Labels and the entries '.' and '..' only keep their names from being used. */
  datatype Item = Reserved | SubDirectory | FileItem(readOnly: bool, plain: PlainFile)

  /** A handle that is open on a name. */
  datatype Handle = Handle(name: seq<byte>, mode: Flags)

  datatype PlainDir = PlainDir(items: map<seq<byte>, Item>, handles: map<nat, Handle>)

  const EMPTY_FILE: PlainFile := PlainFile([], 0, 0)

  /** A request of the client of the directory, by the number of a handle in the pool. */
  datatype Request =
    | UseFile(i: nat, c: Command)
    | CloseHandle(i: nat)
    | OpenName(i: nat, str: seq<byte>, mode: OpenMode)
    | CreateName(i: nat, str: seq<byte>, size: nat)
    | MakeName(i: nat, str: seq<byte>)
    | RemoveName(str: seq<byte>)
    | RemoveDirName(str: seq<byte>)

  datatype Reply = Ignored | Returned(ok: bool, data: seq<byte>)

  // ---------------------------------------------------------------- what the volume decides

  /** The table of the directory. */
  ghost function TableOf(lay: Layout, root16: bool, w: World): seq<Entry> {
    var place := if root16 then Extent.Root16 else Clusters(ChainOf(w.chains, Directory));
    var n := if root16 then lay.rootDirEntryCount else ENTRIES_PER_BLOCK * lay.BlockCount(place);
    if lay.WellFormed(|w.disk|) && lay.ExtentOk(place) && n <= ENTRIES_PER_BLOCK * lay.BlockCount(place)
    then Table(lay, w.disk, place, n) else []
  }

  /** No slot is empty: a new entry needs a new cluster. */
  ghost predicate NoSlot(lay: Layout, root16: bool, w: World) {
    FirstEmpty(TableOf(lay, root16, w)) == |TableOf(lay, root16, w)|
  }

  /** There is no room for another entry. */
  ghost predicate NoRoom(lay: Layout, root16: bool, w: World) {
    NoSlot(lay, root16, w) && (root16 || NoneFree(w.fat))
  }

  /** There is a cluster for a new directory, besides the one that its entry may need. */
  ghost predicate ClusterLeft(lay: Layout, root16: bool, w: World) {
    |FreeClusters(w.fat)| > (if NoSlot(lay, root16, w) then 1 else 0)
  }

  /** There is a run for a new file of this size, besides the cluster that its entry may need. */
  ghost predicate ClustersLeft(lay: Layout, root16: bool, w: World, size: nat) {
    RunLeft(w.fat, ChainOf(w.chains, Directory), NoSlot(lay, root16, w), ClustersFor(lay, size))
  }

  /** The subdirectory of this name looks empty to `rmDir`. */
  ghost predicate IsEmptySub(lay: Layout, w: World, name: seq<byte>) {
    var place := Clusters(ChainOf(w.chains, Named(name)));
    lay.WellFormed(|w.disk|) && lay.ExtentOk(place)
    && LooksEmpty(Table(lay, w.disk, place, ENTRIES_PER_BLOCK * lay.BlockCount(place)))
  }

  // ---------------------------------------------------------------- steps

  /** A name that no handle is open on. */
  ghost predicate Unopened(p: PlainDir, str: seq<byte>, illegal: set<byte>) {
    0 !in str && IsName83(str, illegal) && forall i :: i in p.handles ==> p.handles[i].name != Encode(str)
  }

  /** A closed handle of the pool, and a directory that can grow within 32 bits. */
  ghost predicate CanOpen(lay: Layout, root16: bool, w: World, p: PlainDir, pool: nat, i: nat) {
    i < pool && i !in p.handles && ENTRY_SIZE * |TableOf(lay, root16, w)| + lay.ClusterBytes() < SIZE_LIMIT
  }

  ghost predicate HoldsFile(p: PlainDir, i: nat) {
    i in p.handles && p.handles[i].name in p.items && p.items[p.handles[i].name].FileItem?
  }

  ghost function FileOf(p: PlainDir, i: nat): PlainFile
    requires HoldsFile(p, i)
  {
    p.items[p.handles[i].name].plain
  }

  /**
   * A file is opened by one handle at a time and not removed while it is open, sizes and positions
   * stay within their 16 and 32 bits, and names are 8.3 names.
   */
  ghost predicate Legal(lay: Layout, root16: bool, w: World, p: PlainDir, pool: nat, r: Request, illegal: set<byte>) {
    match r
    case UseFile(i, c) => HoldsFile(p, i) && Expressible(FileOf(p, i), p.handles[i].mode, c)
    case CloseHandle(i) => i in p.handles
    case OpenName(i, str, mode) =>
      && i < pool && i !in p.handles && Unopened(p, str, illegal) && Consistent(mode)
      && (mode.creat ==> CanOpen(lay, root16, w, p, pool, i))
    case CreateName(i, str, size) =>
      CanOpen(lay, root16, w, p, pool, i) && Unopened(p, str, illegal) && size < SIZE_LIMIT
    case MakeName(i, str) => CanOpen(lay, root16, w, p, pool, i) && Unopened(p, str, illegal)
    case RemoveName(str) => Unopened(p, str, illegal)
    case RemoveDirName(str) => Unopened(p, str, illegal)
  }

  /** The name that a request is about. */
  function NameOf(p: PlainDir, r: Request, illegal: set<byte>): seq<byte> {
    match r
    case UseFile(i, _) => if i in p.handles then p.handles[i].name else []
    case CloseHandle(i) => if i in p.handles then p.handles[i].name else []
    case OpenName(_, str, _) => if IsName83(str, illegal) then Encode(str) else []
    case CreateName(_, str, _) => if IsName83(str, illegal) then Encode(str) else []
    case MakeName(_, str) => if IsName83(str, illegal) then Encode(str) else []
    case RemoveName(str) => if IsName83(str, illegal) then Encode(str) else []
    case RemoveDirName(str) => if IsName83(str, illegal) then Encode(str) else []
  }

  function HandleFor(name: seq<byte>, mode: OpenMode): Handle {
    Handle(name, Flags(mode.read, mode.write, mode.append, mode.sync, false, false))
  }

  /** Opening the name succeeds: it is that of a file that may be opened this way, or a new one and there is room. */
  ghost predicate WillOpen(lay: Layout, root16: bool, w: World, p: PlainDir, name: seq<byte>, mode: OpenMode) {
    if name in p.items then
      && p.items[name].FileItem? && !(mode.creat && mode.excl)
      && !(p.items[name].readOnly && (mode.write || mode.trunc))
    else mode.creat && mode.write && !NoRoom(lay, root16, w)
  }

  /** What a file opened under this name stands for. */
  function OpenedItem(p: PlainDir, name: seq<byte>, mode: OpenMode): Item {
    if name in p.items && p.items[name].FileItem? then
      FileItem(p.items[name].readOnly, if mode.trunc then EMPTY_FILE else p.items[name].plain)
    else FileItem(false, EMPTY_FILE)
  }

  /** What a request does to the directory, on the volume `w`. */
  ghost predicate Answered(lay: Layout, root16: bool, w: World, p: PlainDir, p': PlainDir,
                           r: Request, ok: bool, data: seq<byte>, illegal: set<byte>)
  {
    var name := NameOf(p, r, illegal);
    match r
    case UseFile(i, c) =>
      && HoldsFile(p, i) && HoldsFile(p', i) && FileOf(p, i).size <= |FileOf(p, i).bytes|
      && FileOf(p, i).pos <= |FileOf(p, i).bytes|
      && PlainStep(FileOf(p, i), FileOf(p', i), p.handles[i].mode, c, ok, data,
                   SpaceFor(lay, w, Named(p.handles[i].name)))
      && p' == p.(items := p.items[name := FileItem(p.items[name].readOnly, FileOf(p', i))])
    case CloseHandle(i) =>
      && HoldsFile(p, i) && ok && FileOf(p, i).size <= |FileOf(p, i).bytes|
      && var a := FileOf(p, i);
      p' == PlainDir(p.items[name := FileItem(p.items[name].readOnly, PlainFile(a.bytes[..a.size], a.size, 0))],
                     p.handles - {i})
    case OpenName(i, _, mode) =>
      && (ok <==> WillOpen(lay, root16, w, p, name, mode))
      && p' == if ok then PlainDir(p.items[name := OpenedItem(p, name, mode)], p.handles[i := HandleFor(name, mode)])
               else p
    case CreateName(i, _, size) =>
      if size == 0 || name in p.items || NoRoom(lay, root16, w) || !ClustersLeft(lay, root16, w, size) then
        !ok && p' == p
      else
        && ok && HoldsFile(p', i) && |FileOf(p', i).bytes| == FileOf(p', i).size == size && FileOf(p', i).pos == 0
        && p' == PlainDir(p.items[name := FileItem(false, FileOf(p', i))],
                          p.handles[i := Handle(name, Flags(true, true, false, false, false, false))])
    case MakeName(_, _) =>
      if name in p.items || NoRoom(lay, root16, w) then !ok && p' == p
      else if ClusterLeft(lay, root16, w) then ok && p' == p.(items := p.items[name := SubDirectory])
      else !ok && p' == p.(items := p.items[name := FileItem(false, EMPTY_FILE)])
    case RemoveName(_) =>
      if name in p.items && p.items[name].FileItem? && !p.items[name].readOnly then
        ok && p' == p.(items := p.items - {name})
      else !ok && p' == p
    case RemoveDirName(_) =>
      if name in p.items && p.items[name].SubDirectory? && IsEmptySub(lay, w, name) then
        ok && p' == p.(items := p.items - {name})
      else !ok && p' == p
  }

  /** The volume has chains for the directory and for exactly the files and subdirectories in it. */
  ghost predicate ChartOf(root16: bool, w: World, p: PlainDir) {
    && Directory in w.chains && (root16 ==> w.chains[Directory] == [])
    && forall name {:trigger Named(name)} :: Named(name) in w.chains <==> name in p.items && p.items[name] != Reserved
  }

  /** A new file has no clusters. */
  ghost predicate NewIsBare(chains: map<Id, seq<nat>>, p: PlainDir, r: Request, ok: bool, illegal: set<byte>) {
    var name := NameOf(p, r, illegal);
    r.OpenName? && ok && name !in p.items ==> ChainOf(chains, Named(name)) == []
  }

  /** The clusters that a request leaves in use without an owner: those of a removed file without bytes. */
  ghost function LeakOf(w: World, p: PlainDir, r: Request, ok: bool, illegal: set<byte>): seq<nat> {
    var name := NameOf(p, r, illegal);
    if r.RemoveName? && ok && name in p.items && p.items[name].FileItem? && p.items[name].plain.size == 0
    then ChainOf(w.chains, Named(name)) else []
  }

  /** One request and its reply. */
  ghost predicate DirStep(lay: Layout, root16: bool, w: World, p: PlainDir, p': PlainDir, pool: nat,
                          r: Request, reply: Reply, illegal: set<byte>)
  {
    && (reply.Returned? <==> Legal(lay, root16, w, p, pool, r, illegal))
    && match reply
       case Ignored => p' == p
       case Returned(ok, data) => Answered(lay, root16, w, p, p', r, ok, data, illegal)
  }

  /** The request is a write that leaves a working card with a cache that can no longer be flushed. */
  ghost predicate FatalRequest(lay: Layout, w: World, p: PlainDir, r: Request) {
    && r.UseFile? && HoldsFile(p, r.i) && Named(p.handles[r.i].name) in w.chains
    && var a, mode := FileOf(p, r.i), p.handles[r.i].mode;
    FatalFor(lay, w.chains[Named(p.handles[r.i].name)], w.cache, mode, a.pos, if mode.append then a.size else a.pos,
             r.c)
  }
}
