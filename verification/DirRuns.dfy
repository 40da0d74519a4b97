/** Runs of requests to a directory, against the plain directory that it stands for. */
module DirRuns {
  import opened Bytes
  import opened VolumeLayout
  import opened FileData
  import opened DirEntry
  import opened DirTable
  import opened Names
  import opened Volume
  import opened File
  import opened Directories
  import opened FatRuns
  import opened DirState
  import opened DirTurns
  import opened PlainDirs
  import opened DirShown
  import opened DirMoves
  import FileRuns

  // ---------------------------------------------------------------- one request

  /** What the handles and the directory must allow for a request. */
  predicate Allowed(k: Desk, open: map<nat, seq<byte>>, r: Request, illegal: set<byte>)
    reads k.dir, k.files
  {
    match r
    case UseFile(i, c) => i < |k.files| && i in open && FileRuns.Enabled(k.files[i], c)
    case CloseHandle(i) => i < |k.files| && i in open
    case OpenName(i, str, mode) =>
      && i < |k.files| && i !in open && NameFree(str, illegal, open)
      && Consistent(mode) && (mode.creat ==> Room(k.dir))
    case CreateName(i, str, size) =>
      i < |k.files| && i !in open && NameFree(str, illegal, open) && Room(k.dir) && size < SIZE_LIMIT
    case MakeName(i, str) => i < |k.files| && i !in open && NameFree(str, illegal, open) && Room(k.dir)
    case RemoveName(str) => NameFree(str, illegal, open)
    case RemoveDirName(str) => NameFree(str, illegal, open)
  }

  /** It can be seen from the plain directory. */
  lemma AllowedIsLegal(k: Desk, chains: map<Id, seq<nat>>, open: map<nat, seq<byte>>, p: PlainDir, r: Request,
                       illegal: set<byte>)
    requires InOrder(k, chains, open, p)
    ensures Allowed(k, open, r, illegal) <==>
      Legal(k.dir.vol.lay, k.dir.kind == Root16Dir, WorldNow(k.dir, chains), p, |k.files|, r, illegal)
  {
    hide SdVolume.Valid, Sound, Orderly, StandsFor, FileRuns.Enabled, FileRuns.Expressible, TableOf, IsName83, Encode;
    hide Base, Extension, Consistent, FileRuns.Plain, FileRuns.Tellable;
    HandlesKnown(k, chains, open, p);
    RoomKnown(k, chains, open, p);
    match r {
      case UseFile(i, c) =>
        if i in open {
          OpenIsShown(k, chains, open, p, i);
          FileRuns.EnabledExpressible(k.files[i], c);
        }
      case _ =>
    }
  }

  lemma HandlesKnown(k: Desk, chains: map<Id, seq<nat>>, open: map<nat, seq<byte>>, p: PlainDir)
    requires InOrder(k, chains, open, p)
    ensures p.handles.Keys == open.Keys && forall i :: i in open ==> i < |k.files| && p.handles[i].name == open[i]
  {
    hide SdVolume.Valid, DirHandle, Sound, Charted, ClosedFit, NamesShown, ClosedShown, OpenOn;
  }

  lemma RoomKnown(k: Desk, chains: map<Id, seq<nat>>, open: map<nat, seq<byte>>, p: PlainDir)
    requires InOrder(k, chains, open, p)
    ensures k.dir.fileSize == ENTRY_SIZE * |TableOf(k.dir.vol.lay, k.dir.kind == Root16Dir, WorldNow(k.dir, chains))|
  {
    hide SdVolume.Valid, Sound, Healthy, HandlesFit, ClosedFit, NoneTwice, StandsFor, TableOf, Slots;
    RoomShown(k.dir, chains);
  }

  predicate Succeeded(reply: Reply) { reply.Returned? && reply.ok }

  /** A request and its reply, or none if it is not allowed. */
  twostate predicate Stepped(k: Desk, new m: Move, new reply: Reply)
    reads k.dir, k.dir.vol, k.dir.vol.cache, k.dir.vol.cache.card, k.dir.vol.cache.buffer, k.files
  {
    var lay, root16 := k.dir.vol.lay, k.dir.kind == Root16Dir;
    && k.dir.vol.Valid() && k.dir.kind == old(k.dir.kind)
    && Next(lay, old(WorldNow(k.dir, m.chains)), WorldNow(k.dir, m.chains'), m.e) && IsAbout(m.e, m.p, m.r, m.illegal)
    && (k.dir.vol.cache.card.faults == old(k.dir.vol.cache.card.faults) ==>
          && InOrder(k, m.chains', m.open', m.p')
          && DirStep(lay, root16, old(WorldNow(k.dir, m.chains)), m.p, m.p', |k.files|, m.r, reply, m.illegal)
          && Tight(old(WorldNow(k.dir, m.chains)), WorldNow(k.dir, m.chains'), m.e,
                   LeakOf(old(WorldNow(k.dir, m.chains)), m.p, m.r, Succeeded(reply), m.illegal))
          && NewIsBare(m.chains', m.p, m.r, Succeeded(reply), m.illegal))
    && (k.dir.vol.cache.misused ==>
          old(k.dir.vol.cache.misused) || FatalRequest(lay, old(WorldNow(k.dir, m.chains)), m.p, m.r))
  }

  /** A change to the name of the request, or to none. */
  ghost predicate IsAbout(e: Change, p: PlainDir, r: Request, illegal: set<byte>) {
    AboutName(e, NameOf(p, r, illegal)) || AboutName(e, NO_NAME)
  }

  method Perform(k: Desk, ghost chains: map<Id, seq<nat>>, open: map<nat, seq<byte>>, ghost p: PlainDir, r: Request,
                 illegal: set<byte>)
    returns (ok: bool, data: seq<byte>, open': map<nat, seq<byte>>, ghost m: Move)
    requires InOrder(k, chains, open, p) && Allowed(k, open, r, illegal)
    modifies k.dir, k.files, k.dir.vol, k.dir.vol.cache, k.dir.vol.cache.card, k.dir.vol.cache.buffer
    ensures Starts(m, chains, open, p, r, illegal) && Ends(m, open', ok, data)
    ensures Moved(k, m)
  {
    hide InOrder, Moved, NameFree, FileRuns.Enabled, Starts, Ends, Consistent, Room;
    open', data := open, [];
    match r {
      case UseFile(i, c) => ok, data, m := Use(k, chains, open, p, i, c, illegal);
      case CloseHandle(i) => ok, open', m := Close(k, chains, open, p, i, illegal);
      case OpenName(i, str, mode) => ok, open', m := OpenByName(k, chains, open, p, i, str, mode, illegal);
      case CreateName(i, str, size) => ok, open', m := Create(k, chains, open, p, i, str, size, illegal);
      case MakeName(i, str) => ok, m := Make(k, chains, open, p, i, str, illegal);
      case RemoveName(str) => ok, m := Remove(k, chains, open, p, str, illegal);
      case RemoveDirName(str) => ok, m := RemoveDir(k, chains, open, p, str, illegal);
    }
  }

  /** One request of a run. */
  method Step(k: Desk, ghost chains: map<Id, seq<nat>>, open: map<nat, seq<byte>>, ghost p: PlainDir, r: Request,
              illegal: set<byte>)
    returns (reply: Reply, open': map<nat, seq<byte>>, ghost m: Move)
    requires InOrder(k, chains, open, p)
    modifies k.dir, k.files, k.dir.vol, k.dir.vol.cache, k.dir.vol.cache.card, k.dir.vol.cache.buffer
    ensures Starts(m, chains, open, p, r, illegal) && m.open' == open'
    ensures Stepped(k, m, reply)
  {
    hide InOrder, Next, AboutName, Legal, Answered, FatalRequest, Allowed, SdVolume.Valid, NameOf, Tight;
    AllowedIsLegal(k, chains, open, p, r, illegal);
    if Allowed(k, open, r, illegal) {
      var ok, data;
      ok, data, open', m := Perform(k, chains, open, p, r, illegal);
      reply := Returned(ok, data);
    } else {
      reply, open' := Ignored, open;
      m := Move(chains, open, p, chains, open, p, NO_CHANGE, r, false, [], illegal);
      InOrderFacts(k, chains, open, p);
      NothingNext(k.dir.vol.lay, WorldNow(k.dir, chains), k.dir.vol.CacheNow());
      NothingTight(WorldNow(k.dir, chains), k.dir.vol.CacheNow());
    }
  }

  lemma InOrderFacts(k: Desk, chains: map<Id, seq<nat>>, open: map<nat, seq<byte>>, p: PlainDir)
    requires InOrder(k, chains, open, p)
    ensures k.dir.vol.Valid() && Healthy(k.dir.vol.lay, WorldNow(k.dir, chains))
  {
    hide SdVolume.Valid, DirHandle, Sound, HandlesFit, ClosedFit, StandsFor;
  }

  /** Its chains. */
  lemma InOrderCharts(k: Desk, chains: map<Id, seq<nat>>, open: map<nat, seq<byte>>, p: PlainDir)
    requires InOrder(k, chains, open, p)
    ensures ChartOf(k.dir.kind == Root16Dir, WorldNow(k.dir, chains), p)
  {
    hide SdVolume.Valid, Sound, Healthy, ClosedFit, NoneTwice, Keeps, FileRuns.Tellable, FileRuns.Plain, InSlot;
    forall name {:trigger Named(name)}
      ensures Named(name) in chains <==> name in p.items && p.items[name] != Reserved
    {
      assert Named(name) in chains <==> Listed(Slots(k.dir), name);
    }
  }

  // ---------------------------------------------------------------- runs

  /** A run of the plain directory, beside the run of the volume that it is on. */
  ghost predicate PlainRun(lay: Layout, root16: bool, worlds: seq<World>, ps: seq<PlainDir>, pool: nat, s: seq<Request>,
                           replies: seq<Reply>, illegal: set<byte>)
  {
    && |ps| == |replies| + 1 <= |worlds| && |replies| <= |s|
    && forall t :: 0 <= t < |replies| ==>
         DirStep(lay, root16, worlds[t], ps[t], ps[t + 1], pool, s[t], replies[t], illegal)
  }

  /**
   * The clusters of the volume beside the plain directory: there are chains for exactly what is listed,
   * a new file has none, and clusters in use that belong to nothing are those there were and those of
   * removed files without bytes.
   */
  ghost predicate Accounted(root16: bool, worlds: seq<World>, ps: seq<PlainDir>, s: seq<Request>, replies: seq<Reply>,
                            illegal: set<byte>)
  {
    && |ps| == |replies| + 1 <= |worlds| && |replies| <= |s|
    && (forall t :: 0 <= t <= |replies| ==> ChartOf(root16, worlds[t], ps[t]))
    && forall t :: 0 <= t < |replies| ==> AccountedStep(worlds[t], worlds[t + 1], ps[t], s[t], replies[t], illegal)
  }

  ghost predicate AccountedStep(w: World, w': World, p: PlainDir, r: Request, reply: Reply, illegal: set<byte>) {
    && Orphans(w') == Orphans(w) + Members(LeakOf(w, p, r, Succeeded(reply), illegal))
    && NewIsBare(w'.chains, p, r, Succeeded(reply), illegal)
  }

  /** Each change is about the name of its request. */
  ghost predicate EachAbout(changes: seq<Change>, ps: seq<PlainDir>, s: seq<Request>, illegal: set<byte>) {
    && |changes| <= |ps| && |changes| <= |s|
    && forall t :: 0 <= t < |changes| ==> IsAbout(changes[t], ps[t], s[t], illegal)
  }

  /** The cache becomes misused by fatal requests only. */
  ghost predicate MisusedByFatal(lay: Layout, worlds: seq<World>, ps: seq<PlainDir>, s: seq<Request>) {
    forall t :: 0 <= t < |worlds| - 1 && t < |ps| && t < |s| && worlds[t + 1].cache.misused ==>
      worlds[t].cache.misused || FatalRequest(lay, worlds[t], ps[t], s[t])
  }

  /** None of the first `n` requests is fatal. */
  ghost predicate NoneFatal(lay: Layout, worlds: seq<World>, ps: seq<PlainDir>, s: seq<Request>, n: nat) {
    forall t :: 0 <= t < n && t < |worlds| && t < |ps| && t < |s| ==> !FatalRequest(lay, worlds[t], ps[t], s[t])
  }

  /** Clusters and blocks of everything that is neither the directory nor in it are as they were. */
  ghost predicate OthersIntact(lay: Layout, w: World, w': World) {
    forall n :: Numbered(n) in w.chains ==>
      && Numbered(n) in w'.chains && w'.chains[Numbered(n)] == w.chains[Numbered(n)]
      && SameBlocks(lay, w.disk, w'.disk, w.chains[Numbered(n)])
  }

  /**
   * Any sequence of requests: the directory behaves like a plain one, and so do its handles, until a
   * card access fails. With a sound cache and hardware that works this happens only after a write
   * that rewrites a dirty block. Each request is a step of FatRuns about its own name, also the one
   * broken off, which ends the run: in every state all chains are sound and disjoint, nothing
   * outside the directory is touched, and no cluster gets lost but those of files without bytes
   * that are removed.
   */
  method Run(k: Desk, ghost chains: map<Id, seq<nat>>, open: map<nat, seq<byte>>, s: seq<Request>, illegal: set<byte>)
    returns (replies: seq<Reply>, open': map<nat, seq<byte>>, ghost ps: seq<PlainDir>, ghost worlds: seq<World>,
             ghost changes: seq<Change>)
    requires Orderly(k, chains, open)
    modifies k.dir, k.files, k.dir.vol, k.dir.vol.cache, k.dir.vol.cache.card, k.dir.vol.cache.buffer
    ensures k.dir.vol.Valid() && k.dir.kind == old(k.dir.kind)
    ensures PlainRun(k.dir.vol.lay, k.dir.kind == Root16Dir, worlds, ps, |k.files|, s, replies, illegal)
    ensures ps[0] == old(PlainNow(k, chains, open))
    ensures IsRun(k.dir.vol.lay, worlds, changes) && EachAbout(changes, ps, s, illegal)
    ensures worlds[0] == old(WorldNow(k.dir, chains))
    ensures worlds[|changes|] == WorldNow(k.dir, worlds[|changes|].chains)
    ensures MisusedByFatal(k.dir.vol.lay, worlds, ps, s)
    ensures Accounted(k.dir.kind == Root16Dir, worlds, ps, s, replies, illegal)
    ensures forall t :: 0 <= t < |worlds| ==>
      Healthy(k.dir.vol.lay, worlds[t]) && OthersIntact(k.dir.vol.lay, worlds[0], worlds[t])
    ensures k.dir.vol.cache.card.faults == old(k.dir.vol.cache.card.faults) ==>
      && |replies| == |s| == |changes| && InOrder(k, worlds[|s|].chains, open', ps[|s|])
    ensures k.dir.vol.cache.card.faults != old(k.dir.vol.cache.card.faults) ==>
      |replies| < |s| && |changes| == |replies| + 1
    ensures !old(k.dir.vol.cache.misused) && k.dir.vol.cache.card.hardware == old(k.dir.vol.cache.card.hardware)
            && NoneFatal(k.dir.vol.lay, worlds, ps, s, |s|) ==>
      |replies| == |s|
  {
    hide SdVolume.Valid, Orderly, StandsFor, Next, Healthy, NoneFatal, IsRun, FatalRequest, DirStep, IsAbout, PlainNow;
    hide InOrder, OthersIntact, HasSlots, Tight, Orphans, LeakOf, MisusedByFatal, Accounted, EachAbout;
    hide ChartOf, NewIsBare;
    PlainNowStands(k, chains, open);
    OrderlyFacts(k, chains, open);
    ghost var chains', lay, root16, n := chains, k.dir.vol.lay, k.dir.kind == Root16Dir, |k.files|;
    replies, open', ps, worlds, changes := [], open, [PlainNow(k, chains, open)], [WorldNow(k.dir, chains)], [];
    assert InOrder(k, chains, open, ps[0]) by { InOrderNow(k, chains, open, ps[0]); }
    NoRunYet(lay, worlds[0]);
    InOrderCharts(k, chains, open, ps[0]);
    NoneYet(lay, root16, worlds[0], ps[0], s, illegal);
    var faults := k.dir.vol.cache.card.faults;
    for t := 0 to |s|
      invariant |replies| == |changes| == t && PlainRun(lay, root16, worlds, ps, n, s, replies, illegal)
      invariant InOrder(k, chains', open', ps[t]) && k.dir.kind == old(k.dir.kind)
      invariant IsRun(lay, worlds, changes) && |worlds| == t + 1 && EachAbout(changes, ps, s, illegal)
      invariant Healthy(lay, worlds[0]) && worlds[0] == old(WorldNow(k.dir, chains))
      invariant ps[0] == old(PlainNow(k, chains, open)) && MisusedByFatal(lay, worlds, ps, s)
      invariant Accounted(root16, worlds, ps, s, replies, illegal)
      invariant worlds[t] == WorldNow(k.dir, chains') && worlds[t].chains == chains'
      invariant k.dir.vol.cache.card.faults == old(k.dir.vol.cache.card.faults)
      invariant !old(k.dir.vol.cache.misused) && NoneFatal(lay, worlds, ps, s, t) ==> !k.dir.vol.cache.misused
    {
      ghost var worlds0, ps0 := worlds, ps;
      ghost var doomed := FatalRequest(lay, worlds[t], ps[t], s[t]);
      var reply;
      ghost var m;
      reply, open', m := Step(k, chains', open', ps[t], s[t], illegal);
      chains' := m.chains';
      ghost var w := WorldNow(k.dir, chains');
      RunOn(lay, worlds, changes, w, m.e);
      MisusedOn(lay, worlds, w, ps, s);
      AboutOn(changes, m.e, ps, s, illegal);
      NoAnswer(root16, worlds, w, ps, s, replies, illegal);
      worlds, changes := worlds + [w], changes + [m.e];
      EarlierFatal(lay, worlds0, worlds, ps0, ps, s, t, |s|, doomed);
      if k.dir.vol.cache.card.faults != faults {
        RunIntact(lay, worlds, changes, ps, s, illegal);
        if !k.dir.vol.cache.misused && !old(k.dir.vol.cache.misused) {
          k.dir.vol.SameFaults();
        }
        return;
      }
      HealthyUpTo(lay, worlds0, changes[..t], t);
      OrphansAfter(lay, worlds0[t], w, m.e, LeakOf(worlds0[t], ps[t], s[t], Succeeded(reply), illegal));
      InOrderCharts(k, chains', open', m.p');
      AnsweredOn(lay, root16, worlds0, w, ps, m.p', n, s, replies, reply, illegal);
      replies, ps := replies + [reply], ps + [m.p'];
      EarlierFatal(lay, worlds0, worlds, ps0, ps, s, t, t + 1, doomed);
    }
    InOrderFacts(k, chains', open', ps[|s|]);
    RunIntact(lay, worlds, changes, ps, s, illegal);
  }

  lemma NoneYet(lay: Layout, root16: bool, w: World, p: PlainDir, s: seq<Request>, illegal: set<byte>)
    requires ChartOf(root16, w, p)
    ensures EachAbout([], [p], s, illegal) && MisusedByFatal(lay, [w], [p], s)
    ensures Accounted(root16, [w], [p], s, [], illegal)
  {
  }

  /** A request that was broken off has no reply. */
  lemma NoAnswer(root16: bool, worlds: seq<World>, w: World, ps: seq<PlainDir>, s: seq<Request>, replies: seq<Reply>,
                 illegal: set<byte>)
    requires Accounted(root16, worlds, ps, s, replies, illegal)
    ensures Accounted(root16, worlds + [w], ps, s, replies, illegal)
  {
    hide AccountedStep, ChartOf;
  }

  /** One answer more. */
  lemma AnsweredOn(lay: Layout, root16: bool, worlds: seq<World>, w: World, ps: seq<PlainDir>, p: PlainDir, pool: nat,
                   s: seq<Request>, replies: seq<Reply>, reply: Reply, illegal: set<byte>)
    requires PlainRun(lay, root16, worlds, ps, pool, s, replies, illegal)
    requires Accounted(root16, worlds, ps, s, replies, illegal) && |worlds| == |ps| == |replies| + 1 <= |s|
    requires DirStep(lay, root16, worlds[|replies|], ps[|replies|], p, pool, s[|replies|], reply, illegal)
    requires AccountedStep(worlds[|replies|], w, ps[|replies|], s[|replies|], reply, illegal) && ChartOf(root16, w, p)
    ensures PlainRun(lay, root16, worlds + [w], ps + [p], pool, s, replies + [reply], illegal)
    ensures Accounted(root16, worlds + [w], ps + [p], s, replies + [reply], illegal)
  {
    hide DirStep, AccountedStep, ChartOf;
  }

  lemma MisusedOn(lay: Layout, worlds: seq<World>, w: World, ps: seq<PlainDir>, s: seq<Request>)
    requires MisusedByFatal(lay, worlds, ps, s) && 0 < |worlds| == |ps| <= |s|
    requires w.cache.misused ==>
      worlds[|ps| - 1].cache.misused || FatalRequest(lay, worlds[|ps| - 1], ps[|ps| - 1], s[|ps| - 1])
    ensures MisusedByFatal(lay, worlds + [w], ps, s) && forall p :: MisusedByFatal(lay, worlds + [w], ps + [p], s)
  {
    hide FatalRequest;
  }

  lemma AboutOn(changes: seq<Change>, e: Change, ps: seq<PlainDir>, s: seq<Request>, illegal: set<byte>)
    requires EachAbout(changes, ps, s, illegal) && |changes| < |ps| && |changes| < |s|
    requires IsAbout(e, ps[|changes|], s[|changes|], illegal)
    ensures EachAbout(changes + [e], ps, s, illegal) && forall p :: EachAbout(changes + [e], ps + [p], s, illegal)
  {
    hide IsAbout;
  }

  lemma OrderlyFacts(k: Desk, chains: map<Id, seq<nat>>, open: map<nat, seq<byte>>)
    requires Orderly(k, chains, open)
    ensures k.dir.vol.Valid() && Healthy(k.dir.vol.lay, WorldNow(k.dir, chains)) && HasSlots(k.dir) && Pool(k)
  {
    hide SdVolume.Valid, DirHandle, Sound, HandlesFit, ClosedFit;
  }

  lemma InOrderNow(k: Desk, chains: map<Id, seq<nat>>, open: map<nat, seq<byte>>, p: PlainDir)
    requires Orderly(k, chains, open) && HasSlots(k.dir) && Pool(k) && StandsFor(k, chains, open, p)
    ensures InOrder(k, chains, open, p)
  {
    hide Orderly, StandsFor;
  }

  /** What a longer run says of its first `k` requests and the one that follows. */
  lemma EarlierFatal(lay: Layout, worlds: seq<World>, worlds': seq<World>, ps: seq<PlainDir>, ps': seq<PlainDir>,
                     s: seq<Request>, k: nat, n: nat, doomed: bool)
    requires |worlds| == |ps| == k + 1 && k < |s| && k < n && worlds <= worlds' && ps <= ps'
    requires doomed ==> FatalRequest(lay, worlds[k], ps[k], s[k])
    ensures NoneFatal(lay, worlds', ps', s, n) ==> !doomed && NoneFatal(lay, worlds, ps, s, k)
  {
    hide FatalRequest;
    assert forall t :: 0 <= t <= k ==> worlds'[t] == worlds[t] && ps'[t] == ps[t];
  }

  lemma RunIntact(lay: Layout, worlds: seq<World>, changes: seq<Change>, ps: seq<PlainDir>, s: seq<Request>,
                  illegal: set<byte>)
    requires |worlds| > 0 && IsRun(lay, worlds, changes) && Healthy(lay, worlds[0])
    requires EachAbout(changes, ps, s, illegal)
    ensures forall t :: 0 <= t < |worlds| ==> Healthy(lay, worlds[t]) && OthersIntact(lay, worlds[0], worlds[t])
  {
    hide IsRun, OthersIntact, EachAbout, Healthy;
    forall t | 0 <= t < |worlds|
      ensures Healthy(lay, worlds[t]) && OthersIntact(lay, worlds[0], worlds[t])
    {
      HealthyUpTo(lay, worlds, changes, t);
      OthersUpTo(lay, worlds, changes, ps, s, illegal, t);
    }
  }

  lemma OthersUpTo(lay: Layout, worlds: seq<World>, changes: seq<Change>, ps: seq<PlainDir>, s: seq<Request>,
                   illegal: set<byte>, t: nat)
    requires IsRun(lay, worlds, changes) && t < |worlds| && EachAbout(changes, ps, s, illegal)
    ensures OthersIntact(lay, worlds[0], worlds[t])
  {
    hide Next, SameBlocks, IsAbout;
    forall n | Numbered(n) in worlds[0].chains
      ensures Numbered(n) in worlds[t].chains && worlds[t].chains[Numbered(n)] == worlds[0].chains[Numbered(n)]
      ensures SameBlocks(lay, worlds[0].disk, worlds[t].disk, worlds[0].chains[Numbered(n)])
    {
      forall e | e in changes[..t]
        ensures !Affects(e, Numbered(n))
      {
        var j :| 0 <= j < t && changes[j] == e;
        NotNumbered(e, ps[j], s[j], illegal, n);
      }
      UnaffectedInRun(lay, worlds, changes, t, Numbered(n));
    }
  }

  lemma NotNumbered(e: Change, p: PlainDir, r: Request, illegal: set<byte>, n: nat)
    requires IsAbout(e, p, r, illegal)
    ensures !Affects(e, Numbered(n))
  {
    hide NameOf;
  }
}
