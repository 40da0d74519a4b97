/** A directory as a table of entries, and as a finite map from names to entries. */
module DirTable {
  import opened Bytes
  import opened DirEntry

  /** No entry follows the end marker. */
  ghost predicate FreeTail(t: seq<Entry>) {
    forall i, j :: 0 <= i < j < |t| && IsFree(t[i]) ==> IsFree(t[j])
  }

  /** No two live entries have the same 11-byte name. */
  ghost predicate UniqueNames(t: seq<Entry>) {
    forall i, j :: 0 <= i < j < |t| && IsLive(t[i]) && IsLive(t[j]) ==> Name(t[i]) != Name(t[j])
  }

  ghost predicate Sound(t: seq<Entry>) {
    FreeTail(t) && UniqueNames(t)
  }

  /** Nothing but '.', '..', deleted entries, labels and parts of long names. */
  predicate IsEmptyDir(t: seq<Entry>) { forall k :: 0 <= k < |t| ==> !Keeps(t[k]) }

  /** No file or subdirectory is listed before the first free slot, where `rmDir` stops looking. */
  predicate LooksEmpty(t: seq<Entry>) {
    forall k :: 0 <= k < |t| && Keeps(t[k]) ==> exists j :: 0 <= j < k && IsFree(t[j])
  }

  /** Slot `k` decides if the ones before are neither free nor listed. */
  lemma ScanDecides(t: seq<Entry>, k: nat)
    requires k <= |t| && forall j :: 0 <= j < k ==> !Keeps(t[j]) && !IsFree(t[j])
    ensures k == |t| || IsFree(t[k]) ==> LooksEmpty(t)
    ensures k < |t| && Keeps(t[k]) ==> !LooksEmpty(t)
  {
  }

  /** Behind the first free slot of a sound directory nothing is listed. */
  lemma EmptyByTail(t: seq<Entry>)
    requires FreeTail(t)
    ensures LooksEmpty(t) <==> IsEmptyDir(t)
  {
  }

  /** Slot `k` is live and has this name. */
  predicate Holds(t: seq<Entry>, k: nat, name: seq<byte>) {
    k < |t| && IsLive(t[k]) && Name(t[k]) == name
  }

  /** The first live slot with this name, or the length of the table. */
  function SlotOf(t: seq<Entry>, name: seq<byte>): (k: nat)
    ensures k <= |t|
    ensures k < |t| ==> Holds(t, k, name)
    ensures forall i :: 0 <= i < k ==> !Holds(t, i, name)
  {
    if t == [] || Holds(t, 0, name) then 0
    else
      var k := SlotOf(t[1..], name);
      assert forall i :: 1 <= i < 1 + k ==> !Holds(t, i, name) by {
        forall i | 1 <= i < 1 + k
          ensures !Holds(t, i, name)
        {
          assert t[i] == t[1..][i - 1] && !Holds(t[1..], i - 1, name);
        }
      }
      1 + k
  }

  /** The names of the live slots. */
  ghost function LiveNames(t: seq<Entry>): set<seq<byte>> {
    set k: nat | k < |t| && IsLive(t[k]) :: Name(t[k])
  }

  lemma LiveName(t: seq<Entry>, name: seq<byte>)
    ensures name in LiveNames(t) <==> SlotOf(t, name) < |t|
  {
    if name in LiveNames(t) {
      var k: nat :| k < |t| && IsLive(t[k]) && Name(t[k]) == name;
      assert Holds(t, k, name);
    }
  }

  /** The finite map that the table stands for: from each live name to its first entry. */
  ghost function TableMap(t: seq<Entry>): (m: map<seq<byte>, Entry>) {
    map name | name in LiveNames(t) :: LiveName(t, name); t[SlotOf(t, name)]
  }

  /** `m` has exactly the live entries of the table, under their names. */
  ghost predicate Represents(t: seq<Entry>, m: map<seq<byte>, Entry>) {
    && (forall k {:trigger t[k]} :: 0 <= k < |t| && IsLive(t[k]) ==> Name(t[k]) in m && m[Name(t[k])] == t[k])
    && (forall name :: name in m ==> SlotOf(t, name) < |t|)
  }

  lemma TableMapRepresents(t: seq<Entry>)
    requires UniqueNames(t)
    ensures Represents(t, TableMap(t))
  {
    forall k: nat | k < |t| && IsLive(t[k])
      ensures Name(t[k]) in TableMap(t) && TableMap(t)[Name(t[k])] == t[k]
    {
      assert Holds(t, k, Name(t[k]));
      assert SlotOf(t, Name(t[k])) <= k;
      assert Holds(t, SlotOf(t, Name(t[k])), Name(t[k]));
    }
    forall name | name in TableMap(t)
      ensures SlotOf(t, name) < |t|
    {
      LiveName(t, name);
    }
  }

  /** At most one map represents a table. */
  lemma MapUnique(t: seq<Entry>, m: map<seq<byte>, Entry>, m': map<seq<byte>, Entry>)
    requires Represents(t, m) && Represents(t, m')
    ensures m == m'
  {
    hide Name;
    forall name
      ensures name in m <==> name in m'
      ensures name in m ==> m[name] == m'[name]
    {
      if name in m || name in m' {
        var k := SlotOf(t, name);
        assert Holds(t, k, name);
        assert IsLive(t[k]) && Name(t[k]) == name;
      }
    }
  }

  /** Looking a name up in the map is searching the table. */
  lemma Lookup(t: seq<Entry>, name: seq<byte>)
    ensures name in TableMap(t) <==> SlotOf(t, name) < |t|
    ensures name in TableMap(t) ==> TableMap(t)[name] == t[SlotOf(t, name)]
  {
    LiveName(t, name);
  }

  /** The first slot that can take a new entry, or the length of the table. */
  function FirstEmpty(t: seq<Entry>): (k: nat)
    ensures k <= |t|
    ensures k < |t| ==> !IsLive(t[k])
    ensures forall i :: 0 <= i < k ==> IsLive(t[i])
  {
    if t == [] || !IsLive(t[0]) then 0
    else
      var k := FirstEmpty(t[1..]);
      assert forall i :: 1 <= i < 1 + k ==> IsLive(t[i]) by {
        assert forall i :: 1 <= i < 1 + k ==> t[i] == t[1..][i - 1];
      }
      1 + k
  }

  lemma NotThere(t: seq<Entry>, name: seq<byte>)
    requires SlotOf(t, name) == |t|
    ensures forall i {:trigger t[i]} :: 0 <= i < |t| && IsLive(t[i]) ==> Name(t[i]) != name
  {
    forall i | 0 <= i < |t| && IsLive(t[i])
      ensures Name(t[i]) != name
    {
      assert !Holds(t, i, name);
    }
  }

  lemma There(t: seq<Entry>, k: nat)
    requires k < |t| && IsLive(t[k])
    ensures SlotOf(t, Name(t[k])) <= k
  {
    assert Holds(t, k, Name(t[k]));
  }

  /** Putting a new name into the first empty slot adds exactly that name to the map. */
  lemma Insert(t: seq<Entry>, e: Entry)
    requires Sound(t) && FirstEmpty(t) < |t| && IsLive(e) && SlotOf(t, Name(e)) == |t|
    ensures Sound(t[FirstEmpty(t) := e])
    ensures Name(e) !in TableMap(t)
    ensures TableMap(t[FirstEmpty(t) := e]) == TableMap(t)[Name(e) := e]
    ensures SlotOf(t[FirstEmpty(t) := e], Name(e)) == FirstEmpty(t)
  {
    hide Name, IsLive, IsFree, FreeTail, TableMap;
    InsertSound(t, e);
    var k := FirstEmpty(t);
    var t', m := t[k := e], TableMap(t);
    Lookup(t, Name(e));
    NotThere(t, Name(e));
    There(t', k);
    assert Holds(t', SlotOf(t', Name(e)), Name(e));
    TableMapRepresents(t);
    TableMapRepresents(t');
    forall name | name in m[Name(e) := e]
      ensures SlotOf(t', name) < |t'|
    {
      var i := if name in m then SlotOf(t, name) else k;
      assert name in m ==> Holds(t, i, name);
      There(t', i);
    }
    MapUnique(t', TableMap(t'), m[Name(e) := e]);
  }

  lemma InsertSound(t: seq<Entry>, e: Entry)
    requires Sound(t) && FirstEmpty(t) < |t| && IsLive(e) && SlotOf(t, Name(e)) == |t|
    ensures Sound(t[FirstEmpty(t) := e])
  {
    hide Name;
    NotThere(t, Name(e));
  }

  /** An entry marked as deleted. */
  function Deleted(e: Entry): Entry { e[0 := NAME_DELETED] }

  lemma FreeOrLive()
    ensures forall e: Entry :: IsFree(e) ==> !IsLive(e)
  {
  }

  /** Marking a live slot as deleted removes exactly its name from the map. */
  lemma Delete(t: seq<Entry>, k: nat, e: Entry)
    requires Sound(t) && k < |t| && IsLive(t[k]) && IsDeleted(e)
    ensures Sound(t[k := e])
    ensures TableMap(t[k := e]) == TableMap(t) - {Name(t[k])}
  {
    hide Name, IsLive, IsFree, TableMap, IsDeleted;
    var t', m := t[k := e], TableMap(t);
    LiveNotFree(t[k], e);
    TableMapRepresents(t);
    TableMapRepresents(t');
    forall name | name in m - {Name(t[k])}
      ensures SlotOf(t', name) < |t'|
    {
      var i := SlotOf(t, name);
      assert Holds(t, i, name);
      There(t', i);
    }
    MapUnique(t', TableMap(t'), m - {Name(t[k])});
  }

  /** Changing a live entry without renaming it changes exactly the value under its name. */
  lemma Replace(t: seq<Entry>, k: nat, e: Entry)
    requires Sound(t) && k < |t| && IsLive(t[k]) && Name(e) == Name(t[k])
    ensures Sound(t[k := e]) && IsLive(e)
    ensures TableMap(t[k := e]) == TableMap(t)[Name(e) := e]
    ensures SlotOf(t, Name(e)) == k == SlotOf(t[k := e], Name(e))
  {
    var t', m := t[k := e], TableMap(t);
    ReplaceSound(t, k, e);
    hide Name, IsLive, IsFree, TableMap, UniqueNames, FreeTail;
    SameSlot(t, k, e, Name(e));
    There(t, k);
    SoleSlot(t, k, SlotOf(t, Name(e)));
    forall name
      ensures name in TableMap(t') <==> name in m || name == Name(e)
      ensures name in TableMap(t') ==> TableMap(t')[name] == m[Name(e) := e][name]
    {
      SameSlot(t, k, e, name);
      Lookup(t, name);
      Lookup(t', name);
    }
  }

  lemma ReplaceSound(t: seq<Entry>, k: nat, e: Entry)
    requires Sound(t) && k < |t| && IsLive(t[k]) && Name(e) == Name(t[k])
    ensures Sound(t[k := e]) && IsLive(e)
  {
    SameMark(t[k], e);
    hide Name;
  }

  lemma SameSlot(t: seq<Entry>, k: nat, e: Entry, name: seq<byte>)
    requires k < |t| && IsLive(t[k]) && Name(e) == Name(t[k])
    ensures SlotOf(t[k := e], name) == SlotOf(t, name)
  {
    SameMark(t[k], e);
    hide Name;
    var i, j := SlotOf(t, name), SlotOf(t[k := e], name);
    assert i < |t| ==> Holds(t[k := e], i, name);
    assert j < |t| ==> Holds(t, j, name);
  }

  /** A name has only one slot. */
  lemma SoleSlot(t: seq<Entry>, j: nat, k: nat)
    requires UniqueNames(t) && j < |t| && k < |t| && IsLive(t[j]) && IsLive(t[k]) && Name(t[j]) == Name(t[k])
    ensures j == k
  {
  }

  lemma SameMark(e: Entry, e': Entry)
    requires Name(e) == Name(e')
    ensures e[0] == e'[0]
  {
    assert Name(e)[0] == Name(e')[0];
  }

  lemma LiveNotFree(live: Entry, e: Entry)
    requires IsLive(live) && IsDeleted(e)
    ensures !IsFree(live) && !IsFree(e) && !IsLive(e)
  {
  }

  lemma ExtendSound(t: seq<Entry>, more: seq<Entry>)
    requires Sound(t) && FirstEmpty(t) == |t| && forall i :: 0 <= i < |more| ==> IsFree(more[i])
    ensures Sound(t + more)
    ensures more != [] ==> FirstEmpty(t + more) == |t|
    ensures forall i {:trigger (t + more)[i]} :: |t| <= i < |t + more| ==> !IsLive((t + more)[i])
  {
    hide Name;
    var t' := t + more;
    assert forall i {:trigger t'[i]} :: 0 <= i < |t| ==> t'[i] == t[i] && IsLive(t[i]) && !IsFree(t[i]);
    assert forall i {:trigger t'[i]} :: |t| <= i < |t'| ==> t'[i] == more[i - |t|] && IsFree(t'[i]);
    if more != [] {
      assert IsFree(t'[|t|]);
    }
  }

  /** A full table that grows by empty slots still stands for the same map. */
  lemma Extend(t: seq<Entry>, more: seq<Entry>)
    requires Sound(t) && FirstEmpty(t) == |t| && forall i :: 0 <= i < |more| ==> IsFree(more[i])
    ensures Sound(t + more) && TableMap(t + more) == TableMap(t)
    ensures more != [] ==> FirstEmpty(t + more) == |t|
  {
    hide Name, IsLive, IsFree, TableMap, FreeTail, FirstEmpty;
    ExtendSound(t, more);
    var t', m := t + more, TableMap(t);
    TableMapRepresents(t);
    TableMapRepresents(t');
    assert forall i {:trigger t'[i]} :: 0 <= i < |t| ==> t'[i] == t[i];
    forall name | name in m
      ensures SlotOf(t', name) < |t'|
    {
      var i := SlotOf(t, name);
      assert Holds(t, i, name);
      There(t', i);
    }
    MapUnique(t', TableMap(t'), m);
  }

  /** A name that the grown table does not have before. */
  lemma ExtendLookup(t: seq<Entry>, more: seq<Entry>, name: seq<byte>)
    requires SlotOf(t, name) == |t| && forall i :: 0 <= i < |more| ==> IsFree(more[i])
    ensures SlotOf(t + more, name) == |t + more|
  {
    var k := SlotOf(t + more, name);
    if k < |t| {
      assert Holds(t, k, name);
    }
  }

  /** `t'` is `t` except for slot `k`, and possibly longer by free slots. */
  ghost predicate OneSlot(t: seq<Entry>, t': seq<Entry>, k: nat) {
    && |t| <= |t'| && k < |t'|
    && forall j {:trigger t'[j]} :: 0 <= j < |t'| && j != k ==> t'[j] == if j < |t| then t[j] else ZERO_ENTRY
  }

  /** `t'` is `t`, possibly longer by free slots. */
  ghost predicate Extended(t: seq<Entry>, t': seq<Entry>) {
    |t| <= |t'| && forall j {:trigger t'[j]} :: 0 <= j < |t'| ==> t'[j] == if j < |t| then t[j] else ZERO_ENTRY
  }

  lemma ExtendedSelf(t: seq<Entry>)
    ensures Extended(t, t)
  {
  }

  lemma ExtendedByZero(t: seq<Entry>, more: seq<Entry>)
    requires forall i :: 0 <= i < |more| ==> more[i] == ZERO_ENTRY
    ensures Extended(t, t + more)
  {
  }

  lemma ExtendedThenOne(t: seq<Entry>, t1: seq<Entry>, k: nat, e: Entry)
    requires Extended(t, t1) && k < |t1|
    ensures OneSlot(t, t1[k := e], k)
  {
  }

  lemma OneSlotTwice(t0: seq<Entry>, t1: seq<Entry>, t2: seq<Entry>, k: nat)
    requires OneSlot(t0, t1, k) && OneSlot(t1, t2, k) && |t1| == |t2|
    ensures OneSlot(t0, t2, k)
  {
  }

  /** The slot in which a name is, or will be, found. */
  function SlotToUse(t: seq<Entry>, name: seq<byte>): nat {
    if SlotOf(t, name) < |t| then SlotOf(t, name) else FirstEmpty(t)
  }

  /** No other name notices a change of the slot of a name. */
  lemma OneSlotOthers(t: seq<Entry>, t': seq<Entry>, name: seq<byte>, m: seq<byte>)
    requires OneSlot(t, t', SlotToUse(t, name)) && m != name
    requires IsLive(t'[SlotToUse(t, name)]) ==> Name(t'[SlotToUse(t, name)]) == name
    ensures SlotOf(t, m) < |t| <==> SlotOf(t', m) < |t'|
    ensures SlotOf(t, m) < |t| ==>
      SlotOf(t', m) == SlotOf(t, m) && t'[SlotOf(t, m)] == t[SlotOf(t, m)]
  {
    hide Name, IsLive, OneSlot, Holds;
    var k := SlotToUse(t, name);
    OldHolder(t, name);
    forall i: nat
      ensures Holds(t', i, m) <==> Holds(t, i, m)
    {
      HoldsSame(t, t', k, name, m, i);
    }
    SameHolders(t, t', m);
    if SlotOf(t, m) < |t| {
      UnchangedSlot(t, t', k, name, m, SlotOf(t, m));
    }
  }

  lemma OldHolder(t: seq<Entry>, name: seq<byte>)
    ensures var k := SlotToUse(t, name); k < |t| && IsLive(t[k]) ==> Name(t[k]) == name
  {
    hide Name, IsLive;
    assert SlotOf(t, name) < |t| ==> Holds(t, SlotOf(t, name), name);
  }

  lemma HoldsSame(t: seq<Entry>, t': seq<Entry>, k: nat, name: seq<byte>, m: seq<byte>, i: nat)
    requires OneSlot(t, t', k) && m != name && (IsLive(t'[k]) ==> Name(t'[k]) == name)
    requires k < |t| && IsLive(t[k]) ==> Name(t[k]) == name
    ensures Holds(t', i, m) <==> Holds(t, i, m)
  {
    ZeroDead();
    hide Name, IsLive;
  }

  lemma UnchangedSlot(t: seq<Entry>, t': seq<Entry>, k: nat, name: seq<byte>, m: seq<byte>, i: nat)
    requires OneSlot(t, t', k) && m != name && i < |t| && Holds(t, i, m)
    requires k < |t| && IsLive(t[k]) ==> Name(t[k]) == name
    ensures t'[i] == t[i]
  {
    hide Name, IsLive;
  }

  lemma SameHolders(t: seq<Entry>, t': seq<Entry>, m: seq<byte>)
    requires forall i: nat :: Holds(t', i, m) <==> Holds(t, i, m)
    ensures SlotOf(t, m) < |t| <==> SlotOf(t', m) < |t'|
    ensures SlotOf(t, m) < |t| ==> SlotOf(t', m) == SlotOf(t, m)
  {
    var i, j := SlotOf(t, m), SlotOf(t', m);
    assert i < |t| ==> Holds(t, i, m) && Holds(t', i, m);
    assert j < |t'| ==> Holds(t', j, m) && Holds(t, j, m);
    hide Holds;
  }

  /** If the table has lost a name, or has gained none, the slot that changed is not live. */
  lemma VacatedSlot(t: seq<Entry>, t': seq<Entry>, name: seq<byte>)
    requires Sound(t') && OneSlot(t, t', SlotToUse(t, name)) && TableMap(t').Keys == TableMap(t).Keys - {name}
    ensures !IsLive(t'[SlotToUse(t, name)])
  {
    hide Name, IsLive, TableMap;
    var k := SlotToUse(t, name);
    TableMapRepresents(t');
    OldHolder(t, name);
    if IsLive(t'[k]) {
      var m := Name(t'[k]);
      Lookup(t, m);
      var j := SlotOf(t, m);
      assert Holds(t, j, m) && j != k;
      SoleSlot(t', j, k);
    }
  }

  lemma ZeroDead()
    ensures !IsLive(ZERO_ENTRY)
  {
  }

  /** `t2` is `t` with room for a new entry: the same map, the same first empty slot. */
  ghost predicate RoomFor(t: seq<Entry>, t2: seq<Entry>, name: seq<byte>) {
    && Sound(t2) && TableMap(t2) == TableMap(t)
    && FirstEmpty(t2) == FirstEmpty(t) < |t2| && SlotOf(t2, name) == |t2|
  }

  lemma RoomFound(t: seq<Entry>, name: seq<byte>)
    requires Sound(t) && FirstEmpty(t) < |t| && SlotOf(t, name) == |t|
    ensures RoomFor(t, t, name)
  {
  }

  lemma RoomMade(t: seq<Entry>, more: seq<Entry>, name: seq<byte>)
    requires Sound(t) && FirstEmpty(t) == |t| && SlotOf(t, name) == |t| && more != []
    requires forall i :: 0 <= i < |more| ==> more[i] == ZERO_ENTRY
    ensures RoomFor(t, t + more, name)
  {
    hide Sound, TableMap, FirstEmpty, SlotOf;
    ZeroIsFree();
    Extend(t, more);
    ExtendLookup(t, more, name);
  }

  lemma ZeroIsFree()
    ensures IsFree(ZERO_ENTRY)
  {
  }

  // ---------------------------------------------------------------- the search loop of open

  /** The first `k` slots were searched for `name` in vain; none of them was the end marker. */
  ghost predicate Searched(t: seq<Entry>, name: seq<byte>, k: nat) {
    k <= |t| && forall i :: 0 <= i < k ==> !Holds(t, i, name) && !IsFree(t[i])
  }

  lemma SearchBegin(t: seq<Entry>, name: seq<byte>)
    ensures Searched(t, name, 0)
  {
  }

  lemma SearchStep(t: seq<Entry>, name: seq<byte>, k: nat)
    requires Searched(t, name, k) && k < |t|
    ensures IsLive(t[k]) && Name(t[k]) == name ==> SlotOf(t, name) == k
    ensures IsLive(t[k]) && Name(t[k]) != name ==> Searched(t, name, k + 1)
    ensures IsDeleted(t[k]) ==> Searched(t, name, k + 1)
    ensures IsFree(t[k]) && FreeTail(t) ==> SlotOf(t, name) == |t|
    ensures k < FirstEmpty(t) <==> k <= FirstEmpty(t) && IsLive(t[k])
  {
    if IsLive(t[k]) && Name(t[k]) == name {
      assert Holds(t, k, name);
      assert SlotOf(t, name) >= k;
    }
  }

  lemma SearchDone(t: seq<Entry>, name: seq<byte>)
    requires Searched(t, name, |t|)
    ensures SlotOf(t, name) == |t|
  {
  }
}
