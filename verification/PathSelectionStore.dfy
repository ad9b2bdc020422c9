/** The path store itself: a map of entries whose used paths are Go slices over arrays that
    removals shift in place (pathselection/pathselectionstore.go). */
module PathSelectionStore {
  import opened Paths
  import opened Allocator

  /** A Go slice: the first len cells of a backing array. */
  datatype PathSlice = PathSlice(backing: array<Path>, len: nat)

  ghost predicate InBounds(s: PathSlice) {
    s.len <= s.backing.Length
  }

  ghost function Elements(s: PathSlice): seq<Path>
    reads s.backing
    requires InBounds(s)
  {
    s.backing[..s.len]
  }

  datatype PeerPathEntry = PeerPathEntry(peerAddrStr: string, availablePaths: seq<Path>, usedPaths: PathSlice)

  /** The zero value of an entry: no address, no paths. */
  predicate IsZero(e: PeerPathEntry) {
    e.peerAddrStr == "" && e.availablePaths == [] && e.usedPaths.len == 0
  }

  ghost function EntryView(e: PeerPathEntry): Entry
    reads e.usedPaths.backing
    requires InBounds(e.usedPaths)
  {
    Entry(e.peerAddrStr, e.availablePaths, Elements(e.usedPaths))
  }

  /** The list stands for the given entries. */
  ghost predicate Represents(list: seq<PeerPathEntry>, entries: seq<Entry>)
    reads set i | 0 <= i < |list| :: list[i].usedPaths.backing
  {
    && |list| == |entries|
    && forall i :: 0 <= i < |list| ==> InBounds(list[i].usedPaths) && EntryView(list[i]) == entries[i]
  }

  /** getPeerConflictPaths: the index of the first used path in conflict, or -1. */
  method GetPeerConflictPaths(path: Path, peer: PeerPathEntry) returns (c: int)
    requires InBounds(peer.usedPaths)
    ensures c == ConflictIndex(path, Elements(peer.usedPaths))
  {
    var s := peer.usedPaths;
    for i := 0 to s.len
      invariant forall k :: 0 <= k < i ==> !Conflict(path, s.backing[k])
    {
      var conflict := PathsConflict(path, s.backing[i]);
      if conflict {
        return i;
      }
    }
    return -1;
  }

  /** append(s[:i], s[i+1:]...): the cells behind i move down one place in the shared array. A slice
      of the old length over the same array now ends in a stale copy of its last path. */
  method RemovePathFromEntry(entry: PeerPathEntry, i: nat) returns (r: PeerPathEntry)
    requires InBounds(entry.usedPaths) && i < entry.usedPaths.len
    modifies entry.usedPaths.backing
    ensures r == entry.(usedPaths := PathSlice(entry.usedPaths.backing, entry.usedPaths.len - 1))
    ensures EntryView(r) == old(EntryView(entry)).(used := RemoveAt(old(Elements(entry.usedPaths)), i))
    ensures Elements(entry.usedPaths)
         == RemoveAt(old(Elements(entry.usedPaths)), i) + [Last(old(Elements(entry.usedPaths)))]
  {
    ShiftDown(entry.usedPaths.backing, i, entry.usedPaths.len);
    r := entry.(usedPaths := PathSlice(entry.usedPaths.backing, entry.usedPaths.len - 1));
  }

  method ShiftDown(a: array<Path>, i: nat, n: nat)
    requires i < n <= a.Length
    modifies a
    ensures a[..n - 1] == RemoveAt(old(a[..n]), i)
    ensures a[..n] == RemoveAt(old(a[..n]), i) + [Last(old(a[..n]))]
  {
    ghost var before := a[..n];
    for j := i + 1 to n
      invariant a[..i] == before[..i]
      invariant forall m :: i <= m < j - 1 ==> a[m] == before[m + 1]
      invariant forall m :: j - 1 <= m < n ==> a[m] == before[m]
    {
      a[j - 1] := a[j];
    }
    assert a[..n - 1] == RemoveAt(before, i);
    assert a[..n] == a[..n - 1] + [a[n - 1]];
  }

  ghost predicate Sorted(list: seq<PeerPathEntry>) {
    forall i, j :: 0 <= i < j < |list| ==> list[i].usedPaths.len <= list[j].usedPaths.len
  }

  method InsertSorted(list: seq<PeerPathEntry>, e: PeerPathEntry) returns (r: seq<PeerPathEntry>)
    requires Sorted(list)
    ensures Sorted(r) && multiset(r) == multiset(list) + multiset{e}
  {
    var k := |list|;
    while k > 0 && list[k - 1].usedPaths.len > e.usedPaths.len
      invariant 0 <= k <= |list|
      invariant forall i :: k <= i < |list| ==> list[i].usedPaths.len > e.usedPaths.len
    {
      k := k - 1;
    }
    r := list[..k] + [e] + list[k..];
    InsertedMultiset(list, k, e);
  }

  /** sort.Slice by the number of used paths: some ascending order, ties broken in any way. */
  method SortPeerPathEntries(entries: seq<PeerPathEntry>) returns (sorted: seq<PeerPathEntry>)
    ensures Sorted(sorted) && multiset(sorted) == multiset(entries)
  {
    sorted := [];
    for n := 0 to |entries|
      invariant Sorted(sorted) && multiset(sorted) == multiset(entries[..n])
    {
      assert entries[..n + 1] == entries[..n] + [entries[n]];
      sorted := InsertSorted(sorted, entries[n]);
    }
    assert entries[..|entries|] == entries;
  }

  method FilterByMinimumUsedPaths(
    zero: PeerPathEntry, n: nat, entries: seq<PeerPathEntry>, min: int, ghost views: seq<Entry>)
    returns (newEntries: seq<PeerPathEntry>)
    requires IsZero(zero)
    requires Represents(entries, views)
    ensures Represents(newEntries, Filtered(n, views, min))
    ensures forall e :: e in newEntries ==> e == zero || e in entries
  {
    newEntries := seq(n, _ => zero);
    for k := 0 to |entries|
      invariant Represents(newEntries, Padding(n) + KeepAtLeast(views[..k], min))
      invariant forall e :: e in newEntries ==> e == zero || e in entries
    {
      assert Init(views[..k + 1]) == views[..k];
      if entries[k].usedPaths.len >= min {
        newEntries := newEntries + [entries[k]];
      }
    }
    assert views[..|entries|] == views;
  }

  /** The inner loop's search: the first list entry in conflict, and its conflicting path. */
  method FindTarget(path: Path, work: seq<PeerPathEntry>, ghost views: seq<Entry>) returns (t: int, c: int)
    requires Represents(work, views)
    ensures t == Target(path, views)
    ensures t >= 0 ==> c == ConflictIndex(path, views[t].used)
  {
    for i := 0 to |work|
      invariant forall j :: 0 <= j < i ==> ConflictIndex(path, views[j].used) < 0
    {
      c := GetPeerConflictPaths(path, work[i]);
      if c >= 0 {
        return i, c;
      }
    }
    return -1, -1;
  }

  method NewBacking(paths: seq<Path>) returns (backing: array<Path>)
    ensures fresh(backing) && backing[..] == paths
  {
    backing := new Path[|paths|](i requires 0 <= i < |paths| => paths[i]);
  }

  class PathSelectionStore {
    var Data: map<string, PeerPathEntry>
    ghost var Contents: Store           // what the entries hold, slices read out
    ghost var Repr: set<array<Path>>    // the backing arrays of all used paths

    /** Entries sit under their own address, and no two share a backing array. */
    ghost predicate Valid()
      reads this, Repr
    {
      && Contents.Keys == Data.Keys
      && WellKeyed(Contents)
      && (forall k :: k in Data ==> Data[k].usedPaths.backing in Repr && InBounds(Data[k].usedPaths))
      && (forall k :: k in Data ==> EntryView(Data[k]) == Contents[k])
      && (forall k, l :: k in Data && l in Data && k != l
            ==> Data[k].usedPaths.backing != Data[l].usedPaths.backing)
    }

    lemma ContentsAreKeyed()
      requires Valid()
      ensures WellKeyed(Contents) && Contents.Keys == Data.Keys
    {
    }

    constructor ()
      ensures Valid() && Data == map[] && Repr == {}
    {
      Data := map[];
      Contents := map[];
      Repr := {};
    }

    /** A list entry is padding or the very entry the map holds, slice and all. */
    ghost predicate Held(zero: PeerPathEntry, e: PeerPathEntry)
      reads this
    {
      e == zero || (e.peerAddrStr in Data && Data[e.peerAddrStr] == e)
    }

    /** The range over the map, in any order, behind as many zero entries. */
    method CopyEntries(zero: PeerPathEntry, ghost view: Store) returns (list: seq<PeerPathEntry>)
      requires view.Keys == Data.Keys && WellKeyed(view)
      requires forall k :: k in Data ==> Data[k].peerAddrStr == k && (Data[k] == zero ==> view[k] == ZERO_ENTRY)
      ensures forall e :: e in list ==> Held(zero, e)
      ensures multiset(Images(zero, view, list)) == multiset(Padding(|Data|)) + multiset(EntriesOf(view, view.Keys))
    {
      list := seq(|Data|, _ => zero);
      assert Images(zero, view, list) == Padding(|Data|);
      assert EntriesOf(view, {}) == {};
      hide Images;
      hide EntriesOf;
      hide WellKeyed;
      var keys := Data.Keys;
      ghost var done: set<string> := {};
      while keys != {}
        invariant keys <= Data.Keys && done == Data.Keys - keys
        invariant forall e :: e in list ==> Held(zero, e)
        invariant multiset(Images(zero, view, list)) == multiset(Padding(|Data|)) + multiset(EntriesOf(view, done))
      {
        var k :| k in keys;
        EntriesGrow(view, done, k);
        ImagesOneMore(zero, view, list, Data[k]);
        list := list + [Data[k]];
        done := done + {k};
        keys := keys - {k};
      }
      assert done == view.Keys;
    }

    /** The padded, sorted copy of the map's entries the allocation starts from. */
    method InitialWorkingList(zero: PeerPathEntry) returns (work: seq<PeerPathEntry>, ghost views: seq<Entry>)
      requires Valid() && IsZero(zero)
      ensures InStep(zero, work, views) && IsWorkingList(Contents, views)
    {
      ContentsFacts(zero);
      var list := CopyEntries(zero, Contents);
      work := SortPeerPathEntries(list);
      views := Images(zero, Contents, work);
      ImagesPermute(zero, Contents, work, list);
      forall e | e in work ensures Held(zero, e) {
        assert e in multiset(list);
      }
      ImagesRepresent(zero, work);
      InitialCoherence(Contents, views, []);
    }

    lemma ContentsFacts(zero: PeerPathEntry)
      requires Valid() && IsZero(zero)
      ensures |Contents| == |Data| && EntriesOf(Contents, Contents.Keys) == Contents.Values
      ensures forall k :: k in Data ==> Data[k].peerAddrStr == k && (Data[k] == zero ==> Contents[k] == ZERO_ENTRY)
    {
      assert |Contents| == |Contents.Keys| && |Data| == |Data.Keys|;
      forall k | k in Data ensures Data[k].peerAddrStr == k {
        assert EntryView(Data[k]) == Contents[k];
      }
    }

    lemma ImagesRepresent(zero: PeerPathEntry, work: seq<PeerPathEntry>)
      requires Valid() && IsZero(zero) && forall e :: e in work ==> Held(zero, e)
      ensures Represents(work, Images(zero, Contents, work))
      ensures Sorted(work) ==> Ascending(Images(zero, Contents, work))
    {
      forall i | 0 <= i < |work|
        ensures InBounds(work[i].usedPaths) && EntryView(work[i]) == Image(zero, Contents, work[i])
      {
        assert Held(zero, work[i]);
      }
      forall i | 0 <= i < |work| ensures |Image(zero, Contents, work[i]).used| == work[i].usedPaths.len {
        assert EntryView(work[i]) == Image(zero, Contents, work[i]);
      }
    }

    /** The working list is coherent with the map, in the heap and in what it stands for. */
    ghost predicate InStep(zero: PeerPathEntry, work: seq<PeerPathEntry>, views: seq<Entry>)
      reads this, set i | 0 <= i < |work| :: work[i].usedPaths.backing
    {
      && Represents(work, views)
      && (forall i :: 0 <= i < |work| ==> Held(zero, work[i]))
      && WorkCoherent(Contents, views)
    }

    lemma RobbedIsHeld(zero: PeerPathEntry, work: seq<PeerPathEntry>, views: seq<Entry>, t: nat)
      requires Valid() && IsZero(zero) && InStep(zero, work, views) && t < |work| && work[t].usedPaths.len > 0
      requires zero.usedPaths.backing !in Repr
      ensures work[t].peerAddrStr in Data && Data[work[t].peerAddrStr] == work[t] && views[t] != ZERO_ENTRY
      ensures forall j :: 0 <= j < |work| && j != t ==>
                work[j] == zero ||
                (work[j].peerAddrStr in Data && Data[work[j].peerAddrStr] == work[j]
                 && work[j].peerAddrStr != work[t].peerAddrStr)
      ensures forall j :: 0 <= j < |work| && j != t ==> work[j].usedPaths.backing != work[t].usedPaths.backing
    {
      assert Held(zero, work[t]);
      assert EntryView(work[t]) == views[t] && |views[t].used| == work[t].usedPaths.len;
      forall j | 0 <= j < |work| && j != t
        ensures work[j] == zero ||
                (work[j].peerAddrStr in Data && Data[work[j].peerAddrStr] == work[j]
                 && work[j].peerAddrStr != work[t].peerAddrStr)
        ensures work[j].usedPaths.backing != work[t].usedPaths.backing
      {
        assert Held(zero, work[j]) && EntryView(work[j]) == views[j];
      }
    }

    /** Lines 134 to 138: shift the victim's paths, store the shorter slice, and put it in the list. */
    method TakePath(zero: PeerPathEntry, work: seq<PeerPathEntry>, t: nat, c: nat, ghost views: seq<Entry>)
      returns (work': seq<PeerPathEntry>)
      requires Valid() && IsZero(zero) && zero.usedPaths.backing !in Repr
      requires InStep(zero, work, views) && t < |work| && c < work[t].usedPaths.len
      modifies this`Data, this`Contents, Repr
      ensures Valid()
      ensures var robbed := views[t].(used := RemoveAt(views[t].used, c));
              && Contents == old(Contents)[robbed.addr := robbed]
              && InStep(zero, work', views[t := robbed])
    {
      RobbedIsHeld(zero, work, views, t);
      ghost var data, contents := Data, Contents;
      ghost var robbed := views[t].(used := RemoveAt(views[t].used, c));
      ReplacedCoherent(contents, views, t, robbed);
      hide WorkCoherent;
      var targetEntry := RemovePathFromEntry(work[t], c);
      Data := Data[targetEntry.peerAddrStr := targetEntry];
      Contents := Contents[robbed.addr := robbed];
      work' := work[t := targetEntry];
      TakenStaysValid(data, contents, targetEntry, robbed);
      hide Valid;
      TakenFromList(zero, data, work, views, t, targetEntry, robbed);
    }

    lemma TakenStaysValid(data: map<string, PeerPathEntry>, contents: Store, target: PeerPathEntry, robbed: Entry)
      requires Data == data[target.peerAddrStr := target] && Contents == contents[robbed.addr := robbed]
      requires contents.Keys == data.Keys && WellKeyed(contents)
      requires robbed.addr == target.peerAddrStr && robbed.addr in data
      requires data[robbed.addr].usedPaths.backing == target.usedPaths.backing
      requires InBounds(target.usedPaths) && EntryView(target) == robbed
      requires forall k :: k in data ==> data[k].usedPaths.backing in Repr
      requires forall k :: k in data && k != robbed.addr ==>
                 InBounds(data[k].usedPaths) && EntryView(data[k]) == contents[k]
      requires forall k, l :: k in data && l in data && k != l ==>
                 data[k].usedPaths.backing != data[l].usedPaths.backing
      ensures Valid()
    {
    }

    lemma TakenFromList(zero: PeerPathEntry, data: map<string, PeerPathEntry>, work: seq<PeerPathEntry>,
                        views: seq<Entry>, t: nat, target: PeerPathEntry, robbed: Entry)
      requires t < |work| == |views| && Data == data[target.peerAddrStr := target]
      requires InBounds(target.usedPaths) && EntryView(target) == robbed
      requires forall j :: 0 <= j < |work| && j != t ==> InBounds(work[j].usedPaths) && EntryView(work[j]) == views[j]
      requires forall j :: 0 <= j < |work| && j != t ==>
                 work[j] == zero ||
                 (work[j].peerAddrStr in data && data[work[j].peerAddrStr] == work[j]
                  && work[j].peerAddrStr != target.peerAddrStr)
      ensures var work' := work[t := target];
              Represents(work', views[t := robbed]) && forall i :: 0 <= i < |work'| ==> Held(zero, work'[i])
    {
    }

    /** One round of the outer loop: look for the first peer in conflict, then grant, steal or deny. */
    method OfferPath(path: Path, zero: PeerPathEntry, work: seq<PeerPathEntry>, used: seq<Path>,
                     ghost st: Alloc)
      returns (work': seq<PeerPathEntry>, used': seq<Path>)
      requires Valid() && IsZero(zero) && zero.usedPaths.backing !in Repr
      requires InStep(zero, work, st.work) && Contents == st.data && used == st.used
      modifies this`Data, this`Contents, Repr
      ensures Valid()
      ensures var st' := Offer(st, path);
              Contents == st'.data && used' == st'.used && InStep(zero, work', st'.work)
    {
      work', used' := work, used;
      if |work| == 0 {
        used' := used + [path];
        return;
      }
      var found, conflictingPathIndex := FindTarget(path, work, st.work);
      if found < 0 {
        used' := used + [path];
        return;
      }
      assert EntryView(work[found]) == st.work[found];
      if work[found].usedPaths.len <= |used| {
        return;
      }
      work', used' := Steal(path, zero, work, used, found, conflictingPathIndex, st);
    }

    /** Lines 133 to 143 and 155: take the path, grant the new one, and filter the list. */
    method Steal(path: Path, zero: PeerPathEntry, work: seq<PeerPathEntry>, used: seq<Path>, t: nat, c: nat,
                 ghost st: Alloc)
      returns (work': seq<PeerPathEntry>, used': seq<Path>)
      requires Valid() && IsZero(zero) && zero.usedPaths.backing !in Repr
      requires InStep(zero, work, st.work) && Contents == st.data && used == st.used
      requires Steals(st, path) && t == Target(path, st.work) && c == ConflictIndex(path, st.work[t].used)
      requires c < work[t].usedPaths.len
      modifies this`Data, this`Contents, Repr
      ensures Valid()
      ensures var st' := Offer(st, path);
              Contents == st'.data && used' == st'.used && InStep(zero, work', st'.work)
    {
      ghost var robbed := Robbed(st, path);
      ghost var views := st.work[t := robbed];
      var shrunk := TakePath(zero, work, t, c, st.work);
      used' := used + [path];
      ContentsFacts(zero);
      work' := FilterByMinimumUsedPaths(zero, |Data|, shrunk, |used'|, views);
      FilterCoherent(Contents, |Data|, views, |used'|);
      forall i | 0 <= i < |work'| ensures Held(zero, work'[i]) {
        assert work'[i] == zero || work'[i] in shrunk;
      }
    }

    /** The outer loop. */
    method OfferPaths(availablePaths: seq<Path>, usedPaths: seq<Path>, zero: PeerPathEntry, work0: seq<PeerPathEntry>,
                      ghost st0: Alloc)
      returns (used: seq<Path>)
      requires Valid() && IsZero(zero) && zero.usedPaths.backing !in Repr
      requires InStep(zero, work0, st0.work) && Contents == st0.data && usedPaths == st0.used
      modifies this`Data, this`Contents, Repr
      ensures Valid()
      ensures Contents == OfferAll(st0, availablePaths).data && used == OfferAll(st0, availablePaths).used
    {
      var work := work0;
      ghost var st := st0;
      used := usedPaths;
      for n := 0 to |availablePaths|
        invariant Valid() && InStep(zero, work, st.work) && Contents == st.data && used == st.used
        invariant st == OfferAll(st0, availablePaths[..n])
      {
        work, used := OfferPath(availablePaths[n], zero, work, used, st);
        st := Offer(st, availablePaths[n]);
        assert Init(availablePaths[..n + 1]) == availablePaths[..n];
      }
      assert availablePaths[..|availablePaths|] == availablePaths;
    }

    /** The entry's used paths come as values: its slice shares no array with the store. */
    method AddPeerEntry(peerAddrStr: string, availablePaths: seq<Path>, usedPaths: seq<Path>)
      requires Valid()
      modifies this, Repr
      ensures Valid() && fresh(Repr - old(Repr))
      ensures CanAdd(old(Contents), Entry(peerAddrStr, availablePaths, usedPaths), Contents)
    {
      var nil := new Path[0];
      var zero := PeerPathEntry("", [], PathSlice(nil, 0));
      var work;
      ghost var views;
      work, views := InitialWorkingList(zero);
      ghost var st0 := Alloc(Contents, views, usedPaths);
      var used := OfferPaths(availablePaths, usedPaths, zero, work, st0);
      var kept := GetConflictFreePaths(used);
      StoreEntry(peerAddrStr, availablePaths, kept);
      AddedCanAdd(st0.data, Entry(peerAddrStr, availablePaths, usedPaths), views, Contents);
    }

    /** Line 161, with the kept paths in a new array of their own. */
    method StoreEntry(peerAddrStr: string, availablePaths: seq<Path>, kept: seq<Path>)
      requires Valid()
      modifies this
      ensures Valid() && fresh(Repr - old(Repr)) && old(Repr) <= Repr
      ensures Contents == old(Contents)[peerAddrStr := Entry(peerAddrStr, availablePaths, kept)]
    {
      var backing := NewBacking(kept);
      var entry := PeerPathEntry(peerAddrStr, availablePaths, PathSlice(backing, |kept|));
      assert backing[..|kept|] == backing[..] == kept;
      assert EntryView(entry) == Entry(peerAddrStr, availablePaths, kept);
      Data := Data[peerAddrStr := entry];
      Contents := Contents[peerAddrStr := Entry(peerAddrStr, availablePaths, kept)];
      Repr := Repr + {backing};
    }

    /** Get: the zero value where the key is missing. */
    method Get(id: string) returns (e: PeerPathEntry)
      ensures id in Data ==> e == Data[id]
      ensures id !in Data ==> IsZero(e)
    {
      if id in Data {
        e := Data[id];
      } else {
        var nil := new Path[0];
        e := PeerPathEntry("", [], PathSlice(nil, 0));
      }
    }

    /** delete(s.pathStore.Data, id), as the server does on disconnect. */
    method Delete(id: string)
      requires Valid()
      modifies this
      ensures Valid() && Data == old(Data) - {id} && Contents == old(Contents) - {id}
      ensures Repr == old(Repr)
    {
      Data := Data - {id};
      Contents := Contents - {id};
    }
  }

  /** The entry a working-list entry stands for. */
  ghost function Image(zero: PeerPathEntry, view: Store, e: PeerPathEntry): Entry {
    if e == zero || e.peerAddrStr !in view then ZERO_ENTRY else view[e.peerAddrStr]
  }

  ghost function Images(zero: PeerPathEntry, view: Store, list: seq<PeerPathEntry>): seq<Entry> {
    seq(|list|, i requires 0 <= i < |list| => Image(zero, view, list[i]))
  }

  /** Permuting a list permutes what it stands for. */
  lemma {:induction false} ImagesPermute(zero: PeerPathEntry, view: Store, s: seq<PeerPathEntry>, t: seq<PeerPathEntry>)
    requires multiset(s) == multiset(t)
    ensures multiset(Images(zero, view, s)) == multiset(Images(zero, view, t))
    decreases |s|
  {
    assert |multiset(s)| == |multiset(t)|;
    if s != [] {
      assert s[0] in multiset(t);
      var i :| 0 <= i < |t| && t[i] == s[0];
      RemovedMultiset(s, 0);
      RemovedMultiset(t, i);
      CancelOne(multiset(RemoveAt(s, 0)), multiset(RemoveAt(t, i)), s[0]);
      ImagesPermute(zero, view, RemoveAt(s, 0), RemoveAt(t, i));
      ImagesRemove(zero, view, s, 0);
      ImagesRemove(zero, view, t, i);
      RemovedMultiset(Images(zero, view, s), 0);
      RemovedMultiset(Images(zero, view, t), i);
    }
  }

  lemma ImagesOneMore(zero: PeerPathEntry, view: Store, list: seq<PeerPathEntry>, e: PeerPathEntry)
    ensures Images(zero, view, list + [e]) == Images(zero, view, list) + [Image(zero, view, e)]
  {
  }

  lemma ImagesRemove(zero: PeerPathEntry, view: Store, s: seq<PeerPathEntry>, i: nat)
    requires i < |s|
    ensures Images(zero, view, RemoveAt(s, i)) == RemoveAt(Images(zero, view, s), i)
  {
  }

  ghost function EntriesOf(view: Store, keys: set<string>): set<Entry> {
    set k | k in keys && k in view :: view[k]
  }

  lemma EntriesGrow(view: Store, keys: set<string>, k: string)
    requires WellKeyed(view) && k in view && k !in keys
    ensures multiset(EntriesOf(view, keys + {k})) == multiset(EntriesOf(view, keys)) + multiset{view[k]}
  {
    assert EntriesOf(view, keys + {k}) == EntriesOf(view, keys) + {view[k]};
    assert view[k] !in EntriesOf(view, keys);
  }

  lemma RemovedMultiset<T>(s: seq<T>, i: nat)
    requires i < |s|
    ensures multiset(RemoveAt(s, i)) + multiset{s[i]} == multiset(s)
  {
    assert s == s[..i] + [s[i]] + s[i + 1..];
  }

  lemma InsertedMultiset<T>(s: seq<T>, k: nat, e: T)
    requires k <= |s|
    ensures multiset(s[..k] + [e] + s[k..]) == multiset(s) + multiset{e}
  {
    assert s == s[..k] + s[k..];
  }

  lemma CancelOne<T>(a: multiset<T>, b: multiset<T>, e: T)
    requires a + multiset{e} == b + multiset{e}
    ensures a == b
  {
    forall x ensures a[x] == b[x] {
      assert (a + multiset{e})[x] == (b + multiset{e})[x];
    }
  }
}
