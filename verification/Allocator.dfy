/** What one AddPeerEntry does to the path store, as a function of the order its working list
    starts in (pathselection/pathselectionstore.go). Map iteration order and sort ties choose that
    order, so what is proved here is proved for every order. */
module Allocator {
  import opened Paths

  datatype Entry = Entry(addr: string, available: seq<Path>, used: seq<Path>)

  type Store = map<string, Entry>

  /** The zero value make fills a slice of entries with. */
  const ZERO_ENTRY: Entry := Entry("", [], [])

  ghost predicate WellKeyed(data: Store) {
    forall k :: k in data ==> data[k].addr == k
  }

  function Padding(n: nat): seq<Entry> {
    seq(n, _ => ZERO_ENTRY)
  }

  ghost predicate Ascending(work: seq<Entry>) {
    forall i, j :: 0 <= i < j < |work| ==> |work[i].used| <= |work[j].used|
  }

  /** The lists the sorted working list can be: the map's entries in any order, padded with as
      many zero entries, ascending in the number of used paths. */
  ghost predicate IsWorkingList(data: Store, work: seq<Entry>) {
    && multiset(work) == multiset(Padding(|data|)) + multiset(data.Values)
    && Ascending(work)
  }

  // The steps

  /** The first used path the given path conflicts with, or -1. */
  ghost function ConflictIndex(path: Path, used: seq<Path>): (c: int)
    ensures -1 <= c < |used|
    ensures c >= 0 ==> Conflict(path, used[c])
    ensures forall k :: 0 <= k < (if c >= 0 then c else |used|) ==> !Conflict(path, used[k])
  {
    if used == [] then -1
    else if Conflict(path, used[0]) then 0
    else
      var c := ConflictIndex(path, used[1..]);
      assert forall k :: 1 <= k < |used| ==> used[k] == used[1..][k - 1];
      if c < 0 then -1 else c + 1
  }

  /** The first entry of the working list that the path conflicts with, or -1. */
  ghost function Target(path: Path, work: seq<Entry>): (i: int)
    ensures -1 <= i < |work|
    ensures i >= 0 ==> ConflictIndex(path, work[i].used) >= 0
    ensures forall j :: 0 <= j < (if i >= 0 then i else |work|) ==> ConflictIndex(path, work[j].used) < 0
  {
    if work == [] then -1
    else if ConflictIndex(path, work[0].used) >= 0 then 0
    else
      var i := Target(path, work[1..]);
      assert forall j :: 1 <= j < |work| ==> work[j] == work[1..][j - 1];
      if i < 0 then -1 else i + 1
  }

  lemma TargetComesFirst(path: Path, work: seq<Entry>, j: nat)
    requires j < |work| && ConflictIndex(path, work[j].used) >= 0
    ensures 0 <= Target(path, work) <= j
  {
  }

  function RemoveAt<T>(s: seq<T>, i: nat): (r: seq<T>)
    requires i < |s|
    ensures |r| == |s| - 1
  {
    s[..i] + s[i + 1..]
  }

  /** The entries that use at least min paths, in order. */
  function KeepAtLeast(entries: seq<Entry>, min: int): seq<Entry>
    decreases |entries|
  {
    if entries == [] then []
    else
      var kept := KeepAtLeast(Init(entries), min);
      if |Last(entries).used| >= min then kept + [Last(entries)] else kept
  }

  /** filterByMinimumUsedPaths, with n the size of the store. */
  function Filtered(n: nat, entries: seq<Entry>, min: int): seq<Entry> {
    Padding(n) + KeepAtLeast(entries, min)
  }

  /** The variables of AddPeerEntry: the store, the working list and the new peer's paths. */
  datatype Alloc = Alloc(data: Store, work: seq<Entry>, used: seq<Path>)

  ghost function Victim(st: Alloc, path: Path): Entry
    requires Target(path, st.work) >= 0
  {
    st.work[Target(path, st.work)]
  }

  /** The guard: the peer that holds the conflicting path uses more paths than the new peer. */
  ghost predicate Steals(st: Alloc, path: Path) {
    Target(path, st.work) >= 0 && |Victim(st, path).used| > |st.used|
  }

  ghost function Robbed(st: Alloc, path: Path): Entry
    requires Target(path, st.work) >= 0
  {
    var victim := Victim(st, path);
    victim.(used := RemoveAt(victim.used, ConflictIndex(path, victim.used)))
  }

  /** One round of the outer loop. */
  ghost function Offer(st: Alloc, path: Path): Alloc {
    if Target(path, st.work) < 0 then st.(used := st.used + [path])
    else if !Steals(st, path) then st
    else
      var robbed := Robbed(st, path);
      var data := st.data[robbed.addr := robbed];
      var used := st.used + [path];
      Alloc(data, Filtered(|data|, st.work[Target(path, st.work) := robbed], |used|), used)
  }

  ghost function OfferAll(st: Alloc, paths: seq<Path>): Alloc
    decreases |paths|
  {
    if paths == [] then st else Offer(OfferAll(st, Init(paths)), Last(paths))
  }

  /** The working state after every path of the entry was offered. */
  ghost function Offered(data: Store, entry: Entry, work: seq<Entry>): Alloc {
    OfferAll(Alloc(data, work, entry.used), entry.available)
  }

  /** The store AddPeerEntry leaves. */
  ghost function Added(data: Store, entry: Entry, work: seq<Entry>): Store {
    var st := Offered(data, entry, work);
    st.data[entry.addr := entry.(used := Greedy(st.used))]
  }

  /** after is what AddPeerEntry can leave, for some map and sort order. */
  ghost predicate CanAdd(before: Store, entry: Entry, after: Store) {
    exists work :: IsWorkingList(before, work) && after == Added(before, entry, work)
  }

  lemma AddedCanAdd(before: Store, entry: Entry, work: seq<Entry>, after: Store)
    requires IsWorkingList(before, work)
    requires var st := Offered(before, entry, work);
             after == st.data[entry.addr := entry.(used := Greedy(st.used))]
    ensures CanAdd(before, entry, after)
  {
  }

  // Coherence of the working list

  ghost predicate Backed(data: Store, e: Entry) {
    e == ZERO_ENTRY || (e.addr in data && data[e.addr] == e)
  }

  /** Every entry that is not padding is the store's own, and each key occurs once. */
  ghost predicate WorkCoherent(data: Store, work: seq<Entry>) {
    && (forall i :: 0 <= i < |work| ==> Backed(data, work[i]))
    && (forall i, j :: 0 <= i < j < |work| && work[i] != ZERO_ENTRY && work[j] != ZERO_ENTRY
          ==> work[i].addr != work[j].addr)
  }

  /** What every round keeps: coherence, the keys, everybody's available paths, and that used
      paths only ever leave a store entry. */
  ghost predicate Coherent(data0: Store, st: Alloc) {
    && WellKeyed(st.data)
    && st.data.Keys == data0.Keys
    && WorkCoherent(st.data, st.work)
    && (forall k :: k in data0 ==> st.data[k].available == data0[k].available)
    && (forall k :: k in data0 ==> Thinned(data0[k].used, st.data[k].used, st.used))
  }

  /** The paths that were used, with some left out, each of which conflicts with a granted path. */
  ghost predicate Thinned(was: seq<Path>, now: seq<Path>, granted: seq<Path>)
    decreases |was|
  {
    if was == [] then now == []
    else
      || (now != [] && Last(now) == Last(was) && Thinned(Init(was), Init(now), granted))
      || (ConflictsWithSome(Last(was), granted) && Thinned(Init(was), now, granted))
  }

  lemma {:induction false} NothingThinned(used: seq<Path>, granted: seq<Path>)
    ensures Thinned(used, used, granted)
    decreases |used|
  {
    if used != [] {
      NothingThinned(Init(used), granted);
    }
  }

  lemma {:induction false} ThinnedMonotone(was: seq<Path>, now: seq<Path>, granted: seq<Path>, more: seq<Path>)
    requires Thinned(was, now, granted) && granted <= more
    ensures Thinned(was, now, more)
    decreases |was|
  {
    if was != [] {
      if now != [] && Last(now) == Last(was) && Thinned(Init(was), Init(now), granted) {
        ThinnedMonotone(Init(was), Init(now), granted, more);
      } else {
        ThinnedMonotone(Init(was), now, granted, more);
      }
    }
  }

  lemma {:induction false} ThinnedOnceMore(was: seq<Path>, now: seq<Path>, c: nat, granted: seq<Path>)
    requires Thinned(was, now, granted) && c < |now| && ConflictsWithSome(now[c], granted)
    ensures Thinned(was, RemoveAt(now, c), granted)
    decreases |was|
  {
    if now != [] && Last(now) == Last(was) && Thinned(Init(was), Init(now), granted) {
      if c == |now| - 1 {
        assert RemoveAt(now, c) == Init(now);
      } else {
        ThinnedOnceMore(Init(was), Init(now), c, granted);
        var r := RemoveAt(now, c);
        assert Init(r) == RemoveAt(Init(now), c);
      }
    } else {
      ThinnedOnceMore(Init(was), now, c, granted);
    }
  }

  lemma {:induction false} ThinnedIsSubsequence(was: seq<Path>, now: seq<Path>, granted: seq<Path>)
    requires Thinned(was, now, granted)
    ensures Subsequence(now, was) && |now| <= |was|
    decreases |was|
  {
    if was != [] {
      if now != [] && Last(now) == Last(was) && Thinned(Init(was), Init(now), granted) {
        ThinnedIsSubsequence(Init(was), Init(now), granted);
      } else {
        ThinnedIsSubsequence(Init(was), now, granted);
      }
    }
  }

  /** Counted with multiplicity, every path that was lost conflicts with a granted one. */
  lemma {:induction false} ThinnedLosesOnlyConflicting(was: seq<Path>, now: seq<Path>, granted: seq<Path>, p: Path)
    requires Thinned(was, now, granted)
    ensures multiset(now)[p] <= multiset(was)[p]
    ensures multiset(now)[p] < multiset(was)[p] ==> ConflictsWithSome(p, granted)
    decreases |was|
  {
    if was != [] {
      assert was == Init(was) + [Last(was)];
      if now != [] && Last(now) == Last(was) && Thinned(Init(was), Init(now), granted) {
        assert now == Init(now) + [Last(now)];
        ThinnedLosesOnlyConflicting(Init(was), Init(now), granted, p);
      } else {
        ThinnedLosesOnlyConflicting(Init(was), now, granted, p);
      }
    }
  }

  lemma {:induction false} NoConflictNothingThinned(was: seq<Path>, now: seq<Path>, granted: seq<Path>)
    requires Thinned(was, now, granted)
    requires forall p :: p in was ==> !ConflictsWithSome(p, granted)
    ensures now == was
    decreases |was|
  {
    if was != [] {
      NoConflictNothingThinned(Init(was), Init(now), granted);
      assert was == Init(was) + [Last(was)];
      assert now == Init(now) + [Last(now)];
    }
  }

  lemma TwiceInMultiset(s: seq<Entry>, i: int, j: int)
    requires 0 <= i < j < |s| && s[i] == s[j]
    ensures multiset(s)[s[i]] >= 2
  {
    assert s == s[..i] + [s[i]] + s[i + 1..j] + [s[j]] + s[j + 1..];
  }

  lemma {:induction false} PaddingIsZero(n: nat, e: Entry)
    requires e != ZERO_ENTRY
    ensures multiset(Padding(n))[e] == 0
  {
    if n > 0 {
      assert Padding(n) == Padding(n - 1) + [ZERO_ENTRY];
      PaddingIsZero(n - 1, e);
    }
  }

  /** Whatever the map and sort order, the list the loop starts with is coherent and complete. */
  lemma InitialCoherence(data: Store, work: seq<Entry>, used: seq<Path>)
    requires WellKeyed(data) && IsWorkingList(data, work)
    ensures Coherent(data, Alloc(data, work, used))
    ensures forall k :: k in data ==> data[k] in work
  {
    forall i | 0 <= i < |work| ensures Backed(data, work[i]) {
      assert work[i] in multiset(work);
      if work[i] != ZERO_ENTRY {
        PaddingIsZero(|data|, work[i]);
        assert work[i] in data.Values;
      }
    }
    forall i, j | 0 <= i < j < |work| && work[i] != ZERO_ENTRY && work[j] != ZERO_ENTRY
      ensures work[i].addr != work[j].addr
    {
      if work[i].addr == work[j].addr {
        assert Backed(data, work[i]) && Backed(data, work[j]);
        TwiceInMultiset(work, i, j);
        PaddingIsZero(|data|, work[i]);
      }
    }
    forall k | k in data ensures Thinned(data[k].used, data[k].used, used) && data[k] in work {
      NothingThinned(data[k].used, used);
      assert data[k] in data.Values;
      assert data[k] in multiset(work);
    }
  }

  lemma {:induction false} KeepKeeps(entries: seq<Entry>, min: int)
    ensures forall e :: e in KeepAtLeast(entries, min) <==> e in entries && |e.used| >= min
    decreases |entries|
  {
    if entries != [] {
      KeepKeeps(Init(entries), min);
      assert entries == Init(entries) + [Last(entries)];
    }
  }

  lemma {:induction false} KeepCoherent(data: Store, entries: seq<Entry>, min: int)
    requires WorkCoherent(data, entries)
    ensures WorkCoherent(data, KeepAtLeast(entries, min))
    decreases |entries|
  {
    if entries != [] {
      KeepCoherent(data, Init(entries), min);
      KeepKeeps(Init(entries), min);
      var kept := KeepAtLeast(Init(entries), min);
      forall e | e in kept && e != ZERO_ENTRY && Last(entries) != ZERO_ENTRY ensures e.addr != Last(entries).addr {
        var i :| 0 <= i < |Init(entries)| && Init(entries)[i] == e;
        assert entries[i] == e;
      }
    }
  }

  lemma FilterCoherent(data: Store, n: nat, entries: seq<Entry>, min: int)
    requires WorkCoherent(data, entries)
    ensures WorkCoherent(data, Filtered(n, entries, min))
  {
    KeepCoherent(data, entries, min);
    var kept := KeepAtLeast(entries, min);
    var filtered := Filtered(n, entries, min);
    assert forall i :: 0 <= i < |filtered| ==> filtered[i] == if i < n then ZERO_ENTRY else kept[i - n];
  }

  /** Replacing an entry in the list and in the store at once keeps them in step. */
  lemma ReplacedCoherent(data: Store, work: seq<Entry>, t: nat, e: Entry)
    requires WorkCoherent(data, work) && t < |work| && work[t] != ZERO_ENTRY && e.addr == work[t].addr
    ensures WorkCoherent(data[e.addr := e], work[t := e])
  {
    var data', work' := data[e.addr := e], work[t := e];
    forall i | 0 <= i < |work'| ensures Backed(data', work'[i]) {
      assert Backed(data, work[i]);
    }
  }

  /** A theft is from a real store entry, and leaves list and store in step. */
  lemma TheftCoherent(data0: Store, st: Alloc, path: Path)
    requires Coherent(data0, st) && Steals(st, path)
    ensures var victim := Victim(st, path);
            victim.addr in st.data && st.data[victim.addr] == victim
    ensures WorkCoherent(st.data[Robbed(st, path).addr := Robbed(st, path)],
                         st.work[Target(path, st.work) := Robbed(st, path)])
  {
    assert Backed(st.data, st.work[Target(path, st.work)]);
    ReplacedCoherent(st.data, st.work, Target(path, st.work), Robbed(st, path));
  }

  /** One round keeps coherence. */
  lemma OfferCoherent(data0: Store, st: Alloc, path: Path)
    requires Coherent(data0, st)
    ensures Coherent(data0, Offer(st, path))
  {
    var st' := Offer(st, path);
    assert st.used <= st'.used;
    forall k | k in data0 ensures Thinned(data0[k].used, st.data[k].used, st'.used) {
      ThinnedMonotone(data0[k].used, st.data[k].used, st.used, st'.used);
    }
    if Steals(st, path) {
      TheftCoherent(data0, st, path);
      var victim, robbed := Victim(st, path), Robbed(st, path);
      var c := ConflictIndex(path, victim.used);
      ConflictIsSymmetric(path, victim.used[c]);
      assert path in st'.used && Conflict(victim.used[c], path);
      ThinnedOnceMore(data0[victim.addr].used, victim.used, c, st'.used);
      FilterCoherent(st'.data, |st'.data|, st.work[Target(path, st.work) := robbed], |st'.used|);
    }
  }

  lemma {:induction false} OfferAllCoherent(data0: Store, st: Alloc, paths: seq<Path>)
    requires Coherent(data0, st)
    ensures Coherent(data0, OfferAll(st, paths))
    decreases |paths|
  {
    if paths != [] {
      OfferAllCoherent(data0, st, Init(paths));
      OfferCoherent(data0, OfferAll(st, Init(paths)), Last(paths));
    }
  }
}
