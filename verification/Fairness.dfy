/** How much one AddPeerEntry can take from the other peers, what it takes and what it leaves
    unchanged: for every order of the working list. */
module Fairness {
  import opened Paths
  import opened Allocator

  // The theft bounds

  ghost function Lost(data0: Store, data: Store, k: string): int
    requires k in data0 && k in data
  {
    |data0[k].used| - |data[k].used|
  }

  /** Used paths summed over a set of peers. */
  ghost function Total(data: Store, keys: set<string>): nat
    requires keys <= data.Keys
  {
    if keys == {} then 0
    else
      var k :| k in keys;
      |data[k].used| + Total(data, keys - {k})
  }

  lemma {:induction false} TotalSplit(data: Store, keys: set<string>, k: string)
    requires keys <= data.Keys && k in keys
    ensures Total(data, keys) == |data[k].used| + Total(data, keys - {k})
    decreases |keys|
  {
    var m :| m in keys && Total(data, keys) == |data[m].used| + Total(data, keys - {m});
    if m != k {
      TotalSplit(data, keys - {m}, k);
      TotalSplit(data, keys - {k}, m);
      assert keys - {m} - {k} == keys - {k} - {m};
    }
  }

  lemma {:induction false} TotalSame(data: Store, data': Store, keys: set<string>)
    requires keys <= data.Keys && keys <= data'.Keys
    requires forall k :: k in keys ==> |data[k].used| == |data'[k].used|
    ensures Total(data, keys) == Total(data', keys)
    decreases |keys|
  {
    if keys != {} {
      var k :| k in keys;
      TotalSplit(data, keys, k);
      TotalSplit(data', keys, k);
      TotalSame(data, data', keys - {k});
    }
  }

  /** The accounting every round keeps: nobody lost more than the new peer gained, a peer that lost
      paths had more than twice as many less one, and all losses of the watched peers together
      are bounded by what one of them had. */
  ghost predicate Bounded(data0: Store, st: Alloc, others: set<string>) {
    && others <= data0.Keys == st.data.Keys
    && (forall k :: k in data0 ==> 0 <= Lost(data0, st.data, k) <= |st.used|)
    && (forall k :: k in data0 && Lost(data0, st.data, k) > 0
          ==> 2 * Lost(data0, st.data, k) <= |data0[k].used| + 1)
    && 0 <= Total(data0, others) - Total(st.data, others) <= |st.used|
    && (Total(data0, others) > Total(st.data, others) ==>
          exists k :: k in others && Total(data0, others) - Total(st.data, others) <= |data0[k].used|)
  }

  lemma OfferBounded(data0: Store, st: Alloc, path: Path, others: set<string>)
    requires Coherent(data0, st) && Bounded(data0, st, others)
    ensures Bounded(data0, Offer(st, path), others)
  {
    var st' := Offer(st, path);
    if Steals(st, path) {
      TheftCoherent(data0, st, path);
      var victim := Victim(st, path);
      assert st'.data.Keys == st.data.Keys;
      assert Lost(data0, st'.data, victim.addr) == Lost(data0, st.data, victim.addr) + 1;
      if victim.addr in others {
        TotalSplit(st.data, others, victim.addr);
        TotalSplit(st'.data, others, victim.addr);
        TotalSame(st.data, st'.data, others - {victim.addr});
        assert Total(st'.data, others) == Total(st.data, others) - 1;
        assert Total(data0, others) - Total(st'.data, others) <= |data0[victim.addr].used|;
      } else {
        TotalSame(st.data, st'.data, others);
      }
    } else {
      assert st'.data == st.data;
    }
  }

  lemma {:induction false} OfferAllBounded(data0: Store, st: Alloc, paths: seq<Path>, others: set<string>)
    requires Coherent(data0, st) && Bounded(data0, st, others)
    ensures Bounded(data0, OfferAll(st, paths), others)
    decreases |paths|
  {
    if paths != [] {
      OfferAllBounded(data0, st, Init(paths), others);
      OfferAllCoherent(data0, st, Init(paths));
      OfferBounded(data0, OfferAll(st, Init(paths)), Last(paths), others);
    }
  }

  /** Theft bound. Every other peer keeps at least half of its used paths, rounded down, and the
      paths taken from all other peers together are no more than one of them had. */
  lemma TheftBound(data: Store, entry: Entry, work: seq<Entry>)
    requires WellKeyed(data) && IsWorkingList(data, work)
    ensures var others := data.Keys - {entry.addr};
            var after := Added(data, entry, work);
            && after.Keys == data.Keys + {entry.addr}
            && (forall k :: k in others ==> |data[k].used| / 2 <= |after[k].used| <= |data[k].used|)
            && (Total(after, others) == Total(data, others) ||
                exists k :: k in others && 0 < Total(data, others) - Total(after, others) <= |data[k].used|)
  {
    var others := data.Keys - {entry.addr};
    var st := Offered(data, entry, work);
    InitialCoherence(data, work, entry.used);
    OfferAllCoherent(data, Alloc(data, work, entry.used), entry.available);
    OfferAllBounded(data, Alloc(data, work, entry.used), entry.available, others);
    TotalSame(st.data, Added(data, entry, work), others);
    hide IsWorkingList;
    hide Coherent;
    hide OfferAll;
    hide Greedy;
    forall k | k in others ensures |data[k].used| / 2 <= |st.data[k].used| <= |data[k].used| {
      assert 0 <= Lost(data, st.data, k);
    }
  }

  /** The store keeps its old keys and gains the new one; every entry is under its own address, and
      no other peer's available paths change. */
  lemma OthersKeepTheirPlace(data: Store, entry: Entry, work: seq<Entry>)
    requires WellKeyed(data) && IsWorkingList(data, work)
    ensures var after := Added(data, entry, work);
            && WellKeyed(after)
            && after.Keys == data.Keys + {entry.addr}
            && after[entry.addr].available == entry.available
            && (forall k :: k in data && k != entry.addr ==> after[k].available == data[k].available)
  {
    InitialCoherence(data, work, entry.used);
    OfferAllCoherent(data, Alloc(data, work, entry.used), entry.available);
    hide IsWorkingList;
    hide WorkCoherent;
    hide Thinned;
    hide OfferAll;
    hide Greedy;
  }

  ghost predicate NotInWork(work: seq<Entry>, k: string) {
    forall e :: e in work && e != ZERO_ENTRY ==> e.addr != k
  }

  lemma FilterLeavesOut(n: nat, work: seq<Entry>, min: int, k: string)
    requires NotInWork(work, k)
    ensures NotInWork(Filtered(n, work, min), k)
  {
    KeepKeeps(work, min);
    forall e | e in Filtered(n, work, min) && e != ZERO_ENTRY ensures e.addr != k {
      assert e in Padding(n) || e in KeepAtLeast(work, min);
    }
  }

  lemma OfferLeavesAlone(st: Alloc, path: Path, k: string)
    requires k in st.data && NotInWork(st.work, k)
    ensures var st' := Offer(st, path);
            k in st'.data && st'.data[k] == st.data[k] && NotInWork(st'.work, k)
  {
    if Steals(st, path) {
      var t, robbed := Target(path, st.work), Robbed(st, path);
      assert st.work[t] in st.work && robbed.addr != k;
      var work := st.work[t := robbed];
      forall e | e in work && e != ZERO_ENTRY ensures e.addr != k {
        assert e == robbed || e in st.work;
      }
      hide Filtered;
      FilterLeavesOut(|st.data[robbed.addr := robbed]|, work, |st.used| + 1, k);
    }
  }

  /** Once a store entry has left the working list, nothing more is taken from it. */
  lemma {:induction false} FilteredOutIsFrozen(st: Alloc, paths: seq<Path>, k: string)
    requires k in st.data && NotInWork(st.work, k)
    ensures var st' := OfferAll(st, paths);
            k in st'.data && st'.data[k] == st.data[k] && NotInWork(st'.work, k)
    decreases |paths|
  {
    hide Offer;
    hide NotInWork;
    if paths != [] {
      FilteredOutIsFrozen(st, Init(paths), k);
      OfferLeavesAlone(OfferAll(st, Init(paths)), Last(paths), k);
    }
  }

  // What is taken and what is refused

  lemma {:induction false} GrantedAreOffered(st: Alloc, paths: seq<Path>)
    ensures Subsequence(OfferAll(st, paths).used, st.used + paths)
    decreases |paths|
  {
    if paths == [] {
      assert st.used + paths == st.used;
      SubsequenceReflexive(st.used);
    } else {
      GrantedAreOffered(st, Init(paths));
      var before, after := OfferAll(st, Init(paths)).used, OfferAll(st, paths).used;
      assert Init(st.used + paths) == st.used + Init(paths);
      if after != before {
        assert Init(after) == before;
      }
    }
  }

  lemma GreedyExplains(granted: seq<Path>, g: Path)
    requires g in granted
    ensures g in Greedy(granted) || ConflictsWithSome(g, Greedy(granted))
  {
    var n :| 0 <= n < |granted| && granted[n] == g;
    GreedyIsMaximal(granted, n);
  }

  /** Justified loss. Another peer's used paths stay in order and only lose paths that conflict with
      a path granted to the new peer; that path is kept in the end or conflicts with a kept one. */
  lemma LossIsJustified(data: Store, entry: Entry, work: seq<Entry>, k: string, p: Path)
    requires WellKeyed(data) && IsWorkingList(data, work)
    requires k in data && k != entry.addr
    ensures var after := Added(data, entry, work);
            && k in after
            && Subsequence(after[k].used, data[k].used)
            && multiset(after[k].used)[p] <= multiset(data[k].used)[p]
            && (multiset(after[k].used)[p] < multiset(data[k].used)[p] ==>
                  exists g :: g in Offered(data, entry, work).used && g in entry.used + entry.available
                    && Conflict(p, g)
                    && (g in after[entry.addr].used || ConflictsWithSome(g, after[entry.addr].used)))
  {
    var st := Offered(data, entry, work);
    InitialCoherence(data, work, entry.used);
    OfferAllCoherent(data, Alloc(data, work, entry.used), entry.available);
    ThinnedIsSubsequence(data[k].used, st.data[k].used, st.used);
    ThinnedLosesOnlyConflicting(data[k].used, st.data[k].used, st.used, p);
    if multiset(st.data[k].used)[p] < multiset(data[k].used)[p] {
      var g :| g in st.used && Conflict(p, g);
      GreedyExplains(st.used, g);
      GrantedAreOffered(Alloc(data, work, entry.used), entry.available);
      SubsequenceContains(st.used, entry.used + entry.available, g);
    }
  }

  lemma SubsequenceContains(a: seq<Path>, b: seq<Path>, p: Path)
    requires Subsequence(a, b) && p in a
    ensures p in b
  {
    var i :| 0 <= i < |a| && a[i] == p;
    var i' := SubsequenceMember(a, b, i);
  }

  ghost predicate InUse(data: Store, q: Path) {
    exists k :: k in data && q in data[k].used
  }

  ghost predicate ConflictsInUse(data: Store, p: Path) {
    exists q :: InUse(data, q) && Conflict(p, q)
  }

  lemma {:induction false} DenialsConflict(data0: Store, st: Alloc, paths: seq<Path>, p: Path)
    requires Coherent(data0, st) && p in paths
    ensures p in OfferAll(st, paths).used || ConflictsInUse(data0, p)
    decreases |paths|
  {
    var s := OfferAll(st, Init(paths));
    OfferAllCoherent(data0, st, Init(paths));
    if p in Init(paths) {
      DenialsConflict(data0, st, Init(paths), p);
      assert s.used <= Offer(s, Last(paths)).used;
    } else {
      assert paths == Init(paths) + [Last(paths)];
      var t := Target(p, s.work);
      if t >= 0 {
        var victim := Victim(s, p);
        var q := victim.used[ConflictIndex(p, victim.used)];
        assert Backed(s.data, s.work[t]);
        ThinnedIsSubsequence(data0[victim.addr].used, victim.used, s.used);
        SubsequenceContains(victim.used, data0[victim.addr].used, q);
        assert InUse(data0, q);
      }
    }
  }

  /** Justified denial. An available path that is not used in the end conflicts with a path in use
      before the call, or with a path the new peer does use. */
  lemma DenialIsJustified(data: Store, entry: Entry, work: seq<Entry>, p: Path)
    requires WellKeyed(data) && IsWorkingList(data, work) && p in entry.available
    ensures var used := Added(data, entry, work)[entry.addr].used;
            p in used || ConflictsWithSome(p, used) || ConflictsInUse(data, p)
  {
    InitialCoherence(data, work, entry.used);
    DenialsConflict(data, Alloc(data, work, entry.used), entry.available, p);
    if p in Offered(data, entry, work).used {
      GreedyExplains(Offered(data, entry, work).used, p);
    }
  }

  /** A peer none of whose used paths conflicts with a path of the new peer keeps its entry as it is. */
  lemma BystanderUnchanged(data: Store, entry: Entry, work: seq<Entry>, k: string)
    requires WellKeyed(data) && IsWorkingList(data, work)
    requires k in data && k != entry.addr
    requires forall p :: p in data[k].used ==> !ConflictsWithSome(p, entry.used + entry.available)
    ensures var after := Added(data, entry, work);
            k in after && after[k] == data[k]
  {
    var st := Offered(data, entry, work);
    InitialCoherence(data, work, entry.used);
    OfferAllCoherent(data, Alloc(data, work, entry.used), entry.available);
    GrantedAreOffered(Alloc(data, work, entry.used), entry.available);
    forall p | p in data[k].used ensures !ConflictsWithSome(p, st.used) {
      forall g | g in st.used ensures !Conflict(p, g) {
        SubsequenceContains(st.used, entry.used + entry.available, g);
      }
    }
    NoConflictNothingThinned(data[k].used, st.data[k].used, st.used);
  }

  /** The sort is ascending: of the peers that the first available path conflicts with, it is the
      one using the fewest paths that decides, and is robbed or protects everybody. */
  lemma FirstVictimIsPoorest(data: Store, work: seq<Entry>, path: Path, k: string)
    requires WellKeyed(data) && IsWorkingList(data, work)
    requires k in data && ConflictIndex(path, data[k].used) >= 0
    ensures var t := Target(path, work);
            t >= 0 && |work[t].used| <= |data[k].used|
  {
    var j :| 0 <= j < |work| && work[j] == data[k] by {
      InitialCoherence(data, work, []);
    }
    TargetComesFirst(path, work, j);
  }
}
