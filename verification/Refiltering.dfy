/** What the re-filtering in mid-loop of AddPeerEntry leaves in the working list, and what that means
    for paths that are granted although they conflict (pathselection/pathselectionstore.go, lines 151
    to 156 and 165 to 174). */
module Refiltering {
  import opened Paths
  import opened Allocator

  /** How many paths the new peer used right after the last theft; 0 when nothing was taken. */
  ghost function Threshold(st: Alloc, paths: seq<Path>): nat
    decreases |paths|
  {
    if paths == [] then 0
    else
      var before := OfferAll(st, Init(paths));
      if Steals(before, Last(paths)) then |before.used| + 1 else Threshold(st, Init(paths))
  }

  lemma {:induction false} ThresholdBelowUsed(st: Alloc, paths: seq<Path>)
    ensures Threshold(st, paths) <= |OfferAll(st, paths).used|
    decreases |paths|
  {
    if paths != [] {
      ThresholdBelowUsed(st, Init(paths));
    }
  }

  /** The list holds exactly those of the store's entries that use at least min paths. An entry without
      address and paths cannot be told from padding, and is left out. */
  ghost predicate HoldsTheRich(st: Alloc, min: nat) {
    forall k :: k in st.data && st.data[k] != ZERO_ENTRY ==> (st.data[k] in st.work <==> |st.data[k].used| >= min)
  }

  lemma InFiltered(n: nat, entries: seq<Entry>, min: int, e: Entry)
    requires e != ZERO_ENTRY
    ensures e in Filtered(n, entries, min) <==> e in entries && |e.used| >= min
  {
    KeepKeeps(entries, min);
  }

  lemma InUpdated(work: seq<Entry>, t: nat, robbed: Entry, e: Entry)
    requires t < |work| && e != work[t] && e != robbed
    ensures e in work[t := robbed] <==> e in work
  {
    if e in work {
      var i :| 0 <= i < |work| && work[i] == e;
      assert work[t := robbed][i] == e;
    }
  }

  lemma FilterKeepsRich(data: Store, work: seq<Entry>, t: nat, robbed: Entry, n: nat, min: int, newMin: int, k: string)
    requires t < |work| && work[t].addr == robbed.addr && robbed.addr in data
    requires k in data && data[k].addr == k && data[robbed.addr] == work[t]
    requires data[robbed.addr := robbed][k] != ZERO_ENTRY
    requires min <= newMin && (data[k] in work <==> |data[k].used| >= min)
    ensures var e := data[robbed.addr := robbed][k];
            e in Filtered(n, work[t := robbed], newMin) <==> |e.used| >= newMin
  {
    hide Filtered;
    if k == robbed.addr {
      InFiltered(n, work[t := robbed], newMin, robbed);
      assert work[t := robbed][t] == robbed;
    } else {
      InFiltered(n, work[t := robbed], newMin, data[k]);
      InUpdated(work, t, robbed, data[k]);
    }
  }

  lemma TheftFacts(data0: Store, st: Alloc, path: Path)
    requires Coherent(data0, st) && Steals(st, path)
    ensures var t, robbed, st' := Target(path, st.work), Robbed(st, path), Offer(st, path);
            && WellKeyed(st.data) && robbed.addr in st.data && st.data[robbed.addr] == st.work[t] != ZERO_ENTRY
            && robbed.addr == st.work[t].addr
            && st'.data == st.data[robbed.addr := robbed]
            && st'.work == Filtered(|st'.data|, st.work[t := robbed], |st.used| + 1)
  {
    TheftCoherent(data0, st, path);
  }

  lemma TheftKeepsRich(data0: Store, st: Alloc, path: Path, min: nat, k: string)
    requires Coherent(data0, st) && Steals(st, path) && min <= |st.used|
    requires HoldsTheRich(st, min) && k in st.data
    ensures var st' := Offer(st, path);
            k in st'.data
            && (st'.data[k] != ZERO_ENTRY ==> (st'.data[k] in st'.work <==> |st'.data[k].used| >= |st.used| + 1))
  {
    var t, robbed, st' := Target(path, st.work), Robbed(st, path), Offer(st, path);
    TheftFacts(data0, st, path);
    assert st.data[k] != ZERO_ENTRY ==> (st.data[k] in st.work <==> |st.data[k].used| >= min);
    assert st.data[k].addr == k;
    hide *;
    if st'.data[k] != ZERO_ENTRY {
      FilterKeepsRich(st.data, st.work, t, robbed, |st'.data|, min, |st.used| + 1, k);
    }
  }

  lemma OfferKeepsRich(data0: Store, st: Alloc, path: Path, min: nat)
    requires Coherent(data0, st) && HoldsTheRich(st, min) && min <= |st.used|
    ensures HoldsTheRich(Offer(st, path), if Steals(st, path) then |st.used| + 1 else min)
  {
    if Steals(st, path) {
      TheftCoherent(data0, st, path);
      forall k | k in Offer(st, path).data && Offer(st, path).data[k] != ZERO_ENTRY
        ensures Offer(st, path).data[k] in Offer(st, path).work
           <==> |Offer(st, path).data[k].used| >= |st.used| + 1
      {
        hide Coherent;
        hide Filtered;
        TheftKeepsRich(data0, st, path, min, k);
      }
    }
  }

  /** At any point of the loop, for every order of the list, the peers that can still be robbed or
      cause a denial are exactly those that use at least as many paths as the new peer did after the
      last theft. Nobody poorer stays in, nobody richer drops out. */
  lemma {:induction false} ListHoldsTheRich(data: Store, work: seq<Entry>, used: seq<Path>, paths: seq<Path>)
    requires WellKeyed(data) && IsWorkingList(data, work)
    ensures HoldsTheRich(OfferAll(Alloc(data, work, used), paths), Threshold(Alloc(data, work, used), paths))
    decreases |paths|
  {
    var st0 := Alloc(data, work, used);
    InitialCoherence(data, work, used);
    if paths != [] {
      ListHoldsTheRich(data, work, used, Init(paths));
      OfferAllCoherent(data, st0, Init(paths));
      ThresholdBelowUsed(st0, Init(paths));
      hide IsWorkingList;
      hide Coherent;
      hide HoldsTheRich;
      hide Offer;
      OfferKeepsRich(data, OfferAll(st0, Init(paths)), Last(paths), Threshold(st0, Init(paths)));
    }
  }

  /** The fate of the next path. It is granted for free exactly when every peer it conflicts with uses
      fewer paths than the threshold; so a grant that breaks disjointness always has a theft before
      it, and always ignores only peers poorer than the new one. */
  lemma FreeGrantIff(data: Store, work: seq<Entry>, used: seq<Path>, paths: seq<Path>, path: Path)
    requires WellKeyed(data) && IsWorkingList(data, work)
    ensures var st := OfferAll(Alloc(data, work, used), paths);
            var min := Threshold(Alloc(data, work, used), paths);
            && min <= |st.used|
            && (Target(path, st.work) < 0
                <==> forall k :: k in st.data && ConflictIndex(path, st.data[k].used) >= 0 ==> |st.data[k].used| < min)
  {
    var st0 := Alloc(data, work, used);
    var st, min := OfferAll(st0, paths), Threshold(st0, paths);
    ThresholdBelowUsed(st0, paths);
    ListHoldsTheRich(data, work, used, paths);
    InitialCoherence(data, work, used);
    OfferAllCoherent(data, st0, paths);
    if Target(path, st.work) < 0 {
      assert forall e :: e in st.work ==> ConflictIndex(path, e.used) < 0;
    } else {
      var victim := st.work[Target(path, st.work)];
      assert Backed(st.data, victim) && victim in st.work;
      assert st.data[victim.addr] == victim;
    }
  }

  // One round, without the functions that define it

  /** A path that conflicts with nothing used by the peers listed is granted, and nothing else happens. */
  lemma NoConflictGrants(st: Alloc, path: Path)
    requires forall i, k :: 0 <= i < |st.work| && 0 <= k < |st.work[i].used| ==> !Conflict(path, st.work[i].used[k])
    ensures Offer(st, path) == st.(used := st.used + [path])
  {
  }

  /** Otherwise the first listed peer in conflict decides, with its first path in conflict: if it uses more
      paths than the new peer, that path moves over and leaves the other paths in order; if not, the new
      path is denied. */
  lemma FirstConflictDecides(st: Alloc, path: Path, t: nat, c: nat)
    requires t < |st.work| && c < |st.work[t].used| && Conflict(path, st.work[t].used[c])
    requires forall i, k :: 0 <= i < t && 0 <= k < |st.work[i].used| ==> !Conflict(path, st.work[i].used[k])
    requires forall k :: 0 <= k < c ==> !Conflict(path, st.work[t].used[k])
    ensures var victim, st' := st.work[t], Offer(st, path);
            if |victim.used| <= |st.used| then st' == st
            else
              && st'.used == st.used + [path]
              && st'.data == st.data[victim.addr := victim.(used := victim.used[..c] + victim.used[c + 1..])]
  {
    var found := Target(path, st.work);
    TargetComesFirst(path, st.work, t);
    assert Conflict(path, st.work[found].used[ConflictIndex(path, st.work[found].used)]);
    assert found == t && ConflictIndex(path, st.work[t].used) == c;
  }

  // The order of the list

  /** The addresses of the entries that are not padding, in the order of the list. */
  ghost function Addresses(work: seq<Entry>): seq<string>
    decreases |work|
  {
    if work == [] then []
    else if Last(work) == ZERO_ENTRY then Addresses(Init(work))
    else Addresses(Init(work)) + [Last(work).addr]
  }

  lemma AddressesGrows(a: seq<Entry>, b: seq<Entry>, e: Entry, f: Entry)
    requires Subsequence(Addresses(a), Addresses(b))
    requires e == f || e == ZERO_ENTRY || (f != ZERO_ENTRY && e.addr == f.addr)
    ensures Subsequence(Addresses(a), Addresses(b + [f])) && Subsequence(Addresses(a + [e]), Addresses(b + [f]))
  {
    assert Init(a + [e]) == a && Init(b + [f]) == b;
    SubsequenceGrows(Addresses(a), Addresses(b), f.addr);
    hide Subsequence;
  }

  lemma {:induction false} KeptAddresses(entries: seq<Entry>, min: int)
    ensures Subsequence(Addresses(KeepAtLeast(entries, min)), Addresses(entries))
    decreases |entries|
  {
    if entries == [] {
      return;
    }
    KeptAddresses(Init(entries), min);
    AddressesGrows(KeepAtLeast(Init(entries), min), Init(entries), Last(entries), Last(entries));
    InitPlusLast(entries);
    hide Subsequence;
    hide Addresses;
  }

  lemma {:induction false} PaddedAddresses(n: nat, entries: seq<Entry>)
    ensures Addresses(Padding(n) + entries) == Addresses(entries)
    decreases n + |entries|
  {
    var all := Padding(n) + entries;
    if entries != [] {
      PaddedAddresses(n, Init(entries));
      assert Init(all) == Padding(n) + Init(entries);
    } else if n > 0 {
      PaddedAddresses(n - 1, []);
      assert Init(all) == Padding(n - 1) + [];
    }
  }

  lemma {:induction false} ReplacedAddresses(work: seq<Entry>, t: nat, e: Entry)
    requires t < |work| && work[t] != ZERO_ENTRY && e.addr == work[t].addr
    ensures Subsequence(Addresses(work[t := e]), Addresses(work))
    decreases |work|
  {
    var rest, last := Init(work), Last(work);
    InitPlusLast(work);
    hide Subsequence;
    hide Addresses;
    if t == |work| - 1 {
      assert work[t := e] == rest + [e];
      SubsequenceReflexive(Addresses(rest));
      AddressesGrows(rest, rest, e, last);
    } else {
      assert work[t := e] == rest[t := e] + [last];
      ReplacedAddresses(rest, t, e);
      AddressesGrows(rest[t := e], rest, last, last);
    }
  }

  lemma OfferKeepsOrder(data0: Store, st: Alloc, path: Path)
    requires Coherent(data0, st)
    ensures Subsequence(Addresses(Offer(st, path).work), Addresses(st.work))
  {
    if Steals(st, path) {
      var t, robbed, n := Target(path, st.work), Robbed(st, path), |Offer(st, path).data|;
      TheftFacts(data0, st, path);
      hide *;
      var replaced := st.work[t := robbed];
      ReplacedAddresses(st.work, t, robbed);
      FilteredAddresses(n, replaced, |st.used| + 1);
      SubsequenceTransitive(
        Addresses(Filtered(n, replaced, |st.used| + 1)), Addresses(replaced), Addresses(st.work));
    } else {
      SubsequenceReflexive(Addresses(st.work));
    }
  }

  lemma FilteredAddresses(n: nat, entries: seq<Entry>, min: int)
    ensures Subsequence(Addresses(Filtered(n, entries, min)), Addresses(entries))
  {
    PaddedAddresses(n, KeepAtLeast(entries, min));
    KeptAddresses(entries, min);
  }

  /** The list is never put in another order: whatever was offered, the peers still listed come as they
      came at the start. */
  lemma {:induction false} ListKeepsOrder(data0: Store, st: Alloc, paths: seq<Path>)
    requires Coherent(data0, st)
    ensures Subsequence(Addresses(OfferAll(st, paths).work), Addresses(st.work))
    decreases |paths|
  {
    if paths == [] {
      SubsequenceReflexive(Addresses(st.work));
    } else {
      var before := OfferAll(st, Init(paths));
      ListKeepsOrder(data0, st, Init(paths));
      OfferAllCoherent(data0, st, Init(paths));
      OfferKeepsOrder(data0, before, Last(paths));
      hide Coherent;
      hide Offer;
      SubsequenceTransitive(Addresses(Offer(before, Last(paths)).work), Addresses(before.work), Addresses(st.work));
    }
  }

  /** Peer k stands before peer l in the list. */
  ghost predicate Before(work: seq<Entry>, k: string, l: string) {
    exists i, j :: 0 <= i < j < |Addresses(work)| && Addresses(work)[i] == k && Addresses(work)[j] == l
  }

  lemma {:induction false} AddressAt(work: seq<Entry>, u: nat) returns (i: nat)
    requires u < |work| && work[u] != ZERO_ENTRY
    ensures i < |Addresses(work)| && Addresses(work)[i] == work[u].addr
    ensures i == |Addresses(work[..u])|
    decreases |work|
  {
    if u == |work| - 1 {
      i := |Addresses(Init(work))|;
      assert work[..u] == Init(work);
    } else {
      i := AddressAt(Init(work), u);
      assert Init(work)[..u] == work[..u];
    }
  }

  lemma {:induction false} AddressesGrow(work: seq<Entry>, u: nat, v: nat)
    requires u < v <= |work| && work[u] != ZERO_ENTRY
    ensures |Addresses(work[..u])| < |Addresses(work[..v])|
    decreases v
  {
    assert Init(work[..v]) == work[..v - 1] && Last(work[..v]) == work[v - 1];
    if u < v - 1 {
      AddressesGrow(work, u, v - 1);
    }
  }

  lemma {:induction false} AddressFrom(work: seq<Entry>, i: nat) returns (u: nat)
    requires i < |Addresses(work)|
    ensures u < |work| && work[u] != ZERO_ENTRY && work[u].addr == Addresses(work)[i]
    decreases |work|
  {
    if Last(work) != ZERO_ENTRY && i == |Addresses(work)| - 1 {
      u := |work| - 1;
    } else {
      u := AddressFrom(Init(work), i);
    }
  }

  /** Each peer stands in the list once, so that standing before another is an order. */
  lemma {:induction false} AddressesDiffer(data: Store, work: seq<Entry>, i: nat, j: nat)
    requires WorkCoherent(data, work) && i < j < |Addresses(work)|
    ensures Addresses(work)[i] != Addresses(work)[j]
    decreases |work|
  {
    if Last(work) != ZERO_ENTRY && j == |Addresses(work)| - 1 {
      var u := AddressFrom(Init(work), i);
      assert work[u] == Init(work)[u];
    } else {
      assert WorkCoherent(data, Init(work));
      AddressesDiffer(data, Init(work), i, j);
    }
  }

  /** Who decides a round, in every order: of the peers still listed that the path conflicts with, the
      one robbed, or protecting all, stood before all others in the list at the start. */
  lemma DeciderStoodFirst(data: Store, work: seq<Entry>, used: seq<Path>, paths: seq<Path>, path: Path, u: nat)
    requires WellKeyed(data) && IsWorkingList(data, work)
    requires var st := OfferAll(Alloc(data, work, used), paths);
             && u < |st.work| && ConflictIndex(path, st.work[u].used) >= 0
    ensures var st := OfferAll(Alloc(data, work, used), paths);
            var t := Target(path, st.work);
            && 0 <= t <= u
            && (t == u || Before(work, st.work[t].addr, st.work[u].addr))
  {
    var st0 := Alloc(data, work, used);
    var st := OfferAll(st0, paths);
    var t := Target(path, st.work);
    InitialCoherence(data, work, used);
    ListKeepsOrder(data, st0, paths);
    hide Coherent;
    hide IsWorkingList;
    hide OfferAll;
    assert 0 <= t <= u;
    if t < u {
      var a := AddressAt(st.work, t);
      var b := AddressAt(st.work, u);
      AddressesGrow(st.work, t, u);
      var a', b' := SubsequencePair(Addresses(st.work), Addresses(work), a, b);
      assert Addresses(work)[a'] == st.work[t].addr;
    }
  }
}
