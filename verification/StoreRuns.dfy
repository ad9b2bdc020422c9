/** The path store over whole runs of connects and disconnects. */
module StoreRuns {
  import opened Paths
  import opened Allocator
  import opened Fairness

  // Invariants over every run

  ghost predicate StoreInvariant(data: Store) {
    && WellKeyed(data)
    && forall k :: k in data ==>
         ConflictFree(data[k].used) && Subsequence(data[k].used, data[k].available)
  }

  /** What happens to the store: a peer is added with the paths available to it, or dropped. */
  datatype Event = Add(addr: string, available: seq<Path>) | Drop(addr: string)

  /** The stores an event can lead to, over all map and sort orders. */
  ghost predicate Step(before: Store, e: Event, after: Store) {
    match e
    case Add(addr, available) =>
      CanAdd(before, Entry(addr, available, []), after)
    case Drop(addr) =>
      after == before - {addr}
  }

  ghost predicate IsRun(stores: seq<Store>, events: seq<Event>) {
    && |stores| == |events| + 1
    && stores[0] == map[]
    && forall n :: 0 <= n < |events| ==> Step(stores[n], events[n], stores[n + 1])
  }

  lemma AddKeepsInvariant(data: Store, entry: Entry, work: seq<Entry>)
    requires StoreInvariant(data) && IsWorkingList(data, work) && entry.used == []
    ensures StoreInvariant(Added(data, entry, work))
  {
    var after := Added(data, entry, work);
    var st := Offered(data, entry, work);
    OthersKeepTheirPlace(data, entry, work);
    InitialCoherence(data, work, []);
    OfferAllCoherent(data, Alloc(data, work, []), entry.available);
    forall k | k in after ensures ConflictFree(after[k].used) && Subsequence(after[k].used, after[k].available) {
      if k == entry.addr {
        GreedyIsConflictFreeSublist(st.used);
        GrantedAreOffered(Alloc(data, work, []), entry.available);
        assert [] + entry.available == entry.available;
        SubsequenceTransitive(Greedy(st.used), st.used, entry.available);
      } else {
        ThinnedIsSubsequence(data[k].used, st.data[k].used, st.used);
        SubsequenceConflictFree(st.data[k].used, data[k].used);
        SubsequenceTransitive(st.data[k].used, data[k].used, data[k].available);
      }
    }
  }

  ghost function Connected(events: seq<Event>): set<string>
    decreases |events|
  {
    if events == [] then {}
    else
      match Last(events)
      case Add(addr, _) => Connected(Init(events)) + {addr}
      case Drop(addr) => Connected(Init(events)) - {addr}
  }

  /** After any run of adds and drops, every peer's used paths are pairwise conflict-free and an
      order-preserving part of its available paths, every entry is stored under its own address,
      and the keys are the peers added and not dropped since. */
  lemma {:induction false} InvariantOverRuns(stores: seq<Store>, events: seq<Event>)
    requires IsRun(stores, events)
    ensures StoreInvariant(Last(stores))
    ensures Last(stores).Keys == Connected(events)
    decreases |events|
  {
    if events != [] {
      var before, after := Init(stores), Last(stores);
      assert IsRun(before, Init(events)) by {
        forall n | 0 <= n < |Init(events)| ensures Step(before[n], Init(events)[n], before[n + 1]) {
          assert Step(stores[n], events[n], stores[n + 1]);
        }
      }
      InvariantOverRuns(before, Init(events));
      assert Step(Last(before), Last(events), after) by {
        assert Step(stores[|events| - 1], events[|events| - 1], stores[|events|]);
      }
      hide IsRun;
      hide Added;
      match Last(events) {
        case Add(addr, available) =>
          var entry := Entry(addr, available, []);
          var work :| IsWorkingList(Last(before), work) && after == Added(Last(before), entry, work);
          AddKeepsInvariant(Last(before), entry, work);
          OthersKeepTheirPlace(Last(before), entry, work);
        case Drop(addr) =>
      }
    }
  }

  /** In every run: whenever a peer is added, each other peer stays, with the same paths available and
      at least half of its used paths; a drop leaves the others as they are. */
  lemma EveryStepIsFair(stores: seq<Store>, events: seq<Event>, n: nat, k: string)
    requires IsRun(stores, events) && n < |events| && k in stores[n] && k != events[n].addr
    ensures k in stores[n + 1] && stores[n + 1][k].available == stores[n][k].available
    ensures |stores[n][k].used| / 2 <= |stores[n + 1][k].used| <= |stores[n][k].used|
    ensures events[n].Drop? ==> stores[n + 1][k] == stores[n][k]
  {
    assert Step(stores[n], events[n], stores[n + 1]);
    if events[n].Add? {
      var entry := Entry(events[n].addr, events[n].available, []);
      PrefixIsRun(stores, events, n);
      InvariantOverRuns(stores[..n + 1], events[..n]);
      var work :| IsWorkingList(stores[n], work) && stores[n + 1] == Added(stores[n], entry, work);
      TheftBound(stores[n], entry, work);
      OthersKeepTheirPlace(stores[n], entry, work);
    }
  }

  lemma PrefixIsRun(stores: seq<Store>, events: seq<Event>, n: nat)
    requires IsRun(stores, events) && n <= |events|
    ensures IsRun(stores[..n + 1], events[..n]) && Last(stores[..n + 1]) == stores[n]
  {
    forall i | 0 <= i < n ensures Step(stores[..n + 1][i], events[..n][i], stores[..n + 1][i + 1]) {
      assert Step(stores[i], events[i], stores[i + 1]);
    }
  }
}
