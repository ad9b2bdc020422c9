/** The server's side of path selection: every connected peer caches the slice of paths it was
    given, while allocations for later peers shift those slices in place
    (server/server.go, updateDisjointPathselection and the cleanup in ListenHandshake). */
module PathServer {
  import opened Paths
  import opened Allocator
  import opened PathSelectionStore
  import opened StoreRuns

  class ServerSelection {
    var usedPaths: PathSlice

    constructor (usedPaths: PathSlice)
      ensures this.usedPaths == usedPaths
    {
      this.usedPaths := usedPaths;
    }
  }

  /** A connected peer; its id is both its remote address and its socket's peer address. */
  datatype ExtPeer = ExtPeer(selection: ServerSelection, id: string)

  ghost function Selections(peers: seq<ExtPeer>): set<ServerSelection> {
    set p | p in peers :: p.selection
  }

  ghost function Ids(peers: seq<ExtPeer>): set<string> {
    set p | p in peers :: p.id
  }

  ghost predicate OwnSelections(peers: seq<ExtPeer>) {
    forall i, j :: 0 <= i < j < |peers| ==> peers[i].selection != peers[j].selection
  }

  ghost function Without(peers: seq<ExtPeer>, id: string): seq<ExtPeer>
    decreases |peers|
  {
    if peers == [] then []
    else
      var rest := Without(Init(peers), id);
      if Last(peers).id == id then rest else rest + [Last(peers)]
  }

  lemma {:induction false} WithoutKeepsTheOthers(peers: seq<ExtPeer>, id: string)
    ensures var rest := Without(peers, id);
            && (forall i :: 0 <= i < |rest| ==> rest[i] in peers && rest[i].id != id)
            && (forall i :: 0 <= i < |peers| && peers[i].id != id ==> peers[i] in rest)
            && (OwnSelections(peers) ==> OwnSelections(rest))
    decreases |peers|
  {
    if peers != [] {
      WithoutKeepsTheOthers(Init(peers), id);
      InitPlusLast(peers);
      var rest := Without(Init(peers), id);
      forall i | 0 <= i < |rest| && OwnSelections(peers) ensures rest[i].selection != Last(peers).selection {
        assert rest[i] in Init(peers);
        var j :| 0 <= j < |Init(peers)| && Init(peers)[j] == rest[i];
        assert peers[j] == rest[i];
      }
      forall i | 0 <= i < |peers| && peers[i].id != id ensures peers[i] in Without(peers, id) {
        if i < |peers| - 1 {
          assert Init(peers)[i] == peers[i];
        }
      }
    }
  }

  /** The peers that stay keep their order. */
  lemma {:induction false} WithoutKeepsOrder(peers: seq<ExtPeer>, id: string)
    ensures Subsequence(Without(peers, id), peers)
    decreases |peers|
  {
    if peers != [] {
      WithoutKeepsOrder(Init(peers), id);
      SubsequenceGrows(Without(Init(peers), id), Init(peers), Last(peers));
      InitPlusLast(peers);
      hide Subsequence;
    }
  }

  /** Writing a selection writes no backing array. */
  ghost predicate Separate(peers: seq<ExtPeer>, repr: set<array<Path>>) {
    forall i, a :: 0 <= i < |peers| && a in repr ==> peers[i].selection as object != a as object
  }

  ghost predicate Cached(peers: seq<ExtPeer>, data: map<string, PeerPathEntry>)
    reads Selections(peers)
  {
    forall i :: 0 <= i < |peers| ==>
      peers[i].id in data && peers[i].selection.usedPaths == data[peers[i].id].usedPaths
  }

  lemma OneMorePeer(peers: seq<ExtPeer>, p: ExtPeer, data: map<string, PeerPathEntry>)
    requires OwnSelections(peers) && p.selection !in Selections(peers) && Cached(peers, data)
    requires p.id in data && p.selection.usedPaths == data[p.id].usedPaths
    ensures OwnSelections(peers + [p]) && Cached(peers + [p], data)
    ensures Ids(peers + [p]) == Ids(peers) + {p.id}
  {
    forall i | 0 <= i < |peers| ensures peers[i].selection != p.selection {
      assert peers[i] in peers;
    }
  }

  lemma PeerGone(peers: seq<ExtPeer>, id: string, data: map<string, PeerPathEntry>)
    requires OwnSelections(peers) && Cached(peers, data)
    ensures var rest := Without(peers, id);
            OwnSelections(rest) && Ids(rest) == Ids(peers) - {id} && Cached(rest, data - {id})
  {
    WithoutKeepsTheOthers(peers, id);
    var rest := Without(peers, id);
    forall i | 0 <= i < |rest|
      ensures rest[i].id in data - {id} && rest[i].selection.usedPaths == data[rest[i].id].usedPaths
      ensures rest[i].id in Ids(peers)
    {
      var j :| 0 <= j < |peers| && peers[j] == rest[i];
      assert peers[j] in peers;
    }
    forall k | k in Ids(peers) && k != id ensures k in Ids(rest) {
      var j :| 0 <= j < |peers| && peers[j].id == k;
      var i :| 0 <= i < |rest| && rest[i] == peers[j];
    }
  }

  lemma SeparateStill(peers: seq<ExtPeer>, id: string, repr: set<array<Path>>)
    requires Separate(peers, repr)
    ensures Separate(Without(peers, id), repr)
  {
    WithoutKeepsTheOthers(peers, id);
    var rest := Without(peers, id);
    forall i, a | 0 <= i < |rest| && a in repr ensures rest[i].selection as object != a as object {
      assert rest[i] in rest;
      var j :| 0 <= j < |peers| && peers[j] == rest[i];
    }
  }

  lemma SeparateOneMore(peers: seq<ExtPeer>, p: ExtPeer, repr: set<array<Path>>)
    requires Separate(peers, repr)
    ensures Separate(peers + [p], repr)
  {
  }

  class Server {
    const pathStore: PathSelectionStore
    var extPeers: seq<ExtPeer>
    ghost var events: seq<Event>   // the connects and disconnects so far
    ghost var stores: seq<Store>   // the stores they led through

    /** The store's keys are the ids of the connected peers, and what each of them has cached is its
        store entry's own slice. */
    ghost predicate Consistent()
      reads this`extPeers, pathStore, pathStore.Repr, Selections(extPeers)
    {
      && pathStore.Valid()
      && Separate(extPeers, pathStore.Repr)
      && OwnSelections(extPeers)
      && pathStore.Data.Keys == Ids(extPeers)
      && Cached(extPeers, pathStore.Data)
    }

    ghost predicate Valid()
      reads this, pathStore, pathStore.Repr, Selections(extPeers)
    {
      Consistent() && IsRun(stores, events) && Last(stores) == pathStore.Contents
    }

    constructor ()
      ensures Valid() && extPeers == [] && events == []
      ensures fresh(pathStore) && pathStore.Repr == {}
    {
      pathStore := new PathSelectionStore();
      extPeers := [];
      events := [];
      stores := [map[]];
    }

    /** Whatever connects and disconnects led here: the cached paths of every peer are conflict-free
        and in the order of its available paths, and the peers in the store are the connected ones. */
    lemma CachesAreSound(p: ExtPeer)
      requires Valid() && p in extPeers
      ensures InBounds(p.selection.usedPaths)
      ensures var cached := Elements(p.selection.usedPaths);
              && p.id in pathStore.Contents
              && cached == pathStore.Contents[p.id].used
              && ConflictFree(cached) && Subsequence(cached, pathStore.Contents[p.id].available)
      ensures Ids(extPeers) == Connected(events)
    {
      InvariantOverRuns(stores, events);
    }

    /** A peer connects: it gets a selection of its own, and the paths are divided anew. */
    method Connect(id: string, availablePaths: seq<Path>)
      requires Valid()
      modifies this, pathStore, pathStore.Repr, Selections(extPeers)
      ensures Valid() && fresh(pathStore.Repr - old(pathStore.Repr))
      ensures events == old(events) + [Add(id, availablePaths)]
      ensures exists p :: extPeers == old(extPeers) + [p] && p.id == id && fresh(p.selection)
    {
      hide PathSelectionStore.Valid;
      hide IsRun;
      hide CanAdd;
      hide InBounds;
      var nil := new Path[0];
      var selection := new ServerSelection(PathSlice(nil, 0));
      UpdateDisjointPathselection(ExtPeer(selection, id), availablePaths);
      RunGrows(stores, events, Add(id, availablePaths), pathStore.Contents);
      events := events + [Add(id, availablePaths)];
      stores := stores + [pathStore.Contents];
    }

    method UpdateDisjointPathselection(p: ExtPeer, availablePaths: seq<Path>)
      requires Consistent() && p.selection !in Selections(extPeers)
      modifies this`extPeers, pathStore, pathStore.Repr, Selections(extPeers), p.selection
      ensures Consistent() && fresh(pathStore.Repr - old(pathStore.Repr))
      ensures extPeers == old(extPeers) + [p]
      ensures CanAdd(old(pathStore.Contents), Entry(p.id, availablePaths, []), pathStore.Contents)
    {
      hide PathSelectionStore.Valid;
      hide CanAdd;
      ShareOut(p, availablePaths);
      OneMorePeer(extPeers, p, pathStore.Data);
      SeparateOneMore(extPeers, p, pathStore.Repr);
      hide Separate;
      hide OwnSelections;
      hide Ids;
      extPeers := extPeers + [p];
    }

    /** Lines 181 to 200: all but the last line. */
    method ShareOut(p: ExtPeer, availablePaths: seq<Path>)
      requires Consistent() && p.selection !in Selections(extPeers)
      modifies pathStore, pathStore.Repr, Selections(extPeers), p.selection
      ensures pathStore.Valid() && fresh(pathStore.Repr - old(pathStore.Repr))
      ensures pathStore.Data.Keys == Ids(extPeers) + {p.id}
      ensures Separate(extPeers, pathStore.Repr) && Cached(extPeers, pathStore.Data)
      ensures p.selection.usedPaths == pathStore.Data[p.id].usedPaths
      ensures CanAdd(old(pathStore.Contents), Entry(p.id, availablePaths, []), pathStore.Contents)
    {
      hide PathSelectionStore.Valid;
      hide CanAdd;
      hide InBounds;
      AddToStore(p.id, availablePaths);
      var own := pathStore.Get(p.id);
      p.selection.usedPaths := own.usedPaths;
      RefreshSelections();
    }

    /** Lines 181 to 188: the entry has no used paths yet. */
    method AddToStore(id: string, availablePaths: seq<Path>)
      requires pathStore.Valid()
      modifies pathStore, pathStore.Repr
      ensures pathStore.Valid() && fresh(pathStore.Repr - old(pathStore.Repr))
      ensures pathStore.Data.Keys == old(pathStore.Data.Keys) + {id}
      ensures CanAdd(old(pathStore.Contents), Entry(id, availablePaths, []), pathStore.Contents)
    {
      ghost var before := pathStore.Contents;
      pathStore.ContentsAreKeyed();
      hide PathSelectionStore.Valid;
      hide CanAdd;
      pathStore.AddPeerEntry(id, availablePaths, []);
      pathStore.ContentsAreKeyed();
      AddKeys(before, Entry(id, availablePaths, []), pathStore.Contents);
    }

    /** Lines 191 to 200: every peer that was connected already gets its slice anew. */
    method RefreshSelections()
      requires pathStore.Valid() && Separate(extPeers, pathStore.Repr) && OwnSelections(extPeers)
      requires forall i :: 0 <= i < |extPeers| ==> extPeers[i].id in pathStore.Data
      modifies Selections(extPeers)
      ensures pathStore.Valid() && Cached(extPeers, pathStore.Data)
    {
      hide PathSelectionStore.Valid;
      for i := 0 to |extPeers|
        invariant pathStore.Valid()
        invariant forall j :: 0 <= j < i ==> extPeers[j].selection.usedPaths == pathStore.Data[extPeers[j].id].usedPaths
      {
        var v := extPeers[i];
        var entry := pathStore.Get(v.id);
        assert v in extPeers;
        v.selection.usedPaths := entry.usedPaths;
      }
    }

    /** A peer disconnects: its store entry goes, and every list entry with its id. */
    method Disconnect(id: string)
      requires Valid()
      modifies this, pathStore
      ensures Valid() && pathStore.Repr == old(pathStore.Repr)
      ensures events == old(events) + [Drop(id)]
      ensures extPeers == Without(old(extPeers), id)
      ensures pathStore.Contents == old(pathStore.Contents) - {id}
    {
      hide PathSelectionStore.Valid;
      hide IsRun;
      RemovePeer(id);
      RunGrows(stores, events, Drop(id), pathStore.Contents);
      events := events + [Drop(id)];
      stores := stores + [pathStore.Contents];
    }

    method RemovePeer(id: string)
      requires Consistent()
      modifies this`extPeers, pathStore
      ensures Consistent() && pathStore.Repr == old(pathStore.Repr)
      ensures extPeers == Without(old(extPeers), id)
      ensures pathStore.Contents == old(pathStore.Contents) - {id}
    {
      hide PathSelectionStore.Valid;
      hide InBounds;
      ghost var data := pathStore.Data;
      SeparateStill(extPeers, id, pathStore.Repr);
      hide Separate;
      pathStore.Delete(id);
      var newPeers := PeersWithout(id);
      PeerGone(extPeers, id, data);
      extPeers := newPeers;
    }

    method PeersWithout(id: string) returns (newPeers: seq<ExtPeer>)
      ensures newPeers == Without(extPeers, id)
    {
      newPeers := [];
      for i := 0 to |extPeers|
        invariant newPeers == Without(extPeers[..i], id)
      {
        assert Init(extPeers[..i + 1]) == extPeers[..i];
        if extPeers[i].id != id {
          newPeers := newPeers + [extPeers[i]];
        }
      }
      assert extPeers[..|extPeers|] == extPeers;
    }
  }

  lemma RunGrows(stores: seq<Store>, events: seq<Event>, e: Event, after: Store)
    requires IsRun(stores, events) && Step(Last(stores), e, after)
    ensures IsRun(stores + [after], events + [e])
  {
    var stores', events' := stores + [after], events + [e];
    forall n | 0 <= n < |events'| ensures Step(stores'[n], events'[n], stores'[n + 1]) {
      if n < |events| {
        assert Step(stores[n], events[n], stores[n + 1]);
      }
    }
  }

  lemma AddKeys(before: Store, entry: Entry, after: Store)
    requires WellKeyed(before) && CanAdd(before, entry, after)
    ensures after.Keys == before.Keys + {entry.addr}
  {
    var work :| IsWorkingList(before, work) && after == Added(before, entry, work);
    InitialCoherence(before, work, entry.used);
    OfferAllCoherent(before, Alloc(before, work, entry.used), entry.available);
  }
}
