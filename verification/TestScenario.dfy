/** The scenario of pathselection/pathselectionstore_test.go, lines 96 to 130, which the code does not
    meet: a run that ends with peers that are not disjoint. */
module TestScenario {
  import opened Paths
  import opened Allocator
  import opened Fairness
  import opened StoreRuns
  import opened Disjointness

  /** Two peers use disjoint paths, and a third one's only path conflicts with all of the second's, which
      are several, and with none of the first's. */
  ghost predicate Scene(a: string, ps: seq<Path>, b: string, qs: seq<Path>, c: string, path: Path) {
    && a != b && a != c && b != c
    && ConflictFree(ps) && ConflictFree(qs) && Apart(ps, qs) && Apart(qs, ps)
    && (forall p :: p in ps ==> !Conflict(p, path))
    && (forall q :: q in qs ==> Conflict(path, q))
    && |qs| >= 2
  }

  function AllUsed(a: string, ps: seq<Path>): Entry {
    Entry(a, ps, ps)
  }

  function Two(a: string, ps: seq<Path>, b: string, qs: seq<Path>): Store {
    map[a := AllUsed(a, ps), b := AllUsed(b, qs)]
  }

  function Events(a: string, ps: seq<Path>, b: string, qs: seq<Path>, c: string, path: Path): seq<Event> {
    [Add(a, ps), Add(b, qs), Add(c, [path])]
  }

  lemma FirstAdd(a: string, ps: seq<Path>, work: seq<Entry>)
    requires IsWorkingList(map[], work) && ConflictFree(ps)
    ensures Added(map[], Entry(a, ps, []), work) == map[a := AllUsed(a, ps)]
  {
    GreedyKeepsConflictFree(ps);
    assert [] + ps == ps;
    NoConflictGetsGreedy(map[], Entry(a, ps, []), work);
  }

  lemma SecondAdd(a: string, ps: seq<Path>, b: string, qs: seq<Path>, work: seq<Entry>)
    requires IsWorkingList(map[a := AllUsed(a, ps)], work) && a != b && ConflictFree(qs) && Apart(qs, ps)
    ensures Added(map[a := AllUsed(a, ps)], Entry(b, qs, []), work) == Two(a, ps, b, qs)
  {
    GreedyKeepsConflictFree(qs);
    assert [] + qs == qs;
    NoConflictGetsGreedy(map[a := AllUsed(a, ps)], Entry(b, qs, []), work);
  }

  lemma NotTheFirst(ps: seq<Path>, path: Path, n: nat)
    requires n < |ps| && forall p :: p in ps ==> !Conflict(p, path)
    ensures !Conflict(path, ps[n])
  {
    ConflictIsSymmetric(path, ps[n]);
    assert ps[n] in ps;
  }

  lemma SecondIsRobbed(a: string, ps: seq<Path>, b: string, qs: seq<Path>, c: string, path: Path, work: seq<Entry>)
    requires Scene(a, ps, b, qs, c, path) && IsWorkingList(Two(a, ps, b, qs), work)
    ensures Target(path, work) >= 0 && Victim(Alloc(Two(a, ps, b, qs), work, []), path) == AllUsed(b, qs)
  {
    var data := Two(a, ps, b, qs);
    SinglePathConflict(data, c, path, work);
    assert ConflictAt(data, c, path, b, 0);
    var v := Victim(Alloc(data, work, []), path);
    var n := ConflictIndex(path, v.used);
    hide IsWorkingList;
    hide Victim;
    hide Target;
    hide Conflict;
    if v.addr == a {
      NotTheFirst(ps, path, n);
    }
  }

  lemma FirstIsSpared(a: string, ps: seq<Path>, b: string, qs: seq<Path>, c: string, path: Path, work: seq<Entry>)
    requires Scene(a, ps, b, qs, c, path) && IsWorkingList(Two(a, ps, b, qs), work)
    ensures var after := Added(Two(a, ps, b, qs), Entry(c, [path], []), work);
            a in after && after[a] == AllUsed(a, ps)
  {
    hide IsWorkingList;
    hide Added;
    assert [] + [path] == [path];
    BystanderUnchanged(Two(a, ps, b, qs), Entry(c, [path], []), work, a);
  }

  lemma NotDisjointAfter(a: string, ps: seq<Path>, b: string, qs: seq<Path>, c: string, path: Path, work: seq<Entry>)
    requires Scene(a, ps, b, qs, c, path) && IsWorkingList(Two(a, ps, b, qs), work)
    ensures GloballyDisjoint(Two(a, ps, b, qs))
    ensures !GloballyDisjoint(Added(Two(a, ps, b, qs), Entry(c, [path], []), work))
  {
    hide IsWorkingList;
    hide Added;
    var data := Two(a, ps, b, qs);
    assert GloballyDisjoint(data);
    assert ConflictAt(data, c, path, b, 0) && ConflictAt(data, c, path, b, 1);
    SinglePathDisjointIff(data, c, path, work);
  }

  lemma ThirdAdd(a: string, ps: seq<Path>, b: string, qs: seq<Path>, c: string, path: Path, work: seq<Entry>)
    requires Scene(a, ps, b, qs, c, path) && IsWorkingList(Two(a, ps, b, qs), work)
    ensures var after := Added(Two(a, ps, b, qs), Entry(c, [path], []), work);
            && GloballyDisjoint(Two(a, ps, b, qs)) && !GloballyDisjoint(after)
            && a in after && after[a].used == ps
            && b in after && |after[b].used| == |qs| - 1
            && c in after && after[c].used == [path]
  {
    FirstIsSpared(a, ps, b, qs, c, path, work);
    NotDisjointAfter(a, ps, b, qs, c, path, work);
    SecondIsRobbed(a, ps, b, qs, c, path, work);
    SinglePathTakes(Two(a, ps, b, qs), c, path, work);
    hide Added;
    hide GloballyDisjoint;
    hide IsWorkingList;
    hide Victim;
    hide Target;
    hide ConflictFree;
    hide Apart;
  }

  /** Whenever peers like these connect one after the other to an empty store, in every map and sort
      order: the first two are disjoint and use all their paths; then the first keeps all of them, the
      second loses one and still conflicts with the third, which uses its path. */
  lemma ThirdPeerOverlaps(
    a: string, ps: seq<Path>, b: string, qs: seq<Path>, c: string, path: Path, stores: seq<Store>)
    requires Scene(a, ps, b, qs, c, path) && IsRun(stores, Events(a, ps, b, qs, c, path))
    ensures stores[2] == Two(a, ps, b, qs) && GloballyDisjoint(stores[2]) && !GloballyDisjoint(stores[3])
    ensures a in stores[3] && stores[3][a].used == ps
    ensures b in stores[3] && |stores[3][b].used| == |qs| - 1
    ensures c in stores[3] && stores[3][c].used == [path]
  {
    var events := Events(a, ps, b, qs, c, path);
    assert Step(stores[0], events[0], stores[1]);
    assert Step(stores[1], events[1], stores[2]);
    assert Step(stores[2], events[2], stores[3]);
    hide IsRun;
    hide Added;
    hide IsWorkingList;
    hide GloballyDisjoint;
    hide ConflictFree;
    hide Apart;
    var work0 :| IsWorkingList(map[], work0) && stores[1] == Added(map[], Entry(a, ps, []), work0);
    FirstAdd(a, ps, work0);
    var work1 :| IsWorkingList(stores[1], work1) && stores[2] == Added(stores[1], Entry(b, qs, []), work1);
    SecondAdd(a, ps, b, qs, work1);
    var work2 :| IsWorkingList(stores[2], work2) && stores[3] == Added(stores[2], Entry(c, [path], []), work2);
    ThirdAdd(a, ps, b, qs, c, path, work2);
  }

  // The test's own paths

  function Hop(ia: int): Interface { Interface(ia, 1) }

  const PATH1: Path := Path([Hop(1), Hop(2)])
  const PATH11: Path := Path([Hop(1), Hop(6)])
  const PATH2: Path := Path([Hop(3), Hop(4)])
  const PATH21: Path := Path([Hop(3), Hop(7)])
  const PATH3: Path := Path([Hop(1), Hop(3)])

  const EVENTS: seq<Event> := Events("addr", [PATH1, PATH11], "addr2", [PATH2, PATH21], "addr3", PATH3)

  lemma TestIsScene()
    ensures Scene("addr", [PATH1, PATH11], "addr2", [PATH2, PATH21], "addr3", PATH3)
  {
    assert ShareInterface(PATH3, PATH2, 1, 0);
    assert ShareInterface(PATH3, PATH21, 1, 0);
  }

  /** In every map and sort order, the third peer's path leaves the first peer both its paths, takes one
      of the second's and conflicts with the other: the peers are no longer disjoint, and the losses the
      test expects are the other way round. */
  lemma TestScenario(stores: seq<Store>)
    requires IsRun(stores, EVENTS)
    ensures GloballyDisjoint(stores[2]) && !GloballyDisjoint(stores[3])
    ensures "addr" in stores[3] && stores[3]["addr"].used == [PATH1, PATH11]
    ensures "addr2" in stores[3] && |stores[3]["addr2"].used| == 1
    ensures "addr3" in stores[3] && stores[3]["addr3"].used == [PATH3]
  {
    TestIsScene();
    hide Scene;
    hide IsRun;
    hide GloballyDisjoint;
    ThirdPeerOverlaps("addr", [PATH1, PATH11], "addr2", [PATH2, PATH21], "addr3", PATH3, stores);
  }

  // There is such a run

  lemma OneValue(e: Entry)
    requires e != ZERO_ENTRY
    ensures IsWorkingList(map[e.addr := e], [ZERO_ENTRY, e])
  {
    var data := map[e.addr := e];
    assert data.Values == {e} by {
      assert data[e.addr] in data.Values;
    }
    assert Padding(1) == [ZERO_ENTRY];
    assert [ZERO_ENTRY, e] == [ZERO_ENTRY] + [e];
  }

  lemma TwoValues(d: Entry, e: Entry)
    requires d.addr != e.addr && |d.used| <= |e.used|
    ensures IsWorkingList(map[d.addr := d, e.addr := e], [ZERO_ENTRY, ZERO_ENTRY, d, e])
  {
    var data := map[d.addr := d, e.addr := e];
    assert data.Values == {d, e} by {
      assert data[d.addr] in data.Values && data[e.addr] in data.Values;
    }
    assert |data| == 2 by {
      assert data.Keys == {d.addr, e.addr};
    }
    assert multiset({d, e}) == multiset([d, e]);
    assert Padding(2) == [ZERO_ENTRY, ZERO_ENTRY];
    assert [ZERO_ENTRY, ZERO_ENTRY, d, e] == [ZERO_ENTRY, ZERO_ENTRY] + [d, e];
  }

  lemma AddStep(before: Store, addr: string, available: seq<Path>, work: seq<Entry>)
    requires IsWorkingList(before, work)
    ensures Step(before, Add(addr, available), Added(before, Entry(addr, available, []), work))
  {
  }

  lemma ThreeSteps(s0: Store, e0: Event, s1: Store, e1: Event, s2: Store, e2: Event, s3: Store)
    requires s0 == map[] && Step(s0, e0, s1) && Step(s1, e1, s2) && Step(s2, e2, s3)
    ensures IsRun([s0, s1, s2, s3], [e0, e1, e2])
  {
    hide Step;
  }

  lemma SceneHappens(a: string, ps: seq<Path>, b: string, qs: seq<Path>, c: string, path: Path)
    returns (stores: seq<Store>)
    requires Scene(a, ps, b, qs, c, path) && 0 < |ps| <= |qs|
    ensures IsRun(stores, Events(a, ps, b, qs, c, path))
  {
    var d, e := AllUsed(a, ps), AllUsed(b, qs);
    var work1, work2 := [ZERO_ENTRY, d], [ZERO_ENTRY, ZERO_ENTRY, d, e];
    assert IsWorkingList(map[], []);
    OneValue(d);
    TwoValues(d, e);
    FirstAdd(a, ps, []);
    SecondAdd(a, ps, b, qs, work1);
    hide IsWorkingList;
    hide Added;
    hide Scene;
    hide IsRun;
    AddStep(map[], a, ps, []);
    AddStep(map[a := d], b, qs, work1);
    AddStep(Two(a, ps, b, qs), c, [path], work2);
    hide Step;
    var last := Added(Two(a, ps, b, qs), Entry(c, [path], []), work2);
    stores := [map[], map[a := d], Two(a, ps, b, qs), last];
    ThreeSteps(map[], Add(a, ps), map[a := d], Add(b, qs), Two(a, ps, b, qs), Add(c, [path]), last);
  }

  lemma ScenarioHappens() returns (stores: seq<Store>)
    ensures IsRun(stores, EVENTS)
  {
    TestIsScene();
    hide Scene;
    hide IsRun;
    hide GloballyDisjoint;
    stores := SceneHappens("addr", [PATH1, PATH11], "addr2", [PATH2, PATH21], "addr3", PATH3);
  }
}
