/** When AddPeerEntry leaves the paths of different peers disjoint: for every newcomer and every order
    of the working list (pathselection/pathselectionstore.go, AddPeerEntry). */
module Disjointness {
  import opened Paths
  import opened Allocator
  import opened Fairness
  import opened Refiltering

  ghost predicate GloballyDisjoint(data: Store) {
    forall k, l :: k in data && l in data && k != l ==> Apart(data[k].used, data[l].used)
  }

  ghost predicate Apart(a: seq<Path>, b: seq<Path>) {
    forall p, q :: p in a && q in b ==> !Conflict(p, q)
  }

  /** Position n of peer k's used paths conflicts with the path. self is the newcomer, whose old
      entry, if there is one, is about to be replaced. */
  ghost predicate ConflictAt(data: Store, self: string, path: Path, k: string, n: int) {
    k in data && k != self && 0 <= n < |data[k].used| && Conflict(path, data[k].used[n])
  }

  ghost predicate NoConflict(data: Store, self: string, path: Path) {
    forall k, n :: !ConflictAt(data, self, path, k, n)
  }

  /** The path conflicts with no place in use but, maybe, position c of peer v. */
  ghost predicate ConflictsOnlyAt(data: Store, self: string, path: Path, v: string, c: int) {
    forall k, n :: ConflictAt(data, self, path, k, n) ==> k == v && n == c
  }

  // One round, in any state

  /** What the greedy filter keeps of the paths granted so far is apart from all others in use. */
  ghost predicate KeptClear(st: Alloc, self: string) {
    forall g :: g in Greedy(st.used) ==> NoConflict(st.data, self, g)
  }

  ghost predicate Denies(st: Alloc, path: Path) {
    Target(path, st.work) >= 0 && !Steals(st, path)
  }

  /** The greedy filter will drop the path if it is granted. */
  ghost predicate WillDrop(st: Alloc, path: Path) {
    ConflictsWithSome(path, Greedy(st.used))
  }

  /** The path would take the only path it conflicts with. */
  ghost predicate TakesItsOnlyConflict(st: Alloc, self: string, path: Path) {
    && Steals(st, path)
    && var v := Victim(st, path);
       ConflictsOnlyAt(st.data, self, path, v.addr, ConflictIndex(path, v.used))
  }

  /** The round cannot break disjointness: the path is denied, or will be dropped, or conflicts with
      nothing, or only with the path it takes. */
  ghost predicate Harmless(st: Alloc, self: string, path: Path) {
    Denies(st, path) || WillDrop(st, path) || NoConflict(st.data, self, path) || TakesItsOnlyConflict(st, self, path)
  }

  /** The round restores disjointness if it was broken: it takes the only path in conflict with what
      is kept, this path included. */
  ghost predicate CleansUp(st: Alloc, self: string, path: Path) {
    && Steals(st, path)
    && var v := Victim(st, path);
       forall g :: g in Greedy(st.used + [path]) ==>
         ConflictsOnlyAt(st.data, self, g, v.addr, ConflictIndex(path, v.used))
  }

  lemma GreedyOneMore(used: seq<Path>, path: Path)
    ensures Greedy(used + [path])
         == if ConflictsWithSome(path, Greedy(used)) then Greedy(used) else Greedy(used) + [path]
  {
    assert Init(used + [path]) == used;
  }

  /** A theft clears one place and no other. */
  lemma ConflictsAfterTheft(data: Store, self: string, v: string, c: nat, g: Path)
    requires v in data && c < |data[v].used|
    ensures var after := data[v := data[v].(used := RemoveAt(data[v].used, c))];
            NoConflict(after, self, g) <==> ConflictsOnlyAt(data, self, g, v, c)
  {
    var after := data[v := data[v].(used := RemoveAt(data[v].used, c))];
    forall k, n | ConflictAt(data, self, g, k, n) && !(k == v && n == c)
      ensures ConflictAt(after, self, g, k, if k == v && n > c then n - 1 else n)
    {
    }
    forall k, n | ConflictAt(after, self, g, k, n)
      ensures var m := if k == v && n >= c then n + 1 else n;
              ConflictAt(data, self, g, k, m) && !(k == v && m == c)
    {
    }
  }

  lemma TheftEndsClearIff(data0: Store, st: Alloc, self: string, path: Path)
    requires Coherent(data0, st) && Steals(st, path)
    ensures KeptClear(Offer(st, path), self) <==> CleansUp(st, self, path)
  {
    TheftCoherent(data0, st, path);
    var v, c := Victim(st, path), ConflictIndex(path, Victim(st, path).used);
    assert Offer(st, path).data == st.data[v.addr := v.(used := RemoveAt(v.used, c))];
    assert Offer(st, path).used == st.used + [path];
    hide Coherent;
    hide Offer;
    hide Steals;
    hide Greedy;
    hide Victim;
    hide NoConflict;
    hide ConflictsOnlyAt;
    forall g | g in Greedy(st.used + [path])
      ensures NoConflict(Offer(st, path).data, self, g) <==> ConflictsOnlyAt(st.data, self, g, v.addr, c)
    {
      ConflictsAfterTheft(st.data, self, v.addr, c, g);
    }
  }

  lemma HarmlessTheftCleansUp(st: Alloc, self: string, path: Path)
    requires Steals(st, path) && KeptClear(st, self) && Harmless(st, self, path)
    ensures CleansUp(st, self, path)
  {
    GreedyOneMore(st.used, path);
    hide Steals;
    hide Greedy;
    hide Victim;
    hide ConflictAt;
  }

  /** Exactly when a round ends with the kept paths clear, from any state, clear or not. */
  lemma RoundEndsClearIff(data0: Store, st: Alloc, self: string, path: Path)
    requires Coherent(data0, st)
    ensures KeptClear(Offer(st, path), self)
       <==> CleansUp(st, self, path) || (KeptClear(st, self) && Harmless(st, self, path))
  {
    if Steals(st, path) {
      TheftEndsClearIff(data0, st, self, path);
      if KeptClear(st, self) && Harmless(st, self, path) {
        HarmlessTheftCleansUp(st, self, path);
      }
    } else {
      hide Coherent;
      hide NoConflict;
      hide Greedy;
      GreedyOneMore(st.used, path);
    }
  }

  /** A round is harmful exactly when its path is there to stay, conflicts with somebody, and either
      everybody it conflicts with uses fewer paths than the new peer did after the last theft, so that
      the conflict is overlooked, or the path is taken from one while another conflict remains. */
  lemma HarmfulIff(data: Store, work: seq<Entry>, used: seq<Path>, paths: seq<Path>, self: string, path: Path)
    requires WellKeyed(data) && IsWorkingList(data, work)
    ensures var st := OfferAll(Alloc(data, work, used), paths);
            var min := Threshold(Alloc(data, work, used), paths);
            !Harmless(st, self, path) <==>
              && !WillDrop(st, path)
              && !NoConflict(st.data, self, path)
              && ((forall k :: k in st.data && ConflictIndex(path, st.data[k].used) >= 0 ==> |st.data[k].used| < min)
                  || (Steals(st, path) && !TakesItsOnlyConflict(st, self, path)))
  {
    FreeGrantIff(data, work, used, paths, path);
    hide OfferAll;
    hide Threshold;
    hide WillDrop;
    hide NoConflict;
    hide TakesItsOnlyConflict;
    hide ConflictIndex;
  }

  // The whole loop and the whole call

  /** Clear since round m: at the start, or by a theft that cleans up, and harmless ever after. */
  ghost predicate ClearFrom(st: Alloc, self: string, paths: seq<Path>, m: int) {
    && 0 <= m <= |paths|
    && (if m == 0 then KeptClear(st, self) else CleansUp(OfferAll(st, paths[..m - 1]), self, paths[m - 1]))
    && forall n :: m <= n < |paths| ==> Harmless(OfferAll(st, paths[..n]), self, paths[n])
  }

  lemma ClearFromOneMore(st: Alloc, self: string, paths: seq<Path>, m: int)
    requires paths != [] && 0 <= m < |paths|
    ensures ClearFrom(st, self, paths, m)
       <==> ClearFrom(st, self, Init(paths), m) && Harmless(OfferAll(st, Init(paths)), self, Last(paths))
  {
    hide Harmless;
    hide CleansUp;
    hide KeptClear;
    hide OfferAll;
    var before := Init(paths);
    assert forall n :: 0 <= n <= |before| ==> before[..n] == paths[..n];
    assert forall n :: 0 <= n < |before| ==> before[n] == paths[n];
  }

  /** Exactly when the loop ends with the kept paths clear, for every start and every list of paths. */
  lemma {:induction false} LoopEndsClearIff(data0: Store, st: Alloc, self: string, paths: seq<Path>)
    requires Coherent(data0, st)
    ensures KeptClear(OfferAll(st, paths), self) <==> exists m :: ClearFrom(st, self, paths, m)
    decreases |paths|
  {
    hide KeptClear;
    hide Harmless;
    hide CleansUp;
    hide Coherent;
    hide Offer;
    if paths == [] {
      assert ClearFrom(st, self, paths, 0) <==> KeptClear(st, self);
    } else {
      var before, last := Init(paths), Last(paths);
      LoopEndsClearIff(data0, st, self, before);
      OfferAllCoherent(data0, st, before);
      RoundEndsClearIff(data0, OfferAll(st, before), self, last);
      assert ClearFrom(st, self, paths, |paths|) <==> CleansUp(OfferAll(st, before), self, last);
      forall m | 0 <= m < |paths|
        ensures ClearFrom(st, self, paths, m)
           <==> ClearFrom(st, self, before, m) && Harmless(OfferAll(st, before), self, last)
      {
        ClearFromOneMore(st, self, paths, m);
      }
      hide OfferAll;
      assert forall m :: ClearFrom(st, self, paths, m) ==> 0 <= m <= |paths|;
      assert forall m :: ClearFrom(st, self, before, m) ==> 0 <= m < |paths|;
      hide ClearFrom;
    }
  }

  /** The peers other than self are disjoint. */
  ghost predicate OthersDisjoint(data: Store, self: string) {
    forall k, l :: k in data && l in data && k != self && l != self && k != l ==> Apart(data[k].used, data[l].used)
  }

  lemma OthersStayDisjoint(data: Store, st: Alloc, self: string)
    requires Coherent(data, st) && OthersDisjoint(data, self)
    ensures OthersDisjoint(st.data, self)
  {
    forall k, p | k in data && p in st.data[k].used ensures p in data[k].used {
      ThinnedIsSubsequence(data[k].used, st.data[k].used, st.used);
      SubsequenceContains(st.data[k].used, data[k].used, p);
    }
  }

  lemma ClearMeansApart(st: Alloc, self: string, k: string)
    requires KeptClear(st, self) && k in st.data && k != self
    ensures Apart(Greedy(st.used), st.data[k].used) && Apart(st.data[k].used, Greedy(st.used))
  {
    forall p, q | p in Greedy(st.used) && q in st.data[k].used ensures !Conflict(p, q) && !Conflict(q, p) {
      var n :| 0 <= n < |st.data[k].used| && st.data[k].used[n] == q;
      assert !ConflictAt(st.data, self, p, k, n);
      ConflictIsSymmetric(p, q);
    }
  }

  lemma DisjointMeansClear(st: Alloc, entry: Entry)
    requires GloballyDisjoint(st.data[entry.addr := entry.(used := Greedy(st.used))])
    ensures KeptClear(st, entry.addr)
  {
    var after := st.data[entry.addr := entry.(used := Greedy(st.used))];
    forall g, k, n | g in Greedy(st.used) && k in st.data && k != entry.addr && 0 <= n < |st.data[k].used|
      ensures !Conflict(g, st.data[k].used[n])
    {
      assert Apart(after[entry.addr].used, after[k].used);
    }
  }

  /** Disjointness, exactly: for every newcomer, store and order of the list. If the other peers are
      disjoint, then all are disjoint after the call if and only if from some round on the kept paths
      are clear: at the start, or by a theft that takes the only conflict there is, and with only
      harmless rounds from there. */
  lemma DisjointIff(data: Store, entry: Entry, work: seq<Entry>)
    requires WellKeyed(data) && IsWorkingList(data, work) && OthersDisjoint(data, entry.addr)
    ensures GloballyDisjoint(Added(data, entry, work))
       <==> exists m :: ClearFrom(Alloc(data, work, entry.used), entry.addr, entry.available, m)
  {
    var st0, st := Alloc(data, work, entry.used), Offered(data, entry, work);
    InitialCoherence(data, work, entry.used);
    OfferAllCoherent(data, st0, entry.available);
    LoopEndsClearIff(data, st0, entry.addr, entry.available);
    OthersStayDisjoint(data, st, entry.addr);
    hide ClearFrom;
    hide Coherent;
    hide Offered;
    hide Greedy;
    hide Apart;
    var after := Added(data, entry, work);
    if GloballyDisjoint(after) {
      DisjointMeansClear(st, entry);
    }
    if KeptClear(st, entry.addr) {
      hide KeptClear;
      forall k | k in st.data && k != entry.addr
        ensures Apart(after[entry.addr].used, after[k].used) && Apart(after[k].used, after[entry.addr].used)
      {
        ClearMeansApart(st, entry.addr, k);
      }
    }
  }

  // Calls that take nothing

  lemma NoConflictIndexNoConflict(path: Path, used: seq<Path>)
    ensures ConflictIndex(path, used) < 0 <==> forall q :: q in used ==> !Conflict(path, q)
  {
  }

  /** A store that looks untouched after a round was untouched before it: used paths only leave. */
  lemma NothingReturns(data: Store, st: Alloc, path: Path)
    requires Coherent(data, st)
    ensures Offer(st, path).data == data <==> st.data == data && !Steals(st, path)
  {
    if Steals(st, path) {
      TheftCoherent(data, st, path);
      var victim := Victim(st, path);
      ThinnedIsSubsequence(data[victim.addr].used, victim.used, st.used);
    }
  }

  /** How many of the paths conflict with nothing in use. */
  ghost function CountFree(data: Store, paths: seq<Path>): nat
    decreases |paths|
  {
    if paths == [] then 0
    else CountFree(data, Init(paths)) + if ConflictsInUse(data, Last(paths)) then 0 else 1
  }

  /** Some peer the path conflicts with uses at most that many paths. */
  ghost predicate PoorConflict(data: Store, path: Path, most: int) {
    exists k :: k in data && ConflictIndex(path, data[k].used) >= 0 && |data[k].used| <= most
  }

  /** What can be told before the call: each path that conflicts with paths in use does so with a peer
      that uses no more paths than the new one has and was given for free before it. */
  ghost predicate NothingToTake(data: Store, used: seq<Path>, paths: seq<Path>) {
    forall i :: 0 <= i < |paths| && ConflictsInUse(data, paths[i]) ==>
      PoorConflict(data, paths[i], |used| + CountFree(data, paths[..i]))
  }

  lemma TargetIffConflict(data: Store, work: seq<Entry>, path: Path)
    requires WellKeyed(data) && IsWorkingList(data, work)
    ensures Target(path, work) >= 0 <==> ConflictsInUse(data, path)
  {
    InitialCoherence(data, work, []);
    hide IsWorkingList;
    var t := Target(path, work);
    if ConflictsInUse(data, path) {
      var q :| InUse(data, q) && Conflict(path, q);
      var k :| k in data && q in data[k].used;
      NoConflictIndexNoConflict(path, data[k].used);
      FirstVictimIsPoorest(data, work, path, k);
    }
    if t >= 0 {
      var v := work[t];
      assert Backed(data, v) && data[v.addr] == v;
      assert InUse(data, v.used[ConflictIndex(path, v.used)]);
    }
  }

  /** On the complete list, the target is the poorest peer in conflict. */
  lemma TargetIsPoorest(data: Store, work: seq<Entry>, path: Path, most: int)
    requires WellKeyed(data) && IsWorkingList(data, work)
    ensures var t := Target(path, work);
            && (t >= 0 <==> ConflictsInUse(data, path))
            && (t >= 0 ==> (PoorConflict(data, path, most) <==> |work[t].used| <= most))
  {
    TargetIffConflict(data, work, path);
    var t := Target(path, work);
    if t >= 0 {
      InitialCoherence(data, work, []);
      assert Backed(data, work[t]) && data[work[t].addr] == work[t];
      hide ConflictsInUse;
      hide IsWorkingList;
      hide WorkCoherent;
      if PoorConflict(data, path, most) {
        var k :| k in data && ConflictIndex(path, data[k].used) >= 0 && |data[k].used| <= most;
        FirstVictimIsPoorest(data, work, path, k);
      }
    }
  }

  lemma NothingToTakeOneMore(data: Store, used: seq<Path>, paths: seq<Path>)
    requires paths != []
    ensures NothingToTake(data, used, paths) <==>
              && NothingToTake(data, used, Init(paths))
              && (ConflictsInUse(data, Last(paths)) ==>
                    PoorConflict(data, Last(paths), |used| + CountFree(data, Init(paths))))
  {
    hide CountFree;
    hide PoorConflict;
    hide ConflictsInUse;
    var before := Init(paths);
    assert forall i :: 0 <= i <= |before| ==> before[..i] == paths[..i];
    assert forall i :: 0 <= i < |before| ==> before[i] == paths[i];
  }

  lemma QuietRound(st: Alloc, path: Path)
    requires !Steals(st, path)
    ensures var st' := Offer(st, path);
            && st'.data == st.data && st'.work == st.work
            && |st'.used| == |st.used| + if Target(path, st.work) < 0 then 1 else 0
  {
  }

  lemma StealsIff(st: Alloc, path: Path)
    ensures Steals(st, path) <==> Target(path, st.work) >= 0 && |st.work[Target(path, st.work)].used| > |st.used|
  {
  }

  lemma TakesNothingStep(data: Store, work: seq<Entry>, used: seq<Path>, before: seq<Path>, st: Alloc, path: Path)
    requires WellKeyed(data) && IsWorkingList(data, work) && Coherent(data, st)
    requires st.data == data ==> st.work == work && |st.used| == |used| + CountFree(data, before)
    ensures var st' := Offer(st, path);
            && (st'.data == data <==>
                  && st.data == data
                  && (ConflictsInUse(data, path) ==> PoorConflict(data, path, |used| + CountFree(data, before))))
            && (st'.data == data ==>
                  st'.work == work
                  && |st'.used| == |used| + CountFree(data, before) + if ConflictsInUse(data, path) then 0 else 1)
  {
    NothingReturns(data, st, path);
    TargetIsPoorest(data, work, path, |used| + CountFree(data, before));
    StealsIff(st, path);
    hide *;
    if !Steals(st, path) {
      QuietRound(st, path);
    }
  }

  /** Exactly when a call takes nothing: told before the call, the same for every order of the list.
      In that case the list stays complete and the conflict-free paths are granted. */
  lemma {:induction false} TakesNothingIff(data: Store, work: seq<Entry>, used: seq<Path>, paths: seq<Path>)
    requires WellKeyed(data) && IsWorkingList(data, work)
    ensures var st := OfferAll(Alloc(data, work, used), paths);
            && (st.data == data <==> NothingToTake(data, used, paths))
            && (st.data == data ==> st.work == work && |st.used| == |used| + CountFree(data, paths))
    decreases |paths|
  {
    hide IsWorkingList;
    hide Offer;
    hide Coherent;
    hide ConflictsInUse;
    if paths == [] {
      return;
    }
    var st0, before, path := Alloc(data, work, used), Init(paths), Last(paths);
    OfferedOneMore(data, st0, paths);
    assert |before| < |paths|;
    CoherentSoFar(data, work, used, before);
    hide *;
    TakesNothingIff(data, work, used, before);
    NothingToTakeOneMore(data, used, paths);
    TakesNothingStep(data, work, used, before, OfferAll(st0, before), path);
  }

  lemma OfferedOneMore(data: Store, st: Alloc, paths: seq<Path>)
    requires paths != []
    ensures OfferAll(st, paths) == Offer(OfferAll(st, Init(paths)), Last(paths))
    ensures CountFree(data, paths) == CountFree(data, Init(paths)) + if ConflictsInUse(data, Last(paths)) then 0 else 1
  {
    hide Offer;
    hide ConflictsInUse;
  }

  lemma CoherentSoFar(data: Store, work: seq<Entry>, used: seq<Path>, paths: seq<Path>)
    requires WellKeyed(data) && IsWorkingList(data, work)
    ensures Coherent(data, OfferAll(Alloc(data, work, used), paths))
  {
    InitialCoherence(data, work, used);
    hide *;
    OfferAllCoherent(data, Alloc(data, work, used), paths);
  }

  lemma ClearRound(data: Store, work: seq<Entry>, used: seq<Path>, paths: seq<Path>, self: string, path: Path)
    requires WellKeyed(data) && IsWorkingList(data, work)
    requires NothingToTake(data, used, paths + [path])
    ensures Harmless(OfferAll(Alloc(data, work, used), paths), self, path)
  {
    var all := paths + [path];
    assert Init(all) == paths && Last(all) == path;
    var st := OfferAll(Alloc(data, work, used), paths);
    TakesNothingIff(data, work, used, paths);
    TakesNothingIff(data, work, used, all);
    NothingToTakeOneMore(data, used, all);
    InitialCoherence(data, work, used);
    OfferAllCoherent(data, Alloc(data, work, used), paths);
    NothingReturns(data, st, path);
    TargetIsPoorest(data, work, path, 0);
    if !ConflictsInUse(data, path) {
      UnusedNoConflict(data, self, path);
    }
  }

  lemma NothingToTakePrefix(data: Store, used: seq<Path>, paths: seq<Path>, n: nat)
    requires NothingToTake(data, used, paths) && n < |paths|
    ensures NothingToTake(data, used, paths[..n] + [paths[n]])
  {
    hide CountFree;
    hide PoorConflict;
    hide ConflictsInUse;
    var prefix := paths[..n] + [paths[n]];
    assert forall i :: 0 <= i <= n ==> prefix[i] == paths[i] && prefix[..i] == paths[..i];
  }

  lemma AllRoundsHarmless(data: Store, work: seq<Entry>, used: seq<Path>, paths: seq<Path>, self: string)
    requires WellKeyed(data) && IsWorkingList(data, work) && NothingToTake(data, used, paths)
    requires KeptClear(Alloc(data, work, used), self)
    ensures ClearFrom(Alloc(data, work, used), self, paths, 0)
  {
    hide NothingToTake;
    hide Harmless;
    hide IsWorkingList;
    hide WellKeyed;
    hide OfferAll;
    hide KeptClear;
    forall n | 0 <= n < |paths| ensures Harmless(OfferAll(Alloc(data, work, used), paths[..n]), self, paths[n]) {
      NothingToTakePrefix(data, used, paths, n);
      ClearRound(data, work, used, paths[..n], self, paths[n]);
    }
  }

  /** If there is nothing to take and the new peer starts clear, disjoint peers stay so. */
  lemma NoTheftKeepsDisjoint(data: Store, entry: Entry, work: seq<Entry>)
    requires WellKeyed(data) && IsWorkingList(data, work) && OthersDisjoint(data, entry.addr)
    requires NothingToTake(data, entry.used, entry.available)
    requires KeptClear(Alloc(data, work, entry.used), entry.addr)
    ensures GloballyDisjoint(Added(data, entry, work))
    ensures var after := Added(data, entry, work);
            forall k :: k in data && k != entry.addr ==> k in after && after[k] == data[k]
  {
    TakesNothingIff(data, work, entry.used, entry.available);
    DisjointIff(data, entry, work);
    AllRoundsHarmless(data, work, entry.used, entry.available, entry.addr);
    hide ClearFrom;
    hide KeptClear;
    hide NothingToTake;
  }

  /** If no available path conflicts with a path in use, nothing is taken: the new peer gets the
      greedy selection of what is available to it, and every other entry stays as it was. */
  lemma NoConflictGetsGreedy(data: Store, entry: Entry, work: seq<Entry>)
    requires WellKeyed(data) && IsWorkingList(data, work)
    requires forall p :: p in entry.available ==> !ConflictsInUse(data, p)
    ensures Added(data, entry, work) == data[entry.addr := entry.(used := Greedy(entry.used + entry.available))]
  {
    NoConflictAllGranted(data, work, entry.used, entry.available);
  }

  lemma {:induction false} NoConflictAllGranted(data: Store, work: seq<Entry>, used: seq<Path>, paths: seq<Path>)
    requires WellKeyed(data) && IsWorkingList(data, work)
    requires forall p :: p in paths ==> !ConflictsInUse(data, p)
    ensures OfferAll(Alloc(data, work, used), paths) == Alloc(data, work, used + paths)
    decreases |paths|
  {
    if paths == [] {
      assert used + paths == used;
    } else {
      NoConflictAllGranted(data, work, used, Init(paths));
      TargetIsPoorest(data, work, Last(paths), 0);
      assert used + paths == used + Init(paths) + [Last(paths)];
    }
  }

  // Newcomers with several paths

  ghost predicate AtMostOneConflict(data: Store, self: string, path: Path) {
    forall k, m, l, n :: ConflictAt(data, self, path, k, m) && ConflictAt(data, self, path, l, n) ==> k == l && m == n
  }

  /** A condition on the store alone: each path conflicts with at most one path in use, and the peer that
      uses it is rich: it uses more than twice as many paths as the new peer can have by then. */
  ghost predicate RichConflicts(data: Store, self: string, used: nat, paths: seq<Path>) {
    forall i :: 0 <= i < |paths| ==>
      && AtMostOneConflict(data, self, paths[i])
      && forall k, n :: ConflictAt(data, self, paths[i], k, n) ==> |data[k].used| > 2 * (used + i)
  }

  /** What conflicts during the loop did so before: two places come from two places. */
  lemma ConflictsWereThere(data: Store, st: Alloc, self: string, path: Path)
    requires Coherent(data, st) && AtMostOneConflict(data, self, path)
    ensures AtMostOneConflict(st.data, self, path)
    ensures forall k, n :: ConflictAt(st.data, self, path, k, n) ==> exists m :: ConflictAt(data, self, path, k, m)
  {
    forall k, n | ConflictAt(st.data, self, path, k, n) ensures exists m :: ConflictAt(data, self, path, k, m) {
      ThinnedIsSubsequence(data[k].used, st.data[k].used, st.used);
      var m := SubsequenceMember(st.data[k].used, data[k].used, n);
      assert ConflictAt(data, self, path, k, m);
    }
    forall k, m, l, n | ConflictAt(st.data, self, path, k, m) && ConflictAt(st.data, self, path, l, n)
      ensures k == l && m == n
    {
      ThinnedIsSubsequence(data[k].used, st.data[k].used, st.used);
      if k == l && m != n {
        var i, j := SubsequencePair(st.data[k].used, data[k].used, if m < n then m else n, if m < n then n else m);
        assert ConflictAt(data, self, path, k, i) && ConflictAt(data, self, path, k, j);
      }
    }
  }

  lemma {:induction false} GrantsAtMostOneEach(st: Alloc, paths: seq<Path>)
    ensures |OfferAll(st, paths).used| <= |st.used| + |paths|
    decreases |paths|
  {
    if paths != [] {
      GrantsAtMostOneEach(st, Init(paths));
    }
  }

  /** A peer so rich is still richer than the new one in any later round. */
  lemma RichStaysRich(data: Store, work: seq<Entry>, used: seq<Path>, paths: seq<Path>, k: string)
    requires WellKeyed(data) && IsWorkingList(data, work)
    requires k in data && |data[k].used| > 2 * (|used| + |paths|)
    ensures var st := OfferAll(Alloc(data, work, used), paths);
            Coherent(data, st) && k in st.data && |st.data[k].used| > |st.used|
  {
    var st0 := Alloc(data, work, used);
    InitialCoherence(data, work, used);
    OfferAllCoherent(data, st0, paths);
    OfferAllBounded(data, st0, paths, {});
    GrantsAtMostOneEach(st0, paths);
    hide IsWorkingList;
    hide OfferAll;
    hide Coherent;
    assert 0 <= Lost(data, OfferAll(st0, paths).data, k) <= |OfferAll(st0, paths).used|;
  }

  /** So it is not filtered out, and the path is taken from it. */
  lemma RichRoundHarmless(
    data: Store, work: seq<Entry>, used: seq<Path>, paths: seq<Path>, self: string, path: Path)
    requires WellKeyed(data) && IsWorkingList(data, work) && self !in data
    requires AtMostOneConflict(data, self, path)
    requires forall k, n :: ConflictAt(data, self, path, k, n) ==> |data[k].used| > 2 * (|used| + |paths|)
    ensures Harmless(OfferAll(Alloc(data, work, used), paths), self, path)
  {
    var st := OfferAll(Alloc(data, work, used), paths);
    InitialCoherence(data, work, used);
    OfferAllCoherent(data, Alloc(data, work, used), paths);
    FreeGrantIff(data, work, used, paths, path);
    hide IsWorkingList;
    hide OfferAll;
    ConflictsWereThere(data, st, self, path);
    if !NoConflict(st.data, self, path) {
      var k, n :| ConflictAt(st.data, self, path, k, n);
      var m :| ConflictAt(data, self, path, k, m);
      RichStaysRich(data, work, used, paths, k);
      NoConflictIndexNoConflict(path, st.data[k].used);
      hide Coherent;
      hide ConflictIndex;
      hide Target;
      hide Threshold;
      assert Target(path, st.work) >= 0;
      TargetIsOnly(data, st, self, path, k, n);
    }
  }

  lemma TargetIsOnly(data: Store, st: Alloc, self: string, path: Path, k: string, n: int)
    requires Coherent(data, st) && self !in data && Target(path, st.work) >= 0
    requires AtMostOneConflict(st.data, self, path) && ConflictAt(st.data, self, path, k, n)
    requires |st.data[k].used| > |st.used|
    ensures TakesItsOnlyConflict(st, self, path)
  {
    var v := Victim(st, path);
    var c := ConflictIndex(path, v.used);
    assert Backed(st.data, v);
    assert ConflictAt(st.data, self, path, v.addr, c);
  }

  /** For every order of the list: a newcomer all of whose paths conflict with at most one path each, of
      a rich peer, leaves disjoint peers disjoint, whatever it takes. */
  lemma RichConflictsKeepDisjoint(data: Store, entry: Entry, work: seq<Entry>)
    requires WellKeyed(data) && IsWorkingList(data, work) && GloballyDisjoint(data) && entry.addr !in data
    requires RichConflicts(data, entry.addr, |entry.used|, entry.available)
    requires KeptClear(Alloc(data, work, entry.used), entry.addr)
    ensures GloballyDisjoint(Added(data, entry, work))
  {
    var st0, paths := Alloc(data, work, entry.used), entry.available;
    DisjointIff(data, entry, work);
    hide Harmless;
    hide IsWorkingList;
    hide OfferAll;
    hide KeptClear;
    hide GloballyDisjoint;
    forall n | 0 <= n < |paths| ensures Harmless(OfferAll(st0, paths[..n]), entry.addr, paths[n]) {
      RichRoundHarmless(data, work, entry.used, paths[..n], entry.addr, paths[n]);
    }
    assert ClearFrom(st0, entry.addr, paths, 0);
  }

  // A newcomer with a single path

  /** A newcomer with a single available path leaves disjoint peers disjoint if and only if at most one
      path in use conflicts with it. */
  lemma SinglePathDisjointIff(data: Store, addr: string, path: Path, work: seq<Entry>)
    requires WellKeyed(data) && IsWorkingList(data, work) && GloballyDisjoint(data) && addr !in data
    ensures GloballyDisjoint(Added(data, Entry(addr, [path], []), work)) <==> AtMostOneConflict(data, addr, path)
  {
    var st0 := Alloc(data, work, []);
    DisjointIff(data, Entry(addr, [path], []), work);
    SinglePathRound(data, addr, path, work);
    assert [path][..0] == [] && OfferAll(st0, []) == st0;
    assert ClearFrom(st0, addr, [path], 0) <==> AtMostOneConflict(data, addr, path);
    assert ClearFrom(st0, addr, [path], 1) ==> AtMostOneConflict(data, addr, path);
    assert forall m :: ClearFrom(st0, addr, [path], m) ==> m == 0 || m == 1;
  }

  lemma SinglePathConflict(data: Store, addr: string, path: Path, work: seq<Entry>)
    requires WellKeyed(data) && IsWorkingList(data, work) && addr !in data
    ensures var st0 := Alloc(data, work, []);
            && (Target(path, work) < 0 ==> NoConflict(data, addr, path) && AtMostOneConflict(data, addr, path))
            && (Target(path, work) >= 0 ==>
                  && Steals(st0, path)
                  && var v := Victim(st0, path);
                     && v.addr in data && data[v.addr] == v
                     && ConflictAt(data, addr, path, v.addr, ConflictIndex(path, v.used)))
  {
    var st0 := Alloc(data, work, []);
    InitialCoherence(data, work, []);
    TargetIsPoorest(data, work, path, 0);
    if Target(path, work) >= 0 {
      TheftCoherent(data, st0, path);
    } else {
      UnusedNoConflict(data, addr, path);
    }
  }

  lemma UnusedNoConflict(data: Store, self: string, path: Path)
    requires !ConflictsInUse(data, path)
    ensures NoConflict(data, self, path)
  {
    forall k, n | k in data && 0 <= n < |data[k].used| ensures !Conflict(path, data[k].used[n]) {
      assert InUse(data, data[k].used[n]);
    }
  }

  lemma SinglePathRound(data: Store, addr: string, path: Path, work: seq<Entry>)
    requires WellKeyed(data) && IsWorkingList(data, work) && addr !in data
    ensures var st0 := Alloc(data, work, []);
            && KeptClear(st0, addr)
            && (Harmless(st0, addr, path) <==> AtMostOneConflict(data, addr, path))
            && (CleansUp(st0, addr, path) ==> AtMostOneConflict(data, addr, path))
  {
    var st0 := Alloc(data, work, []);
    assert Greedy([]) == [];
    SingleIsKept(path);
    assert [] + [path] == [path];
    hide Greedy;
    SinglePathConflict(data, addr, path, work);
    hide IsWorkingList;
    hide Victim;
    hide ConflictIndex;
    hide Target;
    if Target(path, work) >= 0 {
      var v := Victim(st0, path);
      var c := ConflictIndex(path, v.used);
      assert ConflictAt(data, addr, path, v.addr, c);
      assert ConflictsOnlyAt(data, addr, path, v.addr, c) <==> AtMostOneConflict(data, addr, path);
    }
  }

  lemma SingleIsKept(path: Path)
    ensures Greedy([path]) == [path]
  {
    assert Greedy([]) == [];
    GreedyOneMore([], path);
    assert [] + [path] == [path];
  }

  lemma SingleOffer(st: Alloc, path: Path)
    requires st.used == [] && Steals(st, path)
    ensures var v := Victim(st, path);
            && OfferAll(st, [path]).used == [path]
            && OfferAll(st, [path]).data == st.data[v.addr := v.(used := RemoveAt(v.used, ConflictIndex(path, v.used)))]
  {
    assert Init([path]) == [] && OfferAll(st, []) == st;
    hide Target;
    hide ConflictIndex;
  }

  /** A single path in conflict is granted, and costs the first peer in the list that it conflicts with
      one path. */
  lemma SinglePathTakes(data: Store, addr: string, path: Path, work: seq<Entry>)
    requires WellKeyed(data) && IsWorkingList(data, work) && addr !in data && Target(path, work) >= 0
    ensures var v, after := Victim(Alloc(data, work, []), path), Added(data, Entry(addr, [path], []), work);
            && v.addr in data && data[v.addr] == v
            && v.addr in after && |after[v.addr].used| == |v.used| - 1
            && addr in after && after[addr].used == [path]
  {
    SinglePathConflict(data, addr, path, work);
    SingleOffer(Alloc(data, work, []), path);
    SingleIsKept(path);
    hide IsWorkingList;
    hide OfferAll;
    hide Greedy;
    hide Victim;
    hide Target;
    hide ConflictIndex;
  }
}
