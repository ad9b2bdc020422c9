/** Paths, when two of them conflict, and the greedy conflict-free selection of
    pathselection/pathselectionstore.go. */
module Paths {

  /** One hop of a path: an AS and an interface number in it. */
  datatype Interface = Interface(ia: int, id: int)

  datatype Path = Path(interfaces: seq<Interface>)

  function Init<T>(s: seq<T>): seq<T>
    requires s != []
  {
    s[..|s| - 1]
  }

  function Last<T>(s: seq<T>): T
    requires s != []
  {
    s[|s| - 1]
  }

  /** Positions i and j name the same interface, and are not both first or both last. */
  predicate ShareInterface(p: Path, q: Path, i: int, j: int) {
    && 0 <= i < |p.interfaces|
    && 0 <= j < |q.interfaces|
    && !(i == 0 && j == 0)
    && !(i == |p.interfaces| - 1 && j == |q.interfaces| - 1)
    && p.interfaces[i] == q.interfaces[j]
  }

  ghost predicate Conflict(p: Path, q: Path) {
    exists i, j :: ShareInterface(p, q, i, j)
  }

  lemma ConflictIsSymmetric(p: Path, q: Path)
    ensures Conflict(p, q) <==> Conflict(q, p)
  {
    if Conflict(p, q) {
      var i, j :| ShareInterface(p, q, i, j);
      assert ShareInterface(q, p, j, i);
    }
    if Conflict(q, p) {
      var i, j :| ShareInterface(q, p, i, j);
      assert ShareInterface(p, q, j, i);
    }
  }

  /** Conflict, position by position: an AS and an interface number that both agree, at a pair of positions
      that is neither first and first nor last and last. */
  lemma ConflictIff(p: Path, q: Path)
    ensures Conflict(p, q) <==>
              exists i, j ::
                && 0 <= i < |p.interfaces| && 0 <= j < |q.interfaces|
                && p.interfaces[i].ia == q.interfaces[j].ia && p.interfaces[i].id == q.interfaces[j].id
                && (i > 0 || j > 0) && (i + 1 < |p.interfaces| || j + 1 < |q.interfaces|)
  {
    if Conflict(p, q) {
      var i, j :| ShareInterface(p, q, i, j);
      assert p.interfaces[i].ia == q.interfaces[j].ia;
    }
    if i, j :|
      && 0 <= i < |p.interfaces| && 0 <= j < |q.interfaces|
      && p.interfaces[i].ia == q.interfaces[j].ia && p.interfaces[i].id == q.interfaces[j].id
      && (i > 0 || j > 0) && (i + 1 < |p.interfaces| || j + 1 < |q.interfaces|)
    {
      assert ShareInterface(p, q, i, j);
    }
  }

  function Reversed(p: Path): (r: Path)
    ensures |r.interfaces| == |p.interfaces|
  {
    var n := |p.interfaces|;
    Path(seq(n, i requires 0 <= i < n => p.interfaces[n - 1 - i]))
  }

  /** The two exemptions mirror each other: walked from the other end, paths conflict just the same. */
  lemma ConflictOfReversed(p: Path, q: Path)
    ensures Conflict(Reversed(p), Reversed(q)) <==> Conflict(p, q)
  {
    var m, n := |p.interfaces|, |q.interfaces|;
    if i, j :| ShareInterface(p, q, i, j) {
      assert ShareInterface(Reversed(p), Reversed(q), m - 1 - i, n - 1 - j);
    }
    if i, j :| ShareInterface(Reversed(p), Reversed(q), i, j) {
      assert ShareInterface(p, q, m - 1 - i, n - 1 - j);
    }
  }

  /** Paths that leave and arrive through the same interfaces but meet nowhere else do not conflict. */
  lemma MeetingAtTheEndsOnly(first: Interface, last: Interface, ps: seq<Interface>, qs: seq<Interface>)
    requires first != last && first !in ps + qs && last !in ps + qs
    requires forall x :: x in ps ==> x !in qs
    ensures !Conflict(Path([first] + ps + [last]), Path([first] + qs + [last]))
  {
    var p, q := Path([first] + ps + [last]), Path([first] + qs + [last]);
    forall i, j ensures !ShareInterface(p, q, i, j) {
      if 0 < i < |p.interfaces| - 1 && 0 <= j < |q.interfaces| {
        assert p.interfaces[i] == ps[i - 1] && ps[i - 1] in ps;
      }
      if 0 < j < |q.interfaces| - 1 && 0 <= i < |p.interfaces| {
        assert q.interfaces[j] == qs[j - 1] && qs[j - 1] in qs;
      }
    }
  }

  method PathsConflict(p: Path, q: Path) returns (conflict: bool)
    ensures conflict <==> Conflict(p, q)
  {
    for i := 0 to |p.interfaces|
      invariant forall i', j' :: i' < i ==> !ShareInterface(p, q, i', j')
    {
      for j := 0 to |q.interfaces|
        invariant forall i', j' :: i' < i || (i' == i && j' < j) ==> !ShareInterface(p, q, i', j')
      {
        if i == 0 && j == 0 {
          continue;
        }
        if i == |p.interfaces| - 1 && j == |q.interfaces| - 1 {
          continue;
        }
        if p.interfaces[i] == q.interfaces[j] {
          assert ShareInterface(p, q, i, j);
          return true;
        }
      }
    }
    return false;
  }

  ghost predicate ConflictsWithSome(p: Path, paths: seq<Path>) {
    exists q :: q in paths && Conflict(p, q)
  }

  /** No path conflicts with another one, in either direction. */
  ghost predicate ConflictFree(paths: seq<Path>) {
    forall i, j :: 0 <= i < |paths| && 0 <= j < |paths| && i != j ==> !Conflict(paths[i], paths[j])
  }

  // Subsequences

  ghost predicate Subsequence<T>(a: seq<T>, b: seq<T>)
    decreases |b|
  {
    a == [] ||
    (b != [] && (Subsequence(a, Init(b)) || (Last(a) == Last(b) && Subsequence(Init(a), Init(b)))))
  }

  lemma {:induction false} SubsequenceReflexive<T>(a: seq<T>)
    ensures Subsequence(a, a)
    decreases |a|
  {
    if a != [] {
      SubsequenceReflexive(Init(a));
    }
  }

  lemma SubsequenceGrows<T>(a: seq<T>, b: seq<T>, x: T)
    requires Subsequence(a, b)
    ensures Subsequence(a, b + [x]) && Subsequence(a + [x], b + [x])
  {
    assert Init(b + [x]) == b && Init(a + [x]) == a;
  }

  lemma {:induction false} SubsequenceTransitive<T>(a: seq<T>, b: seq<T>, c: seq<T>)
    requires Subsequence(a, b) && Subsequence(b, c)
    ensures Subsequence(a, c)
    decreases |b| + |c|
  {
    if a != [] {
      if Subsequence(b, Init(c)) {
        SubsequenceTransitive(a, b, Init(c));
      } else if Subsequence(a, Init(b)) {
        SubsequenceTransitive(a, Init(b), Init(c));
      } else {
        SubsequenceTransitive(Init(a), Init(b), Init(c));
      }
    }
  }

  /** Two positions of a subsequence come from two positions of the whole, in the same order. */
  lemma {:induction false} SubsequencePair<T>(a: seq<T>, b: seq<T>, i: int, j: int) returns (i': int, j': int)
    requires Subsequence(a, b) && 0 <= i < j < |a|
    ensures 0 <= i' < j' < |b| && b[i'] == a[i] && b[j'] == a[j]
    decreases |b|
  {
    if Subsequence(a, Init(b)) {
      i', j' := SubsequencePair(a, Init(b), i, j);
    } else if j < |a| - 1 {
      i', j' := SubsequencePair(Init(a), Init(b), i, j);
    } else {
      j' := |b| - 1;
      i' := SubsequenceMember(Init(a), Init(b), i);
    }
  }

  lemma {:induction false} SubsequenceMember<T>(a: seq<T>, b: seq<T>, i: int) returns (i': int)
    requires Subsequence(a, b) && 0 <= i < |a|
    ensures 0 <= i' < |b| && b[i'] == a[i]
    decreases |b|
  {
    if Subsequence(a, Init(b)) {
      i' := SubsequenceMember(a, Init(b), i);
    } else if i == |a| - 1 {
      i' := |b| - 1;
    } else {
      i' := SubsequenceMember(Init(a), Init(b), i);
    }
  }

  lemma SubsequenceConflictFree(a: seq<Path>, b: seq<Path>)
    requires Subsequence(a, b) && ConflictFree(b)
    ensures ConflictFree(a)
  {
    forall i, j | 0 <= i < |a| && 0 <= j < |a| && i != j ensures !Conflict(a[i], a[j]) {
      var i', j' := SubsequencePair(a, b, if i < j then i else j, if i < j then j else i);
    }
  }

  // The greedy selection

  /** What getConflictFreePaths returns for a list of used paths. */
  ghost function Greedy(paths: seq<Path>): seq<Path>
    decreases |paths|
  {
    if paths == [] then []
    else
      var kept := Greedy(Init(paths));
      if ConflictsWithSome(Last(paths), kept) then kept else kept + [Last(paths)]
  }

  method GetConflictFreePaths(used: seq<Path>) returns (paths: seq<Path>)
    ensures paths == Greedy(used)
  {
    paths := [];
    for n := 0 to |used|
      invariant paths == Greedy(used[..n])
    {
      var p1 := used[n];
      var pathsConflicted := false;
      for k := 0 to |paths|
        invariant !pathsConflicted
        invariant forall k' :: 0 <= k' < k ==> !Conflict(p1, paths[k'])
      {
        var c := PathsConflict(p1, paths[k]);
        if c {
          pathsConflicted := true;
          break;
        }
      }
      assert pathsConflicted <==> ConflictsWithSome(p1, paths);
      assert Init(used[..n + 1]) == used[..n];
      if !pathsConflicted {
        paths := paths + [p1];
      }
    }
    assert used[..|used|] == used;
  }

  /** The selection keeps order and never keeps two conflicting paths. */
  lemma {:induction false} GreedyIsConflictFreeSublist(paths: seq<Path>)
    ensures Subsequence(Greedy(paths), paths)
    ensures ConflictFree(Greedy(paths))
    decreases |paths|
  {
    if paths != [] {
      GreedyIsConflictFreeSublist(Init(paths));
      var kept, last := Greedy(Init(paths)), Last(paths);
      if !ConflictsWithSome(last, kept) {
        assert Init(kept + [last]) == kept;
        forall q | q in kept ensures !Conflict(last, q) && !Conflict(q, last) {
          ConflictIsSymmetric(last, q);
        }
      }
    }
  }

  lemma {:induction false} GreedyGrows(paths: seq<Path>, n: nat)
    requires n <= |paths|
    ensures Greedy(paths[..n]) <= Greedy(paths)
    decreases |paths| - n
  {
    if n == |paths| {
      assert paths[..n] == paths;
    } else {
      GreedyGrows(paths, n + 1);
      assert Init(paths[..n + 1]) == paths[..n];
    }
  }

  /** Maximality: a path is dropped only because it conflicts with one kept before it. */
  lemma GreedyIsMaximal(paths: seq<Path>, n: nat)
    requires n < |paths|
    ensures paths[n] in Greedy(paths) || ConflictsWithSome(paths[n], Greedy(paths[..n]))
    ensures Greedy(paths[..n]) <= Greedy(paths)
  {
    GreedyGrows(paths, n);
    GreedyGrows(paths, n + 1);
    var upTo := paths[..n + 1];
    assert Init(upTo) == paths[..n] && Last(upTo) == paths[n];
    hide ConflictsWithSome;
    if !ConflictsWithSome(paths[n], Greedy(paths[..n])) {
      assert Greedy(upTo) == Greedy(paths[..n]) + [paths[n]];
      LastOfPrefix(Greedy(paths[..n]), paths[n], Greedy(paths));
    }
  }

  lemma LastOfPrefix<T>(a: seq<T>, x: T, b: seq<T>)
    requires a + [x] <= b
    ensures x in b
  {
    assert b[|a|] == x;
  }

  lemma InitOfConflictFree(paths: seq<Path>)
    requires paths != [] && ConflictFree(paths)
    ensures ConflictFree(Init(paths))
    ensures !ConflictsWithSome(Last(paths), Init(paths))
  {
    var n := |paths| - 1;
    forall i, j | 0 <= i < n && 0 <= j < n && i != j ensures !Conflict(Init(paths)[i], Init(paths)[j]) {
      assert !Conflict(paths[i], paths[j]);
    }
    forall q | q in Init(paths) ensures !Conflict(Last(paths), q) {
      var i :| 0 <= i < n && Init(paths)[i] == q;
      assert !Conflict(paths[n], paths[i]);
    }
  }

  lemma GreedyGrants(paths: seq<Path>, kept: seq<Path>)
    requires paths != [] && kept == Greedy(Init(paths)) && !ConflictsWithSome(Last(paths), kept)
    ensures Greedy(paths) == kept + [Last(paths)]
  {
  }

  lemma InitPlusLast<T>(s: seq<T>)
    requires s != []
    ensures Init(s) + [Last(s)] == s
  {
  }

  lemma {:induction false} GreedyKeepsConflictFree(paths: seq<Path>)
    requires ConflictFree(paths)
    ensures Greedy(paths) == paths
    decreases |paths|
  {
    if paths != [] {
      InitOfConflictFree(paths);
      GreedyKeepsConflictFree(Init(paths));
      GreedyGrants(paths, Init(paths));
      InitPlusLast(paths);
    }
  }

  /** A second pass changes nothing. */
  lemma GreedyIsIdempotent(paths: seq<Path>)
    ensures Greedy(Greedy(paths)) == Greedy(paths)
  {
    GreedyIsConflictFreeSublist(paths);
    GreedyKeepsConflictFree(Greedy(paths));
  }
}
