/** Downloads do complete, and which bytes a complete download can hold: those of the torrent if only
    checking workers run, and any bytes at all otherwise. */
module SwarmCompletion {
  import opened Bytes
  import opened Torrent
  import opened Pipeline
  import opened Swarm
  import opened SwarmSafety
  import opened SwarmDelivery
  import Bitfield

  /** All workers of the run are of the given kinds. */
  predicate SpawnsIn(es: seq<Event>, kinds: set<Kind>) {
    forall i :: 0 <= i < |es| && es[i].Spawn? ==> es[i].kind in kinds
  }

  // A single worker can always complete the download

  lemma {:induction false} HonestRunAppend(
    t: Torrent, sha1: Hash, content: seq<u8>, r: Swarm, es: seq<Event>, s: Swarm, e: Event)
    requires WellFormed(t) && |content| == t.length && HonestRun(t, sha1, content, r, es, s)
    requires Enabled(t, s, e) && Honest(t, content, s, e)
    ensures HonestRun(t, sha1, content, r, es + [e], Apply(t, sha1, s, e))
    decreases |es|
  {
    hide Apply;
    hide Enabled;
    hide Honest;
    if es == [] {
      assert es + [e] == [e];
      assert [e][1..] == [];
      assert HonestRun(t, sha1, content, Apply(t, sha1, s, e), [], Apply(t, sha1, s, e));
    } else {
      assert (es + [e])[1..] == es[1..] + [e];
      HonestRunAppend(t, sha1, content, Apply(t, sha1, r, es[0]), es[1..], s, e);
    }
  }

  /** The only worker holds or awaits a piece, is not choked, and its peer has every piece. */
  ghost predicate Lone(t: Torrent, kind: Kind, s: Swarm) {
    && !s.halted && !s.closed
    && |s.workers| == 1
    && var k := s.workers[0];
       && k.kind == kind && !k.client.choked
       && (forall i: nat :: i < |t.hashes| ==> Bitfield.HasPiece(k.client.bitfield, i))
       && (k.state.Working? ==> k.state.progress.client == k.client)
  }

  /** A state an honest run with one worker of that kind can reach. */
  ghost predicate Along(t: Torrent, sha1: Hash, content: seq<u8>, kind: Kind, es: seq<Event>, s: Swarm) {
    && WellFormed(t) && |content| == t.length && kind != Supervisor
    && (kind == Checked ==> Genuine(t, sha1, content))
    && HonestRun(t, sha1, content, Initial(t), es, s) && SpawnsIn(es, {kind})
    && Lone(t, kind, s)
  }

  lemma AlongStep(t: Torrent, sha1: Hash, content: seq<u8>, kind: Kind, es: seq<Event>, s: Swarm, e: Event)
    requires Along(t, sha1, content, kind, es, s)
    requires Enabled(t, s, e) && Honest(t, content, s, e) && !e.Spawn? && Lone(t, kind, Apply(t, sha1, s, e))
    ensures Along(t, sha1, content, kind, es + [e], Apply(t, sha1, s, e))
  {
    HonestRunAppend(t, sha1, content, Initial(t), es, s, e);
  }

  /** The worker downloads the piece it works on. */
  lemma {:induction false} PieceArrives(
    t: Torrent, sha1: Hash, content: seq<u8>, kind: Kind, es: seq<Event>, s: Swarm)
    returns (es': seq<Event>, s': Swarm)
    requires Along(t, sha1, content, kind, es, s) && s.workers[0].state.Working?
    ensures Along(t, sha1, content, kind, es', s') && s'.workers[0].state == Idle && s'.queue == s.queue
    decreases |s.workers[0].state.progress.buf| - s.workers[0].state.progress.downloaded
  {
    HonestlyReachedIsRight(t, sha1, content, es, s);
    var p := s.workers[0].state.progress;
    if p.downloaded < |p.buf| {
      AnswerAlwaysPossible(t, sha1, content, s, 0);
      var f :| var e := Turn(0, f, Some(0));
        && Enabled(t, s, e) && Honest(t, content, s, e)
        && var k := Apply(t, sha1, s, e).workers[0];
           && k.kind == s.workers[0].kind && k.state.Working? && k.client == k.state.progress.client == p.client
           && |k.state.progress.buf| == |p.buf| && k.state.progress.downloaded > p.downloaded;
      var e := Turn(0, f, Some(0));
      var next := Apply(t, sha1, s, e);
      TurnKeepsTheRest(t, sha1, s, e);
      hide Honest;
      hide Apply;
      AlongStep(t, sha1, content, kind, es, s, e);
      es', s' := PieceArrives(t, sha1, content, kind, es + [e], next);
    } else {
      es', s' := PieceIsHandedOver(t, sha1, content, kind, es, s);
    }
  }

  lemma TurnKeepsTheRest(t: Torrent, sha1: Hash, s: Swarm, e: Event)
    requires e.Turn? && Enabled(t, s, e)
    ensures var s' := Apply(t, sha1, s, e);
            s' == s.(workers := s'.workers) && |s'.workers| == |s.workers|
  {
  }

  lemma PieceIsHandedOver(t: Torrent, sha1: Hash, content: seq<u8>, kind: Kind, es: seq<Event>, s: Swarm)
    returns (es': seq<Event>, s': Swarm)
    requires Along(t, sha1, content, kind, es, s) && s.workers[0].state.Working?
    requires s.workers[0].state.progress.downloaded >= |s.workers[0].state.progress.buf|
    ensures Along(t, sha1, content, kind, es', s') && s'.workers[0].state == Idle && s'.queue == s.queue
  {
    HonestlyReachedIsRight(t, sha1, content, es, s);
    SafeHasNotPanicked(t, sha1, s);
    FinishedIsRight(t, content, s.workers[0]);
    var p := s.workers[0].state.progress;
    assert WorkerSafe(t, sha1, s.workers[0]);
    hide Safe;
    hide Right;
    hide PieceContent;
    hide Sound;
    var finished := Apply(t, sha1, s, Finish(0));
    AlongStep(t, sha1, content, kind, es, s, Finish(0));
    HonestRunIsRun(t, sha1, content, Initial(t), es + [Finish(0)], finished);
    NoSendBlocksOrPanics(t, sha1, finished, Deliver(0));
    es', s' := es + [Finish(0)] + [Deliver(0)], Apply(t, sha1, finished, Deliver(0));
    AlongStep(t, sha1, content, kind, es + [Finish(0)], finished, Deliver(0));
  }

  /** The worker downloads all pieces left in the queue. */
  lemma {:induction false} AllArrive(t: Torrent, sha1: Hash, content: seq<u8>, kind: Kind, es: seq<Event>, s: Swarm)
    returns (es': seq<Event>, s': Swarm)
    requires Along(t, sha1, content, kind, es, s) && s.workers[0].state == Idle
    ensures Along(t, sha1, content, kind, es', s') && s'.workers[0].state == Idle && s'.queue == []
    decreases |s.queue|
  {
    if s.queue == [] {
      es', s' := es, s;
    } else {
      HonestlyReachedIsRight(t, sha1, content, es, s);
      SafeQueue(t, sha1, s);
      SafeHasNotPanicked(t, sha1, s);
      hide Safe;
      hide Right;
      hide Begin;
      hide End;
      var taken := Apply(t, sha1, s, Take(0));
      AlongStep(t, sha1, content, kind, es, s, Take(0));
      hide Apply;
      var es1, s1 := PieceArrives(t, sha1, content, kind, es + [Take(0)], taken);
      es', s' := AllArrive(t, sha1, content, kind, es1, s1);
    }
  }

  /** A bitfield with every piece. */
  lemma FullBitfield(n: nat) returns (bf: seq<u8>)
    ensures forall i: nat :: i < n ==> Bitfield.HasPiece(bf, i)
  {
    var none := seq(n, _ => 0);
    var all := seq(n, i requires 0 <= i < n => i);
    bf := Bitfield.InsertAll(none, all);
    Bitfield.RunRefinesSet(none, all);
    forall i: nat | i < n ensures Bitfield.HasPiece(bf, i) {
      assert all[i] == i && i in all;
      assert i in Bitfield.Members(bf);
    }
  }

  /** Completion. For every torrent and every content its peers may serve, a single worker can bring an
      honest run to its end, with that content in the buffer: any content if the worker does not
      check, and content with the torrent's hashes if it does. */
  lemma CompleteHonestRunExists(t: Torrent, sha1: Hash, content: seq<u8>, kind: Kind)
    returns (es: seq<Event>, s: Swarm)
    requires WellFormed(t) && |content| == t.length && kind != Supervisor
    requires kind == Checked ==> Genuine(t, sha1, content)
    ensures HonestRun(t, sha1, content, Initial(t), es, s) && SpawnsIn(es, {kind})
    ensures |s.arrivals| == |t.hashes| && s.closed && !s.halted && s.buf == content
  {
    var bf := FullBitfield(|t.hashes|);
    var spawn := Spawn(kind, Client(false, bf));
    var s0, s1 := Initial(t), Apply(t, sha1, Initial(t), spawn);
    assert HonestRun(t, sha1, content, s0, [], s0);
    HonestRunAppend(t, sha1, content, s0, [], s0, spawn);
    assert [] + [spawn] == [spawn];
    var es2, s2 := AllArrive(t, sha1, content, kind, [spawn], s1);
    HonestlyReachedIsRight(t, sha1, content, es2, s2);
    EmptyQueueIsComplete(t, sha1, s2);
    HonestRunAppend(t, sha1, content, s0, es2, s2, Close);
    es, s := es2 + [Close], Apply(t, sha1, s2, Close);
    CompleteIsContent(t, sha1, content, es, s);
  }

  lemma EmptyQueueIsComplete(t: Torrent, sha1: Hash, s: Swarm)
    requires Safe(t, sha1, s) && |s.workers| == 1 && s.workers[0].state == Idle && s.queue == []
    ensures |s.arrivals| == |t.hashes| && !s.panicked
  {
    ExactlyOnePlace(t, s, 0);
    assert s.workers[1..] == [];
    assert Held(s.workers) == multiset{};
  }

  // What complete downloads can hold

  ghost predicate KindsIn(s: Swarm, kinds: set<Kind>) {
    && (forall w: nat :: w < |s.workers| ==> s.workers[w].kind in kinds)
    && (forall a: nat :: a < |s.arrivals| ==> s.arrivals[a].kind in kinds && s.arrivals[a].kind != Supervisor)
  }

  lemma WorkerKeepsKind(t: Torrent, sha1: Hash, s: Swarm, e: Event)
    requires Enabled(t, s, e)
    ensures var s' := Apply(t, sha1, s, e);
            && |s.workers| <= |s'.workers|
            && (forall w: nat :: w < |s.workers| ==> s'.workers[w].kind == s.workers[w].kind)
            && (forall w: nat :: |s.workers| <= w < |s'.workers| ==> e.Spawn? && s'.workers[w].kind == e.kind)
  {
    if e.Turn? {
      TurnKeepsIndex(s.workers[e.w], e.f, e.answered);
    }
    hide Turned;
    hide CopyPiece;
    hide HashOk;
    hide BufferSize;
  }

  lemma ArrivalHasWorkersKind(t: Torrent, sha1: Hash, s: Swarm, e: Event)
    requires Safe(t, sha1, s) && Enabled(t, s, e)
    ensures var s' := Apply(t, sha1, s, e);
            s'.arrivals == s.arrivals ||
            exists w: nat, a :: w < |s.workers| && s'.arrivals == s.arrivals + [a]
              && a.kind == s.workers[w].kind != Supervisor
  {
    OnlyDeliverWrites(t, sha1, s, e);
    if e.Deliver? {
      var k := s.workers[e.w];
      assert WorkerSafe(t, sha1, k);
      hide Safe;
      hide CopyPiece;
      var a := Arrival(k.state.index, k.state.data, k.kind);
      assert Apply(t, sha1, s, e).arrivals == s.arrivals || Apply(t, sha1, s, e).arrivals == s.arrivals + [a];
    }
  }

  lemma StepKeepsKinds(t: Torrent, sha1: Hash, s: Swarm, e: Event, kinds: set<Kind>)
    requires Safe(t, sha1, s) && KindsIn(s, kinds) && Enabled(t, s, e)
    requires e.Spawn? ==> e.kind in kinds
    ensures KindsIn(Apply(t, sha1, s, e), kinds)
  {
    WorkerKeepsKind(t, sha1, s, e);
    ArrivalHasWorkersKind(t, sha1, s, e);
    hide Safe;
    hide Apply;
    hide Enabled;
  }

  lemma {:induction false} RunKeepsKinds(
    t: Torrent, sha1: Hash, s: Swarm, es: seq<Event>, s': Swarm, kinds: set<Kind>)
    requires WellFormed(t) && Safe(t, sha1, s) && KindsIn(s, kinds) && SpawnsIn(es, kinds)
    requires Run(t, sha1, s, es, s')
    ensures KindsIn(s', kinds)
    decreases |es|
  {
    hide Safe;
    hide Apply;
    hide Enabled;
    hide KindsIn;
    if es != [] {
      StepIsSafe(t, sha1, s, es[0]);
      StepKeepsKinds(t, sha1, s, es[0], kinds);
      assert SpawnsIn(es[1..], kinds);
      RunKeepsKinds(t, sha1, Apply(t, sha1, s, es[0]), es[1..], s', kinds);
    }
  }

  /** The run collects a result for each piece. */
  ghost predicate Completes(t: Torrent, sha1: Hash, es: seq<Event>, s: Swarm) {
    Run(t, sha1, Initial(t), es, s) && |s.arrivals| == |t.hashes|
  }

  lemma CheckedRunIsGenuine(t: Torrent, sha1: Hash, es: seq<Event>, s: Swarm, kinds: set<Kind>)
    requires WellFormed(t) && Completes(t, sha1, es, s) && SpawnsIn(es, kinds) && Unchecked !in kinds
    ensures Genuine(t, sha1, s.buf)
  {
    assert Reachable(t, sha1, s);
    ReachableIsSafe(t, sha1, s);
    InitialIsSafe(t, sha1);
    RunKeepsKinds(t, sha1, Initial(t), es, s, kinds);
    forall i: nat | i < |t.hashes| ensures HashOk(t, sha1, i, PieceContent(t, s.buf, i)) {
      CheckedDownloadIsGenuine(t, sha1, s, i);
    }
  }

  /** A worker that does not check can complete any download with any bytes of the right length. */
  lemma UncheckedWorkersMayCorrupt(t: Torrent, sha1: Hash, content: seq<u8>) returns (es: seq<Event>, s: Swarm)
    requires WellFormed(t) && |content| == t.length
    ensures Completes(t, sha1, es, s) && SpawnsIn(es, {Unchecked})
    ensures s.closed && !s.halted && s.buf == content
  {
    es, s := CompleteHonestRunExists(t, sha1, content, Unchecked);
    HonestRunIsRun(t, sha1, content, Initial(t), es, s);
  }

  /** Exactly when downloads are genuine: with workers of the given kinds only, every complete download
      has the hash of every piece if and only if no worker skips the check, or the torrent is one that
      no bytes of its length can fail. */
  lemma CompleteRunsAreGenuineIff(t: Torrent, sha1: Hash, kinds: set<Kind>)
    requires WellFormed(t)
    ensures (forall es, s :: Completes(t, sha1, es, s) && SpawnsIn(es, kinds) ==> Genuine(t, sha1, s.buf))
       <==> Unchecked !in kinds || forall content: seq<u8> :: |content| == t.length ==> Genuine(t, sha1, content)
  {
    forall es, s | Completes(t, sha1, es, s) && SpawnsIn(es, kinds)
      ensures |s.buf| == t.length && (Unchecked !in kinds ==> Genuine(t, sha1, s.buf))
    {
      assert Reachable(t, sha1, s);
      ReachableIsSafe(t, sha1, s);
      if Unchecked !in kinds {
        CheckedRunIsGenuine(t, sha1, es, s, kinds);
      }
    }
    if Unchecked in kinds {
      forall content: seq<u8> | |content| == t.length
        ensures exists es, s :: Completes(t, sha1, es, s) && SpawnsIn(es, kinds) && s.buf == content
      {
        var es, s := UncheckedWorkersMayCorrupt(t, sha1, content);
        assert SpawnsIn(es, kinds);
      }
    }
    hide Completes;
    hide Genuine;
    hide SpawnsIn;
  }
}
