/** What holds in every reachable state of a download, whatever the peers send: no send blocks for
    good or panics, requests and buffers stay in range, and checked pieces are genuine and final. */
module SwarmSafety {
  import opened Bytes
  import opened Message
  import opened Torrent
  import opened Pipeline
  import opened Swarm

  ghost predicate WorkerSafe(t: Torrent, sha1: Hash, k: Worker) {
    match k.state
    case Working(p, sent) =>
      && k.kind != Supervisor
      && p.index < |t.hashes| && |p.buf| == PieceSize(t, p.index)
      && Tiled(p, sent) && p.backlog <= MAX_BACKLOG
    case PuttingBack(index, _) => index < |t.hashes|
    case Delivering(index, data) =>
      && k.kind != Supervisor
      && index < |t.hashes| && |data| == PieceSize(t, index)
      && (k.kind == Checked ==> HashOk(t, sha1, index, data))
    case Idle => true
    case Stopped => true
  }

  /** A result that arrived still stands in the buffer. */
  predicate Stands(t: Torrent, buf: seq<u8>, a: Arrival) {
    && a.index < |t.hashes| && |a.data| == PieceSize(t, a.index)
    && 0 <= Begin(t, a.index) <= End(t, a.index) <= |buf|
    && buf[Begin(t, a.index)..End(t, a.index)] == a.data
  }

  ghost predicate ArrivalSafe(t: Torrent, sha1: Hash, buf: seq<u8>, a: Arrival) {
    Stands(t, buf, a) && (a.kind == Checked ==> HashOk(t, sha1, a.index, a.data))
  }

  ghost predicate WorkersSafe(t: Torrent, sha1: Hash, workers: seq<Worker>) {
    forall w: nat :: w < |workers| ==> WorkerSafe(t, sha1, workers[w])
  }

  ghost predicate ArrivalsSafe(t: Torrent, sha1: Hash, s: Swarm) {
    forall a: nat :: a < |s.arrivals| ==> ArrivalSafe(t, sha1, s.buf, s.arrivals[a])
  }

  ghost predicate Safe(t: Torrent, sha1: Hash, s: Swarm) {
    && Conserved(t, s)
    && |s.buf| == t.length
    && (s.closed ==> |s.arrivals| == |t.hashes|)
    && !s.panicked
    && WorkersSafe(t, sha1, s.workers)
    && ArrivalsSafe(t, sha1, s)
  }

  lemma InitialIsSafe(t: Torrent, sha1: Hash)
    requires WellFormed(t)
    ensures Safe(t, sha1, Initial(t))
  {
    var s := Initial(t);
    assert Held(s.workers) == multiset{} && Arrived(s.arrivals) == multiset{};
    assert multiset(s.queue) + multiset{} + multiset{} == multiset(s.queue);
  }

  lemma PieceInQueue(t: Torrent, s: Swarm, i: nat)
    requires Conserved(t, s) && i in s.queue
    ensures i < |t.hashes|
  {
    ExactlyOnePlace(t, s, i);
  }

  lemma TakenIsSafe(t: Torrent, sha1: Hash, k: Worker, index: nat)
    requires WellFormed(t) && index < |t.hashes|
    ensures WorkerSafe(t, sha1, Taken(t, k, index))
  {
    PieceInFile(t, index);
    var size := BufferSize(t, index);
    hide PieceSize;
    StartIsSound(seq(size, _ => 0), k.client, index);
  }

  lemma TurnedIsSafe(t: Torrent, sha1: Hash, k: Worker, f: Frame, answered: Option<nat>)
    requires k.state.Working? && WorkerSafe(t, sha1, k)
    ensures WorkerSafe(t, sha1, Turned(k, f, answered))
  {
    hide Ask;
    hide Receive;
    hide Tiled;
    hide PieceSize;
    TurnTiles(k.state.progress, k.state.sent, f);
  }

  /** What one worker does keeps all workers safe. */
  lemma WorkersStaySafe(t: Torrent, sha1: Hash, s: Swarm, e: Event)
    requires WellFormed(t) && Safe(t, sha1, s) && Enabled(t, s, e)
    ensures WorkersSafe(t, sha1, Apply(t, sha1, s, e).workers)
  {
    hide PieceSize;
    hide Tiled;
    hide Ask;
    hide Receive;
    hide HashOk;
    hide ArrivalsSafe;
    hide Pool;
    hide Turned;
    hide Taken;
    hide CopyPiece;
    match e
    case Spawn(_, _) =>
    case Take(w) =>
      PieceInQueue(t, s, s.queue[0]);
      TakenIsSafe(t, sha1, s.workers[w], s.queue[0]);
    case Turn(w, f, answered) => TurnedIsSafe(t, sha1, s.workers[w], f, answered);
    case Break(w) =>
    case Finish(w) =>
    case PutBack(w) =>
    case Deliver(w) =>
    case Close =>
    case Quit(w) =>
  }

  lemma CopyFits(t: Torrent, buf: seq<u8>, index: nat, data: seq<u8>)
    requires WellFormed(t) && |buf| == t.length && index < |t.hashes| && |data| == PieceSize(t, index)
    ensures 0 <= Begin(t, index) && Begin(t, index) + |data| <= |buf|
    ensures CopyPiece(t, buf, index, data) == Some(Paste(buf, Begin(t, index), data))
  {
    PieceInFile(t, index);
    assert data[..|data|] == data;
  }

  lemma PasteElsewhere(buf: seq<u8>, begin: nat, data: seq<u8>, low: nat, high: nat)
    requires begin + |data| <= |buf| && low <= high <= |buf|
    requires high <= begin || begin + |data| <= low
    ensures Paste(buf, begin, data)[low..high] == buf[low..high]
  {
  }

  /** Copying one piece in leaves the others alone: pieces do not overlap. */
  lemma CopyKeepsOthers(t: Torrent, buf: seq<u8>, index: nat, data: seq<u8>, a: Arrival)
    requires WellFormed(t) && |buf| == t.length && index < |t.hashes| && |data| == PieceSize(t, index)
    requires Stands(t, buf, a) && a.index != index
    ensures CopyPiece(t, buf, index, data).Some? && Stands(t, CopyPiece(t, buf, index, data).value, a)
  {
    hide Begin;
    hide End;
    hide CopyPiece;
    CopyFits(t, buf, index, data);
    if index < a.index {
      PiecesInOrder(t, index, a.index);
    } else {
      PiecesInOrder(t, a.index, index);
    }
    PasteElsewhere(buf, Begin(t, index), data, Begin(t, a.index), End(t, a.index));
  }

  lemma CopyStands(t: Torrent, buf: seq<u8>, a: Arrival)
    requires WellFormed(t) && |buf| == t.length && a.index < |t.hashes| && |a.data| == PieceSize(t, a.index)
    ensures CopyPiece(t, buf, a.index, a.data).Some? && Stands(t, CopyPiece(t, buf, a.index, a.data).value, a)
  {
    CopyFits(t, buf, a.index, a.data);
    PieceInFile(t, a.index);
  }

  /** A piece a worker holds has not arrived yet. */
  lemma NotArrivedTwice(t: Torrent, s: Swarm, w: nat, a: nat)
    requires Conserved(t, s) && w < |s.workers| && a < |s.arrivals|
    ensures s.arrivals[a].index !in HeldBy(s.workers[w])
  {
    var i := s.arrivals[a].index;
    ExactlyOnePlace(t, s, i);
    ArrivedHas(s.arrivals, a);
    HeldHas(s.workers, w);
  }

  lemma DeliverIsSafe(t: Torrent, sha1: Hash, s: Swarm, w: nat)
    requires WellFormed(t) && Safe(t, sha1, s) && Enabled(t, s, Deliver(w))
    ensures var s' := Apply(t, sha1, s, Deliver(w));
            !s'.panicked && |s'.buf| == t.length && ArrivalsSafe(t, sha1, s')
  {
    hide PieceSize;
    hide Stands;
    hide HashOk;
    hide Pool;
    hide CopyPiece;
    hide Tiled;
    var k := s.workers[w];
    assert WorkerSafe(t, sha1, k);
    var result := Arrival(k.state.index, k.state.data, k.kind);
    CopyStands(t, s.buf, result);
    var s' := Apply(t, sha1, s, Deliver(w));
    forall a: nat | a < |s'.arrivals| ensures ArrivalSafe(t, sha1, s'.buf, s'.arrivals[a]) {
      if a < |s.arrivals| {
        NotArrivedTwice(t, s, w, a);
        assert ArrivalSafe(t, sha1, s.buf, s.arrivals[a]);
        CopyKeepsOthers(t, s.buf, k.state.index, k.state.data, s.arrivals[a]);
      }
    }
  }

  lemma OnlyDeliverWrites(t: Torrent, sha1: Hash, s: Swarm, e: Event)
    requires Enabled(t, s, e)
    ensures var s' := Apply(t, sha1, s, e);
            && (!e.Deliver? ==> s'.arrivals == s.arrivals && s'.buf == s.buf)
            && (s'.closed ==> s.closed || |s.arrivals| == |t.hashes|)
            && (s'.panicked ==> e.Deliver? || (e.PutBack? && s.closed))
  {
  }

  lemma SenderHolds(t: Torrent, s: Swarm, e: Event)
    requires Enabled(t, s, e) && (e.Deliver? || e.PutBack?)
    ensures HeldBy(s.workers[e.w]) != multiset{}
  {
    assert s.workers[e.w].state.index in HeldBy(s.workers[e.w]);
  }

  /** Safety is kept by every event, with any peer. */
  lemma StepIsSafe(t: Torrent, sha1: Hash, s: Swarm, e: Event)
    requires WellFormed(t) && Safe(t, sha1, s) && Enabled(t, s, e)
    ensures Safe(t, sha1, Apply(t, sha1, s, e))
  {
    WorkersStaySafe(t, sha1, s, e);
    PoolIsKept(t, sha1, s, e);
    OnlyDeliverWrites(t, sha1, s, e);
    hide Apply;
    hide WorkersSafe;
    hide Pool;
    hide ArrivalSafe;
    if e.Deliver? || e.PutBack? {
      SenderHolds(t, s, e);
      HolderCanAlwaysSend(t, s, e.w);
    }
    if e.Deliver? {
      DeliverIsSafe(t, sha1, s, e.w);
    }
  }

  /** Safety over whole runs: every interleaving of any number of workers and any peers. */
  lemma {:induction false} RunIsSafe(t: Torrent, sha1: Hash, s: Swarm, es: seq<Event>, s': Swarm)
    requires WellFormed(t) && Safe(t, sha1, s) && Run(t, sha1, s, es, s')
    ensures Safe(t, sha1, s')
    ensures s.arrivals <= s'.arrivals
    decreases |es|
  {
    hide Safe;
    hide Enabled;
    hide Apply;
    if es != [] {
      StepIsSafe(t, sha1, s, es[0]);
      ArrivalsGrow(t, sha1, s, es[0]);
      RunIsSafe(t, sha1, Apply(t, sha1, s, es[0]), es[1..], s');
    }
  }

  lemma ArrivalsGrow(t: Torrent, sha1: Hash, s: Swarm, e: Event)
    requires Enabled(t, s, e)
    ensures s.arrivals <= Apply(t, sha1, s, e).arrivals
  {
    OnlyDeliverWrites(t, sha1, s, e);
  }

  /** Every state a download can reach. */
  ghost predicate Reachable(t: Torrent, sha1: Hash, s: Swarm) {
    exists es :: Run(t, sha1, Initial(t), es, s)
  }

  lemma ReachableIsSafe(t: Torrent, sha1: Hash, s: Swarm)
    requires WellFormed(t) && Reachable(t, sha1, s)
    ensures Safe(t, sha1, s)
  {
    var es :| Run(t, sha1, Initial(t), es, s);
    InitialIsSafe(t, sha1);
    RunIsSafe(t, sha1, Initial(t), es, s);
  }

  /** In every reachable state, each piece is in exactly one place: queued, held by a worker, or
      collected. So the queue never overflows, and once it is closed nobody holds a piece. */
  lemma PiecesAreConserved(t: Torrent, sha1: Hash, s: Swarm, i: nat)
    requires WellFormed(t) && Reachable(t, sha1, s)
    ensures multiset(s.queue)[i] + Held(s.workers)[i] + Arrived(s.arrivals)[i] == if i < |t.hashes| then 1 else 0
    ensures |s.queue| + |Held(s.workers)| + |s.arrivals| == |t.hashes|
    ensures s.closed ==> s.queue == [] && forall w: nat :: w < |s.workers| ==> HeldBy(s.workers[w]) == multiset{}
  {
    ReachableIsSafe(t, sha1, s);
    ExactlyOnePlace(t, s, i);
    if s.closed {
      forall w: nat | w < |s.workers| ensures HeldBy(s.workers[w]) == multiset{} {
        if HeldBy(s.workers[w]) != multiset{} {
          HolderCanAlwaysSend(t, s, w);
        }
      }
    }
  }

  lemma SafeHasNotPanicked(t: Torrent, sha1: Hash, s: Swarm)
    requires Safe(t, sha1, s)
    ensures !s.panicked
  {
  }

  lemma SafeSendSucceeds(t: Torrent, sha1: Hash, s: Swarm, e: Event)
    requires WellFormed(t) && Safe(t, sha1, s) && !s.halted
    requires (e.PutBack? && e.w < |s.workers| && s.workers[e.w].state.PuttingBack?)
          || (e.Deliver? && e.w < |s.workers| && s.workers[e.w].state.Delivering?)
    ensures Enabled(t, s, e) && !Apply(t, sha1, s, e).panicked
  {
    SafeHasNotPanicked(t, sha1, s);
    assert HeldBy(s.workers[e.w]) == multiset{s.workers[e.w].state.index};
    assert s.workers[e.w].state.index in HeldBy(s.workers[e.w]);
    HolderCanAlwaysSend(t, s, e.w);
    assert Enabled(t, s, e);
    hide *;
    StepIsSafe(t, sha1, s, e);
    SafeHasNotPanicked(t, sha1, Apply(t, sha1, s, e));
  }

  /** No send blocks for good or panics: in every reachable state, a worker that puts a piece back or
      delivers one finds the queue open with room, or the collector waiting. */
  lemma NoSendBlocksOrPanics(t: Torrent, sha1: Hash, s: Swarm, e: Event)
    requires WellFormed(t) && Reachable(t, sha1, s) && !s.halted
    requires (e.PutBack? && e.w < |s.workers| && s.workers[e.w].state.PuttingBack?)
          || (e.Deliver? && e.w < |s.workers| && s.workers[e.w].state.Delivering?)
    ensures Enabled(t, s, e) && !Apply(t, sha1, s, e).panicked
  {
    ReachableIsSafe(t, sha1, s);
    hide Safe;
    hide Apply;
    SafeSendSucceeds(t, sha1, s, e);
  }

  /** A checked result hashes to its entry, and stands in the buffer in every later state. */
  lemma CheckedPiecesAreGenuineAndFinal(t: Torrent, sha1: Hash, s: Swarm, es: seq<Event>, s': Swarm, a: nat)
    requires WellFormed(t) && Reachable(t, sha1, s) && Run(t, sha1, s, es, s') && a < |s.arrivals|
    ensures var i := s.arrivals[a].index;
            && i < |t.hashes|
            && 0 <= Begin(t, i) <= End(t, i) <= |s.buf| == |s'.buf|
            && s'.buf[Begin(t, i)..End(t, i)] == s.buf[Begin(t, i)..End(t, i)]
            && (s.arrivals[a].kind == Checked ==> sha1(s'.buf[Begin(t, i)..End(t, i)]) == t.hashes[i])
  {
    ReachableIsSafe(t, sha1, s);
    RunIsSafe(t, sha1, s, es, s');
    assert s'.arrivals[a] == s.arrivals[a];
    assert ArrivalSafe(t, sha1, s.buf, s.arrivals[a]);
    assert ArrivalSafe(t, sha1, s'.buf, s'.arrivals[a]);
  }

  /** Every piece is among the results once there are as many results as pieces. */
  lemma CompleteHasEveryPiece(t: Torrent, s: Swarm, i: nat) returns (a: nat)
    requires Conserved(t, s) && |s.arrivals| == |t.hashes| && i < |t.hashes|
    ensures a < |s.arrivals| && s.arrivals[a].index == i
  {
    ExactlyOnePlace(t, s, i);
    assert s.queue == [] && Held(s.workers) == multiset{};
    a := ArrivedFrom(s.arrivals, i);
  }

  /** If only checking workers deliver, a complete download hashes to the torrent, piece by piece. */
  lemma CheckedDownloadIsGenuine(t: Torrent, sha1: Hash, s: Swarm, i: nat)
    requires WellFormed(t) && Reachable(t, sha1, s)
    requires |s.arrivals| == |t.hashes| && i < |t.hashes|
    requires forall a: nat :: a < |s.arrivals| ==> s.arrivals[a].kind == Checked
    ensures 0 <= Begin(t, i) <= End(t, i) <= |s.buf|
    ensures sha1(s.buf[Begin(t, i)..End(t, i)]) == t.hashes[i]
  {
    ReachableIsSafe(t, sha1, s);
    var a := CompleteHasEveryPiece(t, s, i);
    assert ArrivalSafe(t, sha1, s.buf, s.arrivals[a]);
  }

  /** The program stops in exactly one way: a worker that checks has finished a piece with the wrong hash. */
  lemma HaltsIff(t: Torrent, sha1: Hash, s: Swarm, e: Event)
    requires Enabled(t, s, e) && WellFormed(t) && Safe(t, sha1, s)
    ensures Apply(t, sha1, s, e).halted
       <==> e.Finish? && s.workers[e.w].kind == Checked
            && var p := s.workers[e.w].state.progress;
               (p.index < |t.hashes| ==> sha1(p.buf) != t.hashes[p.index])
  {
  }

  /** A worker stops in two ways: after it put back the piece of an attempt that failed, or when it finds the
      queue empty, but then only once the queue is closed; a supervisor does not wait for that. */
  lemma StopsIff(t: Torrent, sha1: Hash, s: Swarm, e: Event, w: nat)
    requires Enabled(t, s, e) && w < |s.workers| && s.workers[w].state != Stopped
    ensures var k := s.workers[w];
            && w < |Apply(t, sha1, s, e).workers|
            && (Apply(t, sha1, s, e).workers[w].state == Stopped
                <==> (e == PutBack(w) && k.state.last && !s.closed) || e == Quit(w))
            && (e == Quit(w) ==> k.state == Idle && s.queue == [] && (k.kind == Supervisor || s.closed))
  {
  }

  /** Before it tries again, startDownloadWorker takes a piece, puts it at the end of the queue, and is
      done. */
  lemma SupervisorPutsBack(t: Torrent, sha1: Hash, s: Swarm, w: nat)
    requires w < |s.workers| && s.workers[w].kind == Supervisor && s.workers[w].state == Idle
    requires s.queue != [] && |s.queue| <= |t.hashes| && !s.closed && !s.halted && !s.panicked
    ensures Run(t, sha1, s, [Take(w), PutBack(w)],
                s.(queue := s.queue[1..] + [s.queue[0]], workers := s.workers[w := s.workers[w].(state := Stopped)]))
  {
    var s1 := Apply(t, sha1, s, Take(w));
    var s2 := Apply(t, sha1, s1, PutBack(w));
    assert [Take(w), PutBack(w)][1..] == [PutBack(w)];
    assert Run(t, sha1, s2, [], s2);
    assert Run(t, sha1, s1, [PutBack(w)], s2);
  }
}
