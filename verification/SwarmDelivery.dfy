/** End to end: with honest peers, every interleaving of workers, retries and the collector assembles
    the seeder's content. */
module SwarmDelivery {
  import opened Bytes
  import opened Message
  import opened Torrent
  import opened Pipeline
  import opened Swarm
  import opened SwarmSafety

  /** The file the seeders have, with the hashes of its pieces in the torrent. */
  ghost predicate Genuine(t: Torrent, sha1: Hash, content: seq<u8>) {
    && WellFormed(t) && |content| == t.length
    && forall i: nat :: i < |t.hashes| ==> HashOk(t, sha1, i, PieceContent(t, content, i))
  }

  /** The message that worker k reads next either settles one pending request with the right bytes, or
      owes nothing to any request. */
  ghost predicate HonestMessage(t: Torrent, content: seq<u8>, k: Worker, f: Frame, answered: Option<nat>)
    requires WellFormed(t) && |content| == t.length && k.state.Working?
  {
    var p := k.state.progress;
    var pending := k.outstanding + Ask(p).1;
    p.index < |t.hashes| &&
    match answered
    case None => Neutral(f)
    case Some(j) =>
      var piece := PieceContent(t, content, p.index);
      && j < |pending| && pending[j].begin + pending[j].size <= |piece|
      && f == Some(Reply(p.index, piece, pending[j]))
  }

  /** Peers are honest. Connections may still fail at any time, and nothing else is restricted. */
  ghost predicate Honest(t: Torrent, content: seq<u8>, s: Swarm, e: Event)
    requires WellFormed(t) && |content| == t.length && Enabled(t, s, e)
  {
    e.Turn? ==> HonestMessage(t, content, s.workers[e.w], e.f, e.answered)
  }

  ghost predicate HonestRun(t: Torrent, sha1: Hash, content: seq<u8>, s: Swarm, es: seq<Event>, s': Swarm)
    requires WellFormed(t) && |content| == t.length
    decreases |es|
  {
    if es == [] then s' == s
    else
      && Enabled(t, s, es[0])
      && Honest(t, content, s, es[0])
      && HonestRun(t, sha1, content, Apply(t, sha1, s, es[0]), es[1..], s')
  }

  /** A worker's buffer is sound while it works, and its connection is quiet in between. */
  ghost predicate WorkerRight(t: Torrent, content: seq<u8>, k: Worker)
    requires WellFormed(t) && |content| == t.length
  {
    match k.state
    case Working(p, _) => p.index < |t.hashes| && Sound(PieceContent(t, content, p.index), p, k.outstanding)
    case PuttingBack(_, last) => last || k.outstanding == []
    case Delivering(index, data) =>
      index < |t.hashes| && data == PieceContent(t, content, index) && k.outstanding == []
    case Idle => k.outstanding == []
    case Stopped => true
  }

  ghost predicate Right(t: Torrent, content: seq<u8>, s: Swarm)
    requires WellFormed(t) && |content| == t.length
  {
    && (forall w: nat :: w < |s.workers| ==> WorkerRight(t, content, s.workers[w]))
    && (forall a: nat :: a < |s.arrivals| ==>
          s.arrivals[a].index < |t.hashes| && s.arrivals[a].data == PieceContent(t, content, s.arrivals[a].index))
  }

  lemma TakenIsRight(t: Torrent, content: seq<u8>, k: Worker, index: nat)
    requires WellFormed(t) && |content| == t.length && index < |t.hashes| && k.outstanding == []
    ensures WorkerRight(t, content, Taken(t, k, index))
  {
    hide PieceSize;
    hide PieceContent;
    StartIsSound(PieceContent(t, content, index), k.client, index);
  }

  lemma TurnedIsRight(t: Torrent, content: seq<u8>, s: Swarm, e: Event)
    requires WellFormed(t) && |content| == t.length && e.Turn? && Enabled(t, s, e) && Honest(t, content, s, e)
    requires WorkerRight(t, content, s.workers[e.w])
    ensures WorkerRight(t, content, Turned(s.workers[e.w], e.f, e.answered))
  {
    var k := s.workers[e.w];
    var p := k.state.progress;
    var piece := PieceContent(t, content, p.index);
    PieceInFile(t, p.index);
    AskIsSound(piece, p, k.outstanding);
    hide Ask;
    hide Receive;
    hide Sound;
    hide PieceContent;
    hide Neutral;
    hide Reply;
    hide PieceSize;
    var (p1, rs) := Ask(p);
    match e.answered
    case None => NeutralKeepsSound(piece, p1, k.outstanding + rs, e.f);
    case Some(j) => AnswerKeepsSound(piece, p1, k.outstanding + rs, j);
  }

  lemma FinishedIsRight(t: Torrent, content: seq<u8>, k: Worker)
    requires WellFormed(t) && |content| == t.length && k.state.Working? && WorkerRight(t, content, k)
    requires k.state.progress.downloaded >= |k.state.progress.buf|
    ensures k.state.progress.buf == PieceContent(t, content, k.state.progress.index) && k.outstanding == []
  {
    DoneIsWhole(PieceContent(t, content, k.state.progress.index), k.state.progress, k.outstanding);
  }

  /** Whatever the hashes are, an honest step keeps buffers and results right. */
  lemma StepIsRight(t: Torrent, sha1: Hash, content: seq<u8>, s: Swarm, e: Event)
    requires WellFormed(t) && |content| == t.length && Safe(t, sha1, s) && Right(t, content, s)
    requires Enabled(t, s, e) && Honest(t, content, s, e)
    ensures Right(t, content, Apply(t, sha1, s, e))
  {
    hide Sound;
    hide PieceContent;
    hide PieceSize;
    hide CopyPiece;
    hide Turned;
    hide Taken;
    hide Safe;
    hide Neutral;
    match e
    case Spawn(_, _) =>
    case Take(w) =>
      SafeQueue(t, sha1, s);
      TakenIsRight(t, content, s.workers[w], s.queue[0]);
    case Turn(w, _, _) => TurnedIsRight(t, content, s, e);
    case Break(w) =>
    case Finish(w) => FinishedIsRight(t, content, s.workers[w]);
    case PutBack(w) =>
    case Deliver(w) =>
    case Close =>
    case Quit(w) =>
  }

  lemma StepDoesNotHalt(t: Torrent, sha1: Hash, content: seq<u8>, s: Swarm, e: Event)
    requires Genuine(t, sha1, content) && Right(t, content, s) && Enabled(t, s, e)
    ensures !Apply(t, sha1, s, e).halted
  {
    hide Sound;
    hide PieceContent;
    if e.Finish? {
      FinishedIsRight(t, content, s.workers[e.w]);
    }
  }

  lemma SafeQueue(t: Torrent, sha1: Hash, s: Swarm)
    requires Safe(t, sha1, s) && s.queue != []
    ensures s.queue[0] < |t.hashes|
  {
    PieceInQueue(t, s, s.queue[0]);
  }

  lemma {:induction false} HonestRunIsRight(
    t: Torrent, sha1: Hash, content: seq<u8>, s: Swarm, es: seq<Event>, s': Swarm)
    requires WellFormed(t) && |content| == t.length && Safe(t, sha1, s) && Right(t, content, s)
    requires HonestRun(t, sha1, content, s, es, s')
    ensures Safe(t, sha1, s') && Right(t, content, s')
    ensures Genuine(t, sha1, content) && !s.halted ==> !s'.halted
    decreases |es|
  {
    hide Safe;
    hide Right;
    hide Apply;
    hide Enabled;
    hide Honest;
    hide Genuine;
    if es != [] {
      StepIsSafe(t, sha1, s, es[0]);
      StepIsRight(t, sha1, content, s, es[0]);
      if Genuine(t, sha1, content) {
        StepDoesNotHalt(t, sha1, content, s, es[0]);
      }
      HonestRunIsRight(t, sha1, content, Apply(t, sha1, s, es[0]), es[1..], s');
    }
  }

  lemma HonestlyReachedIsRight(t: Torrent, sha1: Hash, content: seq<u8>, es: seq<Event>, s: Swarm)
    requires WellFormed(t) && |content| == t.length && HonestRun(t, sha1, content, Initial(t), es, s)
    ensures Safe(t, sha1, s) && Right(t, content, s)
  {
    InitialIsSafe(t, sha1);
    HonestRunIsRight(t, sha1, content, Initial(t), es, s);
  }

  /** Every honest run keeps the integrity check from failing, and between pieces nothing is left on a
      connection, so successive pieces never mix. */
  lemma HonestPeersNeverHalt(t: Torrent, sha1: Hash, content: seq<u8>, es: seq<Event>, s: Swarm)
    requires Genuine(t, sha1, content) && HonestRun(t, sha1, content, Initial(t), es, s)
    ensures !s.halted && !s.panicked
    ensures forall w: nat :: w < |s.workers| && s.workers[w].state.Idle? ==> s.workers[w].outstanding == []
  {
    InitialIsSafe(t, sha1);
    HonestRunIsRight(t, sha1, content, Initial(t), es, s);
  }

  /** End-to-end delivery: when the collector has counted a result for each piece, the buffer is the
      content the peers serve, whether or not it has the torrent's hashes. */
  lemma CompleteIsContent(t: Torrent, sha1: Hash, content: seq<u8>, es: seq<Event>, s: Swarm)
    requires WellFormed(t) && |content| == t.length && HonestRun(t, sha1, content, Initial(t), es, s)
    requires |s.arrivals| == |t.hashes|
    ensures s.buf == content
  {
    HonestlyReachedIsRight(t, sha1, content, es, s);
    forall x: nat | x < t.length ensures s.buf[x] == content[x] {
      ByteIsRight(t, sha1, content, s, x);
    }
  }

  lemma ByteIsRight(t: Torrent, sha1: Hash, content: seq<u8>, s: Swarm, x: nat)
    requires WellFormed(t) && |content| == t.length && Safe(t, sha1, s) && Right(t, content, s)
    requires |s.arrivals| == |t.hashes| && x < t.length
    ensures s.buf[x] == content[x]
  {
    var i := PieceOfByte(t, x);
    var a := CompleteHasEveryPiece(t, s, i);
    assert ArrivalSafe(t, sha1, s.buf, s.arrivals[a]);
    assert s.buf[Begin(t, i)..End(t, i)][x - Begin(t, i)] == content[Begin(t, i)..End(t, i)][x - Begin(t, i)];
  }

  /** Progress: a worker that is unchoked and still misses bytes has a request pending, whose answer
      an honest peer may send at once, and that answer brings it strictly nearer. */
  lemma AnswerAlwaysPossible(t: Torrent, sha1: Hash, content: seq<u8>, s: Swarm, w: nat)
    requires WellFormed(t) && |content| == t.length && Safe(t, sha1, s) && Right(t, content, s) && !s.halted
    requires w < |s.workers| && s.workers[w].state.Working?
    requires var p := s.workers[w].state.progress; !p.client.choked && p.downloaded < |p.buf|
    ensures exists f :: var e := Turn(w, f, Some(0));
            && Enabled(t, s, e) && Honest(t, content, s, e)
            && var p, k := s.workers[w].state.progress, Apply(t, sha1, s, e).workers[w];
               && k.kind == s.workers[w].kind && k.state.Working? && k.client == k.state.progress.client == p.client
               && |k.state.progress.buf| == |p.buf| && k.state.progress.downloaded > p.downloaded
  {
    var k := s.workers[w];
    var p := k.state.progress;
    assert WorkerRight(t, content, k);
    var piece := PieceContent(t, content, p.index);
    PieceInFile(t, p.index);
    NoStall(piece, p, k.outstanding);
    AskIsSound(piece, p, k.outstanding);
    hide Ask;
    var (p1, rs) := Ask(p);
    var pending := k.outstanding + rs;
    AnswerKeepsSound(piece, p1, pending, 0);
    var e := Turn(w, Some(Reply(p.index, piece, pending[0])), Some(0));
    hide Receive;
    hide Reply;
    assert Enabled(t, s, e) && Honest(t, content, s, e);
    var p2 := Apply(t, sha1, s, e).workers[w].state.progress;
    assert p2.downloaded > p.downloaded && |p2.buf| == |p.buf|;
  }

  /** Honest runs are runs. */
  lemma {:induction false} HonestRunIsRun(t: Torrent, sha1: Hash, content: seq<u8>, s: Swarm, es: seq<Event>, s': Swarm)
    requires WellFormed(t) && |content| == t.length && HonestRun(t, sha1, content, s, es, s')
    ensures Run(t, sha1, s, es, s')
    decreases |es|
  {
    hide Apply;
    hide Enabled;
    hide Honest;
    if es != [] {
      HonestRunIsRun(t, sha1, content, Apply(t, sha1, s, es[0]), es[1..], s');
    }
  }
}
