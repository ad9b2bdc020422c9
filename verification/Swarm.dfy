/** The whole download as a labelled transition system: workers over a shared bounded queue of pieces,
    retrying supervisors, and the collector that assembles the file (p2p/p2p.go, startDownloadWorker
    and Download). Every sequence of enabled events is an interleaving. */
module Swarm {
  import opened Bytes
  import opened Message
  import opened Torrent
  import opened Pipeline
  import Bitfield

  /** Workers that check a piece's hash (lines 269 to 299), workers on later connections that do not
      (lines 228 to 253), and the end of startDownloadWorker, which takes a piece and puts it back
      before it tries again (lines 302 to 317). */
  datatype Kind = Checked | Unchecked | Supervisor

  datatype State =
    | Idle
    | Working(progress: Progress, sent: seq<Request>)
    | PuttingBack(index: nat, last: bool)        // about to send a piece to the work queue
    | Delivering(index: nat, data: seq<u8>)      // about to send a result
    | Stopped

  /** outstanding is what the peer still owes on this connection. */
  datatype Worker = Worker(kind: Kind, client: Client, outstanding: seq<Request>, state: State)

  datatype Arrival = Arrival(index: nat, data: seq<u8>, kind: Kind)

  datatype Swarm = Swarm(
    queue: seq<nat>, workers: seq<Worker>, arrivals: seq<Arrival>, buf: seq<u8>,
    closed: bool,     // the work queue was closed
    halted: bool,     // log.Fatalf after a failed integrity check
    panicked: bool)   // send on a closed channel, or slice bounds out of range

  datatype Event =
    | Spawn(kind: Kind, client: Client)
    | Take(w: nat)
    | Turn(w: nat, f: Frame, answered: Option<nat>)   // one round of attemptDownloadPiece
    | Break(w: nat)                                   // the connection fails
    | Finish(w: nat)
    | PutBack(w: nat)
    | Deliver(w: nat)
    | Close
    | Quit(w: nat)

  function Indices(n: nat): seq<nat> {
    seq(n, i requires 0 <= i < n => i)
  }

  function Initial(t: Torrent): Swarm {
    Swarm(Indices(|t.hashes|), [], [], seq(t.length, _ => 0), false, false, false)
  }

  /** The length of a work item; never negative in a well-formed torrent. */
  function BufferSize(t: Torrent, index: nat): nat {
    var size := PieceSize(t, index);
    if size < 0 then 0 else size
  }

  /** copy(buf[begin:end], data) in the collector; None when the bounds are out of range. */
  function CopyPiece(t: Torrent, buf: seq<u8>, index: nat, data: seq<u8>): (r: Option<seq<u8>>)
    ensures r.Some? ==> |r.value| == |buf|
  {
    var begin, end := Begin(t, index), End(t, index);
    if 0 <= begin <= end <= |buf| then Some(Paste(buf, begin, data[..Min(end - begin, |data|)])) else None
  }

  predicate Enabled(t: Torrent, s: Swarm, e: Event) {
    && !s.halted && !s.panicked
    && match e
       case Spawn(_, _) => true
       case Take(w) => w < |s.workers| && s.workers[w].state == Idle && s.queue != []
       case Turn(w, _, _) =>
         w < |s.workers| && s.workers[w].state.Working?
         && s.workers[w].state.progress.downloaded < |s.workers[w].state.progress.buf|
       case Break(w) => w < |s.workers| && s.workers[w].state.Working?
       case Finish(w) =>
         w < |s.workers| && s.workers[w].state.Working?
         && s.workers[w].state.progress.downloaded >= |s.workers[w].state.progress.buf|
       case PutBack(w) =>
         w < |s.workers| && s.workers[w].state.PuttingBack? && (s.closed || |s.queue| < |t.hashes|)
       case Deliver(w) => w < |s.workers| && s.workers[w].state.Delivering? && |s.arrivals| < |t.hashes|
       case Close => !s.closed && |s.arrivals| == |t.hashes|
       case Quit(w) =>
         w < |s.workers| && s.workers[w].state == Idle && s.queue == []
         && (s.closed || s.workers[w].kind == Supervisor)
  }

  /** What a worker does with the piece it takes from the queue. */
  function Taken(t: Torrent, k: Worker, index: nat): Worker {
    if k.kind == Supervisor then k.(state := PuttingBack(index, true))
    else if !Bitfield.HasPiece(k.client.bitfield, index) then k.(state := PuttingBack(index, false))
    else k.(state := Working(Start(k.client, index, BufferSize(t, index)), []))
  }

  /** One round: top up the requests, then read a message. answered says which pending request the
      message settles, for the record only: the worker does not know. */
  function Turned(k: Worker, f: Frame, answered: Option<nat>): Worker
    requires k.state.Working?
  {
    var (p1, rs) := Ask(k.state.progress);
    var pending := k.outstanding + rs;
    match Receive(p1, f)
    case Err(_) => k.(outstanding := pending, state := PuttingBack(p1.index, true))
    case Ok(p2) =>
      Worker(k.kind, p2.client,
             if answered.Some? && answered.value < |pending| then Without(pending, answered.value) else pending,
             Working(p2, k.state.sent + rs))
  }

  function SetWorker(s: Swarm, w: nat, k: Worker): Swarm
    requires w < |s.workers|
  {
    s.(workers := s.workers[w := k])
  }

  function Apply(t: Torrent, sha1: Hash, s: Swarm, e: Event): Swarm
    requires Enabled(t, s, e)
  {
    match e
    case Spawn(kind, client) => s.(workers := s.workers + [Worker(kind, client, [], Idle)])
    case Take(w) => SetWorker(s, w, Taken(t, s.workers[w], s.queue[0])).(queue := s.queue[1..])
    case Turn(w, f, answered) => SetWorker(s, w, Turned(s.workers[w], f, answered))
    case Break(w) => SetWorker(s, w, s.workers[w].(state := PuttingBack(s.workers[w].state.progress.index, true)))
    case Finish(w) =>
      var k := s.workers[w];
      var p := k.state.progress;
      if k.kind == Checked && !HashOk(t, sha1, p.index, p.buf) then s.(halted := true)
      else SetWorker(s, w, k.(state := Delivering(p.index, p.buf)))
    case PutBack(w) =>
      var k := s.workers[w];
      if s.closed then s.(panicked := true)
      else SetWorker(s, w, k.(state := if k.state.last then Stopped else Idle)).(queue := s.queue + [k.state.index])
    case Deliver(w) =>
      var k := s.workers[w];
      (match CopyPiece(t, s.buf, k.state.index, k.state.data)
       case None => s.(panicked := true)
       case Some(buf) =>
         SetWorker(s, w, k.(state := Idle))
           .(arrivals := s.arrivals + [Arrival(k.state.index, k.state.data, k.kind)], buf := buf))
    case Close => s.(closed := true)
    case Quit(w) => SetWorker(s, w, s.workers[w].(state := Stopped))
  }

  /** The events can happen one after the other from s, and lead to s'. */
  ghost predicate Run(t: Torrent, sha1: Hash, s: Swarm, es: seq<Event>, s': Swarm)
    decreases |es|
  {
    if es == [] then s' == s
    else Enabled(t, s, es[0]) && Run(t, sha1, Apply(t, sha1, s, es[0]), es[1..], s')
  }

  // Conservation of pieces

  function HeldBy(k: Worker): multiset<nat> {
    match k.state
    case Working(p, _) => multiset{p.index}
    case PuttingBack(index, _) => multiset{index}
    case Delivering(index, _) => multiset{index}
    case Idle => multiset{}
    case Stopped => multiset{}
  }

  function Held(workers: seq<Worker>): multiset<nat>
    decreases |workers|
  {
    if workers == [] then multiset{} else HeldBy(workers[0]) + Held(workers[1..])
  }

  function Arrived(arrivals: seq<Arrival>): multiset<nat>
    decreases |arrivals|
  {
    if arrivals == [] then multiset{} else multiset{arrivals[0].index} + Arrived(arrivals[1..])
  }

  /** Where all pieces are: in the queue, with a worker (working on it, putting it back, or waiting
      for the collector), or collected. */
  function Pool(s: Swarm): multiset<nat> {
    multiset(s.queue) + Held(s.workers) + Arrived(s.arrivals)
  }

  lemma {:induction false} HeldUpdate(workers: seq<Worker>, w: nat, k: Worker)
    requires w < |workers|
    ensures Held(workers[w := k]) + HeldBy(workers[w]) == Held(workers) + HeldBy(k)
    decreases |workers|
  {
    if w == 0 {
      assert workers[w := k][1..] == workers[1..];
    } else {
      HeldUpdate(workers[1..], w - 1, k);
      assert workers[w := k][1..] == workers[1..][w - 1 := k];
      var first, rest := HeldBy(workers[0]), Held(workers[1..][w - 1 := k]);
      assert first + rest + HeldBy(workers[w]) == first + (rest + HeldBy(workers[w]));
    }
  }

  lemma {:induction false} HeldGrows(workers: seq<Worker>, k: Worker)
    ensures Held(workers + [k]) == Held(workers) + HeldBy(k)
    decreases |workers|
  {
    if workers == [] {
      assert workers + [k] == [k];
      assert [k][1..] == [];
    } else {
      HeldGrows(workers[1..], k);
      assert (workers + [k])[1..] == workers[1..] + [k];
    }
  }

  lemma {:induction false} ArrivedGrows(arrivals: seq<Arrival>, a: Arrival)
    ensures Arrived(arrivals + [a]) == Arrived(arrivals) + multiset{a.index}
    decreases |arrivals|
  {
    if arrivals == [] {
      assert arrivals + [a] == [a];
      assert [a][1..] == [];
    } else {
      ArrivedGrows(arrivals[1..], a);
      assert (arrivals + [a])[1..] == arrivals[1..] + [a];
    }
  }

  lemma {:induction false} ArrivedSize(arrivals: seq<Arrival>)
    ensures |Arrived(arrivals)| == |arrivals|
    decreases |arrivals|
  {
    if arrivals != [] {
      ArrivedSize(arrivals[1..]);
    }
  }

  lemma {:induction false} HeldHas(workers: seq<Worker>, w: nat)
    requires w < |workers|
    ensures HeldBy(workers[w]) <= Held(workers)
    decreases |workers|
  {
    if w > 0 {
      HeldHas(workers[1..], w - 1);
    }
  }

  lemma {:induction false} ArrivedHas(arrivals: seq<Arrival>, a: nat)
    requires a < |arrivals|
    ensures arrivals[a].index in Arrived(arrivals)
    decreases |arrivals|
  {
    if a > 0 {
      ArrivedHas(arrivals[1..], a - 1);
    }
  }

  lemma {:induction false} ArrivedFrom(arrivals: seq<Arrival>, index: nat) returns (a: nat)
    requires index in Arrived(arrivals)
    ensures a < |arrivals| && arrivals[a].index == index
    decreases |arrivals|
  {
    if arrivals[0].index == index {
      a := 0;
    } else {
      a := ArrivedFrom(arrivals[1..], index);
      a := a + 1;
    }
  }

  /** If only worker w changes, it is enough to count the queue, what w holds, and the arrivals. */
  lemma PoolFromOneWorker(s: Swarm, s': Swarm, w: nat)
    requires w < |s.workers| == |s'.workers| && s'.workers == s.workers[w := s'.workers[w]]
    requires multiset(s'.queue) + HeldBy(s'.workers[w]) + Arrived(s'.arrivals)
          == multiset(s.queue) + HeldBy(s.workers[w]) + Arrived(s.arrivals)
    ensures Pool(s') == Pool(s)
  {
    hide HeldBy;
    hide Held;
    hide Arrived;
    HeldUpdate(s.workers, w, s'.workers[w]);
    var was, now := HeldBy(s.workers[w]), HeldBy(s'.workers[w]);
    assert Pool(s') + was == multiset(s'.queue) + Arrived(s'.arrivals) + (Held(s'.workers) + was);
    assert Pool(s) + now == multiset(s.queue) + Arrived(s.arrivals) + (Held(s.workers) + now);
    forall i: nat ensures Pool(s')[i] == Pool(s)[i] {
      assert (multiset(s'.queue) + now + Arrived(s'.arrivals))[i] == (multiset(s.queue) + was + Arrived(s.arrivals))[i];
      assert (Pool(s') + was)[i] == (multiset(s'.queue) + Arrived(s'.arrivals) + (Held(s'.workers) + was))[i];
      assert (Held(s'.workers) + was)[i] == (Held(s.workers) + now)[i];
    }
  }

  lemma SpawnMovesNothing(t: Torrent, sha1: Hash, s: Swarm, kind: Kind, client: Client)
    requires Enabled(t, s, Spawn(kind, client))
    ensures Pool(Apply(t, sha1, s, Spawn(kind, client))) == Pool(s)
  {
    var k := Worker(kind, client, [], Idle);
    HeldGrows(s.workers, k);
    assert HeldBy(k) == multiset{};
  }

  lemma HoldingTheSame(s: Swarm, s': Swarm, w: nat)
    requires w < |s.workers| == |s'.workers| && s'.workers == s.workers[w := s'.workers[w]]
    requires s'.queue == s.queue && s'.arrivals == s.arrivals && HeldBy(s'.workers[w]) == HeldBy(s.workers[w])
    ensures Pool(s') == Pool(s)
  {
    hide HeldBy;
    PoolFromOneWorker(s, s', w);
  }

  lemma TurnMovesNothing(t: Torrent, sha1: Hash, s: Swarm, e: Event)
    requires e.Turn? && Enabled(t, s, e)
    ensures Pool(Apply(t, sha1, s, e)) == Pool(s)
  {
    hide Turned;
    hide Pool;
    TurnKeepsIndex(s.workers[e.w], e.f, e.answered);
    hide HeldBy;
    HoldingTheSame(s, Apply(t, sha1, s, e), e.w);
  }

  lemma WorkMovesNothing(t: Torrent, sha1: Hash, s: Swarm, e: Event)
    requires e.Break? || e.Finish? || e.Quit?
    requires Enabled(t, s, e)
    ensures Pool(Apply(t, sha1, s, e)) == Pool(s)
  {
    hide HashOk;
    hide Pool;
    var s' := Apply(t, sha1, s, e);
    if s'.halted {
      SameButHalted(s);
    } else {
      HoldingTheSame(s, s', e.w);
    }
  }

  lemma SameButHalted(s: Swarm)
    ensures Pool(s.(halted := true)) == Pool(s)
  {
  }

  lemma TakeMoves(t: Torrent, sha1: Hash, s: Swarm, w: nat)
    requires Enabled(t, s, Take(w))
    ensures Pool(Apply(t, sha1, s, Take(w))) == Pool(s)
  {
    var s' := Apply(t, sha1, s, Take(w));
    assert s.queue == [s.queue[0]] + s'.queue;
    assert HeldBy(s.workers[w]) == multiset{} && HeldBy(s'.workers[w]) == multiset{s.queue[0]};
    PoolFromOneWorker(s, s', w);
  }

  lemma PutBackMoves(t: Torrent, sha1: Hash, s: Swarm, w: nat)
    requires Enabled(t, s, PutBack(w))
    ensures Pool(Apply(t, sha1, s, PutBack(w))) == Pool(s)
  {
    var s' := Apply(t, sha1, s, PutBack(w));
    if !s'.panicked {
      assert HeldBy(s'.workers[w]) == multiset{} && HeldBy(s.workers[w]) == multiset{s.workers[w].state.index};
      PoolFromOneWorker(s, s', w);
    }
  }

  lemma DeliverMoves(t: Torrent, sha1: Hash, s: Swarm, w: nat)
    requires Enabled(t, s, Deliver(w))
    ensures Pool(Apply(t, sha1, s, Deliver(w))) == Pool(s)
  {
    hide Held;
    hide Arrived;
    hide CopyPiece;
    var s' := Apply(t, sha1, s, Deliver(w));
    if !s'.panicked {
      var k := s.workers[w];
      ArrivedGrows(s.arrivals, Arrival(k.state.index, k.state.data, k.kind));
      assert HeldBy(s'.workers[w]) == multiset{} && HeldBy(k) == multiset{k.state.index};
      hide *;
      var q, i := multiset(s.queue), multiset{k.state.index};
      assert q + multiset{} + (Arrived(s.arrivals) + i) == q + i + Arrived(s.arrivals);
      PoolFromOneWorker(s, s', w);
    }
  }

  lemma TurnKeepsIndex(k: Worker, f: Frame, answered: Option<nat>)
    requires k.state.Working?
    ensures HeldBy(Turned(k, f, answered)) == HeldBy(k) && Turned(k, f, answered).kind == k.kind
  {
    AskKeeps(k.state.progress);
  }

  /** Every event moves pieces about; none is lost or duplicated. */
  lemma PoolIsKept(t: Torrent, sha1: Hash, s: Swarm, e: Event)
    requires Enabled(t, s, e)
    ensures Pool(Apply(t, sha1, s, e)) == Pool(s)
  {
    match e
    case Spawn(kind, client) => SpawnMovesNothing(t, sha1, s, kind, client);
    case Take(w) => TakeMoves(t, sha1, s, w);
    case Turn(_, _, _) => TurnMovesNothing(t, sha1, s, e);
    case Break(_) => WorkMovesNothing(t, sha1, s, e);
    case Finish(_) => WorkMovesNothing(t, sha1, s, e);
    case PutBack(w) => PutBackMoves(t, sha1, s, w);
    case Deliver(w) => DeliverMoves(t, sha1, s, w);
    case Close =>
    case Quit(_) => WorkMovesNothing(t, sha1, s, e);
  }

  /** Conservation: each piece is in exactly one place. */
  ghost predicate Conserved(t: Torrent, s: Swarm) {
    Pool(s) == multiset(Indices(|t.hashes|))
  }

  lemma {:induction false} EachIndexOnce(n: nat, i: nat)
    ensures multiset(Indices(n))[i] == if i < n then 1 else 0
  {
    if n > 0 {
      assert Indices(n) == Indices(n - 1) + [n - 1];
      EachIndexOnce(n - 1, i);
    }
  }

  /** What conservation says, place by place. */
  lemma ExactlyOnePlace(t: Torrent, s: Swarm, i: nat)
    requires Conserved(t, s)
    ensures multiset(s.queue)[i] + Held(s.workers)[i] + Arrived(s.arrivals)[i] == if i < |t.hashes| then 1 else 0
    ensures |s.queue| + |Held(s.workers)| + |s.arrivals| == |t.hashes|
  {
    EachIndexOnce(|t.hashes|, i);
    assert Pool(s)[i] == multiset(s.queue)[i] + Held(s.workers)[i] + Arrived(s.arrivals)[i];
    ArrivedSize(s.arrivals);
    assert |Pool(s)| == |multiset(Indices(|t.hashes|))| == |t.hashes|;
  }

  /** A worker that holds a piece finds room for it in the queue, the queue is still open, and the
      collector is still waiting for results: no send blocks for good and none panics. */
  lemma HolderCanAlwaysSend(t: Torrent, s: Swarm, w: nat)
    requires Conserved(t, s) && (s.closed ==> |s.arrivals| == |t.hashes|)
    requires w < |s.workers| && HeldBy(s.workers[w]) != multiset{}
    ensures |s.queue| < |t.hashes| && |s.arrivals| < |t.hashes| && !s.closed
  {
    ExactlyOnePlace(t, s, 0);
    HeldHas(s.workers, w);
    assert |HeldBy(s.workers[w])| == 1;
    assert Held(s.workers) == HeldBy(s.workers[w]) + (Held(s.workers) - HeldBy(s.workers[w]));
  }
}
