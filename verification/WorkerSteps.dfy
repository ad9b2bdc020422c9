/** The byte-level worker is one of the workers of the transition system: what Attempt and WorkerLoop say
    of a worker on its connection is a run of its steps, with the same results. */
module WorkerSteps {
  import opened Bytes
  import opened Message
  import opened Torrent
  import opened Pipeline
  import opened Attempt
  import opened WorkerLoop
  import opened Swarm
  import opened SwarmSafety
  import opened SwarmDelivery
  import Bitfield

  lemma {:induction false} RunConcat(
    t: Torrent, sha1: Hash, s: Swarm, a: seq<Event>, s1: Swarm, b: seq<Event>, s2: Swarm)
    requires Run(t, sha1, s, a, s1) && Run(t, sha1, s1, b, s2)
    ensures Run(t, sha1, s, a + b, s2)
    decreases |a|
  {
    hide Apply;
    hide Enabled;
    if a == [] {
      assert a + b == b;
    } else {
      assert (a + b)[1..] == a[1..] + b;
      RunConcat(t, sha1, Apply(t, sha1, s, a[0]), a[1..], s1, b, s2);
    }
  }

  lemma RunOne(t: Torrent, sha1: Hash, s: Swarm, e: Event)
    requires Enabled(t, s, e)
    ensures Run(t, sha1, s, [e], Apply(t, sha1, s, e))
  {
    assert [e][1..] == [];
    assert Run(t, sha1, Apply(t, sha1, s, e), [], Apply(t, sha1, s, e));
  }

  /** Worker w is at work on its connection, which remembers what the worker does. */
  predicate AtWork(s: Swarm, w: nat) {
    && !s.halted && !s.panicked
    && w < |s.workers| && s.workers[w].state.Working?
    && s.workers[w].client == s.workers[w].state.progress.client
  }

  /** How an attempt leaves its worker: ready to finish with the piece, or about to put it back. */
  ghost predicate Attempted(k: Worker, o: Outcome, k': Worker)
    requires k.state.Working?
  {
    && k'.kind == k.kind && k'.client == o.client
    && match o.result
       case Ok(piece) =>
         && k'.state.Working?
         && var p := k'.state.progress;
            && p.index == k.state.progress.index && p.client == o.client
            && p.buf == piece && p.downloaded >= |p.buf|
            && k'.state.sent == k.state.sent + o.sent
       case Err(_) => k'.state == PuttingBack(k.state.progress.index, true)
  }

  /** An attempt on any bytes is a run of rounds, with a failing connection where the bytes end early. */
  lemma {:induction false} DriveIsRun(t: Torrent, sha1: Hash, s: Swarm, w: nat, wire: seq<u8>)
    returns (es: seq<Event>, s': Swarm)
    requires AtWork(s, w)
    ensures Run(t, sha1, s, es, s') && |s'.workers| == |s.workers| && s' == SetWorker(s, w, s'.workers[w])
    ensures Attempted(s.workers[w], Drive(s.workers[w].state.progress, wire), s'.workers[w])
    decreases |wire|
  {
    var k := s.workers[w];
    var p := k.state.progress;
    if p.downloaded >= |p.buf| {
      es, s' := [], s;
      assert k.state.sent + [] == k.state.sent;
    } else {
      AskKeeps(p);
      hide Ask;
      hide Receive;
      hide Decode;
      var (p1, rs) := Ask(p);
      if Decode(wire).Err? {
        RunOne(t, sha1, s, Break(w));
        es, s' := [Break(w)], Apply(t, sha1, s, Break(w));
      } else {
        var d := Decode(wire).value;
        var e := Turn(w, d.frame, None);
        RunOne(t, sha1, s, e);
        var s1 := Apply(t, sha1, s, e);
        es, s' := [e], s1;
        if Receive(p1, d.frame).Ok? {
          var es1: seq<Event>;
          es1, s' := DriveIsRun(t, sha1, s1, w, d.rest);
          RunConcat(t, sha1, s, [e], s1, es1, s');
          es := [e] + es1;
          AttemptedOnwards(k, wire, None, s'.workers[w]);
        }
      }
    }
  }

  /** A worker at work whose piece is served honestly, where the bytes to come are an honest stream. */
  ghost predicate OnHonestWire(t: Torrent, content: seq<u8>, k: Worker, wire: seq<u8>)
    requires WellFormed(t) && |content| == t.length
  {
    && k.state.Working? && k.client == k.state.progress.client && WorkerRight(t, content, k)
    && var p := k.state.progress;
       && p.index < TWO_TO_THE_32 && |PieceContent(t, content, p.index)| < TWO_TO_THE_32
       && HonestWire(PieceContent(t, content, p.index), p, k.outstanding, wire)
  }

  lemma NeutralTurn(t: Torrent, content: seq<u8>, k: Worker, f: Frame, rest: seq<u8>)
    requires WellFormed(t) && |content| == t.length && k.state.Working? && WorkerRight(t, content, k) && Neutral(f)
    requires var p := k.state.progress;
             var piece := PieceContent(t, content, p.index);
             var (p1, rs) := Ask(p);
             && p.index < TWO_TO_THE_32 && |piece| < TWO_TO_THE_32
             && Sound(piece, p1, k.outstanding + rs) && p1.index == p.index
             && Receive(p1, f).Ok? && Sound(piece, Receive(p1, f).value, k.outstanding + rs)
             && Receive(p1, f).value.index == p.index
             && HonestWire(piece, Receive(p1, f).value, k.outstanding + rs, rest)
    ensures HonestMessage(t, content, k, f, None) && OnHonestWire(t, content, Turned(k, f, None), rest)
  {
    hide Ask;
    hide Receive;
    hide Sound;
    hide Neutral;
    hide HonestWire;
    hide PieceContent;
    hide PieceSize;
  }

  lemma AnswerTurn(t: Torrent, content: seq<u8>, k: Worker, f: Frame, j: nat, rest: seq<u8>)
    requires WellFormed(t) && |content| == t.length && k.state.Working? && WorkerRight(t, content, k)
    requires var p := k.state.progress;
             var piece := PieceContent(t, content, p.index);
             var (p1, rs) := Ask(p);
             var pending := k.outstanding + rs;
             && p.index < TWO_TO_THE_32 && |piece| < TWO_TO_THE_32 && p1.index == p.index
             && j < |pending| && pending[j].begin + pending[j].size <= |piece|
             && f == Some(Reply(p.index, piece, pending[j]))
             && Receive(p1, f).Ok? && Sound(piece, Receive(p1, f).value, Without(pending, j))
             && Receive(p1, f).value.index == p.index
             && HonestWire(piece, Receive(p1, f).value, Without(pending, j), rest)
    ensures HonestMessage(t, content, k, f, Some(j)) && OnHonestWire(t, content, Turned(k, f, Some(j)), rest)
  {
    hide Ask;
    hide Receive;
    hide Sound;
    hide Reply;
    hide HonestWire;
    hide Without;
    hide PieceContent;
    hide PieceSize;
  }

  /** The next message of an honest stream is honest, and leaves an honest stream. */
  lemma HonestTurn(t: Torrent, content: seq<u8>, k: Worker, wire: seq<u8>) returns (answered: Option<nat>)
    requires WellFormed(t) && |content| == t.length && OnHonestWire(t, content, k, wire)
    requires k.state.progress.downloaded < |k.state.progress.buf|
    ensures Decode(wire).Ok?
    ensures var Decoded(f, rest) := Decode(wire).value;
            HonestMessage(t, content, k, f, answered) && OnHonestWire(t, content, Turned(k, f, answered), rest)
  {
    var p := k.state.progress;
    var piece := PieceContent(t, content, p.index);
    AskIsSound(piece, p, k.outstanding);
    hide Ask;
    hide Receive;
    hide Decode;
    hide PieceContent;
    hide PieceSize;
    hide HonestMessage;
    hide Turned;
    hide Neutral;
    var (p1, rs) := Ask(p);
    var pending := k.outstanding + rs;
    var d := Decode(wire).value;
    if Neutral(d.frame) {
      NeutralKeepsSound(piece, p1, pending, d.frame);
      NeutralTurn(t, content, k, d.frame, d.rest);
      answered := None;
    } else {
      var j: nat :| j < |pending| && Answers(piece, p1, pending, j, d.frame)
        && (AnswerKeepsSound(piece, p1, pending, j);
            HonestWire(piece, Receive(p1, d.frame).value, Without(pending, j), d.rest));
      AnswerKeepsSound(piece, p1, pending, j);
      AnswerTurn(t, content, k, d.frame, j, d.rest);
      answered := Some(j);
    }
    hide OnHonestWire;
  }

  lemma TurnIsReceive(k: Worker, f: Frame, answered: Option<nat>)
    requires k.state.Working? && Turned(k, f, answered).state.Working?
    ensures var k', (p1, rs) := Turned(k, f, answered), Ask(k.state.progress);
            && Receive(p1, f) == Ok(k'.state.progress)
            && k'.kind == k.kind && k'.state.sent == k.state.sent + rs
            && k'.state.progress.index == k.state.progress.index
  {
    AskKeeps(k.state.progress);
  }

  /** What is left of an attempt after one round. */
  lemma AttemptedOnwards(k: Worker, wire: seq<u8>, answered: Option<nat>, k': Worker)
    requires k.state.Working? && k.state.progress.downloaded < |k.state.progress.buf| && Decode(wire).Ok?
    requires var k1 := Turned(k, Decode(wire).value.frame, answered);
             && k1.state.Working?
             && Attempted(k1, Drive(k1.state.progress, Decode(wire).value.rest), k')
    ensures Attempted(k, Drive(k.state.progress, wire), k')
    ensures Drive(k.state.progress, wire).result
         == Drive(Turned(k, Decode(wire).value.frame, answered).state.progress, Decode(wire).value.rest).result
  {
    TurnIsReceive(k, Decode(wire).value.frame, answered);
    hide Decode;
    hide Ask;
    hide Receive;
    hide Turned;
    var rs := Ask(k.state.progress).1;
    var tail := Drive(Receive(Ask(k.state.progress).0, Decode(wire).value.frame).value, Decode(wire).value.rest).sent;
    assert k.state.sent + rs + tail == k.state.sent + (rs + tail);
  }

  /** With an honest stream it is an honest run, and ends with the piece. */
  lemma {:induction false} HonestDriveIsHonestRun(
    t: Torrent, sha1: Hash, content: seq<u8>, s: Swarm, w: nat, wire: seq<u8>)
    returns (es: seq<Event>, s': Swarm)
    requires WellFormed(t) && |content| == t.length && AtWork(s, w) && OnHonestWire(t, content, s.workers[w], wire)
    ensures HonestRun(t, sha1, content, s, es, s')
    ensures |s'.workers| == |s.workers| && s' == SetWorker(s, w, s'.workers[w])
    ensures Attempted(s.workers[w], Drive(s.workers[w].state.progress, wire), s'.workers[w])
    ensures Drive(s.workers[w].state.progress, wire).result
         == Ok(PieceContent(t, content, s.workers[w].state.progress.index))
    decreases |wire|
  {
    var k := s.workers[w];
    var p := k.state.progress;
    hide PieceContent;
    if p.downloaded >= |p.buf| {
      DoneIsWhole(PieceContent(t, content, p.index), p, k.outstanding);
      es, s' := [], s;
      assert k.state.sent + [] == k.state.sent;
    } else {
      var answered := HonestTurn(t, content, k, wire);
      hide HonestMessage;
      hide Decode;
      hide Turned;
      hide Drive;
      var d := Decode(wire).value;
      var e := Turn(w, d.frame, answered);
      var s1 := Apply(t, sha1, s, e);
      TurnIsReceive(k, d.frame, answered);
      hide HonestWire;
      hide WorkerRight;
      var es1: seq<Event>;
      es1, s' := HonestDriveIsHonestRun(t, sha1, content, s1, w, d.rest);
      es := [e] + es1;
      assert es[1..] == es1;
      AttemptedOnwards(k, wire, answered, s'.workers[w]);
      hide Attempted;
      hide OnHonestWire;
    }
  }

  // A round of the worker's loop, and the loop

  predicate Ready(s: Swarm, w: nat) {
    && !s.halted && !s.panicked
    && w < |s.workers| && s.workers[w].state == Idle && s.workers[w].kind != Supervisor
  }

  /** Only worker w changed among the workers, and nothing stopped. */
  predicate OnlyWorker(s: Swarm, w: nat, s': Swarm)
    requires w < |s.workers|
  {
    && |s'.workers| == |s.workers| && s'.workers == s.workers[w := s'.workers[w]]
    && s'.workers[w].kind == s.workers[w].kind
    && s'.closed == s.closed && !s'.halted && !s'.panicked
  }

  /** How a round leaves the download: the piece at the end of the queue again, or at the collector, or
      the program stopped. */
  ghost predicate Rounded(t: Torrent, s: Swarm, w: nat, trial: Trial, s': Swarm)
    requires w < |s.workers| && s.queue != []
  {
    var index, k := s.queue[0], s.workers[w];
    match trial.round
    case Lacking =>
      && OnlyWorker(s, w, s') && s'.queue == s.queue[1..] + [index]
      && s'.arrivals == s.arrivals && s'.buf == s.buf
      && s'.workers[w].state == Idle && s'.workers[w].client == trial.client
    case Failed =>
      && OnlyWorker(s, w, s') && s'.queue == s.queue[1..] + [index]
      && s'.arrivals == s.arrivals && s'.buf == s.buf
      && s'.workers[w].state == Stopped && s'.workers[w].client == trial.client
    case Corrupt => s'.halted && s'.arrivals == s.arrivals && s'.buf == s.buf
    case Done(piece) =>
      && OnlyWorker(s, w, s') && s'.queue == s.queue[1..]
      && s'.arrivals == s.arrivals + [Arrival(index, piece, k.kind)]
      && CopyPiece(t, s.buf, index, piece) == Some(s'.buf)
      && s'.workers[w].state == Idle && s'.workers[w].client == trial.client
  }

  lemma TakeIsStep(t: Torrent, sha1: Hash, s: Swarm, w: nat)
    requires WellFormed(t) && Safe(t, sha1, s) && Ready(s, w) && s.queue != []
    ensures Enabled(t, s, Take(w)) && Safe(t, sha1, Apply(t, sha1, s, Take(w)))
    ensures s.queue[0] < |t.hashes| && PieceSize(t, s.queue[0]) == BufferSize(t, s.queue[0]) > 0
    ensures var s1 := Apply(t, sha1, s, Take(w));
            && OnlyWorker(s, w, s1) && s1.queue == s.queue[1..] && s1.arrivals == s.arrivals && s1.buf == s.buf
            && s1.workers[w] == Taken(t, s.workers[w], s.queue[0])
  {
    PieceInQueue(t, s, s.queue[0]);
    PieceInFile(t, s.queue[0]);
    StepIsSafe(t, sha1, s, Take(w));
    hide Safe;
    hide Taken;
    TakenKeepsKind(t, s.workers[w], s.queue[0]);
  }

  lemma TakenKeepsKind(t: Torrent, k: Worker, index: nat)
    ensures Taken(t, k, index).kind == k.kind
  {
  }

  /** Putting a piece back, as the last thing the worker does or not. */
  lemma PutBackIsRun(t: Torrent, sha1: Hash, s: Swarm, w: nat) returns (s': Swarm)
    requires WellFormed(t) && Safe(t, sha1, s) && !s.halted
    requires w < |s.workers| && s.workers[w].state.PuttingBack?
    ensures Run(t, sha1, s, [PutBack(w)], s') && OnlyWorker(s, w, s')
    ensures s'.queue == s.queue + [s.workers[w].state.index] && s'.arrivals == s.arrivals && s'.buf == s.buf
    ensures s'.workers[w] == s.workers[w].(state := if s.workers[w].state.last then Stopped else Idle)
  {
    SafeSendSucceeds(t, sha1, s, PutBack(w));
    RunOne(t, sha1, s, PutBack(w));
    s' := Apply(t, sha1, s, PutBack(w));
    hide Safe;
  }

  lemma FinishStep(t: Torrent, sha1: Hash, s: Swarm, w: nat)
    requires AtWork(s, w) && s.workers[w].state.progress.downloaded >= |s.workers[w].state.progress.buf|
    ensures Enabled(t, s, Finish(w))
    ensures var k, p, s1 := s.workers[w], s.workers[w].state.progress, Apply(t, sha1, s, Finish(w));
            if k.kind == Checked && !HashOk(t, sha1, p.index, p.buf) then s1 == s.(halted := true)
            else s1 == SetWorker(s, w, k.(state := Delivering(p.index, p.buf)))
  {
  }

  lemma DeliverIsRun(t: Torrent, sha1: Hash, s: Swarm, w: nat) returns (s': Swarm)
    requires WellFormed(t) && Safe(t, sha1, s) && !s.halted
    requires w < |s.workers| && s.workers[w].state.Delivering?
    ensures Run(t, sha1, s, [Deliver(w)], s') && OnlyWorker(s, w, s')
    ensures var k := s.workers[w];
            && s'.queue == s.queue && s'.arrivals == s.arrivals + [Arrival(k.state.index, k.state.data, k.kind)]
            && CopyPiece(t, s.buf, k.state.index, k.state.data) == Some(s'.buf)
            && s'.workers[w] == k.(state := Idle)
  {
    SafeSendSucceeds(t, sha1, s, Deliver(w));
    RunOne(t, sha1, s, Deliver(w));
    s' := Apply(t, sha1, s, Deliver(w));
    hide Safe;
    hide CopyPiece;
  }

  /** What an attempt on worker w of s1 leaves. */
  ghost predicate AttemptLeft(t: Torrent, sha1: Hash, s1: Swarm, w: nat, o: Outcome, s': Swarm)
    requires w < |s1.workers| && s1.workers[w].state.Working?
  {
    var k, index := s1.workers[w], s1.workers[w].state.progress.index;
    match o.result
    case Err(_) =>
      && OnlyWorker(s1, w, s') && s'.queue == s1.queue + [index]
      && s'.arrivals == s1.arrivals && s'.buf == s1.buf
      && s'.workers[w].state == Stopped && s'.workers[w].client == o.client
    case Ok(piece) =>
      if k.kind == Checked && !HashOk(t, sha1, index, piece) then
        s'.halted && s'.arrivals == s1.arrivals && s'.buf == s1.buf
      else
        && OnlyWorker(s1, w, s') && s'.queue == s1.queue
        && s'.arrivals == s1.arrivals + [Arrival(index, piece, k.kind)]
        && CopyPiece(t, s1.buf, index, piece) == Some(s'.buf)
        && s'.workers[w].state == Idle && s'.workers[w].client == o.client
  }

  /** Finishing with a piece and delivering it, or stopping the program on a wrong hash. */
  lemma FinishIsRun(t: Torrent, sha1: Hash, s: Swarm, w: nat, o: Outcome) returns (es: seq<Event>, s': Swarm)
    requires WellFormed(t) && Safe(t, sha1, s) && AtWork(s, w)
    requires s.workers[w].state.progress.downloaded >= |s.workers[w].state.progress.buf|
    requires o.result == Ok(s.workers[w].state.progress.buf) && o.client == s.workers[w].client
    ensures Run(t, sha1, s, es, s') && AttemptLeft(t, sha1, s, w, o, s')
  {
    FinishStep(t, sha1, s, w);
    StepIsSafe(t, sha1, s, Finish(w));
    RunOne(t, sha1, s, Finish(w));
    var s1 := Apply(t, sha1, s, Finish(w));
    es, s' := [Finish(w)], s1;
    hide Safe;
    hide Apply;
    hide Enabled;
    hide Run;
    hide HashOk;
    hide CopyPiece;
    if !s1.halted {
      s' := DeliverIsRun(t, sha1, s1, w);
      RunConcat(t, sha1, s, [Finish(w)], s1, [Deliver(w)], s');
      es := [Finish(w)] + [Deliver(w)];
    }
  }

  lemma TryLacking(t: Torrent, sha1: Hash, s: Swarm, w: nat, wire: seq<u8>) returns (es: seq<Event>, s': Swarm)
    requires WellFormed(t) && Safe(t, sha1, s) && Ready(s, w) && s.queue != []
    requires !Bitfield.HasPiece(s.workers[w].client.bitfield, s.queue[0])
    ensures PieceSize(t, s.queue[0]) >= 0
    ensures Run(t, sha1, s, es, s')
    ensures Rounded(t, s, w, Try(t, sha1, s.workers[w].kind == Checked, s.workers[w].client, s.queue[0], wire), s')
  {
    TakeIsStep(t, sha1, s, w);
    RunOne(t, sha1, s, Take(w));
    var s1 := Apply(t, sha1, s, Take(w));
    hide Safe;
    hide Apply;
    s' := PutBackIsRun(t, sha1, s1, w);
    RunConcat(t, sha1, s, [Take(w)], s1, [PutBack(w)], s');
    es := [Take(w)] + [PutBack(w)];
  }

  /** An attempt and what follows it, from the moment the worker has the piece. */
  lemma AttemptIsRun(t: Torrent, sha1: Hash, s1: Swarm, w: nat, wire: seq<u8>) returns (es: seq<Event>, s': Swarm)
    requires WellFormed(t) && Safe(t, sha1, s1) && AtWork(s1, w)
    ensures Run(t, sha1, s1, es, s')
    ensures AttemptLeft(t, sha1, s1, w, Drive(s1.workers[w].state.progress, wire), s')
  {
    var es2, s2 := DriveIsRun(t, sha1, s1, w, wire);
    RunIsSafe(t, sha1, s1, es2, s2);
    hide Safe;
    hide Drive;
    hide HashOk;
    hide CopyPiece;
    hide Run;
    var o := Drive(s1.workers[w].state.progress, wire);
    if o.result.Err? {
      s' := PutBackIsRun(t, sha1, s2, w);
      RunConcat(t, sha1, s1, es2, s2, [PutBack(w)], s');
      es := es2 + [PutBack(w)];
    } else {
      var es3: seq<Event>;
      es3, s' := FinishIsRun(t, sha1, s2, w, o);
      RunConcat(t, sha1, s1, es2, s2, es3, s');
      es := es2 + es3;
    }
  }

  /** Taking the piece and attempting it make a round. */
  lemma RoundedByAttempt(t: Torrent, sha1: Hash, s: Swarm, w: nat, wire: seq<u8>, s1: Swarm, s': Swarm)
    requires Ready(s, w) && s.queue != []
    requires PieceSize(t, s.queue[0]) == BufferSize(t, s.queue[0]) && s.queue[0] < |t.hashes|
    requires Bitfield.HasPiece(s.workers[w].client.bitfield, s.queue[0])
    requires OnlyWorker(s, w, s1) && s1.queue == s.queue[1..] && s1.arrivals == s.arrivals && s1.buf == s.buf
    requires s1.workers[w] == Taken(t, s.workers[w], s.queue[0])
    requires AttemptLeft(t, sha1, s1, w, Drive(s1.workers[w].state.progress, wire), s')
    ensures Rounded(t, s, w, Try(t, sha1, s.workers[w].kind == Checked, s.workers[w].client, s.queue[0], wire), s')
  {
    hide Drive;
    hide HashOk;
    hide CopyPiece;
    hide PieceSize;
    hide BufferSize;
    hide RequestBytes;
    hide HaveBytes;
  }

  /** One round of the byte-level worker on the piece at the head of the queue is a run. */
  lemma TryIsRun(t: Torrent, sha1: Hash, s: Swarm, w: nat, wire: seq<u8>) returns (es: seq<Event>, s': Swarm)
    requires WellFormed(t) && Safe(t, sha1, s) && Ready(s, w) && s.queue != []
    ensures PieceSize(t, s.queue[0]) >= 0
    ensures Run(t, sha1, s, es, s')
    ensures Rounded(t, s, w, Try(t, sha1, s.workers[w].kind == Checked, s.workers[w].client, s.queue[0], wire), s')
  {
    if !Bitfield.HasPiece(s.workers[w].client.bitfield, s.queue[0]) {
      es, s' := TryLacking(t, sha1, s, w, wire);
    } else {
      TakeIsStep(t, sha1, s, w);
      RunOne(t, sha1, s, Take(w));
      var s1 := Apply(t, sha1, s, Take(w));
      assert AtWork(s1, w);
      hide Safe;
      hide Apply;
      hide Enabled;
      hide Run;
      hide Rounded;
      hide Try;
      hide Taken;
      hide PieceSize;
      hide BufferSize;
      hide AttemptLeft;
      var es1;
      es1, s' := AttemptIsRun(t, sha1, s1, w, wire);
      RunConcat(t, sha1, s, [Take(w)], s1, es1, s');
      es := [Take(w)] + es1;
      RoundedByAttempt(t, sha1, s, w, wire, s1, s');
    }
  }

  function ArrivalsOf(results: seq<PieceResult>, kind: Kind): (arrivals: seq<Arrival>)
    ensures |arrivals| == |results|
  {
    seq(|results|, i requires 0 <= i < |results| => Arrival(results[i].index, results[i].data, kind))
  }

  /** How the worker's loop leaves the download: its results at the collector in order, the pieces it put
      back at the end of the queue, and the worker as it ended. */
  ghost predicate LoopLeft(s: Swarm, w: nat, worked: Worked, s': Swarm)
    requires w < |s.workers|
  {
    var n := |worked.results| + |worked.putBack|;
    && s'.arrivals == s.arrivals + ArrivalsOf(worked.results, s.workers[w].kind)
    && if worked.ended == Fatal then s'.halted
       else
         && OnlyWorker(s, w, s') && n <= |s.queue| && s'.queue == s.queue[n..] + worked.putBack
         && s'.workers[w].client == worked.client
         && s'.workers[w].state == if worked.ended == Drained then Idle else Stopped
  }

  lemma QueueHasSizes(t: Torrent, sha1: Hash, s: Swarm)
    requires WellFormed(t) && Safe(t, sha1, s)
    ensures forall i :: 0 <= i < |s.queue| ==> PieceSize(t, s.queue[i]) >= 0
  {
    forall i | 0 <= i < |s.queue| ensures PieceSize(t, s.queue[i]) >= 0 {
      PieceInQueue(t, s, s.queue[i]);
      PieceInFile(t, s.queue[i]);
    }
  }

  lemma LoopLeftAfterDelivery(t: Torrent, s: Swarm, w: nat, trial: Trial, s1: Swarm, worked: Worked, s': Swarm)
    requires w < |s.workers| && s.queue != [] && trial.round.Done? && Rounded(t, s, w, trial, s1)
    requires LoopLeft(s1, w, worked, s')
    ensures LoopLeft(s, w, After([PieceResult(s.queue[0], trial.round.piece)], [], trial.out, worked), s')
  {
    hide CopyPiece;
    var first := PieceResult(s.queue[0], trial.round.piece);
    var kind := s.workers[w].kind;
    assert s.arrivals + ArrivalsOf([first] + worked.results, kind)
        == s.arrivals + [Arrival(first.index, first.data, kind)] + ArrivalsOf(worked.results, kind);
    assert [] + worked.putBack == worked.putBack;
    var n := |worked.results| + |worked.putBack|;
    if worked.ended != Fatal {
      assert s1.queue[n..] == s.queue[n + 1..];
    }
  }

  lemma LoopLeftAfterPutBack(t: Torrent, s: Swarm, w: nat, trial: Trial, s1: Swarm, worked: Worked, s': Swarm)
    requires w < |s.workers| && s.queue != [] && trial.round == Lacking && Rounded(t, s, w, trial, s1)
    requires LoopLeft(s1, w, worked, s') && |worked.results| + |worked.putBack| < |s.queue|
    ensures LoopLeft(s, w, After([], [s.queue[0]], trial.out, worked), s')
  {
    assert [] + worked.results == worked.results;
    var n := |worked.results| + |worked.putBack|;
    if worked.ended != Fatal {
      assert s1.queue[n..] + worked.putBack == s.queue[n + 1..] + ([s.queue[0]] + worked.putBack);
    }
  }

  /** After a round that goes on, the worker is ready for the next piece. */
  lemma ReadyAgain(t: Torrent, s: Swarm, w: nat, indices: seq<nat>, trial: Trial, s1: Swarm)
    requires Ready(s, w) && indices != [] && indices <= s.queue && Rounded(t, s, w, trial, s1)
    requires trial.round == Lacking || trial.round.Done?
    ensures Ready(s1, w) && w < |s1.workers| && indices[1..] <= s1.queue
    ensures s1.workers[w].kind == s.workers[w].kind && s1.workers[w].client == trial.client
  {
    hide CopyPiece;
    assert indices[1..] <= s.queue[1..];
  }

  lemma LoopLeftAtEnd(t: Torrent, s: Swarm, w: nat, trial: Trial, s1: Swarm)
    requires w < |s.workers| && s.queue != [] && Rounded(t, s, w, trial, s1)
    ensures trial.round == Failed ==>
              LoopLeft(s, w, Worked([], [s.queue[0]], trial.client, trial.out, trial.rest, ConnectionLost), s1)
    ensures trial.round == Corrupt ==>
              LoopLeft(s, w, Worked([], [], trial.client, trial.out, trial.rest, Fatal), s1)
  {
    assert s.arrivals + ArrivalsOf([], s.workers[w].kind) == s.arrivals;
  }

  lemma LoopLeftAfterRound(
    t: Torrent, sha1: Hash, check: bool, s: Swarm, w: nat, indices: seq<nat>, wire: seq<u8>, s1: Swarm, s': Swarm)
    requires forall i :: 0 <= i < |indices| ==> PieceSize(t, indices[i]) >= 0
    requires w < |s.workers| && indices != [] && indices <= s.queue
    requires var trial := Try(t, sha1, check, s.workers[w].client, indices[0], wire);
             && Rounded(t, s, w, trial, s1)
             && if trial.round == Lacking || trial.round.Done? then
                  w < |s1.workers| && LoopLeft(s1, w, Work(t, sha1, check, trial.client, indices[1..], trial.rest), s')
                else s' == s1
    ensures LoopLeft(s, w, Work(t, sha1, check, s.workers[w].client, indices, wire), s')
  {
    var trial := Try(t, sha1, check, s.workers[w].client, indices[0], wire);
    var worked := if trial.round == Lacking || trial.round.Done?
                  then Work(t, sha1, check, trial.client, indices[1..], trial.rest)
                  else Worked([], [], trial.client, [], [], Drained);
    hide Try;
    hide PieceSize;
    hide LoopLeft;
    hide Rounded;
    match trial.round
    case Done(_) => LoopLeftAfterDelivery(t, s, w, trial, s1, worked, s');
    case Lacking =>
      NoPieceIsLost(t, sha1, check, trial.client, indices[1..], trial.rest);
      LoopLeftAfterPutBack(t, s, w, trial, s1, worked, s');
    case _ => LoopLeftAtEnd(t, s, w, trial, s1);
  }

  lemma TryOnwards(t: Torrent, sha1: Hash, s: Swarm, w: nat, indices: seq<nat>, wire: seq<u8>)
    returns (es: seq<Event>, s1: Swarm)
    requires WellFormed(t) && Safe(t, sha1, s) && Ready(s, w) && indices != [] && indices <= s.queue
    ensures PieceSize(t, indices[0]) >= 0 && Run(t, sha1, s, es, s1) && Safe(t, sha1, s1)
    ensures var trial := Try(t, sha1, s.workers[w].kind == Checked, s.workers[w].client, indices[0], wire);
            && Rounded(t, s, w, trial, s1)
            && (trial.round == Lacking || trial.round.Done? ==>
                  && Ready(s1, w) && w < |s1.workers| && indices[1..] <= s1.queue
                  && s1.workers[w].kind == s.workers[w].kind && s1.workers[w].client == trial.client)
  {
    es, s1 := TryIsRun(t, sha1, s, w, wire);
    RunIsSafe(t, sha1, s, es, s1);
    hide Safe;
    hide Run;
    hide Try;
    hide Rounded;
    var trial := Try(t, sha1, s.workers[w].kind == Checked, s.workers[w].client, indices[0], wire);
    if trial.round == Lacking || trial.round.Done? {
      ReadyAgain(t, s, w, indices, trial, s1);
    }
  }

  /** The worker's loop on the next pieces of the queue is a run, with the loop's own results. */
  lemma {:induction false} WorkIsRun(t: Torrent, sha1: Hash, s: Swarm, w: nat, indices: seq<nat>, wire: seq<u8>)
    returns (es: seq<Event>, s': Swarm)
    requires WellFormed(t) && Safe(t, sha1, s) && Ready(s, w) && indices <= s.queue
    ensures forall i :: 0 <= i < |indices| ==> PieceSize(t, indices[i]) >= 0
    ensures Run(t, sha1, s, es, s')
    ensures LoopLeft(s, w, Work(t, sha1, s.workers[w].kind == Checked, s.workers[w].client, indices, wire), s')
    decreases |indices|
  {
    QueueHasSizes(t, sha1, s);
    if indices == [] {
      NothingLeft(t, sha1, s, w, wire);
      es, s' := [], s;
      return;
    }
    hide PieceSize;
    hide Safe;
    hide Run;
    hide Try;
    hide Work;
    hide LoopLeft;
    assert w < |s.workers|;
    hide Rounded;
    hide Ready;
    var check := s.workers[w].kind == Checked;
    var trial := Try(t, sha1, check, s.workers[w].client, indices[0], wire);
    var es1, s1 := TryOnwards(t, sha1, s, w, indices, wire);
    es, s' := es1, s1;
    if trial.round == Lacking || trial.round.Done? {
      var es2;
      es2, s' := WorkIsRun(t, sha1, s1, w, indices[1..], trial.rest);
      RunConcat(t, sha1, s, es1, s1, es2, s');
      es := es1 + es2;
    }
    LoopLeftAfterRound(t, sha1, check, s, w, indices, wire, s1, s');
  }

  lemma NothingLeft(t: Torrent, sha1: Hash, s: Swarm, w: nat, wire: seq<u8>)
    requires Ready(s, w)
    ensures Run(t, sha1, s, [], s)
    ensures LoopLeft(s, w, Work(t, sha1, s.workers[w].kind == Checked, s.workers[w].client, [], wire), s)
  {
    assert s.arrivals + ArrivalsOf([], s.workers[w].kind) == s.arrivals;
    assert s.queue[0..] + [] == s.queue;
  }
}
