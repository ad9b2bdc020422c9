/** The body of a download worker (p2p/p2p.go, lines 269 to 299, and 228 to 253 without the check) on
    its connection, for the pieces the work queue happens to hand it. */
module WorkerLoop {
  import opened Bytes
  import opened Torrent
  import opened Pipeline
  import opened Attempt
  import opened PieceDownload
  import Bitfield
  import M = Message

  /** How one round ends: the peer lacks the piece, the attempt fails, the hash is wrong, or the piece
      is there. */
  datatype Round = Lacking | Failed | Corrupt | Done(piece: seq<u8>)

  /** A round, what the connection remembers after it, the bytes written, and the bytes left unread. */
  datatype Trial = Trial(round: Round, client: Client, out: seq<u8>, rest: seq<u8>)

  ghost function Try(t: Torrent, sha1: Hash, check: bool, client: Client, index: nat, wire: seq<u8>): Trial
    requires PieceSize(t, index) >= 0
  {
    if !Bitfield.HasPiece(client.bitfield, index) then Trial(Lacking, client, [], wire)
    else
      var o := Drive(Start(client, index, PieceSize(t, index)), wire);
      var requests := RequestBytes(index, o.sent);
      if o.result.Err? then Trial(Failed, o.client, requests, o.rest)
      else if check && !HashOk(t, sha1, index, o.result.value) then Trial(Corrupt, o.client, requests, o.rest)
      else Trial(Done(o.result.value), o.client, requests + HaveBytes(index), o.rest)
  }

  datatype PieceResult = PieceResult(index: nat, data: seq<u8>)

  /** Why the worker stopped: no piece left to take, a failed attempt, or a wrong hash, which ends the
      program. */
  datatype Ended = Drained | ConnectionLost | Fatal

  /** The results delivered, the pieces put back on the queue, what the connection remembers, the bytes
      written, the bytes left unread, and the end. */
  datatype Worked = Worked(
    results: seq<PieceResult>, putBack: seq<nat>, client: Client, out: seq<u8>, rest: seq<u8>, ended: Ended)

  /** The worker's loop on the pieces it is handed. */
  ghost function Work(t: Torrent, sha1: Hash, check: bool, client: Client, indices: seq<nat>, wire: seq<u8>): Worked
    requires forall i :: 0 <= i < |indices| ==> PieceSize(t, indices[i]) >= 0
    decreases |indices|
  {
    if indices == [] then Worked([], [], client, [], wire, Drained)
    else
      var index, trial := indices[0], Try(t, sha1, check, client, indices[0], wire);
      match trial.round
      case Lacking =>
        After([], [index], trial.out, Work(t, sha1, check, trial.client, indices[1..], trial.rest))
      case Failed => Worked([], [index], trial.client, trial.out, trial.rest, ConnectionLost)
      case Corrupt => Worked([], [], trial.client, trial.out, trial.rest, Fatal)
      case Done(piece) =>
        After([PieceResult(index, piece)], [], trial.out,
              Work(t, sha1, check, trial.client, indices[1..], trial.rest))
  }

  /** The work as a whole, after what was done before. */
  ghost function After(results: seq<PieceResult>, putBack: seq<nat>, out: seq<u8>, w: Worked): Worked {
    w.(results := results + w.results, putBack := putBack + w.putBack, out := out + w.out)
  }

  /** One round of the worker's loop. */
  method DownloadOne(c: PeerClient, t: Torrent, sha1: Hash, check: bool, index: nat) returns (r: Round)
    requires PieceSize(t, index) >= 0
    modifies c, c.bitfield, c.conn
    ensures c.bitfield == old(c.bitfield)
    ensures var trial := Try(t, sha1, check, old(c.View()), index, old(c.conn.incoming));
            && r == trial.round && c.View() == trial.client
            && c.conn.outgoing == old(c.conn.outgoing) + trial.out && c.conn.incoming == trial.rest
  {
    hide Drive;
    hide RequestBytes;
    hide HaveBytes;
    hide HashOk;
    hide PieceSize;
    ghost var written := c.conn.outgoing;
    if !Bitfield.HasPiece(c.bitfield[..], index) {
      return Lacking;
    }
    ghost var o := Drive(Start(c.View(), index, PieceSize(t, index)), c.conn.incoming);
    var buf := AttemptDownloadPiece(c, index, PieceSize(t, index));
    if buf.Err? {
      return Failed;
    }
    if check && !HashOk(t, sha1, index, buf.value[..]) {
      return Corrupt;
    }
    r := Done(buf.value[..]);
    c.SendHave(index);
    assert written + RequestBytes(index, o.sent) + HaveBytes(index)
        == written + (RequestBytes(index, o.sent) + HaveBytes(index));
  }

  /** The worker's loop: results go to the collector, pieces it cannot get go back on the queue. */
  method RunWorker(c: PeerClient, t: Torrent, sha1: Hash, check: bool, indices: seq<nat>)
    returns (results: seq<PieceResult>, putBack: seq<nat>, ended: Ended)
    requires forall i :: 0 <= i < |indices| ==> PieceSize(t, indices[i]) >= 0
    modifies c, c.bitfield, c.conn
    ensures var w := Work(t, sha1, check, old(c.View()), indices, old(c.conn.incoming));
            && results == w.results && putBack == w.putBack && ended == w.ended && c.View() == w.client
            && c.conn.outgoing == old(c.conn.outgoing) + w.out && c.conn.incoming == w.rest
  {
    hide Try;
    hide PieceSize;
    ghost var written := c.conn.outgoing;
    ghost var all := Work(t, sha1, check, c.View(), indices, c.conn.incoming);
    results, putBack, ended := [], [], Drained;
    ghost var out: seq<u8> := [];
    assert indices[0..] == indices;
    AfterNothing(all);
    for k := 0 to |indices|
      invariant c.bitfield == old(c.bitfield) && ended == Drained
      invariant c.conn.outgoing == written + out
      invariant all == After(results, putBack, out, Work(t, sha1, check, c.View(), indices[k..], c.conn.incoming))
    {
      var index := indices[k];
      assert indices[k..][0] == index && indices[k..][1..] == indices[k + 1..];
      ghost var trial := Try(t, sha1, check, c.View(), index, c.conn.incoming);
      var round := DownloadOne(c, t, sha1, check, index);
      ghost var rest := Worked([], [], c.View(), [], c.conn.incoming, Drained);
      if round == Lacking || round.Done? {
        rest := Work(t, sha1, check, c.View(), indices[k + 1..], c.conn.incoming);
      }
      assert written + out + trial.out == written + (out + trial.out);
      match round {
        case Lacking =>
          AfterTwice(results, putBack, out, [], [index], trial.out, rest);
          putBack := putBack + [index];
          assert results + [] == results;
        case Failed =>
          putBack := putBack + [index];
          assert results + [] == results;
          ended := ConnectionLost;
          return;
        case Corrupt =>
          assert results + [] == results && putBack + [] == putBack;
          ended := Fatal;
          return;
        case Done(piece) =>
          AfterTwice(results, putBack, out, [PieceResult(index, piece)], [], trial.out, rest);
          results := results + [PieceResult(index, piece)];
          assert putBack + [] == putBack;
      }
      out := out + trial.out;
    }
    assert results + [] == results && putBack + [] == putBack && out + [] == out;
  }

  lemma AfterNothing(w: Worked)
    ensures After([], [], [], w) == w
  {
    assert [] + w.results == w.results && [] + w.putBack == w.putBack && [] + w.out == w.out;
  }

  lemma AfterTwice(
    results: seq<PieceResult>, putBack: seq<nat>, out: seq<u8>,
    more: seq<PieceResult>, again: seq<nat>, bytes: seq<u8>, w: Worked)
    ensures After(results, putBack, out, After(more, again, bytes, w))
         == After(results + more, putBack + again, out + bytes, w)
  {
    assert results + (more + w.results) == results + more + w.results;
    assert putBack + (again + w.putBack) == putBack + again + w.putBack;
    assert out + (bytes + w.out) == out + bytes + w.out;
  }

  // What a worker does with the pieces it takes

  function IndicesOf(results: seq<PieceResult>): (indices: seq<nat>)
    ensures |indices| == |results|
  {
    seq(|results|, i requires 0 <= i < |results| => results[i].index)
  }

  /** The list taken is made of the other two, each in its own order. */
  ghost predicate Interleaves(a: seq<nat>, b: seq<nat>, taken: seq<nat>)
    decreases |taken|
  {
    if taken == [] then a == [] && b == []
    else
      || (a != [] && a[0] == taken[0] && Interleaves(a[1..], b, taken[1..]))
      || (b != [] && b[0] == taken[0] && Interleaves(a, b[1..], taken[1..]))
  }

  /** The worker took a first part of the pieces, all of them if it drained the queue, and each piece it
      took it either delivered or put back, in order; if it lost its connection, it put back the last. */
  ghost predicate Accounted(w: Worked, indices: seq<nat>) {
    var n := |w.results| + |w.putBack|;
    && n <= |indices|
    && Interleaves(IndicesOf(w.results), w.putBack, indices[..n])
    && (w.ended == Drained ==> n == |indices|)
    && (w.ended == ConnectionLost ==> n > 0 && w.putBack != [] && w.putBack[|w.putBack| - 1] == indices[n - 1])
  }

  lemma OneMoreDelivered(first: PieceResult, out: seq<u8>, w: Worked, indices: seq<nat>)
    requires indices != [] && indices[0] == first.index && Accounted(w, indices[1..])
    ensures Accounted(After([first], [], out, w), indices)
  {
    var n, w' := |w.results| + |w.putBack|, After([first], [], out, w);
    assert w'.putBack == w.putBack;
    assert IndicesOf(w'.results)[1..] == IndicesOf(w.results);
    assert indices[..n + 1][1..] == indices[1..][..n];
  }

  lemma OneMorePutBack(index: nat, out: seq<u8>, w: Worked, indices: seq<nat>)
    requires indices != [] && indices[0] == index && Accounted(w, indices[1..])
    ensures Accounted(After([], [index], out, w), indices)
  {
    var n, w' := |w.results| + |w.putBack|, After([], [index], out, w);
    assert w'.results == w.results && w'.putBack[1..] == w.putBack;
    assert indices[..n + 1][1..] == indices[1..][..n];
  }

  /** No piece is lost over a worker's whole run, whatever its peer sends. */
  lemma {:induction false} NoPieceIsLost(
    t: Torrent, sha1: Hash, check: bool, client: Client, indices: seq<nat>, wire: seq<u8>)
    requires forall i :: 0 <= i < |indices| ==> PieceSize(t, indices[i]) >= 0
    ensures Accounted(Work(t, sha1, check, client, indices, wire), indices)
    decreases |indices|
  {
    hide Try;
    hide PieceSize;
    if indices == [] {
      return;
    }
    var index, trial := indices[0], Try(t, sha1, check, client, indices[0], wire);
    if trial.round == Lacking || trial.round.Done? {
      NoPieceIsLost(t, sha1, check, trial.client, indices[1..], trial.rest);
      var w := Work(t, sha1, check, trial.client, indices[1..], trial.rest);
      if trial.round.Done? {
        OneMoreDelivered(PieceResult(index, trial.round.piece), trial.out, w, indices);
      } else {
        OneMorePutBack(index, trial.out, w, indices);
      }
      hide Accounted;
    } else {
      assert indices[..1] == [index] && [index][1..] == [] && indices[..0] == [];
      assert Interleaves([], [], []) && Interleaves([], [index], [index]);
    }
  }

  /** A peer is not asked for what it is not known to have: such pieces all go back, and nothing is
      written or read. */
  lemma {:induction false} LackingIsPutBack(
    t: Torrent, sha1: Hash, check: bool, client: Client, indices: seq<nat>, wire: seq<u8>)
    requires forall i :: 0 <= i < |indices| ==>
               PieceSize(t, indices[i]) >= 0 && !Bitfield.HasPiece(client.bitfield, indices[i])
    ensures Work(t, sha1, check, client, indices, wire) == Worked([], indices, client, [], wire, Drained)
    decreases |indices|
  {
    if indices != [] {
      LackingIsPutBack(t, sha1, check, client, indices[1..], wire);
      assert [indices[0]] + indices[1..] == indices;
    }
  }

  /** For a piece the peer has, the attempt decides: if it fails, the piece goes back and the worker
      stops; if its bytes have another hash and the worker checks, the program ends, and the piece is
      neither delivered nor announced nor put back; in all other cases it is delivered, announced, and
      the worker goes on. */
  lemma AttemptDecides(t: Torrent, sha1: Hash, check: bool, client: Client, indices: seq<nat>, wire: seq<u8>)
    requires forall i :: 0 <= i < |indices| ==> PieceSize(t, indices[i]) >= 0
    requires indices != [] && indices[0] < |t.hashes| && Bitfield.HasPiece(client.bitfield, indices[0])
    ensures var w, index := Work(t, sha1, check, client, indices, wire), indices[0];
            var o := Drive(Start(client, index, PieceSize(t, index)), wire);
            var requests := RequestBytes(index, o.sent);
            if o.result.Err? then w == Worked([], [index], o.client, requests, o.rest, ConnectionLost)
            else if check && sha1(o.result.value) != t.hashes[index] then
              w == Worked([], [], o.client, requests, o.rest, Fatal)
            else
              var later := Work(t, sha1, check, o.client, indices[1..], o.rest);
              w == later.(results := [PieceResult(index, o.result.value)] + later.results,
                          out := requests + HaveBytes(index) + later.out)
  {
    hide Drive;
    hide RequestBytes;
    hide HaveBytes;
    hide PieceSize;
    var index := indices[0];
    var o := Drive(Start(client, index, PieceSize(t, index)), wire);
    var later := Work(t, sha1, check, o.client, indices[1..], o.rest);
    assert [] + later.putBack == later.putBack;
  }

  // What it tells its peer

  /** The piece that a have message announces. */
  function Announces(f: M.Frame): seq<int> {
    if f.Some? && f.value.id == 4 && |f.value.payload| == 4 then [Number(f.value.payload, 0)] else []
  }

  ghost function Announced(fs: seq<M.Frame>): seq<int> {
    if fs == [] then [] else Announces(fs[0]) + Announced(fs[1..])
  }

  lemma {:induction false} AnnouncedAppend(fs: seq<M.Frame>, gs: seq<M.Frame>)
    ensures Announced(fs + gs) == Announced(fs) + Announced(gs)
    decreases |fs|
  {
    hide Announces;
    if fs == [] {
      assert fs + gs == gs;
    } else {
      AnnouncedAppend(fs[1..], gs);
      assert (fs + gs)[0] == fs[0] && (fs + gs)[1..] == fs[1..] + gs;
      var first, more, rest := Announces(fs[0]), Announced(fs[1..]), Announced(gs);
      assert first + (more + rest) == first + more + rest;
    }
  }

  lemma {:induction false} RequestsAnnounceNothing(index: nat, rs: seq<Request>)
    ensures Announced(RequestFrames(index, rs)) == []
    decreases |rs|
  {
    if rs != [] {
      RequestsAnnounceNothing(index, rs[1..]);
      assert RequestFrames(index, rs)[1..] == RequestFrames(index, rs[1..]);
    }
  }

  lemma HaveAnnounces(index: nat)
    requires index < TWO_TO_THE_32
    ensures Announced([Some(M.FormatHave(index))]) == [index]
  {
    var payload := PutUint32(index);
    Uint32RoundTrip(index);
    Uint32Value(payload, 0);
    hide PutUint32;
    hide Number;
    assert Announces(Some(M.FormatHave(index))) == [index];
    hide Announces;
    assert [Some(M.FormatHave(index))][1..] == [];
  }

  /** The bytes are these messages, whose have messages name the pieces of these results. */
  ghost predicate Tells(fs: seq<M.Frame>, out: seq<u8>, results: seq<PieceResult>) {
    M.AllFramable(fs) && M.EncodeAll(fs) == out && Announced(fs) == IndicesOf(results)
  }

  lemma TellsAfter(
    fs: seq<M.Frame>, out: seq<u8>, results: seq<PieceResult>, putBack: seq<nat>, gs: seq<M.Frame>, w: Worked)
    requires Tells(fs, out, results) && Tells(gs, w.out, w.results)
    ensures var w' := After(results, putBack, out, w); Tells(fs + gs, w'.out, w'.results)
  {
    M.EncodeAllAppend(fs, gs);
    AnnouncedAppend(fs, gs);
    hide Announced;
    hide M.EncodeAll;
    assert IndicesOf(results + w.results) == IndicesOf(results) + IndicesOf(w.results);
  }

  /** The messages of one round: the requests, and a have message if it ended with the piece. */
  lemma TryAnnounces(t: Torrent, sha1: Hash, check: bool, client: Client, index: nat, wire: seq<u8>)
    returns (fs: seq<M.Frame>)
    requires PieceSize(t, index) >= 0 && index < TWO_TO_THE_32
    ensures var trial := Try(t, sha1, check, client, index, wire);
            Tells(fs, trial.out, if trial.round.Done? then [PieceResult(index, trial.round.piece)] else [])
  {
    hide Drive;
    hide HashOk;
    hide PieceSize;
    hide Number;
    var trial := Try(t, sha1, check, client, index, wire);
    if trial.round == Lacking {
      return [];
    }
    var sent := Drive(Start(client, index, PieceSize(t, index)), wire).sent;
    var requests, have := RequestFrames(index, sent), Some(M.FormatHave(index));
    RequestsAnnounceNothing(index, sent);
    HaveAnnounces(index);
    HaveEncodes(index);
    if !trial.round.Done? {
      return requests;
    }
    fs := requests + [have];
    M.EncodeAllOne(have);
    M.EncodeAllAppend(requests, [have]);
    AnnouncedAppend(requests, [have]);
  }

  lemma {:induction false} WorkFrames(
    t: Torrent, sha1: Hash, check: bool, client: Client, indices: seq<nat>, wire: seq<u8>) returns (fs: seq<M.Frame>)
    requires forall i :: 0 <= i < |indices| ==> PieceSize(t, indices[i]) >= 0 && indices[i] < TWO_TO_THE_32
    ensures var w := Work(t, sha1, check, client, indices, wire); Tells(fs, w.out, w.results)
    decreases |indices|
  {
    hide Try;
    hide PieceSize;
    if indices == [] {
      return [];
    }
    hide Tells;
    var index, trial := indices[0], Try(t, sha1, check, client, indices[0], wire);
    fs := TryAnnounces(t, sha1, check, client, index, wire);
    if trial.round == Lacking || trial.round.Done? {
      var w := Work(t, sha1, check, trial.client, indices[1..], trial.rest);
      var rest := WorkFrames(t, sha1, check, trial.client, indices[1..], trial.rest);
      if trial.round.Done? {
        TellsAfter(fs, trial.out, [PieceResult(index, trial.round.piece)], [], rest, w);
      } else {
        TellsAfter(fs, trial.out, [], [index], rest, w);
      }
      fs := fs + rest;
    }
  }

  /** Read back from the bytes a worker writes, its have messages name exactly the pieces it delivered, in
      the order it delivered them. */
  lemma WorkAnnounces(t: Torrent, sha1: Hash, check: bool, client: Client, indices: seq<nat>, wire: seq<u8>)
    requires forall i :: 0 <= i < |indices| ==> PieceSize(t, indices[i]) >= 0 && indices[i] < TWO_TO_THE_32
    ensures var w := Work(t, sha1, check, client, indices, wire);
            && M.DecodeAll(w.out).1 == []
            && Announced(M.DecodeAll(w.out).0) == IndicesOf(w.results)
  {
    var fs := WorkFrames(t, sha1, check, client, indices, wire);
    M.StreamRoundTrip(fs);
  }
}
