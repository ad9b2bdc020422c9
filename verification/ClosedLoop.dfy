/** A leecher and a seeder of this program on one connection: what the seeder writes on the leecher's
    requests is what the leecher needs to read, piece after piece. */
module ClosedLoop {
  import opened Bytes
  import opened Message
  import opened Torrent
  import opened Pipeline
  import opened Attempt
  import opened Serving
  import opened WorkerLoop
  import Bitfield

  /** Reading the first of the replies still to come. */
  lemma FirstReply(index: nat, piece: seq<u8>, rs: seq<Request>, more: seq<u8>)
    requires rs != [] && Within(rs, |piece|)
    ensures Within(rs[1..], |piece|)
    ensures Decode(EncodeAll(Replies(index, piece, rs)) + more)
         == Ok(Decoded(Some(Reply(index, piece, rs[0])), EncodeAll(Replies(index, piece, rs[1..])) + more))
  {
    hide Encode;
    hide Decode;
    hide Reply;
    var replies := Replies(index, piece, rs);
    assert replies[1..] == Replies(index, piece, rs[1..]);
    var rest := EncodeAll(replies[1..]);
    FrameRoundTrip(replies[0], rest + more);
    assert Encode(replies[0]).value + rest + more == Encode(replies[0]).value + (rest + more);
  }

  /** The state while replies come in the order of the requests: those outstanding are due, then
      those of the blocks from m on, for which the requests are still to be made. */
  ghost predicate Fifo(piece: seq<u8>, p: Progress, outstanding: seq<Request>, m: nat) {
    && Sound(piece, p, outstanding) && !p.client.choked
    && p.index < TWO_TO_THE_32 && |piece| < TWO_TO_THE_32
    && m <= |Blocks(|piece|)| && Tiled(p, Blocks(|piece|)[..m])
    && Within(outstanding + Blocks(|piece|)[m..], |piece|)
  }

  ghost function Due(piece: seq<u8>, outstanding: seq<Request>, m: nat): seq<Request>
    requires m <= |Blocks(|piece|)|
  {
    outstanding + Blocks(|piece|)[m..]
  }

  lemma AskedBlocks(piece: seq<u8>, p: Progress, m: nat, rs: seq<Request>)
    requires m <= |Blocks(|piece|)| && |p.buf| == |piece| && Tiled(p, Blocks(|piece|)[..m] + rs)
    ensures m + |rs| <= |Blocks(|piece|)|
    ensures rs + Blocks(|piece|)[m + |rs|..] == Blocks(|piece|)[m..]
    ensures Blocks(|piece|)[..m] + rs == Blocks(|piece|)[..m + |rs|]
  {
    var blocks := Blocks(|piece|);
    var sent := blocks[..m] + rs;
    assert sent == blocks[..|sent|];
    assert rs == sent[m..] == blocks[m..m + |rs|];
  }

  /** Topping up asks for the next blocks. */
  lemma FifoAsk(piece: seq<u8>, p: Progress, outstanding: seq<Request>, m: nat)
    requires Fifo(piece, p, outstanding, m) && p.downloaded < |piece|
    ensures var (p1, rs) := Ask(p);
            && p1 == p.(requested := p1.requested, backlog := p1.backlog)
            && Sound(piece, p1, outstanding + rs) && outstanding + rs != []
            && m + |rs| <= |Blocks(|piece|)| && Blocks(|piece|)[..m] + rs == Blocks(|piece|)[..m + |rs|]
            && rs + Blocks(|piece|)[m + |rs|..] == Blocks(|piece|)[m..]
            && outstanding + rs + Blocks(|piece|)[m + |rs|..] == Due(piece, outstanding, m)
  {
    var (p1, rs) := Ask(p);
    var blocks := Blocks(|piece|);
    AskIsSound(piece, p, outstanding);
    TurnTiles(p, blocks[..m], None);
    NoStall(piece, p, outstanding);
    hide Ask;
    hide Receive;
    hide Block;
    hide Sound;
    AskedBlocks(piece, p1, m, rs);
    assert outstanding + rs + blocks[m + |rs|..] == outstanding + (rs + blocks[m + |rs|..]);
  }

  /** One turn: top up the requests, read the first reply due. */
  lemma FifoTurn(piece: seq<u8>, p: Progress, outstanding: seq<Request>, m: nat)
    returns (p2: Progress, rest: seq<Request>)
    requires Fifo(piece, p, outstanding, m) && p.downloaded < |piece|
    ensures var rs := Ask(p).1;
            && Fifo(piece, p2, rest, m + |rs|)
            && p2.index == p.index && p2.client == p.client
            && Due(piece, outstanding, m) != [] && outstanding + rs != [] && rest == (outstanding + rs)[1..]
            && Due(piece, rest, m + |rs|) == Due(piece, outstanding, m)[1..]
            && Receive(Ask(p).0, Some(Reply(p.index, piece, Due(piece, outstanding, m)[0]))) == Ok(p2)
            && rs + Blocks(|piece|)[m + |rs|..] == Blocks(|piece|)[m..]
  {
    hide Tiled;
    hide Receive;
    hide Reply;
    hide Block;
    hide Ask;
    var blocks := Blocks(|piece|);
    var all := Due(piece, outstanding, m);
    var (p1, rs) := Ask(p);
    FifoAsk(piece, p, outstanding, m);
    var pending := outstanding + rs;
    assert all[0] == pending[0];
    AnswerKeepsSound(piece, p1, pending, 0);
    TurnTiles(p, blocks[..m], Some(Reply(p.index, piece, all[0])));
    p2 := Receive(p1, Some(Reply(p.index, piece, all[0]))).value;
    rest := pending[1..];
    assert Without(pending, 0) == rest;
    assert all[1..] == rest + blocks[m + |rs|..];
  }

  /** Replies that come in the order of the requests make the client ask for all blocks, return the
      piece and leave unread what follows. */
  lemma {:induction false} FifoDelivers(
    piece: seq<u8>, p: Progress, outstanding: seq<Request>, m: nat, more: seq<u8>)
    requires Fifo(piece, p, outstanding, m)
    ensures Drive(p, EncodeAll(Replies(p.index, piece, Due(piece, outstanding, m))) + more)
         == Outcome(Ok(piece), p.client, Blocks(|piece|)[m..], more)
    decreases |outstanding| + |Blocks(|piece|)| - m
  {
    hide Receive;
    hide Decode;
    hide Reply;
    hide Block;
    if p.downloaded >= |piece| {
      DoneIsWhole(piece, p, outstanding);
      AllAsked(p, Blocks(|piece|)[..m]);
      assert |Blocks(|piece|)[..m]| == m;
      assert EncodeAll(Replies(p.index, piece, Due(piece, outstanding, m))) + more == more;
    } else {
      hide Tiled;
      hide Sound;
      var p2, rest := FifoTurn(piece, p, outstanding, m);
      FirstReply(p.index, piece, Due(piece, outstanding, m), more);
      FifoDelivers(piece, p2, rest, m + |Ask(p).1|, more);
    }
  }

  /** What the seeder writes on the requests for a piece makes the leecher, if it is not choked, send
      exactly those requests, return the piece, and leave unread what follows. */
  lemma SeederDeliversPiece(t: Torrent, content: seq<u8>, client: Client, index: nat, more: seq<u8>)
    requires WellFormed(t) && |content| == t.length && index < |t.hashes| && !client.choked
    ensures var piece := PieceContent(t, content, index);
            && Within(Blocks(|piece|), |piece|)
            && Drive(Start(client, index, |piece|), EncodeAll(Replies(index, piece, Blocks(|piece|))) + more)
               == Outcome(Ok(piece), client, Blocks(|piece|), more)
  {
    hide PieceContent;
    PieceInFile(t, index);
    var piece := PieceContent(t, content, index);
    var blocks := Blocks(|piece|);
    BlocksWithin(|piece|);
    StartIsSound(piece, client, index);
    assert Due(piece, [], 0) == blocks;
    assert blocks[..0] == [];
    FifoDelivers(piece, Start(client, index, |piece|), [], 0, more);
  }

  // A worker's whole run over one connection

  /** What a worker writes to an honest peer: for each piece all its requests and then a have message. */
  ghost function WorkerBytes(t: Torrent, indices: seq<nat>): seq<u8>
    requires forall i :: 0 <= i < |indices| ==> PieceSize(t, indices[i]) >= 0
    decreases |indices|
  {
    if indices == [] then []
    else
      RequestBytes(indices[0], Blocks(PieceSize(t, indices[0]))) + HaveBytes(indices[0]) + WorkerBytes(t, indices[1..])
  }

  lemma SizesKnown(t: Torrent, indices: seq<nat>)
    requires WellFormed(t) && forall i :: 0 <= i < |indices| ==> indices[i] < |t.hashes|
    ensures forall i :: 0 <= i < |indices| ==> PieceSize(t, indices[i]) > 0
  {
    forall i | 0 <= i < |indices| ensures PieceSize(t, indices[i]) > 0 {
      PieceInFile(t, indices[i]);
    }
  }

  lemma HaveIsIgnored(t: Torrent, content: seq<u8>, index: nat, wire: seq<u8>)
    ensures Serve(t, content, HaveBytes(index) + wire) == Serve(t, content, wire)
  {
    hide Encode;
    hide Decode;
    HaveEncodes(index);
    FrameRoundTrip(Some(FormatHave(index)), wire);
    var s := Serve(t, content, wire);
    assert [] + s.out == s.out;
  }

  ghost function PieceContents(t: Torrent, content: seq<u8>, indices: seq<nat>): seq<PieceResult>
    requires WellFormed(t) && |content| == t.length
    requires forall i :: 0 <= i < |indices| ==> indices[i] < |t.hashes|
  {
    seq(|indices|, i requires 0 <= i < |indices| => PieceResult(indices[i], PieceContent(t, content, indices[i])))
  }

  /** The leecher has the seeder's pieces to hope for, and its check passes on them. */
  ghost predicate Ready(t: Torrent, sha1: Hash, check: bool, content: seq<u8>, client: Client, indices: seq<nat>)
    requires WellFormed(t) && |content| == t.length
  {
    && !client.choked
    && forall i :: 0 <= i < |indices| ==>
         && indices[i] < |t.hashes|
         && Bitfield.HasPiece(client.bitfield, indices[i])
         && (check ==> HashOk(t, sha1, indices[i], PieceContent(t, content, indices[i])))
  }

  /** For any list of pieces: the seeder's output on all a worker writes lets the worker download
      every one of them, each from its own replies, with nothing left over, and that is what the
      worker writes. */
  lemma {:induction false} SeederServesWorker(
    t: Torrent, sha1: Hash, check: bool, content: seq<u8>, client: Client, indices: seq<nat>)
    requires WellFormed(t) && |content| == t.length && Ready(t, sha1, check, content, client, indices)
    ensures forall i :: 0 <= i < |indices| ==> PieceSize(t, indices[i]) >= 0
    ensures Work(t, sha1, check, client, indices, Serve(t, content, WorkerBytes(t, indices)).out)
         == Worked(PieceContents(t, content, indices), [], client, WorkerBytes(t, indices), [], Drained)
    decreases |indices|
  {
    hide HaveBytes;
    hide RequestBytes;
    hide PieceContent;
    hide Serve;
    hide HashOk;
    hide Drive;
    hide Blocks;
    hide Bitfield.HasPiece;
    SizesKnown(t, indices);
    if indices == [] {
      NothingServed(t, content);
      assert WorkerBytes(t, indices) == [];
      assert PieceContents(t, content, indices) == [];
    } else {
      var index := indices[0];
      var piece := PieceContent(t, content, index);
      var blocks := Blocks(|piece|);
      BlocksWithin(|piece|);
      var have := HaveBytes(index);
      var tail := WorkerBytes(t, indices[1..]);
      assert RequestBytes(index, blocks) + have + tail == RequestBytes(index, blocks) + (have + tail);
      ServesRequests(t, content, index, blocks, have + tail);
      HaveIsIgnored(t, content, index, tail);
      SeederDeliversPiece(t, content, client, index, Serve(t, content, tail).out);
      SeederServesWorker(t, sha1, check, content, client, indices[1..]);
      assert PieceContents(t, content, indices)
          == [PieceResult(index, piece)] + PieceContents(t, content, indices[1..]);
    }
  }

  lemma NothingServed(t: Torrent, content: seq<u8>)
    ensures Serve(t, content, []).out == []
  {
  }
}
