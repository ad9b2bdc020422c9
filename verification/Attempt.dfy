/** attemptDownloadPiece (p2p/p2p.go) as a function of the bytes that arrive on the connection. */
module Attempt {
  import opened Bytes
  import opened Message
  import opened Pipeline
  import Bitfield

  /** How an attempt ends: the piece or an error, what the connection remembers, the requests sent,
      and the bytes left unread. */
  datatype Outcome = Outcome(result: Result<seq<u8>>, client: Client, sent: seq<Request>, rest: seq<u8>)

  function Drive(p: Progress, wire: seq<u8>): Outcome
    decreases |wire|
  {
    if p.downloaded >= |p.buf| then Outcome(Ok(p.buf), p.client, [], wire)
    else
      var (p1, rs) := Ask(p);
      match Decode(wire)
      case Err(e) => Outcome(Err(e), p1.client, rs, [])
      case Ok(d) =>
        match Receive(p1, d.frame)
        case Err(e) => Outcome(Err(e), p1.client, rs, d.rest)
        case Ok(p2) =>
          var o := Drive(p2, d.rest);
          o.(sent := rs + o.sent)
  }

  function RequestFrame(index: nat, r: Request): Frame {
    Some(FormatRequest(index, r.begin, r.size))
  }

  function RequestFrames(index: nat, rs: seq<Request>): (fs: seq<Frame>)
    ensures |fs| == |rs| && AllFramable(fs)
  {
    seq(|rs|, i requires 0 <= i < |rs| => RequestFrame(index, rs[i]))
  }

  /** The bytes of a list of requests for one piece. */
  ghost function RequestBytes(index: nat, rs: seq<Request>): seq<u8> {
    EncodeAll(RequestFrames(index, rs))
  }

  lemma RequestBytesAppend(index: nat, a: seq<Request>, b: seq<Request>)
    ensures RequestBytes(index, a + b) == RequestBytes(index, a) + RequestBytes(index, b)
  {
    assert RequestFrames(index, a + b) == RequestFrames(index, a) + RequestFrames(index, b);
    EncodeAllAppend(RequestFrames(index, a), RequestFrames(index, b));
  }

  lemma OneRequestBytes(index: nat, r: Request)
    ensures Encode(RequestFrame(index, r)).Some?
    ensures RequestBytes(index, [r]) == Encode(RequestFrame(index, r)).value
  {
    assert RequestFrames(index, [r]) == [RequestFrame(index, r)];
    EncodeAllOne(RequestFrame(index, r));
  }

  /** The bytes of a have message. */
  function HaveBytes(index: nat): seq<u8> {
    HaveEncodes(index);
    Encode(Some(FormatHave(index))).value
  }

  lemma HaveEncodes(index: nat)
    ensures Framable(Some(FormatHave(index))) && Encode(Some(FormatHave(index))).Some?
  {
    FrameRoundTrip(Some(FormatHave(index)), []);
  }

  /** Whatever the peer sends, the requests for a piece are a prefix of its blocks, and a piece that
      is returned has the right length. */
  lemma {:induction false} RequestsTile(p: Progress, sent: seq<Request>, wire: seq<u8>)
    requires Tiled(p, sent) && p.backlog <= MAX_BACKLOG
    ensures var o := Drive(p, wire);
            && sent + o.sent <= Blocks(|p.buf|)
            && (o.result.Ok? ==> |o.result.value| == |p.buf|)
    decreases |wire|
  {
    if p.downloaded >= |p.buf| {
      assert sent + [] == sent;
    } else {
      var (p1, rs) := Ask(p);
      TurnTiles(p, sent, None);
      if Decode(wire).Ok? {
        var d := Decode(wire).value;
        TurnTiles(p, sent, d.frame);
        if Receive(p1, d.frame).Ok? {
          var p2 := Receive(p1, d.frame).value;
          RequestsTile(p2, sent + rs, d.rest);
          assert sent + (rs + Drive(p2, d.rest).sent) == sent + rs + Drive(p2, d.rest).sent;
        }
      }
    }
  }

  predicate Unchokes(f: Frame) {
    f.Some? && f.value.id == MSG_UNCHOKE
  }

  /** A choked client requests nothing, whatever else arrives, until it is unchoked. */
  lemma {:induction false} ChokedIsSilent(p: Progress, frames: seq<Frame>)
    requires p.client.choked && AllFramable(frames)
    requires forall i :: 0 <= i < |frames| ==> !Unchokes(frames[i])
    ensures Drive(p, EncodeAll(frames)).sent == []
    decreases |frames|
  {
    hide Encode;
    hide Decode;
    if frames != [] {
      FrameRoundTrip(frames[0], EncodeAll(frames[1..]));
      if Receive(p, frames[0]).Ok? {
        ChokedIsSilent(Receive(p, frames[0]).value, frames[1..]);
      }
    }
  }

  /** Reading a message without payload, spelled out in bytes. */
  lemma ShortMessage(id: u8, rest: seq<u8>)
    ensures Decode([0, 0, 0, 1, id] + rest) == Ok(Decoded(Some(Message(id, [])), rest))
    ensures Encode(Some(Message(id, []))) == Some([0, 0, 0, 1, id])
  {
    var s := [0, 0, 0, 1, id] + rest;
    Uint32Value(s, 0);
    Uint32Layout(1);
    assert s[5..] == rest && s[5..5] == [];
    EncodeCases(Message(id, []));
    assert PutUint32(1) + [id] + [] == [0, 0, 0, 1, id];
  }

  /** A choke message stops the requests: after it, until an unchoke, the client asks for nothing more than
      it had asked for before it read it. */
  lemma ChokeStopsRequests(p: Progress, frames: seq<Frame>)
    requires !p.client.choked && p.downloaded < |p.buf| && AllFramable(frames)
    requires forall i :: 0 <= i < |frames| && frames[i].Some? ==> frames[i].value.id != 1
    ensures Drive(p, [0, 0, 0, 1, 0] + EncodeAll(frames)).sent == Ask(p).1
  {
    ShortMessage(0, EncodeAll(frames));
    var p1 := Ask(p).0;
    WhatMessagesDo(p1, Message(0, []));
    ChokedIsSilent(p1.(client := p1.client.(choked := true)), frames);
    assert Ask(p).1 + [] == Ask(p).1;
  }

  /** A message the client cannot accept ends the attempt, with nothing more read or requested. */
  lemma BadMessageEndsAttempt(p: Progress, f: Frame, wire: seq<u8>)
    requires p.downloaded < |p.buf| && Framable(f) && Receive(Ask(p).0, f).Err?
    ensures Encode(f).Some?
    ensures Drive(p, Encode(f).value + wire)
         == Outcome(Err(Receive(Ask(p).0, f).error), p.client, Ask(p).1, wire)
  {
    FrameRoundTrip(f, wire);
    AskKeeps(p);
  }

  /** Once unchoked it goes on like a client that never was choked. */
  lemma UnchokeReleases(p: Progress, wire: seq<u8>)
    requires p.client.choked && p.downloaded < |p.buf|
    ensures Encode(Some(Message(MSG_UNCHOKE, []))).Some?
    ensures Drive(p, Encode(Some(Message(MSG_UNCHOKE, []))).value + wire)
         == Drive(p.(client := p.client.(choked := false)), wire)
  {
    hide Encode;
    hide Decode;
    FrameRoundTrip(Some(Message(MSG_UNCHOKE, [])), wire);
    var o := Drive(p.(client := p.client.(choked := false)), wire);
    assert [] + o.sent == o.sent;
  }

  /** A have message adds one piece to those the peer is known to have. */
  lemma HaveIsRemembered(p: Progress, index: nat, query: int)
    requires index < TWO_TO_THE_32
    ensures var r := Receive(p, Some(FormatHave(index)));
            && r.Ok? && r.value == p.(client := r.value.client) && r.value.client.choked == p.client.choked
            && (Bitfield.HasPiece(r.value.client.bitfield, query)
                <==> Bitfield.HasPiece(p.client.bitfield, query) || (query == index && index < 8 * |p.client.bitfield|))
  {
    HaveRoundTrip(index);
    Bitfield.HasPieceAfterSet(p.client.bitfield, index, query);
  }

  /** A stream an honest peer can produce for the requests it sees: neutral messages and, in any
      order, one answer to each request that is pending when the answer is read. */
  ghost predicate HonestWire(piece: seq<u8>, p: Progress, outstanding: seq<Request>, wire: seq<u8>)
    requires Sound(piece, p, outstanding) && p.index < TWO_TO_THE_32 && |piece| < TWO_TO_THE_32
    decreases |wire|
  {
    if p.downloaded >= |piece| then true
    else
      AskIsSound(piece, p, outstanding);
      var (p1, rs) := Ask(p);
      var pending := outstanding + rs;
      && Decode(wire).Ok?
      && var d := Decode(wire).value;
         if Neutral(d.frame) then
           NeutralKeepsSound(piece, p1, pending, d.frame);
           HonestWire(piece, Receive(p1, d.frame).value, pending, d.rest)
         else
           exists j: nat :: j < |pending| && Answers(piece, p1, pending, j, d.frame)
             && (AnswerKeepsSound(piece, p1, pending, j);
                 HonestWire(piece, Receive(p1, d.frame).value, Without(pending, j), d.rest))
  }

  ghost predicate Answers(piece: seq<u8>, p: Progress, pending: seq<Request>, j: nat, f: Frame)
    requires Sound(piece, p, pending) && j < |pending|
  {
    f == Some(Reply(p.index, piece, pending[j]))
  }

  /** With an honest peer the attempt returns the piece, and everything it asked for: all blocks. */
  lemma {:induction false} HonestPeerDelivers(
    piece: seq<u8>, p: Progress, outstanding: seq<Request>, sent: seq<Request>, wire: seq<u8>)
    requires Sound(piece, p, outstanding) && p.index < TWO_TO_THE_32 && |piece| < TWO_TO_THE_32
    requires Tiled(p, sent) && HonestWire(piece, p, outstanding, wire)
    ensures var o := Drive(p, wire);
            o.result == Ok(piece) && sent + o.sent == Blocks(|piece|)
    decreases |wire|
  {
    hide Tiled;
    hide Receive;
    hide Decode;
    if p.downloaded >= |piece| {
      DoneIsWhole(piece, p, outstanding);
      AllAsked(p, sent);
      assert sent + [] == sent;
    } else {
      AskIsSound(piece, p, outstanding);
      var (p1, rs) := Ask(p);
      var pending := outstanding + rs;
      var d := Decode(wire).value;
      TurnTiles(p, sent, d.frame);
      if Neutral(d.frame) {
        NeutralKeepsSound(piece, p1, pending, d.frame);
        HonestPeerDelivers(piece, Receive(p1, d.frame).value, pending, sent + rs, d.rest);
      } else {
        var j: nat :| j < |pending| && Answers(piece, p1, pending, j, d.frame)
          && (AnswerKeepsSound(piece, p1, pending, j);
              HonestWire(piece, Receive(p1, d.frame).value, Without(pending, j), d.rest));
        AnswerKeepsSound(piece, p1, pending, j);
        HonestPeerDelivers(piece, Receive(p1, d.frame).value, Without(pending, j), sent + rs, d.rest);
      }
      var tail := Drive(Receive(p1, d.frame).value, d.rest);
      assert sent + (rs + tail.sent) == sent + rs + tail.sent;
    }
  }

  /** How many messages that answer a request an attempt reads. */
  function AnswersRead(p: Progress, wire: seq<u8>): nat
    decreases |wire|
  {
    if p.downloaded >= |p.buf| || Decode(wire).Err? then 0
    else
      var d := Decode(wire).value;
      var r := Receive(Ask(p).0, d.frame);
      (if Neutral(d.frame) then 0 else 1) + if r.Err? then 0 else AnswersRead(r.value, d.rest)
  }

  /** Termination: over a whole honest stream, whatever else it holds, the attempt reads exactly one
      answer for each request outstanding and each block not yet asked for, and then returns. */
  lemma {:induction false} HonestAnswersAreCounted(
    piece: seq<u8>, p: Progress, outstanding: seq<Request>, sent: seq<Request>, wire: seq<u8>)
    requires Sound(piece, p, outstanding) && p.index < TWO_TO_THE_32 && |piece| < TWO_TO_THE_32
    requires Tiled(p, sent) && HonestWire(piece, p, outstanding, wire)
    ensures |sent| <= BlockCount(|piece|)
    ensures AnswersRead(p, wire) == |outstanding| + BlockCount(|piece|) - |sent|
    decreases |wire|
  {
    hide Tiled;
    hide Receive;
    hide Decode;
    if p.downloaded >= |piece| {
      DoneIsWhole(piece, p, outstanding);
      AllAsked(p, sent);
    } else {
      AskIsSound(piece, p, outstanding);
      var (p1, rs) := Ask(p);
      var pending := outstanding + rs;
      var d := Decode(wire).value;
      TurnTiles(p, sent, d.frame);
      hide Ask;
      if Neutral(d.frame) {
        NeutralKeepsSound(piece, p1, pending, d.frame);
        HonestAnswersAreCounted(piece, Receive(p1, d.frame).value, pending, sent + rs, d.rest);
      } else {
        var j: nat :| j < |pending| && Answers(piece, p1, pending, j, d.frame)
          && (AnswerKeepsSound(piece, p1, pending, j);
              HonestWire(piece, Receive(p1, d.frame).value, Without(pending, j), d.rest));
        AnswerKeepsSound(piece, p1, pending, j);
        HonestAnswersAreCounted(piece, Receive(p1, d.frame).value, Without(pending, j), sent + rs, d.rest);
      }
    }
  }

  lemma AllAsked(p: Progress, sent: seq<Request>)
    requires Tiled(p, sent) && p.requested == |p.buf|
    ensures sent == Blocks(|p.buf|)
  {
  }
}
