/** The seeder's request loop (server/server.go, handleConnection), and the closed loop of a leecher's
    piece download against it, byte for byte. */
module Serving {
  import opened Bytes
  import opened Message
  import opened Torrent
  import opened Pipeline
  import opened Attempt

  /** Why the loop ended: a failed read, a keep-alive (which the loop also returns on), a message it
      could not parse, or a panic. */
  datatype ServeEnd = ReadFailed(error: Error) | GotKeepAlive | BadMessage(error: Error) | Crashed

  /** The piece message for a request: slicing Content out of bounds panics. */
  function Answer(t: Torrent, content: seq<u8>, m: Message): Result<Message> {
    match ParseRequest(m)
    case Err(e) => Err(e)
    case Ok((index, begin, length)) =>
      var low := Begin(t, index) + begin;
      if 0 <= low && low + length <= |content|
      then Ok(FormatPiece(index, begin, content[low..low + length]))
      else Err(Panicked)
  }

  /** What the server writes back on one message; the ping a port message may cause is left out. */
  function React(t: Torrent, content: seq<u8>, m: Message): Result<seq<u8>> {
    if m.id == MSG_INTERESTED then Ok(Encode(Some(Message(MSG_UNCHOKE, []))).value)
    else if m.id == MSG_REQUEST then
      match Answer(t, content, m) {
        case Err(e) => Err(e)
        case Ok(reply) => (match Encode(Some(reply)) case None => Err(Panicked) case Some(bytes) => Ok(bytes))
      }
    else Ok([])
  }

  datatype Served = Served(out: seq<u8>, end: ServeEnd, rest: seq<u8>)

  function Serve(t: Torrent, content: seq<u8>, wire: seq<u8>): Served
    decreases |wire|
  {
    match Decode(wire)
    case Err(e) => Served([], ReadFailed(e), [])
    case Ok(d) =>
      match d.frame
      case None => Served([], GotKeepAlive, d.rest)
      case Some(m) =>
        match React(t, content, m)
        case Err(e) => Served([], if e == Panicked then Crashed else BadMessage(e), d.rest)
        case Ok(bytes) =>
          var s := Serve(t, content, d.rest);
          s.(out := bytes + s.out)
  }

  /** The switch in the loop's body. */
  method Respond(c: Connection, t: Torrent, content: seq<u8>, m: Message) returns (r: Result<seq<u8>>)
    modifies c`outgoing
    ensures r == React(t, content, m)
    ensures c.outgoing == old(c.outgoing) + if r.Ok? then r.value else []
  {
    if m.id == MSG_INTERESTED {
      r := Ok(Encode(Some(Message(MSG_UNCHOKE, []))).value);
      c.Write(r.value);
    } else if m.id == MSG_REQUEST {
      var reply := Answer(t, content, m);
      if reply.Err? {
        return Err(reply.error);
      }
      var bytes := Encode(Some(reply.value));
      if bytes.None? {
        return Err(Panicked);
      }
      r := Ok(bytes.value);
      c.Write(bytes.value);
    } else {
      r := Ok([]);
    }
  }

  method HandleConnection(c: Connection, t: Torrent, content: seq<u8>) returns (end: ServeEnd)
    modifies c
    ensures var s := Serve(t, content, old(c.incoming));
            end == s.end && c.outgoing == old(c.outgoing) + s.out && c.incoming == s.rest
  {
    hide Encode;
    hide Decode;
    hide React;
    ghost var all := Serve(t, content, c.incoming);
    while true
      invariant var s := Serve(t, content, c.incoming);
                && c.outgoing + s.out == old(c.outgoing) + all.out
                && s.end == all.end && s.rest == all.rest
      decreases |c.incoming|
    {
      ghost var written, s := c.outgoing, Serve(t, content, c.incoming);
      var msg := Read(c);
      if msg.Err? {
        return ReadFailed(msg.error);
      }
      if msg.value.None? {
        return GotKeepAlive;
      }
      var r := Respond(c, t, content, msg.value.value);
      if r.Err? {
        return if r.error == Panicked then Crashed else BadMessage(r.error);
      }
      ghost var tail := Serve(t, content, c.incoming);
      assert written + (r.value + tail.out) == written + r.value + tail.out;
    }
  }

  // The seeder as a peer

  lemma RequestInFile(t: Torrent, index: nat, r: Request)
    requires WellFormed(t) && index < |t.hashes| && r.begin + r.size <= PieceSize(t, index)
    ensures index < TWO_TO_THE_32 && r.begin < TWO_TO_THE_32 && r.size < TWO_TO_THE_32
    ensures 0 <= Begin(t, index) <= Begin(t, index) + r.begin + r.size <= End(t, index) <= t.length
  {
    PieceInFile(t, index);
  }

  /** Any request within a piece, formatted and parsed, is a slice of the file, and the seeder answers
      it with the bytes of that piece. */
  lemma AnswersWithThePiece(t: Torrent, content: seq<u8>, index: nat, r: Request)
    requires WellFormed(t) && |content| == t.length && index < |t.hashes|
    requires r.begin + r.size <= PieceSize(t, index)
    ensures Answer(t, content, FormatRequest(index, r.begin, r.size))
         == Ok(Reply(index, PieceContent(t, content, index), r))
  {
    hide Begin;
    hide End;
    hide ParseRequest;
    hide FormatRequest;
    hide FormatPiece;
    RequestInFile(t, index, r);
    RequestRoundTrip(index, r.begin, r.size);
    SliceOfSlice(content, Begin(t, index), End(t, index), r.begin, r.size);
  }

  lemma SliceOfSlice(s: seq<u8>, b: nat, e: nat, from: nat, n: nat)
    requires b + from + n <= e <= |s|
    ensures s[b..e][from..from + n] == s[b + from..b + from + n]
  {
    var x, y := s[b..e][from..from + n], s[b + from..b + from + n];
    assert |x| == |y|;
    forall k | 0 <= k < n ensures x[k] == y[k] {
      assert s[b..e][from + k] == s[b + (from + k)];
    }
  }

  ghost predicate Within(rs: seq<Request>, length: int) {
    forall i :: 0 <= i < |rs| ==> rs[i].begin + rs[i].size <= length && rs[i].size <= MAX_BLOCK_SIZE
  }

  ghost function Replies(index: nat, piece: seq<u8>, rs: seq<Request>): (fs: seq<Frame>)
    requires Within(rs, |piece|)
    ensures |fs| == |rs| && AllFramable(fs)
  {
    seq(|rs|, i requires 0 <= i < |rs| => Some(Reply(index, piece, rs[i])))
  }

  ghost predicate AnsweredBy(t: Torrent, content: seq<u8>, request: Frame, reply: Frame) {
    && Framable(request) && Framable(reply)
    && request.Some? && reply.Some?
    && request.value.id == MSG_REQUEST
    && Answer(t, content, request.value) == Ok(reply.value)
  }

  lemma ServesOne(t: Torrent, content: seq<u8>, request: Frame, reply: Frame, wire: seq<u8>)
    requires AnsweredBy(t, content, request, reply) && Encode(request).Some? && Encode(reply).Some?
    ensures var s := Serve(t, content, wire);
            Serve(t, content, Encode(request).value + wire) == s.(out := Encode(reply).value + s.out)
  {
    hide Encode;
    hide Decode;
    hide Answer;
    FrameRoundTrip(request, wire);
    FrameRoundTrip(reply, []);
  }

  /** A stream of requests is answered with the stream of their replies, each once and in order. */
  lemma {:induction false} ServesAll(
    t: Torrent, content: seq<u8>, requests: seq<Frame>, replies: seq<Frame>, wire: seq<u8>)
    requires |requests| == |replies| && AllFramable(requests) && AllFramable(replies)
    requires forall i :: 0 <= i < |requests| ==> AnsweredBy(t, content, requests[i], replies[i])
    ensures var s := Serve(t, content, wire);
            Serve(t, content, EncodeAll(requests) + wire) == s.(out := EncodeAll(replies) + s.out)
    decreases |requests|
  {
    hide Encode;
    hide AnsweredBy;
    hide Serve;
    var s := Serve(t, content, wire);
    if requests == [] {
      assert EncodeAll(requests) + wire == wire;
      assert EncodeAll(replies) + s.out == s.out;
    } else {
      ServesAll(t, content, requests[1..], replies[1..], wire);
      FrameRoundTrip(requests[0], []);
      FrameRoundTrip(replies[0], []);
      var first, rest := Encode(requests[0]).value, EncodeAll(requests[1..]);
      ServesOne(t, content, requests[0], replies[0], rest + wire);
      assert first + rest + wire == first + (rest + wire);
      var firstOut, restOut := Encode(replies[0]).value, EncodeAll(replies[1..]);
      assert firstOut + restOut + s.out == firstOut + (restOut + s.out);
    }
  }

  /** Interested is answered with unchoke, in bytes, anywhere in a stream of answered requests. */
  lemma InterestedIsUnchoked(t: Torrent, content: seq<u8>, requests: seq<Frame>, replies: seq<Frame>, wire: seq<u8>)
    requires |requests| == |replies| && AllFramable(requests) && AllFramable(replies)
    requires forall i :: 0 <= i < |requests| ==> AnsweredBy(t, content, requests[i], replies[i])
    ensures Serve(t, content, EncodeAll(requests) + ([0, 0, 0, 1, 2] + wire)).out
         == EncodeAll(replies) + ([0, 0, 0, 1, 1] + Serve(t, content, wire).out)
  {
    ShortMessage(2, wire);
    ShortMessage(1, []);
    ServesAll(t, content, requests, replies, [0, 0, 0, 1, 2] + wire);
    hide Decode;
    hide Encode;
  }

  /** And that answer unchokes whoever reads it, and changes nothing else. */
  lemma AnswerUnchokes(p: Progress, rest: seq<u8>)
    ensures Decode([0, 0, 0, 1, 1] + rest).Ok? && Decode([0, 0, 0, 1, 1] + rest).value.rest == rest
    ensures Receive(p, Decode([0, 0, 0, 1, 1] + rest).value.frame) == Ok(p.(client := p.client.(choked := false)))
  {
    ShortMessage(1, rest);
  }

  /** Messages other than interested and request are passed over. */
  lemma OthersAreIgnored(t: Torrent, content: seq<u8>, m: Message, wire: seq<u8>)
    requires m.id != 2 && m.id != 6 && Framable(Some(m))
    ensures Encode(Some(m)).Some?
    ensures Serve(t, content, Encode(Some(m)).value + wire) == Serve(t, content, wire)
  {
    hide Encode;
    hide Decode;
    FrameRoundTrip(Some(m), wire);
    var s := Serve(t, content, wire);
    assert [] + s.out == s.out;
  }

  lemma RequestNumbers(payload: seq<u8>)
    requires |payload| >= 12
    ensures Number(payload, 0) >= 0 && Number(payload, 4) >= 0 && Number(payload, 8) >= 0
    ensures ParseRequest(Message(6, payload)) == Ok((Number(payload, 0), Number(payload, 4), Number(payload, 8)))
  {
    Uint32Value(payload, 0);
    Uint32Value(payload, 4);
    Uint32Value(payload, 8);
  }

  lemma ReplyRepeats(payload: seq<u8>, data: seq<u8>)
    requires |payload| >= 12
    ensures FormatPiece(Number(payload, 0), Number(payload, 4), data) == Message(7, payload[..8] + data)
  {
    Uint32Value(payload, 0);
    Uint32Value(payload, 4);
    Uint32RoundTripBytes(payload[0..4]);
    Uint32RoundTripBytes(payload[4..8]);
    assert payload[0..4] + payload[4..8] == payload[..8];
  }

  /** A request too short for its three numbers is an error; one for bytes outside the content panics; any
      other is answered with a piece message that repeats its index and offset, and those bytes. */
  lemma WhatRequestsGet(t: Torrent, content: seq<u8>, payload: seq<u8>)
    ensures var a := Answer(t, content, Message(6, payload));
            if |payload| < 12 then a == Err(BadPayloadLength)
            else
              var low, length := Number(payload, 0) * t.pieceLength + Number(payload, 4), Number(payload, 8);
              && low >= 0 && length >= 0
              && if low + length > |content| then a == Err(Panicked)
                 else a == Ok(Message(7, payload[..8] + content[low..low + length]))
  {
    if |payload| < 12 {
      return;
    }
    RequestNumbers(payload);
    var index, begin, length := Number(payload, 0), Number(payload, 4), Number(payload, 8);
    hide Number;
    NotNegative(index, t.pieceLength);
    AnswerTo(t, content, Message(6, payload), index, begin, length);
    var low := Begin(t, index) + begin;
    hide Answer;
    hide FormatPiece;
    if low + length <= |content| {
      ReplyRepeats(payload, content[low..low + length]);
    }
  }

  lemma AnswerTo(t: Torrent, content: seq<u8>, m: Message, index: nat, begin: nat, length: nat)
    requires ParseRequest(m) == Ok((index, begin, length)) && Begin(t, index) >= 0
    ensures var low := Begin(t, index) + begin;
            Answer(t, content, m)
            == if low + length > |content| then Err(Panicked)
               else Ok(FormatPiece(index, begin, content[low..low + length]))
  {
    hide ParseRequest;
    hide FormatPiece;
    hide Begin;
  }

  lemma NotNegative(a: int, b: int)
    requires a >= 0 && b >= 0
    ensures a * b >= 0
  {
  }

  /** How the loop goes on after a request: an error ends it, as does a panic, also one over an answer too
      long to be framed; an answer is written before what comes next is read. */
  lemma RequestsAreTaken(t: Torrent, content: seq<u8>, payload: seq<u8>, wire: seq<u8>)
    requires Framable(Some(Message(6, payload)))
    ensures Encode(Some(Message(6, payload))).Some?
    ensures var s := Serve(t, content, Encode(Some(Message(6, payload))).value + wire);
            var later, a := Serve(t, content, wire), Answer(t, content, Message(6, payload));
            if a.Err? then
              s == Served([], if a.error == Panicked then Crashed else BadMessage(a.error), wire)
            else if Encode(Some(a.value)).None? then s == Served([], Crashed, wire)
            else s == later.(out := Encode(Some(a.value)).value + later.out)
  {
    hide Encode;
    hide Decode;
    hide Answer;
    FrameRoundTrip(Some(Message(6, payload)), wire);
  }

  /** A keep-alive ends the loop: after the replies owed for the requests before it, nothing that comes
      later is read. */
  lemma KeepAliveEndsServing(t: Torrent, content: seq<u8>, requests: seq<Frame>, replies: seq<Frame>, wire: seq<u8>)
    requires |requests| == |replies| && AllFramable(requests) && AllFramable(replies)
    requires forall i :: 0 <= i < |requests| ==> AnsweredBy(t, content, requests[i], replies[i])
    ensures Serve(t, content, EncodeAll(requests) + ([0, 0, 0, 0] + wire))
         == Served(EncodeAll(replies), GotKeepAlive, wire)
  {
    hide Decode;
    FrameRoundTrip(None, wire);
    ServesAll(t, content, requests, replies, [0, 0, 0, 0] + wire);
    assert EncodeAll(replies) + [] == EncodeAll(replies);
  }

  /** So does the end of the stream, or a message cut short. */
  lemma CutStreamEndsServing(t: Torrent, content: seq<u8>, requests: seq<Frame>, replies: seq<Frame>, wire: seq<u8>)
    requires |requests| == |replies| && AllFramable(requests) && AllFramable(replies)
    requires forall i :: 0 <= i < |requests| ==> AnsweredBy(t, content, requests[i], replies[i])
    requires |wire| < 4 || |wire| < 4 + Number(wire, 0)
    ensures Serve(t, content, EncodeAll(requests) + wire) == Served(EncodeAll(replies), ReadFailed(ShortStream), [])
  {
    ServesAll(t, content, requests, replies, wire);
    assert EncodeAll(replies) + [] == EncodeAll(replies);
    if |wire| >= 4 {
      Uint32Value(wire, 0);
    }
  }

  /** The seeder answers the requests for a piece with the replies an honest peer owes. */
  lemma ServesRequests(t: Torrent, content: seq<u8>, index: nat, rs: seq<Request>, wire: seq<u8>)
    requires WellFormed(t) && |content| == t.length && index < |t.hashes|
    requires Within(rs, PieceSize(t, index))
    ensures var s := Serve(t, content, wire);
            Serve(t, content, RequestBytes(index, rs) + wire)
            == s.(out := EncodeAll(Replies(index, PieceContent(t, content, index), rs)) + s.out)
  {
    hide Serve;
    hide PieceContent;
    hide AnsweredBy;
    hide Reply;
    hide RequestFrame;
    var piece := PieceContent(t, content, index);
    var requests, replies := RequestFrames(index, rs), Replies(index, piece, rs);
    forall i | 0 <= i < |rs| ensures AnsweredBy(t, content, requests[i], replies[i]) {
      ReplyIsAnswer(t, content, index, rs[i]);
    }
    ServesAll(t, content, requests, replies, wire);
  }

  lemma ReplyIsAnswer(t: Torrent, content: seq<u8>, index: nat, r: Request)
    requires WellFormed(t) && |content| == t.length && index < |t.hashes|
    requires r.begin + r.size <= PieceSize(t, index) && r.size <= MAX_BLOCK_SIZE
    ensures AnsweredBy(t, content, RequestFrame(index, r), Some(Reply(index, PieceContent(t, content, index), r)))
  {
    hide Answer;
    hide PieceContent;
    hide PutUint32;
    AnswersWithThePiece(t, content, index, r);
  }

  lemma BlocksWithin(length: nat)
    ensures Within(Blocks(length), length)
  {
    forall i | 0 <= i < |Blocks(length)|
      ensures Blocks(length)[i].begin + Blocks(length)[i].size <= length && Blocks(length)[i].size <= MAX_BLOCK_SIZE
    {
      assert Blocks(length)[i] == Block(length, i);
    }
  }

  /** Whatever the other peer sends, no request the client makes for a piece can make a seeder of
      the same torrent slice out of bounds: each is answered. */
  lemma AnyPeerRequestsAreServed(t: Torrent, content: seq<u8>, client: Client, index: nat, wire: seq<u8>, i: nat)
    requires WellFormed(t) && |content| == t.length && index < |t.hashes|
    requires PieceSize(t, index) >= 0
    requires i < |Drive(Start(client, index, PieceSize(t, index)), wire).sent|
    ensures var r := Drive(Start(client, index, PieceSize(t, index)), wire).sent[i];
            Answer(t, content, FormatRequest(index, r.begin, r.size)).Ok?
  {
    hide Answer;
    var length := PieceSize(t, index);
    var p := Start(client, index, length);
    RequestsTile(p, [], wire);
    assert Tiled(p, []);
    var sent := Drive(p, wire).sent;
    assert [] + sent == sent;
    BlocksWithin(length);
    assert sent[i] == Blocks(length)[i];
    AnswersWithThePiece(t, content, index, sent[i]);
  }
}
