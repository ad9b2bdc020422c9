/** A whole session, byte for byte, from the hello to the last piece: leecher and seeder of this
    program on one connection. */
module WholeSession {
  import opened Bytes
  import opened Message
  import opened Torrent
  import opened Pipeline
  import opened Attempt
  import opened Serving
  import opened ClosedLoop
  import opened Session
  import opened WorkerLoop
  import H = Handshake
  import Bitfield

  lemma PortIsIgnored(t: Torrent, content: seq<u8>, port: u16, wire: seq<u8>)
    ensures Serve(t, content, PortBytes(port) + wire) == Serve(t, content, wire)
  {
    hide Encode;
    hide Decode;
    PortEncodes(port);
    FrameRoundTrip(Some(FormatPort(port)), wire);
    var s := Serve(t, content, wire);
    assert [] + s.out == s.out;
  }

  lemma {:induction false} RefillTwice(p: Progress)
    ensures Refill(Refill(p).0) == (Refill(p).0, [])
    decreases |p.buf| - p.requested
  {
    if p.backlog < MAX_BACKLOG && p.requested < |p.buf| {
      RefillTwice(p.(backlog := p.backlog + 1, requested := p.requested + NextRequest(p).size));
    }
  }

  lemma AskTwice(p: Progress)
    ensures Ask(Ask(p).0) == (Ask(p).0, [])
  {
    AskKeeps(p);
    RefillTwice(p);
  }

  /** A port message at the start of an attempt changes nothing in how it goes on. */
  lemma PortDoesNotDisturb(p: Progress, port: u16, wire: seq<u8>)
    requires p.downloaded < |p.buf|
    ensures Drive(p, PortBytes(port) + wire) == Drive(p, wire)
  {
    hide Encode;
    hide Decode;
    PortEncodes(port);
    FrameRoundTrip(Some(FormatPort(port)), wire);
    var (p1, rs) := Ask(p);
    AskKeeps(p);
    AskTwice(p);
    hide Ask;
    assert Receive(p1, Some(FormatPort(port))) == Ok(p1);
    var o := Drive(p1, wire);
    assert rs + ([] + o.sent) == rs + o.sent;
    hide Receive;
    if Decode(wire).Ok? && Receive(p1, Decode(wire).value.frame).Ok? {
      var tail := Drive(Receive(p1, Decode(wire).value.frame).value, Decode(wire).value.rest).sent;
      assert [] + tail == tail;
    }
    assert rs + [] == rs;
  }

  /** So a worker whose peer has its first piece works as if the port message were not there. */
  lemma WorkIgnoresPort(
    t: Torrent, sha1: Hash, check: bool, client: Client, indices: seq<nat>, port: u16, wire: seq<u8>)
    requires forall i :: 0 <= i < |indices| ==> PieceSize(t, indices[i]) >= 0
    requires indices != [] && PieceSize(t, indices[0]) > 0 && Bitfield.HasPiece(client.bitfield, indices[0])
    ensures Work(t, sha1, check, client, indices, PortBytes(port) + wire)
         == Work(t, sha1, check, client, indices, wire)
  {
    PortDoesNotDisturb(Start(client, indices[0], PieceSize(t, indices[0])), port, wire);
    hide Drive;
    hide HashOk;
    hide PortBytes;
    hide PieceSize;
    hide RequestBytes;
    hide HaveBytes;
    assert Try(t, sha1, check, client, indices[0], PortBytes(port) + wire)
        == Try(t, sha1, check, client, indices[0], wire);
  }

  /** What the leecher writes in a session in which its worker takes the given pieces. */
  ghost function LeecherBytes(t: Torrent, infoHash: H.Id20, peerID: H.Id20, dht: Dht, indices: seq<nat>): seq<u8>
    requires forall i :: 0 <= i < |indices| ==> PieceSize(t, indices[i]) >= 0
  {
    Hello(infoHash, peerID, dht) + ((if dht.enabled then PortBytes(dht.port) else []) + WorkerBytes(t, indices))
  }

  lemma AfterHelloIsServed(t: Torrent, content: seq<u8>, dht: Dht, requests: seq<u8>)
    ensures Serve(t, content, (if dht.enabled then PortBytes(dht.port) else []) + requests)
         == Serve(t, content, requests)
  {
    if dht.enabled {
      PortIsIgnored(t, content, dht.port, requests);
    } else {
      assert [] + requests == requests;
    }
  }

  lemma Reassociated(a: seq<u8>, b: seq<u8>, c: seq<u8>)
    ensures a + b + c == a + (b + c)
  {
  }

  lemma LeecherIsServed(
    t: Torrent, content: seq<u8>, infoHash: H.Id20, peerID: H.Id20, clientDht: Dht, serverDht: Dht,
    bitfield: seq<u8>, indices: seq<nat>)
    requires WellFormed(t) && |content| == t.length && Framable(Some(Message(MSG_BITFIELD, bitfield)))
    requires forall i :: 0 <= i < |indices| ==> indices[i] < |t.hashes|
    requires forall i :: 0 <= i < |indices| ==> PieceSize(t, indices[i]) >= 0
    ensures var wire := LeecherBytes(t, infoHash, peerID, clientDht, indices);
            var s := ServeSession(t, content, bitfield, serverDht, true, wire);
            var replies := Serve(t, content, WorkerBytes(t, indices)).out;
            var o := Open(infoHash, peerID, clientDht, s.out);
            && o.out + WorkerBytes(t, indices) == wire
            && o.error == None && o.bitfield == Some(bitfield)
            && o.rest == (if clientDht.enabled && serverDht.enabled then PortBytes(serverDht.port) else []) + replies
  {
    hide Open;
    hide Greet;
    hide Serve;
    hide PortBytes;
    hide WorkerBytes;
    hide Hello;
    hide Begin;
    hide End;
    hide H.Decode;
    hide Encode;
    var requests := WorkerBytes(t, indices);
    var after := (if clientDht.enabled then PortBytes(clientDht.port) else []) + requests;
    var wire := LeecherBytes(t, infoHash, peerID, clientDht, indices);
    var replies := Serve(t, content, requests).out;
    AfterHelloIsServed(t, content, clientDht, requests);
    OpeningAgrees(infoHash, peerID, clientDht, serverDht, bitfield, after, replies);
    var g := Greet(bitfield, serverDht, wire);
    assert g.rest == after && ServeSession(t, content, bitfield, serverDht, true, wire).out == g.out + replies;
    Reassociated(Hello(infoHash, peerID, clientDht),
                 if clientDht.enabled then PortBytes(clientDht.port) else [], requests);
  }

  /** The whole session: if the leecher writes what completeHandshake and its worker write for the
      given pieces, then what the seeder's handleConnection writes makes the handshake succeed, gives
      a bitfield that has exactly the torrent's pieces, and lets the worker download each of them,
      writing just that. Only a port message that no worker got to read can be left. */
  lemma SessionDelivers(
    t: Torrent, sha1: Hash, check: bool, content: seq<u8>, infoHash: H.Id20, peerID: H.Id20,
    clientDht: Dht, serverDht: Dht, bitfield: seq<u8>, indices: seq<nat>)
    requires WellFormed(t) && |content| == t.length && |t.hashes| <= TWO_TO_THE_32 - 6
    requires |bitfield| == |t.hashes| && forall q :: Bitfield.HasPiece(bitfield, q) <==> 0 <= q < |t.hashes|
    requires forall i :: 0 <= i < |indices| ==> indices[i] < |t.hashes|
    requires check ==> forall i: nat :: i < |t.hashes| ==> HashOk(t, sha1, i, PieceContent(t, content, i))
    ensures forall i :: 0 <= i < |indices| ==> PieceSize(t, indices[i]) >= 0
    ensures var wire := LeecherBytes(t, infoHash, peerID, clientDht, indices);
            var o := Open(infoHash, peerID, clientDht, ServeSession(t, content, bitfield, serverDht, true, wire).out);
            && o.error == None && o.bitfield == Some(bitfield)
            && var w := Work(t, sha1, check, Client(false, bitfield), indices, o.rest);
               && w.results == PieceContents(t, content, indices) && w.putBack == [] && w.ended == Drained
               && w.rest == (if indices == [] && clientDht.enabled && serverDht.enabled
                             then PortBytes(serverDht.port) else [])
               && o.out + w.out == wire
  {
    hide Open;
    hide ServeSession;
    hide Serve;
    hide PortBytes;
    hide PieceContent;
    hide Drive;
    hide HashOk;
    SizesKnown(t, indices);
    LeecherIsServed(t, content, infoHash, peerID, clientDht, serverDht, bitfield, indices);
    var client := Client(false, bitfield);
    SeederServesWorker(t, sha1, check, content, client, indices);
    var replies := Serve(t, content, WorkerBytes(t, indices)).out;
    if indices == [] {
      NothingServed(t, content);
      assert WorkerBytes(t, indices) == [] && PieceContents(t, content, indices) == [];
    } else if clientDht.enabled && serverDht.enabled {
      WorkIgnoresPort(t, sha1, check, client, indices, serverDht.port, replies);
    } else {
      assert [] + replies == replies;
    }
  }
}
