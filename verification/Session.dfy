/** Opening a session (client/client.go, completeHandshake and recvBitfield; server/server.go,
    handleIncomingHandshake), and a whole session of a leecher with a seeder. */
module Session {
  import opened Bytes
  import opened Message
  import opened Torrent
  import H = Handshake
  import S = Serving
  import W = WireFormat

  type u16 = n: int | 0 <= n < TWO_TO_THE_16

  /** Whether DHT is in use, and its port. On the server this also means that its node runs. */
  datatype Dht = Dht(enabled: bool, port: u16)

  function PortBytes(port: u16): seq<u8> {
    PortEncodes(port);
    Encode(Some(FormatPort(port))).value
  }

  lemma PortEncodes(port: u16)
    ensures Encode(Some(FormatPort(port))).Some?
  {
    FrameRoundTrip(Some(FormatPort(port)), []);
  }

  method SendPort(c: Connection, port: u16)
    modifies c`outgoing
    ensures c.outgoing == old(c.outgoing) + PortBytes(port)
  {
    PortEncodes(port);
    var bytes := Serialize(Some(FormatPort(port)));
    c.Write(bytes.value[..]);
  }

  // The client

  /** What the client wrote, the new value of its Bitfield field if it was assigned, the error
      returned if any, and the bytes left unread. */
  datatype Opened = Opened(out: seq<u8>, bitfield: Option<seq<u8>>, error: Option<Error>, rest: seq<u8>)

  function Hello(infoHash: H.Id20, peerID: H.Id20, dht: Dht): seq<u8> {
    H.Encode(H.New(infoHash, peerID, dht.enabled))
  }

  /** Only a bitfield message will do. */
  function BitfieldIn(f: Frame): Result<seq<u8>> {
    if f.None? || f.value.id != MSG_BITFIELD then Err(WrongId) else Ok(f.value.payload)
  }

  function Open(infoHash: H.Id20, peerID: H.Id20, dht: Dht, wire: seq<u8>): Opened {
    var hello := Hello(infoHash, peerID, dht);
    match H.Decode(wire)
    case Err(e) => Opened(hello, None, Some(e), H.Unread(wire))
    case Ok(res) =>
      if res.handshake.infoHash != infoHash then Opened(hello, None, Some(WrongInfoHash), res.rest)
      else
        var out := hello + if res.handshake.dhtSupport && dht.enabled then PortBytes(dht.port) else [];
        match Decode(res.rest)
        case Err(e) => Opened(out, Some([]), Some(e), [])
        case Ok(d) =>
          match BitfieldIn(d.frame)
          case Err(e) => Opened(out, Some([]), Some(e), d.rest)
          case Ok(bitfield) => Opened(out, Some(bitfield), None, d.rest)
  }

  method CompleteHandshake(c: Connection, infoHash: H.Id20, peerID: H.Id20, dht: Dht)
    returns (r: Result<H.Handshake>)
    modifies c
    ensures c.outgoing == old(c.outgoing) + Hello(infoHash, peerID, dht)
                          + if r.Ok? && r.value.dhtSupport && dht.enabled then PortBytes(dht.port) else []
    ensures match H.Decode(old(c.incoming))
            case Err(e) => r == Err(e) && c.incoming == H.Unread(old(c.incoming))
            case Ok(res) =>
              && c.incoming == res.rest
              && r == if res.handshake.infoHash != infoHash then Err(WrongInfoHash) else Ok(res.handshake)
  {
    hide H.Encode;
    hide H.Decode;
    hide PortBytes;
    var req := H.Serialize(H.New(infoHash, peerID, dht.enabled));
    c.Write(req[..]);
    var res := H.Read(c);
    if res.Err? {
      return res;
    }
    if res.value.infoHash != infoHash {
      return Err(WrongInfoHash);
    }
    if res.value.dhtSupport && dht.enabled {
      SendPort(c, dht.port);
    }
    r := res;
  }

  method RecvBitfield(c: Connection) returns (r: Result<seq<u8>>)
    modifies c`incoming
    ensures match Decode(old(c.incoming))
            case Err(e) => r == Err(e) && c.incoming == []
            case Ok(d) => r == BitfieldIn(d.frame) && c.incoming == d.rest
  {
    var msg := Read(c);
    if msg.Err? {
      return Err(msg.error);
    }
    if msg.value.None? {
      return Err(WrongId);
    }
    if msg.value.value.id != MSG_BITFIELD {
      return Err(WrongId);
    }
    r := Ok(msg.value.value.payload);
  }

  // The server

  datatype Greeted = Greeted(out: seq<u8>, result: Result<()>, rest: seq<u8>)

  /** The server answers any handshake with the same handshake, its bitfield, and maybe a port. */
  function Greet(bitfield: seq<u8>, dht: Dht, wire: seq<u8>): Greeted {
    match H.Decode(wire)
    case Err(e) => Greeted([], Err(e), H.Unread(wire))
    case Ok(hs) =>
      var out := H.Encode(hs.handshake);
      match Encode(Some(Message(MSG_BITFIELD, bitfield)))
      case None => Greeted(out, Err(Panicked), hs.rest)
      case Some(bytes) =>
        Greeted(out + bytes + (if dht.enabled && hs.handshake.dhtSupport then PortBytes(dht.port) else []),
                Ok(()), hs.rest)
  }

  method HandleIncomingHandshake(c: Connection, bitfield: array<u8>, dht: Dht) returns (r: Result<()>)
    modifies c
    ensures var g := Greet(bitfield[..], dht, old(c.incoming));
            r == g.result && c.outgoing == old(c.outgoing) + g.out && c.incoming == g.rest
  {
    hide H.Encode;
    hide H.Decode;
    hide Encode;
    hide PortBytes;
    var hs := H.Read(c);
    if hs.Err? {
      return Err(hs.error);
    }
    var reply := H.Serialize(hs.value);
    c.Write(reply[..]);
    var msg := Serialize(Some(Message(MSG_BITFIELD, bitfield[..])));
    if msg.None? {
      return Err(Panicked);
    }
    c.Write(msg.value[..]);
    if dht.enabled && hs.value.dhtSupport {
      SendPort(c, dht.port);
    }
    r := Ok(());
  }

  /** handleConnection as a whole. It goes on to the messages even if the handshake failed. */
  function ServeSession(
    t: Torrent, content: seq<u8>, bitfield: seq<u8>, dht: Dht, waitForHandshake: bool, wire: seq<u8>): S.Served
  {
    if !waitForHandshake then S.Serve(t, content, wire)
    else
      var g := Greet(bitfield, dht, wire);
      if g.result == Err(Panicked) then S.Served(g.out, S.Crashed, g.rest)
      else
        var s := S.Serve(t, content, g.rest);
        s.(out := g.out + s.out)
  }

  method HandleConnection(
    c: Connection, t: Torrent, content: seq<u8>, bitfield: array<u8>, dht: Dht, waitForHandshake: bool)
    returns (end: S.ServeEnd)
    modifies c
    ensures var s := ServeSession(t, content, bitfield[..], dht, waitForHandshake, old(c.incoming));
            end == s.end && c.outgoing == old(c.outgoing) + s.out && c.incoming == s.rest
  {
    hide Greet;
    hide S.Serve;
    ghost var before := c.outgoing;
    ghost var g := Greet(bitfield[..], dht, c.incoming);
    if waitForHandshake {
      var r := HandleIncomingHandshake(c, bitfield, dht);
      if r == Err(Panicked) {
        return S.Crashed;
      }
      ghost var s := S.Serve(t, content, c.incoming);
      assert before + g.out + s.out == before + (g.out + s.out);
    }
    end := S.HandleConnection(c, t, content);
  }

  /** A failed handshake does not end the session: whatever the failing read left is served. After a zero
      length byte that is the rest of the stream; after a handshake cut short it is nothing. */
  lemma ServesAfterFailedHandshake(t: Torrent, content: seq<u8>, bitfield: seq<u8>, dht: Dht, wire: seq<u8>)
    requires H.Decode(wire).Err?
    ensures ServeSession(t, content, bitfield, dht, true, wire)
         == if wire != [] && wire[0] == 0 then S.Serve(t, content, wire[1..])
            else S.Served([], S.ReadFailed(ShortStream), [])
  {
    assert S.Serve(t, content, []) == S.Served([], S.ReadFailed(ShortStream), []);
    hide S.Serve;
    var s := S.Serve(t, content, H.Unread(wire));
    assert [] + s.out == s.out;
  }

  /** Where no handshake is waited for, the first message read is served. */
  lemma ServesAtOnce(t: Torrent, content: seq<u8>, bitfield: seq<u8>, dht: Dht, wire: seq<u8>)
    ensures ServeSession(t, content, bitfield, dht, false, [0, 0, 0, 1, 2] + wire).out
         == [0, 0, 0, 1, 1] + S.Serve(t, content, wire).out
  {
    S.InterestedIsUnchoked(t, content, [], [], wire);
    assert EncodeAll([]) + ([0, 0, 0, 1, 2] + wire) == [0, 0, 0, 1, 2] + wire;
    hide S.Serve;
    var out := [0, 0, 0, 1, 1] + S.Serve(t, content, wire).out;
    assert EncodeAll([]) + out == out;
  }

  // Both together

  /** Client and server agree: the server takes exactly the hello, its reply starts with the same
      bytes, the client accepts it and takes exactly that and the bitfield. What is left is a port
      message if both use DHT. The client sends its own port whenever it uses DHT: the echoed
      handshake never tells it that the server does not. */
  lemma OpeningAgrees(
    infoHash: H.Id20, peerID: H.Id20, clientDht: Dht, serverDht: Dht, bitfield: seq<u8>,
    afterHello: seq<u8>, afterGreeting: seq<u8>)
    requires Framable(Some(Message(MSG_BITFIELD, bitfield)))
    ensures var hello := Hello(infoHash, peerID, clientDht);
            var g := Greet(bitfield, serverDht, hello + afterHello);
            var o := Open(infoHash, peerID, clientDht, g.out + afterGreeting);
            && g.result == Ok(()) && g.rest == afterHello
            && hello <= g.out
            && o.out == hello + (if clientDht.enabled then PortBytes(clientDht.port) else [])
            && o.bitfield == Some(bitfield) && o.error == None
            && o.rest == (if clientDht.enabled && serverDht.enabled then PortBytes(serverDht.port) else [])
                         + afterGreeting
  {
    hide H.Encode;
    hide H.Decode;
    hide Encode;
    hide Decode;
    hide PortBytes;
    var h := H.New(infoHash, peerID, clientDht.enabled);
    var hello := Hello(infoHash, peerID, clientDht);
    H.RoundTrip(h, afterHello);
    var g := Greet(bitfield, serverDht, hello + afterHello);
    var m := Some(Message(MSG_BITFIELD, bitfield));
    var port := if clientDht.enabled && serverDht.enabled then PortBytes(serverDht.port) else [];
    FrameRoundTrip(m, port + afterGreeting);
    var tail := Encode(m).value + (port + afterGreeting);
    assert g.out + afterGreeting == hello + tail;
    H.RoundTrip(h, tail);
    assert hello + [] == hello;
  }

  // In bytes

  /** What the client opens with: 19 and "BitTorrent protocol", eight reserved bytes of which only the last
      bit can be set, the info hash, and then the peer id. */
  lemma HelloLayout(infoHash: H.Id20, peerID: H.Id20, dht: Dht)
    ensures var hello, name := Hello(infoHash, peerID, dht), "BitTorrent protocol";
            && |hello| == 68 && hello[0] == 19
            && (forall i :: 0 <= i < 19 ==> hello[1 + i] == name[i] as int)
            && hello[20..28] == [0, 0, 0, 0, 0, 0, 0, if dht.enabled then 1 else 0]
            && hello[28..48] == infoHash && hello[48..] == peerID
  {
    var hello := Hello(infoHash, peerID, dht);
    var reserved: seq<u8> := [0, 0, 0, 0, 0, 0, 0, if dht.enabled then 1 else 0];
    assert hello == [19] + H.PSTR + reserved + infoHash + peerID;
  }

  /** The client against any reply: a handshake with another info hash ends the opening at once; otherwise it
      sends its port exactly if both sides use DHT, and takes the next message if it is a bitfield. Anything
      else in its place is an error, and leaves the client with an empty bitfield. */
  lemma OpenTakes(
    infoHash: H.Id20, peerID: H.Id20, dht: Dht, wire: seq<u8>, n: nat, f: Frame, rest: seq<u8>)
    requires 0 < n <= |wire| - 49 && wire[0] == n
    requires Framable(f) && Encode(f).Some? && wire[n + 49..] == Encode(f).value + rest
    ensures var o, hello := Open(infoHash, peerID, dht, wire), Hello(infoHash, peerID, dht);
            if wire[n + 9..n + 29] != infoHash then
              o == Opened(hello, None, Some(WrongInfoHash), Encode(f).value + rest)
            else
              && o.out == hello + (if wire[n + 8] % 2 == 1 && dht.enabled
                                   then [0, 0, 0, 3, 9, dht.port / 256, dht.port % 256] else [])
              && o.rest == rest
              && (f.Some? && f.value.id == 5 ==> o.bitfield == Some(f.value.payload) && o.error == None)
              && (f.None? || f.value.id != 5 ==> o.bitfield == Some([]) && o.error == Some(WrongId))
  {
    H.FieldsByPosition(wire);
    FrameRoundTrip(f, rest);
    W.PortLayout(dht.port);
    hide H.Decode;
    hide Decode;
    hide Hello;
  }

  /** Without a whole handshake, or without a whole message after it, the client fails too: before the
      handshake is accepted its bitfield stays as it was, afterwards it is empty. */
  lemma OpenFails(infoHash: H.Id20, peerID: H.Id20, dht: Dht, wire: seq<u8>)
    ensures var o := Open(infoHash, peerID, dht, wire);
            && (wire == [] ==> o == Opened(Hello(infoHash, peerID, dht), None, Some(ShortStream), []))
            && (wire != [] && wire[0] == 0 ==>
                  o == Opened(Hello(infoHash, peerID, dht), None, Some(ZeroPstrLen), wire[1..]))
            && (wire != [] && wire[0] != 0 ==>
                  var n: int := wire[0];
                  if |wire| < 49 + n then o == Opened(Hello(infoHash, peerID, dht), None, Some(ShortStream), [])
                  else
                    wire[n + 9..n + 29] == infoHash && Decode(wire[n + 49..]).Err? ==>
                      o.bitfield == Some([]) && o.error == Some(ShortStream) && o.rest == [])
  {
    H.FieldsByPosition(wire);
    if H.Decode(wire).Ok? {
      W.ReadFailsIff(H.Decode(wire).value.rest);
    }
    hide Hello;
    hide H.Decode;
    hide Decode;
  }

  /** The server against any hello of a full handshake: the same handshake with the unused reserved bits
      cleared, a bitfield message, and its port exactly if both sides use DHT. */
  lemma GreetAnswers(bitfield: seq<u8>, dht: Dht, wire: seq<u8>, n: nat)
    requires 0 < n <= |wire| - 49 && wire[0] == n
    requires Framable(Some(Message(5, bitfield)))
    ensures Greet(bitfield, dht, wire)
            == Greeted(
                 wire[..n + 1] + [0, 0, 0, 0, 0, 0, 0, wire[n + 8] % 2] + wire[n + 9..n + 49]
                 + (W.Digits(|bitfield| + 1) + [5] + bitfield)
                 + (if dht.enabled && wire[n + 8] % 2 == 1
                    then [0, 0, 0, 3, 9, dht.port / 256, dht.port % 256] else []),
                 Ok(()), wire[n + 49..])
  {
    EchoLayout(wire, n);
    W.FrameLayout(Message(5, bitfield));
    W.PortLayout(dht.port);
    hide H.Decode;
    hide H.Encode;
    hide Encode;
    hide W.Digits;
  }

  lemma EchoLayout(wire: seq<u8>, n: nat)
    requires 0 < n <= |wire| - 49 && wire[0] == n
    ensures H.Decode(wire).Ok? && H.Decode(wire).value.rest == wire[n + 49..]
    ensures var h := H.Decode(wire).value.handshake;
            && h.dhtSupport == (wire[n + 8] % 2 == 1)
            && H.Encode(h) == wire[..n + 1] + [0, 0, 0, 0, 0, 0, 0, wire[n + 8] % 2] + wire[n + 9..n + 49]
  {
    H.FieldsByPosition(wire);
    hide H.Decode;
    var h := H.Decode(wire).value.handshake;
    assert wire[..n + 1] == [wire[0]] + wire[1..n + 1];
    assert wire[n + 9..n + 49] == h.infoHash + h.peerID;
  }
}
