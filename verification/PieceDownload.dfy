/** Client, readMessage and attemptDownloadPiece as the program runs them: on a connection, with the
    client's bitfield and the piece buffer updated in place (client/client.go, p2p/p2p.go). */
module PieceDownload {
  import opened Bytes
  import opened Message
  import opened Pipeline
  import opened Attempt
  import Bitfield
  import H = Handshake
  import S = Session

  class PeerClient {
    const conn: Connection
    const infoHash: H.Id20
    const peerID: H.Id20
    const dht: S.Dht
    var choked: bool
    var bitfield: array<u8>

    constructor (conn: Connection, infoHash: H.Id20, peerID: H.Id20, dht: S.Dht, bitfield: array<u8>)
      ensures this.conn == conn && this.infoHash == infoHash && this.peerID == peerID && this.dht == dht
      ensures !choked && this.bitfield == bitfield
    {
      this.conn, this.infoHash, this.peerID, this.dht := conn, infoHash, peerID, dht;
      this.choked := false;
      this.bitfield := bitfield;
    }

    ghost function View(): Client
      reads this, bitfield
    {
      Client(choked, bitfield[..])
    }

    /** A failed handshake leaves the bitfield as it was; a failed read of the peer's bitfield
        empties it. */
    method Handshake() returns (err: Option<Error>)
      modifies this`bitfield, conn
      ensures var o := S.Open(infoHash, peerID, dht, old(conn.incoming));
              && err == o.error
              && conn.outgoing == old(conn.outgoing) + o.out && conn.incoming == o.rest
              && (o.bitfield.None? ==> bitfield == old(bitfield))
              && (o.bitfield.Some? ==> fresh(bitfield) && bitfield[..] == o.bitfield.value)
    {
      hide S.Hello;
      hide S.PortBytes;
      hide H.Decode;
      hide Decode;
      ghost var hello, written := S.Hello(infoHash, peerID, dht), conn.outgoing;
      var res := S.CompleteHandshake(conn, infoHash, peerID, dht);
      assert forall port: seq<u8> :: written + hello + port == written + (hello + port);
      if res.Err? {
        return Some(res.error);
      }
      var received := S.RecvBitfield(conn);
      if received.Err? {
        bitfield := new u8[0];
        return Some(received.error);
      }
      bitfield := new u8[|received.value|](i requires 0 <= i < |received.value| => received.value[i]);
      err := None;
    }

    method SendHave(index: nat)
      modifies conn`outgoing
      ensures conn.outgoing == old(conn.outgoing) + HaveBytes(index)
    {
      HaveEncodes(index);
      var bytes := Serialize(Some(FormatHave(index)));
      conn.Write(bytes.value[..]);
    }

    method SendRequest(index: nat, begin: nat, length: nat)
      modifies conn`outgoing
      ensures conn.outgoing == old(conn.outgoing) + RequestBytes(index, [Request(begin, length)])
    {
      OneRequestBytes(index, Request(begin, length));
      var bytes := Serialize(Some(FormatRequest(index, begin, length)));
      conn.Write(bytes.value[..]);
    }
  }

  class PieceProgress {
    const index: nat
    const client: PeerClient
    const buf: array<u8>
    var downloaded: nat
    var requested: nat
    var backlog: int

    constructor (client: PeerClient, index: nat, length: nat)
      ensures this.client == client && fresh(buf)
      ensures View() == Start(client.View(), index, length)
    {
      this.index := index;
      this.client := client;
      var fill := new u8[length](_ => 0);
      this.buf := fill;
      downloaded, requested, backlog := 0, 0, 0;
      assert fill[..] == seq(length, _ => 0);
    }

    ghost function View(): Progress
      reads this, client, client.bitfield, buf
    {
      Progress(index, client.View(), buf[..], downloaded, requested, backlog)
    }

    /** The client's bitfield and the piece buffer are different arrays. */
    ghost predicate Apart()
      reads client
    {
      buf != client.bitfield
    }

    method ReadMessage() returns (r: Result<()>)
      requires Apart()
      modifies this, client, client.bitfield, buf, client.conn`incoming
      ensures Apart() && client.bitfield == old(client.bitfield)
      ensures match Decode(old(client.conn.incoming))
              case Err(e) => r == Err(e) && View() == old(View()) && client.conn.incoming == []
              case Ok(d) =>
                && client.conn.incoming == d.rest
                && match Receive(old(View()), d.frame)
                   case Err(e) => r == Err(e) && View() == old(View())
                   case Ok(p) => r == Ok(()) && View() == p
    {
      hide PieceInto;
      hide ParseHave;
      hide Decode;
      var msg := Read(client.conn);
      if msg.Err? {
        return Err(msg.error);
      }
      if msg.value.None? {
        return Ok(());
      }
      var m := msg.value.value;
      if m.id == MSG_UNCHOKE {
        client.choked := false;
      } else if m.id == MSG_CHOKE {
        client.choked := true;
      } else if m.id == MSG_HAVE {
        var have := ParseHave(m);
        if have.Err? {
          return Err(have.error);
        }
        Bitfield.SetPiece(client.bitfield, have.value);
      } else if m.id == MSG_PIECE {
        var n := ParsePiece(index, buf, m);
        if n.Err? {
          return Err(n.error);
        }
        downloaded := downloaded + n.value;
        backlog := backlog - 1;
      }
      r := Ok(());
    }

    /** The inner loop of attemptDownloadPiece. */
    method FillPipeline()
      requires Apart()
      modifies this`requested, this`backlog, client.conn`outgoing
      ensures View() == Refill(old(View())).0
      ensures client.conn.outgoing == old(client.conn.outgoing) + RequestBytes(index, Refill(old(View())).1)
    {
      hide Encode;
      hide RequestBytes;
      NothingRequested(index);
      ghost var before, written := View(), client.conn.outgoing;
      ghost var sent: seq<Request> := [];
      assert sent + Refill(View()).1 == Refill(View()).1;
      while backlog < MAX_BACKLOG && requested < buf.Length
        invariant Refill(before) == (Refill(View()).0, sent + Refill(View()).1)
        invariant client.conn.outgoing == written + RequestBytes(index, sent)
        invariant unchanged(client) && unchanged(client.bitfield) && unchanged(buf) && downloaded == before.downloaded
        decreases buf.Length - requested
      {
        ghost var p := View();
        var blockSize := Min(MAX_BLOCK_SIZE, buf.Length);
        var bytesDue := buf.Length - requested;
        if bytesDue < blockSize {
          blockSize := bytesDue;
        }
        ghost var r := Request(requested, blockSize);
        assert r == NextRequest(p);
        client.SendRequest(index, requested, blockSize);
        backlog := backlog + 1;
        requested := requested + blockSize;
        RequestBytesAppend(index, sent, [r]);
        assert sent + ([r] + Refill(View()).1) == sent + [r] + Refill(View()).1;
        sent := sent + [r];
      }
      assert sent + [] == sent;
    }

    /** The outer loop of attemptDownloadPiece. */
    method Run(ghost all: Outcome) returns (r: Result<()>)
      requires Apart() && all == Drive(View(), client.conn.incoming)
      modifies this, client, client.bitfield, buf, client.conn
      ensures client.bitfield == old(client.bitfield) && client.View() == all.client
      ensures client.conn.incoming == all.rest
      ensures client.conn.outgoing == old(client.conn.outgoing) + RequestBytes(index, all.sent)
      ensures r == (if all.result.Ok? then Ok(()) else Err(all.result.error))
      ensures r.Ok? ==> all.result == Ok(buf[..])
    {
      hide Decode;
      hide Receive;
      hide Refill;
      hide EncodeAll;
      ghost var written, sent := client.conn.outgoing, [];
      assert RequestFrames(index, sent) == [];
      assert all == all.(sent := sent + all.sent);
      NothingRequested(index);
      while downloaded < buf.Length
        invariant client.bitfield == old(client.bitfield)
        invariant all == Continued(sent, Drive(View(), client.conn.incoming))
        invariant client.conn.outgoing == written + RequestBytes(index, sent)
        decreases |client.conn.incoming|
      {
        ghost var p := View();
        ghost var rs := Ask(p).1;
        if !client.choked {
          FillPipeline();
        } else {
          NothingRequested(index);
        }
        RequestBytesAppend(index, sent, rs);
        var err := ReadMessage();
        if err.Err? {
          return Err(err.error);
        }
        ContinuedTwice(sent, rs, Drive(View(), client.conn.incoming));
        sent := sent + rs;
      }
      assert sent + [] == sent;
      r := Ok(());
    }
  }

  ghost function Continued(sent: seq<Request>, o: Outcome): Outcome {
    o.(sent := sent + o.sent)
  }

  lemma ContinuedTwice(sent: seq<Request>, rs: seq<Request>, o: Outcome)
    ensures Continued(sent, Continued(rs, o)) == Continued(sent + rs, o)
  {
    assert sent + (rs + o.sent) == sent + rs + o.sent;
  }

  lemma NothingRequested(index: nat)
    ensures RequestBytes(index, []) == []
  {
    assert RequestFrames(index, []) == [];
  }

  /** The whole attempt refines Drive: same result, same bytes written, same bytes left unread. */
  method AttemptDownloadPiece(c: PeerClient, index: nat, length: nat) returns (r: Result<array<u8>>)
    modifies c, c.bitfield, c.conn
    ensures c.bitfield == old(c.bitfield)
    ensures c.View() == Drive(Start(old(c.View()), index, length), old(c.conn.incoming)).client
    ensures c.conn.incoming == Drive(Start(old(c.View()), index, length), old(c.conn.incoming)).rest
    ensures c.conn.outgoing == old(c.conn.outgoing)
              + RequestBytes(index, Drive(Start(old(c.View()), index, length), old(c.conn.incoming)).sent)
    ensures match Drive(Start(old(c.View()), index, length), old(c.conn.incoming)).result
            case Ok(piece) => r.Ok? && fresh(r.value) && r.value[..] == piece
            case Err(e) => r == Err(e)
  {
    var state := new PieceProgress(c, index, length);
    ghost var all := Drive(state.View(), c.conn.incoming);
    var err := state.Run(all);
    r := if err.Ok? then Ok(state.buf) else Err(err.error);
  }
}
