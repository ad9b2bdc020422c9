/** What each side has written by the time it has read the first bytes of a stream. A side that blocks in
    a read has written what it would write if the stream ended there; more bytes only make it write more. */
module Prefixes {
  import opened Bytes
  import opened Message
  import opened Torrent
  import opened Pipeline
  import opened Attempt
  import opened Serving
  import opened WorkerLoop
  import opened Session
  import H = Handshake

  lemma DecodeMore(s: seq<u8>, more: seq<u8>)
    requires Decode(s).Ok?
    ensures Decode(s + more) == Ok(Decoded(Decode(s).value.frame, Decode(s).value.rest + more))
  {
    hide Join32;
    var length := GetUint32(s);
    assert GetUint32(s + more) == length;
    if length > 0 {
      assert (s + more)[5..4 + length] == s[5..4 + length];
      assert (s + more)[4 + length..] == s[4 + length..] + more;
    } else {
      assert (s + more)[4..] == s[4..] + more;
    }
  }

  /** An attempt that returned is not changed by what comes later; otherwise it requests no less. */
  lemma {:induction false} DriveMore(p: Progress, wire: seq<u8>, more: seq<u8>)
    ensures var o, o' := Drive(p, wire), Drive(p, wire + more);
            && o.sent <= o'.sent
            && (o.result.Ok? ==> o' == o.(rest := o.rest + more))
    decreases |wire|
  {
    if p.downloaded < |p.buf| && Decode(wire).Ok? {
      DecodeMore(wire, more);
      hide Decode;
      hide Receive;
      hide Ask;
      var p1, d := Ask(p).0, Decode(wire).value;
      if Receive(p1, d.frame).Ok? {
        DriveMore(Receive(p1, d.frame).value, d.rest, more);
      }
    }
  }

  lemma RequestBytesPrefix(index: nat, a: seq<Request>, b: seq<Request>)
    requires a <= b
    ensures RequestBytes(index, a) <= RequestBytes(index, b)
  {
    RequestBytesAppend(index, a, b[|a|..]);
    assert a + b[|a|..] == b;
  }

  lemma TryMore(t: Torrent, sha1: Hash, check: bool, client: Client, index: nat, wire: seq<u8>, more: seq<u8>)
    requires PieceSize(t, index) >= 0
    ensures var trial := Try(t, sha1, check, client, index, wire);
            var trial' := Try(t, sha1, check, client, index, wire + more);
            && trial.out <= trial'.out
            && (trial.round != Failed ==> trial' == trial.(rest := trial.rest + more))
  {
    hide HashOk;
    hide HaveBytes;
    hide RequestBytes;
    hide Drive;
    var p := Start(client, index, PieceSize(t, index));
    DriveMore(p, wire, more);
    RequestBytesPrefix(index, Drive(p, wire).sent, Drive(p, wire + more).sent);
  }

  lemma {:induction false} WorkMore(
    t: Torrent, sha1: Hash, check: bool, client: Client, indices: seq<nat>, wire: seq<u8>, more: seq<u8>)
    requires forall i :: 0 <= i < |indices| ==> PieceSize(t, indices[i]) >= 0
    ensures Work(t, sha1, check, client, indices, wire).out <= Work(t, sha1, check, client, indices, wire + more).out
    decreases |indices|
  {
    hide Try;
    hide PieceSize;
    if indices != [] {
      TryMore(t, sha1, check, client, indices[0], wire, more);
      var trial := Try(t, sha1, check, client, indices[0], wire);
      if trial.round == Lacking || trial.round.Done? {
        WorkMore(t, sha1, check, trial.client, indices[1..], trial.rest, more);
      }
    }
  }

  lemma {:induction false} ServeMore(t: Torrent, content: seq<u8>, wire: seq<u8>, more: seq<u8>)
    ensures Serve(t, content, wire).out <= Serve(t, content, wire + more).out
    decreases |wire|
  {
    if Decode(wire).Ok? {
      DecodeMore(wire, more);
      hide Decode;
      hide React;
      ServeMore(t, content, Decode(wire).value.rest, more);
    }
  }

  lemma HandshakeMore(s: seq<u8>, more: seq<u8>)
    requires H.Decode(s).Ok?
    ensures H.Decode(s + more) == Ok(H.Decoded(H.Decode(s).value.handshake, H.Decode(s).value.rest + more))
  {
    var n: int := s[0];
    assert (s + more)[1..49 + n] == s[1..49 + n];
    assert (s + more)[49 + n..] == s[49 + n..] + more;
  }

  /** What the leecher has written: the opening and, if it succeeds, its worker's bytes. */
  ghost function LeecherOut(
    t: Torrent, sha1: Hash, check: bool, infoHash: H.Id20, peerID: H.Id20, dht: Dht, indices: seq<nat>, wire: seq<u8>)
    : seq<u8>
    requires forall i :: 0 <= i < |indices| ==> PieceSize(t, indices[i]) >= 0
  {
    var o := Open(infoHash, peerID, dht, wire);
    o.out + if o.error == None then Work(t, sha1, check, Client(false, o.bitfield.value), indices, o.rest).out else []
  }

  lemma OpenMore(infoHash: H.Id20, peerID: H.Id20, dht: Dht, wire: seq<u8>, more: seq<u8>)
    ensures var o, o' := Open(infoHash, peerID, dht, wire), Open(infoHash, peerID, dht, wire + more);
            && o.out <= o'.out
            && (o.error == None ==> o.bitfield.Some? && o' == o.(rest := o.rest + more))
  {
    hide H.Decode;
    hide Decode;
    hide Hello;
    hide PortBytes;
    if H.Decode(wire).Ok? {
      HandshakeMore(wire, more);
      var rest := H.Decode(wire).value.rest;
      if Decode(rest).Ok? {
        DecodeMore(rest, more);
      }
    }
  }

  lemma LeecherOutMore(
    t: Torrent, sha1: Hash, check: bool, infoHash: H.Id20, peerID: H.Id20, dht: Dht, indices: seq<nat>,
    wire: seq<u8>, more: seq<u8>)
    requires forall i :: 0 <= i < |indices| ==> PieceSize(t, indices[i]) >= 0
    ensures LeecherOut(t, sha1, check, infoHash, peerID, dht, indices, wire)
         <= LeecherOut(t, sha1, check, infoHash, peerID, dht, indices, wire + more)
  {
    hide Open;
    hide Work;
    hide PieceSize;
    OpenMore(infoHash, peerID, dht, wire, more);
    var o := Open(infoHash, peerID, dht, wire);
    if o.error == None {
      WorkMore(t, sha1, check, Client(false, o.bitfield.value), indices, o.rest, more);
    }
  }

  lemma GreetMore(bitfield: seq<u8>, dht: Dht, wire: seq<u8>, more: seq<u8>)
    ensures var g := Greet(bitfield, dht, wire);
            Greet(bitfield, dht, wire + more) == g.(rest := g.rest + more) || (g.out == [] && g.rest == [])
  {
    hide Encode;
    hide H.Encode;
    hide PortBytes;
    if H.Decode(wire).Ok? {
      HandshakeMore(wire, more);
      hide H.Decode;
    } else if |wire| > 0 && wire[0] == 0 {
      assert (wire + more)[1..] == wire[1..] + more;
    }
  }

  lemma SessionMore(t: Torrent, content: seq<u8>, bitfield: seq<u8>, dht: Dht, wire: seq<u8>, more: seq<u8>)
    ensures ServeSession(t, content, bitfield, dht, true, wire).out
         <= ServeSession(t, content, bitfield, dht, true, wire + more).out
  {
    GreetMore(bitfield, dht, wire, more);
    assert Serve(t, content, []).out == [];
    hide Greet;
    hide Serve;
    var g := Greet(bitfield, dht, wire);
    ServeMore(t, content, g.rest, more);
  }
}
