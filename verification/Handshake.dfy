/** handshake/handshake.go (BEP 3, "peer protocol"; reserved bit of BEP 5). */
module Handshake {
  import opened Bytes

  /** A 20-byte identifier. */
  type Id20 = s: seq<u8> | |s| == 20 witness seq(20, _ => 0)

  datatype Handshake = Handshake(pstr: seq<u8>, infoHash: Id20, peerID: Id20, dhtSupport: bool)

  /** "BitTorrent protocol" */
  const PSTR: seq<u8> :=
    [66, 105, 116, 84, 111, 114, 114, 101, 110, 116, 32, 112, 114, 111, 116, 111, 99, 111, 108]

  function New(infoHash: Id20, peerID: Id20, dhtSupport: bool): Handshake {
    Handshake(PSTR, infoHash, peerID, dhtSupport)
  }

  function ReservedBytes(dhtSupport: bool): (r: seq<u8>)
    ensures |r| == 8
  {
    [0, 0, 0, 0, 0, 0, 0, if dhtSupport then 1 else 0]
  }

  /** The bytes Serialize returns: the length byte wraps around. */
  function Encode(h: Handshake): seq<u8> {
    [ToByte(|h.pstr|)] + h.pstr + ReservedBytes(h.dhtSupport) + h.infoHash + h.peerID
  }

  method GetReservedBytes(h: Handshake) returns (bytes: array<u8>)
    ensures fresh(bytes) && bytes[..] == ReservedBytes(h.dhtSupport)
  {
    bytes := new u8[8](_ => 0);
    if h.dhtSupport {
      bytes[7] := 1;
    }
  }

  method Serialize(h: Handshake) returns (buf: array<u8>)
    ensures fresh(buf) && buf[..] == Encode(h)
  {
    buf := new u8[|h.pstr| + 49](_ => 0);
    buf[0] := ToByte(|h.pstr|);
    var curr := 1;
    var n := CopyInto(buf, curr, h.pstr);
    curr := curr + n;
    assert buf[..curr] == [ToByte(|h.pstr|)] + h.pstr;
    var reserved := GetReservedBytes(h);
    n := CopyInto(buf, curr, reserved[..]);
    curr := curr + n;
    assert buf[..curr] == [ToByte(|h.pstr|)] + h.pstr + ReservedBytes(h.dhtSupport);
    n := CopyInto(buf, curr, h.infoHash);
    curr := curr + n;
    assert buf[..curr] == [ToByte(|h.pstr|)] + h.pstr + ReservedBytes(h.dhtSupport) + h.infoHash;
    n := CopyInto(buf, curr, h.peerID);
    curr := curr + n;
    assert buf[..] == buf[..curr];
  }

  datatype Decoded = Decoded(handshake: Handshake, rest: seq<u8>)

  /** What Read makes of a stream. */
  function Decode(s: seq<u8>): Result<Decoded> {
    if |s| < 1 then Err(ShortStream)
    else
      var pstrlen: int := s[0];
      if pstrlen == 0 then Err(ZeroPstrLen)
      else if |s| - 1 < 48 + pstrlen then Err(ShortStream)
      else
        var buf := s[1..49 + pstrlen];
        var reserved := buf[pstrlen..pstrlen + 8];
        Ok(Decoded(
             Handshake(buf[..pstrlen], buf[pstrlen + 8..pstrlen + 28], buf[pstrlen + 28..], reserved[7] % 2 == 1),
             s[49 + pstrlen..]))
  }

  /** What a failing Read leaves of the stream: it stops after a zero length byte. */
  function Unread(s: seq<u8>): seq<u8> {
    if |s| > 0 && s[0] == 0 then s[1..] else []
  }

  method Read(c: Connection) returns (r: Result<Handshake>)
    modifies c`incoming
    ensures match Decode(old(c.incoming))
            case Ok(d) => r == Ok(d.handshake) && c.incoming == d.rest
            case Err(e) => r == Err(e) && c.incoming == Unread(old(c.incoming))
  {
    var lengthBuf := c.ReadFull(1);
    if lengthBuf.Err? {
      return Err(lengthBuf.error);
    }
    var pstrlen: int := lengthBuf.value[0];
    if pstrlen == 0 {
      return Err(ZeroPstrLen);
    }
    var handshakeBuf := c.ReadFull(48 + pstrlen);
    if handshakeBuf.Err? {
      return Err(handshakeBuf.error);
    }
    var buf := handshakeBuf.value;
    assert buf == old(c.incoming)[1..49 + pstrlen];
    var reserved := buf[pstrlen..pstrlen + 8];
    r := Ok(Handshake(buf[..pstrlen], buf[pstrlen + 8..pstrlen + 28], buf[pstrlen + 28..], reserved[7] % 2 == 1));
  }

  lemma DecodeLayout(n: u8, pstr: seq<u8>, reserved: seq<u8>, infoHash: Id20, peerID: Id20, rest: seq<u8>)
    requires n == |pstr| > 0 && |reserved| == 8
    ensures Decode([n] + pstr + reserved + infoHash + peerID + rest)
         == Ok(Decoded(Handshake(pstr, infoHash, peerID, reserved[7] % 2 == 1), rest))
  {
    var s := [n] + pstr + reserved + infoHash + peerID + rest;
    var buf := s[1..49 + n];
    assert buf == pstr + reserved + infoHash + peerID;
    assert buf[..n] == pstr;
    assert buf[n..n + 8] == reserved;
    assert buf[n + 8..n + 28] == infoHash;
    assert buf[n + 28..] == peerID;
    assert s[49 + n..] == rest;
  }

  /** A handshake reads back as itself exactly when its protocol string has 1 to 255 bytes. */
  lemma RoundTrip(h: Handshake, rest: seq<u8>)
    ensures Decode(Encode(h) + rest) == Ok(Decoded(h, rest)) <==> 1 <= |h.pstr| <= 255
  {
    if 1 <= |h.pstr| <= 255 {
      DecodeLayout(ToByte(|h.pstr|), h.pstr, ReservedBytes(h.dhtSupport), h.infoHash, h.peerID, rest);
    } else {
      var s := Encode(h) + rest;
      assert s[0] == ToByte(|h.pstr|);
      assert Decode(s).Ok? ==> |Decode(s).value.handshake.pstr| == s[0];
    }
  }

  /** A read takes each field from its place; of the reserved bytes only the last bit of the last counts. It
      fails for want of bytes, or on an empty protocol string. */
  lemma FieldsByPosition(s: seq<u8>)
    ensures var n: int := if s == [] then 0 else s[0];
            Decode(s)
            == if s == [] then Err(ShortStream)
               else if n == 0 then Err(ZeroPstrLen)
               else if |s| < 49 + n then Err(ShortStream)
               else Ok(Decoded(
                         Handshake(s[1..n + 1], s[n + 9..n + 29], s[n + 29..n + 49], s[n + 8] % 2 == 1), s[n + 49..]))
  {
    var n: int := if s == [] then 0 else s[0];
    if n > 0 && |s| >= 49 + n {
      var buf := s[1..49 + n];
      assert buf[..n] == s[1..n + 1];
      assert buf[n + 8..n + 28] == s[n + 9..n + 29];
      assert buf[n + 28..] == s[n + 29..n + 49];
      assert buf[n..n + 8][7] == s[n + 8];
    }
  }

  lemma Layout(s: seq<u8>)
    requires Decode(s).Ok?
    ensures var Decoded(h, rest) := Decode(s).value;
            var n: int := s[0];
            && |h.pstr| == n && s[..n + 1] == [s[0]] + h.pstr
            && s[n + 9..] == h.infoHash + h.peerID + rest
            && h.dhtSupport == (s[n + 8] % 2 == 1)
  {
    FieldsByPosition(s);
    hide Decode;
    var n: int := s[0];
    assert s[..n + 1] == [s[0]] + s[1..n + 1];
    assert s[n + 9..] == s[n + 9..n + 29] + s[n + 29..n + 49] + s[n + 49..];
  }

  /** The stream with all reserved bits but the DHT bit of its handshake cleared. */
  function Normalized(s: seq<u8>): seq<u8>
    requires Decode(s).Ok?
  {
    var n: int := s[0];
    s[..n + 1] + ReservedBytes(s[n + 8] % 2 == 1) + s[n + 9..]
  }

  lemma NormalizedLayout(s: seq<u8>)
    requires Decode(s).Ok?
    ensures var Decoded(h, rest) := Decode(s).value;
            && s[0] == |h.pstr| == ToByte(|h.pstr|) > 0
            && Normalized(s) == [s[0]] + h.pstr + ReservedBytes(h.dhtSupport) + h.infoHash + h.peerID + rest
  {
    Layout(s);
    var Decoded(h, rest) := Decode(s).value;
    var n: int := s[0];
    hide Decode;
    hide ReservedBytes;
    assert Normalized(s) == [s[0]] + h.pstr + ReservedBytes(h.dhtSupport) + (h.infoHash + h.peerID + rest);
  }

  /** Reading a handshake and serializing it keeps every byte of the stream but the reserved bits,
      of which it keeps only the DHT bit; a second time it changes nothing. */
  lemma ReadThenSerialize(s: seq<u8>)
    requires Decode(s).Ok?
    ensures var d := Decode(s).value;
            && Encode(d.handshake) + d.rest == Normalized(s)
            && Decode(Normalized(s)) == Ok(d)
            && Normalized(Normalized(s)) == Normalized(s)
  {
    var Decoded(h, rest) := Decode(s).value;
    hide Decode;
    hide Normalized;
    NormalizedLayout(s);
    DecodeLayout(s[0], h.pstr, ReservedBytes(h.dhtSupport), h.infoHash, h.peerID, rest);
    NormalizedLayout(Normalized(s));
  }
}
