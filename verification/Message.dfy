/** message/message.go: framing, and the payloads of request, piece, have and port messages
    (BEP 3, "peer messages"; BEP 5, "BitTorrent Protocol Extension"). */
module Message {
  import opened Bytes

  const MSG_CHOKE: u8 := 0
  const MSG_UNCHOKE: u8 := 1
  const MSG_INTERESTED: u8 := 2
  const MSG_NOT_INTERESTED: u8 := 3
  const MSG_HAVE: u8 := 4
  const MSG_BITFIELD: u8 := 5
  const MSG_REQUEST: u8 := 6
  const MSG_PIECE: u8 := 7
  const MSG_CANCEL: u8 := 8
  const MSG_PORT: u8 := 9

  datatype Message = Message(id: u8, payload: seq<u8>)

  /** What one read yields: a message, or None for a keep-alive (Go's nil message). */
  type Frame = Option<Message>

  // Framing

  /** The bytes Serialize returns; None where it panics. Length prefix and buffer size are both
      uint32, so for huge payloads the size wraps around and the writes into it fail. */
  function Encode(f: Frame): Option<seq<u8>> {
    match f
    case None => Some([0, 0, 0, 0])
    case Some(m) =>
      var length := (|m.payload| + 1) % TWO_TO_THE_32;
      var size := (4 + length) % TWO_TO_THE_32;
      if size < 5 then None
      else Some(PutUint32(length) + [m.id] + m.payload[..size - 5])
  }

  datatype Decoded = Decoded(frame: Frame, rest: seq<u8>)

  /** What Read makes of a stream, with the bytes it leaves unread. */
  function Decode(s: seq<u8>): (r: Result<Decoded>)
    ensures r.Ok? ==> |r.value.rest| + 4 <= |s|
  {
    if |s| < 4 then Err(ShortStream)
    else
      var length := GetUint32(s);
      if length == 0 then Ok(Decoded(None, s[4..]))
      else if |s| - 4 < length then Err(ShortStream)
      else Ok(Decoded(Some(Message(s[4], s[5..4 + length])), s[4 + length..]))
  }

  predicate Framable(f: Frame) {
    f.Some? ==> |f.value.payload| <= TWO_TO_THE_32 - 6
  }

  method Serialize(f: Frame) returns (r: Option<array<u8>>)
    ensures r.Some? <==> Encode(f).Some?
    ensures r.Some? ==> fresh(r.value) && r.value[..] == Encode(f).value
  {
    if f.None? {
      var empty := new u8[4](_ => 0);
      return Some(empty);
    }
    hide PutUint32;
    var m := f.value;
    var length := (|m.payload| + 1) % TWO_TO_THE_32;
    var buf := new u8[(4 + length) % TWO_TO_THE_32](_ => 0);
    if buf.Length < 5 {
      return None;
    }
    var n := CopyInto(buf, 0, PutUint32(length));
    buf[4] := m.id;
    assert buf[..5] == PutUint32(length) + [m.id];
    n := CopyInto(buf, 5, m.payload[..buf.Length - 5]);
    assert buf[..] == buf[..5] + buf[5..];
    r := Some(buf);
  }

  method Read(c: Connection) returns (r: Result<Frame>)
    modifies c`incoming
    ensures match Decode(old(c.incoming))
            case Ok(d) => r == Ok(d.frame) && c.incoming == d.rest
            case Err(e) => r == Err(e) && c.incoming == []
  {
    var lengthBuf := c.ReadFull(4);
    if lengthBuf.Err? {
      return Err(lengthBuf.error);
    }
    var length := GetUint32(lengthBuf.value);
    assert length == GetUint32(old(c.incoming));
    if length == 0 {
      return Ok(None);
    }
    var messageBuf := c.ReadFull(length);
    if messageBuf.Err? {
      return Err(messageBuf.error);
    }
    r := Ok(Some(Message(messageBuf.value[0], messageBuf.value[1..])));
    assert messageBuf.value[1..] == old(c.incoming)[5..4 + length];
  }

  lemma DecodePrefixed(m: Message, rest: seq<u8>)
    requires |m.payload| + 1 < TWO_TO_THE_32
    ensures Decode(PutUint32(|m.payload| + 1) + ([m.id] + m.payload + rest)) == Ok(Decoded(Some(m), rest))
  {
    var tail := [m.id] + m.payload + rest;
    Uint32Prefix(|m.payload| + 1, tail);
    var s := PutUint32(|m.payload| + 1) + tail;
    assert s[4..] == tail;
    assert s[5..5 + |m.payload|] == tail[1..1 + |m.payload|] == m.payload;
    assert s[5 + |m.payload|..] == tail[1 + |m.payload|..] == rest;
  }

  /** The wrapped sizes: nothing wraps for a framable payload; just above, the buffer is too
      small for its header; further up, the length prefix no longer counts the payload. */
  lemma EncodeCases(m: Message)
    ensures Framable(Some(m)) ==>
              Encode(Some(m)) == Some(PutUint32(|m.payload| + 1) + [m.id] + m.payload)
    ensures !Framable(Some(m)) && Encode(Some(m)).Some? ==>
              exists cut: nat :: cut < |m.payload| && cut + 1 < TWO_TO_THE_32
                && Encode(Some(m)) == Some(PutUint32(cut + 1) + [m.id] + m.payload[..cut])
  {
    var length := (|m.payload| + 1) % TWO_TO_THE_32;
    if Framable(Some(m)) {
      assert length == |m.payload| + 1;
      assert m.payload[..length - 1] == m.payload;
    } else if Encode(Some(m)).Some? {
      assert (4 + length) % TWO_TO_THE_32 - 5 == length - 1;
      assert Encode(Some(m)) == Some(PutUint32(length - 1 + 1) + [m.id] + m.payload[..length - 1]);
    }
  }

  lemma Reassociate(a: seq<u8>, b: seq<u8>, c: seq<u8>, d: seq<u8>)
    ensures a + b + c + d == a + (b + c + d)
  {
  }

  lemma FramableReadsBack(m: Message, rest: seq<u8>)
    requires Framable(Some(m))
    ensures Encode(Some(m)).Some?
    ensures Decode(Encode(Some(m)).value + rest) == Ok(Decoded(Some(m), rest))
  {
    EncodeCases(m);
    DecodePrefixed(m, rest);
    Reassociate(PutUint32(|m.payload| + 1), [m.id], m.payload, rest);
  }

  lemma UnframableIsCut(m: Message, rest: seq<u8>)
    requires !Framable(Some(m)) && Encode(Some(m)).Some?
    ensures var r := Decode(Encode(Some(m)).value + rest);
            r.Ok? && r.value.frame.Some? && |r.value.frame.value.payload| < |m.payload|
  {
    EncodeCases(m);
    var cut: nat :| cut < |m.payload| && cut + 1 < TWO_TO_THE_32
      && Encode(Some(m)) == Some(PutUint32(cut + 1) + [m.id] + m.payload[..cut]);
    var m' := Message(m.id, m.payload[..cut]);
    DecodePrefixed(m', rest);
    Reassociate(PutUint32(cut + 1), [m.id], m'.payload, rest);
  }

  /** A serialized message reads back as itself, leaving what follows it, exactly when its
      payload is at most 2^32 - 6 bytes. */
  lemma FrameRoundTrip(f: Frame, rest: seq<u8>)
    ensures Framable(f)
       <==> Encode(f).Some? && Decode(Encode(f).value + rest) == Ok(Decoded(f, rest))
  {
    if f.None? {
      assert ([0, 0, 0, 0] + rest)[4..] == rest;
    } else if Framable(f) {
      FramableReadsBack(f.value, rest);
    } else if Encode(f).Some? {
      UnframableIsCut(f.value, rest);
    }
  }

  lemma DecodeParts(s: seq<u8>)
    requires Decode(s).Ok? && Decode(s).value.frame.Some?
    ensures var Decoded(f, rest) := Decode(s).value;
            && |f.value.payload| + 1 < TWO_TO_THE_32
            && s == PutUint32(|f.value.payload| + 1) + [f.value.id] + f.value.payload + rest
  {
    Uint32RoundTripBytes(s[..4]);
    var length := GetUint32(s);
    assert s[..4] == PutUint32(length);
    assert s == s[..4] + [s[4]] + s[5..4 + length] + s[4 + length..];
  }

  /** Whenever a read succeeds, serializing its result in front of what is left gives the stream
      back, exactly when the payload read is at most 2^32 - 6 bytes. */
  lemma ReadThenSerialize(s: seq<u8>)
    requires Decode(s).Ok?
    ensures var d := Decode(s).value;
            Framable(d.frame) <==> Encode(d.frame).Some? && Encode(d.frame).value + d.rest == s
  {
    var d := Decode(s).value;
    if d.frame.None? {
      assert s[..4] == [0, 0, 0, 0] by {
        Uint32RoundTripBytes(s[..4]);
      }
      assert s == s[..4] + s[4..];
    } else {
      DecodeParts(s);
      EncodeCases(d.frame.value);
    }
  }

  // Whole streams

  predicate AllFramable(fs: seq<Frame>) {
    forall i :: 0 <= i < |fs| ==> Framable(fs[i])
  }

  ghost function EncodeAll(fs: seq<Frame>): seq<u8>
    requires AllFramable(fs)
    decreases |fs|
  {
    if fs == [] then []
    else
      FrameRoundTrip(fs[0], []);
      Encode(fs[0]).value + EncodeAll(fs[1..])
  }

  lemma EncodeAllOne(f: Frame)
    requires Framable(f)
    ensures Encode(f).Some? && EncodeAll([f]) == Encode(f).value
  {
    FrameRoundTrip(f, []);
    assert [f][1..] == [];
    assert EncodeAll([f]) == Encode(f).value + EncodeAll([]);
  }

  lemma {:induction false} EncodeAllAppend(fs: seq<Frame>, gs: seq<Frame>)
    requires AllFramable(fs) && AllFramable(gs)
    ensures AllFramable(fs + gs) && EncodeAll(fs + gs) == EncodeAll(fs) + EncodeAll(gs)
    decreases |fs|
  {
    hide Encode;
    if fs == [] {
      assert fs + gs == gs;
    } else {
      EncodeAllAppend(fs[1..], gs);
      assert (fs + gs)[1..] == fs[1..] + gs;
    }
  }

  /** Reading until a read fails: the frames read and the bytes the failing read found. */
  ghost function DecodeAll(s: seq<u8>): (seq<Frame>, seq<u8>)
    decreases |s|
  {
    match Decode(s)
    case Err(_) => ([], s)
    case Ok(d) =>
      var (fs, left) := DecodeAll(d.rest);
      ([d.frame] + fs, left)
  }

  /** Repeated reads over concatenated serializations return exactly the list. */
  lemma {:induction false} StreamRoundTrip(fs: seq<Frame>)
    requires AllFramable(fs)
    ensures DecodeAll(EncodeAll(fs)) == (fs, [])
    decreases |fs|
  {
    hide Encode;
    hide Decode;
    if fs != [] {
      FrameRoundTrip(fs[0], EncodeAll(fs[1..]));
      StreamRoundTrip(fs[1..]);
      assert fs == [fs[0]] + fs[1..];
    }
  }

  lemma OneMoreRead(f: Frame, rest: seq<u8>, fs: seq<Frame>, left: seq<u8>)
    requires AllFramable(fs) && AllFramable([f] + fs) && Encode(f).Some?
    requires EncodeAll(fs) + left == rest
    ensures EncodeAll([f] + fs) + left == Encode(f).value + rest
  {
    hide Encode;
    assert ([f] + fs)[0] == f && ([f] + fs)[1..] == fs;
    assert Encode(f).value + EncodeAll(fs) + left == Encode(f).value + (EncodeAll(fs) + left);
  }

  /** Conversely, any stream is the serialization of the frames read from it, followed by the
      bytes that could not be read. */
  lemma {:induction false} StreamIsWhatWasRead(s: seq<u8>)
    requires AllFramable(DecodeAll(s).0)
    ensures EncodeAll(DecodeAll(s).0) + DecodeAll(s).1 == s
    decreases |s|
  {
    hide Encode;
    hide Decode;
    if Decode(s).Err? {
      assert EncodeAll([]) + s == s;
    } else {
      var d := Decode(s).value;
      var (fs, left) := DecodeAll(d.rest);
      assert forall i | 0 <= i < |fs| :: fs[i] == ([d.frame] + fs)[i + 1];
      assert ([d.frame] + fs)[0] == d.frame;
      StreamIsWhatWasRead(d.rest);
      ReadThenSerialize(s);
      OneMoreRead(d.frame, d.rest, fs, left);
    }
  }

  // Payloads

  function FormatRequest(index: int, begin: int, length: int): Message {
    Message(MSG_REQUEST, PutUint32(index) + PutUint32(begin) + PutUint32(length))
  }

  function ParseRequest(m: Message): Result<(int, int, int)> {
    if m.id != MSG_REQUEST then Err(WrongId)
    else if |m.payload| < 12 then Err(BadPayloadLength)
    else Ok((GetUint32(m.payload[0..4]), GetUint32(m.payload[4..8]), GetUint32(m.payload[8..12])))
  }

  function FormatHave(index: int): Message {
    Message(MSG_HAVE, PutUint32(index))
  }

  function ParseHave(m: Message): Result<int> {
    if m.id != MSG_HAVE then Err(WrongId)
    else if |m.payload| != 4 then Err(BadPayloadLength)
    else Ok(GetUint32(m.payload))
  }

  function FormatPort(dhtPort: int): Message {
    Message(MSG_PORT, PutUint16(dhtPort))
  }

  function ParsePort(m: Message): Result<int> {
    if m.id != MSG_PORT then Err(WrongId)
    else if |m.payload| != 2 then Err(BadPayloadLength)
    else Ok(GetUint16(m.payload))
  }

  /** The piece message of server/server.go: index and begin as uint32, then the data. */
  function FormatPiece(index: int, begin: int, data: seq<u8>): Message {
    Message(MSG_PIECE, PutUint32(index) + PutUint32(begin) + data)
  }

  datatype Parsed = Parsed(n: nat, buf: seq<u8>)

  /** What ParsePiece returns, with the buffer it leaves behind. */
  function PieceInto(index: int, buf: seq<u8>, m: Message): (r: Result<Parsed>)
    ensures r.Ok? ==> |r.value.buf| == |buf| && r.value.n <= |buf|
  {
    if m.id != MSG_PIECE then Err(WrongId)
    else if |m.payload| < 8 then Err(BadPayloadLength)
    else if GetUint32(m.payload[0..4]) != index then Err(WrongIndex)
    else
      var begin := GetUint32(m.payload[4..8]);
      var data := m.payload[8..];
      if begin >= |buf| then Err(OffsetTooHigh)
      else if begin + |data| > |buf| then Err(DataTooLong)
      else Ok(Parsed(|data|, Paste(buf, begin, data)))
  }

  /** ParsePiece writes into the caller's buffer, and only when it succeeds. */
  method ParsePiece(index: int, buf: array<u8>, m: Message) returns (r: Result<nat>)
    modifies buf
    ensures match PieceInto(index, old(buf[..]), m)
            case Ok(p) => r == Ok(p.n) && buf[..] == p.buf
            case Err(e) => r == Err(e) && buf[..] == old(buf[..])
  {
    if m.id != MSG_PIECE {
      return Err(WrongId);
    }
    if |m.payload| < 8 {
      return Err(BadPayloadLength);
    }
    if GetUint32(m.payload[0..4]) != index {
      return Err(WrongIndex);
    }
    var begin := GetUint32(m.payload[4..8]);
    if begin >= buf.Length {
      return Err(OffsetTooHigh);
    }
    var data := m.payload[8..];
    if begin + |data| > buf.Length {
      return Err(DataTooLong);
    }
    var n := CopyInto(buf, begin, data);
    r := Ok(n);
  }

  /** A request survives format and parse exactly when its three numbers fit in 32 bits. */
  lemma RequestRoundTrip(index: int, begin: int, length: int)
    ensures ParseRequest(FormatRequest(index, begin, length)) == Ok((index, begin, length))
       <==> 0 <= index < TWO_TO_THE_32 && 0 <= begin < TWO_TO_THE_32 && 0 <= length < TWO_TO_THE_32
  {
    RequestFields(index, begin, length);
    Uint32RoundTrip(index);
    Uint32RoundTrip(begin);
    Uint32RoundTrip(length);
  }

  lemma RequestFields(index: int, begin: int, length: int)
    ensures var p := FormatRequest(index, begin, length).payload;
            p[0..4] == PutUint32(index) && p[4..8] == PutUint32(begin) && p[8..12] == PutUint32(length)
  {
    SplitAt4(PutUint32(index), PutUint32(begin), PutUint32(length));
  }

  lemma SplitAt4(a: seq<u8>, b: seq<u8>, c: seq<u8>)
    requires |a| == |b| == 4
    ensures (a + b + c)[0..4] == a && (a + b + c)[4..8] == b && (a + b + c)[8..] == c
    ensures |c| == 4 ==> (a + b + c)[8..12] == c
  {
  }

  lemma HaveRoundTrip(index: int)
    ensures ParseHave(FormatHave(index)) == Ok(index) <==> 0 <= index < TWO_TO_THE_32
  {
    Uint32RoundTrip(index);
  }

  lemma PortRoundTrip(dhtPort: int)
    requires 0 <= dhtPort < TWO_TO_THE_16
    ensures ParsePort(FormatPort(dhtPort)) == Ok(dhtPort)
  {
    Uint16RoundTrip(dhtPort);
  }

  /** A piece message that fits is written at its own offset and nowhere else. */
  lemma PieceRoundTrip(index: int, begin: nat, data: seq<u8>, buf: seq<u8>)
    requires 0 <= index < TWO_TO_THE_32 && begin < TWO_TO_THE_32
    requires begin < |buf| && begin + |data| <= |buf|
    ensures PieceInto(index, buf, FormatPiece(index, begin, data)) == Ok(Parsed(|data|, Paste(buf, begin, data)))
  {
    PieceFields(index, begin, data);
  }

  lemma PieceFields(index: int, begin: int, data: seq<u8>)
    requires 0 <= index < TWO_TO_THE_32 && 0 <= begin < TWO_TO_THE_32
    ensures var p := FormatPiece(index, begin, data).payload;
            GetUint32(p[0..4]) == index && GetUint32(p[4..8]) == begin && p[8..] == data
  {
    SplitAt4(PutUint32(index), PutUint32(begin), data);
    Uint32RoundTrip(index);
    Uint32RoundTrip(begin);
  }
}
