/** The messages on the wire, byte by byte, and what every parser makes of any payload (BEP 3, "peer
    messages"; BEP 5, "BitTorrent Protocol Extension"). */
module WireFormat {
  import opened Bytes
  import opened Message
  import opened Attempt
  import Pipeline

  /** A number below 2^32 as four bytes, the most significant first. */
  function Digits(n: nat): (d: seq<u8>)
    requires n < TWO_TO_THE_32
    ensures |d| == 4
  {
    [n / 16777216, n / 65536 % 256, n / 256 % 256, n % 256]
  }

  /** A keep-alive is four zeros; any other message is its length, its id and its payload. */
  lemma FrameLayout(m: Message)
    requires Framable(Some(m))
    ensures Encode(None) == Some([0, 0, 0, 0])
    ensures Encode(Some(m)) == Some(Digits(|m.payload| + 1) + [m.id] + m.payload)
  {
    EncodeCases(m);
    Uint32Layout(|m.payload| + 1);
  }

  /** Above that the sizes wrap around at 2^32: there is a panic where the buffer has no room for length
      and id, and elsewhere the message is cut to what is left of its size. */
  lemma SizesWrap(m: Message)
    ensures Encode(Some(m)).None? <==> (|m.payload| + 5) % 4294967296 < 5
    ensures Encode(Some(m)).Some? ==>
              var cut := (|m.payload| + 1) % 4294967296;
              Encode(Some(m)) == Some(Digits(cut) + [m.id] + m.payload[..cut - 1])
  {
    var cut := (|m.payload| + 1) % 4294967296;
    Wrapped(|m.payload|);
    Uint32Layout(cut);
    hide PutUint32;
  }

  lemma Wrapped(n: nat)
    ensures (4 + (n + 1) % 4294967296) % 4294967296 == (n + 5) % 4294967296
    ensures (n + 5) % 4294967296 >= 5 ==> (n + 5) % 4294967296 == 4 + (n + 1) % 4294967296
  {
    var q := (n + 1) / 4294967296;
    assert n + 1 == q * 4294967296 + (n + 1) % 4294967296;
    if 4 + (n + 1) % 4294967296 >= 4294967296 {
      ModuloUnique(n + 5, q + 1, (n + 1) % 4294967296 - 4294967292);
    } else {
      ModuloUnique(n + 5, q, 4 + (n + 1) % 4294967296);
    }
  }

  lemma ModuloUnique(n: int, q: int, r: int)
    requires n == q * 4294967296 + r && 0 <= r < 4294967296
    ensures n % 4294967296 == r
  {
  }

  /** A read fails only for want of bytes: those of the length, or as many as the length says. */
  lemma ReadFailsIff(s: seq<u8>)
    ensures Decode(s).Err? <==> |s| < 4 || |s| < 4 + Number(s, 0)
    ensures Decode(s).Err? ==> Decode(s).error == ShortStream
  {
    if |s| >= 4 {
      Uint32Value(s, 0);
    }
  }

  /** Choke, unchoke, interested and not interested are their ids 0 to 3 and nothing more. */
  lemma ShortLayout()
    ensures Encode(Some(Message(MSG_CHOKE, []))) == Some([0, 0, 0, 1, 0])
    ensures Encode(Some(Message(MSG_UNCHOKE, []))) == Some([0, 0, 0, 1, 1])
    ensures Encode(Some(Message(MSG_INTERESTED, []))) == Some([0, 0, 0, 1, 2])
    ensures Encode(Some(Message(MSG_NOT_INTERESTED, []))) == Some([0, 0, 0, 1, 3])
  {
    forall id: u8 | id < 4 ensures Encode(Some(Message(id, []))) == Some([0, 0, 0, 1, id]) {
      ShortMessage(id, []);
    }
  }

  lemma RequestLayout(index: nat, begin: nat, length: nat)
    requires index < TWO_TO_THE_32 && begin < TWO_TO_THE_32 && length < TWO_TO_THE_32
    ensures Encode(RequestFrame(index, Pipeline.Request(begin, length)))
         == Some([0, 0, 0, 13, 6] + Digits(index) + Digits(begin) + Digits(length))
  {
    var m := FormatRequest(index, begin, length);
    FrameLayout(m);
    Uint32Layout(index);
    Uint32Layout(begin);
    Uint32Layout(length);
    hide Encode;
    hide PutUint32;
    assert Digits(13) == [0, 0, 0, 13];
    hide Digits;
    assert Digits(13) + [6] + m.payload == [0, 0, 0, 13, 6] + Digits(index) + Digits(begin) + Digits(length);
  }

  /** The have message sent for a piece names that piece. */
  lemma HaveLayout(index: nat)
    requires index < TWO_TO_THE_32
    ensures HaveBytes(index) == [0, 0, 0, 5, 4] + Digits(index)
  {
    FrameLayout(FormatHave(index));
    Uint32Layout(index);
    hide Encode;
    hide PutUint32;
    assert Digits(5) == [0, 0, 0, 5];
    hide Digits;
    assert Digits(5) + [4] + Digits(index) == [0, 0, 0, 5, 4] + Digits(index);
  }

  lemma PortLayout(port: nat)
    requires port < TWO_TO_THE_16
    ensures Encode(Some(FormatPort(port))) == Some([0, 0, 0, 3, 9, port / 256, port % 256])
  {
    FrameLayout(FormatPort(port));
    Uint16Layout(port);
    hide Encode;
    assert Digits(3) == [0, 0, 0, 3];
    assert Digits(3) + [9] + [port / 256, port % 256] == [0, 0, 0, 3, 9, port / 256, port % 256];
  }

  lemma PieceLayout(index: nat, begin: nat, data: seq<u8>)
    requires index < TWO_TO_THE_32 && begin < TWO_TO_THE_32
    ensures FormatPiece(index, begin, data) == Message(7, Digits(index) + Digits(begin) + data)
  {
    Uint32Layout(index);
    Uint32Layout(begin);
  }

  /** A parser checks the id, then the size, and reads numbers from fixed places: a request may be longer
      than its three numbers, a have or a port message is exactly its own. */
  lemma WhatParsersRead(m: Message)
    ensures ParseRequest(m)
         == if m.id != 6 then Err(WrongId)
            else if |m.payload| < 12 then Err(BadPayloadLength)
            else Ok((Number(m.payload, 0), Number(m.payload, 4), Number(m.payload, 8)))
    ensures ParseHave(m)
         == if m.id != 4 then Err(WrongId)
            else if |m.payload| != 4 then Err(BadPayloadLength)
            else Ok(Number(m.payload, 0))
    ensures ParsePort(m)
         == if m.id != 9 then Err(WrongId)
            else if |m.payload| != 2 then Err(BadPayloadLength)
            else var high: int, low: int := m.payload[0], m.payload[1]; Ok(256 * high + low)
  {
    if |m.payload| >= 4 {
      Uint32Value(m.payload, 0);
    }
    if |m.payload| >= 12 {
      Uint32Value(m.payload, 4);
      Uint32Value(m.payload, 8);
    }
  }

  /** A piece message is refused for the first of five reasons that holds; otherwise its data go where it
      says in the buffer, and only there. */
  lemma WhatPieceMessagesWrite(index: int, buf: seq<u8>, m: Message)
    ensures var r, n := PieceInto(index, buf, m), |m.payload| - 8;
            if m.id != 7 then r == Err(WrongId)
            else if n < 0 then r == Err(BadPayloadLength)
            else if Number(m.payload, 0) != index then r == Err(WrongIndex)
            else if Number(m.payload, 4) >= |buf| then r == Err(OffsetTooHigh)
            else if Number(m.payload, 4) + n > |buf| then r == Err(DataTooLong)
            else
              var begin := Number(m.payload, 4);
              && r.Ok? && r.value.n == n && |r.value.buf| == |buf|
              && forall x :: 0 <= x < |buf| ==>
                   r.value.buf[x] == if begin <= x < begin + n then m.payload[8 + x - begin] else buf[x]
  {
    if |m.payload| >= 8 {
      Uint32Value(m.payload, 0);
      Uint32Value(m.payload, 4);
    }
  }
}
