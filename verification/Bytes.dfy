/** Bytes, big-endian integers and byte-stream connections: what the wire code of
    every other module rests on. */
module Bytes {

  type u8 = n: int | 0 <= n < 256

  const TWO_TO_THE_16: int := 0x1_0000
  const TWO_TO_THE_32: int := 0x1_0000_0000

  datatype Option<+T> = None | Some(value: T)

  /** Why an operation of the program returned an error, or stopped the program. */
  datatype Error =
    | ShortStream      // the stream ended before the bytes asked for
    | ZeroPstrLen      // handshake with an empty protocol string
    | WrongInfoHash
    | WrongId
    | BadPayloadLength
    | WrongIndex
    | OffsetTooHigh
    | DataTooLong
    | Panicked         // a run-time panic: index or slice bounds out of range

  datatype Result<+T> = Ok(value: T) | Err(error: Error)

  function Min(a: int, b: int): int {
    if a < b then a else b
  }

  /** Go's conversion byte(n). */
  function ToByte(n: int): (b: u8)
    ensures b == n % 256
  {
    n % 256
  }

  /** binary.BigEndian.PutUint32 of uint32(n): the conversion wraps around. */
  function PutUint32(n: int): (s: seq<u8>)
    ensures |s| == 4
  {
    var m := n % TWO_TO_THE_32;
    [ToByte(m / 256 / 256 / 256), ToByte(m / 256 / 256), ToByte(m / 256), ToByte(m)]
  }

  function GetUint32(s: seq<u8>): (n: int)
    requires |s| >= 4
    ensures 0 <= n < TWO_TO_THE_32
  {
    Join32(s[0], s[1], s[2], s[3])
  }

  /** binary.BigEndian.PutUint16 of a uint16. */
  function PutUint16(n: int): (s: seq<u8>)
    ensures |s| == 2
  {
    [ToByte(n / 0x100), ToByte(n)]
  }

  function GetUint16(s: seq<u8>): (n: int)
    requires |s| >= 2
    ensures 0 <= n < TWO_TO_THE_16
  {
    var high: int, low: int := s[0], s[1];
    high * 0x100 + low
  }

  function Join32(a: int, b: int, c: int, d: int): int {
    ((a * 256 + b) * 256 + c) * 256 + d
  }

  lemma SplitJoin32(m: int)
    requires 0 <= m < TWO_TO_THE_32
    ensures Join32(m / 256 / 256 / 256 % 256, m / 256 / 256 % 256, m / 256 % 256, m % 256) == m
  {
    var m1 := m / 256;
    var m2 := m1 / 256;
    assert m == m1 * 256 + m % 256;
    assert m1 == m2 * 256 + m1 % 256;
    assert m2 == m2 / 256 * 256 + m2 % 256;
  }

  lemma LastDigit(q: int, d: int)
    requires 0 <= d < 256
    ensures (q * 256 + d) / 256 == q && (q * 256 + d) % 256 == d
  {
  }

  lemma JoinSplit32(a: int, b: int, c: int, d: int)
    requires 0 <= a < 256 && 0 <= b < 256 && 0 <= c < 256 && 0 <= d < 256
    ensures var m := Join32(a, b, c, d);
            m / 256 / 256 / 256 == a && m / 256 / 256 % 256 == b && m / 256 % 256 == c && m % 256 == d
              && 0 <= m < TWO_TO_THE_32
  {
    LastDigit((a * 256 + b) * 256 + c, d);
    LastDigit(a * 256 + b, c);
    LastDigit(a, b);
  }

  /** Big-endian, written out: the first byte weighs most. */
  lemma Uint32Layout(n: int)
    requires 0 <= n < TWO_TO_THE_32
    ensures PutUint32(n) == [n / 16777216, n / 65536 % 256, n / 256 % 256, n % 256]
  {
    assert n % TWO_TO_THE_32 == n;
    assert n / 256 / 256 == n / 65536 && n / 256 / 256 / 256 == n / 16777216;
  }

  /** The four bytes at a position as a number, written out. */
  function Number(s: seq<u8>, at: nat): int
    requires at + 4 <= |s|
  {
    var a: int, b: int, c: int, d: int := s[at], s[at + 1], s[at + 2], s[at + 3];
    16777216 * a + 65536 * b + 256 * c + d
  }

  lemma Uint32Value(s: seq<u8>, at: nat)
    requires at + 4 <= |s|
    ensures GetUint32(s[at..at + 4]) == Number(s, at)
    ensures at == 0 ==> GetUint32(s) == Number(s, 0)
  {
  }

  lemma Uint16Layout(n: int)
    requires 0 <= n < TWO_TO_THE_16
    ensures PutUint16(n) == [n / 256, n % 256]
  {
    assert n / 256 % 256 == n / 256;
  }

  /** Writing then reading a uint32 keeps the value modulo 2^32. */
  lemma Uint32RoundTrip(n: int)
    ensures GetUint32(PutUint32(n)) == n % TWO_TO_THE_32
  {
    SplitJoin32(n % TWO_TO_THE_32);
  }

  /** The same, on a longer stream. */
  lemma Uint32Prefix(n: nat, tail: seq<u8>)
    requires n < TWO_TO_THE_32
    ensures GetUint32(PutUint32(n) + tail) == n
  {
    Uint32RoundTrip(n);
  }

  lemma PutJoined(a: u8, b: u8, c: u8, d: u8)
    ensures PutUint32(Join32(a, b, c, d)) == [a, b, c, d]
  {
    JoinSplit32(a, b, c, d);
    var m := Join32(a, b, c, d);
    assert m % TWO_TO_THE_32 == m;
  }

  /** Reading then writing a uint32 gives the same four bytes back. */
  lemma Uint32RoundTripBytes(s: seq<u8>)
    requires |s| == 4
    ensures PutUint32(GetUint32(s)) == s
  {
    PutJoined(s[0], s[1], s[2], s[3]);
    assert s == [s[0], s[1], s[2], s[3]];
  }

  lemma Uint16RoundTrip(n: int)
    requires 0 <= n < TWO_TO_THE_16
    ensures GetUint16(PutUint16(n)) == n
  {
    assert n / 0x100 % 256 == n / 0x100;
  }

  /** buf with data copied in at begin. */
  function Paste(buf: seq<u8>, begin: nat, data: seq<u8>): (r: seq<u8>)
    requires begin + |data| <= |buf|
    ensures |r| == |buf|
  {
    buf[..begin] + data + buf[begin + |data|..]
  }

  /** copy(buf[begin:], data), where the data fits: the number of bytes copied. */
  method CopyInto(buf: array<u8>, begin: nat, data: seq<u8>) returns (n: nat)
    requires begin + |data| <= buf.Length
    modifies buf
    ensures n == |data| && buf[..] == Paste(old(buf[..]), begin, data)
  {
    forall i | 0 <= i < |data| {
      buf[begin + i] := data[i];
    }
    n := |data|;
    assert buf[..] == Paste(old(buf[..]), begin, data);
  }

  /** One end of a connection: the bytes still to arrive and the bytes written so far.
      Writing never fails here. */
  class Connection {
    var incoming: seq<u8>
    var outgoing: seq<u8>

    constructor (incoming: seq<u8>)
      ensures this.incoming == incoming && outgoing == []
    {
      this.incoming := incoming;
      outgoing := [];
    }

    /** io.ReadFull: all n bytes, or an error after consuming what was left. */
    method ReadFull(n: nat) returns (r: Result<seq<u8>>)
      modifies this`incoming
      ensures n <= |old(incoming)| ==> r == Ok(old(incoming)[..n]) && incoming == old(incoming)[n..]
      ensures n > |old(incoming)| ==> r == Err(ShortStream) && incoming == []
    {
      if n <= |incoming| {
        r := Ok(incoming[..n]);
        incoming := incoming[n..];
      } else {
        r := Err(ShortStream);
        incoming := [];
      }
    }

    method Write(bytes: seq<u8>)
      modifies this`outgoing
      ensures outgoing == old(outgoing) + bytes
    {
      outgoing := outgoing + bytes;
    }
  }
}
