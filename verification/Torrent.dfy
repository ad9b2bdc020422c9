/** The torrent's geometry: how pieces cut up the file (p2p/p2p.go, calculateBoundsForPiece). */
module Torrent {
  import opened Bytes

  /** A file of the given length, cut into pieces, with one hash a piece. */
  datatype Torrent = Torrent(pieceLength: nat, length: nat, hashes: seq<seq<u8>>)

  /** As many hashes as pieces are needed, and all numbers fit in 32 bits. The program relies on
      this without checking it. */
  predicate WellFormed(t: Torrent) {
    && 0 < t.pieceLength < TWO_TO_THE_32
    && t.length < TWO_TO_THE_32
    && t.length <= Begin(t, |t.hashes|) < t.length + t.pieceLength
  }

  function Begin(t: Torrent, index: int): int {
    index * t.pieceLength
  }

  function End(t: Torrent, index: int): int {
    Min(Begin(t, index) + t.pieceLength, t.length)
  }

  function PieceSize(t: Torrent, index: int): int {
    End(t, index) - Begin(t, index)
  }

  lemma NextBegin(t: Torrent, index: int)
    ensures Begin(t, index + 1) == Begin(t, index) + t.pieceLength
  {
  }

  lemma BeginMonotone(t: Torrent, i: int, j: int)
    requires i <= j
    ensures Begin(t, i) <= Begin(t, j)
  {
  }

  lemma IndexBelowBegin(t: Torrent, index: nat)
    requires t.pieceLength > 0
    ensures index <= Begin(t, index)
    decreases index
  {
    if index > 0 {
      IndexBelowBegin(t, index - 1);
      NextBegin(t, index - 1);
    }
  }

  lemma PieceStarts(t: Torrent, index: int)
    requires WellFormed(t) && 0 <= index < |t.hashes|
    ensures 0 <= Begin(t, index) < t.length
    ensures index < |t.hashes| - 1 ==> Begin(t, index) + t.pieceLength < t.length
  {
    BeginMonotone(t, 0, index);
    NextBegin(t, index);
    BeginMonotone(t, index + 1, |t.hashes|);
    if index < |t.hashes| - 1 {
      NextBegin(t, index + 1);
      BeginMonotone(t, index + 2, |t.hashes|);
    }
  }

  /** Every piece lies inside the file and is not empty; only the last may be short. */
  lemma PieceInFile(t: Torrent, index: int)
    requires WellFormed(t) && 0 <= index < |t.hashes|
    ensures 0 <= Begin(t, index) < End(t, index) <= t.length
    ensures index < |t.hashes| - 1 ==> PieceSize(t, index) == t.pieceLength
    ensures index < TWO_TO_THE_32
  {
    PieceStarts(t, index);
    IndexBelowBegin(t, index);
  }

  /** Earlier pieces end before later ones begin. */
  lemma PiecesInOrder(t: Torrent, i: int, j: int)
    requires WellFormed(t) && 0 <= i < j < |t.hashes|
    ensures End(t, i) <= Begin(t, j)
  {
    NextBegin(t, i);
    BeginMonotone(t, i + 1, j);
  }

  /** Every byte of the file is in one piece. */
  lemma PieceOfByte(t: Torrent, x: int) returns (index: int)
    requires WellFormed(t) && 0 <= x < t.length
    ensures 0 <= index < |t.hashes| && Begin(t, index) <= x < End(t, index)
  {
    index := 0;
    while Begin(t, index) + t.pieceLength <= x
      invariant 0 <= index < |t.hashes| && Begin(t, index) <= x
      decreases x - Begin(t, index)
    {
      NextBegin(t, index);
      if index + 1 >= |t.hashes| {
        BeginMonotone(t, |t.hashes|, index + 1);
      }
      index := index + 1;
    }
  }

  /** The bytes of a piece. */
  function PieceContent(t: Torrent, content: seq<u8>, index: int): (piece: seq<u8>)
    requires WellFormed(t) && |content| == t.length && 0 <= index < |t.hashes|
    ensures |piece| == PieceSize(t, index) > 0
  {
    PieceInFile(t, index);
    content[Begin(t, index)..End(t, index)]
  }

  /** The hash function is left uninterpreted. */
  type Hash = seq<u8> -> seq<u8>

  /** checkIntegrity. */
  predicate HashOk(t: Torrent, sha1: Hash, index: nat, data: seq<u8>) {
    index < |t.hashes| && sha1(data) == t.hashes[index]
  }
}
