/** bitfield/bitfield.go: a byte slice read as a set of piece indices. */
module Bitfield {
  import opened Bytes

  /** Go's integer division and remainder, which truncate toward zero. */
  function TruncDiv(a: int, b: int): int
    requires b > 0
  {
    if a >= 0 then a / b else -((-a) / b)
  }

  function TruncMod(a: int, b: int): int
    requires b > 0
  {
    a - b * TruncDiv(a, b)
  }

  /** Go's shifts on a byte: a shift by eight or more leaves nothing. */
  function ShiftRight(b: bv8, k: nat): bv8 {
    if k >= 8 then 0 else b >> k
  }

  function OneShiftedLeft(k: nat): bv8 {
    if k >= 8 then 0 else 1 << k
  }

  predicate BitOf(b: bv8, k: nat) {
    ShiftRight(b, k) & 1 != 0
  }

  predicate Bit(b: u8, k: nat) {
    BitOf(b as bv8, k)
  }

  /** b | 1 << k on eight bits. */
  function WithBit(b: u8, k: nat): u8 {
    ((b as bv8) | OneShiftedLeft(k)) as int
  }

  predicate HasPiece(bf: seq<u8>, index: int) {
    var byteIndex := TruncDiv(index, 8);
    var offset := TruncMod(index, 8);
    0 <= byteIndex < |bf| && Bit(bf[byteIndex], 7 - offset)
  }

  function WithPiece(bf: seq<u8>, index: int): (r: seq<u8>)
    ensures |r| == |bf|
  {
    var byteIndex := TruncDiv(index, 8);
    var offset := TruncMod(index, 8);
    if byteIndex < 0 || byteIndex >= |bf| then bf
    else bf[byteIndex := WithBit(bf[byteIndex], 7 - offset)]
  }

  /** SetPiece writes through the slice it is given. */
  method SetPiece(bf: array<u8>, index: int)
    modifies bf
    ensures bf[..] == WithPiece(old(bf[..]), index)
  {
    var byteIndex := TruncDiv(index, 8);
    var offset := TruncMod(index, 8);
    if byteIndex < 0 || byteIndex >= bf.Length {
      return;
    }
    bf[byteIndex] := WithBit(bf[byteIndex], 7 - offset);
  }

  // The set a bitfield stands for

  predicate InRange(bf: seq<u8>, index: int) {
    0 <= index < 8 * |bf|
  }

  ghost function Members(bf: seq<u8>): set<int> {
    set i: int | 0 <= i < 8 * |bf| && HasPiece(bf, i)
  }

  ghost function InsertAll(bf: seq<u8>, indices: seq<int>): (r: seq<u8>)
    ensures |r| == |bf|
    decreases |indices|
  {
    if indices == [] then bf else InsertAll(WithPiece(bf, indices[0]), indices[1..])
  }

  lemma OrOfBits(b: bv8, s: nat, t: nat)
    requires t < 8
    ensures BitOf(b | OneShiftedLeft(s), t) <==> BitOf(b, t) || s == t
  {
  }

  lemma BackToBits(b: bv8)
    ensures (b as int) as bv8 == b
  {
  }

  lemma BitAfterSet(b: u8, s: nat, t: nat)
    requires t < 8
    ensures Bit(WithBit(b, s), t) <==> Bit(b, t) || s == t
  {
    OrOfBits(b as bv8, s, t);
    BackToBits((b as bv8) | OneShiftedLeft(s));
  }

  /** Only the indices 0 .. 8n-1 can be members, however the query is made: a negative index
      between -7 and -1 reaches byte zero, but its shift leaves nothing. */
  lemma HasPieceOnlyInRange(bf: seq<u8>, index: int)
    requires HasPiece(bf, index)
    ensures InRange(bf, index)
  {
  }

  /** One update adds exactly its own index, when that is in range, and nothing else. */
  lemma HasPieceAfterSet(bf: seq<u8>, index: int, query: int)
    ensures HasPiece(WithPiece(bf, index), query)
       <==> HasPiece(bf, query) || (query == index && InRange(bf, index))
  {
    if HasPiece(WithPiece(bf, index), query) {
      HasPieceOnlyInRange(WithPiece(bf, index), query);
    }
    if HasPiece(bf, query) {
      HasPieceOnlyInRange(bf, query);
    }
    var byteIndex, offset := TruncDiv(index, 8), TruncMod(index, 8);
    if InRange(bf, query) && 0 <= byteIndex < |bf| {
      BitAfterSet(bf[byteIndex], 7 - offset, 7 - TruncMod(query, 8));
    }
  }

  /** Over any run of updates with any integers, membership is the union of what was there
      and the in-range indices set. */
  lemma {:induction false} RunRefinesSet(bf: seq<u8>, indices: seq<int>)
    ensures Members(InsertAll(bf, indices)) == Members(bf) + (set i | i in indices && InRange(bf, i))
    decreases |indices|
  {
    if indices != [] {
      var bf' := WithPiece(bf, indices[0]);
      RunRefinesSet(bf', indices[1..]);
      forall q ensures HasPiece(bf', q) <==> HasPiece(bf, q) || (q == indices[0] && InRange(bf, q)) {
        HasPieceAfterSet(bf, indices[0], q);
      }
    }
  }

  lemma SameBits(x: bv8, y: bv8)
    requires BitOf(x, 0) == BitOf(y, 0) && BitOf(x, 1) == BitOf(y, 1) && BitOf(x, 2) == BitOf(y, 2)
    requires BitOf(x, 3) == BitOf(y, 3) && BitOf(x, 4) == BitOf(y, 4) && BitOf(x, 5) == BitOf(y, 5)
    requires BitOf(x, 6) == BitOf(y, 6) && BitOf(x, 7) == BitOf(y, 7)
    ensures x == y
  {
  }

  lemma BitsOfByte(b: u8) returns (x: bv8)
    ensures x as int == b
  {
    if b == 0 {
      x := 0;
    } else {
      x := BitsOfByte(b - 1);
      x := x + 1;
    }
  }

  lemma BackToByte(b: u8)
    ensures (b as bv8) as int == b
  {
    var x := BitsOfByte(b);
    BackToBits(x);
  }

  lemma ByteFromBits(a: u8, b: u8)
    requires forall k: nat :: k < 8 ==> (Bit(a, k) <==> Bit(b, k))
    ensures a == b
  {
    assert Bit(a, 0) == Bit(b, 0) && Bit(a, 1) == Bit(b, 1) && Bit(a, 2) == Bit(b, 2) && Bit(a, 3) == Bit(b, 3);
    assert Bit(a, 4) == Bit(b, 4) && Bit(a, 5) == Bit(b, 5) && Bit(a, 6) == Bit(b, 6) && Bit(a, 7) == Bit(b, 7);
    SameBits(a as bv8, b as bv8);
    BackToByte(a);
    BackToByte(b);
  }

  /** The set determines the bytes: an update that leaves the set alone leaves every bit alone,
      and one that adds an index changes that one bit. */
  lemma MembersDetermineBytes(a: seq<u8>, b: seq<u8>)
    requires |a| == |b| && Members(a) == Members(b)
    ensures a == b
  {
    forall i | 0 <= i < |a| ensures a[i] == b[i] {
      forall k: nat | k < 8 ensures Bit(a[i], k) <==> Bit(b[i], k) {
        var q := 8 * i + 7 - k;
        assert TruncDiv(q, 8) == i && TruncMod(q, 8) == 7 - k;
        assert q in Members(a) <==> q in Members(b);
      }
      ByteFromBits(a[i], b[i]);
    }
  }

  // Where a piece's bit is, in plain arithmetic

  /** Dividing truncates toward zero, and the remainder has the sign of the dividend. */
  lemma TruncatedDivision(a: int, b: int)
    requires b > 0
    ensures a == TruncDiv(a, b) * b + TruncMod(a, b)
    ensures a >= 0 ==> 0 <= TruncMod(a, b) < b
    ensures a <= 0 ==> -b < TruncMod(a, b) <= 0
  {
    if a < 0 {
      assert -a == (-a) / b * b + (-a) % b;
    }
  }

  /** 2 to the power 7 - k. */
  function Weight(k: nat): int
    requires k < 8
  {
    if k == 0 then 128 else if k == 1 then 64 else if k == 2 then 32 else if k == 3 then 16
    else if k == 4 then 8 else if k == 5 then 4 else if k == 6 then 2 else 1
  }

  lemma LowBit(x: bv8)
    ensures x & 1 != 0 <==> x as int % 2 == 1
  {
    assert (x & 1) as int == x as int % 2;
  }

  lemma Halved(x: bv8)
    ensures (x >> 1) as int == x as int / 2
  {
  }

  lemma Shifted(x: bv8, k: nat)
    requires k < 8
    ensures ShiftRight(x, 7 - k) as int == x as int / Weight(k)
    decreases 7 - k
  {
    if k < 7 {
      Shifted(x, k + 1);
      ShiftOnce(x, 6 - k);
      Halved(ShiftRight(x, 6 - k));
      HalfOfQuotient(x as int, k);
    } else {
      assert x >> 0 == x;
    }
  }

  lemma ShiftOnce(x: bv8, n: nat)
    requires n < 7
    ensures ShiftRight(x, n + 1) == ShiftRight(x, n) >> 1
  {
    assert x >> 1 == (x >> 0) >> 1 && x >> 2 == (x >> 1) >> 1 && x >> 3 == (x >> 2) >> 1 && x >> 4 == (x >> 3) >> 1;
    assert x >> 5 == (x >> 4) >> 1 && x >> 6 == (x >> 5) >> 1 && x >> 7 == (x >> 6) >> 1;
  }

  lemma HalfOfQuotient(a: int, k: nat)
    requires a >= 0 && k < 7
    ensures a / Weight(k + 1) / 2 == a / Weight(k)
  {
  }

  /** Bit 7 - k of a byte is its binary digit of that weight. */
  lemma BitIsDigit(b: u8, k: nat)
    requires k < 8
    ensures Bit(b, 7 - k) <==> b / Weight(k) % 2 == 1
  {
    BackToByte(b);
    var x := b as bv8;
    Shifted(x, k);
    LowBit(ShiftRight(x, 7 - k));
  }

  /** The layout of BEP 3: piece 8i + k is the binary digit of byte i with weight 2^(7-k), so that the
      high bit of the first byte is piece 0. */
  lemma PieceIsDigit(bf: seq<u8>, i: nat, k: nat)
    requires i < |bf| && k < 8
    ensures HasPiece(bf, 8 * i + k) <==> bf[i] / Weight(k) % 2 == 1
  {
    assert TruncDiv(8 * i + k, 8) == i && TruncMod(8 * i + k, 8) == k;
    BitIsDigit(bf[i], k);
  }

  lemma OrAdds(x: bv8)
    ensures x & 128 == 0 ==> (x | 128) as int == x as int + 128
    ensures x & 64 == 0 ==> (x | 64) as int == x as int + 64
    ensures x & 32 == 0 ==> (x | 32) as int == x as int + 32
    ensures x & 16 == 0 ==> (x | 16) as int == x as int + 16
    ensures x & 8 == 0 ==> (x | 8) as int == x as int + 8
    ensures x & 4 == 0 ==> (x | 4) as int == x as int + 4
    ensures x & 2 == 0 ==> (x | 2) as int == x as int + 2
    ensures x & 1 == 0 ==> (x | 1) as int == x as int + 1
  {
  }

  lemma OrOnSetBit(x: bv8, k: nat)
    requires k < 8
    ensures BitOf(x, k) ==> x | OneShiftedLeft(k) == x
    ensures !BitOf(x, k) ==> x & OneShiftedLeft(k) == 0
  {
  }

  lemma PowerOfTwo(k: nat)
    requires k < 8
    ensures OneShiftedLeft(7 - k)
         == (if k == 0 then 128 else if k == 1 then 64 else if k == 2 then 32 else if k == 3 then 16
             else if k == 4 then 8 else if k == 5 then 4 else if k == 6 then 2 else 1)
  {
  }

  lemma OrAddsWeight(x: bv8, k: nat)
    requires k < 8 && x & OneShiftedLeft(7 - k) == 0
    ensures (x | OneShiftedLeft(7 - k)) as int == x as int + Weight(k)
  {
    OrAdds(x);
    PowerOfTwo(k);
  }

  lemma OrAddsOnce(x: bv8, k: nat)
    requires k < 8
    ensures (x | OneShiftedLeft(7 - k)) as int == if BitOf(x, 7 - k) then x as int else x as int + Weight(k)
  {
    OrOnSetBit(x, 7 - k);
    hide BitOf;
    hide Weight;
    if !BitOf(x, 7 - k) {
      OrAddsWeight(x, k);
    }
  }

  /** Setting a bit adds its weight, once. */
  lemma WithBitAdds(b: u8, k: nat)
    requires k < 8
    ensures WithBit(b, 7 - k) == if Bit(b, 7 - k) then b else b + Weight(k)
  {
    BackToByte(b);
    OrAddsOnce(b as bv8, k);
    hide BitOf;
    hide OneShiftedLeft;
    hide Weight;
  }

  /** Setting a piece adds its weight to its byte, if the piece was not there, and changes no other byte. */
  lemma SetAddsWeight(bf: seq<u8>, i: nat, k: nat)
    requires i < |bf| && k < 8
    ensures HasPiece(bf, 8 * i + k) ==> WithPiece(bf, 8 * i + k) == bf
    ensures !HasPiece(bf, 8 * i + k) ==>
              bf[i] + Weight(k) < 256 && WithPiece(bf, 8 * i + k) == bf[i := bf[i] + Weight(k)]
  {
    assert TruncDiv(8 * i + k, 8) == i && TruncMod(8 * i + k, 8) == k;
    WithBitAdds(bf[i], k);
    assert bf[i := bf[i]] == bf;
  }

  /** The fill in server/server.go: as many bytes as pieces, every piece set. */
  method FillBitfield(pieceCount: nat) returns (bf: array<u8>)
    ensures fresh(bf) && bf.Length == pieceCount
    ensures forall q :: HasPiece(bf[..], q) <==> 0 <= q < pieceCount
  {
    bf := new u8[pieceCount](_ => 0);
    forall q ensures !HasPiece(bf[..], q) {
      if HasPiece(bf[..], q) {
        NoBitsInZero(7 - TruncMod(q, 8));
      }
    }
    for i := 0 to pieceCount
      invariant forall q :: HasPiece(bf[..], q) <==> 0 <= q < i
    {
      ghost var before := bf[..];
      SetPiece(bf, i);
      forall q ensures HasPiece(bf[..], q) <==> 0 <= q < i + 1 {
        HasPieceAfterSet(before, i, q);
      }
    }
  }

  lemma NoBitsInZero(k: nat)
    ensures !Bit(0, k)
  {
  }
}
