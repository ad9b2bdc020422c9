/** Leecher and seeder of this program running against each other: bytes travel between them in pieces of
    any size and at any time, and neither ever waits for the other for good. */
module Exchange {
  import opened Bytes
  import opened Message
  import opened Torrent
  import opened Pipeline
  import opened Attempt
  import opened Serving
  import opened WorkerLoop
  import opened ClosedLoop
  import opened Session
  import opened WholeSession
  import opened Prefixes
  import H = Handshake
  import Bitfield

  // The leecher is always ahead: having read only part of the replies, it has asked for more

  lemma HalfFrame(f: Frame, r: seq<u8>)
    requires Framable(f) && Encode(f).Some? && r <= Encode(f).value && |r| < |Encode(f).value|
    ensures Decode(r) == Err(ShortStream)
  {
    hide Encode;
    var bytes := Encode(f).value;
    FrameRoundTrip(f, []);
    assert bytes + [] == bytes == r + bytes[|r|..];
    if Decode(r).Ok? {
      DecodeMore(r, bytes[|r|..]);
    }
  }

  /** Part of a stream of replies: less than the first, or the first and part of the others. */
  lemma PartOfReplies(index: nat, piece: seq<u8>, rs: seq<Request>, r: seq<u8>) returns (rest: seq<u8>)
    requires rs != [] && Within(rs, |piece|)
    requires r <= EncodeAll(Replies(index, piece, rs)) && |r| < |EncodeAll(Replies(index, piece, rs))|
    ensures Within(rs[1..], |piece|) && Within([rs[0]], |piece|)
    ensures Decode(r).Err? ==> Decode(r) == Err(ShortStream) && |r| < |EncodeAll(Replies(index, piece, [rs[0]]))|
    ensures Decode(r).Ok? ==>
              && Decode(r) == Ok(Decoded(Some(Reply(index, piece, rs[0])), rest))
              && |r| == |EncodeAll(Replies(index, piece, [rs[0]]))| + |rest|
              && rest <= EncodeAll(Replies(index, piece, rs[1..]))
              && |rest| < |EncodeAll(Replies(index, piece, rs[1..]))|
  {
    hide Encode;
    hide Decode;
    hide Reply;
    var first, others := Replies(index, piece, [rs[0]]), Replies(index, piece, rs[1..]);
    assert Replies(index, piece, rs) == first + others;
    EncodeAllAppend(first, others);
    EncodeAllOne(first[0]);
    assert first == [first[0]];
    var bytes := Encode(first[0]).value;
    if |r| < |bytes| {
      assert r == EncodeAll(Replies(index, piece, rs))[..|r|] == bytes[..|r|];
      HalfFrame(first[0], r);
      rest := [];
    } else {
      rest := r[|bytes|..];
      assert r == EncodeAll(Replies(index, piece, rs))[..|r|];
      assert r[..|bytes|] == bytes && r == bytes + rest;
      FrameRoundTrip(first[0], rest);
    }
  }

  lemma RepliesGrow(index: nat, piece: seq<u8>, first: Request, more: seq<Request>)
    requires Within([first] + more, |piece|)
    ensures Within([first], |piece|) && Within(more, |piece|)
    ensures |EncodeAll(Replies(index, piece, [first] + more))|
         == |EncodeAll(Replies(index, piece, [first]))| + |EncodeAll(Replies(index, piece, more))|
  {
    hide Reply;
    hide Encode;
    assert forall i :: 0 <= i < |more| ==> ([first] + more)[i + 1] == more[i];
    assert ([first] + more)[0] == first;
    assert Replies(index, piece, [first] + more) == Replies(index, piece, [first]) + Replies(index, piece, more);
    EncodeAllAppend(Replies(index, piece, [first]), Replies(index, piece, more));
  }

  /** The requests made so far: those outstanding, then blocks m, m + 1 and so on. */
  ghost predicate Ahead(piece: seq<u8>, index: nat, outstanding: seq<Request>, m: nat, sent: seq<Request>, r: seq<u8>) {
    && m + |sent| <= |Blocks(|piece|)| && sent == Blocks(|piece|)[m..m + |sent|]
    && Within(outstanding + sent, |piece|)
    && |r| < |EncodeAll(Replies(index, piece, outstanding + sent))|
  }

  /** The first reply due is not there yet. */
  lemma AheadAtFirst(piece: seq<u8>, index: nat, outstanding: seq<Request>, m: nat, rs: seq<Request>, r: seq<u8>)
    requires m + |rs| <= |Blocks(|piece|)| && rs == Blocks(|piece|)[m..m + |rs|]
    requires outstanding + rs != [] && Within(outstanding + rs, |piece|)
    requires Within([(outstanding + rs)[0]], |piece|)
    requires |r| < |EncodeAll(Replies(index, piece, [(outstanding + rs)[0]]))|
    ensures Ahead(piece, index, outstanding, m, rs, r)
  {
    var pending := outstanding + rs;
    assert pending == [pending[0]] + pending[1..];
    RepliesGrow(index, piece, pending[0], pending[1..]);
  }

  /** It is, and the client is ahead after reading it. */
  lemma AheadOnwards(
    piece: seq<u8>, index: nat, outstanding: seq<Request>, m: nat, rs: seq<Request>, sent: seq<Request>,
    r: seq<u8>, rest: seq<u8>)
    requires m + |rs| <= |Blocks(|piece|)| && rs == Blocks(|piece|)[m..m + |rs|]
    requires outstanding + rs != [] && Within([(outstanding + rs)[0]], |piece|)
    requires |r| == |EncodeAll(Replies(index, piece, [(outstanding + rs)[0]]))| + |rest|
    requires Ahead(piece, index, (outstanding + rs)[1..], m + |rs|, sent, rest)
    ensures Ahead(piece, index, outstanding, m, rs + sent, r)
  {
    hide EncodeAll;
    hide Block;
    var pending := outstanding + rs;
    assert outstanding + (rs + sent) == [pending[0]] + (pending[1..] + sent);
    assert Within([pending[0]] + (pending[1..] + sent), |piece|);
    RepliesGrow(index, piece, pending[0], pending[1..] + sent);
    assert rs + sent == Blocks(|piece|)[m..m + |rs| + |sent|];
  }

  lemma AskedPart(piece: seq<u8>, outstanding: seq<Request>, m: nat, rs: seq<Request>)
    requires m + |rs| <= |Blocks(|piece|)| && rs + Blocks(|piece|)[m + |rs|..] == Blocks(|piece|)[m..]
    requires outstanding + rs != [] && Within(Due(piece, outstanding, m), |piece|)
    ensures rs == Blocks(|piece|)[m..m + |rs|]
    ensures Due(piece, outstanding, m) == outstanding + rs + Blocks(|piece|)[m + |rs|..]
    ensures Due(piece, outstanding, m)[0] == (outstanding + rs)[0] && Within(outstanding + rs, |piece|)
  {
    var due := Due(piece, outstanding, m);
    assert outstanding + rs + Blocks(|piece|)[m + |rs|..] == outstanding + (rs + Blocks(|piece|)[m + |rs|..]);
    assert forall i :: 0 <= i < |outstanding + rs| ==> (outstanding + rs)[i] == due[i];
  }

  ghost predicate PartDue(piece: seq<u8>, p: Progress, outstanding: seq<Request>, m: nat, r: seq<u8>) {
    && Fifo(piece, p, outstanding, m)
    && var all := EncodeAll(Replies(p.index, piece, Due(piece, outstanding, m)));
       r <= all && |r| < |all|
  }

  /** One turn of a client that misses part of the replies. */
  lemma PartTurn(piece: seq<u8>, p: Progress, outstanding: seq<Request>, m: nat, r: seq<u8>)
    returns (p2: Progress, rest: seq<u8>)
    requires PartDue(piece, p, outstanding, m, r) && p.downloaded < |piece|
    ensures var (p1, rs) := Ask(p);
            && m + |rs| <= |Blocks(|piece|)| && rs == Blocks(|piece|)[m..m + |rs|]
            && outstanding + rs != [] && Within(outstanding + rs, |piece|) && Within([(outstanding + rs)[0]], |piece|)
            && (Decode(r).Err? ==>
                  Decode(r) == Err(ShortStream)
                  && |r| < |EncodeAll(Replies(p.index, piece, [(outstanding + rs)[0]]))|)
            && (Decode(r).Ok? ==>
                  && Decode(r).value.rest == rest && Receive(p1, Decode(r).value.frame) == Ok(p2)
                  && p2.index == p.index
                  && |r| == |EncodeAll(Replies(p.index, piece, [(outstanding + rs)[0]]))| + |rest|
                  && PartDue(piece, p2, (outstanding + rs)[1..], m + |rs|, rest))
  {
    hide Receive;
    hide Decode;
    hide Reply;
    hide Block;
    FifoAsk(piece, p, outstanding, m);
    var others: seq<Request>;
    p2, others := FifoTurn(piece, p, outstanding, m);
    rest := PartOfReplies(p.index, piece, Due(piece, outstanding, m), r);
    hide Ask;
    AskedPart(piece, outstanding, m, Ask(p).1);
  }

  lemma PartDueMeansMissing(piece: seq<u8>, p: Progress, outstanding: seq<Request>, m: nat, r: seq<u8>)
    requires PartDue(piece, p, outstanding, m, r)
    ensures p.downloaded < |p.buf| == |piece|
  {
    if p.downloaded >= |p.buf| {
      DoneIsWhole(piece, p, outstanding);
      AllAsked(p, Blocks(|piece|)[..m]);
    }
  }

  /** While replies come in order: whatever proper part of those still due has come, byte by byte, the
      replies to what is outstanding and to what has been asked since are more than that. */
  lemma {:induction false} FifoAhead(piece: seq<u8>, p: Progress, outstanding: seq<Request>, m: nat, r: seq<u8>)
    requires PartDue(piece, p, outstanding, m, r)
    ensures Drive(p, r).result == Err(ShortStream)
    ensures Ahead(piece, p.index, outstanding, m, Drive(p, r).sent, r)
    decreases |r|
  {
    PartDueMeansMissing(piece, p, outstanding, m, r);
    var p2, rest := PartTurn(piece, p, outstanding, m, r);
    hide PartDue;
    hide Receive;
    hide Decode;
    hide Ask;
    hide Within;
    hide Ahead;
    hide Replies;
    hide Blocks;
    if Decode(r).Err? {
      AheadAtFirst(piece, p.index, outstanding, m, Ask(p).1, r);
    } else {
      FifoAhead(piece, p2, (outstanding + Ask(p).1)[1..], m + |Ask(p).1|, rest);
      AheadOnwards(piece, p.index, outstanding, m, Ask(p).1, Drive(p2, rest).sent, r, rest);
    }
  }

  /** For one piece: having read any proper part of the seeder's replies, the leecher is blocked in a read
      and has already written requests that make the seeder write more than that. */
  lemma PieceAhead(t: Torrent, content: seq<u8>, client: Client, index: nat, r: seq<u8>)
    requires WellFormed(t) && |content| == t.length && index < |t.hashes| && !client.choked
    requires var piece := PieceContent(t, content, index);
             && Within(Blocks(|piece|), |piece|)
             && var all := EncodeAll(Replies(index, piece, Blocks(|piece|))); r <= all && |r| < |all|
    ensures var o := Drive(Start(client, index, |PieceContent(t, content, index)|), r);
            && o.result == Err(ShortStream) && o.sent <= Blocks(|PieceContent(t, content, index)|)
            && |r| < |Serve(t, content, RequestBytes(index, o.sent)).out|
  {
    hide PieceContent;
    PieceInFile(t, index);
    var piece := PieceContent(t, content, index);
    var p := Start(client, index, |piece|);
    StartIsSound(piece, client, index);
    assert Due(piece, [], 0) == Blocks(|piece|);
    assert Blocks(|piece|)[..0] == [];
    FifoAhead(piece, p, [], 0, r);
    var sent := Drive(p, r).sent;
    hide Drive;
    hide Serve;
    assert [] + sent == sent;
    ServesRequests(t, content, index, sent, []);
    NothingServed(t, content);
    assert RequestBytes(index, sent) + [] == RequestBytes(index, sent);
  }

  /** What the seeder writes in all on a worker's requests, piece by piece. */
  lemma RepliesSplit(t: Torrent, content: seq<u8>, indices: seq<nat>)
    requires WellFormed(t) && |content| == t.length && indices != []
    requires forall i :: 0 <= i < |indices| ==> indices[i] < |t.hashes|
    ensures forall i :: 0 <= i < |indices| ==> PieceSize(t, indices[i]) >= 0
    ensures var piece := PieceContent(t, content, indices[0]);
            && Within(Blocks(|piece|), |piece|)
            && Serve(t, content, WorkerBytes(t, indices)).out
               == EncodeAll(Replies(indices[0], piece, Blocks(|piece|)))
                  + Serve(t, content, WorkerBytes(t, indices[1..])).out
  {
    SizesKnown(t, indices);
    hide Serve;
    hide HaveBytes;
    hide RequestBytes;
    hide Blocks;
    hide PieceContent;
    FirstPieceServed(t, content, indices[0], WorkerBytes(t, indices[1..]));
  }

  lemma FirstPieceServed(t: Torrent, content: seq<u8>, index: nat, tail: seq<u8>)
    requires WellFormed(t) && |content| == t.length && index < |t.hashes|
    ensures var piece := PieceContent(t, content, index);
            && Within(Blocks(|piece|), |piece|)
            && Serve(t, content, RequestBytes(index, Blocks(|piece|)) + HaveBytes(index) + tail).out
               == EncodeAll(Replies(index, piece, Blocks(|piece|))) + Serve(t, content, tail).out
  {
    hide Serve;
    hide HaveBytes;
    hide RequestBytes;
    hide PieceContent;
    var piece := PieceContent(t, content, index);
    var blocks, have := Blocks(|piece|), HaveBytes(index);
    BlocksWithin(|piece|);
    hide Blocks;
    assert RequestBytes(index, blocks) + have + tail == RequestBytes(index, blocks) + (have + tail);
    ServesRequests(t, content, index, blocks, have + tail);
    HaveIsIgnored(t, content, index, tail);
  }

  /** A worker whose first attempt is short of bytes has written that attempt's requests. */
  lemma WorkBlocked(t: Torrent, sha1: Hash, check: bool, client: Client, indices: seq<nat>, r: seq<u8>)
    requires forall i :: 0 <= i < |indices| ==> PieceSize(t, indices[i]) >= 0
    requires indices != [] && Bitfield.HasPiece(client.bitfield, indices[0])
    requires Drive(Start(client, indices[0], PieceSize(t, indices[0])), r).result == Err(ShortStream)
    ensures Work(t, sha1, check, client, indices, r).out
         == RequestBytes(indices[0], Drive(Start(client, indices[0], PieceSize(t, indices[0])), r).sent)
  {
    hide Drive;
    hide RequestBytes;
    hide PieceSize;
  }

  /** One whose first attempt returns has written all its requests and the have message. */
  lemma WorkOnwards(
    t: Torrent, sha1: Hash, check: bool, content: seq<u8>, client: Client, indices: seq<nat>, r1: seq<u8>)
    requires WellFormed(t) && |content| == t.length && Ready(t, sha1, check, content, client, indices)
    requires forall i :: 0 <= i < |indices| ==> PieceSize(t, indices[i]) >= 0
    requires indices != []
    ensures var piece := PieceContent(t, content, indices[0]);
            && Within(Blocks(|piece|), |piece|)
            && Work(t, sha1, check, client, indices,
                    EncodeAll(Replies(indices[0], piece, Blocks(|piece|))) + r1).out
               == RequestBytes(indices[0], Blocks(|piece|)) + HaveBytes(indices[0])
                  + Work(t, sha1, check, client, indices[1..], r1).out
  {
    hide PieceContent;
    hide Blocks;
    hide Drive;
    hide RequestBytes;
    hide HaveBytes;
    hide HashOk;
    SeederDeliversPiece(t, content, client, indices[0], r1);
  }

  ghost function FirstReplies(t: Torrent, content: seq<u8>, index: nat): seq<u8>
    requires WellFormed(t) && |content| == t.length && index < |t.hashes|
  {
    var piece := PieceContent(t, content, index);
    BlocksWithin(|piece|);
    EncodeAll(Replies(index, piece, Blocks(|piece|)))
  }

  lemma WorkAheadHere(
    t: Torrent, sha1: Hash, check: bool, content: seq<u8>, client: Client, indices: seq<nat>, r: seq<u8>)
    requires WellFormed(t) && |content| == t.length && Ready(t, sha1, check, content, client, indices)
    requires forall i :: 0 <= i < |indices| ==> PieceSize(t, indices[i]) >= 0
    requires indices != []
    requires var replies := FirstReplies(t, content, indices[0]); r <= replies && |r| < |replies|
    ensures |r| < |Serve(t, content, Work(t, sha1, check, client, indices, r).out).out|
  {
    hide Serve;
    hide Drive;
    hide HashOk;
    BlocksWithin(|PieceContent(t, content, indices[0])|);
    hide Blocks;
    PieceAhead(t, content, client, indices[0], r);
    WorkBlocked(t, sha1, check, client, indices, r);
  }

  lemma WorkAheadLater(
    t: Torrent, sha1: Hash, check: bool, content: seq<u8>, client: Client, indices: seq<nat>, r1: seq<u8>)
    requires WellFormed(t) && |content| == t.length && Ready(t, sha1, check, content, client, indices)
    requires forall i :: 0 <= i < |indices| ==> PieceSize(t, indices[i]) >= 0
    requires indices != []
    requires |r1| < |Serve(t, content, Work(t, sha1, check, client, indices[1..], r1).out).out|
    ensures var r := FirstReplies(t, content, indices[0]) + r1;
            |r| < |Serve(t, content, Work(t, sha1, check, client, indices, r).out).out|
  {
    hide Serve;
    hide HashOk;
    hide RequestBytes;
    hide HaveBytes;
    hide Blocks;
    hide PieceContent;
    WorkOnwards(t, sha1, check, content, client, indices, r1);
    hide Work;
    FirstPieceServed(t, content, indices[0], Work(t, sha1, check, client, indices[1..], r1).out);
  }

  lemma ReadyForTheRest(
    t: Torrent, sha1: Hash, check: bool, content: seq<u8>, client: Client, indices: seq<nat>)
    requires WellFormed(t) && |content| == t.length && indices != []
    requires Ready(t, sha1, check, content, client, indices)
    ensures indices[0] < |t.hashes| && Ready(t, sha1, check, content, client, indices[1..])
  {
    hide HashOk;
    hide PieceContent;
    hide Bitfield.HasPiece;
  }

  lemma SplitPart(r: seq<u8>, a: seq<u8>, b: seq<u8>) returns (r1: seq<u8>)
    requires r <= a + b && |r| < |a + b|
    ensures |r| < |a| ==> r <= a
    ensures |r| >= |a| ==> r == a + r1 && r1 <= b && |r1| < |b|
  {
    if |r| < |a| {
      r1 := [];
    } else {
      r1 := r[|a|..];
      assert (a + b)[..|a|] == a;
    }
  }

  /** For a worker and any list of pieces: having read any proper part of all replies, it has already
      written what makes the seeder write more than that. */
  lemma {:induction false} WorkAhead(
    t: Torrent, sha1: Hash, check: bool, content: seq<u8>, client: Client, indices: seq<nat>, r: seq<u8>)
    requires WellFormed(t) && |content| == t.length && Ready(t, sha1, check, content, client, indices)
    requires forall i :: 0 <= i < |indices| ==> PieceSize(t, indices[i]) >= 0
    requires var all := Serve(t, content, WorkerBytes(t, indices)).out; r <= all && |r| < |all|
    ensures |r| < |Serve(t, content, Work(t, sha1, check, client, indices, r).out).out|
    decreases |indices|
  {
    if indices == [] {
      NothingServed(t, content);
      return;
    }
    RepliesSplit(t, content, indices);
    ReadyForTheRest(t, sha1, check, content, client, indices);
    var replies, others := FirstReplies(t, content, indices[0]), Serve(t, content, WorkerBytes(t, indices[1..])).out;
    assert Serve(t, content, WorkerBytes(t, indices)).out == replies + others;
    hide *;
    var r1 := SplitPart(r, replies, others);
    if |r| < |replies| {
      WorkAheadHere(t, sha1, check, content, client, indices, r);
    } else {
      WorkAhead(t, sha1, check, content, client, indices[1..], r1);
      WorkAheadLater(t, sha1, check, content, client, indices, r1);
    }
  }

  // The whole session

  /** A leecher, a seeder, and the pieces the leecher's worker takes. */
  datatype Setup = Setup(
    t: Torrent, sha1: Hash, check: bool, content: seq<u8>, infoHash: H.Id20, peerID: H.Id20,
    clientDht: Dht, serverDht: Dht, bitfield: seq<u8>, indices: seq<nat>)

  /** The seeder's bitfield names its pieces, as NewServer fills it; the leecher's check, if it makes one,
      passes on the content. */
  ghost predicate Fit(x: Setup) {
    && WellFormed(x.t) && |x.content| == x.t.length && |x.t.hashes| <= TWO_TO_THE_32 - 6
    && |x.bitfield| == |x.t.hashes| && (forall q :: Bitfield.HasPiece(x.bitfield, q) <==> 0 <= q < |x.t.hashes|)
    && (forall i :: 0 <= i < |x.indices| ==> x.indices[i] < |x.t.hashes| && PieceSize(x.t, x.indices[i]) >= 0)
    && (x.check ==> forall i: nat :: i < |x.t.hashes| ==> HashOk(x.t, x.sha1, i, PieceContent(x.t, x.content, i)))
  }

  /** What the leecher has written by the time it has read the given bytes. */
  ghost function Leecher(x: Setup, wire: seq<u8>): seq<u8>
    requires Fit(x)
  {
    LeecherOut(x.t, x.sha1, x.check, x.infoHash, x.peerID, x.clientDht, x.indices, wire)
  }

  /** What the seeder has written by the time it has read the given bytes. */
  ghost function Seeder(x: Setup, wire: seq<u8>): seq<u8> {
    ServeSession(x.t, x.content, x.bitfield, x.serverDht, true, wire).out
  }

  /** All the leecher has to write, and the seeder has to write on it. */
  ghost function AllRequests(x: Setup): seq<u8>
    requires Fit(x)
  {
    LeecherBytes(x.t, x.infoHash, x.peerID, x.clientDht, x.indices)
  }

  ghost function AllReplies(x: Setup): seq<u8>
    requires Fit(x)
  {
    Seeder(x, AllRequests(x))
  }

  ghost function HelloOf(x: Setup): seq<u8> {
    Hello(x.infoHash, x.peerID, x.clientDht)
  }

  ghost function ClientPort(x: Setup): seq<u8> {
    if x.clientDht.enabled then PortBytes(x.clientDht.port) else []
  }

  ghost function ServerPort(x: Setup): seq<u8> {
    if x.clientDht.enabled && x.serverDht.enabled then PortBytes(x.serverDht.port) else []
  }

  /** What the seeder writes first. */
  ghost function Greeting(x: Setup): seq<u8> {
    Greet(x.bitfield, x.serverDht, HelloOf(x)).out
  }

  lemma SeederGreets(x: Setup, after: seq<u8>)
    requires Fit(x)
    ensures Seeder(x, HelloOf(x) + after) == Greeting(x) + Serve(x.t, x.content, after).out
  {
    hide Hello;
    OpeningAgrees(x.infoHash, x.peerID, x.clientDht, x.serverDht, x.bitfield, after, []);
    OpeningAgrees(x.infoHash, x.peerID, x.clientDht, x.serverDht, x.bitfield, [], []);
    assert HelloOf(x) + [] == HelloOf(x);
    GreetMore(x.bitfield, x.serverDht, HelloOf(x), after);
    hide Greet;
    hide Serve;
  }

  lemma HelloComesFirst(x: Setup, wire: seq<u8>) returns (after: seq<u8>)
    requires Fit(x)
    ensures Leecher(x, wire) == HelloOf(x) + after
  {
    hide H.Decode;
    hide Decode;
    hide Hello;
    hide PortBytes;
    hide Work;
    assert HelloOf(x) <= Leecher(x, wire);
    after := Leecher(x, wire)[|HelloOf(x)|..];
  }

  lemma RepliesFollowGreeting(x: Setup)
    requires Fit(x)
    ensures AllReplies(x) == Greeting(x) + Serve(x.t, x.content, WorkerBytes(x.t, x.indices)).out
  {
    hide Serve;
    hide PortBytes;
    hide WorkerBytes;
    SeederGreets(x, ClientPort(x) + WorkerBytes(x.t, x.indices));
    AfterHelloIsServed(x.t, x.content, x.clientDht, WorkerBytes(x.t, x.indices));
  }

  lemma WorkAfterGreeting(x: Setup, wire: seq<u8>)
    requires Fit(x) && x.indices != []
    ensures Work(x.t, x.sha1, x.check, Client(false, x.bitfield), x.indices, ServerPort(x) + wire)
         == Work(x.t, x.sha1, x.check, Client(false, x.bitfield), x.indices, wire)
  {
    if x.clientDht.enabled && x.serverDht.enabled {
      SizesKnown(x.t, x.indices);
      assert Bitfield.HasPiece(x.bitfield, x.indices[0]);
      WorkIgnoresPort(x.t, x.sha1, x.check, Client(false, x.bitfield), x.indices, x.serverDht.port, wire);
    } else {
      assert [] + wire == wire;
    }
  }

  /** How the leecher's opening goes on any stream that starts with the greeting. */
  lemma OpenAfterGreeting(x: Setup, wire: seq<u8>)
    requires Fit(x)
    ensures Open(x.infoHash, x.peerID, x.clientDht, Greeting(x) + wire)
         == Opened(HelloOf(x) + ClientPort(x), Some(x.bitfield), None, ServerPort(x) + wire)
  {
    OpeningAgrees(x.infoHash, x.peerID, x.clientDht, x.serverDht, x.bitfield, [], wire);
    assert HelloOf(x) + [] == HelloOf(x);
    hide Open;
    hide Greet;
    hide Hello;
    hide PortBytes;
  }

  lemma LeecherAfterGreeting(x: Setup, wire: seq<u8>)
    requires Fit(x) && x.indices != []
    ensures Leecher(x, Greeting(x) + wire)
         == HelloOf(x)
            + (ClientPort(x) + Work(x.t, x.sha1, x.check, Client(false, x.bitfield), x.indices, wire).out)
  {
    OpenAfterGreeting(x, wire);
    WorkAfterGreeting(x, wire);
    hide Open;
    hide Greeting;
    hide HelloOf;
    hide ClientPort;
    hide ServerPort;
    hide Work;
  }

  lemma SetupIsReady(x: Setup)
    requires Fit(x)
    ensures Ready(x.t, x.sha1, x.check, x.content, Client(false, x.bitfield), x.indices)
  {
    hide HashOk;
    hide PieceContent;
    hide Bitfield.HasPiece;
    hide PieceSize;
  }

  /** For the whole session: having read any proper part of what the seeder has to write, the leecher has
      already written what makes the seeder write more than that. */
  lemma SessionAhead(x: Setup, wire: seq<u8>)
    requires Fit(x) && wire <= AllReplies(x) && |wire| < |AllReplies(x)|
    ensures |wire| < |Seeder(x, Leecher(x, wire))|
  {
    RepliesFollowGreeting(x);
    var requests := WorkerBytes(x.t, x.indices);
    var replies := Serve(x.t, x.content, requests).out;
    hide AllReplies;
    hide Leecher;
    hide Seeder;
    var r := SplitPart(wire, Greeting(x), replies);
    if |wire| < |Greeting(x)| {
      var after := HelloComesFirst(x, wire);
      SeederGreets(x, after);
    } else {
      SetupIsReady(x);
      if x.indices == [] {
        NothingServed(x.t, x.content);
      } else {
        var client := Client(false, x.bitfield);
        WorkAhead(x.t, x.sha1, x.check, x.content, client, x.indices, r);
        var out := Work(x.t, x.sha1, x.check, client, x.indices, r).out;
        LeecherAfterGreeting(x, r);
        hide Serve;
        hide Work;
        hide PortBytes;
        SeederGreets(x, ClientPort(x) + out);
        AfterHelloIsServed(x.t, x.content, x.clientDht, out);
      }
    }
  }

  // The exchange as a process

  /** The bytes that have reached each side. */
  datatype Link = Link(toSeeder: seq<u8>, toLeecher: seq<u8>)

  /** Some more of what one side has written reaches the other. */
  ghost predicate Arrives(x: Setup, l: Link, l': Link)
    requires Fit(x)
  {
    || (l'.toLeecher == l.toLeecher && l.toSeeder < l'.toSeeder <= Leecher(x, l.toLeecher))
    || (l'.toSeeder == l.toSeeder && l.toLeecher < l'.toLeecher <= Seeder(x, l.toSeeder))
  }

  /** A history of the connection, from its start. */
  ghost predicate History(x: Setup, links: seq<Link>)
    requires Fit(x)
  {
    && links != [] && links[0] == Link([], [])
    && forall i :: 0 <= i < |links| - 1 ==> Arrives(x, links[i], links[i + 1])
  }

  function Final(links: seq<Link>): Link
    requires links != []
  {
    links[|links| - 1]
  }

  /** What has arrived was written, and is part of the whole exchange. */
  ghost predicate OnCourse(x: Setup, l: Link)
    requires Fit(x)
  {
    && l.toSeeder <= Leecher(x, l.toLeecher) && l.toLeecher <= Seeder(x, l.toSeeder)
    && l.toSeeder <= AllRequests(x) && l.toLeecher <= AllReplies(x)
  }

  lemma LeecherGrows(x: Setup, a: seq<u8>, b: seq<u8>)
    requires Fit(x) && a <= b
    ensures Leecher(x, a) <= Leecher(x, b)
  {
    hide LeecherOut;
    LeecherOutMore(x.t, x.sha1, x.check, x.infoHash, x.peerID, x.clientDht, x.indices, a, b[|a|..]);
    assert a + b[|a|..] == b;
  }

  lemma SeederGrows(x: Setup, a: seq<u8>, b: seq<u8>)
    requires a <= b
    ensures Seeder(x, a) <= Seeder(x, b)
  {
    hide ServeSession;
    SessionMore(x.t, x.content, x.bitfield, x.serverDht, a, b[|a|..]);
    assert a + b[|a|..] == b;
  }

  /** The finished exchange is one that both sides can write. */
  lemma WholeIsWritten(x: Setup)
    requires Fit(x)
    ensures Leecher(x, AllReplies(x)) == AllRequests(x)
  {
    SessionDelivers(x.t, x.sha1, x.check, x.content, x.infoHash, x.peerID, x.clientDht, x.serverDht, x.bitfield,
                    x.indices);
    hide Open;
    hide Work;
    hide LeecherBytes;
    hide ServeSession;
  }

  lemma ArrivalStaysOnCourse(x: Setup, l: Link, l': Link)
    requires Fit(x) && OnCourse(x, l) && Arrives(x, l, l')
    ensures OnCourse(x, l')
  {
    WholeIsWritten(x);
    hide Leecher;
    hide Seeder;
    hide AllRequests;
    if l'.toLeecher == l.toLeecher {
      SeederGrows(x, l.toSeeder, l'.toSeeder);
      LeecherGrows(x, l.toLeecher, AllReplies(x));
    } else {
      LeecherGrows(x, l.toLeecher, l'.toLeecher);
      SeederGrows(x, l.toSeeder, AllRequests(x));
    }
  }

  /** Safety: at any time, in any history, only bytes of the whole exchange have arrived. */
  lemma {:induction false} HistoryStaysOnCourse(x: Setup, links: seq<Link>)
    requires Fit(x) && History(x, links)
    ensures OnCourse(x, Final(links))
    decreases |links|
  {
    if |links| > 1 {
      var before := links[..|links| - 1];
      HistoryStaysOnCourse(x, before);
      hide OnCourse;
      hide Arrives;
      ArrivalStaysOnCourse(x, Final(before), Final(links));
    }
  }

  /** No deadlock: until the whole exchange is done, some bytes that were written can arrive. */
  lemma ExchangeNeverStalls(x: Setup, links: seq<Link>)
    requires Fit(x) && History(x, links) && Final(links) != Link(AllRequests(x), AllReplies(x))
    ensures exists l' :: Arrives(x, Final(links), l')
  {
    var l := Final(links);
    HistoryStaysOnCourse(x, links);
    WholeIsWritten(x);
    hide Leecher;
    hide Seeder;
    hide AllRequests;
    hide History;
    var written, answered := Leecher(x, l.toLeecher), Seeder(x, l.toSeeder);
    if l.toSeeder != written {
      assert Arrives(x, l, l.(toSeeder := written));
    } else {
      if l.toLeecher != AllReplies(x) {
        hide AllReplies;
        SessionAhead(x, l.toLeecher);
      }
      assert Arrives(x, l, l.(toLeecher := answered));
    }
  }

  /** And it ends: every arrival brings the two streams nearer their ends, so no history is longer than
      both together. */
  lemma {:induction false} ExchangeEnds(x: Setup, links: seq<Link>)
    requires Fit(x) && History(x, links)
    ensures |links| - 1 <= |Final(links).toSeeder| + |Final(links).toLeecher| <= |AllRequests(x)| + |AllReplies(x)|
    decreases |links|
  {
    HistoryStaysOnCourse(x, links);
    if |links| > 1 {
      var before := links[..|links| - 1];
      ExchangeEnds(x, before);
      assert Arrives(x, Final(before), Final(links));
      hide Leecher;
      hide Seeder;
      hide AllRequests;
      hide AllReplies;
    }
  }

  /** The session succeeds: a history in which nothing more can arrive is one in which both streams have
      arrived whole, the leecher's opening has succeeded with the seeder's bitfield, and its worker has
      all the pieces it took, having put none back. */
  lemma ExchangeDelivers(x: Setup, links: seq<Link>)
    requires Fit(x) && History(x, links) && !exists l' :: Arrives(x, Final(links), l')
    ensures Final(links) == Link(AllRequests(x), AllReplies(x))
    ensures var o := Open(x.infoHash, x.peerID, x.clientDht, Final(links).toLeecher);
            && o.error == None && o.bitfield == Some(x.bitfield)
            && var w := Work(x.t, x.sha1, x.check, Client(false, x.bitfield), x.indices, o.rest);
               w.results == PieceContents(x.t, x.content, x.indices) && w.putBack == [] && w.ended == Drained
  {
    if Final(links) != Link(AllRequests(x), AllReplies(x)) {
      ExchangeNeverStalls(x, links);
    }
    SessionDelivers(x.t, x.sha1, x.check, x.content, x.infoHash, x.peerID, x.clientDht, x.serverDht, x.bitfield,
                    x.indices);
    hide Open;
    hide Work;
    hide LeecherBytes;
    hide ServeSession;
    hide Arrives;
  }
}
