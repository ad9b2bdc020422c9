/** The request pipeline of one piece download (p2p/p2p.go, readMessage and attemptDownloadPiece), as
    a function of the state and the messages that arrive. */
module Pipeline {
  import opened Bytes
  import opened Message
  import Bitfield

  const MAX_BLOCK_SIZE: int := 256 * 1024
  const MAX_BACKLOG: int := 5

  /** What a connection remembers between pieces. */
  datatype Client = Client(choked: bool, bitfield: seq<u8>)

  datatype Progress = Progress(
    index: nat, client: Client, buf: seq<u8>, downloaded: nat, requested: nat, backlog: int)

  datatype Request = Request(begin: nat, size: nat)

  function Start(client: Client, index: nat, length: nat): Progress {
    Progress(index, client, seq(length, _ => 0), 0, 0, 0)
  }

  /** The next block to ask for: the last one may be shorter. */
  function NextRequest(p: Progress): Request
    requires p.requested < |p.buf|
  {
    Request(p.requested, Min(Min(MAX_BLOCK_SIZE, |p.buf|), |p.buf| - p.requested))
  }

  /** The inner loop: ask until enough requests are pending or everything is asked for. */
  function Refill(p: Progress): (Progress, seq<Request>)
    decreases |p.buf| - p.requested
  {
    if p.backlog < MAX_BACKLOG && p.requested < |p.buf| then
      var r := NextRequest(p);
      var (p', rs) := Refill(p.(backlog := p.backlog + 1, requested := p.requested + r.size));
      (p', [r] + rs)
    else (p, [])
  }

  /** What the client sends before it blocks in a read. */
  function Ask(p: Progress): (Progress, seq<Request>) {
    if p.client.choked then (p, []) else Refill(p)
  }

  /** Asking touches only the two counters. */
  lemma {:induction false} AskKeeps(p: Progress)
    ensures var (p', rs) := Ask(p); p' == p.(requested := p'.requested, backlog := p'.backlog)
    decreases |p.buf| - p.requested
  {
    if !p.client.choked && p.backlog < MAX_BACKLOG && p.requested < |p.buf| {
      AskKeeps(p.(backlog := p.backlog + 1, requested := p.requested + NextRequest(p).size));
    }
  }

  /** readMessage, for the frame that arrived. The ping a port message may cause is left out. */
  function Receive(p: Progress, f: Frame): Result<Progress> {
    match f
    case None => Ok(p)
    case Some(m) =>
      if m.id == MSG_UNCHOKE then Ok(p.(client := p.client.(choked := false)))
      else if m.id == MSG_CHOKE then Ok(p.(client := p.client.(choked := true)))
      else if m.id == MSG_HAVE then
        match ParseHave(m) {
          case Err(e) => Err(e)
          case Ok(index) => Ok(p.(client := p.client.(bitfield := Bitfield.WithPiece(p.client.bitfield, index))))
        }
      else if m.id == MSG_PIECE then
        match PieceInto(p.index, p.buf, m) {
          case Err(e) => Err(e)
          case Ok(parsed) => Ok(p.(buf := parsed.buf, downloaded := p.downloaded + parsed.n, backlog := p.backlog - 1))
        }
      else Ok(p)
  }

  // Any peer: the requests are a prefix of the blocks that tile the piece

  function BlockCount(length: nat): nat {
    (length + MAX_BLOCK_SIZE - 1) / MAX_BLOCK_SIZE
  }

  function Block(length: nat, k: nat): Request
    requires k < BlockCount(length)
  {
    Request(k * MAX_BLOCK_SIZE, Min(MAX_BLOCK_SIZE, length - k * MAX_BLOCK_SIZE))
  }

  function Blocks(length: nat): (bs: seq<Request>)
    ensures |bs| == BlockCount(length)
  {
    seq(BlockCount(length), k requires 0 <= k < BlockCount(length) => Block(length, k))
  }

  ghost predicate Covers(r: Request, x: int) {
    r.begin <= x < r.begin + r.size
  }

  /** Blocks have 1 to 256 KiB, follow each other without gap or overlap, and end with the piece. */
  lemma BlocksTile(length: nat, x: nat)
    ensures x < length ==> exists k: nat :: k < BlockCount(length) && Covers(Block(length, k), x)
    ensures forall k: nat :: k < BlockCount(length) ==>
              && 0 < Block(length, k).size <= MAX_BLOCK_SIZE
              && Block(length, k).begin + Block(length, k).size
                 == (if k + 1 < BlockCount(length) then Block(length, k + 1).begin else length)
  {
    if x < length {
      var k := x / MAX_BLOCK_SIZE;
      assert Covers(Block(length, k), x);
    }
  }

  /** sent is the requests so far: a prefix of the blocks, and requested counts their bytes. */
  ghost predicate Tiled(p: Progress, sent: seq<Request>) {
    && sent <= Blocks(|p.buf|)
    && p.requested == Min(|sent| * MAX_BLOCK_SIZE, |p.buf|)
  }

  lemma NextIsBlock(p: Progress, sent: seq<Request>)
    requires Tiled(p, sent) && p.requested < |p.buf|
    ensures |sent| < BlockCount(|p.buf|) && NextRequest(p) == Block(|p.buf|, |sent|)
    ensures Tiled(p.(requested := p.requested + NextRequest(p).size), sent + [NextRequest(p)])
  {
    assert Blocks(|p.buf|)[|sent|] == Block(|p.buf|, |sent|);
  }

  lemma {:induction false} RefillTiles(p: Progress, sent: seq<Request>)
    requires Tiled(p, sent) && p.backlog <= MAX_BACKLOG
    ensures var (p', rs) := Refill(p);
            && Tiled(p', sent + rs)
            && p'.backlog == p.backlog + |rs| <= MAX_BACKLOG
            && p' == p.(requested := p'.requested, backlog := p'.backlog)
            && (p'.backlog == MAX_BACKLOG || p'.requested == |p.buf|)
    decreases |p.buf| - p.requested
  {
    if p.backlog < MAX_BACKLOG && p.requested < |p.buf| {
      var r := NextRequest(p);
      NextIsBlock(p, sent);
      var q := p.(backlog := p.backlog + 1, requested := p.requested + r.size);
      RefillTiles(q, sent + [r]);
      assert sent + [r] + Refill(q).1 == sent + ([r] + Refill(q).1);
    } else {
      assert sent + [] == sent;
    }
  }

  /** Whatever arrives, the requests stay a prefix of the blocks, the backlog stays at most five, and
      a failing read changes nothing. */
  lemma TurnTiles(p: Progress, sent: seq<Request>, f: Frame)
    requires Tiled(p, sent) && p.backlog <= MAX_BACKLOG
    ensures var (p1, rs) := Ask(p);
            && Tiled(p1, sent + rs) && p1.backlog <= MAX_BACKLOG
            && p1.index == p.index && p1.buf == p.buf && p1.downloaded == p.downloaded && p1.client == p.client
            && (Receive(p1, f).Ok? ==>
                  var p2 := Receive(p1, f).value;
                  && Tiled(p2, sent + rs) && p2.backlog <= MAX_BACKLOG
                  && p2.index == p.index && |p2.buf| == |p.buf| && p2.downloaded >= p.downloaded)
  {
    if p.client.choked {
      assert sent + [] == sent;
    } else {
      RefillTiles(p, sent);
    }
  }

  // What each message does, and how many requests are pending, in numbers

  /** An unchoked client leaves the read with five requests pending or every block asked for, and the
      blocks are 256 KiB long but for the last. */
  lemma AskFillsTheWindow(p: Progress, sent: seq<Request>)
    requires Tiled(p, sent) && p.backlog <= 5
    ensures p.client.choked ==> Ask(p) == (p, [])
    ensures !p.client.choked ==>
              var (p1, rs) := Ask(p);
              && p1.backlog == p.backlog + |rs| <= 5
              && (p1.backlog == 5 || p1.requested == |p.buf|)
              && forall k :: 0 <= k < |rs| ==>
                   && rs[k].begin == 262144 * (|sent| + k)
                   && rs[k].size == Min(262144, |p.buf| - 262144 * (|sent| + k))
  {
    if !p.client.choked {
      RefillTiles(p, sent);
      var rs := Refill(p).1;
      forall k | 0 <= k < |rs| ensures rs[k] == Block(|p.buf|, |sent| + k) {
        assert (sent + rs)[|sent| + k] == Blocks(|p.buf|)[|sent| + k];
      }
    }
  }

  /** Choke and unchoke set the flag; a have message of four bytes adds its piece and any other is an
      error; messages that are not choke, unchoke, have or piece change nothing. */
  lemma WhatMessagesDo(p: Progress, m: Message)
    ensures var r := Receive(p, Some(m));
            && (m.id == 0 ==> r == Ok(p.(client := p.client.(choked := true))))
            && (m.id == 1 ==> r == Ok(p.(client := p.client.(choked := false))))
            && (m.id == 4 && |m.payload| == 4 ==>
                  r == Ok(p.(client := p.client.(
                            bitfield := Bitfield.WithPiece(p.client.bitfield, Number(m.payload, 0))))))
            && (m.id == 4 && |m.payload| != 4 ==> r == Err(BadPayloadLength))
            && (m.id != 0 && m.id != 1 && m.id != 4 && m.id != 7 ==> r == Ok(p))
  {
    if m.id == 4 && |m.payload| == 4 {
      Uint32Value(m.payload, 0);
    }
  }

  /** A piece message is accepted exactly if it names this piece and its data fit; then they are where it
      says, everything else is as before, and they count. */
  lemma WhatPiecesDo(p: Progress, m: Message)
    requires m.id == 7
    ensures Receive(p, Some(m)).Ok? <==>
              && |m.payload| >= 8
              && Number(m.payload, 0) == p.index
              && Number(m.payload, 4) < |p.buf| && Number(m.payload, 4) + |m.payload| - 8 <= |p.buf|
    ensures Receive(p, Some(m)).Ok? ==>
              var begin := Number(m.payload, 4);
              var p' := Receive(p, Some(m)).value;
              && p' == p.(buf := p'.buf, downloaded := p.downloaded + |m.payload| - 8, backlog := p.backlog - 1)
              && |p'.buf| == |p.buf|
              && forall x :: 0 <= x < |p.buf| ==>
                   p'.buf[x] == if begin <= x < begin + |m.payload| - 8 then m.payload[8 + x - begin] else p.buf[x]
  {
    if |m.payload| >= 8 {
      Uint32Value(m.payload, 0);
      Uint32Value(m.payload, 4);
    }
  }

  // An honest peer: every pending request is answered once, in any order, with the right bytes

  ghost function Pending(rs: seq<Request>): nat {
    if rs == [] then 0 else rs[0].size + Pending(rs[1..])
  }

  lemma {:induction false} PendingAppend(a: seq<Request>, b: seq<Request>)
    ensures Pending(a + b) == Pending(a) + Pending(b)
    decreases |a|
  {
    if a == [] {
      assert a + b == b;
    } else {
      PendingAppend(a[1..], b);
      assert (a + b)[1..] == a[1..] + b;
    }
  }

  function Without(rs: seq<Request>, j: nat): (r: seq<Request>)
    requires j < |rs|
    ensures |r| == |rs| - 1
  {
    rs[..j] + rs[j + 1..]
  }

  lemma PendingRemove(rs: seq<Request>, j: nat)
    requires j < |rs|
    ensures Pending(Without(rs, j)) == Pending(rs) - rs[j].size
  {
    PendingAppend(rs[..j], rs[j..]);
    PendingAppend(rs[..j], rs[j + 1..]);
    assert rs == rs[..j] + rs[j..];
    assert rs[j..][1..] == rs[j + 1..];
  }

  /** The invariant with an honest peer: the backlog counts the outstanding requests, the bytes
      asked for and not yet there are theirs, and all other bytes asked for are right. */
  ghost predicate Sound(piece: seq<u8>, p: Progress, outstanding: seq<Request>) {
    && |p.buf| == |piece|
    && p.requested <= |piece|
    && p.backlog == |outstanding| <= MAX_BACKLOG
    && p.requested - p.downloaded == Pending(outstanding)
    && (forall j :: 0 <= j < |outstanding| ==>
          0 < outstanding[j].size && outstanding[j].begin + outstanding[j].size <= p.requested)
    && (forall x :: 0 <= x < p.requested ==> p.buf[x] == piece[x] || Awaited(outstanding, x))
  }

  ghost predicate Awaited(outstanding: seq<Request>, x: int) {
    exists j :: 0 <= j < |outstanding| && Covers(outstanding[j], x)
  }

  lemma StartIsSound(piece: seq<u8>, client: Client, index: nat)
    ensures Sound(piece, Start(client, index, |piece|), [])
    ensures Tiled(Start(client, index, |piece|), [])
  {
  }

  lemma AskedOneMore(piece: seq<u8>, p: Progress, outstanding: seq<Request>)
    requires Sound(piece, p, outstanding) && p.backlog < MAX_BACKLOG && p.requested < |p.buf|
    ensures var r := NextRequest(p);
            Sound(piece, p.(backlog := p.backlog + 1, requested := p.requested + r.size), outstanding + [r])
  {
    var r := NextRequest(p);
    var more := outstanding + [r];
    PendingAppend(outstanding, [r]);
    forall x | 0 <= x < p.requested + r.size ensures p.buf[x] == piece[x] || Awaited(more, x) {
      if x < p.requested && p.buf[x] != piece[x] {
        var j :| 0 <= j < |outstanding| && Covers(outstanding[j], x);
        assert Covers(more[j], x);
      } else if x >= p.requested {
        assert Covers(more[|outstanding|], x);
      }
    }
  }

  lemma {:induction false} RefillIsSound(piece: seq<u8>, p: Progress, outstanding: seq<Request>)
    requires Sound(piece, p, outstanding)
    ensures var (p', rs) := Refill(p);
            && Sound(piece, p', outstanding + rs)
            && p' == p.(requested := p'.requested, backlog := p'.backlog)
            && (p'.backlog == MAX_BACKLOG || p'.requested == |p.buf|)
    decreases |p.buf| - p.requested
  {
    if p.backlog < MAX_BACKLOG && p.requested < |p.buf| {
      var r := NextRequest(p);
      AskedOneMore(piece, p, outstanding);
      var q := p.(backlog := p.backlog + 1, requested := p.requested + r.size);
      RefillIsSound(piece, q, outstanding + [r]);
      assert outstanding + [r] + Refill(q).1 == outstanding + ([r] + Refill(q).1);
    } else {
      assert outstanding + [] == outstanding;
    }
  }

  lemma AskIsSound(piece: seq<u8>, p: Progress, outstanding: seq<Request>)
    requires Sound(piece, p, outstanding)
    ensures var (p', rs) := Ask(p);
            && Sound(piece, p', outstanding + rs)
            && p' == p.(requested := p'.requested, backlog := p'.backlog)
  {
    RefillIsSound(piece, p, outstanding);
    assert outstanding + [] == outstanding;
  }

  /** No stall: when the client blocks in a read unchoked with bytes missing, a request is pending. */
  lemma NoStall(piece: seq<u8>, p: Progress, outstanding: seq<Request>)
    requires Sound(piece, p, outstanding) && !p.client.choked && p.downloaded < |piece|
    ensures outstanding + Ask(p).1 != []
  {
    RefillIsSound(piece, p, outstanding);
  }

  /** The answer to a request. */
  function Reply(index: nat, piece: seq<u8>, r: Request): Message
    requires r.begin + r.size <= |piece|
  {
    FormatPiece(index, r.begin, piece[r.begin..r.begin + r.size])
  }

  /** Messages that no request is owed: all but piece messages and malformed have messages. */
  predicate Neutral(f: Frame) {
    f.Some? ==> f.value.id != MSG_PIECE && (f.value.id == MSG_HAVE ==> ParseHave(f.value).Ok?)
  }

  lemma NeutralKeepsSound(piece: seq<u8>, p: Progress, outstanding: seq<Request>, f: Frame)
    requires Sound(piece, p, outstanding) && Neutral(f)
    ensures Receive(p, f).Ok?
    ensures var p' := Receive(p, f).value;
            Sound(piece, p', outstanding) && p' == p.(client := p'.client)
  {
  }

  lemma AnswerIsReceived(piece: seq<u8>, p: Progress, r: Request)
    requires 0 < r.size && r.begin + r.size <= |p.buf| == |piece|
    requires p.index < TWO_TO_THE_32 && |piece| < TWO_TO_THE_32
    ensures Receive(p, Some(Reply(p.index, piece, r)))
         == Ok(p.(buf := Paste(p.buf, r.begin, piece[r.begin..r.begin + r.size]),
                  downloaded := p.downloaded + r.size, backlog := p.backlog - 1))
  {
    hide PutUint32;
    PieceRoundTrip(p.index, r.begin, piece[r.begin..r.begin + r.size], p.buf);
  }

  lemma AnsweredBytes(piece: seq<u8>, p: Progress, outstanding: seq<Request>, j: nat, x: nat)
    requires Sound(piece, p, outstanding) && j < |outstanding| && x < p.requested
    ensures var o := outstanding[j];
            var buf := Paste(p.buf, o.begin, piece[o.begin..o.begin + o.size]);
            buf[x] == piece[x] || Awaited(Without(outstanding, j), x)
  {
    var o := outstanding[j];
    if !Covers(o, x) && p.buf[x] != piece[x] {
      var k :| 0 <= k < |outstanding| && Covers(outstanding[k], x);
      assert Without(outstanding, j)[if k < j then k else k - 1] == outstanding[k];
    }
  }

  /** An answer to any pending request is accepted; the missing bytes fall by its size. */
  lemma AnswerKeepsSound(piece: seq<u8>, p: Progress, outstanding: seq<Request>, j: nat)
    requires Sound(piece, p, outstanding) && j < |outstanding|
    requires p.index < TWO_TO_THE_32 && |piece| < TWO_TO_THE_32
    ensures var r := Receive(p, Some(Reply(p.index, piece, outstanding[j])));
            && r.Ok?
            && Sound(piece, r.value, Without(outstanding, j))
            && r.value.index == p.index && r.value.client == p.client
            && r.value.downloaded == p.downloaded + outstanding[j].size > p.downloaded
  {
    hide Receive;
    hide Reply;
    AnswerIsReceived(piece, p, outstanding[j]);
    PendingRemove(outstanding, j);
    var o := outstanding[j];
    forall x: nat | x < p.requested
      ensures Paste(p.buf, o.begin, piece[o.begin..o.begin + o.size])[x] == piece[x]
           || Awaited(Without(outstanding, j), x)
    {
      AnsweredBytes(piece, p, outstanding, j, x);
    }
    var rest := Without(outstanding, j);
    assert forall k :: 0 <= k < |rest| ==> rest[k] == outstanding[if k < j then k else k + 1];
  }

  /** At return the buffer is the whole piece and nothing is outstanding, so nothing left on the
      connection belongs to this piece. */
  lemma DoneIsWhole(piece: seq<u8>, p: Progress, outstanding: seq<Request>)
    requires Sound(piece, p, outstanding) && p.downloaded >= |piece|
    ensures p.buf == piece && outstanding == [] && p.backlog == 0 && p.requested == |piece|
  {
    NothingPending(outstanding);
  }

  lemma NothingPending(outstanding: seq<Request>)
    requires forall j :: 0 <= j < |outstanding| ==> 0 < outstanding[j].size
    ensures Pending(outstanding) == 0 <==> outstanding == []
  {
  }
}
