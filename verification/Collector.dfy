/** The collector: the loop of Download that assembles the file from the results, in whatever order
    they come (p2p/p2p.go, lines 351 to 366). */
module Collector {
  import opened Bytes
  import opened Torrent
  import opened Swarm
  import opened SwarmSafety
  import opened SwarmDelivery

  /** The buffer after the given results; None when copying one of them panicked. */
  function Collected(t: Torrent, results: seq<Arrival>): (r: Option<seq<u8>>)
    ensures r.Some? ==> |r.value| == t.length
    decreases |results|
  {
    if results == [] then Some(seq(t.length, _ => 0))
    else
      var last := results[|results| - 1];
      match Collected(t, results[..|results| - 1])
      case None => None
      case Some(buf) => CopyPiece(t, buf, last.index, last.data)
  }

  lemma CollectedOneMore(t: Torrent, results: seq<Arrival>, n: nat)
    requires n < |results|
    ensures Collected(t, results[..n + 1])
         == match Collected(t, results[..n])
            case None => None
            case Some(buf) => CopyPiece(t, buf, results[n].index, results[n].data)
  {
    hide CopyPiece;
    assert results[..n + 1][..n] == results[..n];
  }

  /** Takes one result a piece from the channel and copies it to its place. */
  method Collect(t: Torrent, results: seq<Arrival>) returns (buf: array<u8>, panicked: bool)
    requires |results| >= |t.hashes|
    ensures fresh(buf)
    ensures !panicked ==> Collected(t, results[..|t.hashes|]) == Some(buf[..])
    ensures panicked ==> exists done: nat :: done <= |t.hashes| && Collected(t, results[..done]) == None
  {
    buf := new u8[t.length](_ => 0);
    panicked := false;
    assert buf[..] == seq(t.length, _ => 0);
    assert Collected(t, results[..0]) == Some(buf[..]);
    hide Collected;
    hide Begin;
    hide End;
    var donePieces := 0;
    while donePieces < |t.hashes|
      invariant donePieces <= |t.hashes| && !panicked && fresh(buf) && buf.Length == t.length
      invariant Collected(t, results[..donePieces]) == Some(buf[..])
    {
      var res := results[donePieces];
      CollectedOneMore(t, results, donePieces);
      var begin, end := Begin(t, res.index), End(t, res.index);
      if !(0 <= begin <= end <= buf.Length) {
        panicked := true;
        return;
      }
      var n := CopyInto(buf, begin, res.data[..Min(end - begin, |res.data|)]);
      donePieces := donePieces + 1;
    }
  }

  lemma DeliverIsCollected(t: Torrent, sha1: Hash, s: Swarm, e: Event)
    requires Enabled(t, s, e) && Collected(t, s.arrivals) == Some(s.buf) && !Apply(t, sha1, s, e).panicked
    ensures var s' := Apply(t, sha1, s, e); Collected(t, s'.arrivals) == Some(s'.buf)
  {
    var s' := Apply(t, sha1, s, e);
    OnlyDeliverWrites(t, sha1, s, e);
    if e.Deliver? {
      assert s'.arrivals[..|s'.arrivals| - 1] == s.arrivals;
    }
  }

  /** The buffer of the transition system is the one the collector's loop computes. */
  lemma {:induction false} RunIsCollected(t: Torrent, sha1: Hash, s: Swarm, es: seq<Event>, s': Swarm)
    requires WellFormed(t) && Safe(t, sha1, s) && Run(t, sha1, s, es, s')
    requires Collected(t, s.arrivals) == Some(s.buf)
    ensures Collected(t, s'.arrivals) == Some(s'.buf)
    decreases |es|
  {
    hide Collected;
    if es != [] {
      StepIsSafe(t, sha1, s, es[0]);
      SafeHasNotPanicked(t, sha1, Apply(t, sha1, s, es[0]));
      DeliverIsCollected(t, sha1, s, es[0]);
      hide Apply;
      hide Enabled;
      hide Safe;
      RunIsCollected(t, sha1, Apply(t, sha1, s, es[0]), es[1..], s');
    }
  }

  lemma {:induction false} EarlierIsCollectedToo(t: Torrent, results: seq<Arrival>)
    requires Collected(t, results).Some?
    ensures forall done: nat :: done <= |results| ==> Collected(t, results[..done]).Some?
    decreases |results|
  {
    hide CopyPiece;
    assert results[..|results|] == results;
    if results != [] {
      var shorter := results[..|results| - 1];
      EarlierIsCollectedToo(t, shorter);
      forall done: nat | done < |results| ensures Collected(t, results[..done]).Some? {
        assert shorter[..done] == results[..done];
      }
    }
  }

  /** End to end, for the loop itself: fed with the results of any complete honest run, it copies
      within bounds throughout and ends with the seeder's content. */
  lemma CollectorAssemblesContent(t: Torrent, sha1: Hash, content: seq<u8>, es: seq<Event>, s: Swarm)
    requires WellFormed(t) && |content| == t.length && HonestRun(t, sha1, content, Initial(t), es, s)
    requires |s.arrivals| == |t.hashes|
    ensures Collected(t, s.arrivals) == Some(content)
    ensures forall done: nat :: done <= |s.arrivals| ==> Collected(t, s.arrivals[..done]).Some?
  {
    InitialIsSafe(t, sha1);
    HonestRunIsRun(t, sha1, content, Initial(t), es, s);
    RunIsCollected(t, sha1, Initial(t), es, s);
    CompleteIsContent(t, sha1, content, es, s);
    EarlierIsCollectedToo(t, s.arrivals);
  }
}
