/**
 What a snapshot's statistics say about the peers present: how many, the largest drift, the middle delay,
 and the confidence as a number of points, each in terms of the heartbeat records.
 */
module SnapshotStats {
  import opened Heartbeats
  import opened Statistics

  // ---- who is counted ----------------------------------------------------------------------------

  /** Seen less than the timeout ago. */
  predicate Present(beats: map<string, Beat>, u: string, now: int, timeout: int)
  {
    u in beats && now - beats[u].lastSeen < timeout
  }

  /** Present and with a delay measured. */
  predicate MeasuredPeer(beats: map<string, Beat>, u: string, now: int, timeout: int)
  {
    Present(beats, u, now, timeout) && beats[u].rtt > 0.0
  }

  /** The number a peer contributes of one kind. */
  function Reading(b: Beat, what: Measure): real
  {
    match what
    case Peers => 1.0
    case Drifts => b.drift
    case Delays => b.rtt
  }

  predicate Counts(beats: map<string, Beat>, u: string, what: Measure, now: int, timeout: int)
  {
    if what.Peers? then Present(beats, u, now, timeout) else MeasuredPeer(beats, u, now, timeout)
  }

  /** The values collected are the readings of the peers that count. */
  lemma {:induction false} CollectHolds(beats: map<string, Beat>, order: seq<string>, what: Measure, now: int,
                                        timeout: int, x: real)
    requires forall u | u in order :: u in beats
    ensures x in Collect(beats, order, what, now, timeout) <==>
            exists u :: u in order && Counts(beats, u, what, now, timeout) && Reading(beats[u], what) == x
    decreases |order|
  {
    if order != [] {
      var n := |order| - 1;
      var before, v := order[..n], order[n];
      CollectHolds(beats, before, what, now, timeout, x);
      CollectOneMore(beats, before, v, what, now, timeout);
      assert order == before + [v];
    }
  }

  function Counted(beats: map<string, Beat>, order: seq<string>, what: Measure, now: int, timeout: int): set<string>
  {
    set u | u in order && Counts(beats, u, what, now, timeout)
  }

  lemma CountedStep(beats: map<string, Beat>, before: seq<string>, v: string, what: Measure, now: int, timeout: int)
    requires v !in before
    ensures var c := Counted(beats, before, what, now, timeout);
            && Counted(beats, before + [v], what, now, timeout) ==
               (if Counts(beats, v, what, now, timeout) then c + {v} else c)
            && v !in c
  {
  }

  lemma ContributionSize(beats: map<string, Beat>, v: string, what: Measure, now: int, timeout: int)
    requires v in beats
    ensures |Contribution(beats[v], what, now, timeout)| == if Counts(beats, v, what, now, timeout) then 1 else 0
  {
  }

  lemma CollectCountsStep(beats: map<string, Beat>, before: seq<string>, v: string, what: Measure, now: int,
                          timeout: int)
    requires v in beats && v !in before && forall u | u in before :: u in beats
    requires |Collect(beats, before, what, now, timeout)| == |Counted(beats, before, what, now, timeout)|
    ensures |Collect(beats, before + [v], what, now, timeout)| == |Counted(beats, before + [v], what, now, timeout)|
  {
    CollectOneMore(beats, before, v, what, now, timeout);
    ContributionSize(beats, v, what, now, timeout);
    CountedStep(beats, before, v, what, now, timeout);
  }

  /** As many values as peers that count. */
  lemma {:induction false} CollectCounts(beats: map<string, Beat>, order: seq<string>, what: Measure, now: int,
                                         timeout: int)
    requires (forall u | u in order :: u in beats) && forall i, j | 0 <= i < j < |order| :: order[i] != order[j]
    ensures |Collect(beats, order, what, now, timeout)| == |Counted(beats, order, what, now, timeout)|
    decreases |order|
  {
    if order == [] {
      assert Counted(beats, order, what, now, timeout) == {};
    } else {
      var before, v := order[..|order| - 1], order[|order| - 1];
      assert order == before + [v] && v !in before;
      CollectCounts(beats, before, what, now, timeout);
      CollectCountsStep(beats, before, v, what, now, timeout);
    }
  }

  // ---- spread and confidence ---------------------------------------------------------------------

  /** A product kept as one term. */
  function Times(x: real, y: real): real
  {
    x * y
  }

  /** The squared distances from m, summed. */
  function Deviation(s: seq<real>, m: real): real
  {
    if s == [] then 0.0 else Times(s[0] - m, s[0] - m) + Deviation(s[1..], m)
  }

  /** The products with m, summed. */
  function Cross(s: seq<real>, m: real): real
  {
    if s == [] then 0.0 else Times(m, s[0]) + Cross(s[1..], m)
  }

  /** One c for each element. */
  function Each(s: seq<real>, c: real): real
  {
    if s == [] then 0.0 else c + Each(s[1..], c)
  }

  lemma SquareOf(x: real, m: real)
    ensures Times(x - m, x - m) == x * x - 2.0 * Times(m, x) + Times(m, m)
  {
  }

  lemma {:induction false} DeviationSplits(s: seq<real>, m: real)
    ensures Deviation(s, m) == SumSq(s) - 2.0 * Cross(s, m) + Each(s, Times(m, m))
    decreases |s|
  {
    if s != [] {
      SquareOf(s[0], m);
      DeviationSplits(s[1..], m);
    }
  }

  lemma Distributes(m: real, x: real, y: real)
    ensures Times(m, x + y) == Times(m, x) + Times(m, y)
    ensures Times(x + y, m) == Times(x, m) + Times(y, m)
  {
  }

  lemma {:induction false} CrossIs(s: seq<real>, m: real)
    ensures Cross(s, m) == Times(m, Sum(s))
    decreases |s|
  {
    if s != [] {
      CrossIs(s[1..], m);
      Distributes(m, s[0], Sum(s[1..]));
    }
  }

  lemma {:induction false} EachIs(s: seq<real>, c: real)
    ensures Each(s, c) == Times(|s| as real, c)
    decreases |s|
  {
    if s != [] {
      EachIs(s[1..], c);
      Distributes(c, 1.0, |s[1..]| as real);
    }
  }

  lemma VarianceIs(s: seq<real>, m: real)
    requires s != [] && m == Sum(s) / |s| as real
    ensures Variance(s) == SumSq(s) / |s| as real - Times(m, m)
  {
  }

  /** The spread used is the mean squared distance from the mean. */
  lemma SpreadIsMeanSquare(s: seq<real>)
    requires s != []
    ensures Times(|s| as real, Variance(s)) == Deviation(s, Sum(s) / |s| as real)
  {
    var m := Sum(s) / |s| as real;
    DeviationSplits(s, m);
    CrossIs(s, m);
    EachIs(s, Times(m, m));
    VarianceIs(s, m);
    Centre(|s| as real, m, Sum(s), SumSq(s));
  }

  lemma Centre(n: real, m: real, sum: real, sq: real)
    requires n > 0.0 && m == sum / n
    ensures Times(n, sq / n - Times(m, m)) == sq - 2.0 * Times(m, sum) + Times(n, Times(m, m))
  {
    assert sum == m * n && n * (sq / n) == sq;
    assert m * sum == n * (m * m);
    assert n * (sq / n - m * m) == n * (sq / n) - n * (m * m);
  }

  /** The delays lie apart: more than one, and more than 1000 of mean squared distance from their mean. */
  predicate Scattered(rtts: seq<real>)
  {
    |rtts| > 1 && Deviation(rtts, Sum(rtts) / |rtts| as real) > 1000.0 * |rtts| as real
  }

  /** Twenty points a peer up to five, a hundred beyond, and half of that when the delays lie apart. */
  lemma ConfidencePoints(peers: nat, rtts: seq<real>)
    requires peers < 0x1_0000_0000 / 20
    ensures var points := if peers <= 5 then 20 * peers else 100;
            Confidence(peers, rtts) == if Scattered(rtts) then points / 2 else points
  {
    if |rtts| > 1 {
      ScatteredIff(rtts);
    }
  }

  lemma ScatteredIff(rtts: seq<real>)
    requires |rtts| > 1
    ensures Scattered(rtts) <==> Variance(rtts) > 1000.0
  {
    SpreadIsMeanSquare(rtts);
    Scale(|rtts| as real, Variance(rtts), 1000.0);
  }

  lemma Scale(n: real, v: real, bound: real)
    requires n > 0.0
    ensures Times(n, v) > bound * n <==> v > bound
  {
    assert n * v - bound * n == n * (v - bound);
  }

  // ---- the snapshot ------------------------------------------------------------------------------

  /** Cut to a whole number toward zero and kept within 32 bits. */
  predicate Rounds(r: int, x: real)
  {
    if x > 2147483647.0 then r == 2147483647
    else if x < -2147483647.0 then r == -2147483647
    else if x >= 0.0 then r as real <= x < r as real + 1.0
    else r as real - 1.0 < x <= r as real
  }

  /** No measured peer drifts further than m either way, and one drifts as far, unless m is zero. */
  ghost predicate IsLargestDrift(beats: map<string, Beat>, m: real, now: int, timeout: int)
  {
    && (forall u | MeasuredPeer(beats, u, now, timeout) :: -m <= beats[u].drift <= m)
    && (m == 0.0
        || exists u :: MeasuredPeer(beats, u, now, timeout) && (beats[u].drift == m || beats[u].drift == -m))
  }

  /**
   The peers counted are those present; the drift shown is the largest magnitude among the measured, zero for
   none; the delay shown is a middle one of the measured; the confidence is twenty points a peer up to a hundred,
   halved when the delays lie apart.
   */
  ghost predicate Describes(s: Stats, beats: map<string, Beat>, delays: seq<real>, now: int, timeout: int)
  {
    && s.activePeers == |set u | u in beats && Present(beats, u, now, timeout)|
    && (exists m: real :: Rounds(s.driftEstimateMs, m) && IsLargestDrift(beats, m, now, timeout))
    && |delays| == |set u | u in beats && MeasuredPeer(beats, u, now, timeout)|
    && (forall x :: x in delays <==> exists u :: MeasuredPeer(beats, u, now, timeout) && beats[u].rtt == x)
    && (exists m: real :: Rounds(s.medianRttMs, m) && (delays == [] ==> m == 0.0)
          && 2 * CountAtMost(delays, m) >= |delays| && 2 * CountAtLeast(delays, m) >= |delays|)
    && (s.activePeers < 0x1_0000_0000 / 20 ==>
          var points := if s.activePeers <= 5 then 20 * s.activePeers else 100;
          s.confidence == if Scattered(delays) then points / 2 else points)
  }

  /** In whatever order the records are walked, the statistics describe the peers. */
  lemma SnapshotDescribesPeers(beats: map<string, Beat>, order: seq<string>, now: int, timeout: int)
    requires Enumerates(order, beats.Keys)
    ensures Describes(StatsOf(beats, order, now, timeout), beats, Collect(beats, order, Delays, now, timeout), now,
                      timeout)
  {
    var s := StatsOf(beats, order, now, timeout);
    if s.activePeers < 0x1_0000_0000 / 20 {
      ConfidencePoints(s.activePeers, Collect(beats, order, Delays, now, timeout));
    }
    DriftShown(beats, order, now, timeout);
    DelayShown(beats, order, now, timeout);
    PeersCounted(beats, order, now, timeout);
  }

  lemma PeersCounted(beats: map<string, Beat>, order: seq<string>, now: int, timeout: int)
    requires Enumerates(order, beats.Keys)
    ensures StatsOf(beats, order, now, timeout).activePeers == |set u | u in beats && Present(beats, u, now, timeout)|
  {
    CollectCounts(beats, order, Peers, now, timeout);
    assert Counted(beats, order, Peers, now, timeout) == set u | u in beats && Present(beats, u, now, timeout);
  }

  lemma DriftShown(beats: map<string, Beat>, order: seq<string>, now: int, timeout: int)
    requires Enumerates(order, beats.Keys)
    ensures var m := MaxAbs(Collect(beats, order, Drifts, now, timeout));
            && Rounds(StatsOf(beats, order, now, timeout).driftEstimateMs, m)
            && IsLargestDrift(beats, m, now, timeout)
  {
    var drifts := Collect(beats, order, Drifts, now, timeout);
    var m := MaxAbs(drifts);
    forall u | MeasuredPeer(beats, u, now, timeout)
      ensures -m <= beats[u].drift <= m
    {
      DriftCollected(beats, order, now, timeout, beats[u].drift);
      assert Abs(beats[u].drift) <= m;
    }
    if m != 0.0 {
      var v :| v in drifts && m == Abs(v);
      DriftCollected(beats, order, now, timeout, v);
    }
    ClampRounds(m);
  }

  lemma ClampRounds(x: real)
    ensures Rounds(ClampInt32(x), x)
  {
  }

  lemma DriftCollected(beats: map<string, Beat>, order: seq<string>, now: int, timeout: int, x: real)
    requires Enumerates(order, beats.Keys)
    ensures x in Collect(beats, order, Drifts, now, timeout) <==>
            exists u :: MeasuredPeer(beats, u, now, timeout) && beats[u].drift == x
  {
    CollectHolds(beats, order, Drifts, now, timeout, x);
    if exists u :: MeasuredPeer(beats, u, now, timeout) && beats[u].drift == x {
      var u :| MeasuredPeer(beats, u, now, timeout) && beats[u].drift == x;
      assert u in order && Counts(beats, u, Drifts, now, timeout) && Reading(beats[u], Drifts) == x;
    }
  }

  lemma DelayShown(beats: map<string, Beat>, order: seq<string>, now: int, timeout: int)
    requires Enumerates(order, beats.Keys)
    ensures var delays := Collect(beats, order, Delays, now, timeout);
            var m := Median(delays);
            && Rounds(StatsOf(beats, order, now, timeout).medianRttMs, m) && (delays == [] ==> m == 0.0)
            && 2 * CountAtMost(delays, m) >= |delays| && 2 * CountAtLeast(delays, m) >= |delays|
            && |delays| == |set u | u in beats && MeasuredPeer(beats, u, now, timeout)|
            && (forall x :: x in delays <==> exists u :: MeasuredPeer(beats, u, now, timeout) && beats[u].rtt == x)
  {
    var delays := Collect(beats, order, Delays, now, timeout);
    if delays != [] {
      MedianSplitsInHalf(delays);
    }
    CollectCounts(beats, order, Delays, now, timeout);
    assert Counted(beats, order, Delays, now, timeout) == set u | u in beats && MeasuredPeer(beats, u, now, timeout);
    forall x
      ensures x in delays <==> exists u :: MeasuredPeer(beats, u, now, timeout) && beats[u].rtt == x
    {
      CollectHolds(beats, order, Delays, now, timeout, x);
      if exists u :: MeasuredPeer(beats, u, now, timeout) && beats[u].rtt == x {
        var u :| MeasuredPeer(beats, u, now, timeout) && beats[u].rtt == x;
        assert u in order && Counts(beats, u, Delays, now, timeout) && Reading(beats[u], Delays) == x;
      }
    }
  }
}
