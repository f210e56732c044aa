/**
 Per-client heartbeat record: the four-timestamp delay/offset estimate of section 8 of RFC 5905,
 spread over two consecutive heartbeats and smoothed by an exponentially weighted average.
 */
module Heartbeats {
  const EWMA_ALPHA := 0.25

  /** The value of a heartbeat record. */
  datatype Beat = Beat(
    rtt: real,
    offset: real,
    drift: real,
    lastSeen: int,
    prevT1: int,
    prevT2: int,
    prevT3: int,
    hasPrev: bool)

  const NEW_BEAT := Beat(0.0, 0.0, 0.0, 0, 0, 0, 0, false)

  predicate IsAlive(b: Beat, now: int, timeout: int)
  {
    now - b.lastSeen < timeout
  }

  /** The delay sample closed by a request sent at client time t4, clamped to be non-negative. */
  function DelaySample(b: Beat, t4: int): real
  {
    var d := (t4 - b.prevT1) - (b.prevT3 - b.prevT2);
    if d < 0 then 0.0 else d as real
  }

  function OffsetSample(b: Beat, t4: int): real
  {
    ((b.prevT2 - b.prevT1) + (b.prevT3 - t4)) as real / 2.0
  }

  function Ewma(sample: real, smoothed: real): real
  {
    EWMA_ALPHA * sample + (1.0 - EWMA_ALPHA) * smoothed
  }

  /** The record after one heartbeat. */
  function Updated(b: Beat, t1: int, t2: int, t3: int, now: int): Beat
  {
    var base := b.(prevT1 := t1, prevT2 := t2, prevT3 := t3, hasPrev := true, lastSeen := now);
    if !b.hasPrev then base
    else if b.rtt == 0.0 then base.(rtt := DelaySample(b, t1), offset := OffsetSample(b, t1))
    else base.(rtt := Ewma(DelaySample(b, t1), b.rtt), offset := Ewma(OffsetSample(b, t1), b.offset))
  }

  /** The record kept for a client, updated in place by each heartbeat. */
  class ClientHeartbeat {
    var smoothedRtt: real
    var smoothedOffset: real
    var driftMs: real
    var lastSeen: int
    var prevT1: int
    var prevT2: int
    var prevT3: int
    var hasPrev: bool

    ghost function View(): Beat
      reads this
    {
      Beat(smoothedRtt, smoothedOffset, driftMs, lastSeen, prevT1, prevT2, prevT3, hasPrev)
    }

    constructor ()
      ensures View() == NEW_BEAT
    {
      smoothedRtt, smoothedOffset, driftMs, lastSeen := 0.0, 0.0, 0.0, 0;
      prevT1, prevT2, prevT3, hasPrev := 0, 0, 0, false;
    }

    method Update(t1: int, t2: int, t3: int, now: int)
      modifies this
      ensures View() == Updated(old(View()), t1, t2, t3, now)
    {
      if !hasPrev {
        prevT1, prevT2, prevT3 := t1, t2, t3;
        hasPrev := true;
        lastSeen := now;
        return;
      }
      var t4 := t1;
      var rtt := (t4 - prevT1) as real - (prevT3 - prevT2) as real;
      if rtt < 0.0 {
        rtt := 0.0;
      }
      var offset := ((prevT2 - prevT1) as real + (prevT3 - t4) as real) / 2.0;
      if smoothedRtt == 0.0 {
        smoothedRtt := rtt;
        smoothedOffset := offset;
      } else {
        smoothedRtt := EWMA_ALPHA * rtt + (1.0 - EWMA_ALPHA) * smoothedRtt;
        smoothedOffset := EWMA_ALPHA * offset + (1.0 - EWMA_ALPHA) * smoothedOffset;
      }
      prevT1, prevT2, prevT3 := t1, t2, t3;
      lastSeen := now;
    }
  }

  // ---- whole runs of heartbeats ------------------------------------------------------------------

  datatype Exchange = Exchange(t1: int, t2: int, t3: int, now: int)

  /** The record after a client's heartbeats, oldest first. */
  function Record(xs: seq<Exchange>): Beat
  {
    if xs == [] then NEW_BEAT
    else
      var x := xs[|xs| - 1];
      Updated(Record(xs[..|xs| - 1]), x.t1, x.t2, x.t3, x.now)
  }

  /**
   The server clock reads `skew` more than the client clock, each request takes non-negative time to
   arrive, and each response has arrived before the next request leaves.
   */
  ghost predicate Honest(xs: seq<Exchange>, skew: real)
  {
    && (forall i | 0 <= i < |xs| :: xs[i].t1 as real + skew <= xs[i].t2 as real)
    && (forall i | 1 <= i < |xs| :: xs[i - 1].t3 as real - skew <= xs[i].t1 as real)
  }

  lemma {:induction false} RecordBaseline(xs: seq<Exchange>)
    requires xs != []
    ensures var b, x := Record(xs), xs[|xs| - 1];
            b.hasPrev && b.prevT1 == x.t1 && b.prevT2 == x.t2 && b.prevT3 == x.t3 && b.lastSeen == x.now
  {
  }

  /** The samples heartbeat i closes. */
  function DelayAt(xs: seq<Exchange>, i: nat): real
    requires 1 <= i < |xs|
  {
    DelaySample(Record(xs[..i]), xs[i].t1)
  }

  function OffsetAt(xs: seq<Exchange>, i: nat): real
    requires 1 <= i < |xs|
  {
    OffsetSample(Record(xs[..i]), xs[i].t1)
  }

  /**
   What one sample measures: the request's delay plus everything between the server's answer and the
   client's next request, the answer's own delay and the idle gap alike. The offset errs by half
   their difference.
   */
  lemma SampleMeasures(xs: seq<Exchange>, i: nat, skew: real)
    requires 1 <= i < |xs| && Honest(xs, skew)
    ensures var out := xs[i - 1].t2 as real - xs[i - 1].t1 as real - skew;
            var back := xs[i].t1 as real - xs[i - 1].t3 as real + skew;
            DelayAt(xs, i) == out + back && OffsetAt(xs, i) == skew + (out - back) / 2.0
    ensures -DelayAt(xs, i) <= 2.0 * (OffsetAt(xs, i) - skew) <= DelayAt(xs, i)
  {
    var prefix := xs[..i];
    RecordBaseline(prefix);
    assert prefix[|prefix| - 1] == xs[i - 1];
    assert xs[i - 1].t1 as real + skew <= xs[i - 1].t2 as real;
  }

  /** An average of two bounded errors is bounded by the average of the bounds. */
  lemma EwmaKeepsBound(e: real, bound: real, e': real, bound': real)
    requires -bound <= 2.0 * e <= bound && -bound' <= 2.0 * e' <= bound'
    ensures -Ewma(bound, bound') <= 2.0 * Ewma(e, e') <= Ewma(bound, bound')
  {
  }

  /**
   With a constant skew and non-negative delays, from the first sample on every run keeps the
   smoothed offset within half the smoothed delay of the true skew.
   */
  lemma {:induction false} OffsetErrorBound(xs: seq<Exchange>, skew: real)
    requires |xs| >= 2 && Honest(xs, skew)
    ensures var b := Record(xs); -b.rtt <= 2.0 * (b.offset - skew) <= b.rtt
  {
    var n := |xs| - 1;
    var p := xs[..n];
    RecordBaseline(p);
    SampleMeasures(xs, n, skew);
    if n > 1 {
      OffsetErrorBound(p, skew);
      var b := Record(p);
      EwmaKeepsBound(OffsetAt(xs, n) - skew, DelayAt(xs, n), b.offset - skew, b.rtt);
      EwmaOfDifference(OffsetAt(xs, n), b.offset, skew);
    } else {
      assert Record(p) == Updated(Record(p[..0]), p[0].t1, p[0].t2, p[0].t3, p[0].now);
      assert p[..0] == [];
    }
  }

  lemma EwmaOfDifference(x: real, y: real, skew: real)
    ensures Ewma(x - skew, y - skew) == Ewma(x, y) - skew
  {
  }

  lemma EwmaInHull(x: real, y: real, lo: real, hi: real)
    requires lo <= x <= hi && lo <= y <= hi
    ensures lo <= Ewma(x, y) <= hi
  {
  }

  /**
   Both smoothed values lie in the convex hull of their samples: any interval holding every delay
   sample holds the smoothed delay, and likewise for the offset, also across re-initialisation.
   */
  lemma {:induction false} SmoothedInHull(xs: seq<Exchange>, lo: real, hi: real, lo': real, hi': real)
    requires |xs| >= 2
    requires forall i | 1 <= i < |xs| :: lo <= DelayAt(xs, i) <= hi
    requires forall i | 1 <= i < |xs| :: lo' <= OffsetAt(xs, i) <= hi'
    ensures lo <= Record(xs).rtt <= hi
    ensures lo' <= Record(xs).offset <= hi'
  {
    var n := |xs| - 1;
    var p := xs[..n];
    RecordBaseline(p);
    assert lo <= DelayAt(xs, n) <= hi && lo' <= OffsetAt(xs, n) <= hi';
    if n > 1 {
      forall i | 1 <= i < |p|
        ensures DelayAt(p, i) == DelayAt(xs, i) && OffsetAt(p, i) == OffsetAt(xs, i)
      {
        assert p[..i] == xs[..i];
      }
      SmoothedInHull(p, lo, hi, lo', hi');
      EwmaInHull(DelayAt(xs, n), Record(p).rtt, lo, hi);
      EwmaInHull(OffsetAt(xs, n), Record(p).offset, lo', hi');
    } else {
      assert Record(p) == Updated(Record(p[..0]), p[0].t1, p[0].t2, p[0].t3, p[0].now);
      assert p[..0] == [];
    }
  }
}
