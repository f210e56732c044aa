/** The clamped proportional-integral drift controller, run once a second when correction is on. */
module Controllers {
  datatype Gains = Gains(kp: real, ki: real, clamp: real, threshold: real)

  const DEFAULT_GAINS := Gains(0.15, 0.02, 200.0, 2000.0)

  datatype Outcome = Outcome(correctionMs: real, forceSnapshot: bool)

  datatype Corrected = Corrected(outcome: Outcome, integral: real)

  ghost predicate Positive(g: Gains)
  {
    g.kp > 0.0 && g.ki > 0.0 && g.clamp > 0.0 && g.threshold > 0.0
  }

  /** Configured gains override the defaults only when positive. */
  function MakeGains(kp: real, ki: real, clamp: real, threshold: real): (g: Gains)
    ensures Positive(g)
  {
    Gains(
      if kp > 0.0 then kp else DEFAULT_GAINS.kp,
      if ki > 0.0 then ki else DEFAULT_GAINS.ki,
      if clamp > 0.0 then clamp else DEFAULT_GAINS.clamp,
      if threshold > 0.0 then threshold else DEFAULT_GAINS.threshold)
  }

  function Magnitude(x: real): real
  {
    if x < 0.0 then -x else x
  }

  function Clamp(x: real, bound: real): real
  {
    if x > bound then bound else if x < -bound then -bound else x
  }

  /** One controller cycle: what it outputs and the integral it leaves. */
  function Correction(g: Gains, integral: real, drift: real, dtSec: real, peers: int, confidence: nat): Corrected
  {
    if peers < 2 || confidence < 30 then Corrected(Outcome(0.0, false), integral)
    else if Magnitude(drift) > g.threshold then Corrected(Outcome(0.0, true), 0.0)
    else
      var i := Clamp(integral + drift * dtSec, g.clamp);
      Corrected(Outcome(g.kp * drift + g.ki * i, false), i)
  }

  class DriftController {
    const gains: Gains
    var integral: real

    constructor (g: Gains)
      ensures gains == g && integral == 0.0
    {
      gains, integral := g, 0.0;
    }

    method Correct(medianDriftMs: real, dtSec: real, activePeers: int, confidence: nat) returns (r: Outcome)
      modifies this
      ensures Corrected(r, integral) == Correction(gains, old(integral), medianDriftMs, dtSec, activePeers, confidence)
    {
      if activePeers < 2 {
        return Outcome(0.0, false);
      }
      if confidence < 30 {
        return Outcome(0.0, false);
      }
      if Magnitude(medianDriftMs) > gains.threshold {
        integral := 0.0;
        return Outcome(0.0, true);
      }
      integral := integral + medianDriftMs * dtSec;
      if integral > gains.clamp {
        integral := gains.clamp;
      } else if integral < -gains.clamp {
        integral := -gains.clamp;
      }
      return Outcome(gains.kp * medianDriftMs + gains.ki * integral, false);
    }

    method Reset()
      modifies this
      ensures integral == 0.0
    {
      integral := 0.0;
    }
  }

  // ---- whole runs --------------------------------------------------------------------------------

  datatype Call = Cycle(drift: real, dtSec: real, peers: int, confidence: nat) | ResetCall

  function Negated(c: Call): Call
  {
    if c.Cycle? then c.(drift := -c.drift) else c
  }

  function IntegralAfter(g: Gains, calls: seq<Call>): real
  {
    if calls == [] then 0.0
    else
      var n := |calls| - 1;
      var c := calls[n];
      if c.ResetCall? then 0.0
      else Correction(g, IntegralAfter(g, calls[..n]), c.drift, c.dtSec, c.peers, c.confidence).integral
  }

  /** What call k of a run outputs. */
  function OutcomeAt(g: Gains, calls: seq<Call>, k: nat): Outcome
    requires k < |calls|
  {
    var c := calls[k];
    if c.ResetCall? then Outcome(0.0, false)
    else Correction(g, IntegralAfter(g, calls[..k]), c.drift, c.dtSec, c.peers, c.confidence).outcome
  }

  lemma MulBound(k: real, x: real, b: real)
    requires 0.0 <= k && -b <= x <= b
    ensures -(k * b) <= k * x <= k * b
  {
    assert k * (b - x) >= 0.0 && k * (x + b) >= 0.0;
  }

  lemma {:induction false} IntegralBounded(g: Gains, calls: seq<Call>)
    requires Positive(g)
    ensures -g.clamp <= IntegralAfter(g, calls) <= g.clamp
  {
    if calls != [] {
      IntegralBounded(g, calls[..|calls| - 1]);
    }
  }

  lemma SumBound(g: Gains, x: real, y: real)
    requires Positive(g) && -g.threshold <= x <= g.threshold && -g.clamp <= y <= g.clamp
    ensures -(g.kp * g.threshold + g.ki * g.clamp) <= g.kp * x + g.ki * y <= g.kp * g.threshold + g.ki * g.clamp
  {
    MulBound(g.kp, x, g.threshold);
    MulBound(g.ki, y, g.clamp);
  }

  lemma CycleBounded(g: Gains, integral: real, drift: real, dtSec: real, peers: int, confidence: nat)
    requires Positive(g)
    ensures var bound := g.kp * g.threshold + g.ki * g.clamp;
            -bound <= Correction(g, integral, drift, dtSec, peers, confidence).outcome.correctionMs <= bound
  {
    var i := Clamp(integral + drift * dtSec, g.clamp);
    var out := Correction(g, integral, drift, dtSec, peers, confidence).outcome.correctionMs;
    assert out == 0.0 || (out == g.kp * drift + g.ki * i && -g.threshold <= drift <= g.threshold);
    SumBound(g, if -g.threshold <= drift <= g.threshold then drift else 0.0, i);
    SumBound(g, 0.0, 0.0);
  }

  /** Over any run of cycles and resets, every correction is bounded by the gains. */
  lemma CorrectionBounded(g: Gains, calls: seq<Call>, k: nat)
    requires Positive(g) && k < |calls|
    ensures var bound := g.kp * g.threshold + g.ki * g.clamp;
            -bound <= OutcomeAt(g, calls, k).correctionMs <= bound
  {
    SumBound(g, 0.0, 0.0);
    var c := calls[k];
    if c.Cycle? {
      CycleBounded(g, IntegralAfter(g, calls[..k]), c.drift, c.dtSec, c.peers, c.confidence);
    }
  }

  lemma CycleOdd(g: Gains, integral: real, drift: real, dtSec: real, peers: int, confidence: nat)
    requires Positive(g)
    ensures var r := Correction(g, integral, drift, dtSec, peers, confidence);
            && Correction(g, -integral, -drift, dtSec, peers, confidence)
               == Corrected(Outcome(-r.outcome.correctionMs, r.outcome.forceSnapshot), -r.integral)
  {
    var move := drift * dtSec;
    assert (-drift) * dtSec == -move;
    var i := Clamp(integral + move, g.clamp);
    assert Clamp(-integral - move, g.clamp) == -i;
    assert g.kp * (-drift) == -(g.kp * drift) && g.ki * (-i) == -(g.ki * i);
  }

  lemma {:induction false} IntegralOdd(g: Gains, calls: seq<Call>, mirror: seq<Call>)
    requires Positive(g) && |mirror| == |calls| && forall i | 0 <= i < |calls| :: mirror[i] == Negated(calls[i])
    ensures IntegralAfter(g, mirror) == -IntegralAfter(g, calls)
    decreases |calls|
  {
    if calls != [] {
      var n := |calls| - 1;
      var c := calls[n];
      IntegralOdd(g, calls[..n], mirror[..n]);
      if c.Cycle? {
        CycleOdd(g, IntegralAfter(g, calls[..n]), c.drift, c.dtSec, c.peers, c.confidence);
      }
    }
  }

  /** Negating every drift of a run negates every correction and changes no discontinuity. */
  lemma ControllerOdd(g: Gains, calls: seq<Call>, mirror: seq<Call>, k: nat)
    requires Positive(g) && k < |calls|
    requires |mirror| == |calls| && forall i | 0 <= i < |calls| :: mirror[i] == Negated(calls[i])
    ensures OutcomeAt(g, mirror, k).correctionMs == -OutcomeAt(g, calls, k).correctionMs
    ensures OutcomeAt(g, mirror, k).forceSnapshot == OutcomeAt(g, calls, k).forceSnapshot
  {
    IntegralOdd(g, calls[..k], mirror[..k]);
    var c := calls[k];
    if c.Cycle? {
      CycleOdd(g, IntegralAfter(g, calls[..k]), c.drift, c.dtSec, c.peers, c.confidence);
    }
  }

  // ---- what the integral is ----------------------------------------------------------------------

  /** The cycle has peers and confidence enough to act. */
  predicate Acts(c: Call)
  {
    c.Cycle? && c.peers >= 2 && c.confidence >= 30
  }

  /** Drift times time, summed over the calls. */
  function Accumulated(calls: seq<Call>): real
  {
    if calls == [] then 0.0
    else
      var c := calls[|calls| - 1];
      Accumulated(calls[..|calls| - 1]) + if Acts(c) then c.drift * c.dtSec else 0.0
  }

  /** No reset and no discontinuity, and the sum never leaves the clamp. */
  ghost predicate Gentle(g: Gains, calls: seq<Call>)
  {
    forall k | 0 <= k < |calls| ::
      && calls[k].Cycle? && (Acts(calls[k]) ==> -g.threshold <= calls[k].drift <= g.threshold)
      && -g.clamp <= Accumulated(calls[..k + 1]) <= g.clamp
  }

  lemma GentlePrefix(g: Gains, calls: seq<Call>, n: nat)
    requires n <= |calls| && Gentle(g, calls)
    ensures Gentle(g, calls[..n])
  {
    var p := calls[..n];
    forall k | 0 <= k < n
      ensures p[k] == calls[k] && Accumulated(p[..k + 1]) == Accumulated(calls[..k + 1])
    {
      assert p[..k + 1] == calls[..k + 1];
    }
  }

  /** Over a gentle run the integral is the sum of drift times time of the cycles that acted. */
  lemma {:induction false} IntegralAccumulates(g: Gains, calls: seq<Call>)
    requires Positive(g) && Gentle(g, calls)
    ensures IntegralAfter(g, calls) == Accumulated(calls)
    decreases |calls|
  {
    if calls != [] {
      var n := |calls| - 1;
      var c, i := calls[n], IntegralAfter(g, calls[..n]);
      assert i == Accumulated(calls[..n]) by {
        GentlePrefix(g, calls, n);
        IntegralAccumulates(g, calls[..n]);
      }
      if Acts(c) {
        assert -g.clamp <= Accumulated(calls) <= g.clamp by { assert calls[..n + 1] == calls; }
        GentleCycle(g, i, c, Accumulated(calls));
      }
    }
  }

  /** And each cycle that acted put out kp times its drift and ki times the sum so far. */
  lemma GentleOutcome(g: Gains, calls: seq<Call>, k: nat)
    requires Positive(g) && Gentle(g, calls) && k < |calls|
    ensures var r := OutcomeAt(g, calls, k);
            && !r.forceSnapshot
            && r.correctionMs ==
               if Acts(calls[k]) then g.kp * calls[k].drift + g.ki * Accumulated(calls[..k + 1]) else 0.0
  {
    var c, i, sum := calls[k], IntegralAfter(g, calls[..k]), Accumulated(calls[..k + 1]);
    assert i == Accumulated(calls[..k]) by {
      GentlePrefix(g, calls, k);
      IntegralAccumulates(g, calls[..k]);
    }
    assert sum == i + if Acts(c) then c.drift * c.dtSec else 0.0 by { assert calls[..k + 1][..k] == calls[..k]; }
    if Acts(c) {
      GentleCycle(g, i, c, sum);
    }
  }

  lemma GentleCycle(g: Gains, integral: real, c: Call, sum: real)
    requires Acts(c) && -g.threshold <= c.drift <= g.threshold && sum == integral + c.drift * c.dtSec
    requires -g.clamp <= sum <= g.clamp
    ensures Correction(g, integral, c.drift, c.dtSec, c.peers, c.confidence)
         == Corrected(Outcome(g.kp * c.drift + g.ki * sum, false), sum)
  {
    assert Clamp(integral + c.drift * c.dtSec, g.clamp) == sum;
  }

  /** A discontinuity is an acting cycle's drift beyond the threshold, either way; it clears the integral. */
  lemma DiscontinuityIff(g: Gains, calls: seq<Call>, k: nat)
    requires Positive(g) && k < |calls|
    ensures var r := OutcomeAt(g, calls, k);
            && (r.forceSnapshot <==> Acts(calls[k]) && (calls[k].drift > g.threshold || -calls[k].drift > g.threshold))
            && (r.forceSnapshot ==> r.correctionMs == 0.0 && IntegralAfter(g, calls[..k + 1]) == 0.0)
            && (calls[k].Cycle? && !Acts(calls[k]) ==>
                  r == Outcome(0.0, false) && IntegralAfter(g, calls[..k + 1]) == IntegralAfter(g, calls[..k]))
            && (calls[k].ResetCall? ==> IntegralAfter(g, calls[..k + 1]) == 0.0)
  {
    assert calls[..k + 1][..k] == calls[..k];
  }

  /** From one integral to the next, with what the cycle put out. */
  ghost predicate Follows(g: Gains, drift: real, dtSec: real, before: real, after: real, r: Outcome)
  {
    var sum := before + drift * dtSec;
    && -g.clamp <= after <= g.clamp
    && (r.forceSnapshot <==> drift > g.threshold || -drift > g.threshold)
    && (r.forceSnapshot ==> r.correctionMs == after == 0.0)
    && (!r.forceSnapshot ==>
          && r.correctionMs == g.kp * drift + g.ki * after
          && (sum > g.clamp ==> after == g.clamp)
          && (sum < -g.clamp ==> after == -g.clamp)
          && (-g.clamp <= sum <= g.clamp ==> after == sum))
  }

  lemma CycleFollows(g: Gains, before: real, c: Call)
    requires Acts(c) && Positive(g)
    ensures var r := Correction(g, before, c.drift, c.dtSec, c.peers, c.confidence);
            Follows(g, c.drift, c.dtSec, before, r.integral, r.outcome)
  {
  }

  /**
   * What an acting cycle of any run does under the configured numbers, each of them in force when positive: a drift
   * beyond the threshold either way is a discontinuity; otherwise the integral takes up drift times time as far as
   * the limit, and the correction is the two gains' share of the drift and of the integral.
   */
  lemma ConfiguredCycle(kp: real, ki: real, clamp: real, threshold: real, calls: seq<Call>, k: nat)
    requires k < |calls| && Acts(calls[k])
    ensures var g := MakeGains(kp, ki, clamp, threshold);
            && g.kp == (if kp > 0.0 then kp else 0.15)
            && g.ki == (if ki > 0.0 then ki else 0.02)
            && g.clamp == (if clamp > 0.0 then clamp else 200.0)
            && g.threshold == (if threshold > 0.0 then threshold else 2000.0)
            && Follows(g, calls[k].drift, calls[k].dtSec,
                       IntegralAfter(g, calls[..k]), IntegralAfter(g, calls[..k + 1]), OutcomeAt(g, calls, k))
  {
    var g := MakeGains(kp, ki, clamp, threshold);
    assert calls[..k + 1][..k] == calls[..k];
    CycleFollows(g, IntegralAfter(g, calls[..k]), calls[k]);
  }
}
