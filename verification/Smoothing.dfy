/**
 The smoothed delay and offset of a client in closed form: since the last re-initialisation, a weighted
 sum of the samples with weights 0.25, 0.25 * 0.75, 0.25 * 0.75 * 0.75, ... back from the newest, the
 first sample taking what is left.
 */
module Smoothing {
  import opened Heartbeats

  // ---- the samples, from the timestamps ----------------------------------------------------------

  /** Round trip of the exchange heartbeat i closes, less the server's part; never negative. */
  function RoundTrip(xs: seq<Exchange>, i: nat): int
    requires 1 <= i < |xs|
  {
    var d := (xs[i].t1 - xs[i - 1].t1) - (xs[i - 1].t3 - xs[i - 1].t2);
    if d < 0 then 0 else d
  }

  /** Twice the mean lead of the server's clock over the client's, out and back. */
  function TwiceLead(xs: seq<Exchange>, i: nat): int
    requires 1 <= i < |xs|
  {
    (xs[i - 1].t2 - xs[i - 1].t1) + (xs[i - 1].t3 - xs[i].t1)
  }

  lemma SamplesFromStamps(xs: seq<Exchange>, i: nat)
    requires 1 <= i < |xs|
    ensures DelayAt(xs, i) == RoundTrip(xs, i) as real && 2.0 * OffsetAt(xs, i) == TwiceLead(xs, i) as real
  {
    RecordBaseline(xs[..i]);
    assert xs[..i][i - 1] == xs[i - 1];
  }

  // ---- weighted sums -----------------------------------------------------------------------------

  function Power(k: nat): real
  {
    if k == 0 then 1.0 else 0.75 * Power(k - 1)
  }

  /** The weight of sample i among n. */
  function Weight(n: nat, i: nat): real
    requires i < n
  {
    if i == 0 then Power(n - 1) else 0.25 * Power(n - 1 - i)
  }

  function Partial(ds: seq<real>, n: nat, k: nat): real
    requires k <= |ds| && k <= n
  {
    if k == 0 then 0.0 else Partial(ds, n, k - 1) + Weight(n, k - 1) * ds[k - 1]
  }

  function WeightedSum(ds: seq<real>): real
  {
    Partial(ds, |ds|, |ds|)
  }

  /** One more sample scales every earlier weight by 0.75. */
  lemma {:induction false} PartialScales(ds: seq<real>, d: real, n: nat, k: nat)
    requires k <= |ds| && k <= n && n >= 1
    ensures Partial(ds + [d], n + 1, k) == 0.75 * Partial(ds, n, k)
    decreases k
  {
    if k > 0 {
      PartialScales(ds, d, n, k - 1);
      assert Weight(n + 1, k - 1) == 0.75 * Weight(n, k - 1);
      assert (ds + [d])[k - 1] == ds[k - 1];
      Distribute(Partial(ds, n, k - 1), Weight(n, k - 1), ds[k - 1]);
    }
  }

  lemma Distribute(p: real, w: real, x: real)
    ensures 0.75 * p + (0.75 * w) * x == 0.75 * (p + w * x)
  {
  }

  lemma SumStep(ds: seq<real>, d: real)
    requires ds != []
    ensures WeightedSum(ds + [d]) == 0.75 * WeightedSum(ds) + 0.25 * d
  {
    PartialScales(ds, d, |ds|, |ds|);
    assert Weight(|ds| + 1, |ds|) == 0.25;
  }

  lemma SumOfOne(d: real)
    ensures WeightedSum([d]) == d
  {
    assert Partial([d], 1, 0) == 0.0 && Weight(1, 0) == 1.0;
  }

  // ---- the closed form ---------------------------------------------------------------------------

  /** Heartbeat m took its sample as it was and every later one was smoothed in. */
  ghost predicate Since(xs: seq<Exchange>, m: nat)
  {
    1 <= m < |xs| && Record(xs[..m]).rtt == 0.0 && forall i | m < i < |xs| :: Record(xs[..i]).rtt != 0.0
  }

  function Delays(xs: seq<Exchange>, m: nat): seq<real>
    requires 1 <= m <= |xs|
  {
    seq(|xs| - m, i requires 0 <= i < |xs| - m => RoundTrip(xs, m + i) as real)
  }

  function Offsets(xs: seq<Exchange>, m: nat): seq<real>
    requires 1 <= m <= |xs|
  {
    seq(|xs| - m, i requires 0 <= i < |xs| - m => TwiceLead(xs, m + i) as real / 2.0)
  }

  lemma SamplesSnoc(xs: seq<Exchange>, m: nat)
    requires 1 <= m < |xs|
    ensures var n := |xs| - 1;
            && Delays(xs, m) == Delays(xs[..n], m) + [RoundTrip(xs, n) as real]
            && Offsets(xs, m) == Offsets(xs[..n], m) + [TwiceLead(xs, n) as real / 2.0]
  {
    var n := |xs| - 1;
    var p := xs[..n];
    forall i | 0 <= i < n - m
      ensures Delays(xs, m)[i] == Delays(p, m)[i] && Offsets(xs, m)[i] == Offsets(p, m)[i]
    {
      assert RoundTrip(xs, m + i) == RoundTrip(p, m + i) && TwiceLead(xs, m + i) == TwiceLead(p, m + i);
    }
    assert m + (n - m) == n;
    assert Delays(xs, m)[n - m] == RoundTrip(xs, n) as real && Offsets(xs, m)[n - m] == TwiceLead(xs, n) as real / 2.0;
  }

  /** What the last heartbeat does, with the weights written out. */
  lemma LastSample(xs: seq<Exchange>)
    requires |xs| >= 2
    ensures var n := |xs| - 1;
            var b, f := Record(xs[..n]), Record(xs);
            var d, o := RoundTrip(xs, n) as real, TwiceLead(xs, n) as real / 2.0;
            if b.rtt == 0.0 then f.rtt == d && f.offset == o
            else f.rtt == 0.75 * b.rtt + 0.25 * d && f.offset == 0.75 * b.offset + 0.25 * o
  {
    var n := |xs| - 1;
    RecordBaseline(xs[..n]);
    SamplesFromStamps(xs, n);
  }

  /**
   After every run of heartbeats both smoothed values are the weighted sums of the samples since the
   last re-initialisation.
   */
  lemma {:induction false} SmoothedIsWeightedSum(xs: seq<Exchange>, m: nat)
    requires Since(xs, m)
    ensures Record(xs).rtt == WeightedSum(Delays(xs, m)) && Record(xs).offset == WeightedSum(Offsets(xs, m))
    decreases |xs|
  {
    var n := |xs| - 1;
    LastSample(xs);
    SamplesSnoc(xs, m);
    if n == m {
      assert Delays(xs[..n], m) == [] && Offsets(xs[..n], m) == [];
      SumOfOne(RoundTrip(xs, n) as real);
      SumOfOne(TwiceLead(xs, n) as real / 2.0);
      assert Delays(xs, m) == [RoundTrip(xs, n) as real] && Offsets(xs, m) == [TwiceLead(xs, n) as real / 2.0];
    } else {
      var p := xs[..n];
      assert forall i | m <= i < n :: p[..i] == xs[..i];
      SmoothedIsWeightedSum(p, m);
      SumStep(Delays(p, m), RoundTrip(xs, n) as real);
      SumStep(Offsets(p, m), TwiceLead(xs, n) as real / 2.0);
    }
  }

  lemma FirstHasNoDelay(xs: seq<Exchange>)
    requires xs != []
    ensures |xs| == 1 ==> Record(xs).rtt == 0.0
  {
    assert |xs| == 1 ==> xs[..0] == [];
  }

  /** Every run of two or more heartbeats has such a last re-initialisation. */
  lemma {:induction false} LastReset(xs: seq<Exchange>) returns (m: nat)
    requires |xs| >= 2
    ensures Since(xs, m)
    decreases |xs|
  {
    var n := |xs| - 1;
    var p := xs[..n];
    assert n == 1 ==> Record(p).rtt == 0.0 by { FirstHasNoDelay(p); }
    if Record(p).rtt == 0.0 {
      m := n;
    } else {
      m := LastReset(p);
      assert forall i | m <= i < n :: p[..i] == xs[..i];
    }
  }
}
