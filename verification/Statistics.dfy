/**
 Room-wide statistics over heartbeat records: the insertion-sorted median, the largest absolute
 value, the confidence score, and the snapshot fields built from them. The records live in a map,
 so every statistic is shown not to depend on the order in which the map is walked.
 */
module Statistics {
  import opened SyncStates
  import opened Heartbeats

  predicate Sorted(s: seq<real>)
  {
    forall i, j | 0 <= i < j < |s| :: s[i] <= s[j]
  }

  // ---- the sorted rearrangement, as a specification ----------------------------------------------

  function Insert(x: real, s: seq<real>): seq<real>
  {
    if s == [] || x <= s[0] then [x] + s else [s[0]] + Insert(x, s[1..])
  }

  function Sort(s: seq<real>): seq<real>
  {
    if s == [] then [] else Insert(s[0], Sort(s[1..]))
  }

  lemma {:induction false} InsertRearranges(x: real, s: seq<real>)
    ensures multiset(Insert(x, s)) == multiset(s) + multiset{x}
    decreases |s|
  {
    if s != [] && !(x <= s[0]) {
      InsertRearranges(x, s[1..]);
      assert s == [s[0]] + s[1..];
    }
  }

  lemma {:induction false} InsertBounded(x: real, s: seq<real>, lo: real)
    requires lo <= x && forall k | 0 <= k < |s| :: lo <= s[k]
    ensures forall k | 0 <= k < |Insert(x, s)| :: lo <= Insert(x, s)[k]
    decreases |s|
  {
    if s != [] && !(x <= s[0]) {
      InsertBounded(x, s[1..], lo);
    }
  }

  lemma {:induction false} InsertKeepsSorted(x: real, s: seq<real>)
    requires Sorted(s)
    ensures Sorted(Insert(x, s))
    decreases |s|
  {
    if s != [] && !(x <= s[0]) {
      InsertKeepsSorted(x, s[1..]);
      InsertBounded(x, s[1..], s[0]);
    }
  }

  lemma {:induction false} SortIsSorted(s: seq<real>)
    ensures Sorted(Sort(s))
    decreases |s|
  {
    if s != [] {
      SortIsSorted(s[1..]);
      InsertKeepsSorted(s[0], Sort(s[1..]));
    }
  }

  lemma {:induction false} SortRearranges(s: seq<real>)
    ensures multiset(Sort(s)) == multiset(s)
    decreases |s|
  {
    if s != [] {
      SortRearranges(s[1..]);
      InsertRearranges(s[0], Sort(s[1..]));
      assert s == [s[0]] + s[1..];
    }
  }

  lemma SortSorts(s: seq<real>)
    ensures Sorted(Sort(s)) && multiset(Sort(s)) == multiset(s) && |Sort(s)| == |s|
  {
    SortIsSorted(s);
    SortRearranges(s);
    assert |multiset(Sort(s))| == |multiset(s)|;
  }

  lemma TailOfMultiset(s: seq<real>)
    requires s != []
    ensures multiset(s[1..]) == multiset(s) - multiset{s[0]}
  {
    assert s == [s[0]] + s[1..];
  }

  lemma SortedHeads(s: seq<real>, t: seq<real>)
    requires Sorted(s) && Sorted(t) && multiset(s) == multiset(t) && s != [] && t != []
    ensures s[0] == t[0]
  {
    assert s[0] in multiset(t) && t[0] in multiset(s);
    var i :| 0 <= i < |t| && t[i] == s[0];
    var j :| 0 <= j < |s| && s[j] == t[0];
  }

  /** A multiset has one sorted arrangement. */
  lemma {:induction false} SortedUnique(s: seq<real>, t: seq<real>)
    requires Sorted(s) && Sorted(t) && multiset(s) == multiset(t)
    ensures s == t
    decreases |s|
  {
    assert |s| == |multiset(s)| == |multiset(t)| == |t|;
    if s != [] {
      SortedHeads(s, t);
      TailOfMultiset(s);
      TailOfMultiset(t);
      SortedUnique(s[1..], t[1..]);
      assert s == [s[0]] + s[1..] && t == [t[0]] + t[1..];
    }
  }

  lemma SortIgnoresOrder(s: seq<real>, t: seq<real>)
    requires multiset(s) == multiset(t)
    ensures Sort(s) == Sort(t)
  {
    SortSorts(s);
    SortSorts(t);
    SortedUnique(Sort(s), Sort(t));
  }

  // ---- insertion sort and the median -------------------------------------------------------------

  /** The element at i taken out and put back at p, the ones between shifted up. */
  function MovedDown(s: seq<real>, p: nat, i: nat): seq<real>
    requires p <= i < |s|
  {
    s[..p] + [s[i]] + s[p..i] + s[i + 1..]
  }

  lemma MovedDownIsPermutation(s: seq<real>, p: nat, i: nat)
    requires p <= i < |s|
    ensures multiset(MovedDown(s, p, i)) == multiset(s)
  {
    assert s == s[..p] + s[p..i] + [s[i]] + s[i + 1..];
    calc {
      multiset(MovedDown(s, p, i));
      multiset(s[..p]) + multiset{s[i]} + multiset(s[p..i]) + multiset(s[i + 1..]);
      multiset(s[..p] + s[p..i] + [s[i]] + s[i + 1..]);
      multiset(s);
    }
  }

  lemma MovedDownExtendsSorted(s: seq<real>, p: nat, i: nat)
    requires p <= i < |s| && Sorted(s[..i])
    requires p > 0 ==> s[p - 1] <= s[i]
    requires forall k | p <= k < i :: s[i] < s[k]
    ensures Sorted(MovedDown(s, p, i)[..i + 1])
  {
    var t := MovedDown(s, p, i);
    assert forall k | 0 <= k < i :: s[..i][k] == s[k];
    assert t[..i + 1] == s[..p] + [s[i]] + s[p..i];
  }

  lemma IsMovedDown(s: seq<real>, t: seq<real>, p: nat, i: nat)
    requires p <= i < |s| == |t| && t[p] == s[i]
    requires forall k | 0 <= k < p :: t[k] == s[k]
    requires forall k | p < k <= i :: t[k] == s[k - 1]
    requires forall k | i < k < |s| :: t[k] == s[k]
    ensures t == MovedDown(s, p, i)
  {
  }

  /** The inner loop: shift the larger elements up and drop the key into the gap. */
  method PlaceKey(a: array<real>, i: nat) returns (ghost p: nat)
    requires i < a.Length
    modifies a
    ensures p <= i && a[..] == MovedDown(old(a[..]), p, i)
    ensures p > 0 ==> old(a[p - 1]) <= old(a[i])
    ensures forall k | p <= k < i :: old(a[i]) < old(a[k])
  {
    ghost var s := a[..];
    var key := a[i];
    var j := i - 1;
    while j >= 0 && a[j] > key
      invariant -1 <= j < i
      invariant forall k | 0 <= k <= j :: a[k] == s[k]
      invariant forall k | j + 2 <= k <= i :: a[k] == s[k - 1]
      invariant forall k | j < k < i :: s[k] > key
      invariant forall k | i < k < a.Length :: a[k] == s[k]
    {
      a[j + 1] := a[j];
      j := j - 1;
    }
    a[j + 1] := key;
    p := j + 1;
    IsMovedDown(s, a[..], p, i);
  }

  method InsertionSort(a: array<real>)
    modifies a
    ensures Sorted(a[..])
    ensures multiset(a[..]) == multiset(old(a[..]))
  {
    var i := 1;
    while i < a.Length
      invariant 1 <= i && (a.Length > 0 ==> i <= a.Length && Sorted(a[..i]))
      invariant multiset(a[..]) == multiset(old(a[..]))
    {
      ghost var s := a[..];
      ghost var p := PlaceKey(a, i);
      MovedDownIsPermutation(s, p, i);
      MovedDownExtendsSorted(s, p, i);
      i := i + 1;
    }
    assert a.Length > 0 ==> a[..i] == a[..];
  }

  function Middle(s: seq<real>): real
    requires s != []
  {
    var mid := |s| / 2;
    if |s| % 2 == 0 then (s[mid - 1] + s[mid]) / 2.0 else s[mid]
  }

  function Median(vals: seq<real>): real
  {
    if vals == [] then 0.0
    else
      SortSorts(vals);
      Middle(Sort(vals))
  }

  method MiddleOf(sorted: array<real>) returns (m: real)
    requires sorted.Length > 0
    ensures m == Middle(sorted[..])
  {
    var mid := sorted.Length / 2;
    if sorted.Length % 2 == 0 {
      return (sorted[mid - 1] + sorted[mid]) / 2.0;
    }
    return sorted[mid];
  }

  method MedianFloats(vals: seq<real>) returns (m: real)
    ensures m == Median(vals)
  {
    if |vals| == 0 {
      return 0.0;
    }
    var sorted := new real[|vals|](i requires 0 <= i < |vals| => vals[i]);
    assert sorted[..] == vals;
    InsertionSort(sorted);
    SortSorts(vals);
    SortedUnique(sorted[..], Sort(vals));
    m := MiddleOf(sorted);
  }

  function CountAtMost(s: seq<real>, m: real): nat
  {
    if s == [] then 0 else (if s[0] <= m then 1 else 0) + CountAtMost(s[1..], m)
  }

  function CountAtLeast(s: seq<real>, m: real): nat
  {
    if s == [] then 0 else (if s[0] >= m then 1 else 0) + CountAtLeast(s[1..], m)
  }

  lemma {:induction false} InsertCounts(x: real, s: seq<real>, m: real)
    ensures CountAtMost(Insert(x, s), m) == CountAtMost([x] + s, m)
    ensures CountAtLeast(Insert(x, s), m) == CountAtLeast([x] + s, m)
    decreases |s|
  {
    if s != [] && !(x <= s[0]) {
      InsertCounts(x, s[1..], m);
      assert ([x] + s)[1..] == s && ([x] + s[1..])[1..] == s[1..];
      assert ([s[0]] + Insert(x, s[1..]))[1..] == Insert(x, s[1..]);
    }
  }

  lemma {:induction false} SortCounts(s: seq<real>, m: real)
    ensures CountAtMost(Sort(s), m) == CountAtMost(s, m)
    ensures CountAtLeast(Sort(s), m) == CountAtLeast(s, m)
    decreases |s|
  {
    if s != [] {
      SortCounts(s[1..], m);
      InsertCounts(s[0], Sort(s[1..]), m);
      assert ([s[0]] + Sort(s[1..]))[1..] == Sort(s[1..]);
    }
  }

  lemma {:induction false} PrefixAtMost(s: seq<real>, k: nat, m: real)
    requires k <= |s| && forall i | 0 <= i < k :: s[i] <= m
    ensures CountAtMost(s, m) >= k
    decreases k
  {
    if k > 0 {
      PrefixAtMost(s[1..], k - 1, m);
    }
  }

  lemma {:induction false} SuffixAtLeast(s: seq<real>, k: nat, m: real)
    requires k <= |s| && forall i | k <= i < |s| :: s[i] >= m
    ensures CountAtLeast(s, m) >= |s| - k
    decreases |s|
  {
    if s != [] {
      SuffixAtLeast(s[1..], if k == 0 then 0 else k - 1, m);
    }
  }

  lemma MiddleSplits(s: seq<real>)
    requires s != [] && Sorted(s)
    ensures 2 * CountAtMost(s, Middle(s)) >= |s|
    ensures 2 * CountAtLeast(s, Middle(s)) >= |s|
  {
    var mid, m := |s| / 2, Middle(s);
    if |s| % 2 == 0 {
      assert s[mid - 1] <= m <= s[mid];
      PrefixAtMost(s, mid, m);
    } else {
      PrefixAtMost(s, mid + 1, m);
    }
    SuffixAtLeast(s, mid, m);
  }

  /** The computed value is a median: half the values are at most it and half at least it. */
  lemma MedianSplitsInHalf(vals: seq<real>)
    requires vals != []
    ensures 2 * CountAtMost(vals, Median(vals)) >= |vals|
    ensures 2 * CountAtLeast(vals, Median(vals)) >= |vals|
  {
    SortSorts(vals);
    MiddleSplits(Sort(vals));
    SortCounts(vals, Median(vals));
  }

  // ---- the largest absolute value ----------------------------------------------------------------

  function Abs(x: real): real
  {
    if x < 0.0 then -x else x
  }

  ghost predicate IsMaxAbs(vals: seq<real>, m: real)
  {
    if vals == [] then m == 0.0
    else (exists v | v in vals :: m == Abs(v)) && (forall v | v in vals :: Abs(v) <= m)
  }

  method MaxAbsFloats(vals: seq<real>) returns (m: real)
    ensures IsMaxAbs(vals, m)
  {
    if |vals| == 0 {
      return 0.0;
    }
    m := Abs(vals[0]);
    for i := 1 to |vals|
      invariant exists v | v in vals :: m == Abs(v)
      invariant forall j | 0 <= j < i :: Abs(vals[j]) <= m
    {
      if Abs(vals[i]) > m {
        m := Abs(vals[i]);
      }
    }
  }

  function MaxAbs(vals: seq<real>): (m: real)
    ensures IsMaxAbs(vals, m)
  {
    if vals == [] then 0.0
    else
      assert forall v | v in vals :: v == vals[0] || v in vals[1..];
      var rest := MaxAbs(vals[1..]);
      if Abs(vals[0]) > rest then Abs(vals[0])
      else
        assert rest == 0.0 ==> Abs(vals[0]) == rest;
        rest
  }

  // ---- confidence --------------------------------------------------------------------------------

  function Sum(s: seq<real>): real
  {
    if s == [] then 0.0 else s[0] + Sum(s[1..])
  }

  function SumSq(s: seq<real>): real
  {
    if s == [] then 0.0 else s[0] * s[0] + SumSq(s[1..])
  }

  function Variance(s: seq<real>): real
    requires s != []
  {
    var n := |s| as real;
    SumSq(s) / n - (Sum(s) / n) * (Sum(s) / n)
  }

  /** 20 points a peer up to 100, halved when the delays vary; the product is a 32-bit one. */
  function Confidence(peers: nat, rtts: seq<real>): (c: nat)
    ensures c <= 100
  {
    if peers == 0 then 0
    else
      var raw := peers * 20 % 0x1_0000_0000;
      var c := if raw > 100 then 100 else raw;
      if |rtts| > 1 && Variance(rtts) > 1000.0 then c / 2 else c
  }

  lemma {:induction false} SumSnoc(s: seq<real>, x: real)
    ensures Sum(s + [x]) == Sum(s) + x
    ensures SumSq(s + [x]) == SumSq(s) + x * x
    decreases |s|
  {
    if s == [] {
      assert s + [x] == [x];
    } else {
      assert (s + [x])[1..] == s[1..] + [x];
      SumSnoc(s[1..], x);
    }
  }

  method ComputeConfidence(activePeers: nat, rtts: seq<real>) returns (c: nat)
    ensures c == Confidence(activePeers, rtts)
  {
    if activePeers == 0 {
      return 0;
    }
    c := activePeers * 20 % 0x1_0000_0000;
    if c > 100 {
      c := 100;
    }
    if |rtts| > 1 {
      var sum, sumSq := 0.0, 0.0;
      for i := 0 to |rtts|
        invariant sum == Sum(rtts[..i]) && sumSq == SumSq(rtts[..i])
      {
        SumSnoc(rtts[..i], rtts[i]);
        assert rtts[..i + 1] == rtts[..i] + [rtts[i]];
        sum := sum + rtts[i];
        sumSq := sumSq + rtts[i] * rtts[i];
      }
      assert rtts[..|rtts|] == rtts;
      var mean := sum / |rtts| as real;
      var variance := sumSq / |rtts| as real - mean * mean;
      if variance > 1000.0 {
        c := c / 2;
      }
    }
  }

  lemma {:induction false} InsertSums(x: real, s: seq<real>)
    ensures Sum(Insert(x, s)) == x + Sum(s)
    ensures SumSq(Insert(x, s)) == x * x + SumSq(s)
    decreases |s|
  {
    if s == [] || x <= s[0] {
      assert ([x] + s)[1..] == s;
    } else {
      InsertSums(x, s[1..]);
      assert ([s[0]] + Insert(x, s[1..]))[1..] == Insert(x, s[1..]);
    }
  }

  lemma {:induction false} SortSums(s: seq<real>)
    ensures Sum(Sort(s)) == Sum(s) && SumSq(Sort(s)) == SumSq(s)
    decreases |s|
  {
    if s != [] {
      SortSums(s[1..]);
      InsertSums(s[0], Sort(s[1..]));
    }
  }

  lemma ConfidenceIgnoresOrder(s: seq<real>, t: seq<real>, peers: nat)
    requires multiset(s) == multiset(t)
    ensures Confidence(peers, s) == Confidence(peers, t)
  {
    assert |s| == |multiset(s)| == |multiset(t)| == |t|;
    assert Sum(s) == Sum(t) && SumSq(s) == SumSq(t) by {
      SortIgnoresOrder(s, t);
      SortSums(s);
      SortSums(t);
    }
  }

  lemma MaxAbsIgnoresOrder(s: seq<real>, t: seq<real>)
    requires multiset(s) == multiset(t)
    ensures MaxAbs(s) == MaxAbs(t)
  {
    assert |s| == |multiset(s)| == |multiset(t)| == |t|;
    forall v
      ensures v in s <==> v in t
    {
      assert v in s <==> v in multiset(s);
    }
  }

  /** Every statistic of a list of values is a statistic of their multiset. */
  lemma StatisticsIgnoreOrder(s: seq<real>, t: seq<real>, peers: nat)
    requires multiset(s) == multiset(t)
    ensures Median(s) == Median(t)
    ensures MaxAbs(s) == MaxAbs(t)
    ensures Confidence(peers, s) == Confidence(peers, t)
  {
    assert |s| == |multiset(s)| == |multiset(t)| == |t|;
    SortIgnoresOrder(s, t);
    MaxAbsIgnoresOrder(s, t);
    ConfidenceIgnoresOrder(s, t, peers);
  }

  // ---- snapshot statistics -----------------------------------------------------------------------

  const MAX_INT32 := 0x7fff_ffff

  /** Conversion to a 32-bit integer that saturates instead of wrapping around. */
  function ClampInt32(v: real): (r: int)
    ensures -MAX_INT32 <= r <= MAX_INT32
    ensures v > MAX_INT32 as real ==> r == MAX_INT32
    ensures v < -(MAX_INT32 as real) ==> r == -MAX_INT32
    ensures 0.0 <= v <= MAX_INT32 as real ==> r as real <= v < (r + 1) as real
    ensures -(MAX_INT32 as real) <= v <= 0.0 ==> (r - 1) as real < v <= r as real
  {
    if v > MAX_INT32 as real then MAX_INT32
    else if v < -(MAX_INT32 as real) then -MAX_INT32
    else Trunc(v)
  }

  datatype Stats = Stats(driftEstimateMs: int, confidence: nat, activePeers: nat, medianRttMs: int)

  /** A walk of the map: each key once. */
  ghost predicate Enumerates(order: seq<string>, keys: set<string>)
  {
    && (forall i, j | 0 <= i < j < |order| :: order[i] != order[j])
    && (forall u :: u in order <==> u in keys)
  }

  lemma EnumeratesOneMore(order: seq<string>, keys: set<string>, u: string)
    requires Enumerates(order, keys) && u !in keys
    ensures Enumerates(order + [u], keys + {u})
  {
  }

  /** What one record contributes, for a kind of measurement. */
  datatype Measure = Peers | Drifts | Delays

  function Contribution(b: Beat, what: Measure, now: int, timeout: int): seq<real>
  {
    if !IsAlive(b, now, timeout) then []
    else match what
      case Peers => [1.0]
      case Drifts => if b.rtt > 0.0 then [b.drift] else []
      case Delays => if b.rtt > 0.0 then [b.rtt] else []
  }

  function Flatten(parts: seq<seq<real>>): seq<real>
  {
    if parts == [] then [] else Flatten(parts[..|parts| - 1]) + parts[|parts| - 1]
  }

  function Parts(beats: map<string, Beat>, order: seq<string>, what: Measure, now: int, timeout: int): seq<seq<real>>
    requires forall u | u in order :: u in beats
  {
    seq(|order|, i requires 0 <= i < |order| => Contribution(beats[order[i]], what, now, timeout))
  }

  /** The measurements of one kind, in the order the map is walked in. */
  function Collect(beats: map<string, Beat>, order: seq<string>, what: Measure, now: int, timeout: int): seq<real>
    requires forall u | u in order :: u in beats
  {
    Flatten(Parts(beats, order, what, now, timeout))
  }

  function StatsOf(beats: map<string, Beat>, order: seq<string>, now: int, timeout: int): Stats
    requires forall u | u in order :: u in beats
  {
    var drifts := Collect(beats, order, Drifts, now, timeout);
    var rtts := Collect(beats, order, Delays, now, timeout);
    var active := |Collect(beats, order, Peers, now, timeout)|;
    Stats(ClampInt32(MaxAbs(drifts)), Confidence(active, rtts), active, ClampInt32(Median(rtts)))
  }

  lemma FlattenAppend(parts: seq<seq<real>>, part: seq<real>)
    ensures Flatten(parts + [part]) == Flatten(parts) + part
  {
    assert (parts + [part])[..|parts|] == parts;
  }

  lemma {:induction false} FlattenSplits(a: seq<seq<real>>, b: seq<seq<real>>)
    ensures Flatten(a + b) == Flatten(a) + Flatten(b)
    decreases |b|
  {
    if b == [] {
      assert a + b == a;
    } else {
      var n := |b| - 1;
      assert a + b == (a + b[..n]) + [b[n]];
      FlattenAppend(a + b[..n], b[n]);
      FlattenSplits(a, b[..n]);
    }
  }

  lemma CollectOneMore(beats: map<string, Beat>, order: seq<string>, u: string, what: Measure, now: int, timeout: int)
    requires u in beats && forall v | v in order :: v in beats
    ensures forall v | v in order + [u] :: v in beats
    ensures Collect(beats, order + [u], what, now, timeout)
         == Collect(beats, order, what, now, timeout) + Contribution(beats[u], what, now, timeout)
  {
    var parts, part := Parts(beats, order, what, now, timeout), Contribution(beats[u], what, now, timeout);
    assert Parts(beats, order + [u], what, now, timeout) == parts + [part];
    FlattenAppend(parts, part);
  }

  lemma WithoutOne(a: seq<string>, n: nat, b: seq<string>, k: nat)
    requires n < |a| && k < |b| && a[n] == b[k] && multiset(a) == multiset(b)
    ensures multiset(a[..n] + a[n + 1..]) == multiset(b[..k] + b[k + 1..])
  {
    assert a == a[..n] + [a[n]] + a[n + 1..];
    assert b == b[..k] + [b[k]] + b[k + 1..];
    calc {
      multiset(a[..n] + a[n + 1..]);
      multiset(a) - multiset{a[n]};
      multiset(b) - multiset{b[k]};
      multiset(b[..k] + b[k + 1..]);
    }
  }

  lemma FlattenPullsOut(l: seq<seq<real>>, part: seq<real>, r: seq<seq<real>>)
    ensures multiset(Flatten(l + [part] + r)) == multiset(Flatten(l + r)) + multiset(part)
  {
    FlattenSplits(l, r);
    FlattenSplits(l + [part], r);
    FlattenAppend(l, part);
  }

  lemma CollectPullsOut(beats: map<string, Beat>, l: seq<string>, x: string, r: seq<string>, what: Measure,
                        now: int, timeout: int)
    requires x in beats && (forall u | u in l || u in r :: u in beats)
    ensures multiset(Collect(beats, l + [x] + r, what, now, timeout))
         == multiset(Collect(beats, l + r, what, now, timeout)) + multiset(Contribution(beats[x], what, now, timeout))
  {
    var pl, pr := Parts(beats, l, what, now, timeout), Parts(beats, r, what, now, timeout);
    var part := Contribution(beats[x], what, now, timeout);
    assert Parts(beats, l + r, what, now, timeout) == pl + pr;
    assert Parts(beats, l + [x] + r, what, now, timeout) == pl + [part] + pr;
    FlattenPullsOut(pl, part, pr);
  }

  lemma CollectBoth(beats: map<string, Beat>, a: seq<string>, x: string, l: seq<string>, r: seq<string>,
                    what: Measure, now: int, timeout: int)
    requires x in beats && forall u | u in a || u in l || u in r :: u in beats
    requires multiset(Collect(beats, a, what, now, timeout)) == multiset(Collect(beats, l + r, what, now, timeout))
    ensures multiset(Collect(beats, a + [x], what, now, timeout))
         == multiset(Collect(beats, l + [x] + r, what, now, timeout))
  {
    CollectOneMore(beats, a, x, what, now, timeout);
    CollectPullsOut(beats, l, x, r, what, now, timeout);
  }

  /** Two walks that are rearrangements of each other collect rearranged values. */
  lemma {:induction false} CollectIgnoresOrder(beats: map<string, Beat>, a: seq<string>, b: seq<string>, what: Measure,
                                               now: int, timeout: int)
    requires forall u | u in a || u in b :: u in beats
    requires multiset(a) == multiset(b)
    ensures multiset(Collect(beats, a, what, now, timeout)) == multiset(Collect(beats, b, what, now, timeout))
    decreases |a|
  {
    if a == [] {
      assert |multiset(b)| == 0;
    } else {
      var n := |a| - 1;
      var k := LastElsewhere(a, b);
      assert a == a[..n] + [a[n]];
      CollectIgnoresOrder(beats, a[..n], b[..k] + b[k + 1..], what, now, timeout);
      CollectBoth(beats, a[..n], a[n], b[..k], b[k + 1..], what, now, timeout);
    }
  }

  /** Where a rearrangement has the last element, and that the rests are rearrangements too. */
  lemma LastElsewhere(a: seq<string>, b: seq<string>) returns (k: nat)
    requires a != [] && multiset(a) == multiset(b)
    ensures k < |b| && b == b[..k] + [a[|a| - 1]] + b[k + 1..]
    ensures multiset(a[..|a| - 1]) == multiset(b[..k] + b[k + 1..])
  {
    var n := |a| - 1;
    assert a[n] in multiset(b);
    k :| 0 <= k < |b| && b[k] == a[n];
    WithoutOne(a, n, b, k);
    assert a[..n] + a[n + 1..] == a[..n];
  }

  lemma {:induction false} DistinctOccurOnce(a: seq<string>)
    requires forall i, j | 0 <= i < j < |a| :: a[i] != a[j]
    ensures forall u :: multiset(a)[u] == if u in a then 1 else 0
    decreases |a|
  {
    if a != [] {
      var n := |a| - 1;
      DistinctOccurOnce(a[..n]);
      assert a == a[..n] + [a[n]];
    }
  }

  lemma EnumerationsArePermutations(a: seq<string>, b: seq<string>, keys: set<string>)
    requires Enumerates(a, keys) && Enumerates(b, keys)
    ensures multiset(a) == multiset(b)
  {
    DistinctOccurOnce(a);
    DistinctOccurOnce(b);
  }

  /** The snapshot's statistics are a function of the heartbeat map, whatever order it is walked in. */
  lemma SnapshotStatsIgnoreOrder(beats: map<string, Beat>, a: seq<string>, b: seq<string>, now: int, timeout: int)
    requires Enumerates(a, beats.Keys) && Enumerates(b, beats.Keys)
    ensures StatsOf(beats, a, now, timeout) == StatsOf(beats, b, now, timeout)
  {
    EnumerationsArePermutations(a, b, beats.Keys);
    CollectIgnoresOrder(beats, a, b, Peers, now, timeout);
    CollectIgnoresOrder(beats, a, b, Drifts, now, timeout);
    CollectIgnoresOrder(beats, a, b, Delays, now, timeout);
    var pa, pb := Collect(beats, a, Peers, now, timeout), Collect(beats, b, Peers, now, timeout);
    assert |pa| == |multiset(pa)| == |multiset(pb)| == |pb|;
    var ra, rb := Collect(beats, a, Delays, now, timeout), Collect(beats, b, Delays, now, timeout);
    StatisticsIgnoreOrder(Collect(beats, a, Drifts, now, timeout), Collect(beats, b, Drifts, now, timeout), 0);
    StatisticsIgnoreOrder(ra, rb, |pa|);
  }

  /** The walk that builds a snapshot's statistics, in whatever order the map yields its keys. */
  method BuildStats(beats: map<string, Beat>, now: int, timeout: int) returns (stats: Stats, ghost order: seq<string>)
    ensures Enumerates(order, beats.Keys)
    ensures stats == StatsOf(beats, order, now, timeout)
  {
    var drifts, rtts, active;
    drifts, rtts, active, order := CollectMeasurements(beats, now, timeout);
    var maxDrift := MaxAbsFloats(drifts);
    assert maxDrift == MaxAbs(drifts);
    var confidence := ComputeConfidence(active, rtts);
    var medianRtt := MedianFloats(rtts);
    stats := Stats(ClampInt32(maxDrift), confidence, active, ClampInt32(medianRtt));
  }

  /** The walk itself: the measurements of the live peers, in the order the map yields them. */
  method CollectMeasurements(beats: map<string, Beat>, now: int, timeout: int)
    returns (drifts: seq<real>, rtts: seq<real>, active: nat, ghost order: seq<string>)
    ensures Enumerates(order, beats.Keys)
    ensures drifts == Collect(beats, order, Drifts, now, timeout)
    ensures rtts == Collect(beats, order, Delays, now, timeout)
    ensures active == |Collect(beats, order, Peers, now, timeout)|
  {
    drifts, rtts, active, order := [], [], 0, [];
    var rest := beats.Keys;
    while rest != {}
      invariant rest <= beats.Keys && Enumerates(order, beats.Keys - rest)
      invariant drifts == Collect(beats, order, Drifts, now, timeout)
      invariant rtts == Collect(beats, order, Delays, now, timeout)
      invariant active == |Collect(beats, order, Peers, now, timeout)|
      decreases |rest|
    {
      var u :| u in rest;
      assert u !in order;
      CollectOneMore(beats, order, u, Drifts, now, timeout);
      CollectOneMore(beats, order, u, Delays, now, timeout);
      CollectOneMore(beats, order, u, Peers, now, timeout);
      EnumeratesOneMore(order, beats.Keys - rest, u);
      order := order + [u];
      assert beats.Keys - rest + {u} == beats.Keys - (rest - {u});
      rest := rest - {u};
      var hb := beats[u];
      if IsAlive(hb, now, timeout) {
        active := active + 1;
        if hb.rtt > 0.0 {
          drifts := drifts + [hb.drift];
          rtts := rtts + [hb.rtt];
        }
      }
    }
    assert beats.Keys - rest == beats.Keys;
  }
}
