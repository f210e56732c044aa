/**
 The authoritative playback clock of one room: the (media time, wall time, rate) sample, its
 projection to "now" on the server and on the client, and the commands that re-sample it.
 Floats are exact reals; times are unbounded integers in milliseconds.
 */
module SyncStates {
  import opened Options

  datatype Status = Unspecified | Paused | Playing | Buffering | Ended

  datatype SyncState = SyncState(
    mediaId: string,
    status: Status,
    mediaTimeMs: int,
    wallTimeMs: int,
    rate: real,
    epoch: nat,
    hostId: string,
    token: nat,
    epochStarted: int,
    ownerId: string)

  /** A command with its arguments; Unknown stands for every kind the switch has no case for. */
  datatype Command =
    | Play
    | Pause
    | Seek(to: Option<int>)
    | SetRate(newRate: Option<real>)
    | LoadMedia(media: string)
    | Next
    | Previous
    | Unknown

  /** Go's conversion of a float to an integer: truncation toward zero. */
  function Trunc(x: real): int
  {
    if x >= 0.0 then x.Floor else -((-x).Floor)
  }

  function Elapsed(s: SyncState, nowMs: int): nat
  {
    if nowMs < s.wallTimeMs then 0 else nowMs - s.wallTimeMs
  }

  /** The server's projection. It consults the rate only, never the status. */
  function AdvanceMediaTime(s: SyncState, nowMs: int): int
  {
    if s.rate == 0.0 then s.mediaTimeMs
    else s.mediaTimeMs + Trunc(Elapsed(s, nowMs) as real * s.rate)
  }

  function EffectiveRate(s: SyncState): real
  {
    if s.status.Playing? then s.rate else 0.0
  }

  /** What was played since the sample. */
  function Played(s: SyncState, nowMs: int): real
  {
    Elapsed(s, nowMs) as real * EffectiveRate(s)
  }

  /** The client's projection: status-aware and not truncated. */
  function Position(s: SyncState, nowMs: int): real
  {
    s.mediaTimeMs as real + Played(s, nowMs)
  }

  /** The position the server would re-anchor at: status-aware and truncated. */
  function AnchorPosition(s: SyncState, nowMs: int): int
  {
    if s.status.Playing? then AdvanceMediaTime(s, nowMs) else s.mediaTimeMs
  }

  /** The rates any command leaves behind. */
  predicate RateOk(s: SyncState)
  {
    s.rate == 0.0 || 0.25 <= s.rate <= 4.0
  }

  function Resampled(s: SyncState, nowMs: int): SyncState
  {
    s.(mediaTimeMs := AnchorPosition(s, nowMs), wallTimeMs := nowMs)
  }

  /** The state a command leaves: re-sample, apply the command's own effect, open a new epoch. */
  function Commanded(s: SyncState, c: Command, nowMs: int, now: int): SyncState
  {
    var r := Resampled(s, nowMs);
    var applied := match c
      case Play => r.(status := Playing, rate := if r.rate == 0.0 then 1.0 else r.rate)
      case Pause => r.(status := Paused, rate := 0.0)
      case Seek(to) => if to.Some? then r.(mediaTimeMs := to.value) else r
      case SetRate(q) =>
        if q.Some? && 0.25 <= q.value <= 4.0 then r.(rate := q.value, status := Playing) else r
      case LoadMedia(m) => r.(mediaId := m, mediaTimeMs := 0, status := Paused, rate := 0.0)
      case Next | Previous | Unknown => r;
    applied.(epoch := s.epoch + 1, epochStarted := now)
  }

  /** The commands that must not move the position. */
  predicate KeepsPosition(c: Command)
  {
    !c.LoadMedia? && (c.Seek? ==> c.to.None?)
  }

  datatype Stamped = Stamped(command: Command, nowMs: int, now: int)

  function After(s: SyncState, run: seq<Stamped>): SyncState
    decreases |run|
  {
    if run == [] then s
    else After(Commanded(s, run[0].command, run[0].nowMs, run[0].now), run[1..])
  }

  /** Clock readings never step back, from `from` through the run to `to`, and no command jumps. */
  predicate Steady(from: int, run: seq<Stamped>, to: int)
    decreases |run|
  {
    if run == [] then from <= to
    else from <= run[0].nowMs && KeepsPosition(run[0].command) && Steady(run[0].nowMs, run[1..], to)
  }

  // ---- arithmetic ------------------------------------------------------------------------------

  lemma MulMonotone(a: real, b: real, r: real)
    requires a <= b && 0.0 <= r
    ensures a * r <= b * r
  {
    assert (b - a) * r >= 0.0;
  }

  lemma FloorMonotone(x: real, y: real)
    requires x <= y
    ensures x.Floor <= y.Floor
  {
  }

  /** The truncated projection is within one millisecond below the exact one. */
  lemma AnchorBelowPosition(s: SyncState, nowMs: int)
    requires RateOk(s)
    ensures 0.0 <= Position(s, nowMs) - AnchorPosition(s, nowMs) as real < 1.0
  {
    MulMonotone(0.0, Elapsed(s, nowMs) as real, s.rate);
  }

  lemma AnchorMonotone(s: SyncState, t: int, u: int)
    requires RateOk(s) && t <= u
    ensures AnchorPosition(s, t) <= AnchorPosition(s, u)
  {
    var d, e := Elapsed(s, t) as real, Elapsed(s, u) as real;
    MulMonotone(0.0, d, s.rate);
    MulMonotone(d, e, s.rate);
    FloorMonotone(d * s.rate, e * s.rate);
  }

  // ---- one command -----------------------------------------------------------------------------

  lemma CommandsKeepRateOk(s: SyncState, c: Command, nowMs: int, now: int)
    requires RateOk(s)
    ensures RateOk(Commanded(s, c, nowMs, now))
  {
  }

  /**
   A command that does not jump leaves the anchored position exactly where it was at that instant,
   and the client's exact projection loses less than one millisecond and gains nothing.
   */
  lemma CommandContinuous(s: SyncState, c: Command, nowMs: int, now: int)
    requires RateOk(s) && KeepsPosition(c)
    ensures AnchorPosition(Commanded(s, c, nowMs, now), nowMs) == AnchorPosition(s, nowMs)
    ensures 0.0 <= Position(s, nowMs) - Position(Commanded(s, c, nowMs, now), nowMs) < 1.0
  {
    var t := Commanded(s, c, nowMs, now);
    assert t.mediaTimeMs == AnchorPosition(s, nowMs) && Elapsed(t, nowMs) == 0;
    assert Elapsed(t, nowMs) as real * t.rate == 0.0;
    AnchorBelowPosition(s, nowMs);
  }

  predicate IsWhole(x: real)
  {
    x == x.Floor as real
  }

  /** The client's exact projection is unmoved by it if and only if a whole number of milliseconds was played. */
  lemma CommandKeepsPositionIff(s: SyncState, c: Command, nowMs: int, now: int)
    requires RateOk(s) && KeepsPosition(c)
    ensures Position(Commanded(s, c, nowMs, now), nowMs) == Position(s, nowMs) <==>
            IsWhole(Played(s, nowMs))
  {
    var t := Commanded(s, c, nowMs, now);
    MulMonotone(0.0, Elapsed(s, nowMs) as real, EffectiveRate(s));
    assert AnchorPosition(s, nowMs) == s.mediaTimeMs + Played(s, nowMs).Floor;
    assert t.mediaTimeMs == AnchorPosition(s, nowMs) && Elapsed(t, nowMs) == 0;
    assert Played(t, nowMs) == 0.0;
  }

  /** One millisecond into playing at rate 1.5, a Next takes the client's projection from 1.5 back to 1.0. */
  lemma ReanchoringStepsBack(s: SyncState, now: int)
    requires s.status.Playing? && s.rate == 1.5 && s.mediaTimeMs == 0 && s.wallTimeMs == 0
    ensures Position(s, 1) == 1.5 && Position(Commanded(s, Next, 1, now), 1) == 1.0
  {
    var t := Commanded(s, Next, 1, now);
    assert Elapsed(s, 1) == 1 && Elapsed(t, 1) == 0;
    assert 1.5.Floor == 1;
  }

  // ---- whole runs ------------------------------------------------------------------------------

  /** Over any run of non-jumping commands the anchored position never goes back. */
  lemma {:induction false} RunsNeverRewind(s: SyncState, from: int, run: seq<Stamped>, to: int)
    requires RateOk(s) && Steady(from, run, to)
    ensures AnchorPosition(s, from) <= AnchorPosition(After(s, run), to)
    decreases |run|
  {
    if run == [] {
      AnchorMonotone(s, from, to);
    } else {
      var t := run[0];
      AnchorMonotone(s, from, t.nowMs);
      CommandContinuous(s, t.command, t.nowMs, t.now);
      RunsNeverRewind(Commanded(s, t.command, t.nowMs, t.now), t.nowMs, run[1..], to);
    }
  }

  /** What the effective rate covers between two readings. */
  function Leg(s: SyncState, from: int, to: int): real
  {
    (to - from) as real * EffectiveRate(s)
  }

  /** What an ideal clock travels from `from` to `to`: the integral of the effective rate. */
  function IdealTravel(s: SyncState, from: int, run: seq<Stamped>, to: int): real
    decreases |run|
  {
    if run == [] then Leg(s, from, to)
    else
      var t := run[0];
      Leg(s, from, t.nowMs)
      + IdealTravel(Commanded(s, t.command, t.nowMs, t.now), t.nowMs, run[1..], to)
  }

  lemma PositionTravels(s: SyncState, from: int, to: int)
    requires s.wallTimeMs <= from <= to
    ensures Position(s, to) == Position(s, from) + Leg(s, from, to)
  {
    var r := EffectiveRate(s);
    var a, b := (from - s.wallTimeMs) as real, (to - from) as real;
    assert (a + b) * r == a * r + b * r;
  }

  /** How far a run ends behind the ideal clock. */
  function Shortfall(s: SyncState, from: int, run: seq<Stamped>, to: int): real
  {
    Position(s, from) + IdealTravel(s, from, run, to) - Position(After(s, run), to)
  }

  /** How far the exact projection slips back at one command. */
  function Slip(s: SyncState, t: Stamped): real
  {
    Position(s, t.nowMs) - Position(Commanded(s, t.command, t.nowMs, t.now), t.nowMs)
  }

  lemma SlipIsSmall(s: SyncState, t: Stamped)
    requires RateOk(s) && KeepsPosition(t.command)
    ensures 0.0 <= Slip(s, t) < 1.0
    ensures Slip(s, t) == 0.0 <==> IsWhole(Played(s, t.nowMs))
  {
    CommandContinuous(s, t.command, t.nowMs, t.now);
    CommandKeepsPositionIff(s, t.command, t.nowMs, t.now);
  }

  /** A run's shortfall is its first command's slip and the shortfall of the rest. */
  lemma ShortfallStep(s: SyncState, from: int, run: seq<Stamped>, to: int)
    requires run != [] && s.wallTimeMs <= from <= run[0].nowMs
    ensures var t := run[0];
            var u := Commanded(s, t.command, t.nowMs, t.now);
            Shortfall(s, from, run, to) == Slip(s, t) + Shortfall(u, t.nowMs, run[1..], to)
  {
    var t := run[0];
    var u := Commanded(s, t.command, t.nowMs, t.now);
    var first, rest := Leg(s, from, t.nowMs), IdealTravel(u, t.nowMs, run[1..], to);
    assert IdealTravel(s, from, run, to) == first + rest && After(s, run) == After(u, run[1..]);
    var p, q, r := Position(s, t.nowMs), Position(u, t.nowMs), Position(After(s, run), to);
    assert p == Position(s, from) + first by { PositionTravels(s, from, t.nowMs); }
    assert Shortfall(s, from, run, to) == Position(s, from) + IdealTravel(s, from, run, to) - r;
    assert Slip(s, t) == p - q && Shortfall(u, t.nowMs, run[1..], to) == q + rest - r;
  }

  /** Every command of the run comes when a whole number of milliseconds was played since the one before. */
  predicate WholeSteps(s: SyncState, run: seq<Stamped>)
    decreases |run|
  {
    run == [] ||
    (var t := run[0];
     && IsWhole(Played(s, t.nowMs))
     && WholeSteps(Commanded(s, t.command, t.nowMs, t.now), run[1..]))
  }

  /**
   Against the ideal clock, n re-anchorings lose less than n milliseconds and gain nothing, whatever the
   rates in between; they lose nothing if and only if they come at whole milliseconds only.
   */
  lemma {:induction false} RunsLoseLessThanOneMsEach(s: SyncState, from: int, run: seq<Stamped>, to: int)
    requires RateOk(s) && s.wallTimeMs <= from && Steady(from, run, to)
    ensures 0.0 <= Shortfall(s, from, run, to) <= |run| as real
    ensures run != [] ==> Shortfall(s, from, run, to) < |run| as real
    ensures Shortfall(s, from, run, to) == 0.0 <==> WholeSteps(s, run)
    decreases |run|
  {
    if run == [] {
      PositionTravels(s, from, to);
    } else {
      var t := run[0];
      var u := Commanded(s, t.command, t.nowMs, t.now);
      SlipIsSmall(s, t);
      ShortfallStep(s, from, run, to);
      assert RateOk(u) && u.wallTimeMs == t.nowMs;
      RunsLoseLessThanOneMsEach(u, t.nowMs, run[1..], to);
    }
  }

  lemma {:induction false} TravelsForward(s: SyncState, from: int, run: seq<Stamped>, to: int)
    requires RateOk(s) && Steady(from, run, to)
    ensures IdealTravel(s, from, run, to) >= 0.0
    decreases |run|
  {
    if run == [] {
      MulMonotone(0.0, (to - from) as real, EffectiveRate(s));
    } else {
      var t := run[0];
      var u := Commanded(s, t.command, t.nowMs, t.now);
      assert Leg(s, from, t.nowMs) >= 0.0 by { MulMonotone(0.0, (t.nowMs - from) as real, EffectiveRate(s)); }
      TravelsForward(u, t.nowMs, run[1..], to);
    }
  }

  /** So the client's exact projection may slip back over a run, by less than one millisecond a command. */
  lemma PositionSlipsLessThanOneMsEach(s: SyncState, from: int, run: seq<Stamped>, to: int)
    requires RateOk(s) && s.wallTimeMs <= from && Steady(from, run, to)
    ensures Position(s, from) - |run| as real <= Position(After(s, run), to)
    ensures run != [] ==> Position(s, from) - |run| as real < Position(After(s, run), to)
  {
    RunsLoseLessThanOneMsEach(s, from, run, to);
    TravelsForward(s, from, run, to);
  }

  predicate RateUnchanged(s: SyncState, run: seq<Stamped>)
    decreases |run|
  {
    run == [] ||
    var u := Commanded(s, run[0].command, run[0].nowMs, run[0].now);
    EffectiveRate(u) == EffectiveRate(s) && RateUnchanged(u, run[1..])
  }

  lemma LegSplits(s: SyncState, u: SyncState, from: int, mid: int, to: int)
    requires EffectiveRate(u) == EffectiveRate(s)
    ensures Leg(s, from, to) == Leg(s, from, mid) + Leg(u, mid, to)
  {
    var a, b, rate := (mid - from) as real, (to - mid) as real, EffectiveRate(s);
    assert (to - from) as real == a + b;
    assert (a + b) * rate == a * rate + b * rate;
  }

  lemma {:induction false} IdealTravelAtOneRate(s: SyncState, from: int, run: seq<Stamped>, to: int)
    requires RateUnchanged(s, run)
    ensures IdealTravel(s, from, run, to) == Leg(s, from, to)
    decreases |run|
  {
    if run != [] {
      var t := run[0];
      var u := Commanded(s, t.command, t.nowMs, t.now);
      var rest := IdealTravel(u, t.nowMs, run[1..], to);
      assert rest == Leg(u, t.nowMs, to) by { IdealTravelAtOneRate(u, t.nowMs, run[1..], to); }
      assert Leg(s, from, to) == Leg(s, from, t.nowMs) + rest by { LegSplits(s, u, from, t.nowMs, to); }
    }
  }

  /** At an unchanged rate, n re-anchorings lose at most n ms against one unbroken projection. */
  lemma ReanchoringVersusUnbroken(s: SyncState, run: seq<Stamped>, to: int)
    requires RateOk(s) && Steady(s.wallTimeMs, run, to) && RateUnchanged(s, run)
    ensures Position(s, to) - |run| as real <= Position(After(s, run), to) <= Position(s, to)
  {
    var from := s.wallTimeMs;
    SteadySpans(from, run, to);
    RunsLoseLessThanOneMsEach(s, from, run, to);
    IdealTravelAtOneRate(s, from, run, to);
    PositionTravels(s, from, to);
  }

  lemma {:induction false} SteadySpans(from: int, run: seq<Stamped>, to: int)
    requires Steady(from, run, to)
    ensures from <= to
    decreases |run|
  {
    if run != [] {
      SteadySpans(run[0].nowMs, run[1..], to);
    }
  }

  // ---- where the code departs from the steady clock ----------------------------------------------

  /**
   A wall clock that steps back is the one way re-anchoring gains: the elapsed time is clamped to
   zero but the sample moves to the earlier instant, so every later projection is ahead by exactly
   the step times the rate.
   */
  lemma SteppingBackGains(s: SyncState, nowMs: int, now: int, later: int)
    requires s.status.Playing? && nowMs <= s.wallTimeMs <= later
    ensures Position(Commanded(s, Next, nowMs, now), later)
         == Position(s, later) + (s.wallTimeMs - nowMs) as real * s.rate
  {
    var a, b := (later - s.wallTimeMs) as real, (s.wallTimeMs - nowMs) as real;
    assert (a + b) * s.rate == a * s.rate + b * s.rate;
    assert Elapsed(s, nowMs) == 0;
    assert Elapsed(s, nowMs) as real * s.rate == 0.0;
  }

  /**
   Heartbeats answer with the rate-only projection. It is the status-aware position exactly when the
   room plays, the rate is zero, or the projection has not moved a whole millisecond: a fresh room,
   paused at rate 1.0, is answered with a moving clock.
   */
  lemma HeartbeatPositionIff(s: SyncState, nowMs: int)
    requires RateOk(s)
    ensures AdvanceMediaTime(s, nowMs) == AnchorPosition(s, nowMs)
       <==> s.status.Playing? || s.rate == 0.0 || Elapsed(s, nowMs) as real * s.rate < 1.0
  {
    var moved := Elapsed(s, nowMs) as real * s.rate;
    MulMonotone(0.0, Elapsed(s, nowMs) as real, s.rate);
    assert Trunc(moved) == 0 <==> moved < 1.0;
  }
}
