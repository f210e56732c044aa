/**
 Host election: what one tick decides whatever order the heartbeat map is walked in, that ticks
 settle, and what a tick does to the playback position when it pauses or nudges the room.
 */
module Election {
  import opened SyncStates
  import opened Statistics
  import opened Controllers
  import opened RoomServer

  /** A known owner who is present. */
  predicate OwnerPresent(cfg: Config, s: Server, now: int)
  {
    s.state.ownerId != "" && Live(cfg, s.beats, s.state.ownerId, now)
  }

  predicate HostPresent(cfg: Config, s: Server, now: int)
  {
    s.state.hostId != "" && Live(cfg, s.beats, s.state.hostId, now)
  }

  /** Drift correction changes nothing an election looks at, and never makes a room play. */
  lemma DriftLeavesElection(cfg: Config, s: Server, now: int, nowMs: int)
    ensures var t := DriftCorrected(cfg, s, now, nowMs);
            && t.beats == s.beats && t.state.ownerId == s.state.ownerId && t.state.hostId == s.state.hostId
            && t.state.token == s.state.token && t.state.status == s.state.status
  {
  }

  /** Who hosts after a host check: a present owner, else a present host, else the peer seen longest ago. */
  ghost predicate Decided(cfg: Config, s: Server, t: Server, now: int)
  {
    var host, host' := s.state.hostId, t.state.hostId;
    if OwnerPresent(cfg, s, now) then host' == s.state.ownerId
    else if HostPresent(cfg, s, now) then host' == host && t.state.token == s.state.token
    else if exists u :: Eligible(cfg, s.beats, host, u, now) then Oldest(cfg, s.beats, host, host', now)
    else host' == host && (host != "" ==> !t.state.status.Playing?)
  }

  lemma HostCheckDecides(cfg: Config, s: Server, now: int, pick: string)
    requires "" !in s.beats && IsSelection(cfg, s.beats, s.state.hostId, pick, now)
    ensures Decided(cfg, s, HostChecked(cfg, s, now, pick), now)
  {
  }

  /** A discontinuity is measured on the owner, else the host, who must be present for it. */
  lemma ForcedIsMeasured(cfg: Config, s: Server, now: int)
    requires Positive(cfg.gains) && Forced(cfg, s, now)
    ensures Measured(cfg, s, now)
  {
    assert !Measured(cfg, s, now) ==> Median([]) == 0.0;
  }

  /**
   What a tick should decide: a present owner hosts; failing that a present host stays; failing that
   the peer seen longest ago takes over, never the departed host; and with nobody eligible the host
   stands but the room does not play. A discontinuity ends the tick before the host check, so it does
   decide that if and only if there is none or no present owner is waiting for the role.
   */
  lemma TickOutcome(cfg: Config, s: Server, now: int, nowMs: int, pick: string)
    requires "" !in s.beats && Positive(cfg.gains) && Enabled(cfg, s, Tick(now, nowMs, pick))
    ensures Decided(cfg, s, Step(cfg, s, Tick(now, nowMs, pick)), now) <==>
            !Forced(cfg, s, now) || Settled(cfg, s, now)
  {
    var t := DriftCorrected(cfg, s, now, nowMs);
    DriftLeavesElection(cfg, s, now, nowMs);
    if Forced(cfg, s, now) {
      ForcedIsMeasured(cfg, s, now);
    } else {
      HostCheckDecides(cfg, t, now, pick);
    }
  }

  /**
   With drift correction off, a tick changes nothing if and only if no present owner is waiting for the role and
   the host is present, or nobody can take over and the room has no host or does not play.
   */
  lemma QuietTickIff(cfg: Config, s: Server, now: int, nowMs: int, pick: string)
    requires "" !in s.beats && !cfg.driftCorrection && Enabled(cfg, s, Tick(now, nowMs, pick))
    ensures Step(cfg, s, Tick(now, nowMs, pick)) == s <==>
            && (OwnerPresent(cfg, s, now) ==> s.state.hostId == s.state.ownerId)
            && (HostPresent(cfg, s, now) ||
                ((forall u :: !Eligible(cfg, s.beats, s.state.hostId, u, now)) &&
                 (s.state.hostId == "" || !s.state.status.Playing?)))
  {
    var t := Step(cfg, s, Tick(now, nowMs, pick));
    assert t.state.epoch == s.state.epoch ==> t == s;
    assert pick != "" ==> Eligible(cfg, s.beats, s.state.hostId, pick, now);
  }

  /** With drift correction off, a second tick at the same instant changes nothing at all. */
  lemma SecondTickChangesNothing(cfg: Config, s: Server, now: int, nowMs: int, pick: string, nowMs': int, pick': string)
    requires "" !in s.beats && !cfg.driftCorrection && Enabled(cfg, s, Tick(now, nowMs, pick))
    requires var t := Step(cfg, s, Tick(now, nowMs, pick)); Enabled(cfg, t, Tick(now, nowMs', pick'))
    ensures var t := Step(cfg, s, Tick(now, nowMs, pick)); Step(cfg, t, Tick(now, nowMs', pick')) == t
  {
    var t := Step(cfg, s, Tick(now, nowMs, pick));
    assert t.beats == s.beats && t.state.ownerId == s.state.ownerId;
    if t.state.hostId == s.state.hostId && pick' != "" {
      assert Eligible(cfg, s.beats, s.state.hostId, pick', now);
    }
  }

  // ---- any number of ticks with nobody else acting -----------------------------------------------

  datatype TickAt = TickAt(now: int, nowMs: int, pick: string)

  ghost function AfterTick(cfg: Config, s: Server, t: TickAt): Server
    requires Enabled(cfg, s, Tick(t.now, t.nowMs, t.pick))
  {
    Step(cfg, s, Tick(t.now, t.nowMs, t.pick))
  }

  /** A run of nothing but ticks at non-decreasing instants. */
  ghost predicate Ticking(cfg: Config, s: Server, ts: seq<TickAt>)
    decreases |ts|
  {
    ts != [] ==>
      && Enabled(cfg, s, Tick(ts[0].now, ts[0].nowMs, ts[0].pick))
      && (|ts| > 1 ==> ts[0].now <= ts[1].now)
      && Ticking(cfg, AfterTick(cfg, s, ts[0]), ts[1..])
  }

  ghost function Final(cfg: Config, s: Server, ts: seq<TickAt>): Server
    requires Ticking(cfg, s, ts)
    decreases |ts|
  {
    if ts == [] then s else Final(cfg, AfterTick(cfg, s, ts[0]), ts[1..])
  }

  /** The peers handed the host role, in order. */
  ghost function Elected(cfg: Config, s: Server, ts: seq<TickAt>): seq<string>
    requires Ticking(cfg, s, ts)
    decreases |ts|
  {
    if ts == [] then []
    else
      var t := AfterTick(cfg, s, ts[0]);
      (if t.state.token != s.state.token then [t.state.hostId] else []) + Elected(cfg, t, ts[1..])
  }

  /** Nobody present outranks the host: the owner, if present at `now`, is it. */
  predicate Settled(cfg: Config, s: Server, now: int)
  {
    OwnerPresent(cfg, s, now) ==> s.state.hostId == s.state.ownerId
  }

  /** One tick leaves the room settled, hands over only to somebody present, and otherwise keeps host and token. */
  lemma OneTick(cfg: Config, s: Server, t: TickAt)
    requires "" !in s.beats && !cfg.driftCorrection && Enabled(cfg, s, Tick(t.now, t.nowMs, t.pick))
    ensures var s' := AfterTick(cfg, s, t);
            && s'.beats == s.beats && s'.state.ownerId == s.state.ownerId
            && Settled(cfg, s', t.now)
            && (s'.state.token != s.state.token ==>
                  && s'.state.hostId != s.state.hostId
                  && Live(cfg, s.beats, s'.state.hostId, t.now)
                  && s'.state.status == s.state.status && s'.state.epoch == s.state.epoch + 1
                  && (Settled(cfg, s, t.now) ==> !HostPresent(cfg, s, t.now)))
            && (s'.state.token == s.state.token ==>
                  && s'.state.hostId == s.state.hostId
                  && (s' == s || (&& s.state.status.Playing? && s'.state.status.Paused?
                                  && s'.state.epoch == s.state.epoch + 1)))
  {
  }

  lemma LivenessFades(cfg: Config, s: Server, user: string, now: int, later: int)
    requires now <= later && Live(cfg, s.beats, user, later)
    ensures Live(cfg, s.beats, user, now)
  {
  }

  /** A room settled at one tick is settled at the next: nobody comes back without a heartbeat. */
  lemma StaysSettled(cfg: Config, t: Server, ts: seq<TickAt>)
    requires ts != [] && Settled(cfg, t, ts[0].now) && (|ts| > 1 ==> ts[0].now <= ts[1].now)
    ensures ts[1..] != [] ==> Settled(cfg, t, ts[1..][0].now)
  {
    if |ts| > 1 && OwnerPresent(cfg, t, ts[1].now) {
      LivenessFades(cfg, t, t.state.ownerId, ts[0].now, ts[1].now);
    }
  }

  ghost predicate Distinct(xs: seq<string>)
  {
    forall i, j | 0 <= i < j < |xs| :: xs[i] != xs[j]
  }

  /** From a settled room: the elected are distinct, all present at the start, and none hosted then. */
  lemma {:induction false} SettledElections(cfg: Config, s: Server, ts: seq<TickAt>)
    requires "" !in s.beats && !cfg.driftCorrection && Ticking(cfg, s, ts)
    requires ts != [] ==> Settled(cfg, s, ts[0].now)
    ensures Distinct(Elected(cfg, s, ts))
    ensures forall x | x in Elected(cfg, s, ts) :: x != s.state.hostId && Live(cfg, s.beats, x, ts[0].now)
    decreases |ts|
  {
    if ts != [] {
      var t := AfterTick(cfg, s, ts[0]);
      var rest := Elected(cfg, t, ts[1..]);
      OneTick(cfg, s, ts[0]);
      StaysSettled(cfg, t, ts);
      SettledElections(cfg, t, ts[1..]);
      forall x | x in rest
        ensures x != s.state.hostId && Live(cfg, s.beats, x, ts[0].now)
      {
        LivenessFades(cfg, s, x, ts[0].now, ts[1..][0].now);
      }
    }
  }

  lemma {:induction false} DistinctFits(xs: seq<string>, within: set<string>)
    requires Distinct(xs) && forall x | x in xs :: x in within
    ensures |xs| <= |within|
    decreases |xs|
  {
    if xs != [] {
      var n := |xs| - 1;
      assert forall x | x in xs[..n] :: x in within - {xs[n]};
      DistinctFits(xs[..n], within - {xs[n]});
    }
  }

  /** From any room: the elected are distinct and were all present when the ticking started. */
  lemma ElectedOnce(cfg: Config, s: Server, ts: seq<TickAt>)
    requires "" !in s.beats && !cfg.driftCorrection && Ticking(cfg, s, ts) && ts != []
    ensures Distinct(Elected(cfg, s, ts))
    ensures forall x | x in Elected(cfg, s, ts) :: x in LivePeers(cfg, s.beats, ts[0].now)
  {
    var t := AfterTick(cfg, s, ts[0]);
    OneTick(cfg, s, ts[0]);
    StaysSettled(cfg, t, ts);
    var rest := Elected(cfg, t, ts[1..]);
    SettledElections(cfg, t, ts[1..]);
    forall x | x in rest
      ensures Live(cfg, s.beats, x, ts[0].now)
    {
      LivenessFades(cfg, s, x, ts[0].now, ts[1..][0].now);
    }
  }

  /**
   Elections end: over any number of ticks with nobody else acting, each peer is elected at most once,
   all of them present when the ticking started, and the room is paused at most once; so the epoch
   rises by at most the number of peers present plus one.
   */
  lemma ElectionTerminates(cfg: Config, s: Server, ts: seq<TickAt>)
    requires "" !in s.beats && !cfg.driftCorrection && Ticking(cfg, s, ts) && ts != []
    ensures var elected, last := Elected(cfg, s, ts), Final(cfg, s, ts);
            && Distinct(elected)
            && (forall x | x in elected :: x in LivePeers(cfg, s.beats, ts[0].now))
            && |elected| <= |LivePeers(cfg, s.beats, ts[0].now)|
            && last.state.epoch == s.state.epoch + |elected| + (if last.state.status != s.state.status then 1 else 0)
            && (last.state.status != s.state.status ==> s.state.status.Playing? && last.state.status.Paused?)
  {
    ElectedOnce(cfg, s, ts);
    DistinctFits(Elected(cfg, s, ts), LivePeers(cfg, s.beats, ts[0].now));
    EpochsCount(cfg, s, ts);
  }

  lemma {:induction false} EpochsCount(cfg: Config, s: Server, ts: seq<TickAt>)
    requires "" !in s.beats && !cfg.driftCorrection && Ticking(cfg, s, ts)
    ensures var last := Final(cfg, s, ts);
            && last.state.epoch ==
               s.state.epoch + |Elected(cfg, s, ts)| + (if last.state.status != s.state.status then 1 else 0)
            && (last.state.status != s.state.status ==> s.state.status.Playing? && last.state.status.Paused?)
    decreases |ts|
  {
    if ts != [] {
      OneTick(cfg, s, ts[0]);
      EpochsCount(cfg, AfterTick(cfg, s, ts[0]), ts[1..]);
    }
  }

  // ---- what a tick does to the position ----------------------------------------------------------

  /**
   Pausing an orphaned room does not hold its position: it falls back to the last sample, by exactly
   the time played since; it stays put if and only if no time was played. There the room stands, for
   clients and in answers to heartbeats alike.
   */
  lemma OrphanPauseFallsBack(cfg: Config, s: Server, nowMs: int)
    requires s.state.status.Playing? && RateOk(s.state)
    ensures var t := Orphaned(cfg, s).state;
            && Position(t, nowMs) == Position(s.state, nowMs) - Played(s.state, nowMs)
            && (Position(t, nowMs) == Position(s.state, nowMs) <==> Elapsed(s.state, nowMs) == 0 || s.state.rate == 0.0)
            && t.status.Paused? && AdvanceMediaTime(t, nowMs) == s.state.mediaTimeMs
  {
    var t := Orphaned(cfg, s).state;
    assert Position(t, nowMs) == s.state.mediaTimeMs as real;
    var e, r := Elapsed(s.state, nowMs) as real, s.state.rate;
    assert e * r == 0.0 <==> e == 0.0 || r == 0.0;
  }

  /** A fresh room set playing whose host never shows up: the next tick takes everyone back to the start. */
  lemma OrphanedRoomRewinds(cfg: Config, playedMs: nat, now: int)
    requires !cfg.driftCorrection
    ensures var es := [Order(Play, 0, 0, 0), Tick(now, playedMs, "")];
            var s0 := Started(FreshState("o"));
            && Runs(cfg, s0, es[..1]) && Runs(cfg, s0, es)
            && Position(RunOf(cfg, s0, es[..1]).state, playedMs) == playedMs as real
            && Position(RunOf(cfg, s0, es).state, playedMs) == 0.0
  {
    var s0 := Started(FreshState("o"));
    var play, tick := Order(Play, 0, 0, 0), Tick(now, playedMs, "");
    var es := [play, tick];
    RunExtends(cfg, s0, [], play);
    assert [] + [play] == [play] == es[..1] && [play] + [tick] == es;
    var s := Step(cfg, s0, play);
    assert s.beats == map[] && s.state.status.Playing? && s.state.rate == 1.0 && s.state.mediaTimeMs == 0;
    RunExtends(cfg, s0, [play], tick);
    assert Step(cfg, s, tick) == Orphaned(cfg, s);
  }

  /** A fresh room is paused at zero, yet a heartbeat at any positive reading is answered with that reading. */
  lemma FreshRoomAnswersMovingClock(ownerId: string, nowMs: int)
    requires nowMs > 0
    ensures AdvanceMediaTime(FreshState(ownerId), nowMs) == nowMs && AnchorPosition(FreshState(ownerId), nowMs) == 0
  {
    var s := FreshState(ownerId);
    assert Elapsed(s, nowMs) as real * s.rate == nowMs as real;
  }

  /**
   A drift nudge moves the position by the correction and also drops the time played since the last
   sample; it moves by exactly the correction if and only if no time was played. The room plays on at its rate.
   */
  lemma NudgeJumps(st: SyncState, correctionMs: real, nowMs: int, later: int)
    requires st.status.Playing? && nowMs <= later
    ensures var t := Nudged(st, correctionMs, nowMs);
            && Position(t, nowMs) == Position(st, nowMs) - Played(st, nowMs) - Trunc(correctionMs) as real
            && (Position(t, nowMs) == Position(st, nowMs) - Trunc(correctionMs) as real <==>
                Elapsed(st, nowMs) == 0 || st.rate == 0.0)
            && Position(t, later) == Position(t, nowMs) + (later - nowMs) as real * st.rate
  {
    var t := Nudged(st, correctionMs, nowMs);
    assert Elapsed(t, nowMs) == 0 && Played(t, nowMs) == 0.0;
    var e, r := Elapsed(st, nowMs) as real, st.rate;
    assert e * r == 0.0 <==> e == 0.0 || r == 0.0;
  }

  lemma MedianOfOne(x: real)
    ensures Median([x]) == x
  {
    assert Sort([x]) == [x];
  }

  /** The drift that counts: the owner's, in a room without one the host's, once that peer is present and measured. */
  function Lead(cfg: Config, s: Server, now: int): real
  {
    var u := if s.state.ownerId == "" then s.state.hostId else s.state.ownerId;
    if u != "" && u in s.beats && now - s.beats[u].lastSeen < HostTimeout(cfg) && s.beats[u].rtt > 0.0
    then s.beats[u].drift else 0.0
  }

  lemma FewDelaysConfidence(peers: nat, rtts: seq<real>)
    requires |rtts| <= 1
    ensures Confidence(peers, rtts) >= 30 <==> peers * 20 % 0x1_0000_0000 >= 30
  {
  }

  lemma CycleTakesLead(cfg: Config, s: Server, now: int)
    ensures exists confidence: nat ::
              && (confidence >= 30 <==> |LivePeers(cfg, s.beats, now)| * 20 % 0x1_0000_0000 >= 30)
              && DriftCycle(cfg, s, now) == Correction(cfg.gains, s.integral, Lead(cfg, s, now), HeartbeatSec(cfg),
                                                       |LivePeers(cfg, s.beats, now)|, confidence)
  {
    var peers, r := |LivePeers(cfg, s.beats, now)|, Reference(s);
    var rtts := if Measured(cfg, s, now) then [s.beats[r].rtt] else [];
    FewDelaysConfidence(peers, rtts);
    if Measured(cfg, s, now) {
      MedianOfOne(s.beats[r].drift);
    }
    assert DriftCycle(cfg, s, now)
        == Correction(cfg.gains, s.integral, Lead(cfg, s, now), HeartbeatSec(cfg), peers, Confidence(peers, rtts));
  }

  /** What a cycle of a tick comes to, whatever the room does with it. */
  lemma CycleOfTick(cfg: Config, s: Server, now: int)
    requires Positive(cfg.gains)
    ensures var peers, c := |LivePeers(cfg, s.beats, now)|, DriftCycle(cfg, s, now);
            if peers < 2 || peers * 20 % 0x1_0000_0000 < 30 then c == Corrected(Outcome(0.0, false), s.integral)
            else Follows(cfg.gains, Lead(cfg, s, now), HeartbeatSec(cfg), s.integral, c.integral, c.outcome)
  {
    CycleTakesLead(cfg, s, now);
    var peers, lead, dtSec := |LivePeers(cfg, s.beats, now)|, Lead(cfg, s, now), HeartbeatSec(cfg);
    var confidence: nat :|
      && (confidence >= 30 <==> peers * 20 % 0x1_0000_0000 >= 30)
      && DriftCycle(cfg, s, now) == Correction(cfg.gains, s.integral, lead, dtSec, peers, confidence);
    if peers >= 2 && confidence >= 30 {
      CycleFollows(cfg.gains, s.integral, Cycle(lead, dtSec, peers, confidence));
    }
  }

  /**
   The drift correction of a tick. It needs two peers present, and twenty points a peer, counted in 32 bits, to
   come to 30. Then the controller takes up the drift that counts over one heartbeat interval. A discontinuity is
   announced and moves nothing; a correction moves the sample of a playing room back by whole milliseconds.
   */
  lemma TickCorrects(cfg: Config, s: Server, now: int, nowMs: int, peers: set<string>, interval: real)
    requires Positive(cfg.gains)
    requires peers == set u | u in s.beats && now - s.beats[u].lastSeen < HostTimeout(cfg)
    requires interval == if cfg.heartbeatSec > 0.0 then cfg.heartbeatSec else 1.0
    ensures var t, r := DriftCorrected(cfg, s, now, nowMs), DriftCycle(cfg, s, now).outcome;
            if !cfg.driftCorrection || |peers| < 2 || |peers| * 20 % 0x1_0000_0000 < 30 then t == s
            else
              && Follows(cfg.gains, Lead(cfg, s, now), interval, s.integral, t.integral, r)
              && t.beats == s.beats
              && if r.forceSnapshot then t.state == s.state && t.sent == s.sent + [Update(ToWire(s.state))]
                 else if r.correctionMs == 0.0 || !s.state.status.Playing? then t == s.(integral := t.integral)
                 else
                   && t.state == s.state.(mediaTimeMs := s.state.mediaTimeMs - Trunc(r.correctionMs),
                                          wallTimeMs := nowMs, epoch := s.state.epoch + 1)
                   && t.sent == s.sent + [Update(ToWire(t.state))]
  {
    assert LivePeers(cfg, s.beats, now) == peers;
    CycleOfTick(cfg, s, now);
  }
}
