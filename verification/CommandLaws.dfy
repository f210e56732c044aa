/**
 What the commands on a room's clock do over whole runs, each in terms of positions and fields: the last
 command that starts, stops or sets the rate rules how the position moves, the last jump where it is,
 the last load which media it is in.
 */
module CommandLaws {
  import opened Options
  import opened SyncStates

  /** Starts, stops or sets the rate. */
  predicate Governs(c: Command)
  {
    c.Play? || c.Pause? || c.LoadMedia? || (c.SetRate? && c.newRate.Some? && 0.25 <= c.newRate.value <= 4.0)
  }

  /** Stops. */
  predicate Halts(c: Command)
  {
    c.Pause? || c.LoadMedia?
  }

  /** A run is the run before its last command and that command. */
  lemma {:induction false} AfterEnds(s: SyncState, run: seq<Stamped>)
    requires run != []
    ensures var t := run[|run| - 1];
            After(s, run) == Commanded(After(s, run[..|run| - 1]), t.command, t.nowMs, t.now)
    decreases |run|
  {
    if |run| > 1 {
      AfterEnds(Commanded(s, run[0].command, run[0].nowMs, run[0].now), run[1..]);
      assert run[..|run| - 1][1..] == run[1..][..|run| - 2];
    }
  }

  /** The sample is taken at the last command; every command opens an epoch; none changes who hosts or owns. */
  lemma {:induction false} RunStamps(s: SyncState, run: seq<Stamped>)
    ensures var f := After(s, run);
            && f.epoch == s.epoch + |run| && f.token == s.token && f.hostId == s.hostId && f.ownerId == s.ownerId
            && (run != [] ==> f.wallTimeMs == run[|run| - 1].nowMs && f.epochStarted == run[|run| - 1].now)
    decreases |run|
  {
    if run != [] {
      AfterEnds(s, run);
      RunStamps(s, run[..|run| - 1]);
    }
  }

  // ---- how the position moves --------------------------------------------------------------------

  /** From its sample on, the room plays at the rate given. */
  ghost predicate Runs(f: SyncState, rate: real)
  {
    && f.status.Playing?
    && forall t: int, u: int | f.wallTimeMs <= t <= u :: Position(f, u) - Position(f, t) == (u - t) as real * rate
  }

  /** The room is paused and stands still, at any two instants whatever. */
  ghost predicate Stands(f: SyncState)
  {
    f.status.Paused? && forall t: int, u: int :: Position(f, u) == Position(f, t)
  }

  lemma PlayingRuns(f: SyncState)
    requires f.status.Playing?
    ensures Runs(f, f.rate)
  {
    forall t: int, u: int | f.wallTimeMs <= t <= u
      ensures Position(f, u) - Position(f, t) == (u - t) as real * f.rate
    {
      PositionTravels(f, t, u);
    }
  }

  lemma PausedStands(f: SyncState)
    requires f.status.Paused?
    ensures Stands(f)
  {
    forall t: int, u: int
      ensures Position(f, u) == Position(f, t)
    {
      assert Played(f, t) == 0.0 && Played(f, u) == 0.0;
    }
  }

  /** What one command does to the status and the rate. */
  predicate Governed(before: SyncState, c: Command, f: SyncState)
  {
    if Halts(c) then f.status.Paused? && f.rate == 0.0
    else if c.Play? then f.status.Playing? && f.rate == if before.rate == 0.0 then 1.0 else before.rate
    else if Governs(c) && c.SetRate? then f.status.Playing? && f.rate == c.newRate.value
    else f.status == before.status && f.rate == before.rate
  }

  lemma {:induction false} LastGoverns(s: SyncState, run: seq<Stamped>, k: nat)
    requires k < |run| && Governs(run[k].command) && forall j | k < j < |run| :: !Governs(run[j].command)
    ensures Governed(After(s, run[..k]), run[k].command, After(s, run))
    decreases |run|
  {
    AfterEnds(s, run);
    if k < |run| - 1 {
      LastGoverns(s, run[..|run| - 1], k);
      assert run[..|run| - 1][..k] == run[..k];
    }
  }

  /**
   The last command that starts, stops or sets the rate rules. After a Pause or a LoadMedia the room
   stands still from then on; after an accepted SetRate it gains elapsed time times the rate asked for;
   after a Play it does so at the rate it had, 1.0 from rest.
   */
  lemma LastGoverningCommandRules(s: SyncState, run: seq<Stamped>, k: nat)
    requires k < |run| && Governs(run[k].command) && forall j | k < j < |run| :: !Governs(run[j].command)
    ensures var c, f := run[k].command, After(s, run);
            && (c.Pause? || c.LoadMedia? ==> Stands(f))
            && (c.SetRate? ==> Runs(f, c.newRate.value))
            && (c.Play? ==> var rate := After(s, run[..k]).rate; Runs(f, if rate == 0.0 then 1.0 else rate))
  {
    var f := After(s, run);
    LastGoverns(s, run, k);
    if f.status.Playing? {
      PlayingRuns(f);
    } else {
      PausedStands(f);
    }
  }

  /** From rest, that is with a stop the last word before it, a Play plays at 1.0. */
  lemma PlayFromRest(s: SyncState, run: seq<Stamped>, j: nat, k: nat)
    requires j < k < |run| && Halts(run[j].command) && run[k].command.Play?
    requires forall i | j < i < |run| && i != k :: !Governs(run[i].command)
    ensures Runs(After(s, run), 1.0)
  {
    LastGoverns(s, run[..k], j);
    LastGoverningCommandRules(s, run, k);
  }

  // ---- where the position is ---------------------------------------------------------------------

  /** A seek lands where it says; a load starts its media at zero. */
  lemma JumpLands(s: SyncState, run: seq<Stamped>)
    requires run != []
    ensures var t, f := run[|run| - 1], After(s, run);
            && (t.command.Seek? && t.command.to.Some? ==> Position(f, t.nowMs) == t.command.to.value as real)
            && (t.command.LoadMedia? ==> Position(f, t.nowMs) == 0.0 && f.mediaId == t.command.media)
  {
    AfterEnds(s, run);
    var t, f := run[|run| - 1], After(s, run);
    RunStamps(s, run);
    assert Elapsed(f, t.nowMs) == 0 && Played(f, t.nowMs) == 0.0;
  }

  /** Any other command leaves the position at the whole millisecond it was at. */
  lemma NoJumpStays(s: SyncState, c: Command, nowMs: int, now: int)
    requires RateOk(s) && KeepsPosition(c)
    ensures Position(Commanded(s, c, nowMs, now), nowMs) == Position(s, nowMs).Floor as real
  {
    var t := Commanded(s, c, nowMs, now);
    MulMonotone(0.0, Elapsed(s, nowMs) as real, EffectiveRate(s));
    assert AnchorPosition(s, nowMs) == s.mediaTimeMs + Played(s, nowMs).Floor;
    assert Position(s, nowMs).Floor == s.mediaTimeMs + Played(s, nowMs).Floor;
    assert t.mediaTimeMs == AnchorPosition(s, nowMs) && Elapsed(t, nowMs) == 0 && Played(t, nowMs) == 0.0;
  }

  lemma {:induction false} RunsKeepRateOk(s: SyncState, run: seq<Stamped>)
    requires RateOk(s)
    ensures RateOk(After(s, run))
    decreases |run|
  {
    if run != [] {
      CommandsKeepRateOk(s, run[0].command, run[0].nowMs, run[0].now);
      RunsKeepRateOk(Commanded(s, run[0].command, run[0].nowMs, run[0].now), run[1..]);
    }
  }

  /** A room stopped at k that is neither started nor moved since stands, at every instant, where it stopped. */
  lemma {:induction false} StoppedStandsThere(s: SyncState, run: seq<Stamped>, k: nat, at: int)
    requires RateOk(s) && k < |run| && Halts(run[k].command)
    requires forall j | k < j < |run| :: !Governs(run[j].command) && KeepsPosition(run[j].command)
    ensures Position(After(s, run), at) ==
            if run[k].command.LoadMedia? then 0.0
            else Position(After(s, run[..k]), run[k].nowMs).Floor as real
    decreases |run|
  {
    var n := |run| - 1;
    var before, t := After(s, run[..n]), run[n];
    AfterEnds(s, run);
    LastGoverningCommandRules(s, run, k);
    assert Position(After(s, run), at) == Position(After(s, run), t.nowMs);
    if k == n {
      if t.command.LoadMedia? {
        JumpLands(s, run);
      } else {
        RunsKeepRateOk(s, run[..n]);
        NoJumpStays(before, t.command, t.nowMs, t.now);
      }
    } else {
      assert run[..n][..k] == run[..k];
      StoppedStandsThere(s, run[..n], k, t.nowMs);
      RunsKeepRateOk(s, run[..n]);
      NoJumpStays(before, t.command, t.nowMs, t.now);
    }
  }

  // ---- which media -------------------------------------------------------------------------------

  /** Without a load the media stays. */
  lemma {:induction false} NoLoadKeepsMedia(s: SyncState, run: seq<Stamped>)
    requires forall j | 0 <= j < |run| :: !run[j].command.LoadMedia?
    ensures After(s, run).mediaId == s.mediaId
    decreases |run|
  {
    if run != [] {
      AfterEnds(s, run);
      NoLoadKeepsMedia(s, run[..|run| - 1]);
    }
  }

  /** The media is the last one loaded. */
  lemma {:induction false} LastLoadRules(s: SyncState, run: seq<Stamped>, k: nat)
    requires k < |run| && run[k].command.LoadMedia? && forall j | k < j < |run| :: !run[j].command.LoadMedia?
    ensures After(s, run).mediaId == run[k].command.media
    decreases |run|
  {
    AfterEnds(s, run);
    if k < |run| - 1 {
      LastLoadRules(s, run[..|run| - 1], k);
    }
  }
}
