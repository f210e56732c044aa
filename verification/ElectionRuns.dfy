/**
 Elections over runs: who was longest present and when that peer is elected, and runs in which a tick
 does not do what it should: an owner kept out, a latecomer elected, a tie, a nudge that rewinds.
 */
module ElectionRuns {
  import opened SyncStates
  import opened Heartbeats
  import opened Statistics
  import opened SnapshotStats
  import opened Controllers
  import opened RoomServer
  import opened ServerGuarantees
  import opened Election

  // ---- presence as the events tell it ------------------------------------------------------------

  /** When a user was heard, in order. */
  function Heard(es: seq<Event>, user: string): seq<int>
  {
    if es == [] then []
    else
      var e := es[|es| - 1];
      Heard(es[..|es| - 1], user) + if e.Heartbeat? && e.user == user then [e.now] else []
  }

  lemma StepHeard(cfg: Config, s: Server, e: Event)
    requires Enabled(cfg, s, e)
    ensures var t := Step(cfg, s, e);
            if e.Heartbeat? then t.beats.Keys == s.beats.Keys + {e.user} && t.beats[e.user].lastSeen == e.now
                                 && (forall u | u in s.beats && u != e.user :: t.beats[u] == s.beats[u])
            else t.beats == s.beats
  {
    if e.Tick? {
      DriftLeavesElection(cfg, s, e.now, e.nowMs);
    }
  }

  /** The heartbeat records are those heard, each last seen when last heard. */
  lemma {:induction false} RecordsAreHeard(cfg: Config, s0: SyncState, es: seq<Event>, user: string)
    requires Runs(cfg, Started(s0), es)
    ensures var beats, heard := RunOf(cfg, Started(s0), es).beats, Heard(es, user);
            (user in beats <==> heard != []) && (user in beats ==> beats[user].lastSeen == heard[|heard| - 1])
    decreases |es|
  {
    if es != [] {
      var n := |es| - 1;
      RunEnds(cfg, Started(s0), es);
      RecordsAreHeard(cfg, s0, es[..n], user);
      StepHeard(cfg, RunOf(cfg, Started(s0), es[..n]), es[n]);
    }
  }

  /** The user was heard no later than any other eligible peer was first heard. */
  ghost predicate LongestPresent(cfg: Config, s: Server, es: seq<Event>, user: string, now: int)
  {
    && Heard(es, user) != []
    && forall u | Eligible(cfg, s.beats, s.state.hostId, u, now) && Heard(es, u) != [] ::
         Heard(es, user)[0] <= Heard(es, u)[0]
  }

  /** Heard before the other was first heard, and again no earlier than the other was last heard. */
  predicate Brackets(es: seq<Event>, u: string, user: string)
  {
    var a, b := Heard(es, u), Heard(es, user);
    a != [] && b != [] && a[0] < b[0] && b[|b| - 1] <= a[|a| - 1]
  }

  /**
   After every run, when neither owner nor host is present and somebody is eligible, the peer a tick
   elects is the longest present if and only if no eligible peer brackets it: was heard before it
   and again no earlier than it was last heard.
   */
  lemma LongestPresentElectedIff(cfg: Config, s0: SyncState, es: seq<Event>, now: int, nowMs: int, pick: string)
    requires Runs(cfg, Started(s0), es) && Positive(cfg.gains)
    requires var s := RunOf(cfg, Started(s0), es);
             && Enabled(cfg, s, Tick(now, nowMs, pick)) && !OwnerPresent(cfg, s, now) && !HostPresent(cfg, s, now)
             && exists u :: Eligible(cfg, s.beats, s.state.hostId, u, now)
    ensures var s := RunOf(cfg, Started(s0), es);
            var elected := Step(cfg, s, Tick(now, nowMs, pick)).state.hostId;
            && Oldest(cfg, s.beats, s.state.hostId, elected, now)
            && (LongestPresent(cfg, s, es, elected, now) <==>
                forall u | Eligible(cfg, s.beats, s.state.hostId, u, now) :: !Brackets(es, u, elected))
  {
    var s := RunOf(cfg, Started(s0), es);
    var elected := Step(cfg, s, Tick(now, nowMs, pick)).state.hostId;
    assert Oldest(cfg, s.beats, s.state.hostId, elected, now) by {
      NobodyUnnamed(cfg, s0, es);
      AbsentOwnerAndHost(cfg, s, now, nowMs, pick);
    }
    OldestHeard(cfg, s0, es, elected, now);
  }

  lemma AbsentOwnerAndHost(cfg: Config, s: Server, now: int, nowMs: int, pick: string)
    requires "" !in s.beats && Positive(cfg.gains) && Enabled(cfg, s, Tick(now, nowMs, pick))
    requires !OwnerPresent(cfg, s, now) && !HostPresent(cfg, s, now)
    requires exists u :: Eligible(cfg, s.beats, s.state.hostId, u, now)
    ensures Oldest(cfg, s.beats, s.state.hostId, Step(cfg, s, Tick(now, nowMs, pick)).state.hostId, now)
  {
    TickOutcome(cfg, s, now, nowMs, pick);
    assert Settled(cfg, s, now);
  }

  lemma OldestHeard(cfg: Config, s0: SyncState, es: seq<Event>, elected: string, now: int)
    requires Runs(cfg, Started(s0), es)
    requires var s := RunOf(cfg, Started(s0), es); Oldest(cfg, s.beats, s.state.hostId, elected, now)
    ensures var s := RunOf(cfg, Started(s0), es);
            LongestPresent(cfg, s, es, elected, now) <==>
            forall u | Eligible(cfg, s.beats, s.state.hostId, u, now) :: !Brackets(es, u, elected)
  {
    var s := RunOf(cfg, Started(s0), es);
    RecordsAreHeard(cfg, s0, es, elected);
    forall u | Eligible(cfg, s.beats, s.state.hostId, u, now)
      ensures var a, b := Heard(es, u), Heard(es, elected);
              a != [] && b != [] && b[|b| - 1] <= a[|a| - 1]
    {
      RecordsAreHeard(cfg, s0, es, u);
    }
  }

  lemma NobodyUnnamed(cfg: Config, s0: SyncState, es: seq<Event>)
    requires Runs(cfg, Started(s0), es)
    ensures "" !in RunOf(cfg, Started(s0), es).beats
  {
    assert es[..|es|] == es;
    RunHistory(cfg, s0, es, |es|, |es|);
  }

  /** After every run, present means heard, and last less than the timeout ago: five seconds unless configured. */
  lemma PresentIffHeard(cfg: Config, s0: SyncState, es: seq<Event>, user: string, now: int)
    requires Runs(cfg, Started(s0), es)
    ensures var heard := Heard(es, user);
            Live(cfg, RunOf(cfg, Started(s0), es).beats, user, now) <==>
              heard != [] && now - heard[|heard| - 1] < (if cfg.hostTimeout > 0 then cfg.hostTimeout else 5_000_000_000)
  {
    RecordsAreHeard(cfg, s0, es, user);
  }

  lemma PresentAreHeard(cfg: Config, s0: SyncState, es: seq<Event>, now: int, timeout: int, heard: set<string>)
    requires Runs(cfg, Started(s0), es)
    requires forall u :: u in heard <==> Heard(es, u) != [] && now - Heard(es, u)[|Heard(es, u)| - 1] < timeout
    ensures var beats := RunOf(cfg, Started(s0), es).beats;
            (set u | u in beats && Present(beats, u, now, timeout)) == heard
  {
    var beats := RunOf(cfg, Started(s0), es).beats;
    forall u
      ensures u in beats && Present(beats, u, now, timeout) <==> u in heard
    {
      RecordsAreHeard(cfg, s0, es, u);
    }
  }

  /** After every run a snapshot counts exactly the peers heard less than the timeout ago. */
  lemma SnapshotCountsHeard(cfg: Config, s0: SyncState, es: seq<Event>, order: seq<string>, now: int, timeout: int,
                            heard: set<string>)
    requires Runs(cfg, Started(s0), es) && Enabled(cfg, RunOf(cfg, Started(s0), es), PublishSnapshot(order, now))
    requires timeout == if cfg.hostTimeout > 0 then cfg.hostTimeout else 5_000_000_000
    requires forall u :: u in heard <==> Heard(es, u) != [] && now - Heard(es, u)[|Heard(es, u)| - 1] < timeout
    ensures SnapshotFrame(cfg, RunOf(cfg, Started(s0), es), order, now).stats.activePeers == |heard|
  {
    PresentAreHeard(cfg, s0, es, now, timeout, heard);
    PeersCounted(RunOf(cfg, Started(s0), es).beats, order, now, timeout);
  }

  /** Heard, and last at some instant before now and less than the timeout ago. */
  ghost predicate Candidate(cfg: Config, es: seq<Event>, user: string, now: int)
  {
    var heard := Heard(es, user);
    var timeout := if cfg.hostTimeout > 0 then cfg.hostTimeout else 5_000_000_000;
    heard != [] && heard[|heard| - 1] < now < heard[|heard| - 1] + timeout
  }

  lemma EligibleIffCandidate(cfg: Config, s0: SyncState, es: seq<Event>, user: string, now: int)
    requires Runs(cfg, Started(s0), es)
    ensures var s := RunOf(cfg, Started(s0), es);
            Eligible(cfg, s.beats, s.state.hostId, user, now) <==>
              user != s.state.hostId && Candidate(cfg, es, user, now)
  {
    RecordsAreHeard(cfg, s0, es, user);
  }

  /**
   After every run, with neither owner nor host present and another candidate heard, a tick hands the role
   to a candidate other than the departed host, last heard no later than any other candidate.
   */
  lemma ElectedByWhatWasHeard(cfg: Config, s0: SyncState, es: seq<Event>, now: int, nowMs: int,
                              pick: string, other: string)
    requires Runs(cfg, Started(s0), es) && Positive(cfg.gains)
    requires var s := RunOf(cfg, Started(s0), es);
             && Enabled(cfg, s, Tick(now, nowMs, pick)) && !OwnerPresent(cfg, s, now) && !HostPresent(cfg, s, now)
             && other != s.state.hostId && Candidate(cfg, es, other, now)
    ensures var s := RunOf(cfg, Started(s0), es);
            var t := Step(cfg, s, Tick(now, nowMs, pick));
            var a, b := Heard(es, t.state.hostId), Heard(es, other);
            && t.state.hostId != s.state.hostId && Candidate(cfg, es, t.state.hostId, now)
            && a[|a| - 1] <= b[|b| - 1] && t.state.token == s.state.token + 1
  {
    var s := RunOf(cfg, Started(s0), es);
    var elected := Step(cfg, s, Tick(now, nowMs, pick)).state.hostId;
    EligibleIffCandidate(cfg, s0, es, other, now);
    EligibleIffCandidate(cfg, s0, es, elected, now);
    RecordsAreHeard(cfg, s0, es, other);
    RecordsAreHeard(cfg, s0, es, elected);
    assert Oldest(cfg, s.beats, s.state.hostId, elected, now) by {
      NobodyUnnamed(cfg, s0, es);
      AbsentOwnerAndHost(cfg, s, now, nowMs, pick);
    }
    assert Step(cfg, s, Tick(now, nowMs, pick)).state.token == s.state.token + 1 by {
      NobodyUnnamed(cfg, s0, es);
      HandOverRaisesToken(cfg, s, now, nowMs, pick);
    }
  }

  lemma HandOverRaisesToken(cfg: Config, s: Server, now: int, nowMs: int, pick: string)
    requires "" !in s.beats && Enabled(cfg, s, Tick(now, nowMs, pick))
    ensures var t := Step(cfg, s, Tick(now, nowMs, pick));
            t.state.token == if t.state.hostId != s.state.hostId then s.state.token + 1 else s.state.token
  {
    DriftLeavesElection(cfg, s, now, nowMs);
  }

  /** The start of an epoch is stamped by an accepted command or a change of host, and by nothing else. */
  lemma EpochStartIff(cfg: Config, s: Server, e: Event)
    requires "" !in s.beats && Enabled(cfg, s, e)
    ensures var t := Step(cfg, s, e);
            if (e.Order? && e.token >= s.state.token) || t.state.hostId != s.state.hostId
            then (e.Order? || e.Adopt? || e.Tick?) && t.state.epochStarted == e.now
            else t.state.epochStarted == s.state.epochStarted
  {
    if e.Tick? {
      DriftLeavesElection(cfg, s, e.now, e.nowMs);
      DriftKeepsStart(cfg, s, e.now, e.nowMs);
    }
  }

  lemma DriftKeepsStart(cfg: Config, s: Server, now: int, nowMs: int)
    ensures DriftCorrected(cfg, s, now, nowMs).state.epochStarted == s.state.epochStarted
  {
  }

  // ---- owners ------------------------------------------------------------------------------------

  /** The first owner named, by the state a process starts from or by an adoption. */
  function FirstOwner(ownerId: string, es: seq<Event>): string
  {
    if ownerId != "" then ownerId
    else if es == [] then ""
    else
      var before := FirstOwner(ownerId, es[..|es| - 1]);
      if before == "" && es[|es| - 1].Adopt? then es[|es| - 1].ownerId else before
  }

  lemma StepOwner(cfg: Config, s: Server, e: Event)
    requires Enabled(cfg, s, e)
    ensures var t := Step(cfg, s, e);
            && t.state.ownerId == (if s.state.ownerId == "" && e.Adopt? then e.ownerId else s.state.ownerId)
            && (e.Adopt? && e.ownerId != "" ==>
                  t.state.hostId == if s.state.hostId == "" then e.ownerId else s.state.hostId)
            && (e.Adopt? ==> t.state.status == s.state.status && t.state.mediaTimeMs == s.state.mediaTimeMs
                             && t.state.wallTimeMs == s.state.wallTimeMs && t.state.rate == s.state.rate)
  {
    if e.Tick? {
      DriftLeavesElection(cfg, s, e.now, e.nowMs);
    }
  }

  /** After every run the owner is the first one named, and a room with an owner named by adoption has a host. */
  lemma {:induction false} OwnerIsFirstNamed(cfg: Config, s0: SyncState, es: seq<Event>)
    requires Runs(cfg, Started(s0), es)
    ensures RunOf(cfg, Started(s0), es).state.ownerId == FirstOwner(s0.ownerId, es)
    ensures (exists k :: 0 <= k < |es| && es[k].Adopt? && es[k].ownerId != "") ==>
              RunOf(cfg, Started(s0), es).state.hostId != ""
    decreases |es|
  {
    if es != [] {
      var n := |es| - 1;
      RunEnds(cfg, Started(s0), es);
      OwnerIsFirstNamed(cfg, s0, es[..n]);
      var s := RunOf(cfg, Started(s0), es[..n]);
      StepOwner(cfg, s, es[n]);
      if exists k :: 0 <= k < n && es[k].Adopt? && es[k].ownerId != "" {
        var k :| 0 <= k < n && es[k].Adopt? && es[k].ownerId != "";
        assert es[..n][k] == es[k];
        HostStays(cfg, s0, es);
      }
    }
  }

  lemma HostStays(cfg: Config, s0: SyncState, es: seq<Event>)
    requires Runs(cfg, Started(s0), es) && es != []
    ensures Runs(cfg, Started(s0), es[..|es| - 1])
    ensures RunOf(cfg, Started(s0), es[..|es| - 1]).state.hostId != "" ==>
              RunOf(cfg, Started(s0), es).state.hostId != ""
  {
    var n := |es| - 1;
    RunSplits(cfg, Started(s0), es, n);
    assert es[..|es|] == es;
    OneHostPerToken(cfg, s0, es, n, |es|);
  }

  /** What a heartbeat records as drift: how far the client says it is ahead of the room's whole position, plus
      the offset. */
  lemma DriftIsLead(cfg: Config, s: Server, user: string, mediaMs: int, t1: int, t2: int, t3: int, now: int)
    requires user != "" && s.state.status.Playing? && RateOk(s.state)
    ensures var b := Step(cfg, s, Heartbeat(user, mediaMs, t1, t2, t3, now)).beats[user];
            b.drift - b.offset == (mediaMs - Position(s.state, t3).Floor) as real
  {
    MulMonotone(0.0, Elapsed(s.state, t3) as real, s.state.rate);
    assert AdvanceMediaTime(s.state, t3) == s.state.mediaTimeMs + Played(s.state, t3).Floor;
    assert Position(s.state, t3).Floor == s.state.mediaTimeMs + Played(s.state, t3).Floor;
  }

  // ---- a latecomer elected, and a tie ------------------------------------------------------------

  /** A peer heard at one instant with nothing measured yet. */
  function Hello(user: string, now: int): Event
  {
    Heartbeat(user, 0, 0, 0, 0, now)
  }

  /** A default configuration, with drift correction on or off. */
  predicate Default(cfg: Config)
  {
    cfg.hostTimeout <= 0 && cfg.heartbeatSec <= 0.0 && cfg.gains == DEFAULT_GAINS
  }

  lemma HelloRuns(cfg: Config, s0: SyncState, es: seq<Event>, user: string, now: int)
    requires Runs(cfg, Started(s0), es) && user != ""
    ensures Runs(cfg, Started(s0), es + [Hello(user, now)])
    ensures var s, t := RunOf(cfg, Started(s0), es), RunOf(cfg, Started(s0), es + [Hello(user, now)]);
            && t.state == s.state && t.beats.Keys == s.beats.Keys + {user} && t.beats[user].lastSeen == now
            && (forall u | u in s.beats && u != user :: t.beats[u] == s.beats[u])
  {
    RunExtends(cfg, Started(s0), es, Hello(user, now));
    StepHeard(cfg, RunOf(cfg, Started(s0), es), Hello(user, now));
  }

  lemma ThreeHellos(cfg: Config)
    ensures var es := [] + [Hello("p", 0)] + [Hello("q", 1)] + [Hello("p", 2)];
            && Runs(cfg, Started(FreshState("o")), es)
            && (var s := RunOf(cfg, Started(FreshState("o")), es);
                && s.state == FreshState("o") && s.beats.Keys == {"p", "q"}
                && s.beats["p"].lastSeen == 2 && s.beats["q"].lastSeen == 1)
  {
    HelloRuns(cfg, FreshState("o"), [], "p", 0);
    HelloRuns(cfg, FreshState("o"), [] + [Hello("p", 0)], "q", 1);
    HelloRuns(cfg, FreshState("o"), [] + [Hello("p", 0)] + [Hello("q", 1)], "p", 2);
  }

  /** p was there first and is heard most recently: the tick elects q, who came later. */
  lemma LatecomerElected(cfg: Config, nowMs: int)
    requires Default(cfg) && !cfg.driftCorrection
    ensures var es := [] + [Hello("p", 0)] + [Hello("q", 1)] + [Hello("p", 2)];
            var s0 := Started(FreshState("o"));
            && Runs(cfg, s0, es) && Enabled(cfg, RunOf(cfg, s0, es), Tick(3, nowMs, "q"))
            && Step(cfg, RunOf(cfg, s0, es), Tick(3, nowMs, "q")).state.hostId == "q"
            && Eligible(cfg, RunOf(cfg, s0, es).beats, "o", "p", 3) && Brackets(es, "p", "q")
  {
    ThreeHellos(cfg);
    HeardThrice();
    var s := RunOf(cfg, Started(FreshState("o")), [] + [Hello("p", 0)] + [Hello("q", 1)] + [Hello("p", 2)]);
    assert Oldest(cfg, s.beats, "o", "q", 3);
  }

  lemma HeardAppend(es: seq<Event>, e: Event, user: string)
    ensures Heard(es + [e], user) == Heard(es, user) + if e.Heartbeat? && e.user == user then [e.now] else []
  {
    assert (es + [e])[..|es|] == es;
  }

  lemma HeardThrice()
    ensures var es := [] + [Hello("p", 0)] + [Hello("q", 1)] + [Hello("p", 2)];
            Heard(es, "p") == [0, 2] && Heard(es, "q") == [1]
  {
    forall user: string
      ensures var es := [] + [Hello("p", 0)] + [Hello("q", 1)] + [Hello("p", 2)];
              Heard(es, user) == (if user == "p" then [0] else []) + (if user == "q" then [1] else [])
                                 + (if user == "p" then [2] else [])
    {
      HeardAppend([], Hello("p", 0), user);
      HeardAppend([] + [Hello("p", 0)], Hello("q", 1), user);
      HeardAppend([] + [Hello("p", 0)] + [Hello("q", 1)], Hello("p", 2), user);
    }
  }

  /** Two peers last heard at one instant: the walk decides. */
  lemma TiedSelections(cfg: Config)
    requires Default(cfg)
    ensures var es := [] + [Hello("p", 0)] + [Hello("q", 0)];
            var s0 := Started(FreshState("o"));
            && Runs(cfg, s0, es)
            && IsSelection(cfg, RunOf(cfg, s0, es).beats, "o", "p", 1)
            && IsSelection(cfg, RunOf(cfg, s0, es).beats, "o", "q", 1)
  {
    HelloRuns(cfg, FreshState("o"), [], "p", 0);
    HelloRuns(cfg, FreshState("o"), [] + [Hello("p", 0)], "q", 0);
  }

  // ---- with drift correction on ------------------------------------------------------------------

  /** With exactly two peers present and a measured reference, a cycle sees that peer's drift. */
  lemma TwoPeerCycle(cfg: Config, s: Server, now: int)
    requires Default(cfg) && Measured(cfg, s, now) && |LivePeers(cfg, s.beats, now)| == 2
    ensures DriftCycle(cfg, s, now)
         == Correction(cfg.gains, s.integral, s.beats[Reference(s)].drift, 1.0, 2, 40)
  {
    MedianOfOne(s.beats[Reference(s)].drift);
  }

  /** The owner's second heartbeat measures a delay of 10, so an offset of -5. */
  function Measuring(mediaMs: int, now: int): seq<Event>
  {
    [Heartbeat("o", mediaMs, 0, 0, 0, now), Heartbeat("o", mediaMs, 10, 0, 0, now)]
  }

  lemma MeasuringRuns(cfg: Config, s0: SyncState, es: seq<Event>, mediaMs: int, now: int)
    requires Runs(cfg, Started(s0), es)
    requires var s := RunOf(cfg, Started(s0), es);
             s.state.mediaTimeMs == 0 && s.state.wallTimeMs == 0 && "o" !in s.beats
    ensures Runs(cfg, Started(s0), es + Measuring(mediaMs, now))
    ensures var s := RunOf(cfg, Started(s0), es);
            RunOf(cfg, Started(s0), es + Measuring(mediaMs, now)) ==
            s.(beats := s.beats["o" := Beat(10.0, -5.0, mediaMs as real - 5.0, now, 10, 0, 0, true)])
  {
    var s := RunOf(cfg, Started(s0), es);
    var ms := Measuring(mediaMs, now);
    assert AdvanceMediaTime(s.state, 0) == 0;
    RunExtends(cfg, Started(s0), es, ms[0]);
    var first := Beat(0.0, 0.0, mediaMs as real, now, 0, 0, 0, true);
    assert Step(cfg, s, ms[0]) == s.(beats := s.beats["o" := first]);
    RunExtends(cfg, Started(s0), es + [ms[0]], ms[1]);
    assert es + [ms[0]] + [ms[1]] == es + ms;
    assert s.beats["o" := first]["o" := Beat(10.0, -5.0, mediaMs as real - 5.0, now, 10, 0, 0, true)]
        == s.beats["o" := Beat(10.0, -5.0, mediaMs as real - 5.0, now, 10, 0, 0, true)];
  }

  /** A peer is elected while the owner is away, in a fresh room with correction on. */
  lemma PeerTakesOver(cfg: Config)
    requires Default(cfg)
    ensures var es := [] + [Hello("p", 0)] + [Tick(1, 0, "p")];
            var s0 := Started(FreshState("o"));
            && Runs(cfg, s0, es)
            && (var s := RunOf(cfg, s0, es);
                && s.state == FreshState("o").(hostId := "p", epoch := 1, token := 1, epochStarted := 1)
                && s.beats.Keys == {"p"} && s.beats["p"].lastSeen == 0)
  {
    var s0 := Started(FreshState("o"));
    HelloRuns(cfg, FreshState("o"), [], "p", 0);
    var s := RunOf(cfg, s0, [] + [Hello("p", 0)]);
    assert Oldest(cfg, s.beats, "o", "p", 1);
    RunExtends(cfg, s0, [] + [Hello("p", 0)], Tick(1, 0, "p"));
    assert !Measured(cfg, s, 1) && LivePeers(cfg, s.beats, 1) == {"p"};
    assert DriftCorrected(cfg, s, 1, 0).(integral := s.integral) == s;
  }

  /** The owner comes back far off: as long as that lasts, a tick ends before giving them the role back. */
  lemma OwnerKeptOut(cfg: Config, nowMs: int, pick: string)
    requires Default(cfg) && cfg.driftCorrection
    ensures var es := [] + [Hello("p", 0)] + [Tick(1, 0, "p")] + Measuring(100_000, 1);
            var s0 := Started(FreshState("o"));
            && Runs(cfg, s0, es)
            && (var s := RunOf(cfg, s0, es);
                && OwnerPresent(cfg, s, 2) && Enabled(cfg, s, Tick(2, nowMs, "o"))
                && (Enabled(cfg, s, Tick(2, nowMs, pick)) ==> Step(cfg, s, Tick(2, nowMs, pick)).state.hostId == "p"))
  {
    PeerTakesOver(cfg);
    MeasuringRuns(cfg, FreshState("o"), [] + [Hello("p", 0)] + [Tick(1, 0, "p")], 100_000, 1);
    var s := RunOf(cfg, Started(FreshState("o")), [] + [Hello("p", 0)] + [Tick(1, 0, "p")] + Measuring(100_000, 1));
    assert LivePeers(cfg, s.beats, 2) == {"o", "p"};
    TwoPeerCycle(cfg, s, 2);
    assert Forced(cfg, s, 2) && Oldest(cfg, s.beats, "p", "o", 2);
  }

  /** The owner plays a fresh room and is measured 995 ms ahead of it. */
  lemma OwnerAhead(cfg: Config) returns (s: Server)
    requires Default(cfg)
    ensures var es := [] + [Hello("p", 0)] + [Order(Play, 0, 0, 0)] + Measuring(1000, 0);
            Runs(cfg, Started(FreshState("o")), es) && s == RunOf(cfg, Started(FreshState("o")), es)
    ensures s.state.status.Playing? && s.state.rate == 1.0 && s.state.mediaTimeMs == 0 && s.state.wallTimeMs == 0
    ensures s.state.hostId == "o" && s.state.ownerId == "o" && s.integral == 0.0
    ensures s.beats.Keys == {"o", "p"} && s.beats["p"].lastSeen == 0
    ensures s.beats["o"] == Beat(10.0, -5.0, 995.0, 0, 10, 0, 0, true)
  {
    var s0 := Started(FreshState("o"));
    HelloRuns(cfg, FreshState("o"), [], "p", 0);
    RunExtends(cfg, s0, [] + [Hello("p", 0)], Order(Play, 0, 0, 0));
    RunExtends(cfg, s0, [], Hello("p", 0));
    var es := [] + [Hello("p", 0)] + [Order(Play, 0, 0, 0)];
    assert RunOf(cfg, s0, es).beats.Keys == {"p"} && RunOf(cfg, s0, es).integral == 0.0;
    MeasuringRuns(cfg, FreshState("o"), es, 1000, 0);
    s := RunOf(cfg, s0, es + Measuring(1000, 0));
  }

  /** The cycle then: 0.15 times the drift and 0.02 times the clamped integral. */
  lemma OwnerAheadCycle(cfg: Config, s: Server)
    requires Default(cfg) && s.beats.Keys == {"o", "p"} && s.beats["p"].lastSeen == 0
    requires s.beats["o"] == Beat(10.0, -5.0, 995.0, 0, 10, 0, 0, true) && s.state.ownerId == "o" && s.integral == 0.0
    ensures DriftCycle(cfg, s, 1).outcome == Outcome(153.25, false)
  {
    assert LivePeers(cfg, s.beats, 1) == {"o", "p"};
    TwoPeerCycle(cfg, s, 1);
  }

  /** A second into playing, a correction of 153 ms takes the room back by 1153. */
  lemma NudgeRewinds(cfg: Config)
    requires Default(cfg) && cfg.driftCorrection
    ensures var es := [] + [Hello("p", 0)] + [Order(Play, 0, 0, 0)] + Measuring(1000, 0);
            var s0 := Started(FreshState("o"));
            && Runs(cfg, s0, es) && Runs(cfg, s0, es + [Tick(1, 1000, "p")])
            && Trunc(DriftCycle(cfg, RunOf(cfg, s0, es), 1).outcome.correctionMs) == 153
            && Position(RunOf(cfg, s0, es).state, 1000) == 1000.0
            && Position(RunOf(cfg, s0, es + [Tick(1, 1000, "p")]).state, 1000) == -153.0
  {
    var s := OwnerAhead(cfg);
    OwnerAheadCycle(cfg, s);
    assert 153.25.Floor == 153;
    assert Played(s.state, 1000) == 1000.0;
    assert Oldest(cfg, s.beats, "o", "p", 1);
    RunExtends(cfg, Started(FreshState("o")),
               [] + [Hello("p", 0)] + [Order(Play, 0, 0, 0)] + Measuring(1000, 0), Tick(1, 1000, "p"));
    var t := DriftCorrected(cfg, s, 1, 1000);
    assert t.state == Nudged(s.state, 153.25, 1000) && HostChecked(cfg, t, 1, "p") == t;
    NudgeJumps(s.state, 153.25, 1000, 1000);
  }
}
