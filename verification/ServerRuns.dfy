/**
 What every run of the room server keeps. Each event is one or two primitive acts; an invariant over
 the history variables is shown to survive every act, hence every event, hence every run of one
 process lifetime.
 */
module ServerRuns {
  import opened Options
  import opened SyncStates
  import opened Heartbeats
  import opened RoomServer

  // ---- events as primitive acts ------------------------------------------------------------------

  datatype Act =
    | Keep(beats: map<string, Beat>, integral: real, ownerId: string)
    | Announce(frame: Frame)
    | Raise(next: SyncState)
    | Migrate(successor: string, now: int)

  function Do(cfg: Config, s: Server, a: Act): Server
  {
    match a
    case Keep(beats, integral, ownerId) =>
      s.(beats := beats, integral := integral, state := s.state.(ownerId := ownerId))
    case Announce(f) => Announced(cfg, s, f)
    case Raise(next) => Raised(cfg, s, next)
    case Migrate(successor, now) => Migrated(s, successor, now)
  }

  predicate ActOk(s: Server, a: Act)
  {
    match a
    case Keep(beats, _, _) => "" !in beats
    case Announce(f) => IsFull(f) && f.state == ToWire(s.state)
    case Raise(next) =>
      && next.epoch == s.state.epoch + 1
      && next.token == s.state.token
      && next.hostId == (if s.state.hostId == "" then next.hostId else s.state.hostId)
    case Migrate(successor, _) => successor != "" && successor != s.state.hostId
  }

  predicate ActsOk(cfg: Config, s: Server, acts: seq<Act>)
    decreases |acts|
  {
    acts == [] || (ActOk(s, acts[0]) && ActsOk(cfg, Do(cfg, s, acts[0]), acts[1..]))
  }

  function DoAll(cfg: Config, s: Server, acts: seq<Act>): Server
    decreases |acts|
  {
    if acts == [] then s else DoAll(cfg, Do(cfg, s, acts[0]), acts[1..])
  }

  lemma OneAct(cfg: Config, s: Server, a: Act)
    requires ActOk(s, a)
    ensures ActsOk(cfg, s, [a]) && DoAll(cfg, s, [a]) == Do(cfg, s, a)
  {
  }

  lemma ActThen(cfg: Config, s: Server, a: Act, rest: seq<Act>)
    requires ActOk(s, a) && ActsOk(cfg, Do(cfg, s, a), rest)
    ensures ActsOk(cfg, s, [a] + rest)
    ensures DoAll(cfg, s, [a] + rest) == DoAll(cfg, Do(cfg, s, a), rest)
  {
    assert ([a] + rest)[1..] == rest;
  }

  /** A host check is at most one act: hand over, pause, or leave everything alone. */
  lemma HostCheckIsActs(cfg: Config, s: Server, now: int, pick: string) returns (acts: seq<Act>)
    requires "" !in s.beats && IsSelection(cfg, s.beats, s.state.hostId, pick, now)
    ensures ActsOk(cfg, s, acts) && HostChecked(cfg, s, now, pick) == DoAll(cfg, s, acts)
  {
    var t := HostChecked(cfg, s, now, pick);
    acts := [];
    if t.state.hostId != s.state.hostId {
      OneAct(cfg, s, Migrate(t.state.hostId, now));
      acts := [Migrate(t.state.hostId, now)];
    } else if t.state.epoch != s.state.epoch {
      OneAct(cfg, s, Raise(t.state));
      acts := [Raise(t.state)];
    }
  }

  lemma TickIsActs(cfg: Config, s: Server, now: int, nowMs: int, pick: string) returns (acts: seq<Act>)
    requires "" !in s.beats && IsSelection(cfg, s.beats, s.state.hostId, pick, now)
    ensures ActsOk(cfg, s, acts) && Ticked(cfg, s, now, nowMs, pick) == DoAll(cfg, s, acts)
  {
    if !cfg.driftCorrection {
      acts := HostCheckIsActs(cfg, s, now, pick);
    } else if Forced(cfg, s, now) {
      var a, b := Keep(s.beats, 0.0, s.state.ownerId), Announce(Update(ToWire(s.state)));
      OneAct(cfg, Do(cfg, s, a), b);
      ActThen(cfg, s, a, [b]);
      acts := [a] + [b];
    } else {
      var r := DriftCycle(cfg, s, now);
      var a := Keep(s.beats, r.integral, s.state.ownerId);
      var t := Do(cfg, s, a);
      if r.outcome.correctionMs != 0.0 && s.state.status.Playing? {
        var b := Raise(Nudged(s.state, r.outcome.correctionMs, nowMs));
        acts := HostCheckIsActs(cfg, Do(cfg, t, b), now, pick);
        ActThen(cfg, t, b, acts);
        acts := [b] + acts;
      } else {
        acts := HostCheckIsActs(cfg, t, now, pick);
      }
      ActThen(cfg, s, a, acts);
      acts := [a] + acts;
    }
  }

  /** Every event is a short sequence of acts. */
  lemma StepIsActs(cfg: Config, s: Server, e: Event) returns (acts: seq<Act>)
    requires "" !in s.beats && Enabled(cfg, s, e)
    ensures ActsOk(cfg, s, acts) && Step(cfg, s, e) == DoAll(cfg, s, acts)
  {
    acts := [];
    match e {
      case Tick(now, nowMs, pick) =>
        acts := TickIsActs(cfg, s, now, nowMs, pick);
      case Adopt(ownerId, now) =>
        if ownerId != "" {
          var a := Keep(s.beats, s.integral, if s.state.ownerId == "" then ownerId else s.state.ownerId);
          var t := Do(cfg, s, a);
          if s.state.hostId == "" {
            var b := Raise(t.state.(hostId := ownerId, epoch := t.state.epoch + 1, epochStarted := now));
            OneAct(cfg, t, b);
            acts := [b];
          }
          ActThen(cfg, s, a, acts);
          acts := [a] + acts;
        }
      case Order(c, token, nowMs, now) =>
        if Accepts(s, token) {
          acts := [Raise(Commanded(s.state, c, nowMs, now))];
          OneAct(cfg, s, acts[0]);
        }
      case Heartbeat(user, mediaMs, t1, t2, t3, now) =>
        acts := [Keep(s.beats[user := BeatAfter(s, user, mediaMs, t1, t2, t3, now)], s.integral, s.state.ownerId)];
        OneAct(cfg, s, acts[0]);
      case PublishSnapshot(order, now) =>
        acts := [Announce(SnapshotFrame(cfg, s, order, now))];
        OneAct(cfg, s, acts[0]);
    }
  }

  // ---- the invariant -----------------------------------------------------------------------------

  /** The history holds exactly the epochs of this lifetime, each with the state it had. */
  ghost predicate HistoryOk(s0: SyncState, s: Server)
  {
    && s0.epoch <= s.state.epoch
    && (forall e: nat :: e in s.hist <==> s0.epoch <= e <= s.state.epoch)
    && s.hist[s.state.epoch] == ToWire(s.state)
    && s.hist[s0.epoch] == ToWire(s0)
    && (forall e | e in s.hist :: s.hist[e].epoch == e)
  }

  /** How an earlier state and a later one relate: tokens grow, a host stays and changes only with the token. */
  predicate HostOrder(v: Wire, w: Wire)
  {
    && v.token <= w.token
    && (v.hostId.Some? ==> w.hostId.Some?)
    && (v.hostId.Some? && v.token == w.token ==> v.hostId == w.hostId)
  }

  ghost predicate HostsOk(s: Server)
  {
    forall d, e | d in s.hist && e in s.hist && d <= e :: HostOrder(s.hist[d], s.hist[e])
  }

  /** A frame says what its epoch's state says. */
  predicate Agrees(f: Frame, w: Wire)
  {
    if IsFull(f) then f.state == w
    else f.newEpoch == w.epoch && f.newToken == w.token && w.hostId == Some(f.newHost)
  }

  ghost predicate FramesOk(s: Server)
  {
    forall f | f in s.sent :: FrameEpoch(f) in s.hist && Agrees(f, s.hist[FrameEpoch(f)])
  }

  lemma SameEpochSameToken(s: Server, f: Frame, g: Frame)
    requires FramesOk(s) && f in s.sent && g in s.sent && FrameEpoch(f) == FrameEpoch(g)
    ensures FrameToken(f) == FrameToken(g)
  {
  }

  ghost predicate FramesSorted(s: Server)
  {
    && (forall i, j | 0 <= i <= j < |s.sent| :: FrameEpoch(s.sent[i]) <= FrameEpoch(s.sent[j]))
    && (forall f | f in s.sent :: FrameEpoch(f) <= s.state.epoch)
  }

  predicate Heralds(fs: seq<Frame>, epoch: nat)
  {
    exists k :: 0 <= k < |fs| && FrameEpoch(fs[k]) == epoch
  }

  /** No epoch of the lifetime went unannounced. */
  ghost predicate Announces(s0: SyncState, s: Server)
  {
    forall e: nat | s0.epoch < e <= s.state.epoch :: Heralds(s.sent, e)
  }

  function Migrations(fs: seq<Frame>): nat
  {
    if fs == [] then 0
    else Migrations(fs[..|fs| - 1]) + if IsFull(fs[|fs| - 1]) then 0 else 1
  }

  /** The token a frame carried plus the hand-overs since is the token now. */
  ghost predicate TokensOk(s0: SyncState, s: Server)
  {
    && s0.token + Migrations(s.sent) == s.state.token
    && Migrations(s.sent) <= s.state.epoch - s0.epoch
    && forall k | 0 <= k < |s.sent| :: FrameToken(s.sent[k]) + Migrations(s.sent[k + 1..]) == s.state.token
  }

  /** The log the ring keeps the tail of: every full frame ever broadcast, tagged with its epoch. */
  function FullLog(fs: seq<Frame>): seq<Entry>
  {
    if fs == [] then []
    else
      var f := fs[|fs| - 1];
      FullLog(fs[..|fs| - 1]) + if IsFull(f) then [Entry(FrameEpoch(f), f)] else []
  }

  ghost predicate RingOk(cfg: Config, s: Server)
  {
    s.ring == Trimmed(FullLog(s.sent), RingSize(cfg))
  }

  ghost predicate Inv(cfg: Config, s0: SyncState, s: Server)
  {
    && "" !in s.beats
    && HistoryOk(s0, s) && HostsOk(s)
    && FramesOk(s) && FramesSorted(s) && Announces(s0, s)
    && TokensOk(s0, s)
    && RingOk(cfg, s)
  }

  lemma StartedInv(cfg: Config, s0: SyncState)
    ensures Inv(cfg, s0, Started(s0))
  {
  }

  // ---- what an act amounts to --------------------------------------------------------------------

  /** Nothing on the wire changed and nothing was broadcast. */
  ghost predicate Quiet(s: Server, t: Server)
  {
    t.sent == s.sent && t.hist == s.hist && t.ring == s.ring && ToWire(t.state) == ToWire(s.state)
  }

  /** The two states differ at most in who hosts: host, token and epoch. */
  predicate SameSample(v: Wire, w: Wire)
  {
    v.(hostId := w.hostId, token := w.token, epoch := w.epoch, epochStarted := w.epochStarted) == w
  }

  /** Exactly one frame was broadcast, it says what the new state says, and a change opened one new epoch. */
  ghost predicate Spoke(cfg: Config, s: Server, t: Server, f: Frame)
  {
    && t.sent == s.sent + [f]
    && Agrees(f, ToWire(t.state))
    && HostOrder(ToWire(s.state), ToWire(t.state))
    && t.state.token == s.state.token + (if IsFull(f) then 0 else 1)
    && (!IsFull(f) ==> SameSample(ToWire(s.state), ToWire(t.state)))
    && t.ring == (if IsFull(f) then AddedToRing(cfg, t.(ring := s.ring), f) else s.ring)
    && (if t.state.epoch == s.state.epoch
        then IsFull(f) && t.hist == s.hist && ToWire(t.state) == ToWire(s.state)
        else t.state.epoch == s.state.epoch + 1 && t.hist == s.hist[t.state.epoch := ToWire(t.state)])
  }

  lemma ActEffect(cfg: Config, s: Server, a: Act)
    requires ActOk(s, a)
    ensures var t := Do(cfg, s, a);
            if a.Keep? then Quiet(s, t) else t.sent != [] && Spoke(cfg, s, t, t.sent[|t.sent| - 1])
  {
  }

  // ---- every act keeps the invariant -------------------------------------------------------------

  lemma SpeakingKeepsHistory(cfg: Config, s0: SyncState, s: Server, t: Server, f: Frame)
    requires HistoryOk(s0, s) && Spoke(cfg, s, t, f)
    ensures HistoryOk(s0, t)
  {
  }

  lemma SpeakingKeepsHosts(cfg: Config, s0: SyncState, s: Server, t: Server, f: Frame)
    requires HistoryOk(s0, s) && HostsOk(s) && Spoke(cfg, s, t, f)
    ensures HostsOk(t)
  {
    var last := s.state.epoch;
    forall d, e | d in t.hist && e in t.hist && d <= e
      ensures HostOrder(t.hist[d], t.hist[e])
    {
      if e == last + 1 && d <= last {
        assert HostOrder(s.hist[d], s.hist[last]);
      }
    }
  }

  lemma SpeakingKeepsFrames(cfg: Config, s0: SyncState, s: Server, t: Server, f: Frame)
    requires HistoryOk(s0, s) && FramesOk(s) && Spoke(cfg, s, t, f)
    ensures FramesOk(t)
  {
    forall g | g in t.sent
      ensures FrameEpoch(g) in t.hist && Agrees(g, t.hist[FrameEpoch(g)])
    {
      assert g in s.sent || g == f;
    }
  }

  lemma SpeakingKeepsSorted(cfg: Config, s0: SyncState, s: Server, t: Server, f: Frame)
    requires FramesSorted(s) && Announces(s0, s) && Spoke(cfg, s, t, f)
    ensures FramesSorted(t) && Announces(s0, t)
  {
    assert FrameEpoch(f) == t.state.epoch;
    assert forall g | g in t.sent :: g in s.sent || g == f;
    forall e: nat | s0.epoch < e <= t.state.epoch
      ensures Heralds(t.sent, e)
    {
      if e == t.state.epoch {
        assert t.sent[|s.sent|] == f;
      } else {
        assert Heralds(s.sent, e);
        var k :| 0 <= k < |s.sent| && FrameEpoch(s.sent[k]) == e;
        assert t.sent[k] == s.sent[k];
      }
    }
  }

  lemma MigrationsAppend(fs: seq<Frame>, f: Frame)
    ensures Migrations(fs + [f]) == Migrations(fs) + if IsFull(f) then 0 else 1
  {
    assert (fs + [f])[..|fs|] == fs;
  }

  lemma SpeakingKeepsTokens(cfg: Config, s0: SyncState, s: Server, t: Server, f: Frame)
    requires TokensOk(s0, s) && Spoke(cfg, s, t, f)
    ensures TokensOk(s0, t)
  {
    MigrationsAppend(s.sent, f);
    forall k | 0 <= k < |t.sent|
      ensures FrameToken(t.sent[k]) + Migrations(t.sent[k + 1..]) == t.state.token
    {
      if k < |s.sent| {
        assert t.sent[k + 1..] == s.sent[k + 1..] + [f];
        MigrationsAppend(s.sent[k + 1..], f);
      } else {
        assert t.sent[k + 1..] == [];
      }
    }
  }

  lemma FullLogAppend(fs: seq<Frame>, f: Frame)
    ensures FullLog(fs + [f]) == FullLog(fs) + if IsFull(f) then [Entry(FrameEpoch(f), f)] else []
  {
    assert (fs + [f])[..|fs|] == fs;
  }

  lemma TrimmedAppend(log: seq<Entry>, en: Entry, size: nat)
    requires size > 0
    ensures Trimmed(Trimmed(log, size) + [en], size) == Trimmed(log + [en], size)
  {
  }

  lemma SpeakingKeepsRing(cfg: Config, s: Server, t: Server, f: Frame)
    requires RingOk(cfg, s) && Spoke(cfg, s, t, f)
    ensures RingOk(cfg, t)
  {
    FullLogAppend(s.sent, f);
    if IsFull(f) {
      TrimmedAppend(FullLog(s.sent), Entry(FrameEpoch(f), f), RingSize(cfg));
    }
  }

  /** Nothing already in a history is ever rewritten. */
  ghost predicate Extends(s: Server, t: Server)
  {
    && s.sent <= t.sent
    && (forall e | e in s.hist :: e in t.hist && t.hist[e] == s.hist[e])
    && s.state.epoch <= t.state.epoch
  }

  lemma SpeakingExtends(cfg: Config, s0: SyncState, s: Server, t: Server, f: Frame)
    requires HistoryOk(s0, s) && Spoke(cfg, s, t, f)
    ensures Extends(s, t)
  {
  }

  lemma QuietKeepsInv(cfg: Config, s0: SyncState, s: Server, t: Server)
    requires Inv(cfg, s0, s) && Quiet(s, t) && "" !in t.beats
    ensures Inv(cfg, s0, t) && Extends(s, t)
  {
  }

  lemma SpeakingKeepsInv(cfg: Config, s0: SyncState, s: Server, t: Server, f: Frame)
    requires Inv(cfg, s0, s) && Spoke(cfg, s, t, f) && "" !in t.beats
    ensures Inv(cfg, s0, t) && Extends(s, t)
  {
    assert HistoryOk(s0, t) by { SpeakingKeepsHistory(cfg, s0, s, t, f); }
    assert HostsOk(t) by { SpeakingKeepsHosts(cfg, s0, s, t, f); }
    assert FramesOk(t) by { SpeakingKeepsFrames(cfg, s0, s, t, f); }
    assert FramesSorted(t) && Announces(s0, t) by { SpeakingKeepsSorted(cfg, s0, s, t, f); }
    assert TokensOk(s0, t) by { SpeakingKeepsTokens(cfg, s0, s, t, f); }
    assert RingOk(cfg, t) by { SpeakingKeepsRing(cfg, s, t, f); }
    assert Extends(s, t) by { SpeakingExtends(cfg, s0, s, t, f); }
  }

  lemma ActKeepsInv(cfg: Config, s0: SyncState, s: Server, a: Act)
    requires Inv(cfg, s0, s) && ActOk(s, a)
    ensures Inv(cfg, s0, Do(cfg, s, a)) && Extends(s, Do(cfg, s, a))
  {
    var t := Do(cfg, s, a);
    ActEffect(cfg, s, a);
    if a.Keep? {
      QuietKeepsInv(cfg, s0, s, t);
    } else {
      SpeakingKeepsInv(cfg, s0, s, t, t.sent[|t.sent| - 1]);
    }
  }

  lemma {:induction false} ActsKeepInv(cfg: Config, s0: SyncState, s: Server, acts: seq<Act>)
    requires Inv(cfg, s0, s) && ActsOk(cfg, s, acts)
    ensures Inv(cfg, s0, DoAll(cfg, s, acts)) && Extends(s, DoAll(cfg, s, acts))
    decreases |acts|
  {
    if acts != [] {
      ActKeepsInv(cfg, s0, s, acts[0]);
      ActsKeepInv(cfg, s0, Do(cfg, s, acts[0]), acts[1..]);
    }
  }

  /** Every event keeps the invariant. */
  lemma StepKeepsInv(cfg: Config, s0: SyncState, s: Server, e: Event)
    requires Inv(cfg, s0, s) && Enabled(cfg, s, e)
    ensures Inv(cfg, s0, Step(cfg, s, e)) && Extends(s, Step(cfg, s, e))
  {
    var acts := StepIsActs(cfg, s, e);
    ActsKeepInv(cfg, s0, s, acts);
  }

  lemma {:induction false} RunKeepsInv(cfg: Config, s0: SyncState, s: Server, es: seq<Event>)
    requires Inv(cfg, s0, s) && Runs(cfg, s, es)
    ensures Inv(cfg, s0, RunOf(cfg, s, es)) && Extends(s, RunOf(cfg, s, es))
    decreases |es|
  {
    if es != [] {
      StepKeepsInv(cfg, s0, s, es[0]);
      RunKeepsInv(cfg, s0, Step(cfg, s, es[0]), es[1..]);
    }
  }
}
