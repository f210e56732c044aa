/**
 Reconnect recovery: the bounded replay ring as the tail of the full log, and exactly when a client
 that folds the answer to Recover ends in the server's current state.
 */
module RecoveryReplay {
  import opened Options
  import opened SyncStates
  import opened Statistics
  import opened RoomServer
  import opened ServerRuns
  import opened SyncClients

  // ---- the ring and the log ----------------------------------------------------------------------

  lemma {:induction false} FullLogFrom(fs: seq<Frame>)
    ensures forall en | en in FullLog(fs) :: en.frame in fs && IsFull(en.frame) && en.epoch == FrameEpoch(en.frame)
  {
    if fs != [] {
      FullLogFrom(fs[..|fs| - 1]);
    }
  }

  predicate EpochsSorted(log: seq<Entry>)
  {
    forall i, j | 0 <= i <= j < |log| :: log[i].epoch <= log[j].epoch
  }

  lemma {:induction false} FullLogSorted(fs: seq<Frame>)
    requires forall i, j | 0 <= i <= j < |fs| :: FrameEpoch(fs[i]) <= FrameEpoch(fs[j])
    ensures EpochsSorted(FullLog(fs))
  {
    if fs != [] {
      var n := |fs| - 1;
      FullLogSorted(fs[..n]);
      FullLogFrom(fs[..n]);
      assert forall en | en in FullLog(fs[..n]) :: en.epoch <= FrameEpoch(fs[n]);
    }
  }

  /** In every run the ring is the last min(n, size) full frames broadcast, in epoch order. */
  lemma RingIsTailOfLog(cfg: Config, s0: SyncState, es: seq<Event>)
    requires Runs(cfg, Started(s0), es)
    ensures var s := RunOf(cfg, Started(s0), es);
            var log := FullLog(s.sent);
            && |s.ring| == (if |log| < RingSize(cfg) then |log| else RingSize(cfg))
            && s.ring == log[|log| - |s.ring|..]
            && EpochsSorted(s.ring)
            && (forall en | en in s.ring :: en.frame in s.sent && IsFull(en.frame) && en.epoch == FrameEpoch(en.frame))
  {
    var s := RunOf(cfg, Started(s0), es);
    assert RingOk(cfg, s) && FramesSorted(s) by {
      StartedInv(cfg, s0);
      RunKeepsInv(cfg, s0, Started(s0), es);
    }
    FullLogSorted(s.sent);
    FullLogFrom(s.sent);
  }

  // ---- what is replayed --------------------------------------------------------------------------

  lemma {:induction false} NewerFramesFrom(ring: seq<Entry>, since: nat)
    ensures forall f | f in NewerFrames(ring, since) ::
              exists k :: 0 <= k < |ring| && ring[k].frame == f && ring[k].epoch > since
  {
    if ring != [] {
      NewerFramesFrom(ring[..|ring| - 1], since);
    }
  }

  /** Replayed frames are full frames the server broadcast, all newer than the epoch asked from. */
  lemma ReplayedFrames(cfg: Config, s: Server, since: nat)
    requires RingOk(cfg, s)
    ensures forall f | f in NewerFrames(s.ring, since) :: f in s.sent && IsFull(f) && FrameEpoch(f) > since
  {
    NewerFramesFrom(s.ring, since);
    FullLogFrom(s.sent);
    forall f | f in NewerFrames(s.ring, since)
      ensures f in s.sent && IsFull(f) && FrameEpoch(f) > since
    {
      var k :| 0 <= k < |s.ring| && s.ring[k].frame == f && s.ring[k].epoch > since;
      assert s.ring[k] in FullLog(s.sent);
    }
  }

  /** The newest slot of the ring, if there is one, is of the current epoch. */
  predicate NewestIsCurrent(s: Server)
  {
    s.ring != [] && s.ring[|s.ring| - 1].epoch == s.state.epoch
  }

  lemma NewestIsLast(cfg: Config, s: Server, since: nat)
    requires RingOk(cfg, s) && NewestIsCurrent(s) && since < s.state.epoch
    ensures var fs := NewerFrames(s.ring, since);
            fs != [] && IsFull(fs[|fs| - 1]) && FrameEpoch(fs[|fs| - 1]) == s.state.epoch
  {
    FullLogFrom(s.sent);
    assert s.ring[|s.ring| - 1] in FullLog(s.sent);
  }

  lemma NewestBoundsReplay(cfg: Config, s: Server, since: nat)
    requires RingOk(cfg, s) && FramesSorted(s) && !NewestIsCurrent(s)
    ensures forall f | f in NewerFrames(s.ring, since) :: FrameEpoch(f) < s.state.epoch
  {
    var log := FullLog(s.sent);
    assert EpochsSorted(s.ring) by { FullLogSorted(s.sent); }
    FullLogFrom(s.sent);
    NewerFramesFrom(s.ring, since);
    forall f | f in NewerFrames(s.ring, since)
      ensures FrameEpoch(f) < s.state.epoch
    {
      var k :| 0 <= k < |s.ring| && s.ring[k].frame == f && s.ring[k].epoch > since;
      var newest := s.ring[|s.ring| - 1];
      assert s.ring[k] in log && newest in log && newest.frame in s.sent;
      assert s.ring[k].epoch <= newest.epoch;
    }
  }

  // ---- exactly when recovery is complete ---------------------------------------------------------

  /** The replay of a current ring ends in the current state. */
  lemma CurrentRingCompletes(cfg: Config, s: Server, c: Client)
    requires RingOk(cfg, s) && FramesOk(s) && FramesSorted(s) && NewestIsCurrent(s) && c.lastEpoch < s.state.epoch
    requires s.state.epoch in s.hist && s.hist[s.state.epoch] == ToWire(s.state)
    requires ClientOk(c)
    ensures Mirrors(Fold(c, NewerFrames(s.ring, c.lastEpoch)), ToWire(s.state))
  {
    var fs := NewerFrames(s.ring, c.lastEpoch);
    ReplayedFrames(cfg, s, c.lastEpoch);
    NewestIsLast(cfg, s, c.lastEpoch);
    var init, f := fs[..|fs| - 1], fs[|fs| - 1];
    assert f in fs && f in s.sent;
    assert forall g | g in init :: g in fs;
    FoldBounded(c, init, s.state.epoch);
  }

  /** A ring whose newest slot is older than the state leaves the client behind. */
  lemma LaggingRingFallsShort(cfg: Config, s: Server, c: Client)
    requires RingOk(cfg, s) && FramesSorted(s) && !NewestIsCurrent(s) && c.lastEpoch < s.state.epoch && ClientOk(c)
    ensures Fold(c, NewerFrames(s.ring, c.lastEpoch)).lastEpoch < s.state.epoch
  {
    NewestBoundsReplay(cfg, s, c.lastEpoch);
    FoldBounded(c, NewerFrames(s.ring, c.lastEpoch), s.state.epoch - 1);
  }

  /** A client already current is replayed nothing. */
  lemma CurrentClientGetsNothing(cfg: Config, s: Server)
    requires RingOk(cfg, s) && FramesSorted(s)
    ensures NewerFrames(s.ring, s.state.epoch) == []
  {
    var fs := NewerFrames(s.ring, s.state.epoch);
    assert |fs| > 0 ==> fs[0] in fs;
    ReplayedFrames(cfg, s, s.state.epoch);
  }

  lemma RecoverCompleteFrom(cfg: Config, s0: SyncState, s: Server, c: Client, order: seq<string>, now: int)
    requires Inv(cfg, s0, s) && Enumerates(order, s.beats.Keys) && ClientOk(c) && c.lastEpoch <= s.state.epoch
    ensures Mirrors(Fold(c, Recovery(cfg, s, c.lastEpoch, order, now)), ToWire(s.state)) <==>
              || Mirrors(c, ToWire(s.state)) || !Replays(cfg, s, c.lastEpoch)
              || (c.lastEpoch < s.state.epoch && NewestIsCurrent(s))
  {
    if !Replays(cfg, s, c.lastEpoch) {
      var f := SnapshotFrame(cfg, s, order, now);
      assert [f][..0] == [];
      assert Fold(c, [f]) == Handled(c, f);
    } else if c.lastEpoch == s.state.epoch {
      CurrentClientGetsNothing(cfg, s);
    } else if NewestIsCurrent(s) {
      CurrentRingCompletes(cfg, s, c);
    } else {
      LaggingRingFallsShort(cfg, s, c);
    }
  }

  predicate EndsInFull(fs: seq<Frame>)
  {
    fs != [] && IsFull(fs[|fs| - 1])
  }

  /** The last frame broadcast is of the current epoch. */
  lemma LastFrameIsCurrent(s0: SyncState, s: Server)
    requires HistoryOk(s0, s) && FramesOk(s) && FramesSorted(s) && Announces(s0, s) && s.sent != []
    ensures FrameEpoch(s.sent[|s.sent| - 1]) == s.state.epoch
  {
    var last := s.sent[|s.sent| - 1];
    assert last in s.sent;
    if s0.epoch < s.state.epoch {
      assert Heralds(s.sent, s.state.epoch);
    }
  }

  /** No full frame of the current epoch was broadcast before a hand-over that ends the log. */
  lemma HandOverOpensEpoch(s0: SyncState, s: Server, k: nat)
    requires FramesOk(s) && FramesSorted(s) && TokensOk(s0, s)
    requires k < |s.sent| && IsFull(s.sent[k]) && !EndsInFull(s.sent)
    requires FrameEpoch(s.sent[|s.sent| - 1]) == s.state.epoch
    ensures FrameEpoch(s.sent[k]) < s.state.epoch
  {
    var f, g := s.sent[k], s.sent[|s.sent| - 1];
    assert FrameToken(f) < FrameToken(g) by { HandOverRaisesToken(s0, s, k); }
    if FrameEpoch(f) == FrameEpoch(g) {
      SameEpochSameToken(s, f, g);
    }
    assert f in s.sent;
  }

  lemma HandOverRaisesToken(s0: SyncState, s: Server, k: nat)
    requires TokensOk(s0, s) && k < |s.sent| - 1 && !EndsInFull(s.sent)
    ensures FrameToken(s.sent[k]) < FrameToken(s.sent[|s.sent| - 1])
  {
    var n := |s.sent| - 1;
    var later := s.sent[k + 1..];
    assert later[|later| - 1] == s.sent[n] && Migrations(later) > 0;
    assert s.sent[n + 1..] == [];
  }

  /** The newest ring entry is of the current epoch exactly when the last frame broadcast was no hand-over. */
  lemma NewestIsCurrentIff(cfg: Config, s0: SyncState, s: Server)
    requires Inv(cfg, s0, s)
    ensures NewestIsCurrent(s) <==> EndsInFull(s.sent)
  {
    var log := FullLog(s.sent);
    if EndsInFull(s.sent) {
      LastFrameIsCurrent(s0, s);
      assert log[|log| - 1].epoch == s.state.epoch;
    } else if s.ring != [] {
      var newest := s.ring[|s.ring| - 1];
      assert newest in log;
      FullLogFrom(s.sent);
      var k :| 0 <= k < |s.sent| && s.sent[k] == newest.frame;
      LastFrameIsCurrent(s0, s);
      HandOverOpensEpoch(s0, s, k);
    }
  }

  /**
   After any run, any client no newer than the server that folds Recover's answer ends in exactly the
   current state if and only if it held it already, it was answered with a snapshot, or it was behind
   and the last frame broadcast was not a hand-over. A hand-over is the one thing a replay misses, and
   a client at the current epoch with an old sample is replayed nothing.
   */
  lemma RecoverCompleteIff(cfg: Config, s0: SyncState, es: seq<Event>, c: Client, order: seq<string>, now: int)
    requires Runs(cfg, Started(s0), es)
    requires var s := RunOf(cfg, Started(s0), es);
             Enumerates(order, s.beats.Keys) && ClientOk(c) && c.lastEpoch <= s.state.epoch
    ensures var s := RunOf(cfg, Started(s0), es);
            Mirrors(Fold(c, Recovery(cfg, s, c.lastEpoch, order, now)), ToWire(s.state)) <==>
              || Mirrors(c, ToWire(s.state)) || !Replays(cfg, s, c.lastEpoch)
              || (c.lastEpoch < s.state.epoch && EndsInFull(s.sent))
  {
    var s := RunOf(cfg, Started(s0), es);
    assert Inv(cfg, s0, s) by {
      StartedInv(cfg, s0);
      RunKeepsInv(cfg, s0, Started(s0), es);
    }
    RecoverCompleteFrom(cfg, s0, s, c, order, now);
    NewestIsCurrentIff(cfg, s0, s);
  }

  const PLAY := Order(Play, 0, 1000, 1000)
  const JOIN := Heartbeat("p", 0, 0, 0, 0, 0)
  const SWEEP := Tick(1, 1000, "p")

  lemma PlayThenJoin(cfg: Config) returns (b: Server, c: Server)
    ensures b == Step(cfg, Started(FreshState("o")), PLAY) && c == Step(cfg, b, JOIN)
    ensures c.state == b.state && b.state.epoch == 1 && b.state.hostId == "o" && b.state.ownerId == "o"
    ensures c.beats.Keys == {"p"} && c.beats["p"].lastSeen == 0
    ensures c.ring == [Entry(1, Update(ToWire(b.state)))] && 1 in c.hist && c.hist[1] == ToWire(b.state)
  {
    b := Step(cfg, Started(FreshState("o")), PLAY);
    c := Step(cfg, b, JOIN);
    assert RingSize(cfg) >= 1;
  }

  /** A hand-over right after a play command: the replay tells the reconnecting client nothing. */
  lemma HandOverMissedByReplay(cfg: Config)
    requires cfg.hostTimeout <= 0 && cfg.ringBufferSize <= 0 && !cfg.driftCorrection
    ensures var s0 := FreshState("o");
            && Runs(cfg, Started(s0), [PLAY, JOIN, SWEEP])
            && (var s := RunOf(cfg, Started(s0), [PLAY, JOIN, SWEEP]);
                && s.state.hostId == "p" && s.state.epoch == 2
                && Replays(cfg, s, 1) && NewerFrames(s.ring, 1) == [] && 1 in s.hist && s.hist[1].hostId == Some("o"))
  {
    var b, c := PlayThenJoin(cfg);
    assert Eligible(cfg, c.beats, "o", "p", 1);
    assert Enabled(cfg, c, SWEEP);
    var a := Started(FreshState("o"));
    RunExtends(cfg, a, [], PLAY);
    RunExtends(cfg, a, [PLAY], JOIN);
    RunExtends(cfg, a, [PLAY, JOIN], SWEEP);
    assert [] + [PLAY] == [PLAY] && [PLAY] + [JOIN] == [PLAY, JOIN] && [PLAY, JOIN] + [SWEEP] == [PLAY, JOIN, SWEEP];
    var d := Step(cfg, c, SWEEP);
    assert d == Migrated(c, "p", 1);
    assert d.ring[..0] == [];
  }
}
