/**
 What dropped frames do to a client: exactly when it shows the server's state whatever was dropped,
 and a run in which a hand-over notice hides a lost update behind the current epoch.
 */
module Drops {
  import opened Options
  import opened SyncStates
  import opened RoomServer
  import opened ServerRuns
  import opened SyncClients
  import opened ClientLink

  // ---- when a client is current ------------------------------------------------------------------

  /** Host and token are those of the epoch held, the sample is that of some epoch no later. */
  ghost predicate TracedTo(c: Client, s: Server, e: nat)
  {
    c.state.Some? ==>
      && e <= c.lastEpoch && e in s.hist && c.lastEpoch in s.hist
      && c.state.value.epoch == c.lastEpoch
      && c.state.value.hostId == s.hist[c.lastEpoch].hostId
      && c.state.value.token == s.hist[c.lastEpoch].token
      && SameSample(c.state.value, s.hist[e])
  }

  lemma TraceGrows(c: Client, s: Server, t: Server, e: nat)
    requires TracedTo(c, s, e) && Extends(s, t)
    ensures TracedTo(c, t, e)
  {
  }

  /** The frame carries a whole state and the client takes it over. */
  predicate TakesOver(c: Client, f: Frame)
  {
    IsFull(f) && f.state.epoch >= c.lastEpoch
  }

  /** The epoch of the last full frame the client took over among fs, or e when there is none. */
  function SampleEpoch(c: Client, fs: seq<Frame>, e: nat): nat
    decreases |fs|
  {
    if fs == [] then e
    else SampleEpoch(Handled(c, fs[0]), fs[1..], if TakesOver(c, fs[0]) then fs[0].state.epoch else e)
  }

  /** The frames a client was handed along a run, in order. */
  ghost function Taken(cfg: Config, l: Link, ms: seq<Move>): seq<Frame>
    requires Moves(cfg, l, ms)
    decreases |ms|
  {
    if ms == [] then []
    else (if ms[0].Deliver? then [l.pipe[0]] else []) + Taken(cfg, Moved(cfg, l, ms[0]), ms[1..])
  }

  lemma FrameKeepsTrace(c: Client, s: Server, f: Frame, e: nat)
    requires TracedTo(c, s, e) && Known(s, [f]) && (forall x | x in s.hist :: s.hist[x].epoch == x)
    ensures TracedTo(Handled(c, f), s, if TakesOver(c, f) then f.state.epoch else e)
  {
    assert f in [f];
  }

  /** What a move does to the epoch whose sample the client shows. */
  ghost function EpochAfter(l: Link, m: Move, e: nat): nat
    requires m.Deliver? ==> l.pipe != []
  {
    if m.Deliver? && TakesOver(l.client, l.pipe[0]) then l.pipe[0].state.epoch else e
  }

  lemma MoveKeepsTrace(cfg: Config, s0: SyncState, l: Link, m: Move, e: nat)
    requires LinkOk(cfg, s0, l) && CanMove(cfg, l, m) && TracedTo(l.client, l.server, e)
    ensures TracedTo(Moved(cfg, l, m).client, Moved(cfg, l, m).server, EpochAfter(l, m, e))
  {
    match m {
      case ServerEvent(ev) =>
        assert Extends(l.server, Step(cfg, l.server, ev)) by { StepKeepsInv(cfg, s0, l.server, ev); }
        TraceGrows(l.client, l.server, Step(cfg, l.server, ev), e);
      case Deliver =>
        assert l.pipe[0] in l.pipe;
        FrameKeepsTrace(l.client, l.server, l.pipe[0], e);
      case _ =>
    }
  }

  lemma SampleEpochStep(cfg: Config, l: Link, ms: seq<Move>, e: nat)
    requires ms != [] && Moves(cfg, l, ms)
    ensures SampleEpoch(l.client, Taken(cfg, l, ms), e)
         == SampleEpoch(Moved(cfg, l, ms[0]).client, Taken(cfg, Moved(cfg, l, ms[0]), ms[1..]), EpochAfter(l, ms[0], e))
  {
    var rest := Taken(cfg, Moved(cfg, l, ms[0]), ms[1..]);
    if ms[0].Deliver? {
      assert ([l.pipe[0]] + rest)[1..] == rest;
    } else {
      assert [] + rest == rest;
    }
  }

  lemma {:induction false} MovesKeepTrace(cfg: Config, s0: SyncState, l: Link, ms: seq<Move>, e: nat)
    requires LinkOk(cfg, s0, l) && Moves(cfg, l, ms) && TracedTo(l.client, l.server, e)
    ensures var t := AfterMoves(cfg, l, ms);
            TracedTo(t.client, t.server, SampleEpoch(l.client, Taken(cfg, l, ms), e))
    decreases |ms|
  {
    if ms != [] {
      MoveKeepsTrace(cfg, s0, l, ms[0], e);
      MoveKeepsLink(cfg, s0, l, ms[0]);
      MovesKeepTrace(cfg, s0, Moved(cfg, l, ms[0]), ms[1..], EpochAfter(l, ms[0], e));
      SampleEpochStep(cfg, l, ms, e);
    }
  }

  /**
   In every interleaving, whatever was dropped, a client with a state shows the sample of the last full
   frame it took over, and it holds the server's state if and only if it is at the server's epoch and
   that epoch's sample is still the server's: nothing was lost since, or only who hosts changed.
   */
  lemma ClientMirrorsIff(cfg: Config, s0: SyncState, ms: seq<Move>)
    requires Moves(cfg, NewLink(s0), ms) && AfterMoves(cfg, NewLink(s0), ms).client.state.Some?
    ensures var l := AfterMoves(cfg, NewLink(s0), ms);
            var e := SampleEpoch(BLANK, Taken(cfg, NewLink(s0), ms), 0);
            && e <= l.client.lastEpoch <= l.server.state.epoch && e in l.server.hist
            && SameSample(l.client.state.value, l.server.hist[e])
            && (Mirrors(l.client, ToWire(l.server.state)) <==>
                l.client.lastEpoch == l.server.state.epoch && SameSample(l.server.hist[e], ToWire(l.server.state)))
  {
    var l := AfterMoves(cfg, NewLink(s0), ms);
    NewLinkOk(cfg, s0);
    MovesKeepTrace(cfg, s0, NewLink(s0), ms, 0);
    assert l.client.lastEpoch <= l.server.state.epoch && HistoryOk(s0, l.server) by {
      MovesKeepLink(cfg, s0, NewLink(s0), ms);
    }
  }

  // ---- runs, move by move ------------------------------------------------------------------------

  lemma {:induction false} MovesExtend(cfg: Config, l: Link, ms: seq<Move>, m: Move)
    requires Moves(cfg, l, ms) && CanMove(cfg, AfterMoves(cfg, l, ms), m)
    ensures Moves(cfg, l, ms + [m]) && AfterMoves(cfg, l, ms + [m]) == Moved(cfg, AfterMoves(cfg, l, ms), m)
    decreases |ms|
  {
    if ms == [] {
      assert ms + [m] == [m] && [m][1..] == [];
    } else {
      assert (ms + [m])[1..] == ms[1..] + [m];
      MovesExtend(cfg, Moved(cfg, l, ms[0]), ms[1..], m);
    }
  }

  /** A streaming link can always be drained, and then the client has folded everything under way. */
  lemma {:induction false} Drains(cfg: Config, l0: Link, ms: seq<Move>, l: Link) returns (ms': seq<Move>)
    requires Moves(cfg, l0, ms) && AfterMoves(cfg, l0, ms) == l && l.phase.Streaming?
    ensures Moves(cfg, l0, ms')
    ensures var l' := AfterMoves(cfg, l0, ms');
            l' == l.(pipe := [], chan := [], client := Fold(l.client, l.pipe + l.chan))
    decreases |l.pipe| + 2 * |l.chan|
  {
    if l.pipe != [] {
      var l1 := Moved(cfg, l, Deliver);
      MovesExtend(cfg, l0, ms, Deliver);
      ms' := Drains(cfg, l0, ms + [Deliver], l1);
      DeliverFolds(l.client, l.pipe, l.chan);
    } else if l.chan != [] {
      var l1 := Moved(cfg, l, Forward);
      MovesExtend(cfg, l0, ms, Forward);
      ms' := Drains(cfg, l0, ms + [Forward], l1);
      assert l.pipe + l.chan == l1.pipe + l1.chan;
    } else {
      ms' := ms;
      assert l.pipe + l.chan == [];
    }
  }

  // ---- a lost update behind a hand-over ----------------------------------------------------------

  const FRESH := FreshState("o")
  const SNAP := PublishSnapshot([], 0)
  const LOAD := Order(LoadMedia("m"), 0, 0, 0)
  const BEAT := Heartbeat("p", 0, 0, 0, 0, 0)
  const SWEEP := Tick(1, 0, "p")

  /** The client took the first snapshot of a fresh room; n more wait in the channel. */
  ghost predicate Waiting(l: Link, n: nat)
  {
    && l.phase.Streaming? && l.client == Client(Some(ToWire(FRESH)), 0) && l.pipe == [] && |l.chan| == n
    && l.server.state == FRESH && l.server.beats == map[] && l.server.hist == map[0 := ToWire(FRESH)]
    && (forall k | 0 <= k < |l.chan| :: IsFull(l.chan[k]) && l.chan[k].state == ToWire(FRESH))
  }

  lemma Connects(cfg: Config) returns (ms: seq<Move>)
    ensures Moves(cfg, NewLink(FRESH), ms) && Waiting(AfterMoves(cfg, NewLink(FRESH), ms), 0)
  {
    var l0 := NewLink(FRESH);
    MovesExtend(cfg, l0, [], Register);
    MovesExtend(cfg, l0, [] + [Register], SendSnapshot([], 0));
    MovesExtend(cfg, l0, [] + [Register] + [SendSnapshot([], 0)], Deliver);
    ms := [] + [Register] + [SendSnapshot([], 0)] + [Deliver];
  }

  lemma SnapshotWaits(cfg: Config, l: Link, n: nat)
    requires Waiting(l, n) && n < CHANNEL_CAPACITY
    ensures CanMove(cfg, l, ServerEvent(SNAP)) && Waiting(Moved(cfg, l, ServerEvent(SNAP)), n + 1)
  {
    var t := Step(cfg, l.server, SNAP);
    var f := SnapshotFrame(cfg, l.server, [], 0);
    assert Since(l.server, t) == [f];
    OfferOne(l.stale, l.chan, f);
  }

  lemma {:induction false} Fills(cfg: Config, n: nat) returns (ms: seq<Move>)
    requires n <= CHANNEL_CAPACITY
    ensures Moves(cfg, NewLink(FRESH), ms) && Waiting(AfterMoves(cfg, NewLink(FRESH), ms), n)
  {
    if n == 0 {
      ms := Connects(cfg);
    } else {
      ms := Fills(cfg, n - 1);
      var l := AfterMoves(cfg, NewLink(FRESH), ms);
      SnapshotWaits(cfg, l, n - 1);
      MovesExtend(cfg, NewLink(FRESH), ms, ServerEvent(SNAP));
      ms := ms + [ServerEvent(SNAP)];
    }
  }

  /** With the channel full, a load is dropped; room is made; a hand-over gets in. */
  ghost predicate Hidden(l: Link)
  {
    && l.phase.Streaming? && l.client == Client(Some(ToWire(FRESH)), 0)
    && l.server.state.epoch == 2 && l.server.state.mediaId == "m"
    && (forall f | f in l.pipe :: IsFull(f) && f.state == ToWire(FRESH))
    && |l.chan| > 0 && l.chan[|l.chan| - 1] == HostMigration("o", "p", 2, 1)
    && (forall k | 0 <= k < |l.chan| - 1 :: IsFull(l.chan[k]) && l.chan[k].state == ToWire(FRESH))
  }

  lemma LoadDropped(cfg: Config, l: Link) returns (l': Link)
    requires Waiting(l, CHANNEL_CAPACITY)
    ensures CanMove(cfg, l, ServerEvent(LOAD)) && l' == Moved(cfg, l, ServerEvent(LOAD))
    ensures l'.phase.Streaming? && l'.client == l.client && l'.chan == l.chan && l'.pipe == []
    ensures l'.server.beats == map[]
    ensures l'.server.state.(epochStarted := 0) == FRESH.(mediaId := "m", rate := 0.0, epoch := 1)
  {
    l' := Moved(cfg, l, ServerEvent(LOAD));
    var t := Step(cfg, l.server, LOAD);
    var f := t.sent[|t.sent| - 1];
    assert Since(l.server, t) == [f];
    OfferOne(l.stale, l.chan, f);
  }

  lemma PeerArrives(cfg: Config, l: Link) returns (l': Link)
    requires l.phase.Streaming? && l.server.beats == map[]
    ensures CanMove(cfg, l, ServerEvent(BEAT)) && l' == Moved(cfg, l, ServerEvent(BEAT))
    ensures l'.(server := l.server) == l && l'.server.state == l.server.state
    ensures l'.server.beats.Keys == {"p"} && l'.server.beats["p"].lastSeen == 0
  {
    l' := Moved(cfg, l, ServerEvent(BEAT));
    assert Since(l.server, l'.server) == [];
  }

  lemma HandOverGetsIn(cfg: Config, l: Link) returns (l': Link)
    requires cfg.hostTimeout <= 0 && !cfg.driftCorrection
    requires l.phase.Streaming? && |l.chan| < CHANNEL_CAPACITY
    requires l.server.beats.Keys == {"p"} && l.server.beats["p"].lastSeen == 0
    requires l.server.state.hostId == "o" && l.server.state.ownerId == "o"
    requires l.server.state.epoch == 1 && l.server.state.token == 0
    ensures CanMove(cfg, l, ServerEvent(SWEEP)) && l' == Moved(cfg, l, ServerEvent(SWEEP))
    ensures l'.chan == l.chan + [HostMigration("o", "p", 2, 1)]
    ensures l'.(server := l.server, chan := l.chan, stale := l.stale) == l
    ensures l'.server.state.epoch == 2 && l'.server.state.mediaId == l.server.state.mediaId
  {
    assert Eligible(cfg, l.server.beats, "o", "p", 1);
    assert Enabled(cfg, l.server, SWEEP);
    l' := Moved(cfg, l, ServerEvent(SWEEP));
    var t := Step(cfg, l.server, SWEEP);
    assert t == Migrated(l.server, "p", 1);
    assert Since(l.server, t) == [HostMigration("o", "p", 2, 1)];
    OfferOne(l.stale, l.chan, HostMigration("o", "p", 2, 1));
  }

  /** The load was dropped and a peer arrived; the channel is as full as before. */
  ghost predicate LoadLost(l: Link)
  {
    && l.phase.Streaming? && l.client == Client(Some(ToWire(FRESH)), 0) && l.pipe == [] && |l.chan| == CHANNEL_CAPACITY
    && (forall k | 0 <= k < |l.chan| :: IsFull(l.chan[k]) && l.chan[k].state == ToWire(FRESH))
    && l.server.state.hostId == "o" && l.server.state.ownerId == "o" && l.server.state.mediaId == "m"
    && l.server.state.epoch == 1 && l.server.state.token == 0
    && l.server.beats.Keys == {"p"} && l.server.beats["p"].lastSeen == 0
  }

  lemma Loses(cfg: Config) returns (ms: seq<Move>)
    ensures Moves(cfg, NewLink(FRESH), ms) && LoadLost(AfterMoves(cfg, NewLink(FRESH), ms))
  {
    var l0 := NewLink(FRESH);
    ms := Fills(cfg, CHANNEL_CAPACITY);
    var l1 := LoadDropped(cfg, AfterMoves(cfg, l0, ms));
    MovesExtend(cfg, l0, ms, ServerEvent(LOAD));
    ms := ms + [ServerEvent(LOAD)];
    var l2 := PeerArrives(cfg, l1);
    MovesExtend(cfg, l0, ms, ServerEvent(BEAT));
    ms := ms + [ServerEvent(BEAT)];
  }

  lemma Hides(cfg: Config) returns (ms: seq<Move>)
    requires cfg.hostTimeout <= 0 && !cfg.driftCorrection
    ensures Moves(cfg, NewLink(FRESH), ms) && Hidden(AfterMoves(cfg, NewLink(FRESH), ms))
  {
    var l0 := NewLink(FRESH);
    ms := Loses(cfg);
    var l := AfterMoves(cfg, l0, ms);
    var l1 := Moved(cfg, l, Forward);
    assert l1.pipe == [l.chan[0]];
    MovesExtend(cfg, l0, ms, Forward);
    ms := ms + [Forward];
    var l2 := HandOverGetsIn(cfg, l1);
    MovesExtend(cfg, l0, ms, ServerEvent(SWEEP));
    ms := ms + [ServerEvent(SWEEP)];
  }

  /** Everything taken, the client is at the server's epoch and still shows the media from before the load. */
  lemma LoadHiddenByHandOver(cfg: Config) returns (ms: seq<Move>)
    requires cfg.hostTimeout <= 0 && !cfg.driftCorrection
    ensures Moves(cfg, NewLink(FRESH), ms)
    ensures var l := AfterMoves(cfg, NewLink(FRESH), ms);
            && l.phase.Streaming? && l.pipe == [] && l.chan == []
            && l.client.lastEpoch == l.server.state.epoch && l.client.state.Some?
            && l.client.state.value.mediaId == None && ToWire(l.server.state).mediaId == Some("m")
  {
    var l0 := NewLink(FRESH);
    ms := Hides(cfg);
    var l := AfterMoves(cfg, l0, ms);
    var n := |l.chan| - 1;
    var old', notice := l.pipe + l.chan[..n], l.chan[n];
    var w := ToWire(FRESH);
    FoldHarmless(l.client, w, map[0 := w], old');
    assert l.pipe + l.chan == old' + [notice];
    FoldAppends(l.client, old', [notice]);
    assert [notice][..0] == [];
    assert Fold(Fold(l.client, old'), [notice]) == Handled(Fold(l.client, old'), notice);
    ms := Drains(cfg, l0, ms, l);
  }
}
