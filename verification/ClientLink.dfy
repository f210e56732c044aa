/**
 One client connected to the room server: registration, the snapshot sent first, the lossy channel
 behind it, frames in flight, disconnection and recovery, in every interleaving with server events.
 */
module ClientLink {
  import opened Options
  import opened SyncStates
  import opened Statistics
  import opened RoomServer
  import opened ServerRuns
  import opened SyncClients
  import opened RecoveryReplay

  datatype Phase = Offline | Recovering | Registered | Streaming

  /**
   `chan` is the subscriber's buffered channel, `pipe` what the handler has sent and the client has
   not yet taken. `stale` remembers that a frame was dropped after the last full frame got in.
   */
  datatype Link = Link(server: Server, client: Client, phase: Phase, chan: seq<Frame>, pipe: seq<Frame>, stale: bool)

  function NewLink(s0: SyncState): Link
  {
    Link(Started(s0), BLANK, Offline, [], [], false)
  }

  predicate Subscribed(l: Link)
  {
    l.phase.Registered? || l.phase.Streaming?
  }

  /** Dropping a frame makes the stream stale; a full frame that gets in makes it whole again. */
  function StaleAfter(stale: bool, ch: seq<Frame>, fs: seq<Frame>): bool
  {
    if fs == [] then stale
    else
      var n := |fs| - 1;
      |OfferAll(ch, fs[..n])| >= CHANNEL_CAPACITY || (!IsFull(fs[n]) && StaleAfter(stale, ch, fs[..n]))
  }

  /** What was broadcast between two states of the server. */
  function Since(s: Server, t: Server): seq<Frame>
  {
    if s.sent <= t.sent then t.sent[|s.sent|..] else []
  }

  /** The server moved to t and broadcast fs. */
  function OnServer(l: Link, t: Server, fs: seq<Frame>): Link
  {
    if Subscribed(l) then l.(server := t, chan := OfferAll(l.chan, fs), stale := StaleAfter(l.stale, l.chan, fs))
    else l.(server := t)
  }

  datatype Move =
    | ServerEvent(event: Event)
    | AskRecovery(order: seq<string>, now: int)
    | Register
    | SendSnapshot(order: seq<string>, now: int)
    | Forward
    | Deliver
    | Disconnect

  ghost predicate CanMove(cfg: Config, l: Link, m: Move)
  {
    match m
    case ServerEvent(e) => Enabled(cfg, l.server, e)
    case AskRecovery(order, _) => l.phase.Offline? && Enumerates(order, l.server.beats.Keys)
    case Register => l.phase.Offline? || (l.phase.Recovering? && l.pipe == [])
    case SendSnapshot(order, _) => l.phase.Registered? && Enumerates(order, l.server.beats.Keys)
    case Forward => l.phase.Streaming? && l.chan != []
    case Deliver => l.pipe != []
    case Disconnect => true
  }

  ghost function Moved(cfg: Config, l: Link, m: Move): Link
    requires CanMove(cfg, l, m)
  {
    match m
    case ServerEvent(e) =>
      var t := Step(cfg, l.server, e);
      OnServer(l, t, Since(l.server, t))
    case AskRecovery(order, now) =>
      l.(phase := Recovering, pipe := Recovery(cfg, l.server, l.client.lastEpoch, order, now))
    case Register => l.(phase := Registered, chan := [], stale := false)
    case SendSnapshot(order, now) =>
      l.(phase := Streaming, pipe := [SnapshotFrame(cfg, l.server, order, now)], stale := false)
    case Forward => l.(pipe := l.pipe + [l.chan[0]], chan := l.chan[1..])
    case Deliver => l.(client := Handled(l.client, l.pipe[0]), pipe := l.pipe[1..])
    case Disconnect => l.(phase := Offline, chan := [], pipe := [])
  }

  ghost predicate Moves(cfg: Config, l: Link, ms: seq<Move>)
    decreases |ms|
  {
    ms == [] || (CanMove(cfg, l, ms[0]) && Moves(cfg, Moved(cfg, l, ms[0]), ms[1..]))
  }

  ghost function AfterMoves(cfg: Config, l: Link, ms: seq<Move>): Link
    requires Moves(cfg, l, ms)
    decreases |ms|
  {
    if ms == [] then l else AfterMoves(cfg, Moved(cfg, l, ms[0]), ms[1..])
  }

  // ---- the invariant -----------------------------------------------------------------------------

  /** Frames the server could have produced: of an epoch it has had, saying what that epoch said. */
  ghost predicate Known(s: Server, fs: seq<Frame>)
  {
    forall f | f in fs :: FrameEpoch(f) <= s.state.epoch && FrameEpoch(f) in s.hist && Agrees(f, s.hist[FrameEpoch(f)])
  }

  /** Once everything under way is taken, the client holds the server's state. */
  ghost predicate InStep(l: Link)
  {
    Mirrors(Fold(l.client, l.pipe + l.chan), ToWire(l.server.state))
  }

  /** What the connection keeps besides the server's own invariant. */
  ghost predicate Coherent(l: Link)
  {
    && ClientOk(l.client) && l.client.lastEpoch <= l.server.state.epoch
    && Known(l.server, l.chan) && Known(l.server, l.pipe)
    && (!Subscribed(l) ==> l.chan == [])
    && (l.phase.Offline? || l.phase.Registered? ==> l.pipe == [])
    && (l.phase.Streaming? && !l.stale ==> InStep(l))
  }

  ghost predicate LinkOk(cfg: Config, s0: SyncState, l: Link)
  {
    Inv(cfg, s0, l.server) && Coherent(l)
  }

  lemma NewLinkOk(cfg: Config, s0: SyncState)
    ensures LinkOk(cfg, s0, NewLink(s0))
  {
    StartedInv(cfg, s0);
  }

  // ---- server events -----------------------------------------------------------------------------

  lemma KnownGrows(s: Server, t: Server, fs: seq<Frame>)
    requires Extends(s, t) && Known(s, fs)
    ensures Known(t, fs)
  {
  }

  lemma OnServerChains(l: Link, t: Server, fs: seq<Frame>, u: Server, gs: seq<Frame>)
    ensures OnServer(OnServer(l, t, fs), u, gs) == OnServer(l, u, fs + gs)
  {
    OfferAllAppends(l.chan, fs, gs);
    StaleAppends(l.stale, l.chan, fs, gs);
  }

  lemma {:induction false} StaleAppends(stale: bool, ch: seq<Frame>, fs: seq<Frame>, gs: seq<Frame>)
    ensures StaleAfter(stale, ch, fs + gs) == StaleAfter(StaleAfter(stale, ch, fs), OfferAll(ch, fs), gs)
    decreases |gs|
  {
    if gs == [] {
      assert fs + gs == fs;
    } else {
      var n := |gs| - 1;
      assert (fs + gs)[..|fs + gs| - 1] == fs + gs[..n];
      StaleAppends(stale, ch, fs, gs[..n]);
      OfferAllAppends(ch, fs, gs[..n]);
    }
  }

  lemma FullFrameCatchesUp(cfg: Config, s: Server, t: Server, f: Frame, c: Client)
    requires Spoke(cfg, s, t, f) && IsFull(f) && c.lastEpoch <= s.state.epoch
    ensures Mirrors(Handled(c, f), ToWire(t.state))
  {
  }

  /** The frame of one act, offered to a streaming client. */
  lemma FrameKeepsStep(cfg: Config, l: Link, t: Server, f: Frame)
    requires Coherent(l) && l.phase.Streaming? && Spoke(cfg, l.server, t, f)
    requires |l.chan| < CHANNEL_CAPACITY && (l.stale ==> IsFull(f))
    ensures Mirrors(Fold(l.client, l.pipe + (l.chan + [f])), ToWire(t.state))
  {
    var before := l.pipe + l.chan;
    var c := Fold(l.client, before);
    assert l.pipe + (l.chan + [f]) == before + [f];
    assert (before + [f])[..|before|] == before;
    if IsFull(f) {
      FoldBounded(l.client, before, l.server.state.epoch);
      FullFrameCatchesUp(cfg, l.server, t, f, c);
    } else {
      HandledFollows(cfg, l.server, t, f, c);
    }
  }

  lemma OfferOne(stale: bool, ch: seq<Frame>, f: Frame)
    ensures OfferAll(ch, [f]) == Offer(ch, f)
    ensures StaleAfter(stale, ch, [f]) == (|ch| >= CHANNEL_CAPACITY || (!IsFull(f) && stale))
  {
    assert [f][..0] == [];
  }

  lemma SpeakingKeepsCoherent(cfg: Config, l: Link, t: Server, f: Frame)
    requires Coherent(l) && Spoke(cfg, l.server, t, f) && Extends(l.server, t) && Known(t, [f])
    ensures Coherent(OnServer(l, t, [f]))
  {
    KnownGrows(l.server, t, l.pipe);
    KnownGrows(l.server, t, l.chan);
    OfferOne(l.stale, l.chan, f);
    assert f in [f];
    if l.phase.Streaming? && |l.chan| < CHANNEL_CAPACITY && (l.stale ==> IsFull(f)) {
      FrameKeepsStep(cfg, l, t, f);
    }
  }

  lemma QuietKeepsCoherent(l: Link, t: Server)
    requires Coherent(l) && Quiet(l.server, t)
    ensures Coherent(OnServer(l, t, []))
  {
  }

  /** The link after one act of the server, and after several. */
  function LinkDo(cfg: Config, l: Link, a: Act): Link
  {
    var t := Do(cfg, l.server, a);
    OnServer(l, t, Since(l.server, t))
  }

  function LinkDoAll(cfg: Config, l: Link, acts: seq<Act>): Link
    decreases |acts|
  {
    if acts == [] then l else LinkDoAll(cfg, LinkDo(cfg, l, acts[0]), acts[1..])
  }

  lemma ActKeepsLink(cfg: Config, s0: SyncState, l: Link, a: Act)
    requires LinkOk(cfg, s0, l) && ActOk(l.server, a)
    ensures LinkOk(cfg, s0, LinkDo(cfg, l, a))
  {
    var s, t := l.server, Do(cfg, l.server, a);
    assert Inv(cfg, s0, t) && Extends(s, t) by { ActKeepsInv(cfg, s0, s, a); }
    assert Coherent(LinkDo(cfg, l, a)) by { ActKeepsCoherent(cfg, l, a, t); }
  }

  lemma ActKeepsCoherent(cfg: Config, l: Link, a: Act, t: Server)
    requires Coherent(l) && ActOk(l.server, a) && t == Do(cfg, l.server, a)
    requires FramesOk(t) && FramesSorted(t) && Extends(l.server, t)
    ensures Coherent(LinkDo(cfg, l, a))
  {
    ActEffect(cfg, l.server, a);
    if a.Keep? {
      assert Since(l.server, t) == [];
      QuietKeepsCoherent(l, t);
    } else {
      var f := t.sent[|t.sent| - 1];
      assert Since(l.server, t) == [f] && f in t.sent;
      SpeakingKeepsCoherent(cfg, l, t, f);
    }
  }

  lemma {:induction false} ActsKeepLink(cfg: Config, s0: SyncState, l: Link, acts: seq<Act>)
    requires LinkOk(cfg, s0, l) && ActsOk(cfg, l.server, acts)
    ensures LinkOk(cfg, s0, LinkDoAll(cfg, l, acts))
    decreases |acts|
  {
    if acts != [] {
      ActKeepsLink(cfg, s0, l, acts[0]);
      ActsKeepLink(cfg, s0, LinkDo(cfg, l, acts[0]), acts[1..]);
    }
  }

  lemma {:induction false} ActsGrow(cfg: Config, s: Server, acts: seq<Act>)
    ensures s.sent <= DoAll(cfg, s, acts).sent
    decreases |acts|
  {
    if acts != [] {
      ActsGrow(cfg, Do(cfg, s, acts[0]), acts[1..]);
    }
  }

  /** Offering the frames act by act is offering them all at once. */
  lemma {:induction false} ActsAreOneMove(cfg: Config, l: Link, acts: seq<Act>)
    ensures var t := DoAll(cfg, l.server, acts); LinkDoAll(cfg, l, acts) == OnServer(l, t, Since(l.server, t))
    decreases |acts|
  {
    var s, last := l.server, DoAll(cfg, l.server, acts);
    if acts == [] {
      assert Since(s, last) == [];
    } else {
      var t := Do(cfg, s, acts[0]);
      ActsGrow(cfg, t, acts[1..]);
      ActsAreOneMove(cfg, LinkDo(cfg, l, acts[0]), acts[1..]);
      OnServerChains(l, t, Since(s, t), last, Since(t, last));
      assert Since(s, last) == Since(s, t) + Since(t, last);
    }
  }

  lemma EventKeepsLink(cfg: Config, s0: SyncState, l: Link, e: Event)
    requires LinkOk(cfg, s0, l) && Enabled(cfg, l.server, e)
    ensures LinkOk(cfg, s0, Moved(cfg, l, ServerEvent(e)))
  {
    var acts := StepIsActs(cfg, l.server, e);
    ActsKeepLink(cfg, s0, l, acts);
    ActsAreOneMove(cfg, l, acts);
  }

  // ---- the client's side -------------------------------------------------------------------------

  /** Taking the first frame first changes nothing about the fold of all of them. */
  lemma DeliverFolds(c: Client, pipe: seq<Frame>, chan: seq<Frame>)
    requires pipe != []
    ensures Fold(c, pipe + chan) == Fold(Handled(c, pipe[0]), pipe[1..] + chan)
  {
    var f := pipe[0];
    assert pipe + chan == [f] + (pipe[1..] + chan);
    FoldAppends(c, [f], pipe[1..] + chan);
    assert [f][..0] == [];
    assert Fold(c, [f]) == Handled(c, f);
  }

  lemma DeliverKeepsCoherent(cfg: Config, l: Link)
    requires Coherent(l) && CanMove(cfg, l, Deliver)
    ensures Coherent(Moved(cfg, l, Deliver))
  {
    var l' := Moved(cfg, l, Deliver);
    assert l.pipe[0] in l.pipe;
    assert forall g | g in l'.pipe :: g in l.pipe;
    DeliverFolds(l.client, l.pipe, l.chan);
  }

  lemma SnapshotKeepsLink(cfg: Config, s0: SyncState, l: Link, order: seq<string>, now: int)
    requires LinkOk(cfg, s0, l) && CanMove(cfg, l, SendSnapshot(order, now))
    ensures LinkOk(cfg, s0, Moved(cfg, l, SendSnapshot(order, now)))
  {
    var l' := Moved(cfg, l, SendSnapshot(order, now));
    var f := SnapshotFrame(cfg, l.server, order, now);
    var w := ToWire(l.server.state);
    assert [f][..0] == [];
    assert Fold(l.client, [f]) == Client(Some(w), w.epoch);
    FoldAppends(l.client, [f], l.chan);
    FoldHarmless(Fold(l.client, [f]), w, l.server.hist, l.chan);
  }

  lemma RecoveryKnown(cfg: Config, s0: SyncState, s: Server, since: nat, order: seq<string>, now: int)
    requires Inv(cfg, s0, s) && Enumerates(order, s.beats.Keys)
    ensures Known(s, Recovery(cfg, s, since, order, now))
  {
    if Replays(cfg, s, since) {
      ReplayedFrames(cfg, s, since);
    }
  }

  lemma MoveKeepsLink(cfg: Config, s0: SyncState, l: Link, m: Move)
    requires LinkOk(cfg, s0, l) && CanMove(cfg, l, m)
    ensures LinkOk(cfg, s0, Moved(cfg, l, m))
  {
    match m {
      case ServerEvent(e) => EventKeepsLink(cfg, s0, l, e);
      case AskRecovery(order, now) => RecoveryKnown(cfg, s0, l.server, l.client.lastEpoch, order, now);
      case SendSnapshot(order, now) => SnapshotKeepsLink(cfg, s0, l, order, now);
      case Forward =>
        assert (l.pipe + [l.chan[0]]) + l.chan[1..] == l.pipe + l.chan;
        assert l.chan[0] in l.chan && forall f | f in l.chan[1..] :: f in l.chan;
      case Deliver => DeliverKeepsCoherent(cfg, l);
      case _ =>
    }
  }

  lemma {:induction false} MovesKeepLink(cfg: Config, s0: SyncState, l: Link, ms: seq<Move>)
    requires LinkOk(cfg, s0, l) && Moves(cfg, l, ms)
    ensures LinkOk(cfg, s0, AfterMoves(cfg, l, ms))
    decreases |ms|
  {
    if ms != [] {
      MoveKeepsLink(cfg, s0, l, ms[0]);
      MovesKeepLink(cfg, s0, Moved(cfg, l, ms[0]), ms[1..]);
    }
  }

  // ---- the guarantees ----------------------------------------------------------------------------

  /**
   In every interleaving the client never runs ahead of the server, and a streaming client that has
   taken everything under way holds exactly the server's state, unless a frame was dropped after the
   last full one that got in. What queued up between registration and the first snapshot is harmless.
   */
  lemma ClientRefinesServer(cfg: Config, s0: SyncState, ms: seq<Move>)
    requires Moves(cfg, NewLink(s0), ms)
    ensures var l := AfterMoves(cfg, NewLink(s0), ms);
            && l.client.lastEpoch <= l.server.state.epoch
            && (l.phase.Streaming? && !l.stale && l.pipe == [] && l.chan == [] ==>
                  Mirrors(l.client, ToWire(l.server.state)))
  {
    NewLinkOk(cfg, s0);
    MovesKeepLink(cfg, s0, NewLink(s0), ms);
    var l := AfterMoves(cfg, NewLink(s0), ms);
    assert l.pipe == [] && l.chan == [] ==> l.pipe + l.chan == [];
  }

  /** Whatever was dropped before, the next periodic snapshot that finds room restores equality. */
  lemma SnapshotHealsDrops(cfg: Config, s0: SyncState, ms: seq<Move>, order: seq<string>, now: int)
    requires Moves(cfg, NewLink(s0), ms)
    requires var l := AfterMoves(cfg, NewLink(s0), ms);
             && l.phase.Streaming? && |l.chan| < CHANNEL_CAPACITY
             && CanMove(cfg, l, ServerEvent(PublishSnapshot(order, now)))
    ensures var l := AfterMoves(cfg, NewLink(s0), ms);
            var l' := Moved(cfg, l, ServerEvent(PublishSnapshot(order, now)));
            !l'.stale && InStep(l') && ToWire(l'.server.state) == ToWire(l.server.state)
  {
    NewLinkOk(cfg, s0);
    MovesKeepLink(cfg, s0, NewLink(s0), ms);
    var l := AfterMoves(cfg, NewLink(s0), ms);
    var l' := Moved(cfg, l, ServerEvent(PublishSnapshot(order, now)));
    var f := SnapshotFrame(cfg, l.server, order, now);
    assert Since(l.server, l'.server) == [f];
    assert [f][..0] == [];
    EventKeepsLink(cfg, s0, l, PublishSnapshot(order, now));
  }
}
