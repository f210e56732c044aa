/**
 What a client shows: the position it projects from the state it holds, and the fields of that state,
 each against the server's.
 */
module ClientScreen {
  import opened Options
  import opened SyncStates
  import opened RoomServer
  import opened ServerRuns
  import opened SyncClients
  import opened ClientLink

  /** The projection the client computes from a received state: nothing moves unless it says playing. */
  function Projected(w: Wire, nowMs: int): real
  {
    var rate := if w.status.Playing? then w.rate else 0.0;
    if rate == 0.0 then w.mediaTimeMs as real
    else
      var elapsed := if nowMs - w.wallTimeMs > 0 then nowMs - w.wallTimeMs else 0;
      w.mediaTimeMs as real + elapsed as real * rate
  }

  /** Projected from what the server sends, the position is the server's. */
  lemma ProjectedIsPosition(s: SyncState, nowMs: int)
    ensures Projected(ToWire(s), nowMs) == Position(s, nowMs)
  {
    assert s.rate == 0.0 ==> Elapsed(s, nowMs) as real * s.rate == 0.0;
  }

  /** A held state has every field of the server's, and projects its position at every instant. */
  ghost predicate ShowsRoom(w: Wire, s: SyncState)
  {
    && w.status == s.status && w.rate == s.rate && w.mediaTimeMs == s.mediaTimeMs && w.wallTimeMs == s.wallTimeMs
    && w.epoch == s.epoch && w.token == s.token
    && (if s.mediaId == "" then w.mediaId == None else w.mediaId == Some(s.mediaId))
    && (if s.hostId == "" then w.hostId == None else w.hostId == Some(s.hostId))
    && forall nowMs: int :: Projected(w, nowMs) == Position(s, nowMs)
  }

  /** What the server sends of a state has its every field, the start of its epoch included. */
  lemma SentShowsRoom(s: SyncState)
    ensures ShowsRoom(ToWire(s), s) && ToWire(s).epochStarted == s.epochStarted
  {
    MirrorShowsRoom(Client(Some(ToWire(s)), s.epoch), s);
  }

  lemma MirrorShowsRoom(c: Client, s: SyncState)
    requires Mirrors(c, ToWire(s))
    ensures ShowsRoom(c.state.value, s) && c.lastEpoch == s.epoch
  {
    forall nowMs: int
      ensures Projected(c.state.value, nowMs) == Position(s, nowMs)
    {
      ProjectedIsPosition(s, nowMs);
      assert Projected(c.state.value, nowMs) == Projected(ToWire(s), nowMs);
    }
  }

  /**
   After every run of a connection, a streaming client that has taken everything under way, with no frame
   dropped since the last full one, shows the room field by field and projects the server's position at
   every instant.
   */
  lemma DrainedClientShowsRoom(cfg: Config, s0: SyncState, ms: seq<Move>)
    requires Moves(cfg, NewLink(s0), ms)
    requires var l := AfterMoves(cfg, NewLink(s0), ms);
             l.phase.Streaming? && !l.stale && l.pipe == [] && l.chan == []
    ensures var l := AfterMoves(cfg, NewLink(s0), ms);
            l.client.state.Some? && ShowsRoom(l.client.state.value, l.server.state)
  {
    var l := AfterMoves(cfg, NewLink(s0), ms);
    ClientRefinesServer(cfg, s0, ms);
    MirrorShowsRoom(l.client, l.server.state);
  }

  // ---- hand-over notices -------------------------------------------------------------------------

  /** A notice names the host before and after, and the epoch and token that come with the change. */
  ghost predicate NoticeOk(s: Server, f: Frame)
  {
    f.HostMigration? ==>
      && f.newEpoch > 0 && f.newEpoch in s.hist && f.newEpoch - 1 in s.hist
      && (var v, w := s.hist[f.newEpoch - 1], s.hist[f.newEpoch];
          && (if f.previousHost == "" then v.hostId == None else v.hostId == Some(f.previousHost))
          && w.hostId == Some(f.newHost) && f.newHost != "" && f.newHost != f.previousHost
          && w.token == f.newToken == v.token + 1 && SameSample(v, w))
  }

  ghost predicate NoticesOk(s: Server)
  {
    forall f | f in s.sent :: NoticeOk(s, f)
  }

  lemma ActKeepsNotices(cfg: Config, s0: SyncState, s: Server, a: Act)
    requires HistoryOk(s0, s) && NoticesOk(s) && ActOk(s, a) && Extends(s, Do(cfg, s, a))
    ensures NoticesOk(Do(cfg, s, a))
  {
    var t := Do(cfg, s, a);
    forall f | f in t.sent
      ensures NoticeOk(t, f)
    {
      if f in s.sent {
        assert NoticeOk(s, f);
      }
    }
  }

  lemma {:induction false} ActsKeepNotices(cfg: Config, s0: SyncState, s: Server, acts: seq<Act>)
    requires Inv(cfg, s0, s) && NoticesOk(s) && ActsOk(cfg, s, acts)
    ensures NoticesOk(DoAll(cfg, s, acts))
    decreases |acts|
  {
    if acts != [] {
      ActKeepsInv(cfg, s0, s, acts[0]);
      ActKeepsNotices(cfg, s0, s, acts[0]);
      ActsKeepNotices(cfg, s0, Do(cfg, s, acts[0]), acts[1..]);
    }
  }

  lemma {:induction false} RunKeepsNotices(cfg: Config, s0: SyncState, s: Server, es: seq<Event>)
    requires Inv(cfg, s0, s) && NoticesOk(s) && Runs(cfg, s, es)
    ensures NoticesOk(RunOf(cfg, s, es))
    decreases |es|
  {
    if es != [] {
      var acts := StepIsActs(cfg, s, es[0]);
      ActsKeepNotices(cfg, s0, s, acts);
      StepKeepsInv(cfg, s0, s, es[0]);
      RunKeepsNotices(cfg, s0, Step(cfg, s, es[0]), es[1..]);
    }
  }

  /** Over every run, each notice sent says who hosted before and after, and nothing else changed with it. */
  lemma NoticesTellTheChange(cfg: Config, s0: SyncState, es: seq<Event>, f: Frame)
    requires Runs(cfg, Started(s0), es) && f in RunOf(cfg, Started(s0), es).sent
    ensures NoticeOk(RunOf(cfg, Started(s0), es), f)
  {
    StartedInv(cfg, s0);
    RunKeepsNotices(cfg, s0, Started(s0), es);
  }
}
