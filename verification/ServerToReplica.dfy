/** The room server and its replica together: what is staged or commanded from one run of the server. */
module ServerToReplica {
  import opened Options
  import opened SyncStates
  import RoomServer
  import opened ServerGuarantees
  import opened Playback
  import opened Pipeline
  import opened Delivery

  function StatusCode(s: Status): int
  {
    match s
    case Unspecified => 0
    case Paused => 1
    case Playing => 2
    case Buffering => 3
    case Ended => 4
  }

  /** The payload staged for a state. */
  function StagedEvent(room: string, st: SyncState): SyncUpdated
  {
    SyncUpdated(room, st.epoch, StatusCode(st.status), st.mediaTimeMs, st.wallTimeMs, st.rate, st.hostId)
  }

  /** The fenced call that carries a state. */
  function CommandOf(st: SyncState): SyncCommand
  {
    SyncCommand(st.mediaId, StatusCode(st.status), st.mediaTimeMs, st.wallTimeMs, st.rate,
                st.epoch, st.hostId, st.token)
  }

  lemma WireDeterminesCommand(a: SyncState, b: SyncState)
    requires RoomServer.ToWire(a) == RoomServer.ToWire(b)
    ensures CommandOf(a) == CommandOf(b) && forall room: string :: StagedEvent(room, a) == StagedEvent(room, b)
  {
    assert a.mediaId == "" || RoomServer.OptionalId(a.mediaId) == Some(a.mediaId);
    assert a.hostId == "" || RoomServer.OptionalId(a.hostId) == Some(a.hostId);
  }

  /** The deliveries carry states of one server run, the k-th that of instant `at[k]`. */
  ghost predicate CommandedFrom(cfg: RoomServer.Config, s0: SyncState, es: seq<RoomServer.Event>,
                                ds: seq<Playback.Delivery>, at: seq<nat>)
    requires RoomServer.Runs(cfg, RoomServer.Started(s0), es)
  {
    && |at| == |ds|
    && forall k | 0 <= k < |ds| :: at[k] <= |es| && ds[k].command == CommandOf(At(cfg, s0, es, at[k]).state)
  }

  /** One run of the server never yields two payloads for one (token, epoch). */
  lemma RunGivesOnePayloadEach(cfg: RoomServer.Config, s0: SyncState, es: seq<RoomServer.Event>,
                               ds: seq<Playback.Delivery>, at: seq<nat>)
    requires RoomServer.Runs(cfg, RoomServer.Started(s0), es) && CommandedFrom(cfg, s0, es, ds, at)
    ensures OnePayloadEach(Commands(ds))
  {
    forall c, d | c in Commands(ds) && d in Commands(ds) && c.token == d.token && c.epoch == d.epoch
      ensures c == d
    {
      var i :| 0 <= i < |ds| && ds[i].command == c;
      var j :| 0 <= j < |ds| && ds[j].command == d;
      EpochDeterminesState(cfg, s0, es, at[i], at[j]);
      WireDeterminesCommand(At(cfg, s0, es, at[i]).state, At(cfg, s0, es, at[j]).state);
    }
  }

  /** So the commands of a run converge, however they are reordered and duplicated. */
  lemma RunCommandsConverge(cfg: RoomServer.Config, s0: SyncState, es: seq<RoomServer.Event>, r: Room,
                            ds: seq<Playback.Delivery>, ds': seq<Playback.Delivery>, at: seq<nat>)
    requires RoomServer.Runs(cfg, RoomServer.Started(s0), es) && CommandedFrom(cfg, s0, es, ds, at)
    requires Commands(ds') == Commands(ds)
    ensures StateOf(AfterCommands(r, ds')) == StateOf(AfterCommands(r, ds))
  {
    RunGivesOnePayloadEach(cfg, s0, es, ds, at);
    CommandsConverge(r, ds, ds');
  }

  /** Later states of a run never stage a smaller epoch. */
  lemma StagedEpochsInOrder(cfg: RoomServer.Config, s0: SyncState, es: seq<RoomServer.Event>, room: string,
                            i: nat, j: nat)
    requires RoomServer.Runs(cfg, RoomServer.Started(s0), es) && i <= j <= |es|
    ensures StagedEvent(room, At(cfg, s0, es, i).state).epoch <= StagedEvent(room, At(cfg, s0, es, j).state).epoch
  {
    RunHistory(cfg, s0, es, i, j);
  }

  /** The room's rows, in staging order, hold the states of one server run at the instants `at`. */
  ghost predicate StagedFrom(cfg: RoomServer.Config, s0: SyncState, es: seq<RoomServer.Event>, room: string,
                             rows: seq<Row>, at: seq<nat>)
    requires RoomServer.Runs(cfg, RoomServer.Started(s0), es)
  {
    var staged := StagedFor(rows, room);
    && |at| == |staged|
    && forall k | 0 <= k < |staged| ::
         at[k] <= |es| && staged[k] < |rows| && rows[staged[k]].event == StagedEvent(room, At(cfg, s0, es, at[k]).state)
  }

  /** The replica was given n of the room's events and shows the n-th state the server staged. */
  ghost predicate ShowsStaged(cfg: RoomServer.Config, s0: SyncState, es: seq<RoomServer.Event>, room: string,
                              cache: map<string, Room>, n: nat, at: seq<nat>)
    requires RoomServer.Runs(cfg, RoomServer.Started(s0), es)
  {
    && n <= |at|
    && (if n == 0 then room !in cache
        else room in cache && at[n - 1] <= |es|
             && Reflects(cache[room], StagedEvent(room, At(cfg, s0, es, at[n - 1]).state)))
  }

  lemma PrefixShowsStaged(cfg: RoomServer.Config, s0: SyncState, es: seq<RoomServer.Event>, room: string,
                          rows: seq<Row>, applied: seq<nat>, cache: map<string, Room>, at: seq<nat>)
    requires RoomServer.Runs(cfg, RoomServer.Started(s0), es) && StagedFrom(cfg, s0, es, room, rows, at)
    requires Restrict(rows, applied, room) <= StagedFor(rows, room) && CacheShowsLast(rows, applied, cache, room)
    ensures ShowsStaged(cfg, s0, es, room, cache, |Restrict(rows, applied, room)|, at)
  {
    var xs := Restrict(rows, applied, room);
    assert xs != [] ==> xs[|xs| - 1] == StagedFor(rows, room)[|xs| - 1];
  }

  /**
   End to end: whatever fails, repeats or is redelivered in between, a replica that was given n of the
   room's events shows the n-th state the server staged, and the newest one once all were delivered.
   */
  lemma ReplicaShowsServerState(cfg: RoomServer.Config, s0: SyncState, es: seq<RoomServer.Event>,
                                part: string -> nat, ms: seq<Step>, room: string, at: seq<nat>)
    requires RoomServer.Runs(cfg, RoomServer.Started(s0), es) && Pipeline.Runs(part, NEW_SYSTEM, ms)
    requires StagedFrom(cfg, s0, es, room, Pipeline.RunOf(part, NEW_SYSTEM, ms).rows, at)
    ensures var s := Pipeline.RunOf(part, NEW_SYSTEM, ms);
            var n := |Restrict(s.rows, s.applied, room)|;
            && ShowsStaged(cfg, s0, es, room, s.cache, n, at)
            && ((forall i | 0 <= i < |s.rows| :: s.rows[i].published) && Pos(s.pos, part(room)) == |s.log| ==>
                  n == |at|)
  {
    var s := Pipeline.RunOf(part, NEW_SYSTEM, ms);
    ReplicaAppliesPrefix(part, ms, room);
    PrefixShowsStaged(cfg, s0, es, room, s.rows, s.applied, s.cache, at);
    if (forall i | 0 <= i < |s.rows| :: s.rows[i].published) && Pos(s.pos, part(room)) == |s.log| {
      FullDeliveryReachesNewest(part, ms, room);
    }
  }
}
