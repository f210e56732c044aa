/**
 One machine of a room's server and the path to its replica: the server takes events, its current state
 is staged at any moment, and the pipeline makes any of its steps, in every interleaving. Row ids and
 staging times come from outside; what is staged and in which order of epochs follows.
 */
module EndToEnd {
  import opened SyncStates
  import RoomServer
  import ServerRuns
  import opened Playback
  import opened Pipeline
  import opened Delivery
  import opened ServerToReplica

  /** `staged` remembers the states staged for the room, in order. */
  datatype Joint = Joint(server: RoomServer.Server, sys: System, staged: seq<SyncState>)

  datatype Turn =
    | ServerTurn(event: RoomServer.Event)
    | StageTurn(id: string, at: int)
    | PipeTurn(step: Step)

  function NewJoint(s0: SyncState): Joint
  {
    Joint(RoomServer.Started(s0), NEW_SYSTEM, [])
  }

  function StagedRow(j: Joint, room: string, id: string, at: int): Row
  {
    Row(id, room, at, StagedEvent(room, j.server.state), false)
  }

  /** A fresh id and a later time than the room's earlier rows; nothing is asked of the epochs. */
  ghost predicate CanStage(rows: seq<Row>, room: string, id: string, at: int)
  {
    && id != "" && (forall i | 0 <= i < |rows| :: rows[i].id != id)
    && (forall i | 0 <= i < |rows| && rows[i].room == room :: rows[i].at < at)
  }

  /** The pipeline's own staging steps are those of other rooms. */
  ghost predicate CanTurn(cfg: RoomServer.Config, part: string -> nat, room: string, j: Joint, t: Turn)
  {
    match t
    case ServerTurn(e) => RoomServer.Enabled(cfg, j.server, e)
    case StageTurn(id, at) => CanStage(j.sys.rows, room, id, at)
    case PipeTurn(m) => Enabled(part, j.sys, m) && (m.Stage? ==> m.row.room != room)
  }

  ghost function Turned(cfg: RoomServer.Config, part: string -> nat, room: string, j: Joint, t: Turn): Joint
    requires CanTurn(cfg, part, room, j, t)
  {
    match t
    case ServerTurn(e) => j.(server := RoomServer.Step(cfg, j.server, e))
    case StageTurn(id, at) =>
      j.(sys := j.sys.(rows := j.sys.rows + [StagedRow(j, room, id, at)]), staged := j.staged + [j.server.state])
    case PipeTurn(m) => j.(sys := Stepped(part, j.sys, m))
  }

  ghost predicate Turns(cfg: RoomServer.Config, part: string -> nat, room: string, j: Joint, ts: seq<Turn>)
    decreases |ts|
  {
    ts == [] ||
    (CanTurn(cfg, part, room, j, ts[0]) && Turns(cfg, part, room, Turned(cfg, part, room, j, ts[0]), ts[1..]))
  }

  ghost function AfterTurns(cfg: RoomServer.Config, part: string -> nat, room: string, j: Joint, ts: seq<Turn>): Joint
    requires Turns(cfg, part, room, j, ts)
    decreases |ts|
  {
    if ts == [] then j else AfterTurns(cfg, part, room, Turned(cfg, part, room, j, ts[0]), ts[1..])
  }

  // ---- the invariant -----------------------------------------------------------------------------

  /** The states staged are states the server has had, in an order of non-decreasing epochs. */
  ghost predicate StatesOk(server: RoomServer.Server, staged: seq<SyncState>)
  {
    && (forall k | 0 <= k < |staged| ::
          && staged[k].epoch <= server.state.epoch && staged[k].epoch in server.hist
          && RoomServer.ToWire(staged[k]) == server.hist[staged[k].epoch])
    && (forall i, k | 0 <= i <= k < |staged| :: staged[i].epoch <= staged[k].epoch)
  }

  /** The room's rows carry exactly the states staged. */
  ghost predicate RowsCarry(room: string, rows: seq<Row>, staged: seq<SyncState>)
  {
    var xs := StagedFor(rows, room);
    && |xs| == |staged|
    && forall k | 0 <= k < |xs| :: xs[k] < |rows| && rows[xs[k]].event == StagedEvent(room, staged[k])
  }

  ghost predicate JointOk(cfg: RoomServer.Config, s0: SyncState, part: string -> nat, room: string, j: Joint)
  {
    && ServerRuns.Inv(cfg, s0, j.server) && Inv(part, j.sys) && CacheOk(j.sys, 0)
    && StatesOk(j.server, j.staged) && RowsCarry(room, j.sys.rows, j.staged)
  }

  lemma NewJointOk(cfg: RoomServer.Config, s0: SyncState, part: string -> nat, room: string)
    ensures JointOk(cfg, s0, part, room, NewJoint(s0))
  {
    ServerRuns.StartedInv(cfg, s0);
    NewSystemOk(part);
  }

  lemma StatesGrow(s: RoomServer.Server, t: RoomServer.Server, staged: seq<SyncState>)
    requires StatesOk(s, staged) && ServerRuns.Extends(s, t)
    ensures StatesOk(t, staged)
  {
  }

  lemma StagedForAppend(rows: seq<Row>, row: Row, room: string)
    ensures StagedFor(rows + [row], room) == StagedFor(rows, room) + if row.room == room then [|rows|] else []
  {
    assert (rows + [row])[..|rows|] == rows;
  }

  lemma {:induction false} StagedForStable(rows: seq<Row>, rows': seq<Row>, room: string)
    requires |rows'| == |rows| && forall i | 0 <= i < |rows| :: rows'[i].room == rows[i].room
    ensures StagedFor(rows', room) == StagedFor(rows, room)
    decreases |rows|
  {
    if rows != [] {
      StagedForStable(rows[..|rows| - 1], rows'[..|rows| - 1], room);
    }
  }

  /** The epochs of what is staged never fall, so the outbox may take it. */
  lemma StagingIsStageable(j: Joint, room: string, id: string, at: int)
    requires StatesOk(j.server, j.staged) && RowsCarry(room, j.sys.rows, j.staged)
    requires CanStage(j.sys.rows, room, id, at) && room != ""
    ensures Stageable(j.sys.rows, StagedRow(j, room, id, at))
  {
    var rows, xs := j.sys.rows, StagedFor(j.sys.rows, room);
    StagedForSpec(rows, room);
    forall i | 0 <= i < |rows| && rows[i].room == room
      ensures rows[i].event.epoch <= j.server.state.epoch
    {
      assert i in xs;
      var k :| 0 <= k < |xs| && xs[k] == i;
      assert rows[xs[k]].event == StagedEvent(room, j.staged[k]);
    }
  }

  lemma CarryAppend(room: string, rows: seq<Row>, staged: seq<SyncState>, row: Row, st: SyncState)
    requires RowsCarry(room, rows, staged) && row.room == room && row.event == StagedEvent(room, st)
    ensures RowsCarry(room, rows + [row], staged + [st])
  {
    StagedForAppend(rows, row, room);
  }

  lemma PipeKeepsCarry(part: string -> nat, room: string, s: System, m: Step, staged: seq<SyncState>)
    requires RowsCarry(room, s.rows, staged) && Enabled(part, s, m) && (m.Stage? ==> m.row.room != room)
    ensures RowsCarry(room, Stepped(part, s, m).rows, staged)
  {
    if m.Stage? {
      StagedForAppend(s.rows, m.row, room);
    } else {
      StagedForStable(s.rows, Stepped(part, s, m).rows, room);
    }
  }

  lemma StageKeepsJoint(cfg: RoomServer.Config, s0: SyncState, part: string -> nat, room: string, j: Joint,
                        id: string, at: int)
    requires JointOk(cfg, s0, part, room, j) && CanStage(j.sys.rows, room, id, at) && room != ""
    ensures JointOk(cfg, s0, part, room, Turned(cfg, part, room, j, StageTurn(id, at)))
  {
    var row := StagedRow(j, room, id, at);
    var sys := j.sys.(rows := j.sys.rows + [row]);
    assert Stageable(j.sys.rows, row) by { StagingIsStageable(j, room, id, at); }
    assert Inv(part, sys) && CacheOk(sys, 0) by {
      StageKeeps(part, j.sys, row);
      CacheStable(j.sys, sys, 0);
    }
    assert RowsCarry(room, sys.rows, j.staged + [j.server.state]) by {
      CarryAppend(room, j.sys.rows, j.staged, row, j.server.state);
    }
    assert StatesOk(j.server, j.staged + [j.server.state]) by { StatesAppend(s0, j.server, j.staged); }
  }

  lemma StatesAppend(s0: SyncState, server: RoomServer.Server, staged: seq<SyncState>)
    requires ServerRuns.HistoryOk(s0, server) && StatesOk(server, staged)
    ensures StatesOk(server, staged + [server.state])
  {
  }

  lemma TurnKeepsJoint(cfg: RoomServer.Config, s0: SyncState, part: string -> nat, room: string, j: Joint, t: Turn)
    requires JointOk(cfg, s0, part, room, j) && CanTurn(cfg, part, room, j, t) && room != ""
    ensures JointOk(cfg, s0, part, room, Turned(cfg, part, room, j, t))
  {
    match t {
      case ServerTurn(e) =>
        var s := RoomServer.Step(cfg, j.server, e);
        assert ServerRuns.Inv(cfg, s0, s) && ServerRuns.Extends(j.server, s) by {
          ServerRuns.StepKeepsInv(cfg, s0, j.server, e);
        }
        StatesGrow(j.server, s, j.staged);
      case StageTurn(id, at) => StageKeepsJoint(cfg, s0, part, room, j, id, at);
      case PipeTurn(m) =>
        assert Inv(part, Stepped(part, j.sys, m)) by { StepKeepsInv(part, j.sys, m); }
        assert CacheOk(Stepped(part, j.sys, m), 0) by { StepKeepsCache(part, j.sys, m, 0); }
        PipeKeepsCarry(part, room, j.sys, m, j.staged);
    }
  }

  lemma {:induction false} TurnsKeepJoint(cfg: RoomServer.Config, s0: SyncState, part: string -> nat, room: string,
                                          j: Joint, ts: seq<Turn>)
    requires JointOk(cfg, s0, part, room, j) && Turns(cfg, part, room, j, ts) && room != ""
    ensures JointOk(cfg, s0, part, room, AfterTurns(cfg, part, room, j, ts))
    decreases |ts|
  {
    if ts != [] {
      TurnKeepsJoint(cfg, s0, part, room, j, ts[0]);
      TurnsKeepJoint(cfg, s0, part, room, Turned(cfg, part, room, j, ts[0]), ts[1..]);
    }
  }

  // ---- the guarantee -----------------------------------------------------------------------------

  /** The replica, given n of the room's events, shows the n-th state staged, or nothing when n is zero. */
  predicate Shows(cache: map<string, Room>, room: string, staged: seq<SyncState>, n: nat)
  {
    && n <= |staged|
    && (if n == 0 then room !in cache
        else room in cache && Reflects(cache[room], StagedEvent(room, staged[n - 1])))
  }

  lemma CarriedIsShown(rows: seq<Row>, applied: seq<nat>, cache: map<string, Room>, room: string,
                       staged: seq<SyncState>)
    requires RowsCarry(room, rows, staged) && AppliedOk(rows, applied) && CacheShowsLast(rows, applied, cache, room)
    ensures Shows(cache, room, staged, |Restrict(rows, applied, room)|)
  {
    var xs := Restrict(rows, applied, room);
    AppliedIsPrefix(rows, applied, room);
    assert xs != [] ==> xs[|xs| - 1] == StagedFor(rows, room)[|xs| - 1];
  }

  /** Every row is published and the room's partition is read to the end. */
  predicate AllRead(part: string -> nat, s: System, room: string)
  {
    (forall i | 0 <= i < |s.rows| :: s.rows[i].published) && Pos(s.pos, part(room)) == |s.log|
  }

  /**
   In every interleaving of server events, staging, failures, repeats and redeliveries, the replica shows
   a state the server has had, the n-th it staged after n events were applied, never newer than the
   server; and once everything staged was published and read, the newest one staged.
   */
  lemma ReplicaFollowsServer(cfg: RoomServer.Config, s0: SyncState, part: string -> nat, room: string, ts: seq<Turn>)
    requires room != "" && Turns(cfg, part, room, NewJoint(s0), ts)
    ensures var j := AfterTurns(cfg, part, room, NewJoint(s0), ts);
            var n := |Restrict(j.sys.rows, j.sys.applied, room)|;
            && StatesOk(j.server, j.staged) && Shows(j.sys.cache, room, j.staged, n)
            && (room in j.sys.cache ==> j.sys.cache[room].epoch <= j.server.state.epoch)
            && (AllRead(part, j.sys, room) ==> n == |j.staged|)
  {
    var j := AfterTurns(cfg, part, room, NewJoint(s0), ts);
    var s := j.sys;
    assert JointOk(cfg, s0, part, room, j) by {
      NewJointOk(cfg, s0, part, room);
      TurnsKeepJoint(cfg, s0, part, room, NewJoint(s0), ts);
    }
    assert s.applied[0..] == s.applied;
    CarriedIsShown(s.rows, s.applied, s.cache, room, j.staged);
    if AllRead(part, s, room) {
      EverythingShown(part, s, room);
    }
  }

  lemma EverythingShown(part: string -> nat, s: System, room: string)
    requires Inv(part, s) && AllRead(part, s, room)
    ensures Restrict(s.rows, s.applied, room) == StagedFor(s.rows, room)
  {
    forall i | 0 <= i < |s.rows| && s.rows[i].room == room
      ensures i in s.applied
    {
      AllApplied(part, s, i);
    }
    AppliedIsPrefix(s.rows, s.applied, room);
    EverythingApplied(s.rows, s.applied, room);
  }

  // ---- field by field ----------------------------------------------------------------------------

  /** The position a reader of the replica projects; 2 is playing. */
  function ReplicaPosition(r: Room, nowMs: int): real
  {
    var elapsed := if nowMs > r.wallTimeMs then nowMs - r.wallTimeMs else 0;
    r.mediaTimeMs as real + elapsed as real * (if r.status == 2 then r.rate else 0.0)
  }

  /** The replica has the state's sample, rate, host and epoch, its status by number, and its position throughout. */
  ghost predicate Copies(r: Room, st: SyncState)
  {
    && r.mediaTimeMs == st.mediaTimeMs && r.wallTimeMs == st.wallTimeMs && r.rate == st.rate
    && r.hostId == st.hostId && r.epoch == st.epoch
    && (st.status == Unspecified <==> r.status == 0) && (st.status == Paused <==> r.status == 1)
    && (st.status == Playing <==> r.status == 2) && (st.status == Buffering <==> r.status == 3)
    && (st.status == Ended <==> r.status == 4)
    && forall nowMs: int :: ReplicaPosition(r, nowMs) == Position(st, nowMs)
  }

  lemma ReflectedIsCopied(r: Room, room: string, st: SyncState)
    requires Reflects(r, StagedEvent(room, st))
    ensures Copies(r, st)
  {
    forall nowMs: int
      ensures ReplicaPosition(r, nowMs) == Position(st, nowMs)
    {
      assert Played(st, nowMs) == Elapsed(st, nowMs) as real * EffectiveRate(st);
    }
  }

  /** In every interleaving a replica that exists copies, field by field, the last state given to it. */
  lemma ReplicaCopiesServerState(cfg: RoomServer.Config, s0: SyncState, part: string -> nat, room: string,
                                 ts: seq<Turn>)
    requires room != "" && Turns(cfg, part, room, NewJoint(s0), ts)
    requires room in AfterTurns(cfg, part, room, NewJoint(s0), ts).sys.cache
    ensures var j := AfterTurns(cfg, part, room, NewJoint(s0), ts);
            var n := |Restrict(j.sys.rows, j.sys.applied, room)|;
            0 < n <= |j.staged| && Copies(j.sys.cache[room], j.staged[n - 1])
  {
    var j := AfterTurns(cfg, part, room, NewJoint(s0), ts);
    var n := |Restrict(j.sys.rows, j.sys.applied, room)|;
    assert Shows(j.sys.cache, room, j.staged, n) by { ReplicaFollowsServer(cfg, s0, part, room, ts); }
    ReflectedIsCopied(j.sys.cache[room], room, j.staged[n - 1]);
  }

  /** A fenced call that is applied copies the state it was made of, media and token included. */
  lemma AppliedCommandCopies(r: Room, st: SyncState, now: int)
    requires Supersedes(CommandOf(st), r)
    ensures var t := FromCommand(r, CommandOf(st), now);
            Copies(t, st) && t.mediaId == st.mediaId && t.token == st.token && t.updatedAt == now
  {
    var t := FromCommand(r, CommandOf(st), now);
    ReflectedIsCopied(t, "", st);
  }
}
