/**
 What the pipeline delivers: per room, a duplicate-free prefix of what was staged, in staging order,
 so that the replica only moves forward and full delivery reaches the newest staged state.
 */
module Delivery {
  import opened Playback
  import opened Pipeline

  /** The rows among xs that belong to a room, in order. */
  function Restrict(rows: seq<Row>, xs: seq<nat>, room: string): seq<nat>
  {
    if xs == [] then []
    else
      var n := |xs| - 1;
      Restrict(rows, xs[..n], room) + if xs[n] < |rows| && rows[xs[n]].room == room then [xs[n]] else []
  }

  /** The rows staged for a room, in staging order. */
  function StagedFor(rows: seq<Row>, room: string): seq<nat>
  {
    if rows == [] then []
    else
      var n := |rows| - 1;
      StagedFor(rows[..n], room) + if rows[n].room == room then [n] else []
  }

  lemma {:induction false} StagedForMembers(rows: seq<Row>, room: string)
    ensures forall x: nat :: x in StagedFor(rows, room) <==> x < |rows| && rows[x].room == room
  {
    if rows != [] {
      var n := |rows| - 1;
      StagedForMembers(rows[..n], room);
      assert forall k | 0 <= k < n :: rows[..n][k] == rows[k];
    }
  }

  lemma {:induction false} StagedForSpec(rows: seq<Row>, room: string)
    ensures forall x: nat :: x in StagedFor(rows, room) <==> x < |rows| && rows[x].room == room
    ensures forall i, j | 0 <= i < j < |StagedFor(rows, room)| :: StagedFor(rows, room)[i] < StagedFor(rows, room)[j]
  {
    StagedForMembers(rows, room);
    if rows != [] {
      var n := |rows| - 1;
      StagedForSpec(rows[..n], room);
      var before := StagedFor(rows[..n], room);
      assert forall k | 0 <= k < |before| :: before[k] in before;
    }
  }

  lemma {:induction false} RestrictSpec(rows: seq<Row>, xs: seq<nat>, room: string)
    ensures forall x: nat :: x in Restrict(rows, xs, room) <==> x in xs && x < |rows| && rows[x].room == room
    decreases |xs|
  {
    if xs != [] {
      RestrictSpec(rows, xs[..|xs| - 1], room);
      assert xs == xs[..|xs| - 1] + [xs[|xs| - 1]];
    }
  }

  lemma AppliedPrefixes(rows: seq<Row>, applied: seq<nat>, n: nat)
    requires AppliedOk(rows, applied) && n <= |applied|
    ensures AppliedOk(rows, applied[..n])
  {
    forall p, j: nat | 0 <= p < n && j < applied[..n][p] && SameRoom(rows, j, applied[..n][p])
      ensures j in applied[..n][..p]
    {
      assert applied[..n][..p] == applied[..p];
    }
  }

  /** The next row applied to a room is the next one staged for it. */
  lemma NextInOrder(rows: seq<Row>, applied: seq<nat>, k: nat, room: string)
    requires applied != [] && AppliedOk(rows, applied)
    requires k <= |StagedFor(rows, room)|
    requires Restrict(rows, applied[..|applied| - 1], room) == StagedFor(rows, room)[..k]
    requires applied[|applied| - 1] < |rows| && rows[applied[|applied| - 1]].room == room
    ensures k < |StagedFor(rows, room)| && StagedFor(rows, room)[k] == applied[|applied| - 1]
  {
    var n := |applied| - 1;
    var i := applied[n];
    var before, staged := applied[..n], StagedFor(rows, room);
    StagedForSpec(rows, room);
    RestrictSpec(rows, before, room);
    forall q | 0 <= q < k
      ensures staged[q] in before
    {
      assert staged[..k][q] == staged[q];
    }
    assert i in staged;
    var m :| 0 <= m < |staged| && staged[m] == i;
    assert i !in before;
    if m > k {
      assert staged[k] < i && SameRoom(rows, staged[k], i);
    }
  }

  /** Restricted to a room, what was applied is a prefix of what was staged: in order, once each, no gaps. */
  lemma {:induction false} AppliedIsPrefix(rows: seq<Row>, applied: seq<nat>, room: string)
    requires AppliedOk(rows, applied)
    ensures Restrict(rows, applied, room) <= StagedFor(rows, room)
    decreases |applied|
  {
    if applied != [] {
      var n := |applied| - 1;
      AppliedPrefixes(rows, applied, n);
      AppliedIsPrefix(rows, applied[..n], room);
      var k := |Restrict(rows, applied[..n], room)|;
      if applied[n] < |rows| && rows[applied[n]].room == room {
        NextInOrder(rows, applied, k, room);
      }
    }
  }

  // ---- the cache ---------------------------------------------------------------------------------

  /** The replica shows what the event said. */
  predicate Reflects(r: Room, e: SyncUpdated)
  {
    && r.epoch == e.epoch && r.status == e.status && r.mediaTimeMs == e.mediaTime
    && r.wallTimeMs == e.wallTime && r.rate == e.rate && r.hostId == e.hostId
  }

  /** Each room's replica shows the last row applied to it since the consumer started, `since` rows in. */
  ghost predicate CacheOk(s: System, since: nat)
  {
    since <= |s.applied| && forall room: string :: CacheShowsLast(s.rows, s.applied[since..], s.cache, room)
  }

  ghost predicate CacheShowsLast(rows: seq<Row>, applied: seq<nat>, cache: map<string, Room>, room: string)
  {
    var xs := Restrict(rows, applied, room);
    if xs == [] then room !in cache
    else room in cache && xs[|xs| - 1] < |rows| && Reflects(cache[room], rows[xs[|xs| - 1]].event)
  }

  lemma {:induction false} RestrictStable(rows: seq<Row>, rows': seq<Row>, xs: seq<nat>, room: string)
    requires InRange(rows, xs) && |rows| <= |rows'| && forall i | 0 <= i < |rows| :: rows'[i].room == rows[i].room
    ensures Restrict(rows', xs, room) == Restrict(rows, xs, room)
    decreases |xs|
  {
    if xs != [] {
      var n := |xs| - 1;
      assert xs[n] in xs;
      forall x | x in xs[..n]
        ensures x < |rows|
      {
        assert x in xs;
      }
      RestrictStable(rows, rows', xs[..n], room);
    }
  }

  lemma CacheStable(s: System, t: System, since: nat)
    requires CacheOk(s, since) && InRange(s.rows, s.applied) && t.applied == s.applied && t.cache == s.cache
    requires |s.rows| <= |t.rows|
    requires forall i | 0 <= i < |s.rows| :: t.rows[i].room == s.rows[i].room && t.rows[i].event == s.rows[i].event
    ensures CacheOk(t, since)
  {
    var xs := s.applied[since..];
    forall room: string
      ensures CacheShowsLast(t.rows, xs, t.cache, room)
    {
      assert CacheShowsLast(s.rows, xs, s.cache, room);
      RestrictStable(s.rows, t.rows, xs, room);
    }
  }

  lemma RestrictAppend(rows: seq<Row>, xs: seq<nat>, i: nat, room: string)
    ensures Restrict(rows, xs + [i], room)
         == Restrict(rows, xs, room) + if i < |rows| && rows[i].room == room then [i] else []
  {
    assert (xs + [i])[..|xs|] == xs;
  }

  lemma ApplyKeepsCache(rows: seq<Row>, applied: seq<nat>, cache: map<string, Room>, i: nat, r: Room, room: string)
    requires CacheShowsLast(rows, applied, cache, room) && i < |rows| && Reflects(r, rows[i].event)
    ensures CacheShowsLast(rows, applied + [i], cache[rows[i].room := r], room)
  {
    RestrictAppend(rows, applied, i, room);
  }

  lemma ConsumeKeepsCache(s: System, at: nat, now: int, since: nat)
    requires RowsOk(s.rows) && CacheOk(s, since) && at < |s.log| && s.log[at] < |s.rows|
    ensures CacheOk(Consumed(s, at, now), since)
  {
    var t := Consumed(s, at, now);
    var i := s.log[at];
    if KeyOf(s.rows[i]) !in s.seen {
      var xs := s.applied[since..];
      assert t.applied[since..] == xs + [i] && s.rows[i].room == s.rows[i].event.roomId;
      forall room: string
        ensures CacheShowsLast(t.rows, t.applied[since..], t.cache, room)
      {
        assert CacheShowsLast(s.rows, xs, s.cache, room);
        ApplyKeepsCache(s.rows, xs, s.cache, i, t.cache[s.rows[i].room], room);
      }
    }
  }

  lemma StepKeepsCache(part: string -> nat, s: System, m: Step, since: nat)
    requires RowsOk(s.rows) && InRange(s.rows, s.log) && InRange(s.rows, s.applied)
    requires CacheOk(s, since) && Enabled(part, s, m)
    ensures CacheOk(Stepped(part, s, m), since)
  {
    match m {
      case Consume(partition, at, now) =>
        ConsumeKeepsCache(s, at, now, since);
        CacheStable(Consumed(s, at, now), Stepped(part, s, m), since);
      case _ => CacheStable(s, Stepped(part, s, m), since);
    }
  }

  lemma {:induction false} RunKeepsCache(part: string -> nat, s: System, ms: seq<Step>, since: nat)
    requires Inv(part, s) && CacheOk(s, since) && Runs(part, s, ms)
    ensures Inv(part, RunOf(part, s, ms)) && CacheOk(RunOf(part, s, ms), since)
    decreases |ms|
  {
    if ms != [] {
      StepKeepsInv(part, s, ms[0]);
      StepKeepsCache(part, s, ms[0], since);
      RunKeepsCache(part, Stepped(part, s, ms[0]), ms[1..], since);
    }
  }

  lemma NewSystemOk(part: string -> nat)
    ensures Inv(part, NEW_SYSTEM) && CacheOk(NEW_SYSTEM, 0)
  {
  }

  // ---- the guarantees ----------------------------------------------------------------------------

  /**
   Under any publish failures, unclear acknowledgements, rollbacks and redeliveries, the events a
   room's replica was given are a duplicate-free prefix of the staged ones, in staging order, and the
   replica shows the last of them.
   */
  lemma ReplicaAppliesPrefix(part: string -> nat, ms: seq<Step>, room: string)
    requires Runs(part, NEW_SYSTEM, ms)
    ensures var s := RunOf(part, NEW_SYSTEM, ms);
            && Restrict(s.rows, s.applied, room) <= StagedFor(s.rows, room)
            && CacheShowsLast(s.rows, s.applied, s.cache, room)
  {
    var s := RunOf(part, NEW_SYSTEM, ms);
    assert AppliedOk(s.rows, s.applied) && CacheOk(s, 0) by {
      NewSystemOk(part);
      RunKeepsCache(part, NEW_SYSTEM, ms, 0);
    }
    assert s.applied[0..] == s.applied;
    AppliedIsPrefix(s.rows, s.applied, room);
  }

  /** Along a run the replica's epoch never goes back. */
  lemma ReplicaEpochAdvances(part: string -> nat, ms: seq<Step>, m: Step, room: string)
    requires Runs(part, NEW_SYSTEM, ms) && Enabled(part, RunOf(part, NEW_SYSTEM, ms), m)
    requires room in RunOf(part, NEW_SYSTEM, ms).cache
    ensures var s := RunOf(part, NEW_SYSTEM, ms);
            var t := Stepped(part, s, m);
            room in t.cache && s.cache[room].epoch <= t.cache[room].epoch
  {
    var s := RunOf(part, NEW_SYSTEM, ms);
    var t := Stepped(part, s, m);
    assert RowsOk(s.rows) && (m.Consume? ==> AppliedOk(s.rows, t.applied)) by {
      NewSystemOk(part);
      RunKeepsCache(part, NEW_SYSTEM, ms, 0);
      StepKeepsInv(part, s, m);
    }
    assert CacheShowsLast(s.rows, s.applied, s.cache, room) by { ReplicaAppliesPrefix(part, ms, room); }
    if m.Consume? {
      ConsumeAdvances(s, m.at, m.now, room);
    }
  }

  lemma ConsumeAdvances(s: System, at: nat, now: int, room: string)
    requires at < |s.log| && s.log[at] < |s.rows| && RowsOk(s.rows)
    requires AppliedOk(s.rows, Consumed(s, at, now).applied)
    requires room in s.cache && CacheShowsLast(s.rows, s.applied, s.cache, room)
    ensures room in Consumed(s, at, now).cache && s.cache[room].epoch <= Consumed(s, at, now).cache[room].epoch
  {
    var i := s.log[at];
    if KeyOf(s.rows[i]) !in s.seen && s.rows[i].room == room {
      NextEpoch(s.rows, s.applied, i, room);
    }
  }

  /** The next row applied to a room carries an epoch no older than the last one's. */
  lemma NextEpoch(rows: seq<Row>, applied: seq<nat>, i: nat, room: string)
    requires RowsOk(rows) && AppliedOk(rows, applied + [i]) && i < |rows| && rows[i].room == room
    requires Restrict(rows, applied, room) != []
    ensures var xs := Restrict(rows, applied, room);
            xs[|xs| - 1] < |rows| && rows[xs[|xs| - 1]].event.epoch <= rows[i].event.epoch
  {
    var xs, staged := Restrict(rows, applied, room), StagedFor(rows, room);
    assert xs + [i] <= staged by {
      RestrictAppend(rows, applied, i, room);
      AppliedIsPrefix(rows, applied + [i], room);
    }
    StagedEpochs(rows, room, |xs| - 1, |xs|);
  }

  lemma StagedEpochs(rows: seq<Row>, room: string, j: nat, k: nat)
    requires RowsOk(rows) && j < k < |StagedFor(rows, room)|
    ensures var staged := StagedFor(rows, room);
            staged[j] < |rows| && staged[k] < |rows| && rows[staged[j]].event.epoch <= rows[staged[k]].event.epoch
  {
    var staged := StagedFor(rows, room);
    StagedForSpec(rows, room);
    assert staged[j] in staged && staged[k] in staged;
    assert staged[j] < staged[k] && SameRoom(rows, staged[j], staged[k]);
  }

  lemma AllApplied(part: string -> nat, s: System, i: nat)
    requires LogOk(s) && ReadOk(part, s) && i < |s.rows| && s.rows[i].published
    requires Pos(s.pos, part(s.rows[i].room)) == |s.log|
    ensures i in s.applied
  {
    assert i in s.log;
    var q :| 0 <= q < |s.log| && s.log[q] == i;
    assert Holds(part, s.rows, s.log, part(s.rows[i].room), q);
  }

  /** If every row of a room was applied, the prefix applied is everything staged. */
  lemma EverythingApplied(rows: seq<Row>, applied: seq<nat>, room: string)
    requires Restrict(rows, applied, room) <= StagedFor(rows, room)
    requires forall i | 0 <= i < |rows| && rows[i].room == room :: i in applied
    ensures Restrict(rows, applied, room) == StagedFor(rows, room)
  {
    var xs, staged := Restrict(rows, applied, room), StagedFor(rows, room);
    StagedForSpec(rows, room);
    RestrictSpec(rows, applied, room);
    var next := if |xs| < |staged| then staged[|xs|] else 0;
    assert |xs| < |staged| ==> next in staged && next in applied && next in xs;
  }

  /** With every row published and the room's partition read to the end, the replica shows the newest staged state. */
  lemma FullDeliveryReachesNewest(part: string -> nat, ms: seq<Step>, room: string)
    requires Runs(part, NEW_SYSTEM, ms)
    requires var s := RunOf(part, NEW_SYSTEM, ms);
             && (forall i | 0 <= i < |s.rows| :: s.rows[i].published)
             && Pos(s.pos, part(room)) == |s.log|
    ensures var s := RunOf(part, NEW_SYSTEM, ms);
            var staged := StagedFor(s.rows, room);
            && Restrict(s.rows, s.applied, room) == staged
            && (staged != [] ==> room in s.cache && staged[|staged| - 1] < |s.rows|
                                 && Reflects(s.cache[room], s.rows[staged[|staged| - 1]].event))
  {
    var s := RunOf(part, NEW_SYSTEM, ms);
    forall i | 0 <= i < |s.rows| && s.rows[i].room == room
      ensures i in s.applied
    {
      assert LogOk(s) && ReadOk(part, s) by {
        NewSystemOk(part);
        RunKeepsCache(part, NEW_SYSTEM, ms, 0);
      }
      AllApplied(part, s, i);
    }
    ReplicaAppliesPrefix(part, ms, room);
    EverythingApplied(s.rows, s.applied, room);
  }

  // ---- a restart of the consumer -----------------------------------------------------------------

  /** The process starts again: the cache is gone, the dedupe keys and the reading positions are not. */
  function Restarted(s: System): System
  {
    s.(cache := map[])
  }

  lemma {:induction false} RestrictSplits(rows: seq<Row>, xs: seq<nat>, ys: seq<nat>, room: string)
    ensures Restrict(rows, xs + ys, room) == Restrict(rows, xs, room) + Restrict(rows, ys, room)
    decreases |ys|
  {
    if ys == [] {
      assert xs + ys == xs;
    } else {
      var n := |ys| - 1;
      assert xs + ys == (xs + ys[..n]) + [ys[n]];
      RestrictAppend(rows, xs + ys[..n], ys[n], room);
      RestrictSplits(rows, xs, ys[..n], room);
    }
  }

  lemma SinceShowsLastIff(rows: seq<Row>, applied: seq<nat>, k: nat, cache: map<string, Room>, room: string)
    requires k <= |applied| && CacheShowsLast(rows, applied[k..], cache, room)
    ensures CacheShowsLast(rows, applied, cache, room) <==>
            Restrict(rows, applied[k..], room) != [] || Restrict(rows, applied, room) == []
  {
    RestrictSplits(rows, applied[..k], applied[k..], room);
    assert applied[..k] + applied[k..] == applied;
  }

  lemma RestartKeeps(part: string -> nat, ms: seq<Step>)
    requires Runs(part, NEW_SYSTEM, ms)
    ensures var r := Restarted(RunOf(part, NEW_SYSTEM, ms)); Inv(part, r) && CacheOk(r, |r.applied|)
  {
    NewSystemOk(part);
    RunKeepsCache(part, NEW_SYSTEM, ms, 0);
    var r := Restarted(RunOf(part, NEW_SYSTEM, ms));
    assert r.applied[|r.applied|..] == [];
  }

  /**
   After a restart a room's replica shows the last event applied since, and the last event applied at
   all if and only if there was one since or never one before: redelivery does not bring the rest
   back, because their keys are still there.
   */
  lemma RestartShowsLastIff(part: string -> nat, ms: seq<Step>, later: seq<Step>, room: string)
    requires Runs(part, NEW_SYSTEM, ms) && Runs(part, Restarted(RunOf(part, NEW_SYSTEM, ms)), later)
    ensures var k := |RunOf(part, NEW_SYSTEM, ms).applied|;
            var t := RunOf(part, Restarted(RunOf(part, NEW_SYSTEM, ms)), later);
            && k <= |t.applied|
            && CacheShowsLast(t.rows, t.applied[k..], t.cache, room)
            && (CacheShowsLast(t.rows, t.applied, t.cache, room) <==>
                Restrict(t.rows, t.applied[k..], room) != [] || Restrict(t.rows, t.applied, room) == [])
  {
    var r := Restarted(RunOf(part, NEW_SYSTEM, ms));
    var t := RunOf(part, r, later);
    assert CacheOk(t, |r.applied|) by {
      RestartKeeps(part, ms);
      RunKeepsCache(part, r, later, |r.applied|);
    }
    SinceShowsLastIff(t.rows, t.applied, |r.applied|, t.cache, room);
  }

  /** One row staged and drained: the steps, and the system they leave. */
  lemma OneRowPublished(part: string -> nat, row: Row) returns (ms: seq<Step>, s: System)
    requires Stageable([], row)
    ensures Runs(part, NEW_SYSTEM, ms) && RunOf(part, NEW_SYSTEM, ms) == s
    ensures s == NEW_SYSTEM.(rows := [row.(published := true)], log := [0])
  {
    var s1 := NEW_SYSTEM.(rows := [row]);
    var s2 := s1.(relay := Draining([0], 0));
    var s3 := s1.(relay := Draining([0], 1), log := [0]);
    s := NEW_SYSTEM.(rows := [row.(published := true)], log := [0]);
    assert Stepped(part, NEW_SYSTEM, Stage(row)) == s1;
    assert IsFetch(s1.rows, 1, [0]) && Stepped(part, s1, Fetch(1, [0])) == s2;
    assert Stepped(part, s2, Publish(1)) == s3 by { assert Written([], 0, 1) == [0]; }
    assert Stepped(part, s3, Commit) == s by { assert Marked([row], [0]) == [row.(published := true)]; }
    RunExtends(part, NEW_SYSTEM, [], Stage(row));
    RunExtends(part, NEW_SYSTEM, [] + [Stage(row)], Fetch(1, [0]));
    RunExtends(part, NEW_SYSTEM, [] + [Stage(row)] + [Fetch(1, [0])], Publish(1));
    RunExtends(part, NEW_SYSTEM, [] + [Stage(row)] + [Fetch(1, [0])] + [Publish(1)], Commit);
    ms := [] + [Stage(row)] + [Fetch(1, [0])] + [Publish(1)] + [Commit];
  }

  /** And consumed. */
  lemma OneRowDelivered(part: string -> nat, row: Row, now: int) returns (ms: seq<Step>, s: System)
    requires Stageable([], row)
    ensures Runs(part, NEW_SYSTEM, ms) && RunOf(part, NEW_SYSTEM, ms) == s
    ensures s == System([row.(published := true)], Idle, [0], map[part(row.room) := 1], {KeyOf(row)}, [0],
                        map[row.room := FromEvent(EMPTY_ROOM, row.event, now)])
  {
    var before, r := OneRowPublished(part, row);
    assert IsNext(part, r, part(row.room), 0);
    RunExtends(part, NEW_SYSTEM, before, Consume(part(row.room), 0, now));
    ms := before + [Consume(part(row.room), 0, now)];
    s := Stepped(part, r, Consume(part(row.room), 0, now));
  }

  /** After a restart the room is gone, and reading its message again does not bring it back. */
  lemma RestartForgets(part: string -> nat, row: Row, now: int) returns (ms: seq<Step>)
    requires Stageable([], row)
    ensures Runs(part, NEW_SYSTEM, ms) && row.room in RunOf(part, NEW_SYSTEM, ms).cache
    ensures var r := Restarted(RunOf(part, NEW_SYSTEM, ms));
            var later := [] + [Rewind(part(row.room), 0)] + [Consume(part(row.room), 0, now)];
            Runs(part, r, later) && RunOf(part, r, later).cache == map[]
  {
    var s;
    ms, s := OneRowDelivered(part, row, now);
    var r, p := Restarted(s), part(row.room);
    RunExtends(part, r, [], Rewind(p, 0));
    var r1 := Stepped(part, r, Rewind(p, 0));
    assert IsNext(part, r1, p, 0);
    RunExtends(part, r, [] + [Rewind(p, 0)], Consume(p, 0, now));
  }

  /** The process dies after the key was set and before the handler ran: key kept, cache gone, nothing applied. */
  function Crashed(s: System, at: nat): System
    requires at < |s.log| && s.log[at] < |s.rows|
  {
    s.(seen := s.seen + {KeyOf(s.rows[s.log[at]])}, cache := map[])
  }

  /** The row's key is taken though the row was never applied. */
  predicate Lost(s: System, i: nat)
  {
    i < |s.rows| && KeyOf(s.rows[i]) in s.seen && i !in s.applied
  }

  lemma LostStaysLost(part: string -> nat, s: System, m: Step, i: nat)
    requires Lost(s, i) && Enabled(part, s, m)
    ensures Lost(Stepped(part, s, m), i) && Stepped(part, s, m).rows[i].room == s.rows[i].room
  {
  }

  lemma {:induction false} RunsKeepLost(part: string -> nat, s: System, ms: seq<Step>, i: nat)
    requires Lost(s, i) && Runs(part, s, ms)
    ensures Lost(RunOf(part, s, ms), i) && RunOf(part, s, ms).rows[i].room == s.rows[i].room
    decreases |ms|
  {
    if ms != [] {
      LostStaysLost(part, s, ms[0], i);
      RunsKeepLost(part, Stepped(part, s, ms[0]), ms[1..], i);
    }
  }

  /**
   Such a crash loses its event for good: whatever is redelivered later, it stays among the room's staged
   events and never among the applied ones, so the room is never fully delivered again.
   */
  lemma CrashLosesEvent(part: string -> nat, s: System, at: nat, later: seq<Step>)
    requires at < |s.log| && s.log[at] < |s.rows| && s.log[at] !in s.applied
    requires Runs(part, Crashed(s, at), later)
    ensures var i, room := s.log[at], s.rows[s.log[at]].room;
            var t := RunOf(part, Crashed(s, at), later);
            && i in StagedFor(t.rows, room) && i !in Restrict(t.rows, t.applied, room)
            && Restrict(t.rows, t.applied, room) != StagedFor(t.rows, room)
  {
    var i, room := s.log[at], s.rows[s.log[at]].room;
    var t := RunOf(part, Crashed(s, at), later);
    RunsKeepLost(part, Crashed(s, at), later, i);
    StagedForSpec(t.rows, room);
    RestrictSpec(t.rows, t.applied, room);
  }

  /** One row published, the crash before its handler ran, the message read again: the room never appears. */
  lemma CrashedRoomNeverAppears(part: string -> nat, row: Row, now: int) returns (ms: seq<Step>)
    requires Stageable([], row)
    ensures Runs(part, NEW_SYSTEM, ms)
    ensures var s := RunOf(part, NEW_SYSTEM, ms);
            && s.log == [0] && |s.rows| == 1 && s.applied == []
            && Runs(part, Crashed(s, 0), [] + [Consume(part(row.room), 0, now)])
            && RunOf(part, Crashed(s, 0), [] + [Consume(part(row.room), 0, now)]).cache == map[]
  {
    var s;
    ms, s := OneRowPublished(part, row);
    var c := Crashed(s, 0);
    assert IsNext(part, c, part(row.room), 0);
    RunExtends(part, c, [], Consume(part(row.room), 0, now));
  }
}
