/**
 The path of a room's state to its replica: staged in the outbox table, drained to Kafka by a relay
 that may fail anywhere, redelivered at will, deduplicated by event id, applied to the cache.

 A row is known by its index in the table. One relay leads at a time; the key-value store is up.
 */
module Pipeline {
  import opened Playback

  datatype Row = Row(id: string, room: string, at: int, event: SyncUpdated, published: bool)

  /** The drain transaction: the fetched rows, of which the first `done` are published and marked. */
  datatype Relay = Idle | Draining(batch: seq<nat>, done: nat)

  /**
   `log` is the topic in publication order, `pos` how far each partition has been read, `seen` the
   keys set in the key-value store, `applied` the rows handed to the handler so far.
   */
  datatype System = System(
    rows: seq<Row>,
    relay: Relay,
    log: seq<nat>,
    pos: map<nat, nat>,
    seen: set<string>,
    applied: seq<nat>,
    cache: map<string, Room>)

  const NEW_SYSTEM := System([], Idle, [], map[], {}, [], map[])

  const TOPIC := "sync.updated.v1"

  /** The dedupe key of an event on a topic. */
  function IdempotencyKey(topic: string, id: string): string
  {
    "idem:" + topic + ":" + id
  }

  lemma KeyInjective(topic: string, id: string, id': string)
    requires IdempotencyKey(topic, id) == IdempotencyKey(topic, id')
    ensures id == id'
  {
    var p := "idem:" + topic + ":";
    assert IdempotencyKey(topic, id)[|p|..] == id && IdempotencyKey(topic, id')[|p|..] == id';
  }

  function Pos(pos: map<nat, nat>, partition: nat): nat
  {
    if partition in pos then pos[partition] else 0
  }

  // ---- what each step does -----------------------------------------------------------------------

  /** Any answer of the fetch query: unpublished rows, oldest first, up to the limit. */
  ghost predicate IsFetch(rows: seq<Row>, limit: nat, batch: seq<nat>)
  {
    && |batch| <= limit
    && (forall k | 0 <= k < |batch| :: batch[k] < |rows| && !rows[batch[k]].published)
    && (forall i, j | 0 <= i < j < |batch| :: batch[i] != batch[j] && rows[batch[i]].at <= rows[batch[j]].at)
    && (forall u | 0 <= u < |rows| && !rows[u].published && u !in batch ::
          |batch| == limit && forall k | 0 <= k < |batch| :: rows[batch[k]].at <= rows[u].at)
  }

  function Marked(rows: seq<Row>, batch: seq<nat>): seq<Row>
  {
    seq(|rows|, i requires 0 <= i < |rows| => if i in batch then rows[i].(published := true) else rows[i])
  }

  /** A message written one or more times: the producer retries on an unclear answer. */
  function Written(log: seq<nat>, row: nat, copies: nat): seq<nat>
  {
    log + seq(copies, _ => row)
  }

  datatype Step =
    | Stage(row: Row)
    | Fetch(limit: nat, batch: seq<nat>)
    | Publish(copies: nat)
    | PublishThenFail(copies: nat)
    | Rollback
    | Commit
    | Consume(partition: nat, at: nat, now: int)
    | Rewind(partition: nat, to: nat)

  /** Row ids are fresh, and one room's rows carry increasing times and non-decreasing epochs. */
  ghost predicate Stageable(rows: seq<Row>, row: Row)
  {
    && row.id != "" && !row.published && row.room == row.event.roomId && row.room != ""
    && (forall i | 0 <= i < |rows| :: rows[i].id != row.id)
    && (forall i | 0 <= i < |rows| && rows[i].room == row.room ::
          rows[i].at < row.at && rows[i].event.epoch <= row.event.epoch)
  }

  ghost predicate Enabled(part: string -> nat, s: System, m: Step)
  {
    match m
    case Stage(row) => Stageable(s.rows, row)
    case Fetch(limit, batch) => s.relay.Idle? && IsFetch(s.rows, limit, batch)
    case Publish(copies) => s.relay.Draining? && s.relay.done < |s.relay.batch| && copies >= 1
    case PublishThenFail(copies) => s.relay.Draining? && s.relay.done < |s.relay.batch| && copies >= 1
    case Rollback => s.relay.Draining?
    case Commit => s.relay.Draining? && s.relay.done == |s.relay.batch|
    case Consume(partition, at, _) => IsNext(part, s, partition, at)
    case Rewind(partition, to) => to <= Pos(s.pos, partition)
  }

  /** The next unread message of a partition. */
  ghost predicate IsNext(part: string -> nat, s: System, partition: nat, at: nat)
  {
    && Pos(s.pos, partition) <= at < |s.log|
    && Holds(part, s.rows, s.log, partition, at)
    && forall q | Pos(s.pos, partition) <= q < at :: !Holds(part, s.rows, s.log, partition, q)
  }

  /** Messages are partitioned by key, the room id. */
  ghost predicate Holds(part: string -> nat, rows: seq<Row>, log: seq<nat>, partition: nat, q: nat)
  {
    q < |log| && log[q] < |rows| && part(rows[log[q]].room) == partition
  }

  /** The handler behind the dedupe: the first sighting of an id applies, later ones only commit. */
  function Consumed(s: System, at: nat, now: int): System
    requires at < |s.log| && s.log[at] < |s.rows|
  {
    var i := s.log[at];
    var row := s.rows[i];
    var key := KeyOf(row);
    if key in s.seen then s
    else
      var r := row.event.roomId;
      s.(seen := s.seen + {key}, applied := s.applied + [i],
         cache := s.cache[r := FromEvent(if r in s.cache then s.cache[r] else EMPTY_ROOM, row.event, now)])
  }

  ghost function Stepped(part: string -> nat, s: System, m: Step): System
    requires Enabled(part, s, m)
  {
    match m
    case Stage(row) => s.(rows := s.rows + [row])
    case Fetch(_, batch) => s.(relay := Draining(batch, 0))
    case Publish(copies) =>
      s.(log := Written(s.log, s.relay.batch[s.relay.done], copies), relay := s.relay.(done := s.relay.done + 1))
    case PublishThenFail(copies) => s.(log := Written(s.log, s.relay.batch[s.relay.done], copies), relay := Idle)
    case Rollback => s.(relay := Idle)
    case Commit => s.(rows := Marked(s.rows, s.relay.batch), relay := Idle)
    case Consume(partition, at, now) => Consumed(s, at, now).(pos := s.pos[partition := at + 1])
    case Rewind(partition, to) => s.(pos := s.pos[partition := to])
  }

  ghost predicate Runs(part: string -> nat, s: System, ms: seq<Step>)
    decreases |ms|
  {
    ms == [] || (Enabled(part, s, ms[0]) && Runs(part, Stepped(part, s, ms[0]), ms[1..]))
  }

  ghost function RunOf(part: string -> nat, s: System, ms: seq<Step>): System
    requires Runs(part, s, ms)
    decreases |ms|
  {
    if ms == [] then s else RunOf(part, Stepped(part, s, ms[0]), ms[1..])
  }

  lemma {:induction false} RunExtends(part: string -> nat, s: System, ms: seq<Step>, m: Step)
    requires Runs(part, s, ms) && Enabled(part, RunOf(part, s, ms), m)
    ensures Runs(part, s, ms + [m]) && RunOf(part, s, ms + [m]) == Stepped(part, RunOf(part, s, ms), m)
    decreases |ms|
  {
    if ms == [] {
      assert ms + [m] == [m] && [m][1..] == [];
    } else {
      assert (ms + [m])[1..] == ms[1..] + [m];
      RunExtends(part, Stepped(part, s, ms[0]), ms[1..], m);
    }
  }

  // ---- the invariant -----------------------------------------------------------------------------

  ghost predicate SameRoom(rows: seq<Row>, i: nat, j: nat)
  {
    i < |rows| && j < |rows| && rows[i].room == rows[j].room
  }

  ghost predicate RowsOk(rows: seq<Row>)
  {
    && (forall i | 0 <= i < |rows| :: rows[i].id != "" && rows[i].room == rows[i].event.roomId && rows[i].room != "")
    && (forall i, j | 0 <= i < j < |rows| :: rows[i].id != rows[j].id)
    && (forall i, j | 0 <= i < j < |rows| && SameRoom(rows, i, j) ::
          rows[i].at < rows[j].at && rows[i].event.epoch <= rows[j].event.epoch)
  }

  ghost predicate InRange(rows: seq<Row>, xs: seq<nat>)
  {
    forall k | 0 <= k < |xs| :: xs[k] < |rows|
  }

  /** Before any row comes, every earlier row of its room has come. */
  ghost predicate Closed(rows: seq<Row>, xs: seq<nat>)
  {
    forall p, j: nat | 0 <= p < |xs| && j < xs[p] && SameRoom(rows, j, xs[p]) :: j in xs[..p]
  }

  ghost predicate LogOk(s: System)
  {
    && InRange(s.rows, s.log) && Closed(s.rows, s.log)
    && forall i | 0 <= i < |s.rows| && s.rows[i].published :: i in s.log
  }

  /** What is left to publish respects room order on top of what is already committed. */
  ghost predicate BatchClosed(rows: seq<Row>, batch: seq<nat>)
  {
    forall k, j: nat | 0 <= k < |batch| && j < batch[k] && SameRoom(rows, j, batch[k]) ::
      rows[j].published || j in batch[..k]
  }

  ghost predicate RelayOk(s: System)
  {
    s.relay.Draining? ==>
      && s.relay.done <= |s.relay.batch|
      && InRange(s.rows, s.relay.batch) && BatchClosed(s.rows, s.relay.batch)
      && forall k | 0 <= k < s.relay.done :: s.relay.batch[k] in s.log
  }

  function KeyOf(row: Row): string
  {
    IdempotencyKey(TOPIC, row.id)
  }

  ghost predicate SeenOk(s: System)
  {
    s.seen == set i | i in s.applied && i < |s.rows| :: KeyOf(s.rows[i])
  }

  /** Everything a partition has been read past has been applied. */
  ghost predicate ReadOk(part: string -> nat, s: System)
  {
    && (forall partition :: Pos(s.pos, partition) <= |s.log|)
    && forall partition, q | 0 <= q < Pos(s.pos, partition) && Holds(part, s.rows, s.log, partition, q) ::
         s.log[q] in s.applied
  }

  ghost predicate AppliedOk(rows: seq<Row>, applied: seq<nat>)
  {
    && InRange(rows, applied) && Closed(rows, applied)
    && forall i, j | 0 <= i < j < |applied| :: applied[i] != applied[j]
  }

  ghost predicate Inv(part: string -> nat, s: System)
  {
    RowsOk(s.rows) && LogOk(s) && RelayOk(s) && SeenOk(s) && ReadOk(part, s) && AppliedOk(s.rows, s.applied)
  }

  // ---- staging and the relay ---------------------------------------------------------------------

  /** Growing the table changes nothing about the rows already there. */
  lemma ClosedUnderAppend(rows: seq<Row>, row: Row, xs: seq<nat>)
    requires InRange(rows, xs) && Closed(rows, xs)
    ensures InRange(rows + [row], xs) && Closed(rows + [row], xs)
  {
    var rows' := rows + [row];
    forall p, j: nat | 0 <= p < |xs| && j < xs[p] && SameRoom(rows', j, xs[p])
      ensures j in xs[..p]
    {
      assert xs[p] in xs && SameRoom(rows, j, xs[p]);
    }
  }

  lemma RelayUnderAppend(s: System, row: Row)
    requires RelayOk(s)
    ensures RelayOk(s.(rows := s.rows + [row]))
  {
    var rows' := s.rows + [row];
    if s.relay.Draining? {
      var batch := s.relay.batch;
      forall k, j: nat | 0 <= k < |batch| && j < batch[k] && SameRoom(rows', j, batch[k])
        ensures rows'[j].published || j in batch[..k]
      {
        assert batch[k] in batch && SameRoom(s.rows, j, batch[k]);
      }
    }
  }

  lemma ReadsUnderAppend(part: string -> nat, s: System, row: Row)
    requires ReadOk(part, s) && InRange(s.rows, s.log)
    ensures ReadOk(part, s.(rows := s.rows + [row]))
  {
    var t := s.(rows := s.rows + [row]);
    forall partition, q | 0 <= q < Pos(t.pos, partition) && Holds(part, t.rows, t.log, partition, q)
      ensures t.log[q] in t.applied
    {
      assert Pos(t.pos, partition) == Pos(s.pos, partition) <= |s.log|;
      assert s.log[q] in s.log && Holds(part, s.rows, s.log, partition, q);
    }
    assert forall partition :: Pos(t.pos, partition) == Pos(s.pos, partition);
  }

  lemma SeenUnderAppend(s: System, row: Row)
    requires SeenOk(s) && InRange(s.rows, s.applied)
    ensures SeenOk(s.(rows := s.rows + [row]))
  {
    var t := s.(rows := s.rows + [row]);
    assert forall i | i in s.applied :: i < |s.rows| && t.rows[i] == s.rows[i];
  }

  lemma RowsUnderAppend(rows: seq<Row>, row: Row)
    requires RowsOk(rows) && Stageable(rows, row)
    ensures RowsOk(rows + [row])
  {
    var rows' := rows + [row];
    forall i, j | 0 <= i < j < |rows'| && SameRoom(rows', i, j)
      ensures rows'[i].at < rows'[j].at && rows'[i].event.epoch <= rows'[j].event.epoch
    {
      if j < |rows| {
        assert SameRoom(rows, i, j);
      }
    }
  }

  lemma StageKeeps(part: string -> nat, s: System, row: Row)
    requires Inv(part, s) && Stageable(s.rows, row)
    ensures Inv(part, s.(rows := s.rows + [row]))
  {
    RowsUnderAppend(s.rows, row);
    ClosedUnderAppend(s.rows, row, s.log);
    ClosedUnderAppend(s.rows, row, s.applied);
    RelayUnderAppend(s, row);
    SeenUnderAppend(s, row);
    ReadsUnderAppend(part, s, row);
  }

  /** A fetch, being oldest first, never skips an earlier unpublished row of a room. */
  lemma FetchIsClosed(rows: seq<Row>, limit: nat, batch: seq<nat>)
    requires RowsOk(rows) && IsFetch(rows, limit, batch)
    ensures InRange(rows, batch) && BatchClosed(rows, batch)
  {
    forall k, j: nat | 0 <= k < |batch| && j < batch[k] && SameRoom(rows, j, batch[k])
      ensures rows[j].published || j in batch[..k]
    {
      assert rows[j].at < rows[batch[k]].at;
      if !rows[j].published {
        assert j in batch;
        var m :| 0 <= m < |batch| && batch[m] == j;
        assert m < k;
        assert batch[..k][m] == j;
      }
    }
  }

  /** Writing the next row of a closed batch keeps the log closed. */
  lemma WriteKeepsLog(s: System, copies: nat)
    requires RowsOk(s.rows) && LogOk(s) && RelayOk(s)
    requires s.relay.Draining? && s.relay.done < |s.relay.batch| && copies >= 1
    ensures var row := s.relay.batch[s.relay.done];
            && LogOk(s.(log := Written(s.log, row, copies)))
            && row in Written(s.log, row, copies)
  {
    var row := s.relay.batch[s.relay.done];
    var log' := Written(s.log, row, copies);
    assert row in s.relay.batch;
    assert log'[|s.log|] == row;
    forall p, j: nat | 0 <= p < |log'| && j < log'[p] && SameRoom(s.rows, j, log'[p])
      ensures j in log'[..p]
    {
      if p < |s.log| {
        assert log'[..p] == s.log[..p];
      } else {
        assert log'[p] == row;
        EarlierRowsLogged(s, j);
        assert s.log <= log'[..p];
      }
    }
    assert forall x | x in log' :: x in s.log || x == row;
    assert forall i | i in s.log :: i in log';
  }

  lemma EarlierRowsLogged(s: System, j: nat)
    requires LogOk(s) && RelayOk(s) && s.relay.Draining? && s.relay.done < |s.relay.batch|
    requires j < s.relay.batch[s.relay.done] && SameRoom(s.rows, j, s.relay.batch[s.relay.done])
    ensures j in s.log
  {
    var k := s.relay.done;
    if !s.rows[j].published {
      assert j in s.relay.batch[..k];
      var m :| 0 <= m < k && s.relay.batch[..k][m] == j;
      assert s.relay.batch[m] in s.log;
    }
  }

  lemma LogGrowthKeepsReads(part: string -> nat, s: System, t: System)
    requires ReadOk(part, s) && s.log <= t.log && t.rows == s.rows && t.pos == s.pos && t.applied == s.applied
    ensures ReadOk(part, t)
  {
    forall partition, q | 0 <= q < Pos(t.pos, partition) && Holds(part, t.rows, t.log, partition, q)
      ensures t.log[q] in t.applied
    {
      assert Pos(t.pos, partition) == Pos(s.pos, partition) <= |s.log|;
      assert Holds(part, s.rows, s.log, partition, q);
    }
    assert forall partition :: Pos(t.pos, partition) == Pos(s.pos, partition);
  }

  /** Two tables that differ at most in which rows are flagged published. */
  ghost predicate SameButFlags(rows: seq<Row>, rows': seq<Row>)
  {
    |rows| == |rows'| && forall i | 0 <= i < |rows| :: rows'[i] == rows[i].(published := rows'[i].published)
  }

  lemma FlagsDoNotMatter(rows: seq<Row>, rows': seq<Row>, xs: seq<nat>)
    requires SameButFlags(rows, rows') && InRange(rows, xs) && Closed(rows, xs)
    ensures InRange(rows', xs) && Closed(rows', xs)
  {
    forall p, j: nat | 0 <= p < |xs| && j < xs[p] && SameRoom(rows', j, xs[p])
      ensures j in xs[..p]
    {
      assert xs[p] in xs && SameRoom(rows, j, xs[p]);
    }
  }

  lemma RowsUnderFlags(rows: seq<Row>, rows': seq<Row>)
    requires SameButFlags(rows, rows') && RowsOk(rows)
    ensures RowsOk(rows')
  {
    forall i, j | 0 <= i < j < |rows'| && SameRoom(rows', i, j)
      ensures rows'[i].at < rows'[j].at && rows'[i].event.epoch <= rows'[j].event.epoch
    {
      assert SameRoom(rows, i, j);
    }
  }

  lemma CommitKeeps(part: string -> nat, s: System)
    requires Inv(part, s) && Enabled(part, s, Commit)
    ensures Inv(part, Stepped(part, s, Commit))
  {
    var t := Stepped(part, s, Commit);
    assert SameButFlags(s.rows, t.rows);
    assert RowsOk(t.rows) by { RowsUnderFlags(s.rows, t.rows); }
    assert LogOk(t) by {
      FlagsDoNotMatter(s.rows, t.rows, s.log);
      CommitFlagsLogged(s, t);
    }
    assert AppliedOk(t.rows, t.applied) by { FlagsDoNotMatter(s.rows, t.rows, s.applied); }
    assert SeenOk(t) by { SeenUnderFlags(s, t); }
    assert ReadOk(part, t) by { ReadsUnderFlags(part, s, t); }
  }

  lemma CommitFlagsLogged(s: System, t: System)
    requires LogOk(s) && RelayOk(s) && s.relay.Draining? && s.relay.done == |s.relay.batch|
    requires t.rows == Marked(s.rows, s.relay.batch) && t.log == s.log
    ensures forall i | 0 <= i < |t.rows| && t.rows[i].published :: i in t.log
  {
    forall i | 0 <= i < |t.rows| && t.rows[i].published
      ensures i in t.log
    {
      if i in s.relay.batch {
        var k :| 0 <= k < |s.relay.batch| && s.relay.batch[k] == i;
        assert s.relay.batch[k] in s.log;
      }
    }
  }

  lemma SeenUnderFlags(s: System, t: System)
    requires SeenOk(s) && InRange(s.rows, s.applied) && SameButFlags(s.rows, t.rows)
    requires t.applied == s.applied && t.seen == s.seen
    ensures SeenOk(t)
  {
    assert forall i | i in s.applied :: i < |s.rows| && KeyOf(t.rows[i]) == KeyOf(s.rows[i]);
  }

  lemma ReadsUnderFlags(part: string -> nat, s: System, t: System)
    requires ReadOk(part, s) && SameButFlags(s.rows, t.rows)
    requires t.log == s.log && t.pos == s.pos && t.applied == s.applied
    ensures ReadOk(part, t)
  {
    assert forall partition :: Pos(t.pos, partition) == Pos(s.pos, partition);
    assert forall partition, q | Holds(part, t.rows, t.log, partition, q) :: Holds(part, s.rows, s.log, partition, q);
  }

  // ---- the consumer ------------------------------------------------------------------------------

  lemma SeenIffApplied(s: System, i: nat)
    requires RowsOk(s.rows) && SeenOk(s) && InRange(s.rows, s.applied) && i < |s.rows|
    ensures KeyOf(s.rows[i]) in s.seen <==> i in s.applied
  {
    if KeyOf(s.rows[i]) in s.seen {
      var j :| j in s.applied && j < |s.rows| && KeyOf(s.rows[j]) == KeyOf(s.rows[i]);
      KeyInjective(TOPIC, s.rows[j].id, s.rows[i].id);
    }
  }

  /** Reading a partition in order, everything its next message builds on has been applied. */
  lemma EarlierRowsApplied(part: string -> nat, s: System, partition: nat, at: nat, j: nat)
    requires LogOk(s) && ReadOk(part, s) && IsNext(part, s, partition, at)
    requires j < s.log[at] && SameRoom(s.rows, j, s.log[at])
    ensures j in s.applied
  {
    assert j in s.log[..at];
    var q :| 0 <= q < at && s.log[..at][q] == j;
    assert s.log[q] == j && Holds(part, s.rows, s.log, partition, q);
  }

  lemma ApplyKeeps(part: string -> nat, s: System, partition: nat, at: nat)
    requires LogOk(s) && ReadOk(part, s) && AppliedOk(s.rows, s.applied)
    requires IsNext(part, s, partition, at) && s.log[at] !in s.applied
    ensures AppliedOk(s.rows, s.applied + [s.log[at]])
  {
    var i := s.log[at];
    var applied' := s.applied + [i];
    forall p, j: nat | 0 <= p < |applied'| && j < applied'[p] && SameRoom(s.rows, j, applied'[p])
      ensures j in applied'[..p]
    {
      if p < |s.applied| {
        assert applied'[..p] == s.applied[..p];
      } else {
        EarlierRowsApplied(part, s, partition, at, j);
        assert applied'[..p] == s.applied;
      }
    }
  }

  lemma ConsumedSeen(s: System, at: nat, now: int)
    requires RowsOk(s.rows) && InRange(s.rows, s.log) && SeenOk(s) && InRange(s.rows, s.applied) && at < |s.log|
    ensures s.log[at] in s.log
    ensures var t := Consumed(s, at, now);
            && SeenOk(t)
            && t.applied == (if s.log[at] in s.applied then s.applied else s.applied + [s.log[at]])
  {
    var i := s.log[at];
    assert i in s.log;
    SeenIffApplied(s, i);
    if i !in s.applied {
      var t := Consumed(s, at, now);
      assert forall x | x in t.applied :: x in s.applied || x == i;
      assert forall x | x in s.applied :: x in t.applied;
      assert i in t.applied;
    }
  }

  lemma ConsumedReads(part: string -> nat, s: System, t: System, partition: nat, at: nat)
    requires ReadOk(part, s) && at < |s.log| && s.log[at] in t.applied && forall x | x in s.applied :: x in t.applied
    requires forall q | Pos(s.pos, partition) <= q < at :: !Holds(part, s.rows, s.log, partition, q)
    requires t.rows == s.rows && t.log == s.log && t.pos == s.pos[partition := at + 1]
    ensures ReadOk(part, t)
  {
    assert forall p :: Pos(t.pos, p) == if p == partition then at + 1 else Pos(s.pos, p);
  }

  lemma ConsumeKeeps(part: string -> nat, s: System, partition: nat, at: nat, now: int)
    requires Inv(part, s) && IsNext(part, s, partition, at)
    ensures Inv(part, Stepped(part, s, Consume(partition, at, now)))
  {
    var t := Stepped(part, s, Consume(partition, at, now));
    var i := s.log[at];
    assert t.rows == s.rows && t.log == s.log && t.relay == s.relay;
    assert SeenOk(t) && t.applied == if i in s.applied then s.applied else s.applied + [i] by {
      ConsumedSeen(s, at, now);
    }
    assert AppliedOk(t.rows, t.applied) by {
      if i !in s.applied {
        ApplyKeeps(part, s, partition, at);
      }
    }
    assert ReadOk(part, t) by { ConsumedReads(part, s, t, partition, at); }
  }

  // ---- every run ---------------------------------------------------------------------------------

  lemma PublishKeeps(part: string -> nat, s: System, copies: nat, relay: Relay)
    requires Inv(part, s) && s.relay.Draining? && s.relay.done < |s.relay.batch| && copies >= 1
    requires relay == Idle || relay == s.relay.(done := s.relay.done + 1)
    ensures var t := s.(log := Written(s.log, s.relay.batch[s.relay.done], copies), relay := relay); Inv(part, t)
  {
    var t := s.(log := Written(s.log, s.relay.batch[s.relay.done], copies), relay := relay);
    assert LogOk(t) && s.relay.batch[s.relay.done] in t.log by { WriteKeepsLog(s, copies); }
    assert ReadOk(part, t) by { LogGrowthKeepsReads(part, s, t); }
  }

  lemma StepKeepsInv(part: string -> nat, s: System, m: Step)
    requires Inv(part, s) && Enabled(part, s, m)
    ensures Inv(part, Stepped(part, s, m))
  {
    match m {
      case Stage(row) => StageKeeps(part, s, row);
      case Fetch(limit, batch) => FetchIsClosed(s.rows, limit, batch);
      case Publish(copies) => PublishKeeps(part, s, copies, s.relay.(done := s.relay.done + 1));
      case PublishThenFail(copies) => PublishKeeps(part, s, copies, Idle);
      case Commit => CommitKeeps(part, s);
      case Consume(partition, at, now) => ConsumeKeeps(part, s, partition, at, now);
      case Rewind(partition, to) => RewindKeeps(part, s, partition, to);
      case Rollback =>
    }
  }

  lemma RewindKeeps(part: string -> nat, s: System, partition: nat, to: nat)
    requires ReadOk(part, s) && to <= Pos(s.pos, partition)
    ensures ReadOk(part, s.(pos := s.pos[partition := to]))
  {
    var t := s.(pos := s.pos[partition := to]);
    assert forall p :: Pos(t.pos, p) <= Pos(s.pos, p);
    assert forall p, q | Holds(part, t.rows, t.log, p, q) :: Holds(part, s.rows, s.log, p, q);
  }

  lemma {:induction false} RunKeepsInv(part: string -> nat, s: System, ms: seq<Step>)
    requires Inv(part, s) && Runs(part, s, ms)
    ensures Inv(part, RunOf(part, s, ms))
    decreases |ms|
  {
    if ms != [] {
      StepKeepsInv(part, s, ms[0]);
      RunKeepsInv(part, Stepped(part, s, ms[0]), ms[1..]);
    }
  }
}
