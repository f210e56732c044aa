/**
 The outbox relay and the deduplicating consumer as the code runs them, each tied to the steps of the
 pipeline: one drain is a run of steps, whatever fails and wherever.
 */
module Relays {
  import opened Playback
  import opened Pipeline

  /** What became of one publish-and-mark: nothing written, written but reported failed, or done. */
  datatype Fate = Lost | WrittenThenError(copies: nat) | Done(copies: nat)

  /** The index of an oldest unpublished row not yet taken. */
  lemma OldestExists(rows: seq<Row>, open: set<nat>) returns (u: nat)
    requires open != {} && forall i: nat | i in open :: i < |rows|
    ensures u in open && forall v: nat | v in open :: rows[u].at <= rows[v].at
    decreases |open|
  {
    var x :| x in open;
    if open == {x} {
      u := x;
    } else {
      assert open - {x} != {};
      var y := OldestExists(rows, open - {x});
      u := if rows[x].at <= rows[y].at then x else y;
    }
  }

  /** A fetch under way: what was taken, oldest first, and the unpublished rows still open. */
  ghost predicate Fetching(rows: seq<Row>, batch: seq<nat>, open: set<nat>)
  {
    && (forall u: nat :: u in open <==> u < |rows| && !rows[u].published && u !in batch)
    && (forall k | 0 <= k < |batch| :: batch[k] < |rows| && !rows[batch[k]].published)
    && (forall i, j | 0 <= i < j < |batch| :: batch[i] != batch[j] && rows[batch[i]].at <= rows[batch[j]].at)
    && (forall u: nat, k | u in open && 0 <= k < |batch| :: rows[batch[k]].at <= rows[u].at)
  }

  lemma FetchOne(rows: seq<Row>, batch: seq<nat>, open: set<nat>, u: nat)
    requires Fetching(rows, batch, open) && u in open && forall v: nat | v in open :: rows[u].at <= rows[v].at
    ensures Fetching(rows, batch + [u], open - {u})
  {
    var batch' := batch + [u];
    assert forall v: nat :: v in batch' <==> v in batch || v == u;
  }

  lemma MarkOne(rows: seq<Row>, batch: seq<nat>, k: nat)
    requires k < |batch| && batch[k] < |rows|
    ensures var tx := Marked(rows, batch[..k]);
            Marked(rows, batch[..k + 1]) == tx[batch[k] := tx[batch[k]].(published := true)]
  {
    assert batch[..k + 1] == batch[..k] + [batch[k]];
  }

  /** Publishing row k of a batch, reported done or failed, is one more step of the run. */
  lemma PublishRuns(part: string -> nat, s: System, steps: seq<Step>, batch: seq<nat>, k: nat, topic: seq<nat>,
                    copies: nat, m: Step)
    requires Runs(part, s, steps) && RunOf(part, s, steps) == s.(relay := Draining(batch, k), log := topic)
    requires k < |batch| && copies >= 1 && (m == Publish(copies) || m == PublishThenFail(copies))
    ensures Runs(part, s, steps + [m])
    ensures RunOf(part, s, steps + [m])
         == s.(relay := if m.Publish? then Draining(batch, k + 1) else Idle, log := Written(topic, batch[k], copies))
  {
    var now := s.(relay := Draining(batch, k), log := topic);
    var relay := if m.Publish? then Draining(batch, k + 1) else Idle;
    assert Enabled(part, now, m);
    assert Stepped(part, now, m) == s.(relay := relay, log := Written(topic, batch[k], copies));
    RunExtends(part, s, steps, m);
  }

  class Relay {
    var rows: seq<Row>
    var topic: seq<nat>

    /** The table and the topic, in a system whose relay is idle. */
    ghost predicate Matches(s: System)
      reads this
    {
      s.rows == rows && s.log == topic && s.relay == Idle
    }

    /** On a row the outbox may take, this is the staging step. */
    method Append(row: Row, ghost part: string -> nat, ghost s: System)
      modifies this`rows
      ensures rows == old(rows) + [row.(published := false)]
      ensures old(Matches(s)) && Stageable(old(rows), row) ==>
                Enabled(part, s, Stage(row)) && Matches(Stepped(part, s, Stage(row)))
    {
      rows := rows + [row.(published := false)];
    }

    /** Unpublished rows, oldest first, up to the limit. */
    method FetchUnpublished(limit: nat) returns (batch: seq<nat>)
      ensures IsFetch(rows, limit, batch)
    {
      batch := [];
      var open: set<nat> := set i: nat | i < |rows| && !rows[i].published;
      while |batch| < limit && open != {}
        invariant |batch| <= limit && Fetching(rows, batch, open)
        decreases |open|
      {
        ghost var oldest := OldestExists(rows, open);
        var u :| u in open && forall v: nat | v in open :: rows[u].at <= rows[v].at;
        FetchOne(rows, batch, open, u);
        batch := batch + [u];
        open := open - {u};
      }
    }

    /**
     One drain: fetch, publish and mark each row inside a transaction, commit. Any failure returns
     early and rolls the marks back; what reached the topic stays there. However it ends, it was a run
     of pipeline steps, and only a committed drain reports rows published.
     */
    method DrainOnce(limit: nat, fates: seq<Fate>, commits: bool, ghost part: string -> nat, ghost s: System)
      returns (published: nat, ghost steps: seq<Step>)
      requires Matches(s) && |fates| == limit && forall f | f in fates :: f.Lost? || f.copies >= 1
      modifies this
      ensures Runs(part, s, steps) && RunOf(part, s, steps) == s.(rows := rows, log := topic)
      ensures published == 0 ==> rows == old(rows)
      ensures published > 0 ==>
                exists batch ::
                  IsFetch(old(rows), limit, batch) && |batch| == published && rows == Marked(old(rows), batch)
    {
      var batch := FetchUnpublished(limit);
      steps := [Fetch(limit, batch)];
      RunExtends(part, s, [], steps[0]);
      assert [] + steps == steps;
      ghost var started := s.(relay := Draining(batch, 0));
      if |batch| == 0 {
        steps := Abandon(part, s, steps, started);
        return 0, steps;
      }
      var tx, ok;
      tx, ok, steps := PublishBatch(batch, fates, part, s, steps);
      if !ok {
        return 0, steps;
      }
      if !commits {
        steps := Abandon(part, s, steps, s.(relay := Draining(batch, |batch|), log := topic));
        return 0, steps;
      }
      RunExtends(part, s, steps, Commit);
      steps := steps + [Commit];
      rows := tx;
      return |batch|, steps;
    }

    /** The loop of a drain: the rows as the transaction would mark them, or the first failure. */
    method PublishBatch(batch: seq<nat>, fates: seq<Fate>, ghost part: string -> nat, ghost s: System,
                        ghost before: seq<Step>)
      returns (tx: seq<Row>, ok: bool, ghost steps: seq<Step>)
      requires Matches(s) && |batch| <= |fates| && forall f | f in fates :: f.Lost? || f.copies >= 1
      requires forall k | 0 <= k < |batch| :: batch[k] < |rows|
      requires Runs(part, s, before) && RunOf(part, s, before) == s.(relay := Draining(batch, 0))
      modifies this`topic
      ensures Runs(part, s, steps)
      ensures RunOf(part, s, steps) == s.(relay := if ok then Draining(batch, |batch|) else Idle, log := topic)
      ensures ok ==> tx == Marked(rows, batch)
    {
      tx, ok, steps := rows, true, before;
      assert tx == Marked(rows, batch[..0]);
      for k := 0 to |batch|
        invariant ok && tx == Marked(rows, batch[..k])
        invariant Runs(part, s, steps) && RunOf(part, s, steps) == s.(relay := Draining(batch, k), log := topic)
      {
        assert fates[k] in fates;
        match fates[k] {
          case Lost =>
            steps := Abandon(part, s, steps, s.(relay := Draining(batch, k), log := topic));
            return tx, false, steps;
          case WrittenThenError(copies) =>
            PublishRuns(part, s, steps, batch, k, topic, copies, PublishThenFail(copies));
            topic := Written(topic, batch[k], copies);
            steps := steps + [PublishThenFail(copies)];
            return tx, false, steps;
          case Done(copies) =>
            PublishRuns(part, s, steps, batch, k, topic, copies, Publish(copies));
            topic := Written(topic, batch[k], copies);
            steps := steps + [Publish(copies)];
            MarkOne(rows, batch, k);
            tx := tx[batch[k] := tx[batch[k]].(published := true)];
        }
      }
      assert batch[..|batch|] == batch;
    }

    /** The deferred rollback. */
    static ghost method Abandon(part: string -> nat, s: System, steps: seq<Step>, now: System)
      returns (steps': seq<Step>)
      requires Runs(part, s, steps) && RunOf(part, s, steps) == now && now.relay.Draining?
      ensures Runs(part, s, steps') && RunOf(part, s, steps') == now.(relay := Idle)
    {
      RunExtends(part, s, steps, Rollback);
      steps' := steps + [Rollback];
    }
  }

  // ---- the consumer ------------------------------------------------------------------------------

  /** The idempotency middleware in front of the handler that updates the room cache. */
  class Consumer {
    var seen: set<string>
    const cache: RoomCache

    constructor ()
      ensures seen == {} && fresh(cache) && cache.rooms == map[]
    {
      seen := {};
      cache := new RoomCache();
    }

    /** An event without a room id is skipped; any other overwrites its room's replica. Never an error. */
    method Handle(event: SyncUpdated, now: int)
      modifies cache
      ensures var r := event.roomId;
              cache.rooms ==
              if r == "" then old(cache.rooms) else old(cache.rooms)[r := FromEvent(old(cache.Cached(r)), event, now)]
    {
      if event.roomId == "" {
        return;
      }
      cache.ApplyFromEvent(event, now);
    }

    /** An event is known by its id header, or failing that by the message key. Fails open: with neither, or the
        key-value store down, the handler runs without deduplication. */
    method HandleOnce(topic: string, header: string, key: string, event: SyncUpdated, kvUp: bool, now: int)
      returns (handled: bool)
      modifies this, cache
      ensures var id := if header != "" then header else key;
              var k := IdempotencyKey(topic, id);
              && handled == (id == "" || !kvUp || k !in old(seen))
              && seen == (if id != "" && kvUp then old(seen) + {k} else old(seen))
              && (var r := event.roomId;
                  cache.rooms ==
                  if !handled || r == "" then old(cache.rooms)
                  else old(cache.rooms)[r := FromEvent(old(cache.Cached(r)), event, now)])
    {
      var id := header;
      if id == "" {
        id := key;
      }
      if id == "" {
        Handle(event, now);
        return true;
      }
      var k := IdempotencyKey(topic, id);
      if !kvUp {
        Handle(event, now);
        return true;
      }
      if k in seen {
        return false;
      }
      seen := seen + {k};
      Handle(event, now);
      return true;
    }

    /** On the pipeline's own messages, this is the consume step. */
    method HandleRow(s: System, at: nat, now: int)
      requires at < |s.log| && s.log[at] < |s.rows|
      requires var row := s.rows[s.log[at]]; row.id != "" && row.event.roomId != ""
      requires s.seen == seen && s.cache == cache.rooms
      modifies this, cache
      ensures seen == Consumed(s, at, now).seen && cache.rooms == Consumed(s, at, now).cache
    {
      var row := s.rows[s.log[at]];
      var handled := HandleOnce(TOPIC, row.id, row.room, row.event, true, now);
    }
  }
}
