/**
 RoomSync, the object that owns one room: methods that change its fields in place under the room's
 mutex, each tied to the event of the state machine it carries out. Clock readings are parameters;
 the order in which a map is walked is whatever the loop happens to pick.
 */
module RoomSyncs {
  import opened SyncStates
  import opened Heartbeats
  import opened Statistics
  import opened Controllers
  import opened RoomServer

  type Channels = map<nat, seq<Frame>>

  /** Every channel was offered the same frames, in order. */
  ghost predicate Delivered(before: Channels, after: Channels, fs: seq<Frame>)
  {
    && after.Keys == before.Keys
    && forall k | k in before :: after[k] == OfferAll(before[k], fs)
  }

  /** The frames a method broadcast are the ones every channel was offered. */
  ghost predicate Streamed(sent: seq<Frame>, before: Channels, sent': seq<Frame>, after: Channels)
  {
    sent <= sent' && Delivered(before, after, sent'[|sent|..])
  }

  lemma StreamedNone(sent: seq<Frame>, before: Channels)
    ensures Streamed(sent, before, sent, before)
  {
    assert sent[|sent|..] == [];
  }

  lemma StreamedOne(sent: seq<Frame>, before: Channels, f: Frame, after: Channels)
    requires after.Keys == before.Keys && forall k | k in before :: after[k] == Offer(before[k], f)
    ensures Streamed(sent, before, sent + [f], after)
  {
    assert (sent + [f])[|sent|..] == [f];
    assert [f][..0] == [];
  }

  lemma StreamedChains(sent: seq<Frame>, before: Channels, mid: seq<Frame>, between: Channels, sent': seq<Frame>,
                       after: Channels)
    requires Streamed(sent, before, mid, between) && Streamed(mid, between, sent', after)
    ensures Streamed(sent, before, sent', after)
  {
    assert sent'[|sent|..] == mid[|sent|..] + sent'[|mid|..];
    forall k | k in before
      ensures after[k] == OfferAll(before[k], sent'[|sent|..])
    {
      OfferAllAppends(before[k], mid[|sent|..], sent'[|mid|..]);
    }
  }

  class RoomSync {
    const cfg: Config
    const controller: DriftController
    var state: SyncState
    var beats: map<string, Beat>
    var ring: seq<Entry>
    var subscribers: map<nat, seq<Frame>>
    ghost var sent: seq<Frame>
    ghost var hist: map<nat, Wire>

    ghost predicate Valid()
      reads this
    {
      controller.gains == cfg.gains && "" !in beats
    }

    /** The room as a value of the state machine. */
    ghost function View(): Server
      reads this, controller
    {
      Server(state, beats, controller.integral, ring, sent, hist)
    }

    constructor (cfg: Config, initial: SyncState)
      ensures Valid() && fresh(controller)
      ensures this.cfg == cfg && View() == Started(initial) && subscribers == map[]
    {
      this.cfg := cfg;
      controller := new DriftController(cfg.gains);
      state, beats, ring, subscribers := initial, map[], [], map[];
      sent, hist := [], map[initial.epoch := ToWire(initial)];
    }

    // ---- broadcasting --------------------------------------------------------------------------

    method BroadcastLocked(frame: Frame)
      modifies this`subscribers, this`sent
      ensures sent == old(sent) + [frame]
      ensures Streamed(old(sent), old(subscribers), sent, subscribers)
    {
      var was := subscribers;
      var rest := subscribers.Keys;
      while rest != {}
        invariant rest <= was.Keys && subscribers.Keys == was.Keys && sent == old(sent)
        invariant forall k | k in was :: subscribers[k] == if k in rest then was[k] else Offer(was[k], frame)
        decreases |rest|
      {
        var ch :| ch in rest;
        if |subscribers[ch]| < CHANNEL_CAPACITY {
          subscribers := subscribers[ch := subscribers[ch] + [frame]];
        }
        rest := rest - {ch};
      }
      StreamedOne(sent, was, frame, subscribers);
      sent := sent + [frame];
    }

    method AddToRingLocked(frame: Frame)
      modifies this`ring
      ensures ring == AddedToRing(cfg, old(View()), frame)
    {
      var size := if cfg.ringBufferSize <= 0 then 32 else cfg.ringBufferSize;
      ring := ring + [Entry(state.epoch, frame)];
      if |ring| > size {
        ring := ring[|ring| - size..];
      }
    }

    method BroadcastUpdateLocked()
      modifies this`ring, this`subscribers, this`sent
      ensures View() == Announced(cfg, old(View()), Update(ToWire(state)))
      ensures Streamed(old(sent), old(subscribers), sent, subscribers)
    {
      var frame := Update(ToWire(state));
      AddToRingLocked(frame);
      BroadcastLocked(frame);
    }

    method BroadcastSnapshot(now: int) returns (ghost order: seq<string>)
      requires Valid()
      modifies this`ring, this`subscribers, this`sent
      ensures Valid() && Enabled(cfg, old(View()), PublishSnapshot(order, now))
      ensures View() == Step(cfg, old(View()), PublishSnapshot(order, now))
      ensures Streamed(old(sent), old(subscribers), sent, subscribers)
    {
      var stats;
      stats, order := BuildStats(beats, now, HostTimeout(cfg));
      var frame := Snapshot(ToWire(state), stats);
      AddToRingLocked(frame);
      BroadcastLocked(frame);
    }

    // ---- host election -------------------------------------------------------------------------

    method SelectSuccessorLocked(now: int, excludeId: string) returns (successor: string)
      requires Valid()
      ensures IsSelection(cfg, beats, excludeId, successor, now)
    {
      successor := "";
      var bestTime := now;
      var rest := beats.Keys;
      while rest != {}
        invariant rest <= beats.Keys
        invariant successor != "" ==> Eligible(cfg, beats, excludeId, successor, now)
        invariant bestTime == if successor == "" then now else beats[successor].lastSeen
        invariant forall u | u in beats.Keys - rest && Eligible(cfg, beats, excludeId, u, now) ::
                    successor != "" && bestTime <= beats[u].lastSeen
        decreases |rest|
      {
        var userId :| userId in rest;
        rest := rest - {userId};
        if userId != excludeId {
          var h := beats[userId];
          if IsAlive(h, now, HostTimeout(cfg)) && h.lastSeen < bestTime {
            bestTime := h.lastSeen;
            successor := userId;
          }
        }
      }
    }

    method PreferredSuccessorLocked(now: int, excludeId: string) returns (successor: string, ghost pick: string)
      requires Valid()
      ensures IsSelection(cfg, beats, excludeId, pick, now)
      ensures successor == Preferred(cfg, View(), excludeId, pick, now)
    {
      if state.ownerId != "" && state.ownerId != excludeId {
        if state.ownerId in beats && IsAlive(beats[state.ownerId], now, HostTimeout(cfg)) {
          pick := SelectionExists(cfg, beats, excludeId, now);
          return state.ownerId, pick;
        }
      }
      successor := SelectSuccessorLocked(now, excludeId);
      pick := successor;
    }

    method MigrateHostLocked(successor: string, now: int)
      modifies this`state, this`subscribers, this`sent, this`hist
      ensures View() == Migrated(old(View()), successor, now)
      ensures Streamed(old(sent), old(subscribers), sent, subscribers)
    {
      var prevHost := state.hostId;
      state := state.(hostId := successor);
      state := state.(epoch := state.epoch + 1);
      state := state.(token := state.token + 1);
      state := state.(epochStarted := now);
      hist := hist[state.epoch := ToWire(state)];
      BroadcastLocked(HostMigration(prevHost, successor, state.epoch, state.token));
    }

    /** No successor: a playing room is paused where its sample stands. */
    method PauseOrphanedLocked()
      requires Valid()
      modifies this
      ensures Valid() && View() == Orphaned(cfg, old(View()))
      ensures Streamed(old(sent), old(subscribers), sent, subscribers)
    {
      StreamedNone(sent, subscribers);
      if state.status == Playing {
        state := state.(status := Paused);
        state := state.(rate := 0.0);
        state := state.(epoch := state.epoch + 1);
        hist := hist[state.epoch := ToWire(state)];
        BroadcastUpdateLocked();
      }
    }

    method CheckHostMigrationLocked(now: int) returns (ghost pick: string)
      requires Valid()
      modifies this
      ensures Valid() && IsSelection(cfg, old(beats), old(state.hostId), pick, now)
      ensures View() == HostChecked(cfg, old(View()), now, pick)
      ensures Streamed(old(sent), old(subscribers), sent, subscribers)
    {
      StreamedNone(sent, subscribers);
      if state.ownerId != "" && state.hostId != state.ownerId {
        if state.ownerId in beats && IsAlive(beats[state.ownerId], now, HostTimeout(cfg)) {
          pick := SelectionExists(cfg, beats, state.hostId, now);
          MigrateHostLocked(state.ownerId, now);
          return;
        }
      }
      var successor;
      if state.hostId == "" {
        successor, pick := PreferredSuccessorLocked(now, "");
        if successor == "" {
          return;
        }
        MigrateHostLocked(successor, now);
        return;
      }
      if state.hostId in beats && IsAlive(beats[state.hostId], now, HostTimeout(cfg)) {
        pick := SelectionExists(cfg, beats, state.hostId, now);
        return;
      }
      successor, pick := PreferredSuccessorLocked(now, state.hostId);
      if successor == "" {
        PauseOrphanedLocked();
        return;
      }
      MigrateHostLocked(successor, now);
    }

    // ---- the periodic tick ---------------------------------------------------------------------

    method CountActive(now: int) returns (active: nat)
      ensures active == |LivePeers(cfg, beats, now)|
    {
      active := 0;
      var rest := beats.Keys;
      ghost var counted: set<string> := {};
      while rest != {}
        invariant rest <= beats.Keys && active == |counted|
        invariant counted == set u | u in beats.Keys - rest && Live(cfg, beats, u, now)
        decreases |rest|
      {
        var u :| u in rest;
        rest := rest - {u};
        if IsAlive(beats[u], now, HostTimeout(cfg)) {
          active := active + 1;
          counted := counted + {u};
        }
      }
      assert counted == LivePeers(cfg, beats, now);
    }

    /** The owner's (else the host's) drift and delay, when that peer is present and measured. */
    method ReferenceMeasurements(now: int) returns (drifts: seq<real>, rtts: seq<real>)
      ensures drifts == if Measured(cfg, View(), now) then [beats[Reference(View())].drift] else []
      ensures rtts == if Measured(cfg, View(), now) then [beats[Reference(View())].rtt] else []
    {
      drifts, rtts := [], [];
      var refId := state.ownerId;
      if refId == "" {
        refId := state.hostId;
      }
      if refId != "" {
        if refId in beats && IsAlive(beats[refId], now, HostTimeout(cfg)) && beats[refId].rtt > 0.0 {
          drifts := drifts + [beats[refId].drift];
          rtts := rtts + [beats[refId].rtt];
        }
      }
    }

    method NudgeLocked(correctionMs: real, nowMs: int)
      requires Valid()
      modifies this
      ensures Valid() && View() == Raised(cfg, old(View()), Nudged(old(state), correctionMs, nowMs))
      ensures Streamed(old(sent), old(subscribers), sent, subscribers)
    {
      state := state.(mediaTimeMs := state.mediaTimeMs - Trunc(correctionMs));
      state := state.(wallTimeMs := nowMs);
      state := state.(epoch := state.epoch + 1);
      hist := hist[state.epoch := ToWire(state)];
      BroadcastUpdateLocked();
    }

    /** The drift stage of a tick; `stop` when a discontinuity ended the tick. */
    method CorrectDriftLocked(now: int, nowMs: int) returns (stop: bool)
      requires Valid() && cfg.driftCorrection
      modifies this, controller
      ensures Valid() && View() == DriftCorrected(cfg, old(View()), now, nowMs)
      ensures stop == Forced(cfg, old(View()), now)
      ensures Streamed(old(sent), old(subscribers), sent, subscribers)
    {
      StreamedNone(sent, subscribers);
      var activeCount := CountActive(now);
      var drifts, rtts := ReferenceMeasurements(now);
      var confidence := ComputeConfidence(activeCount, rtts);
      var medianDrift := MedianFloats(drifts);
      var result := controller.Correct(medianDrift, HeartbeatSec(cfg), activeCount, confidence);
      assert Corrected(result, controller.integral) == DriftCycle(cfg, old(View()), now);
      if result.forceSnapshot {
        controller.Reset();
        assert View() == old(View()).(integral := 0.0);
        BroadcastUpdateLocked();
        return true;
      }
      if result.correctionMs != 0.0 && state.status == Playing {
        NudgeLocked(result.correctionMs, nowMs);
      }
      return false;
    }

    method TickLocked(now: int, nowMs: int) returns (ghost pick: string)
      requires Valid()
      modifies this, controller
      ensures Valid() && Enabled(cfg, old(View()), Tick(now, nowMs, pick))
      ensures View() == Step(cfg, old(View()), Tick(now, nowMs, pick))
      ensures Streamed(old(sent), old(subscribers), sent, subscribers)
    {
      StreamedNone(sent, subscribers);
      if cfg.driftCorrection {
        var stop := CorrectDriftLocked(now, nowMs);
        if stop {
          pick := SelectionExists(cfg, beats, state.hostId, now);
          return;
        }
      }
      ghost var mid, between := sent, subscribers;
      pick := CheckHostMigrationLocked(now);
      StreamedChains(old(sent), old(subscribers), mid, between, sent, subscribers);
    }

    // ---- commands and owner adoption -----------------------------------------------------------

    /** The domain command: re-sample the clock, switch on the kind, open a new epoch. */
    method ApplyCommand(c: Command, nowMs: int, now: int)
      modifies this`state, this`hist
      ensures View() == Entered(old(View()), Commanded(old(state), c, nowMs, now))
    {
      if state.status == Playing {
        state := state.(mediaTimeMs := AdvanceMediaTime(state, nowMs));
      }
      state := state.(wallTimeMs := nowMs);
      ghost var r := state;
      assert r == Resampled(old(state), nowMs);
      match c {
        case Play =>
          state := state.(status := Playing);
          if state.rate == 0.0 {
            state := state.(rate := 1.0);
          }
        case Pause =>
          state := state.(status := Paused, rate := 0.0);
        case Seek(to) =>
          if to.Some? {
            state := state.(mediaTimeMs := to.value);
          }
        case SetRate(rate) =>
          if rate.Some? && rate.value >= 0.25 && rate.value <= 4.0 {
            state := state.(rate := rate.value);
            if rate.value > 0.0 {
              state := state.(status := Playing);
            }
          }
        case LoadMedia(media) =>
          state := state.(mediaId := media, mediaTimeMs := 0, status := Paused, rate := 0.0);
        case Next | Previous | Unknown =>
      }
      state := state.(epoch := state.epoch + 1);
      state := state.(epochStarted := now);
      assert state == Commanded(old(state), c, nowMs, now);
      hist := hist[state.epoch := ToWire(state)];
    }

    /** The fencing check, then the command. A stale token changes nothing. */
    method ApplyCommandLocked(c: Command, token: nat, nowMs: int, now: int) returns (epoch: nat, accepted: bool)
      requires Valid()
      modifies this`state, this`hist, this`ring, this`subscribers, this`sent
      ensures Valid() && View() == Step(cfg, old(View()), Order(c, token, nowMs, now))
      ensures accepted == Accepts(old(View()), token) && epoch == state.epoch
      ensures Streamed(old(sent), old(subscribers), sent, subscribers)
    {
      StreamedNone(sent, subscribers);
      if token < state.token {
        return state.epoch, false;
      }
      ApplyCommand(c, nowMs, now);
      BroadcastUpdateLocked();
      return state.epoch, true;
    }

    /** The host-only entry point: anybody else is refused and changes nothing. */
    method ProcessCommand(userId: string, c: Command, token: nat, nowMs: int, now: int)
      returns (epoch: nat, accepted: bool)
      requires Valid()
      modifies this`state, this`hist, this`ring, this`subscribers, this`sent
      ensures Valid() && accepted == (Accepts(old(View()), token) && userId == old(state.hostId))
      ensures accepted ==> View() == Step(cfg, old(View()), Order(c, token, nowMs, now))
      ensures Streamed(old(sent), old(subscribers), sent, subscribers)
      ensures !accepted ==> View() == old(View())
      ensures epoch == state.epoch
    {
      StreamedNone(sent, subscribers);
      if token < state.token {
        return state.epoch, false;
      }
      if userId != state.hostId {
        return state.epoch, false;
      }
      epoch, accepted := ApplyCommandLocked(c, token, nowMs, now);
    }

    method AdoptOwnerIfUnset(ownerId: string, now: int) returns (adopted: bool)
      requires Valid()
      modifies this`state, this`hist, this`ring, this`subscribers, this`sent
      ensures Valid() && View() == Step(cfg, old(View()), Adopt(ownerId, now))
      ensures adopted == (ownerId != "" && old(state.hostId) == "")
      ensures Streamed(old(sent), old(subscribers), sent, subscribers)
    {
      StreamedNone(sent, subscribers);
      if ownerId == "" {
        return false;
      }
      if state.ownerId == "" {
        state := state.(ownerId := ownerId);
      }
      if state.hostId != "" {
        return false;
      }
      state := state.(hostId := ownerId);
      state := state.(epoch := state.epoch + 1);
      state := state.(epochStarted := now);
      hist := hist[state.epoch := ToWire(state)];
      BroadcastUpdateLocked();
      return true;
    }

    // ---- heartbeats, recovery and subscribers --------------------------------------------------

    method ProcessHeartbeat(userId: string, mediaMs: int, t1: int, t2: int, t3: int, now: int)
      returns (serverMediaMs: int, epoch: nat, driftMs: int, rttMs: int)
      requires Valid() && userId != ""
      modifies this`beats
      ensures Valid() && View() == Step(cfg, old(View()), Heartbeat(userId, mediaMs, t1, t2, t3, now))
      ensures serverMediaMs == AdvanceMediaTime(state, t3) && epoch == state.epoch
      ensures driftMs == ClampInt32(beats[userId].drift) && rttMs == ClampInt32(beats[userId].rtt)
    {
      var hb := if userId in beats then beats[userId] else NEW_BEAT;
      hb := Updated(hb, t1, t2, t3, now);
      serverMediaMs := AdvanceMediaTime(state, t3);
      hb := hb.(drift := mediaMs as real + hb.offset - serverMediaMs as real);
      beats := beats[userId := hb];
      epoch, driftMs, rttMs := state.epoch, ClampInt32(hb.drift), ClampInt32(hb.rtt);
    }

    method Recover(sinceEpoch: nat, now: int) returns (frames: seq<Frame>, ghost order: seq<string>)
      requires Valid()
      ensures !Replays(cfg, View(), sinceEpoch) ==> Enumerates(order, beats.Keys)
      ensures frames == if Replays(cfg, View(), sinceEpoch) then NewerFrames(ring, sinceEpoch)
                        else [SnapshotFrame(cfg, View(), order, now)]
    {
      var ringSize := if cfg.ringBufferSize <= 0 then 32 else cfg.ringBufferSize;
      if (state.epoch - sinceEpoch) % UINT64 <= ringSize && sinceEpoch > 0 {
        frames, order := [], [];
        for i := 0 to |ring|
          invariant frames == NewerFrames(ring[..i], sinceEpoch)
        {
          assert ring[..i + 1][..i] == ring[..i];
          if ring[i].epoch > sinceEpoch {
            frames := frames + [ring[i].frame];
          }
        }
        assert ring[..|ring|] == ring;
        return;
      }
      var stats;
      stats, order := BuildStats(beats, now, HostTimeout(cfg));
      frames := [Snapshot(ToWire(state), stats)];
    }

    method RegisterSubscriber(ch: nat)
      requires ch !in subscribers
      modifies this`subscribers
      ensures subscribers == old(subscribers)[ch := []]
    {
      subscribers := subscribers[ch := []];
    }

    method UnregisterSubscriber(ch: nat)
      modifies this`subscribers
      ensures subscribers == old(subscribers) - {ch}
    {
      subscribers := subscribers - {ch};
    }
  }
}
