/**
 The room server as a state machine: what every event does to the authoritative state, the
 heartbeat records, the replay ring and the stream of broadcast frames.

 Two history variables make whole runs expressible: `sent`, every frame ever broadcast, and `hist`,
 the wire state of every epoch. Instants are integers (nanoseconds), millisecond readings integers.
 */
module RoomServer {
  import opened Options
  import opened SyncStates
  import opened Heartbeats
  import opened Statistics
  import opened Controllers

  datatype Config = Config(
    hostTimeout: int,
    ringBufferSize: int,
    heartbeatSec: real,
    driftCorrection: bool,
    gains: Gains)

  function HostTimeout(cfg: Config): int
  {
    if cfg.hostTimeout > 0 then cfg.hostTimeout else 5_000_000_000
  }

  function RingSize(cfg: Config): nat
  {
    if cfg.ringBufferSize > 0 then cfg.ringBufferSize else 32
  }

  function HeartbeatSec(cfg: Config): real
  {
    if cfg.heartbeatSec > 0.0 then cfg.heartbeatSec else 1.0
  }

  // ---- what goes over the wire -------------------------------------------------------------------

  datatype Wire = Wire(
    status: Status,
    mediaTimeMs: int,
    wallTimeMs: int,
    rate: real,
    epoch: nat,
    token: nat,
    mediaId: Option<string>,
    hostId: Option<string>,
    epochStarted: int)

  function OptionalId(id: string): Option<string>
  {
    if id == "" then None else Some(id)
  }

  function ToWire(s: SyncState): Wire
  {
    Wire(s.status, s.mediaTimeMs, s.wallTimeMs, s.rate, s.epoch, s.token,
         OptionalId(s.mediaId), OptionalId(s.hostId), s.epochStarted)
  }

  datatype Frame =
    | Update(state: Wire)
    | Snapshot(state: Wire, stats: Stats)
    | HostMigration(previousHost: string, newHost: string, newEpoch: nat, newToken: nat)

  predicate IsFull(f: Frame)
  {
    !f.HostMigration?
  }

  function FrameEpoch(f: Frame): nat
  {
    if IsFull(f) then f.state.epoch else f.newEpoch
  }

  function FrameToken(f: Frame): nat
  {
    if IsFull(f) then f.state.token else f.newToken
  }

  /** A ring slot: the frame tagged with the epoch current when it was added. */
  datatype Entry = Entry(epoch: nat, frame: Frame)

  datatype Server = Server(
    state: SyncState,
    beats: map<string, Beat>,
    integral: real,
    ring: seq<Entry>,
    sent: seq<Frame>,
    hist: map<nat, Wire>)

  /** The server when a process starts from `initial`. */
  function Started(initial: SyncState): Server
  {
    Server(initial, map[], 0.0, [], [], map[initial.epoch := ToWire(initial)])
  }

  /** The state of a room nobody has commanded yet, with or without a known owner. */
  function FreshState(ownerId: string): SyncState
  {
    SyncState("", Paused, 0, 0, 1.0, 0, ownerId, 0, 0, ownerId)
  }

  // ---- the primitive effects ---------------------------------------------------------------------

  function Trimmed(ring: seq<Entry>, size: nat): seq<Entry>
  {
    if |ring| > size then ring[|ring| - size..] else ring
  }

  function AddedToRing(cfg: Config, s: Server, f: Frame): seq<Entry>
  {
    Trimmed(s.ring + [Entry(s.state.epoch, f)], RingSize(cfg))
  }

  /** Broadcast a full frame and remember it in the ring. */
  function Announced(cfg: Config, s: Server, f: Frame): Server
  {
    s.(ring := AddedToRing(cfg, s, f), sent := s.sent + [f])
  }

  function Entered(s: Server, next: SyncState): Server
  {
    s.(state := next, hist := s.hist[next.epoch := ToWire(next)])
  }

  /** Move to `next` and broadcast it. */
  function Raised(cfg: Config, s: Server, next: SyncState): Server
  {
    Announced(cfg, Entered(s, next), Update(ToWire(next)))
  }

  /** Hand over the host role. The migration frame is broadcast but not put in the ring. */
  function Migrated(s: Server, successor: string, now: int): Server
  {
    var st := s.state;
    var next := st.(hostId := successor, epoch := st.epoch + 1, token := st.token + 1, epochStarted := now);
    Entered(s, next).(sent := s.sent + [HostMigration(st.hostId, successor, next.epoch, next.token)])
  }

  // ---- host election -----------------------------------------------------------------------------

  predicate Live(cfg: Config, beats: map<string, Beat>, user: string, now: int)
  {
    user in beats && IsAlive(beats[user], now, HostTimeout(cfg))
  }

  predicate Eligible(cfg: Config, beats: map<string, Beat>, exclude: string, user: string, now: int)
  {
    user != exclude && Live(cfg, beats, user, now) && beats[user].lastSeen < now
  }

  /** What the walk over the map may answer: any eligible peer seen longest ago, or "" when none is. */
  ghost predicate IsSelection(cfg: Config, beats: map<string, Beat>, exclude: string, pick: string, now: int)
  {
    if pick == "" then forall u :: !Eligible(cfg, beats, exclude, u, now)
    else
      && Eligible(cfg, beats, exclude, pick, now)
      && (forall u | Eligible(cfg, beats, exclude, u, now) :: beats[pick].lastSeen <= beats[u].lastSeen)
  }

  /** The owner when present and not the one excluded, else whoever the walk selected. */
  function Preferred(cfg: Config, s: Server, exclude: string, pick: string, now: int): string
  {
    if s.state.ownerId != "" && s.state.ownerId != exclude && Live(cfg, s.beats, s.state.ownerId, now)
    then s.state.ownerId
    else pick
  }

  /** A room whose host is gone with no successor stops playing; its position is not advanced. */
  function Orphaned(cfg: Config, s: Server): Server
  {
    var st := s.state;
    if st.status.Playing? then Raised(cfg, s, st.(status := Paused, rate := 0.0, epoch := st.epoch + 1))
    else s
  }

  function HostChecked(cfg: Config, s: Server, now: int, pick: string): Server
  {
    var st := s.state;
    if st.ownerId != "" && st.hostId != st.ownerId && Live(cfg, s.beats, st.ownerId, now) then
      Migrated(s, st.ownerId, now)
    else if st.hostId != "" && Live(cfg, s.beats, st.hostId, now) then s
    else
      var successor := Preferred(cfg, s, st.hostId, pick, now);
      if successor != "" then Migrated(s, successor, now)
      else if st.hostId == "" then s
      else Orphaned(cfg, s)
  }

  // ---- drift correction --------------------------------------------------------------------------

  function LivePeers(cfg: Config, beats: map<string, Beat>, now: int): set<string>
  {
    set u | u in beats && Live(cfg, beats, u, now)
  }

  function Reference(s: Server): string
  {
    if s.state.ownerId != "" then s.state.ownerId else s.state.hostId
  }

  /** The owner, else the host, when that peer is present and measured: the only drift reference. */
  predicate Measured(cfg: Config, s: Server, now: int)
  {
    var r := Reference(s);
    r != "" && Live(cfg, s.beats, r, now) && s.beats[r].rtt > 0.0
  }

  function DriftCycle(cfg: Config, s: Server, now: int): Corrected
  {
    var peers := |LivePeers(cfg, s.beats, now)|;
    var drifts := if Measured(cfg, s, now) then [s.beats[Reference(s)].drift] else [];
    var rtts := if Measured(cfg, s, now) then [s.beats[Reference(s)].rtt] else [];
    Correction(cfg.gains, s.integral, Median(drifts), HeartbeatSec(cfg), peers, Confidence(peers, rtts))
  }

  /** A discontinuity re-broadcasts the unchanged state and ends the tick. */
  predicate Forced(cfg: Config, s: Server, now: int)
  {
    cfg.driftCorrection && DriftCycle(cfg, s, now).outcome.forceSnapshot
  }

  function Nudged(st: SyncState, correctionMs: real, nowMs: int): SyncState
  {
    st.(mediaTimeMs := st.mediaTimeMs - Trunc(correctionMs), wallTimeMs := nowMs, epoch := st.epoch + 1)
  }

  function DriftCorrected(cfg: Config, s: Server, now: int, nowMs: int): Server
  {
    if !cfg.driftCorrection then s
    else
      var r := DriftCycle(cfg, s, now);
      if r.outcome.forceSnapshot then Announced(cfg, s.(integral := 0.0), Update(ToWire(s.state)))
      else
        var t := s.(integral := r.integral);
        if r.outcome.correctionMs != 0.0 && s.state.status.Playing?
        then Raised(cfg, t, Nudged(s.state, r.outcome.correctionMs, nowMs))
        else t
  }

  function Ticked(cfg: Config, s: Server, now: int, nowMs: int, pick: string): Server
  {
    var t := DriftCorrected(cfg, s, now, nowMs);
    if Forced(cfg, s, now) then t else HostChecked(cfg, t, now, pick)
  }

  // ---- the other events --------------------------------------------------------------------------

  function Adopted(cfg: Config, s: Server, ownerId: string, now: int): Server
  {
    if ownerId == "" then s
    else
      var t := if s.state.ownerId == "" then s.(state := s.state.(ownerId := ownerId)) else s;
      if s.state.hostId != "" then t
      else Raised(cfg, t, t.state.(hostId := ownerId, epoch := t.state.epoch + 1, epochStarted := now))
  }

  predicate Accepts(s: Server, token: nat)
  {
    token >= s.state.token
  }

  function CommandStep(cfg: Config, s: Server, c: Command, token: nat, nowMs: int, now: int): Server
  {
    if Accepts(s, token) then Raised(cfg, s, Commanded(s.state, c, nowMs, now)) else s
  }

  function SnapshotFrame(cfg: Config, s: Server, order: seq<string>, now: int): Frame
    requires forall u | u in order :: u in s.beats
  {
    Snapshot(ToWire(s.state), StatsOf(s.beats, order, now, HostTimeout(cfg)))
  }

  /** The record a heartbeat leaves: refreshed estimates and the drift they imply. */
  function BeatAfter(s: Server, user: string, mediaMs: int, t1: int, t2: int, t3: int, now: int): Beat
  {
    var b := Updated(if user in s.beats then s.beats[user] else NEW_BEAT, t1, t2, t3, now);
    b.(drift := mediaMs as real + b.offset - AdvanceMediaTime(s.state, t3) as real)
  }

  datatype Event =
    | Tick(now: int, nowMs: int, pick: string)
    | Adopt(ownerId: string, now: int)
    | Order(command: Command, token: nat, nowMs: int, now: int)
    | Heartbeat(user: string, mediaMs: int, t1: int, t2: int, t3: int, now: int)
    | PublishSnapshot(order: seq<string>, now: int)

  /** The choices an event carries are ones the code could make. */
  ghost predicate Enabled(cfg: Config, s: Server, e: Event)
  {
    match e
    case Tick(now, _, pick) => IsSelection(cfg, s.beats, s.state.hostId, pick, now)
    case Heartbeat(user, _, _, _, _, _) => user != ""
    case PublishSnapshot(order, _) => Enumerates(order, s.beats.Keys)
    case _ => true
  }

  ghost function Step(cfg: Config, s: Server, e: Event): Server
    requires Enabled(cfg, s, e)
  {
    match e
    case Tick(now, nowMs, pick) => Ticked(cfg, s, now, nowMs, pick)
    case Adopt(ownerId, now) => Adopted(cfg, s, ownerId, now)
    case Order(c, token, nowMs, now) => CommandStep(cfg, s, c, token, nowMs, now)
    case Heartbeat(user, mediaMs, t1, t2, t3, now) =>
      s.(beats := s.beats[user := BeatAfter(s, user, mediaMs, t1, t2, t3, now)])
    case PublishSnapshot(order, now) => Announced(cfg, s, SnapshotFrame(cfg, s, order, now))
  }

  /** A sequence of events each enabled when it happens. */
  ghost predicate Runs(cfg: Config, s: Server, es: seq<Event>)
    decreases |es|
  {
    es == [] || (Enabled(cfg, s, es[0]) && Runs(cfg, Step(cfg, s, es[0]), es[1..]))
  }

  ghost function RunOf(cfg: Config, s: Server, es: seq<Event>): Server
    requires Runs(cfg, s, es)
    decreases |es|
  {
    if es == [] then s else RunOf(cfg, Step(cfg, s, es[0]), es[1..])
  }

  lemma {:induction false} RunExtends(cfg: Config, s: Server, es: seq<Event>, e: Event)
    requires Runs(cfg, s, es) && Enabled(cfg, RunOf(cfg, s, es), e)
    ensures Runs(cfg, s, es + [e]) && RunOf(cfg, s, es + [e]) == Step(cfg, RunOf(cfg, s, es), e)
    decreases |es|
  {
    if es == [] {
      assert es + [e] == [e] && [e][1..] == [];
    } else {
      assert (es + [e])[1..] == es[1..] + [e];
      RunExtends(cfg, Step(cfg, s, es[0]), es[1..], e);
    }
  }

  // ---- recovery ----------------------------------------------------------------------------------

  const UINT64 := 0x1_0000_0000_0000_0000

  /** The unsigned subtraction wraps around, so an epoch ahead of the server's takes the full path. */
  predicate Replays(cfg: Config, s: Server, since: nat)
  {
    (s.state.epoch - since) % UINT64 <= RingSize(cfg) && since > 0
  }

  function NewerFrames(ring: seq<Entry>, since: nat): seq<Frame>
  {
    if ring == [] then []
    else
      var n := |ring| - 1;
      NewerFrames(ring[..n], since) + if ring[n].epoch > since then [ring[n].frame] else []
  }

  /** What Recover answers, as the frames the client folds: the replay, or one snapshot. */
  function Recovery(cfg: Config, s: Server, since: nat, order: seq<string>, now: int): seq<Frame>
    requires forall u | u in order :: u in s.beats
  {
    if Replays(cfg, s, since) then NewerFrames(s.ring, since) else [SnapshotFrame(cfg, s, order, now)]
  }

  // ---- subscriber channels -----------------------------------------------------------------------

  const CHANNEL_CAPACITY := 16

  /** A send that never blocks: a full channel drops the frame. */
  function Offer(ch: seq<Frame>, f: Frame): seq<Frame>
  {
    if |ch| < CHANNEL_CAPACITY then ch + [f] else ch
  }

  function OfferAll(ch: seq<Frame>, fs: seq<Frame>): seq<Frame>
  {
    if fs == [] then ch
    else
      var n := |fs| - 1;
      Offer(OfferAll(ch, fs[..n]), fs[n])
  }

  lemma {:induction false} OfferAllAppends(ch: seq<Frame>, fs: seq<Frame>, gs: seq<Frame>)
    ensures OfferAll(ch, fs + gs) == OfferAll(OfferAll(ch, fs), gs)
    decreases |gs|
  {
    if gs == [] {
      assert fs + gs == fs;
    } else {
      var n := |gs| - 1;
      assert (fs + gs)[..|fs + gs| - 1] == fs + gs[..n];
      OfferAllAppends(ch, fs, gs[..n]);
    }
  }

  /** A tick is never stuck: some selection always exists. */
  lemma SelectionExists(cfg: Config, beats: map<string, Beat>, exclude: string, now: int) returns (pick: string)
    requires "" !in beats
    ensures IsSelection(cfg, beats, exclude, pick, now)
  {
    pick := OldestOf(cfg, beats, exclude, now, beats.Keys);
  }

  lemma {:induction false} OldestOf(cfg: Config, beats: map<string, Beat>, exclude: string, now: int,
                                    among: set<string>)
    returns (pick: string)
    requires "" !in beats && among <= beats.Keys
    ensures pick == "" ==> forall u | u in among :: !Eligible(cfg, beats, exclude, u, now)
    ensures pick != "" ==> Eligible(cfg, beats, exclude, pick, now)
    ensures pick != "" ==>
              forall u | u in among && Eligible(cfg, beats, exclude, u, now) ::
                beats[pick].lastSeen <= beats[u].lastSeen
    decreases |among|
  {
    if among == {} {
      pick := "";
    } else {
      var v :| v in among;
      pick := OldestOf(cfg, beats, exclude, now, among - {v});
      if Eligible(cfg, beats, exclude, v, now) && (pick == "" || beats[v].lastSeen < beats[pick].lastSeen) {
        pick := v;
      }
    }
  }

  /** An eligible peer none of the eligible was seen before. */
  ghost predicate Oldest(cfg: Config, beats: map<string, Beat>, exclude: string, user: string, now: int)
  {
    && Eligible(cfg, beats, exclude, user, now)
    && forall u | Eligible(cfg, beats, exclude, u, now) :: beats[user].lastSeen <= beats[u].lastSeen
  }

  /** The successor does not depend on the walk if and only if no two eligible peers share the oldest sighting. */
  lemma SelectionUniqueIff(cfg: Config, beats: map<string, Beat>, exclude: string, now: int)
    requires "" !in beats
    ensures (forall u, v | IsSelection(cfg, beats, exclude, u, now) && IsSelection(cfg, beats, exclude, v, now) ::
               u == v)
       <==> !(exists u, v :: u != v && Oldest(cfg, beats, exclude, u, now) && Oldest(cfg, beats, exclude, v, now))
  {
    forall u, v | IsSelection(cfg, beats, exclude, u, now) && IsSelection(cfg, beats, exclude, v, now) && u != v
      ensures Oldest(cfg, beats, exclude, u, now) && Oldest(cfg, beats, exclude, v, now)
    {
      assert u == "" ==> !Eligible(cfg, beats, exclude, v, now);
      assert v == "" ==> !Eligible(cfg, beats, exclude, u, now);
    }
    forall u | Oldest(cfg, beats, exclude, u, now)
      ensures IsSelection(cfg, beats, exclude, u, now)
    {
    }
  }

  /** A new channel keeps the first sixteen frames offered and drops the rest. */
  lemma {:induction false} ChannelKeepsSixteen(fs: seq<Frame>)
    ensures OfferAll([], fs) == if |fs| <= 16 then fs else fs[..16]
    decreases |fs|
  {
    if fs != [] {
      var n := |fs| - 1;
      ChannelKeepsSixteen(fs[..n]);
      assert fs == fs[..n] + [fs[n]];
      assert n >= 16 ==> fs[..n][..16] == fs[..16];
    }
  }

  /**
   With 64-bit epochs, the ring is replayed to a client that has an epoch, is not ahead, and is behind by no
   more than the ring's size; or that is ahead by nearly the whole range, where the subtraction wraps.
   */
  lemma ReplayedIff(cfg: Config, s: Server, since: nat)
    requires s.state.epoch < UINT64 && since < UINT64
    ensures var size := if cfg.ringBufferSize > 0 then cfg.ringBufferSize else 32;
            size < 0x1_0000_0000_0000_0000 ==>
              (Replays(cfg, s, since) <==>
                since > 0 && (since <= s.state.epoch <= since + size
                              || since - s.state.epoch >= 0x1_0000_0000_0000_0000 - size))
  {
    var d := s.state.epoch - since;
    if d >= 0 {
      assert d % UINT64 == d;
    } else {
      assert d % UINT64 == d + UINT64;
    }
  }
}
