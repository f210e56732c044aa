/**
 The Playback Service's replica of a room: overwritten by sync.updated.v1 events, advanced by
 commands under fencing-token and epoch enforcement.
 */
module Playback {
  datatype Room = Room(
    mediaId: string,
    status: int,
    mediaTimeMs: int,
    wallTimeMs: int,
    rate: real,
    epoch: nat,
    hostId: string,
    token: nat,
    updatedAt: int)

  const EMPTY_ROOM := Room("", 0, 0, 0, 0.0, 0, "", 0, 0)

  /** The fields of a sync.updated.v1 payload that the replica reads. */
  datatype SyncUpdated = SyncUpdated(
    roomId: string,
    epoch: nat,
    status: int,
    mediaTime: int,
    wallTime: int,
    rate: real,
    hostId: string)

  datatype SyncCommand = SyncCommand(
    mediaId: string,
    status: int,
    mediaTimeMs: int,
    wallTimeMs: int,
    rate: real,
    epoch: nat,
    hostId: string,
    token: nat)

  /** An event always applies; it carries no media id and no token, so those two stay. */
  function FromEvent(r: Room, e: SyncUpdated, now: int): Room
  {
    Room(r.mediaId, e.status, e.mediaTime, e.wallTime, e.rate, e.epoch, e.hostId, r.token, now)
  }

  function Payload(c: SyncCommand, now: int): Room
  {
    Room(c.mediaId, c.status, c.mediaTimeMs, c.wallTimeMs, c.rate, c.epoch, c.hostId, c.token, now)
  }

  /** Lexicographic order on (token, epoch). */
  predicate Below(token: nat, epoch: nat, token': nat, epoch': nat)
  {
    token < token' || (token == token' && epoch < epoch')
  }

  predicate Supersedes(c: SyncCommand, r: Room)
  {
    Below(r.token, r.epoch, c.token, c.epoch)
  }

  function FromCommand(r: Room, c: SyncCommand, now: int): Room
  {
    if Supersedes(c, r) then Payload(c, now) else r
  }

  class PlaybackRoom {
    var mediaId: string
    var status: int
    var mediaTimeMs: int
    var wallTimeMs: int
    var rate: real
    var epoch: nat
    var hostId: string
    var token: nat
    var updatedAt: int

    ghost function View(): Room
      reads this
    {
      Room(mediaId, status, mediaTimeMs, wallTimeMs, rate, epoch, hostId, token, updatedAt)
    }

    constructor ()
      ensures View() == EMPTY_ROOM
    {
      mediaId, status, mediaTimeMs, wallTimeMs, rate := "", 0, 0, 0, 0.0;
      epoch, hostId, token, updatedAt := 0, "", 0, 0;
    }

    method ApplyFromEvent(e: SyncUpdated, now: int) returns (advanced: bool)
      modifies this
      ensures View() == FromEvent(old(View()), e, now)
      ensures advanced <==> old(epoch) < epoch
    {
      advanced := e.epoch > epoch;
      epoch := e.epoch;
      status := e.status;
      mediaTimeMs := e.mediaTime;
      wallTimeMs := e.wallTime;
      rate := e.rate;
      hostId := e.hostId;
      updatedAt := now;
    }

    /** Applied exactly when the command's (token, epoch) is lexicographically above the cached pair. */
    method ApplySyncCommand(c: SyncCommand, now: int) returns (applied: bool)
      modifies this
      ensures applied <==> Supersedes(c, old(View()))
      ensures View() == FromCommand(old(View()), c, now)
    {
      if c.token < token {
        return false;
      }
      if c.epoch <= epoch && c.token == token {
        return false;
      }
      mediaId := c.mediaId;
      status := c.status;
      mediaTimeMs := c.mediaTimeMs;
      wallTimeMs := c.wallTimeMs;
      rate := c.rate;
      epoch := c.epoch;
      hostId := c.hostId;
      token := c.token;
      updatedAt := now;
      return true;
    }
  }

  /** The cache of rooms; the room records are kept as values of the map. */
  class RoomCache {
    var rooms: map<string, Room>

    constructor ()
      ensures rooms == map[]
    {
      rooms := map[];
    }

    ghost function Cached(roomId: string): Room
      reads this
    {
      if roomId in rooms then rooms[roomId] else EMPTY_ROOM
    }

    method ApplyFromEvent(e: SyncUpdated, now: int)
      modifies this
      ensures rooms == old(rooms)[e.roomId := FromEvent(old(Cached(e.roomId)), e, now)]
    {
      if e.roomId !in rooms {
        rooms := rooms[e.roomId := EMPTY_ROOM];
      }
      rooms := rooms[e.roomId := FromEvent(rooms[e.roomId], e, now)];
    }

    method ApplySyncCommand(roomId: string, c: SyncCommand, now: int) returns (applied: bool)
      modifies this
      ensures applied <==> Supersedes(c, old(Cached(roomId)))
      ensures rooms == old(rooms)[roomId := FromCommand(old(Cached(roomId)), c, now)]
    {
      if roomId !in rooms {
        rooms := rooms[roomId := EMPTY_ROOM];
      }
      applied := Supersedes(c, rooms[roomId]);
      if applied {
        rooms := rooms[roomId := Payload(c, now)];
      }
    }
  }

  // ---- convergence of commands -------------------------------------------------------------------

  datatype Delivery = Delivery(command: SyncCommand, now: int)

  function AfterCommands(r: Room, ds: seq<Delivery>): Room
  {
    if ds == [] then r
    else
      var n := |ds| - 1;
      FromCommand(AfterCommands(r, ds[..n]), ds[n].command, ds[n].now)
  }

  function Commands(ds: seq<Delivery>): set<SyncCommand>
  {
    set d | d in ds :: d.command
  }

  /** The command a room's fields spell out: its state but for when it was written. */
  function StateOf(r: Room): SyncCommand
  {
    SyncCommand(r.mediaId, r.status, r.mediaTimeMs, r.wallTimeMs, r.rate, r.epoch, r.hostId, r.token)
  }

  /** At most one command for each (token, epoch), as the room server's history guarantees. */
  ghost predicate OnePayloadEach(cs: set<SyncCommand>)
  {
    forall c, d | c in cs && d in cs && c.token == d.token && c.epoch == d.epoch :: c == d
  }

  /** Folding commands reaches the lexicographic maximum and holds its payload, or never leaves r. */
  lemma {:induction false} CommandsReachMaximum(r: Room, ds: seq<Delivery>)
    ensures var f := AfterCommands(r, ds);
            && (forall c | c in Commands(ds) :: !Supersedes(c, f))
            && (f == r || (Below(r.token, r.epoch, f.token, f.epoch) && StateOf(f) in Commands(ds)))
    decreases |ds|
  {
    if ds != [] {
      var n := |ds| - 1;
      CommandsReachMaximum(r, ds[..n]);
      assert ds == ds[..n] + [ds[n]];
      assert Commands(ds) == Commands(ds[..n]) + {ds[n].command};
    }
  }

  /**
   Any two deliveries of the same set of commands, reordered and duplicated at will, leave the same
   state: that of the lexicographically greatest command, if it is above the cached pair at all.
   */
  lemma CommandsConverge(r: Room, ds: seq<Delivery>, es: seq<Delivery>)
    requires Commands(ds) == Commands(es) && OnePayloadEach(Commands(ds))
    ensures StateOf(AfterCommands(r, ds)) == StateOf(AfterCommands(r, es))
  {
    CommandsReachMaximum(r, ds);
    CommandsReachMaximum(r, es);
    var f, g := AfterCommands(r, ds), AfterCommands(r, es);
    assert f != r ==> !Supersedes(StateOf(f), g);
    assert g != r ==> !Supersedes(StateOf(g), f);
  }

  // ---- commands and events together --------------------------------------------------------------

  datatype Input = EventIn(event: SyncUpdated, now: int) | CommandIn(command: SyncCommand, now: int)

  function AfterInput(r: Room, i: Input): Room
  {
    match i
    case EventIn(e, now) => FromEvent(r, e, now)
    case CommandIn(c, now) => FromCommand(r, c, now)
  }

  function AfterInputs(r: Room, ins: seq<Input>): Room
  {
    if ins == [] then r
    else
      var n := |ins| - 1;
      AfterInput(AfterInputs(r, ins[..n]), ins[n])
  }

  /** However events and commands interleave, the fencing token never decreases. */
  lemma {:induction false} TokenNeverDecreases(r: Room, ins: seq<Input>, k: nat)
    requires k <= |ins|
    ensures AfterInputs(r, ins[..k]).token <= AfterInputs(r, ins).token
    decreases |ins|
  {
    if k < |ins| {
      var n := |ins| - 1;
      TokenNeverDecreases(r, ins[..n], k);
      assert ins[..n][..k] == ins[..k];
    } else {
      assert ins[..k] == ins;
    }
  }

  /** Input k is taken: every event is, a command when its token is newer, or its epoch under the same token. */
  predicate Taken(r: Room, ins: seq<Input>, k: nat)
    requires k < |ins|
  {
    var t := AfterInputs(r, ins[..k]);
    match ins[k]
    case EventIn(_, _) => true
    case CommandIn(c, _) => c.token > t.token || (c.token == t.token && c.epoch > t.epoch)
  }

  lemma TakenInPrefix(r: Room, ins: seq<Input>, n: nat, k: nat)
    requires k < n <= |ins|
    ensures Taken(r, ins[..n], k) == Taken(r, ins, k)
  {
    assert ins[..n][..k] == ins[..k];
  }

  /** The sample a room shows is that of the last input taken, written when that came in. */
  lemma {:induction false} LastTakenRules(r: Room, ins: seq<Input>, k: nat)
    requires k < |ins| && Taken(r, ins, k) && forall j | k < j < |ins| :: !Taken(r, ins, j)
    ensures var f := AfterInputs(r, ins);
            match ins[k]
            case EventIn(e, now) =>
              && f.status == e.status && f.mediaTimeMs == e.mediaTime && f.wallTimeMs == e.wallTime
              && f.rate == e.rate && f.epoch == e.epoch && f.hostId == e.hostId && f.updatedAt == now
            case CommandIn(c, now) => StateOf(f) == c && f.updatedAt == now
    decreases |ins|
  {
    var n := |ins| - 1;
    if k < n {
      forall j | k <= j < n ensures Taken(r, ins[..n], j) == Taken(r, ins, j) {
        TakenInPrefix(r, ins, n, j);
      }
      LastTakenRules(r, ins[..n], k);
      assert !Taken(r, ins, n);
    }
  }

  /** Media and token are those of the last command taken; events leave them alone. */
  lemma {:induction false} LastCommandNamesMedia(r: Room, ins: seq<Input>, k: nat)
    requires k < |ins| && ins[k].CommandIn? && Taken(r, ins, k)
    requires forall j | k < j < |ins| :: ins[j].CommandIn? ==> !Taken(r, ins, j)
    ensures AfterInputs(r, ins).mediaId == ins[k].command.mediaId && AfterInputs(r, ins).token == ins[k].command.token
    decreases |ins|
  {
    var n := |ins| - 1;
    if k < n {
      forall j | k <= j < n ensures Taken(r, ins[..n], j) == Taken(r, ins, j) {
        TakenInPrefix(r, ins, n, j);
      }
      LastCommandNamesMedia(r, ins[..n], k);
      assert ins[n].CommandIn? ==> !Taken(r, ins, n);
    }
  }

  /**
   Events step around the epoch check: right after a command, an event followed by the redelivery of
   an older command of the same token lets that command back in exactly when the event's epoch is
   below it. With events interleaved, commands no longer converge.
   */
  lemma EventReopensIff(r: Room, c: SyncCommand, e: SyncUpdated, now: int)
    requires !Supersedes(c, r)
    ensures Supersedes(c, FromEvent(r, e, now)) <==> c.token == r.token && e.epoch < c.epoch
  {
  }

  lemma ThreeInputs(r: Room, a: Input, b: Input, c: Input)
    ensures AfterInputs(r, [a, b, c]) == AfterInput(AfterInput(AfterInput(r, a), b), c)
  {
    assert [a][..0] == [] && [a, b][..1] == [a] && [a, b, c][..2] == [a, b];
    assert AfterInputs(r, [a]) == AfterInput(r, a);
    assert AfterInputs(r, [a, b]) == AfterInput(AfterInputs(r, [a]), b);
  }

  /** The same two commands around the same older event, in either order, leave a new replica in different states. */
  lemma EventBreaksConvergence(c: SyncCommand, d: SyncCommand, e: SyncUpdated, now: int)
    requires c.token == d.token && e.epoch < c.epoch < d.epoch
    ensures StateOf(AfterInputs(EMPTY_ROOM, [CommandIn(c, now), EventIn(e, now), CommandIn(d, now)])) == d
    ensures StateOf(AfterInputs(EMPTY_ROOM, [CommandIn(d, now), EventIn(e, now), CommandIn(c, now)])) == c
  {
    ThreeInputs(EMPTY_ROOM, CommandIn(c, now), EventIn(e, now), CommandIn(d, now));
    ThreeInputs(EMPTY_ROOM, CommandIn(d, now), EventIn(e, now), CommandIn(c, now));
  }
}
