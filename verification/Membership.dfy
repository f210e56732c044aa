/**
 Rooms, member rows and grant rows: every call one serial transaction, rolled back when it returns an
 error. A room's member and grant rows are kept in its record; both tables reference the room and
 are deleted with it. Identifiers, trimmed name lengths and resolved invite codes are inputs.
 */
module Membership {
  import opened Options
  import Permissions

  const MEMBER := 2
  const MODERATOR := 3
  const OWNER := 4
  const SYSTEM_USER := 2
  const SYSTEM_ADMINISTRATOR := 4
  const PRIVATE := 3

  datatype Room = Room(
    ownerId: string,
    visibility: int,
    maxMembers: int,
    memberCount: int,
    roles: map<string, int>,
    grants: map<string, bv16>)

  type Rooms = map<string, Room>

  /** Conversion to a signed integer of `2 * half` values: the low bits, read as two's complement. */
  function Signed(value: int, half: nat): int
    requires half > 0
  {
    var low := value % (2 * half);
    if low < half then low else low - 2 * half
  }

  /** The role column holds 16 bits. */
  function Narrow(role: int): int
  {
    Signed(role, 0x8000)
  }

  /** The visibility type holds 8 bits. */
  function NarrowVisibility(visibility: int): int
  {
    Signed(visibility, 0x80)
  }

  predicate CanKick(actor: int, target: int)
  {
    target != OWNER && (actor == OWNER || (actor == MODERATOR && target < MODERATOR))
  }

  predicate CanPromote(actor: int, role: int)
  {
    actor == OWNER && role != OWNER && role != 0
  }

  predicate IsFull(room: Room)
  {
    room.memberCount >= room.maxMembers
  }

  function Created(owner: string, visibility: int, maxMembers: Option<int>): Room
  {
    var stored := NarrowVisibility(visibility);
    Room(owner,
         if stored == 0 then 1 else stored,
         if maxMembers.Some? && maxMembers.value > 0 then maxMembers.value else 50,
         1, map[owner := OWNER], map[])
  }

  function WithMember(room: Room, user: string): Room
  {
    room.(roles := room.roles[user := MEMBER], memberCount := room.memberCount + 1)
  }

  function WithoutMember(room: Room, user: string): Room
  {
    room.(roles := room.roles - {user}, grants := room.grants - {user}, memberCount := room.memberCount - 1)
  }

  function Updated(room: Room, visibility: Option<int>, maxMembers: Option<int>): Room
  {
    var stored := if visibility.Some? then NarrowVisibility(visibility.value) else 0;
    room.(visibility := if stored != 0 then stored else room.visibility,
          maxMembers := if maxMembers.Some? && maxMembers.value > 0 then maxMembers.value else room.maxMembers)
  }

  // ---- the calls ---------------------------------------------------------------------------------

  datatype Op =
    | Create(user: string, system: int, id: string, nameLength: nat, visibility: int, maxMembers: Option<int>)
    | Join(user: string, system: int, room: string, invitedTo: Option<string>)
    | Leave(user: string, room: string)
    | Kick(user: string, room: string, target: string)
    | SetRole(user: string, room: string, target: string, role: int)
    | Grant(user: string, room: string, target: string, values: seq<int>)
    | Update(user: string, system: int, room: string, newVisibility: Option<int>, newMax: Option<int>)
    | Delete(user: string, system: int, room: string)

  datatype Reply = Done | Denied | NotFound | Invalid | OwnerCannotLeave | RoomFull | Failed

  predicate IsMember(rooms: Rooms, room: string, user: string)
  {
    room in rooms && user in rooms[room].roles
  }

  predicate MayManage(rooms: Rooms, room: string, user: string, system: int)
  {
    system >= SYSTEM_ADMINISTRATOR || (IsMember(rooms, room, user) && rooms[room].roles[user] >= OWNER)
  }

  /** The answer when no statement and no commit fails. */
  function Judged(rooms: Rooms, op: Op): Reply
  {
    match op
    case Create(_, system, id, nameLength, _, _) =>
      if system < SYSTEM_USER then Denied
      else if nameLength == 0 || nameLength > 100 then Invalid
      else if id in rooms then Failed
      else Done
    case Join(_, system, room, invitedTo) =>
      if system < SYSTEM_USER then Denied
      else if room == "" then Invalid
      else if room !in rooms then NotFound
      else if rooms[room].visibility == PRIVATE && invitedTo != Some(room) then Denied
      else if IsFull(rooms[room]) then RoomFull
      else Done
    case Leave(user, room) =>
      if room !in rooms then NotFound
      else if rooms[room].ownerId == user then OwnerCannotLeave
      else Done
    case Kick(user, room, target) =>
      if !IsMember(rooms, room, user) then Denied
      else if target !in rooms[room].roles then NotFound
      else if !CanKick(rooms[room].roles[user], rooms[room].roles[target]) then Denied
      else Done
    case SetRole(user, room, target, role) =>
      if !IsMember(rooms, room, user) then Denied
      else if !CanPromote(rooms[room].roles[user], role) then Denied
      else if target !in rooms[room].roles then NotFound
      else Done
    case Grant(user, room, target, _) =>
      if room !in rooms then NotFound
      else if rooms[room].ownerId != user then Denied
      else if target == user then Invalid
      else if target !in rooms[room].roles then NotFound
      else Done
    case Update(user, system, room, _, _) =>
      if room !in rooms then NotFound
      else if !MayManage(rooms, room, user, system) then Denied
      else Done
    case Delete(user, system, room) =>
      if !MayManage(rooms, room, user, system) then Denied else Done
  }

  /** The room a call is about. */
  function Target(op: Op): string
  {
    if op.Create? then op.id else op.room
  }

  /** The row that room has after a call answered with Done; None when it is deleted. */
  function Rewritten(rooms: Rooms, op: Op): Option<Room>
    requires Judged(rooms, op).Done?
  {
    match op
    case Create(user, _, _, _, visibility, maxMembers) => Some(Created(user, visibility, maxMembers))
    case Join(user, _, room, _) =>
      Some(if user in rooms[room].roles then rooms[room] else WithMember(rooms[room], user))
    case Leave(user, room) =>
      Some(if user in rooms[room].roles then WithoutMember(rooms[room], user) else rooms[room])
    case Kick(_, room, target) => Some(WithoutMember(rooms[room], target))
    case SetRole(_, room, target, role) => Some(rooms[room].(roles := rooms[room].roles[target := Narrow(role)]))
    case Grant(_, room, target, values) =>
      Some(rooms[room].(grants := rooms[room].grants[target := Permissions.Mask(values)]))
    case Update(_, _, room, visibility, maxMembers) => Some(Updated(rooms[room], visibility, maxMembers))
    case Delete(_, _, _) => None
  }

  /** What a call answered with Done leaves behind: other rooms are untouched. */
  function Written(rooms: Rooms, op: Op): Rooms
    requires Judged(rooms, op).Done?
  {
    match Rewritten(rooms, op)
    case None => rooms - {Target(op)}
    case Some(row) => rooms[Target(op) := row]
  }

  /** One call, and whether the database carried its statements through. */
  datatype Call = Call(op: Op, commits: bool)

  predicate Succeeds(rooms: Rooms, c: Call)
  {
    c.commits && Judged(rooms, c.op).Done?
  }

  function After(rooms: Rooms, c: Call): Rooms
  {
    if Succeeds(rooms, c) then Written(rooms, c.op) else rooms
  }

  function ReplyTo(rooms: Rooms, c: Call): Reply
  {
    if Judged(rooms, c.op).Done? && !c.commits then Failed else Judged(rooms, c.op)
  }

  function RunOf(calls: seq<Call>): Rooms
  {
    if calls == [] then map[] else After(RunOf(calls[..|calls| - 1]), calls[|calls| - 1])
  }

  /** The stored grants of a user; no row is no grant. */
  function Granted(rooms: Rooms, room: string, user: string): bv16
  {
    if room in rooms && user in rooms[room].grants then rooms[room].grants[user] else 0
  }

  // ---- the service -------------------------------------------------------------------------------

  class RoomService {
    var rooms: Rooms

    method CreateRoom(user: string, system: int, id: string, nameLength: nat, visibility: int, maxMembers: Option<int>,
                      commits: bool) returns (r: Reply)
      modifies this
      ensures var c := Call(Create(user, system, id, nameLength, visibility, maxMembers), commits);
              r == ReplyTo(old(rooms), c) && rooms == After(old(rooms), c)
    {
      if system < SYSTEM_USER {
        return Denied;
      }
      if nameLength == 0 || nameLength > 100 {
        return Invalid;
      }
      var vis := NarrowVisibility(visibility);
      if vis == 0 {
        vis := 1;
      }
      var max := 50;
      if maxMembers.Some? && maxMembers.value > 0 {
        max := maxMembers.value;
      }
      var room := Room(user, vis, max, 0, map[], map[]);
      if id in rooms {
        return Failed;
      }
      room := room.(roles := room.roles[user := OWNER]);
      room := room.(memberCount := room.memberCount + 1);
      if !commits {
        return Failed;
      }
      rooms := rooms[id := room];
      return Done;
    }

    method JoinRoom(user: string, system: int, room: string, invitedTo: Option<string>, commits: bool)
      returns (r: Reply)
      modifies this
      ensures var c := Call(Join(user, system, room, invitedTo), commits);
              r == ReplyTo(old(rooms), c) && rooms == After(old(rooms), c)
    {
      if system < SYSTEM_USER {
        return Denied;
      }
      if room == "" {
        return Invalid;
      }
      if room !in rooms {
        return NotFound;
      }
      var row := rooms[room];
      if row.visibility == PRIVATE && (invitedTo.None? || invitedTo.value != room) {
        return Denied;
      }
      if IsFull(row) {
        return RoomFull;
      }
      if !commits {
        return Failed;
      }
      if user !in row.roles {
        row := row.(roles := row.roles[user := MEMBER]);
        row := row.(memberCount := row.memberCount + 1);
        rooms := rooms[room := row];
      }
      assert rooms == old(rooms)[room := row];
      return Done;
    }

    method LeaveRoom(user: string, room: string, commits: bool) returns (r: Reply)
      modifies this
      ensures var c := Call(Leave(user, room), commits);
              r == ReplyTo(old(rooms), c) && rooms == After(old(rooms), c)
    {
      if room !in rooms {
        return NotFound;
      }
      if rooms[room].ownerId == user {
        return OwnerCannotLeave;
      }
      if !commits {
        return Failed;
      }
      if user in rooms[room].roles {
        RemoveMember(room, user);
      }
      assert rooms == old(rooms)[room := rooms[room]];
      return Done;
    }

    /** The three statements leaving and kicking share. */
    method RemoveMember(room: string, user: string)
      requires room in rooms
      modifies this
      ensures rooms == old(rooms)[room := WithoutMember(old(rooms)[room], user)]
    {
      var row := rooms[room];
      row := row.(roles := row.roles - {user});
      row := row.(grants := row.grants - {user});
      row := row.(memberCount := row.memberCount - 1);
      rooms := rooms[room := row];
    }

    method KickMember(user: string, room: string, target: string, commits: bool) returns (r: Reply)
      modifies this
      ensures var c := Call(Kick(user, room, target), commits);
              r == ReplyTo(old(rooms), c) && rooms == After(old(rooms), c)
    {
      if room !in rooms || user !in rooms[room].roles {
        return Denied;
      }
      if target !in rooms[room].roles {
        return NotFound;
      }
      if !CanKick(rooms[room].roles[user], rooms[room].roles[target]) {
        return Denied;
      }
      if !commits {
        return Failed;
      }
      RemoveMember(room, target);
      return Done;
    }

    method UpdateMemberRole(user: string, room: string, target: string, role: int, commits: bool) returns (r: Reply)
      modifies this
      ensures var c := Call(SetRole(user, room, target, role), commits);
              r == ReplyTo(old(rooms), c) && rooms == After(old(rooms), c)
    {
      if room !in rooms || user !in rooms[room].roles {
        return Denied;
      }
      if !CanPromote(rooms[room].roles[user], role) {
        return Denied;
      }
      if target !in rooms[room].roles {
        return NotFound;
      }
      if !commits {
        return Failed;
      }
      var row := rooms[room];
      rooms := rooms[room := row.(roles := row.roles[target := Narrow(role)])];
      return Done;
    }

    method GrantPermissions(user: string, room: string, target: string, values: seq<int>, commits: bool)
      returns (r: Reply)
      modifies this
      ensures var c := Call(Grant(user, room, target, values), commits);
              r == ReplyTo(old(rooms), c) && rooms == After(old(rooms), c)
    {
      var perms := Permissions.FromProto(values);
      if room !in rooms {
        return NotFound;
      }
      if rooms[room].ownerId != user {
        return Denied;
      }
      if target == user {
        return Invalid;
      }
      if target !in rooms[room].roles {
        return NotFound;
      }
      if !commits {
        return Failed;
      }
      var row := rooms[room];
      rooms := rooms[room := row.(grants := row.grants[target := perms])];
      return Done;
    }

    method UpdateRoom(user: string, system: int, room: string, visibility: Option<int>, maxMembers: Option<int>,
                      commits: bool) returns (r: Reply)
      modifies this
      ensures var c := Call(Update(user, system, room, visibility, maxMembers), commits);
              r == ReplyTo(old(rooms), c) && rooms == After(old(rooms), c)
    {
      if room !in rooms {
        return NotFound;
      }
      if !MayManage(rooms, room, user, system) {
        return Denied;
      }
      var row := rooms[room];
      if visibility.Some? {
        var vis := NarrowVisibility(visibility.value);
        if vis != 0 {
          row := row.(visibility := vis);
        }
      }
      if maxMembers.Some? && maxMembers.value > 0 {
        row := row.(maxMembers := maxMembers.value);
      }
      if !commits {
        return Failed;
      }
      rooms := rooms[room := row];
      return Done;
    }

    method DeleteRoom(user: string, system: int, room: string, commits: bool) returns (r: Reply)
      modifies this
      ensures var c := Call(Delete(user, system, room), commits);
              r == ReplyTo(old(rooms), c) && rooms == After(old(rooms), c)
    {
      if !MayManage(rooms, room, user, system) {
        return Denied;
      }
      if !commits {
        return Failed;
      }
      rooms := rooms - {room};
      return Done;
    }

    /** None when the room does not exist. */
    method GetMemberPermissions(room: string, user: string) returns (r: Option<(seq<int>, bool)>)
      ensures r == if room !in rooms then None
                   else Some((Permissions.Values(Granted(rooms, room, user)), rooms[room].ownerId == user))
    {
      if room !in rooms {
        return None;
      }
      var perms: bv16 := 0;
      if user in rooms[room].grants {
        perms := rooms[room].grants[user];
      }
      var values := Permissions.ToProto(perms);
      return Some((values, rooms[room].ownerId == user));
    }
  }

  // ---- what every run keeps ----------------------------------------------------------------------

  /** The count is the number of member rows; grant rows belong to members other than the owner. */
  ghost predicate RoomOk(room: Room)
  {
    && room.memberCount == |room.roles|
    && (forall u | u in room.grants :: u in room.roles && u != room.ownerId)
  }

  ghost predicate RoomsOk(rooms: Rooms)
  {
    forall r | r in rooms :: RoomOk(rooms[r])
  }

  lemma WithoutMemberOk(room: Room, user: string)
    requires RoomOk(room) && user in room.roles
    ensures RoomOk(WithoutMember(room, user))
  {
    assert (room.roles - {user}).Keys == room.roles.Keys - {user};
    assert |room.roles.Keys - {user}| == |room.roles.Keys| - 1;
  }

  lemma WithMemberOk(room: Room, user: string)
    requires RoomOk(room) && user !in room.roles
    ensures RoomOk(WithMember(room, user))
  {
    assert room.roles[user := MEMBER].Keys == room.roles.Keys + {user};
  }

  lemma SetRoleOk(room: Room, target: string, role: int)
    requires RoomOk(room) && target in room.roles
    ensures RoomOk(room.(roles := room.roles[target := role]))
  {
    assert room.roles[target := role].Keys == room.roles.Keys;
  }

  lemma RewrittenOk(rooms: Rooms, op: Op)
    requires RoomsOk(rooms) && Judged(rooms, op).Done? && !op.Delete?
    ensures RoomOk(Rewritten(rooms, op).value)
  {
    match op {
      case Join(user, _, room, _) =>
        if user !in rooms[room].roles {
          WithMemberOk(rooms[room], user);
        }
      case Leave(user, room) =>
        if user in rooms[room].roles {
          WithoutMemberOk(rooms[room], user);
        }
      case Kick(_, room, target) => WithoutMemberOk(rooms[room], target);
      case SetRole(_, room, target, role) => SetRoleOk(rooms[room], target, Narrow(role));
      case _ =>
    }
  }

  lemma CallKeepsRooms(rooms: Rooms, c: Call)
    requires RoomsOk(rooms)
    ensures RoomsOk(After(rooms, c))
  {
    if Succeeds(rooms, c) && !c.op.Delete? {
      RewrittenOk(rooms, c.op);
    }
  }

  lemma {:induction false} RunKeepsRooms(calls: seq<Call>)
    ensures RoomsOk(RunOf(calls))
  {
    if calls != [] {
      RunKeepsRooms(calls[..|calls| - 1]);
      CallKeepsRooms(RunOf(calls[..|calls| - 1]), calls[|calls| - 1]);
    }
  }

  // ---- the owner role ----------------------------------------------------------------------------

  /** Only the room's owner has a row with the owner role, so there is at most one. */
  ghost predicate OwnerRowsOk(room: Room)
  {
    forall u | u in room.roles && room.roles[u] == OWNER :: u == room.ownerId
  }

  ghost predicate AllOwnerRowsOk(rooms: Rooms)
  {
    forall r | r in rooms :: OwnerRowsOk(rooms[r])
  }

  /** The one call that writes a second owner row: a role that becomes the owner's in the narrower column. */
  predicate WritesOwnerRow(rooms: Rooms, c: Call)
  {
    && Succeeds(rooms, c) && c.op.SetRole? && c.op.target != rooms[c.op.room].ownerId
    && c.op.role % 0x1_0000 == OWNER
  }

  lemma OwnerRowsKeptIff(rooms: Rooms, c: Call)
    requires AllOwnerRowsOk(rooms)
    ensures AllOwnerRowsOk(After(rooms, c)) <==> !WritesOwnerRow(rooms, c)
  {
    if WritesOwnerRow(rooms, c) {
      var row := After(rooms, c)[c.op.room];
      assert row.roles[c.op.target] == OWNER;
      assert !OwnerRowsOk(row);
    }
  }

  /** Roles of the enumeration never narrow to the owner's, so in runs of those the owner row is unique. */
  lemma {:induction false} RunKeepsOwnerRows(calls: seq<Call>)
    requires forall k | 0 <= k < |calls| :: calls[k].op.SetRole? ==> 0 <= calls[k].op.role <= OWNER
    ensures AllOwnerRowsOk(RunOf(calls))
  {
    if calls != [] {
      var n := |calls| - 1;
      RunKeepsOwnerRows(calls[..n]);
      OwnerRowsKeptIff(RunOf(calls[..n]), calls[n]);
    }
  }

  /** Whoever is given such a role in a new room becomes its second owner row. */
  lemma SecondOwnerRow(owner: string, user: string, room: string, role: int)
    requires owner != user && room != "" && role != OWNER && role % 0x1_0000 == OWNER
    ensures var rooms := RunOf([Call(Create(owner, SYSTEM_USER, room, 1, 1, None), true),
                                Call(Join(user, SYSTEM_USER, room, None), true),
                                Call(SetRole(owner, room, user, role), true)]);
            && room in rooms && rooms[room].ownerId == owner
            && rooms[room].roles == map[owner := OWNER, user := OWNER]
  {
    var c0 := Call(Create(owner, SYSTEM_USER, room, 1, 1, None), true);
    var c1 := Call(Join(user, SYSTEM_USER, room, None), true);
    var c2 := Call(SetRole(owner, room, user, role), true);
    PairForms(owner, user, room);
    RunExtends([c0, c1], c2);
    assert [c0, c1] + [c2] == [c0, c1, c2];
  }

  /** A kick of the owner goes through exactly when their row gave up the owner role and the caller's outranks it. */
  lemma OwnerKickedIff(rooms: Rooms, user: string, room: string)
    requires IsMember(rooms, room, user) && IsMember(rooms, room, rooms[room].ownerId)
    ensures var row, actor := rooms[room].roles[rooms[room].ownerId], rooms[room].roles[user];
            Judged(rooms, Kick(user, room, rooms[room].ownerId)).Done? <==>
              row != OWNER && (actor == OWNER || (actor == MODERATOR && row < MODERATOR))
  {
  }

  /** While the owner's row holds the owner role, a call ends that only by storing another or deleting the room. */
  lemma OwnerStaysUnless(rooms: Rooms, c: Call, r: string)
    requires r in rooms && RoleIn(rooms, r, rooms[r].ownerId) == Some(OWNER)
    ensures var owner := rooms[r].ownerId;
            var t := After(rooms, c);
            var stays := r in t && t[r].ownerId == owner && RoleIn(t, r, owner) == Some(OWNER);
            !stays <==> Succeeds(rooms, c)
                        && ((c.op.SetRole? && c.op.room == r && c.op.target == owner && c.op.role % 0x1_0000 != OWNER)
                            || (c.op.Delete? && c.op.room == r))
  {
  }

  // ---- roles over runs ---------------------------------------------------------------------------

  function RoleIn(rooms: Rooms, room: string, user: string): Option<int>
  {
    if IsMember(rooms, room, user) then Some(rooms[room].roles[user]) else None
  }

  /** What a call does to a user's row in a room: nothing, remove it, or store a role. */
  datatype Touch = Untouched | Removed | Stored(role: int)

  function TouchOf(rooms: Rooms, c: Call, room: string, user: string): Touch
  {
    if !Succeeds(rooms, c) then Untouched
    else match c.op
      case Create(creator, _, id, _, _, _) => if id == room && creator == user then Stored(OWNER) else Untouched
      case Join(who, _, r, _) =>
        if r == room && who == user && !IsMember(rooms, room, user) then Stored(MEMBER) else Untouched
      case Leave(who, r) => if r == room && who == user then Removed else Untouched
      case Kick(_, r, target) => if r == room && target == user then Removed else Untouched
      case SetRole(_, r, target, role) => if r == room && target == user then Stored(Narrow(role)) else Untouched
      case Grant(_, _, _, _) => Untouched
      case Update(_, _, _, _, _) => Untouched
      case Delete(_, _, r) => if r == room then Removed else Untouched
  }

  lemma RoleAfter(rooms: Rooms, c: Call, room: string, user: string)
    ensures RoleIn(After(rooms, c), room, user) ==
            match TouchOf(rooms, c, room, user)
            case Untouched => RoleIn(rooms, room, user)
            case Removed => None
            case Stored(role) => Some(role)
  {
  }

  ghost function TouchAt(calls: seq<Call>, k: nat, room: string, user: string): Touch
    requires k < |calls|
  {
    TouchOf(RunOf(calls[..k]), calls[k], room, user)
  }

  /** Call k is the last of the run to touch the user's row. */
  ghost predicate LastTouch(calls: seq<Call>, k: nat, room: string, user: string)
  {
    && k < |calls| && !TouchAt(calls, k, room, user).Untouched?
    && forall j | k < j < |calls| :: TouchAt(calls, j, room, user).Untouched?
  }

  lemma TouchOfPrefix(calls: seq<Call>, k: nat, n: nat, room: string, user: string)
    requires k < n <= |calls|
    ensures TouchAt(calls[..n], k, room, user) == TouchAt(calls, k, room, user)
  {
    assert calls[..n][..k] == calls[..k];
  }

  lemma LastTouchStep(calls: seq<Call>, k: nat, room: string, user: string)
    requires calls != []
    ensures var n := |calls| - 1;
            LastTouch(calls, k, room, user) <==>
              if k == n then !TouchAt(calls, n, room, user).Untouched?
              else TouchAt(calls, n, room, user).Untouched? && LastTouch(calls[..n], k, room, user)
  {
    var n := |calls| - 1;
    forall j: nat | j < n
      ensures TouchAt(calls[..n], j, room, user) == TouchAt(calls, j, room, user)
    {
      TouchOfPrefix(calls, j, n, room, user);
    }
  }

  /** After every run, anyone's role in any room is the one the last call to touch their row stored. */
  lemma {:induction false} LastTouchRules(calls: seq<Call>, room: string, user: string)
    ensures match RoleIn(RunOf(calls), room, user)
            case Some(role) =>
              exists k: nat :: LastTouch(calls, k, room, user) && TouchAt(calls, k, room, user) == Stored(role)
            case None => forall k: nat | LastTouch(calls, k, room, user) :: TouchAt(calls, k, room, user).Removed?
  {
    if calls != [] {
      var n := |calls| - 1;
      var before := RunOf(calls[..n]);
      LastTouchRules(calls[..n], room, user);
      RoleAfter(before, calls[n], room, user);
      forall k: nat
        ensures LastTouch(calls, k, room, user) <==>
                if k == n then !TouchAt(calls, n, room, user).Untouched?
                else TouchAt(calls, n, room, user).Untouched? && LastTouch(calls[..n], k, room, user)
      {
        LastTouchStep(calls, k, room, user);
      }
      if TouchAt(calls, n, room, user).Untouched? {
        forall k: nat | k < n
          ensures TouchAt(calls[..n], k, room, user) == TouchAt(calls, k, room, user)
        {
          TouchOfPrefix(calls, k, n, room, user);
        }
      } else {
        assert LastTouch(calls, n, room, user);
      }
    }
  }

  /**
   After every run, the owner's row holds the owner role if and only if the last call to touch it
   was the creation of the room or a role update whose value narrows to the owner role; a kick or a
   join after a kick is what else it may have been.
   */
  lemma OwnerHoldsRoleIff(calls: seq<Call>, room: string)
    requires room in RunOf(calls)
    ensures var owner := RunOf(calls)[room].ownerId;
            RoleIn(RunOf(calls), room, owner) == Some(OWNER) <==>
              exists k: nat :: LastTouch(calls, k, room, owner)
                && (calls[k].op.Create? || (calls[k].op.SetRole? && calls[k].op.role % 0x1_0000 == OWNER))
  {
    var owner := RunOf(calls)[room].ownerId;
    LastTouchRules(calls, room, owner);
    forall k: nat | LastTouch(calls, k, room, owner)
      ensures TouchAt(calls, k, room, owner) == Stored(OWNER) <==>
              calls[k].op.Create? || (calls[k].op.SetRole? && calls[k].op.role % 0x1_0000 == OWNER)
    {
    }
    forall j: nat, k: nat | LastTouch(calls, j, room, owner) && LastTouch(calls, k, room, owner)
      ensures j == k
    {
    }
  }

  lemma LastTouchUnique(calls: seq<Call>, j: nat, k: nat, room: string, user: string)
    requires LastTouch(calls, j, room, user) && LastTouch(calls, k, room, user)
    ensures j == k
  {
  }

  /** The last call to touch the user's row stored the role. */
  ghost predicate LastStored(calls: seq<Call>, room: string, user: string, role: int)
  {
    exists k: nat :: LastTouch(calls, k, room, user) && TouchAt(calls, k, room, user) == Stored(role)
  }

  lemma RoleIsLastStored(calls: seq<Call>, room: string, user: string, role: int)
    ensures RoleIn(RunOf(calls), room, user) == Some(role) <==> LastStored(calls, room, user, role)
  {
    LastTouchRules(calls, room, user);
    if LastStored(calls, room, user, role) {
      var j: nat :| LastTouch(calls, j, room, user) && TouchAt(calls, j, room, user) == Stored(role);
      forall k: nat | LastTouch(calls, k, room, user)
        ensures k == j
      {
        LastTouchUnique(calls, j, k, room, user);
      }
    }
  }

  /**
   After every run, a kick of anyone, the owner included, goes through if and only if the last calls to
   touch the two rows stored roles of which the caller's outranks the target's.
   */
  lemma KickGoesThroughIff(calls: seq<Call>, user: string, room: string, target: string)
    ensures Judged(RunOf(calls), Kick(user, room, target)).Done? <==>
            exists actor, row | CanKick(actor, row) ::
              LastStored(calls, room, user, actor) && LastStored(calls, room, target, row)
  {
    var rooms := RunOf(calls);
    KickJudged(rooms, user, room, target);
    if Judged(rooms, Kick(user, room, target)).Done? {
      var actor, row := RoleIn(rooms, room, user).value, RoleIn(rooms, room, target).value;
      RoleIsLastStored(calls, room, user, actor);
      RoleIsLastStored(calls, room, target, row);
      assert CanKick(actor, row) && LastStored(calls, room, user, actor) && LastStored(calls, room, target, row);
    } else if exists actor, row | CanKick(actor, row) ::
                LastStored(calls, room, user, actor) && LastStored(calls, room, target, row) {
      var actor, row :| && CanKick(actor, row)
                        && LastStored(calls, room, user, actor) && LastStored(calls, room, target, row);
      RoleIsLastStored(calls, room, user, actor);
      RoleIsLastStored(calls, room, target, row);
    }
  }

  lemma KickJudged(rooms: Rooms, user: string, room: string, target: string)
    ensures var actor, row := RoleIn(rooms, room, user), RoleIn(rooms, room, target);
            Judged(rooms, Kick(user, room, target)).Done? <==>
              actor.Some? && row.Some? && CanKick(actor.value, row.value)
  {
  }

  // ---- owners kicked -----------------------------------------------------------------------------

  /** A room of an owner and one other member, with the roles given. */
  predicate IsPair(rooms: Rooms, room: string, owner: string, user: string, role: int, other: int)
  {
    && room in rooms && rooms[room].ownerId == owner && rooms[room].roles == map[owner := role, user := other]
    && rooms[room].memberCount == 2 && rooms[room].maxMembers == 50 && rooms[room].visibility == 1
  }

  lemma PairForms(owner: string, user: string, room: string)
    requires owner != user && room != ""
    ensures var c0 := Call(Create(owner, SYSTEM_USER, room, 1, 1, None), true);
            var c1 := Call(Join(user, SYSTEM_USER, room, None), true);
            IsPair(RunOf([c0, c1]), room, owner, user, OWNER, MEMBER)
  {
    var c0 := Call(Create(owner, SYSTEM_USER, room, 1, 1, None), true);
    var c1 := Call(Join(user, SYSTEM_USER, room, None), true);
    RunExtends([], c0);
    RunExtends([c0], c1);
    assert [] + [c0] == [c0] && [c0] + [c1] == [c0, c1];
    assert RunOf([c0])[room] == Room(owner, 1, 50, 1, map[owner := OWNER], map[]);
  }

  lemma RunExtends(calls: seq<Call>, c: Call)
    ensures RunOf(calls + [c]) == After(RunOf(calls), c)
  {
    assert (calls + [c])[..|calls|] == calls;
  }

  /** The run that gives the other member a role, lets somebody set the owner's, and kicks the owner. */
  function Ousting(owner: string, user: string, room: string, first: int, demoter: string, second: int): seq<Call>
  {
    [Call(Create(owner, SYSTEM_USER, room, 1, 1, None), true),
     Call(Join(user, SYSTEM_USER, room, None), true),
     Call(SetRole(owner, room, user, first), true),
     Call(SetRole(demoter, room, owner, second), true),
     Call(Kick(user, room, owner), true)]
  }

  lemma PairPromotes(rooms: Rooms, room: string, owner: string, user: string, role: int)
    requires owner != user && IsPair(rooms, room, owner, user, OWNER, MEMBER) && role !in {0, OWNER}
    ensures IsPair(After(rooms, Call(SetRole(owner, room, user, role), true)), room, owner, user, OWNER, Narrow(role))
  {
  }

  lemma PairDemotes(rooms: Rooms, room: string, owner: string, user: string, other: int, demoter: string, role: int)
    requires owner != user && IsPair(rooms, room, owner, user, OWNER, other) && role !in {0, OWNER}
    requires demoter == owner || (demoter == user && other == OWNER)
    ensures var t := After(rooms, Call(SetRole(demoter, room, owner, role), true));
            IsPair(t, room, owner, user, Narrow(role), other)
  {
  }

  lemma PairKicks(rooms: Rooms, room: string, owner: string, user: string, role: int, other: int)
    requires owner != user && IsPair(rooms, room, owner, user, role, other) && CanKick(other, role)
    ensures var t := After(rooms, Call(Kick(user, room, owner), true));
            && room in t && t[room].ownerId == owner && owner !in t[room].roles
            && (room != "" ==>
                  RoleIn(After(t, Call(Join(owner, SYSTEM_USER, room, None), true)), room, owner) == Some(MEMBER))
  {
  }

  /** After it the room's owner is not a member of it; joining again makes them an ordinary one. */
  lemma OustingRuns(owner: string, user: string, room: string, first: int, demoter: string, second: int)
    requires owner != user && room != "" && first !in {0, OWNER} && second !in {0, OWNER}
    requires demoter == owner || (demoter == user && Narrow(first) == OWNER)
    requires CanKick(Narrow(first), Narrow(second))
    ensures var calls := Ousting(owner, user, room, first, demoter, second);
            var rooms := RunOf(calls);
            && room in rooms && rooms[room].ownerId == owner && owner !in rooms[room].roles
            && RoleIn(RunOf(calls + [Call(Join(owner, SYSTEM_USER, room, None), true)]), room, owner) == Some(MEMBER)
  {
    var calls := Ousting(owner, user, room, first, demoter, second);
    var c := [calls[0], calls[1]];
    PairForms(owner, user, room);
    RunExtends(c, calls[2]);
    RunExtends(c + [calls[2]], calls[3]);
    RunExtends(c + [calls[2]] + [calls[3]], calls[4]);
    RunExtends(calls, Call(Join(owner, SYSTEM_USER, room, None), true));
    assert c + [calls[2]] + [calls[3]] + [calls[4]] == calls;
    PairPromotes(RunOf(c), room, owner, user, first);
    var s3 := After(RunOf(c), calls[2]);
    PairDemotes(s3, room, owner, user, Narrow(first), demoter, second);
    PairKicks(After(s3, calls[3]), room, owner, user, Narrow(second), Narrow(first));
  }

  /** By a moderator, after the owner demoted themselves. */
  lemma OwnerKickedByModerator(owner: string, user: string, room: string)
    requires owner != user && room != ""
    ensures var rooms := RunOf(Ousting(owner, user, room, MODERATOR, owner, MEMBER));
            room in rooms && rooms[room].ownerId == owner && owner !in rooms[room].roles
  {
    OustingRuns(owner, user, room, MODERATOR, owner, MEMBER);
  }

  /** By the holder of a second owner row, who demotes the owner first. */
  lemma OwnerKickedBySecondOwner(owner: string, user: string, room: string)
    requires owner != user && room != ""
    ensures var rooms := RunOf(Ousting(owner, user, room, 0x1_0000 + OWNER, user, MODERATOR));
            room in rooms && rooms[room].ownerId == owner && owner !in rooms[room].roles
  {
    OustingRuns(owner, user, room, 0x1_0000 + OWNER, user, MODERATOR);
  }

  // ---- capacity ----------------------------------------------------------------------------------

  /** An update that sets a room's limit below its present count. */
  predicate Undercuts(rooms: Rooms, c: Call, r: string)
  {
    && Succeeds(rooms, c) && c.op.Update? && c.op.room == r && r in rooms
    && c.op.newMax.Some? && 0 < c.op.newMax.value < rooms[r].memberCount
  }

  /** A room within its capacity stays within it unless an update sets the limit below the present count. */
  lemma CapacityKeptIff(rooms: Rooms, c: Call, r: string)
    requires r in rooms && rooms[r].memberCount <= rooms[r].maxMembers && r in After(rooms, c)
    ensures After(rooms, c)[r].memberCount <= After(rooms, c)[r].maxMembers
       <==> !Undercuts(rooms, c, r)
  {
  }

  ghost predicate WithinLimit(rooms: Rooms, r: string)
  {
    r in rooms ==> rooms[r].memberCount <= rooms[r].maxMembers
  }

  lemma CallKeepsCapacity(rooms: Rooms, c: Call, r: string)
    requires WithinLimit(rooms, r) && !Undercuts(rooms, c, r)
    ensures WithinLimit(After(rooms, c), r)
  {
    if r in rooms && r in After(rooms, c) {
      CapacityKeptIff(rooms, c, r);
    }
  }

  /** So a room no update ever undercut is never over its limit. */
  lemma {:induction false} RunKeepsCapacity(calls: seq<Call>, r: string)
    requires forall k | 0 <= k < |calls| :: !Undercuts(RunOf(calls[..k]), calls[k], r)
    ensures WithinLimit(RunOf(calls), r)
  {
    if calls != [] {
      var n := |calls| - 1;
      forall k | 0 <= k < n
        ensures !Undercuts(RunOf(calls[..n][..k]), calls[..n][k], r)
      {
        assert calls[..n][..k] == calls[..k];
      }
      RunKeepsCapacity(calls[..n], r);
      CallKeepsCapacity(RunOf(calls[..n]), calls[n], r);
    }
  }

  // ---- grants over runs --------------------------------------------------------------------------

  /** The call grants: it replaces the user's mask. */
  predicate Grants(rooms: Rooms, c: Call, room: string, user: string)
  {
    Succeeds(rooms, c) && c.op.Grant? && c.op.room == room && c.op.target == user
  }

  /** A departure, a removal or the end of the room: what ends a membership and its grants. */
  predicate Ends(rooms: Rooms, c: Call, room: string, user: string)
  {
    && Succeeds(rooms, c)
    && ((c.op.Leave? && c.op.room == room && c.op.user == user)
        || (c.op.Kick? && c.op.room == room && c.op.target == user)
        || (c.op.Delete? && c.op.room == room))
  }

  ghost predicate GrantsAt(calls: seq<Call>, k: nat, room: string, user: string, v: int)
    requires k < |calls|
  {
    Grants(RunOf(calls[..k]), calls[k], room, user) && v in calls[k].op.values
  }

  ghost predicate SupersedesAt(calls: seq<Call>, k: nat, room: string, user: string)
    requires k < |calls|
  {
    Grants(RunOf(calls[..k]), calls[k], room, user) || Ends(RunOf(calls[..k]), calls[k], room, user)
  }

  /** Some grant named the permission and nothing superseded it since. */
  ghost predicate LastGrantHas(calls: seq<Call>, room: string, user: string, v: int)
  {
    exists k | 0 <= k < |calls| :: StillInForce(calls, k, room, user, v)
  }

  ghost predicate StillInForce(calls: seq<Call>, k: nat, room: string, user: string, v: int)
    requires k < |calls|
  {
    && GrantsAt(calls, k, room, user, v)
    && forall j | k < j < |calls| :: !SupersedesAt(calls, j, room, user)
  }

  predicate Permits(rooms: Rooms, room: string, user: string, v: int)
  {
    v in Permissions.Values(Granted(rooms, room, user))
  }

  /** What one call does to one user's stored mask. */
  lemma GrantedAfter(rooms: Rooms, c: Call, room: string, user: string)
    requires RoomsOk(rooms)
    ensures Granted(After(rooms, c), room, user) ==
            if Grants(rooms, c, room, user) then Permissions.Mask(c.op.values)
            else if Ends(rooms, c, room, user) then 0
            else Granted(rooms, room, user)
  {
    if Succeeds(rooms, c) && room == Target(c.op) {
      GrantedInTarget(rooms, c, user);
    }
  }

  lemma GrantedInTarget(rooms: Rooms, c: Call, user: string)
    requires RoomsOk(rooms) && Succeeds(rooms, c)
    ensures var room := Target(c.op);
            Granted(After(rooms, c), room, user) ==
            if Grants(rooms, c, room, user) then Permissions.Mask(c.op.values)
            else if Ends(rooms, c, room, user) then 0
            else Granted(rooms, room, user)
  {
    var room := Target(c.op);
    assert room in rooms ==> RoomOk(rooms[room]);
  }

  lemma PermitsAfter(rooms: Rooms, c: Call, room: string, user: string, v: int)
    requires RoomsOk(rooms) && Permissions.Known(v)
    ensures Permits(After(rooms, c), room, user, v) <==>
              if Grants(rooms, c, room, user) then v in c.op.values
              else Permits(rooms, room, user, v) && !Ends(rooms, c, room, user)
  {
    GrantedAfter(rooms, c, room, user);
    if Grants(rooms, c, room, user) {
      Permissions.ListRoundTrip(c.op.values, v);
    }
    Permissions.NothingListed(v);
  }

  lemma GrantStep(calls: seq<Call>, room: string, user: string, v: int)
    requires calls != [] && Permissions.Known(v)
    ensures var n := |calls| - 1;
            Permits(RunOf(calls), room, user, v) <==>
              GrantsAt(calls, n, room, user, v)
              || (Permits(RunOf(calls[..n]), room, user, v) && !SupersedesAt(calls, n, room, user))
  {
    var n := |calls| - 1;
    RunKeepsRooms(calls[..n]);
    PermitsAfter(RunOf(calls[..n]), calls[n], room, user, v);
  }

  /** One more call: an earlier grant stays in force unless the call supersedes it. */
  lemma ForceStep(calls: seq<Call>, k: nat, room: string, user: string, v: int)
    requires k < |calls| - 1
    ensures StillInForce(calls, k, room, user, v) <==>
            StillInForce(calls[..|calls| - 1], k, room, user, v) && !SupersedesAt(calls, |calls| - 1, room, user)
  {
    var n := |calls| - 1;
    var before := calls[..n];
    forall j | 0 <= j < n
      ensures SupersedesAt(before, j, room, user) == SupersedesAt(calls, j, room, user)
      ensures GrantsAt(before, j, room, user, v) == GrantsAt(calls, j, room, user, v)
    {
      assert before[..j] == calls[..j];
    }
  }

  lemma LastGrantStep(calls: seq<Call>, room: string, user: string, v: int)
    requires calls != []
    ensures var n := |calls| - 1;
            LastGrantHas(calls, room, user, v) <==>
              GrantsAt(calls, n, room, user, v)
              || (LastGrantHas(calls[..n], room, user, v) && !SupersedesAt(calls, n, room, user))
  {
    var n := |calls| - 1;
    forall k | 0 <= k < n
      ensures StillInForce(calls, k, room, user, v) <==>
              StillInForce(calls[..n], k, room, user, v) && !SupersedesAt(calls, n, room, user)
    {
      ForceStep(calls, k, room, user, v);
    }
    assert StillInForce(calls, n, room, user, v) <==> GrantsAt(calls, n, room, user, v);
  }

  /** After every run, a stored permission is exactly one named in the last grant still in force. */
  lemma {:induction false} LastGrantRules(calls: seq<Call>, room: string, user: string, v: int)
    requires Permissions.Known(v)
    ensures Permits(RunOf(calls), room, user, v) <==> LastGrantHas(calls, room, user, v)
  {
    if calls == [] {
      Permissions.NothingListed(v);
    } else {
      LastGrantRules(calls[..|calls| - 1], room, user, v);
      GrantStep(calls, room, user, v);
      LastGrantStep(calls, room, user, v);
    }
  }

  /** A grant in force means membership: whoever left and came back starts with nothing. */
  lemma GrantsNeedMembership(calls: seq<Call>, room: string, user: string, v: int)
    requires Permissions.Known(v) && LastGrantHas(calls, room, user, v)
    ensures IsMember(RunOf(calls), room, user) && RunOf(calls)[room].ownerId != user
  {
    LastGrantRules(calls, room, user, v);
    RunKeepsRooms(calls);
    Permissions.NothingListed(v);
    var rooms := RunOf(calls);
    assert room in rooms && RoomOk(rooms[room]);
  }

  lemma ForceOfPrefix(calls: seq<Call>, k: nat, m: nat, room: string, user: string, v: int)
    requires k < m <= |calls| && StillInForce(calls, k, room, user, v)
    ensures StillInForce(calls[..m], k, room, user, v)
    decreases |calls| - m
  {
    if m == |calls| {
      assert calls[..m] == calls;
    } else {
      ForceOfPrefix(calls, k, m + 1, room, user, v);
      assert calls[..m + 1][..m] == calls[..m];
      ForceStep(calls[..m + 1], k, room, user, v);
    }
  }

  /** The grant in force was given during the present membership: every join since was a join of a member. */
  lemma GrantSinceLatestJoin(calls: seq<Call>, k: nat, j: nat, room: string, user: string, v: int)
    requires Permissions.Known(v) && k < j < |calls| && StillInForce(calls, k, room, user, v)
    requires calls[j].op.Join? && calls[j].op.room == room && calls[j].op.user == user
    ensures IsMember(RunOf(calls[..j]), room, user) && RunOf(calls[..j + 1]) == RunOf(calls[..j])
  {
    ForceOfPrefix(calls, k, j, room, user, v);
    GrantsNeedMembership(calls[..j], room, user, v);
    assert calls[..j + 1][..j] == calls[..j];
  }
}
