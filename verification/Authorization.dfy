/** Who may issue a playback command: host, owner, and whoever the Room Service says holds the grant. */
module Authorization {
  import opened Options
  import opened SyncStates
  import opened Membership
  import Permissions

  /** The permission a guest needs for a kind of command; none admits the kinds the switch has no case for. */
  function CommandPermission(c: Command): Option<int>
  {
    match c
    case Seek(_) => Some(Permissions.SEEK)
    case Play => Some(Permissions.PAUSE_PLAY)
    case Pause => Some(Permissions.PAUSE_PLAY)
    case SetRate(_) => Some(Permissions.PAUSE_PLAY)
    case LoadMedia(_) => Some(Permissions.SWITCH_QUEUE)
    case Next => Some(Permissions.SWITCH_QUEUE)
    case Previous => Some(Permissions.SWITCH_QUEUE)
    case Unknown => None
  }

  datatype Verdict = Allowed | Forbidden | CheckFailed

  /** What the command handler decides, given the sync state's host and owner and the Room Service's tables. */
  function Authorized(rooms: Rooms, host: string, owner: string, room: string, user: string, c: Command): Verdict
  {
    if user == host || user == owner then Allowed
    else match CommandPermission(c)
      case None => Forbidden
      case Some(v) =>
        if room == "" || user == "" || room !in rooms then CheckFailed
        else if rooms[room].ownerId == user || Permits(rooms, room, user, v) then Allowed
        else Forbidden
  }

  /** The client of the Room Service; None is an error. */
  method Has(service: RoomService, room: string, user: string, perm: int) returns (r: Option<bool>)
    ensures r == if room == "" || user == "" || room !in service.rooms then None
                 else Some(service.rooms[room].ownerId == user || Permits(service.rooms, room, user, perm))
  {
    if room == "" || user == "" {
      return None;
    }
    var answer := service.GetMemberPermissions(room, user);
    if answer.None? {
      return None;
    }
    var (values, isOwner) := answer.value;
    if isOwner {
      return Some(true);
    }
    for i := 0 to |values|
      invariant perm !in values[..i]
    {
      if values[i] == perm {
        return Some(true);
      }
    }
    assert values[..|values|] == values;
    return Some(false);
  }

  method AuthorizeCommand(service: RoomService, host: string, owner: string, room: string, user: string, c: Command)
    returns (r: Verdict)
    ensures r == Authorized(service.rooms, host, owner, room, user, c)
  {
    if user == host || user == owner {
      return Allowed;
    }
    var perm := CommandPermission(c);
    if perm.None? {
      return Forbidden;
    }
    var allowed := Has(service, room, user, perm.value);
    if allowed.None? {
      return CheckFailed;
    }
    return if allowed.value then Allowed else Forbidden;
  }

  /**
   After every serial run of the Room Service: a named user of an existing room who is neither host nor
   owner may issue a kind of command exactly when its permission is in the last grant they were given
   since they last became a member.
   */
  lemma GrantsAndCommandsAgree(calls: seq<Call>, host: string, owner: string, room: string, user: string, c: Command)
    requires room != "" && room in RunOf(calls)
    requires user !in {"", host, owner, RunOf(calls)[room].ownerId}
    ensures Authorized(RunOf(calls), host, owner, room, user, c).Allowed? <==>
            CommandPermission(c).Some? && LastGrantHas(calls, room, user, CommandPermission(c).value)
  {
    if CommandPermission(c).Some? {
      LastGrantRules(calls, room, user, CommandPermission(c).value);
    }
  }

  /** Someone who is neither host nor owner on either side and is not a member is never allowed. */
  lemma OutsidersNeverCommand(calls: seq<Call>, host: string, owner: string, room: string, user: string, c: Command)
    requires !IsMember(RunOf(calls), room, user) && user !in {host, owner}
    requires room in RunOf(calls) ==> RunOf(calls)[room].ownerId != user
    ensures !Authorized(RunOf(calls), host, owner, room, user, c).Allowed?
  {
    var v := CommandPermission(c);
    if v.Some? {
      LastGrantRules(calls, room, user, v.value);
      if LastGrantHas(calls, room, user, v.value) {
        GrantsNeedMembership(calls, room, user, v.value);
      }
    }
  }

  /**
   The table of who may do what, after every run, for a named user of an existing room who is neither
   host nor owner: seeking takes permission 1; playing, pausing and setting the rate permission 2;
   loading, next and previous permission 3; any other kind is for nobody else.
   */
  lemma CommandTable(calls: seq<Call>, host: string, owner: string, room: string, user: string, c: Command)
    requires room != "" && room in RunOf(calls)
    requires user !in {"", host, owner, RunOf(calls)[room].ownerId}
    ensures var allowed := Authorized(RunOf(calls), host, owner, room, user, c).Allowed?;
            match c
            case Seek(_) => allowed <==> LastGrantHas(calls, room, user, 1)
            case Play => allowed <==> LastGrantHas(calls, room, user, 2)
            case Pause => allowed <==> LastGrantHas(calls, room, user, 2)
            case SetRate(_) => allowed <==> LastGrantHas(calls, room, user, 2)
            case LoadMedia(_) => allowed <==> LastGrantHas(calls, room, user, 3)
            case Next => allowed <==> LastGrantHas(calls, room, user, 3)
            case Previous => allowed <==> LastGrantHas(calls, room, user, 3)
            case Unknown => !allowed
  {
    GrantsAndCommandsAgree(calls, host, owner, room, user, c);
  }

  /** Host and owner may do anything; without them a room the Room Service does not know answers no command. */
  lemma HostAndOwnerAlways(rooms: Rooms, host: string, owner: string, room: string, user: string, c: Command)
    ensures user == host || user == owner ==> Authorized(rooms, host, owner, room, user, c).Allowed?
    ensures room in rooms && room != "" && user != "" && rooms[room].ownerId == user && !c.Unknown? ==>
              Authorized(rooms, host, owner, room, user, c).Allowed?
    ensures user != host && user != owner && room !in rooms ==> !Authorized(rooms, host, owner, room, user, c).Allowed?
  {
  }
}
