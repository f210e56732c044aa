/**
 Who may do what in a room and how they came to be in it, over every run of the room tables and in terms
 of the calls made: members joined and were let in, owners created their room, roles decide who manages.
 */
module MembershipRules {
  import opened Options
  import opened Membership

  // ---- how members came in -----------------------------------------------------------------------

  /** Call k is a join that let the user in: an account, room left, and an invite to a private room. */
  ghost predicate LetIn(calls: seq<Call>, k: nat, room: string, user: string)
  {
    && k < |calls| && calls[k].commits && calls[k].op.Join? && calls[k].op.room == room && calls[k].op.user == user
    && calls[k].op.system >= 2
    && (var rooms := RunOf(calls[..k]);
        && room in rooms && user !in rooms[room].roles && rooms[room].memberCount < rooms[room].maxMembers
        && (rooms[room].visibility == 3 ==> calls[k].op.invitedTo == Some(room)))
  }

  /** Call k created the room for the user. */
  ghost predicate CreatedBy(calls: seq<Call>, k: nat, room: string, user: string)
  {
    && k < |calls| && calls[k].commits && calls[k].op.Create? && calls[k].op.id == room && calls[k].op.user == user
    && calls[k].op.system >= 2 && 1 <= calls[k].op.nameLength <= 100
    && room !in RunOf(calls[..k])
  }

  /** Nothing since call k removed the user's row. */
  ghost predicate StayedSince(calls: seq<Call>, k: nat, room: string, user: string)
  {
    forall j | k < j < |calls| :: !TouchAt(calls, j, room, user).Removed?
  }

  ghost predicate CameIn(calls: seq<Call>, k: nat, room: string, user: string)
  {
    (LetIn(calls, k, room, user) || CreatedBy(calls, k, room, user)) && StayedSince(calls, k, room, user)
  }

  lemma CameInStep(calls: seq<Call>, k: nat, room: string, user: string)
    requires calls != [] && CameIn(calls[..|calls| - 1], k, room, user)
    requires !TouchAt(calls, |calls| - 1, room, user).Removed?
    ensures CameIn(calls, k, room, user)
  {
    var n := |calls| - 1;
    assert calls[..n][..k] == calls[..k] && calls[..n][k] == calls[k];
    forall j | k < j < n
      ensures !TouchAt(calls, j, room, user).Removed?
    {
      TouchOfPrefix(calls, j, n, room, user);
    }
  }

  /** After every run each member created the room or was let in by a join, and was not removed since. */
  lemma {:induction false} MembersCameIn(calls: seq<Call>, room: string, user: string)
    ensures IsMember(RunOf(calls), room, user) ==> exists k: nat :: CameIn(calls, k, room, user)
  {
    if calls != [] && IsMember(RunOf(calls), room, user) {
      var n := |calls| - 1;
      var before := RunOf(calls[..n]);
      RoleAfter(before, calls[n], room, user);
      if IsMember(before, room, user) {
        MembersCameIn(calls[..n], room, user);
        var k: nat :| CameIn(calls[..n], k, room, user);
        CameInStep(calls, k, room, user);
      } else {
        assert LetIn(calls, n, room, user) || CreatedBy(calls, n, room, user);
        assert CameIn(calls, n, room, user);
      }
    }
  }

  /** A join lets a newcomer in exactly then, as an ordinary member; a member's join changes nothing. */
  lemma JoinLetsInIff(calls: seq<Call>, user: string, system: int, room: string, invitedTo: Option<string>)
    ensures var c := Call(Join(user, system, room, invitedTo), true);
            var before, after := RunOf(calls), RunOf(calls + [c]);
            if IsMember(before, room, user) then after == before
            else if room != "" && LetIn(calls + [c], |calls|, room, user)
            then RoleIn(after, room, user) == Some(2) && after[room].memberCount == before[room].memberCount + 1
            else after == before
  {
    var c := Call(Join(user, system, room, invitedTo), true);
    RunExtends(calls, c);
    assert (calls + [c])[..|calls|] == calls;
    assert IsMember(RunOf(calls), room, user) ==> RunOf(calls)[room := RunOf(calls)[room]] == RunOf(calls);
  }

  /** So in a room private whenever anyone joined, every member but its creator came with an invite to it. */
  lemma PrivateMembersWereInvited(calls: seq<Call>, room: string, user: string)
    requires IsMember(RunOf(calls), room, user)
    requires forall k | 0 <= k < |calls| && calls[k].op.Join? && room in RunOf(calls[..k]) ::
               RunOf(calls[..k])[room].visibility == 3
    ensures exists k: nat :: CameIn(calls, k, room, user)
              && (CreatedBy(calls, k, room, user) || calls[k].op == Join(user, calls[k].op.system, room, Some(room)))
  {
    MembersCameIn(calls, room, user);
  }

  // ---- who owns ----------------------------------------------------------------------------------

  /** After every run a room's owner is whoever created it last. */
  lemma {:induction false} OwnerIsCreator(calls: seq<Call>, room: string)
    requires room in RunOf(calls)
    ensures exists k: nat :: CreatedBy(calls, k, room, RunOf(calls)[room].ownerId)
              && forall j | k < j <= |calls| :: room in RunOf(calls[..j])
  {
    var n := |calls| - 1;
    var before, owner := RunOf(calls[..n]), RunOf(calls)[room].ownerId;
    assert calls[..|calls|] == calls;
    if room in before {
      OwnerIsCreator(calls[..n], room);
      var k: nat :| CreatedBy(calls[..n], k, room, before[room].ownerId)
        && forall j | k < j <= n :: room in RunOf(calls[..n][..j]);
      assert calls[..n][..k] == calls[..k];
      forall j | k < j <= |calls|
        ensures room in RunOf(calls[..j])
      {
        if j <= n {
          assert calls[..n][..j] == calls[..j];
        }
      }
      OwnerStays(before, calls[n], room);
      assert CreatedBy(calls, k, room, owner);
    } else {
      assert CreatedBy(calls, n, room, owner);
    }
  }

  lemma OwnerStays(rooms: Rooms, c: Call, room: string)
    requires room in rooms && room in After(rooms, c)
    ensures After(rooms, c)[room].ownerId == rooms[room].ownerId
  {
  }

  // ---- what roles allow --------------------------------------------------------------------------

  /** After every run: roles are changed by whoever was last stored role 4, to any role but 0 and 4. */
  lemma PromotionIff(calls: seq<Call>, user: string, room: string, target: string, role: int)
    ensures Judged(RunOf(calls), SetRole(user, room, target, role)).Done? <==>
              LastStored(calls, room, user, 4) && role != 0 && role != 4 && IsMember(RunOf(calls), room, target)
  {
    RoleIsLastStored(calls, room, user, 4);
  }

  /** After every run: administrators and whoever was last stored a role of 4 or more manage the room. */
  lemma ManagementIff(calls: seq<Call>, user: string, system: int, room: string)
    ensures MayManage(RunOf(calls), room, user, system) <==>
              system >= 4 || exists role | role >= 4 :: LastStored(calls, room, user, role)
  {
    var rooms := RunOf(calls);
    if IsMember(rooms, room, user) {
      RoleIsLastStored(calls, room, user, rooms[room].roles[user]);
    }
    if exists role | role >= 4 :: LastStored(calls, room, user, role) {
      var role :| role >= 4 && LastStored(calls, room, user, role);
      RoleIsLastStored(calls, room, user, role);
    }
  }

  /** After every run: grants are the owner's to give, to members other than themselves. */
  lemma GrantingIff(calls: seq<Call>, user: string, room: string, target: string, values: seq<int>)
    ensures Judged(RunOf(calls), Grant(user, room, target, values)).Done? <==>
              && room in RunOf(calls) && user == RunOf(calls)[room].ownerId
              && target != user && IsMember(RunOf(calls), room, target)
  {
  }

  // ---- settings ----------------------------------------------------------------------------------

  /** A limit or a visibility given takes effect and stays until another; a new room has limit 50 and is public. */
  lemma SettingsFollowCalls(rooms: Rooms, c: Call, r: string)
    requires r in After(rooms, c)
    ensures var row := After(rooms, c)[r];
            var creates := Succeeds(rooms, c) && c.op.Create? && c.op.id == r;
            var updates := Succeeds(rooms, c) && c.op.Update? && c.op.room == r;
            var limit := if creates then c.op.maxMembers else if updates then c.op.newMax else None;
            && (limit.Some? && limit.value > 0 ==> row.maxMembers == limit.value)
            && (!(limit.Some? && limit.value > 0) ==>
                  if creates then row.maxMembers == 50 else r in rooms && row.maxMembers == rooms[r].maxMembers)
            && (creates && c.op.visibility in {1, 2, 3} ==> row.visibility == c.op.visibility)
            && (creates && c.op.visibility == 0 ==> row.visibility == 1)
            && (updates && c.op.newVisibility.Some? && c.op.newVisibility.value in {1, 2, 3} ==>
                  row.visibility == c.op.newVisibility.value)
            && (!creates && (!updates || c.op.newVisibility in {None, Some(0)}) ==>
                  r in rooms && row.visibility == rooms[r].visibility)
  {
  }
}
