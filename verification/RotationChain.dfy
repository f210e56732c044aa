/**
 What every serial run of logins, refreshes and logouts keeps: each family is one chain with at most
 its last token usable, a token rotates at most once, and what the reuse branch really does.
 */
module RotationChain {
  import opened Options
  import opened RefreshTokens

  /** The tokens of a family, oldest first. */
  function FamilyOf(store: seq<Token>, family: string): seq<Token>
  {
    if store == [] then []
    else
      var n := |store| - 1;
      FamilyOf(store[..n], family) + if store[n].family == family then [store[n]] else []
  }

  /** One chain: a root, each next token rotated from the one before, all but the last used up. */
  ghost predicate IsChain(c: seq<Token>)
  {
    c != [] ==>
      && c[0].rotatedFrom == ""
      && (forall k | 1 <= k < |c| :: c[k].rotatedFrom == c[k - 1].id)
      && (forall k | 0 <= k < |c| - 1 :: c[k].status.Used?)
      && (c[|c| - 1].status.Active? || c[|c| - 1].status.Revoked?)
  }

  ghost predicate Chained(store: seq<Token>)
  {
    forall family: string :: IsChain(FamilyOf(store, family))
  }

  ghost predicate Unique(store: seq<Token>)
  {
    forall i, j | 0 <= i < j < |store| :: store[i].id != store[j].id && store[i].selector != store[j].selector
  }

  // ---- families and table updates ----------------------------------------------------------------

  lemma {:induction false} FamilyMember(store: seq<Token>, i: nat)
    requires i < |store|
    ensures store[i] in FamilyOf(store, store[i].family)
    decreases |store|
  {
    var n := |store| - 1;
    if i < n {
      FamilyMember(store[..n], i);
    }
  }

  /** In a chained table, a token with a later one in its family is used. */
  lemma {:induction false} EarlierIsUsed(store: seq<Token>, i: nat, j: nat)
    requires i < j < |store| && store[i].family == store[j].family && IsChain(FamilyOf(store, store[i].family))
    ensures store[i].status.Used?
    decreases |store|
  {
    var n := |store| - 1;
    var family := store[i].family;
    var c, c' := FamilyOf(store, family), FamilyOf(store[..n], family);
    if store[n].family == family {
      FamilyMember(store[..n], i);
      var k :| 0 <= k < |c'| && c'[k] == store[i];
      assert c[k] == store[i];
    } else {
      assert c == c' && store[..n][i] == store[i] && store[..n][j] == store[j];
      EarlierIsUsed(store[..n], i, j);
    }
  }

  ghost predicate IsLatest(store: seq<Token>, i: nat)
  {
    i < |store| && forall j | i < j < |store| :: store[j].family != store[i].family
  }

  lemma ActiveIsLatest(store: seq<Token>, i: nat)
    requires Chained(store) && i < |store| && store[i].status.Active?
    ensures IsLatest(store, i)
  {
    forall j | i < j < |store|
      ensures store[j].family != store[i].family
    {
      if store[j].family == store[i].family {
        assert IsChain(FamilyOf(store, store[i].family));
        EarlierIsUsed(store, i, j);
      }
    }
  }

  lemma {:induction false} UpdateLatest(store: seq<Token>, i: nat, t: Token, family: string)
    requires IsLatest(store, i) && t.family == store[i].family
    ensures var c, c' := FamilyOf(store, family), FamilyOf(store[i := t], family);
            if family == t.family then c != [] && c[|c| - 1] == store[i] && c' == c[..|c| - 1] + [t] else c' == c
    decreases |store|
  {
    var n := |store| - 1;
    var later := store[i := t];
    if i == n {
      assert later[..n] == store[..n];
    } else {
      assert later[..n] == store[..n][i := t] && later[n] == store[n];
      UpdateLatest(store[..n], i, t, family);
      assert FamilyOf(store, family)
          == FamilyOf(store[..n], family) + if store[n].family == family then [store[n]] else [];
    }
  }

  lemma FamilyAppend(store: seq<Token>, t: Token, family: string)
    ensures FamilyOf(store + [t], family) == FamilyOf(store, family) + if t.family == family then [t] else []
  {
    assert (store + [t])[..|store|] == store;
  }

  // ---- the events --------------------------------------------------------------------------------

  datatype Event =
    | Login(root: Token)
    | Refresh(request: Request)
    | Logout(presented: string, now: int, commits: bool)

  function Apply(store: seq<Token>, e: Event): seq<Token>
  {
    match e
    case Login(root) => if Clashes(store, root) then store else store + [root]
    case Refresh(q) => Refreshed(store, q)
    case Logout(presented, now, commits) => LoggedOut(store, presented, now, commits)
  }

  /** A login roots a new family with an active token of no ancestor. */
  predicate EventOk(store: seq<Token>, e: Event)
  {
    e.Login? ==>
      && e.root.status.Active? && e.root.rotatedFrom == ""
      && forall i | 0 <= i < |store| :: store[i].family != e.root.family
  }

  ghost predicate Runs(store: seq<Token>, es: seq<Event>)
    decreases |es|
  {
    es == [] || (EventOk(store, es[0]) && Runs(Apply(store, es[0]), es[1..]))
  }

  function RunOf(store: seq<Token>, es: seq<Event>): seq<Token>
    decreases |es|
  {
    if es == [] then store else RunOf(Apply(store, es[0]), es[1..])
  }

  // ---- the chain ---------------------------------------------------------------------------------

  lemma {:induction false} FreshFamilyEmpty(store: seq<Token>, family: string)
    requires forall i | 0 <= i < |store| :: store[i].family != family
    ensures FamilyOf(store, family) == []
  {
    if store != [] {
      FreshFamilyEmpty(store[..|store| - 1], family);
    }
  }

  lemma LoginKeepsChains(store: seq<Token>, root: Token)
    requires Chained(store) && EventOk(store, Login(root))
    ensures Chained(store + [root])
  {
    FreshFamilyEmpty(store, root.family);
    forall family: string
      ensures IsChain(FamilyOf(store + [root], family))
    {
      FamilyAppend(store, root, family);
      assert IsChain(FamilyOf(store, family));
    }
  }

  lemma RotationKeepsChains(store: seq<Token>, i: nat, q: Request)
    requires Chained(store) && i < |store| && store[i].status.Active?
    ensures Chained(RotatedStore(store, i, q))
  {
    ActiveIsLatest(store, i);
    var used := store[i].(status := Used, usedAt := Some(q.now));
    forall family: string
      ensures IsChain(FamilyOf(RotatedStore(store, i, q), family))
    {
      UpdateLatest(store, i, used, family);
      FamilyAppend(store[i := used], Minted(store[i], q), family);
      assert IsChain(FamilyOf(store, family));
    }
  }

  lemma RevocationKeepsChains(store: seq<Token>, i: nat, now: int)
    requires Chained(store) && i < |store| && store[i].status.Active?
    ensures Chained(store[i := store[i].(status := Revoked, revokedAt := Some(now))])
  {
    ActiveIsLatest(store, i);
    var t := store[i].(status := Revoked, revokedAt := Some(now));
    var later := store[i := t];
    forall family: string
      ensures IsChain(FamilyOf(later, family))
    {
      UpdateLatest(store, i, t, family);
      assert IsChain(FamilyOf(store, family));
    }
  }

  lemma EventKeepsChains(store: seq<Token>, e: Event)
    requires Chained(store) && Unique(store) && EventOk(store, e)
    ensures Chained(Apply(store, e)) && Unique(Apply(store, e))
  {
    match e {
      case Login(root) =>
        if !Clashes(store, root) {
          LoginKeepsChains(store, root);
        }
      case Refresh(q) =>
        if ReplyTo(store, q).Rotated? {
          RotationKeepsChains(store, Lookup(store, q.presented).value, q);
        }
      case Logout(presented, now, commits) =>
        if LoggedOut(store, presented, now, commits) != store {
          RevocationKeepsChains(store, Lookup(store, presented).value, now);
        }
    }
  }

  /** In every reachable table each family is one chain, only its last token possibly active. */
  lemma {:induction false} RunsKeepChains(store: seq<Token>, es: seq<Event>)
    requires Chained(store) && Unique(store) && Runs(store, es)
    ensures Chained(RunOf(store, es)) && Unique(RunOf(store, es))
    decreases |es|
  {
    if es != [] {
      EventKeepsChains(store, es[0]);
      RunsKeepChains(Apply(store, es[0]), es[1..]);
    }
  }

  // ---- tokens only wear out ----------------------------------------------------------------------

  /** Rows are never removed or relabelled, and one that is not active stays as it is. */
  ghost predicate WornFrom(store: seq<Token>, later: seq<Token>)
  {
    && |store| <= |later|
    && forall i | 0 <= i < |store| ::
         && later[i].id == store[i].id && later[i].selector == store[i].selector && later[i].family == store[i].family
         && (!store[i].status.Active? ==> later[i] == store[i])
  }

  lemma EventWears(store: seq<Token>, e: Event)
    ensures WornFrom(store, Apply(store, e))
  {
  }

  lemma {:induction false} RunsWear(store: seq<Token>, es: seq<Event>)
    ensures WornFrom(store, RunOf(store, es))
    decreases |es|
  {
    if es != [] {
      EventWears(store, es[0]);
      RunsWear(Apply(store, es[0]), es[1..]);
    }
  }

  /** A selector finds its row. */
  lemma LookupFinds(store: seq<Token>, i: nat, presented: string)
    requires Unique(store) && i < |store| && store[i].selector == Split(presented).0 != ""
    ensures Lookup(store, presented) == Some(i)
  {
    FindSpec(store, Split(presented).0);
    var j := Lookup(store, presented);
    assert j.Some? ==> j.value == i;
  }

  lemma RotationUsesUp(store: seq<Token>, q: Request)
    requires ReplyTo(store, q).Rotated?
    ensures Split(q.presented).0 != "" && Lookup(store, q.presented).Some?
    ensures var i := Lookup(store, q.presented).value;
            && i < |store| <= |Refreshed(store, q)|
            && Refreshed(store, q)[i] == store[i].(status := Used, usedAt := Some(q.now))
  {
  }

  /** A rotated row is, ever after, the row its selector finds, used and otherwise as it was. */
  lemma RotatedRowStays(store: seq<Token>, q: Request, es: seq<Event>, presented: string)
    requires Chained(store) && Unique(store) && ReplyTo(store, q).Rotated?
    requires Runs(Refreshed(store, q), es) && Split(presented).0 == Split(q.presented).0
    ensures Lookup(store, q.presented).Some?
    ensures var i := Lookup(store, q.presented).value;
            var later := RunOf(Refreshed(store, q), es);
            && i < |later| && Lookup(later, presented) == Some(i)
            && later[i] == store[i].(status := Used, usedAt := Some(q.now))
  {
    var i := Lookup(store, q.presented).value;
    var s := Refreshed(store, q);
    RotationUsesUp(store, q);
    assert Unique(RunOf(s, es)) by {
      EventKeepsChains(store, Refresh(q));
      RunsKeepChains(s, es);
    }
    RunsWear(s, es);
    LookupFinds(RunOf(s, es), i, presented);
  }

  /** A token that was rotated once is never rotated again, whatever happens in between. */
  lemma RotatesAtMostOnce(store: seq<Token>, q: Request, es: seq<Event>, again: Request)
    requires Chained(store) && Unique(store) && ReplyTo(store, q).Rotated?
    requires Runs(Refreshed(store, q), es) && Split(again.presented).0 == Split(q.presented).0
    ensures !ReplyTo(RunOf(Refreshed(store, q), es), again).Rotated?
  {
    RotatedRowStays(store, q, es, again.presented);
  }

  // ---- reuse detection ---------------------------------------------------------------------------

  /** No reachable table holds a compromised token: the family revocation never survives. */
  lemma {:induction false} NothingEverCompromised(es: seq<Event>)
    requires Runs([], es)
    ensures forall i | 0 <= i < |RunOf([], es)| :: !RunOf([], es)[i].status.Compromised?
  {
    var store := RunOf([], es);
    RunsKeepChains([], es);
    forall i | 0 <= i < |store|
      ensures !store[i].status.Compromised?
    {
      FamilyMember(store, i);
      var c := FamilyOf(store, store[i].family);
      assert IsChain(c);
      var k :| 0 <= k < |c| && c[k] == store[i];
    }
  }

  /** A rotated token presented again is reported as reuse exactly while unexpired and the database answers. */
  lemma ReuseDetectedIff(store: seq<Token>, q: Request, es: seq<Event>, again: Request)
    requires Chained(store) && Unique(store) && ReplyTo(store, q).Rotated?
    requires Runs(Refreshed(store, q), es) && Split(again.presented) == Split(q.presented)
    requires forall hash :: again.compare(hash, Split(q.presented).1) == q.compare(hash, Split(q.presented).1)
    ensures Lookup(store, q.presented).Some?
    ensures ReplyTo(RunOf(Refreshed(store, q), es), again).ReuseDetected? <==>
              && again.now < store[Lookup(store, q.presented).value].expiresAt
              && !again.fault.LookupFails? && !again.fault.RevokeFails?
  {
    RotatedRowStays(store, q, es, again.presented);
  }

  /**
   A detected reuse is reported and nothing else: the table is what it was, the family is not burned,
   and whichever request would have rotated the family's live token before still rotates it after.
   The documented family-wide revocation would have marked every token of the family.
   */
  lemma ReuseLeavesFamilyAlive(es: seq<Event>, q: Request, other: Request)
    requires Runs([], es) && ReplyTo(RunOf([], es), q).ReuseDetected?
    ensures var store := RunOf([], es);
            var t := store[Lookup(store, q.presented).value];
            && Refreshed(store, q) == store
            && t in Refreshed(store, q) && !t.status.Compromised?
            && (forall u | u in FamilyRevoked(store, t.family, q.now) && u.family == t.family :: u.status.Compromised?)
            && ReplyTo(Refreshed(store, q), other) == ReplyTo(store, other)
  {
    NothingEverCompromised(es);
  }

  /** A call with a token's selector and any validator accepted, bringing a new id and selector. */
  function Presenting(selector: string, id: string, next: string): Request
  {
    Request(Presentation(selector, "v"), 0, (hash, validator) => true, ActiveUser, id, next, "h", 10, NoFault)
  }

  lemma PresentedRotates(store: seq<Token>, i: nat, selector: string, id: string, next: string)
    requires Unique(store) && i < |store| && store[i].selector == selector != "" && '.' !in selector
    requires store[i].status.Active? && store[i].expiresAt > 0
    requires forall j | 0 <= j < |store| :: store[j].id != id && store[j].selector != next
    ensures ReplyTo(store, Presenting(selector, id, next)) == Rotated(store[i].id, id)
    ensures Refreshed(store, Presenting(selector, id, next)) == RotatedStore(store, i, Presenting(selector, id, next))
  {
    var q := Presenting(selector, id, next);
    SplitPresentationIff(q.presented, selector, "v");
    LookupFinds(store, i, q.presented);
    assert !Clashes(store, Minted(store[i], q));
  }

  lemma {:induction false} RunExtends(store: seq<Token>, es: seq<Event>, e: Event)
    requires Runs(store, es) && EventOk(RunOf(store, es), e)
    ensures Runs(store, es + [e]) && RunOf(store, es + [e]) == Apply(RunOf(store, es), e)
    decreases |es|
  {
    if es == [] {
      assert es + [e] == [e] && [e][1..] == [];
    } else {
      assert (es + [e])[1..] == es[1..] + [e];
      RunExtends(Apply(store, es[0]), es[1..], e);
    }
  }

  /** A login token, the ids and selectors of its successors, all different and well formed. */
  predicate Fresh(root: Token, id: string, id': string, next: string, next': string)
  {
    && root.status.Active? && root.rotatedFrom == "" && root.expiresAt > 0
    && root.id != id && id != id' && root.id != id'
    && root.selector != "" && '.' !in root.selector && next != "" && '.' !in next
    && root.selector != next && next != next' && root.selector != next'
  }

  lemma LoginRuns(root: Token)
    requires root.status.Active? && root.rotatedFrom == ""
    ensures Runs([], [Login(root)]) && RunOf([], [Login(root)]) == [root]
  {
    RunExtends([], [], Login(root));
    assert [] + [Login(root)] == [Login(root)] && [] + [root] == [root];
  }

  /** Login, then refresh: the run and the two rows it leaves. */
  lemma LoginThenRefresh(root: Token, id: string, id': string, next: string, next': string) returns (store: seq<Token>)
    requires Fresh(root, id, id', next, next')
    ensures var q := Presenting(root.selector, id, next);
            var es := [Login(root), Refresh(q)];
            && Runs([], es) && RunOf([], es) == store
            && store == [root.(status := Used, usedAt := Some(0)), Minted(root, q)]
            && ReplyTo(RunOf([], es[..1]), q).Rotated?
  {
    var q := Presenting(root.selector, id, next);
    var es := [Login(root), Refresh(q)];
    store := RotatedStore([root], 0, q);
    LoginRuns(root);
    assert es[..1] == [Login(root)] && es[..1] + [es[1]] == es;
    PresentedRotates([root], 0, root.selector, id, next);
    RunExtends([], es[..1], es[1]);
  }

  /**
   Login, refresh, the spent token once more: the reuse is reported, and the token it was rotated into
   still rotates.
   */
  lemma FamilySurvivesReuse(root: Token, id: string, id': string, next: string, next': string)
    requires Fresh(root, id, id', next, next')
    ensures var spend, again := Presenting(root.selector, id, next), Presenting(root.selector, id', next');
            var es := [Login(root), Refresh(spend)];
            && Runs([], es + [Refresh(again)])
            && ReplyTo(RunOf([], es[..1]), spend).Rotated?
            && ReplyTo(RunOf([], es), again).ReuseDetected?
            && ReplyTo(RunOf([], es + [Refresh(again)]), Presenting(next, id', next')) == Rotated(id, id')
  {
    var store := LoginThenRefresh(root, id, id', next, next');
    var es := [Login(root), Refresh(Presenting(root.selector, id, next))];
    var again := Presenting(root.selector, id', next');
    SplitPresentationIff(again.presented, root.selector, "v");
    LookupFinds(store, 0, again.presented);
    RunExtends([], es, Refresh(again));
    PresentedRotates(store, 1, next, id', next');
  }
}
