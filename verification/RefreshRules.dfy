/**
 The refresh call in terms of what was presented and the rows of the table: when it rotates, what the
 rotation writes, and every other answer; and what a wrong validator or a logout means for good.
 */
module RefreshRules {
  import opened Options
  import opened RefreshTokens
  import opened RotationChain

  /** The request presents this selector with this validator, as handed out at login or rotation. */
  predicate Presents(q: Request, selector: string, validator: string)
  {
    selector != "" && '.' !in selector && validator != "" && q.presented == selector + "." + validator
  }

  /** Row i has the selector and its hash is accepted for the validator. */
  predicate Accepted(store: seq<Token>, q: Request, i: nat, selector: string, validator: string)
  {
    i < |store| && store[i].selector == selector && q.compare(store[i].validatorHash, validator)
  }

  /** No row has the new id or the new selector. */
  predicate NewIsFree(store: seq<Token>, q: Request)
  {
    forall j | 0 <= j < |store| :: store[j].id != q.newId && store[j].selector != q.newSelector
  }

  /** The database and the key store carry the statements of a rotation through. */
  predicate Carried(q: Request)
  {
    q.fault.NoFault? || q.fault.RevokeFails?
  }

  lemma PresentedSplits(q: Request, selector: string, validator: string)
    requires Presents(q, selector, validator)
    ensures Split(q.presented) == (selector, validator)
  {
    SplitPresentationIff(q.presented, selector, validator);
  }

  lemma LookupOf(store: seq<Token>, q: Request, selector: string, validator: string)
    requires Unique(store) && Presents(q, selector, validator)
    ensures var r := Lookup(store, q.presented);
            && (r.None? ==> forall j | 0 <= j < |store| :: store[j].selector != selector)
            && (r.Some? ==> r.value < |store| && store[r.value].selector == selector)
            && (forall j | 0 <= j < |store| && store[j].selector == selector :: r == Some(j))
  {
    PresentedSplits(q, selector, validator);
    FindSpec(store, selector);
    forall j | 0 <= j < |store| && store[j].selector == selector
      ensures Lookup(store, q.presented) == Some(j)
    {
      LookupFinds(store, j, q.presented);
    }
  }

  /**
   A presentation rotates if and only if some row has its selector and accepts its validator, that row is
   active and not expired, the user is active, the new row clashes with none, and nothing fails.
   */
  lemma RotatesIff(store: seq<Token>, q: Request, selector: string, validator: string)
    requires Unique(store) && Presents(q, selector, validator)
    ensures ReplyTo(store, q).Rotated? <==>
              && (exists i: nat :: Accepted(store, q, i, selector, validator)
                    && store[i].status == Active && q.now < store[i].expiresAt)
              && q.user == ActiveUser && NewIsFree(store, q) && Carried(q)
  {
    PresentedSplits(q, selector, validator);
    LookupOf(store, q, selector, validator);
    var r := Lookup(store, q.presented);
    if r.Some? {
      var t := store[r.value];
      assert Clashes(store, Minted(t, q)) <==> !NewIsFree(store, q);
      if ReplyTo(store, q).Rotated? {
        assert Accepted(store, q, r.value, selector, validator);
      }
    }
  }

  /** What a rotation writes: the row is used, one new row follows it in the family, no other row changes. */
  lemma RotationWrites(store: seq<Token>, q: Request, selector: string, validator: string, i: nat)
    requires Unique(store) && Presents(q, selector, validator) && ReplyTo(store, q).Rotated?
    requires i < |store| && store[i].selector == selector
    ensures var t := Refreshed(store, q);
            && |t| == |store| + 1
            && (forall j | 0 <= j < |store| && j != i :: t[j] == store[j])
            && t[i] == store[i].(status := Used, usedAt := Some(q.now))
            && (var n := t[|store|];
                && n.id == q.newId && n.selector == q.newSelector && n.validatorHash == q.newHash
                && n.family == store[i].family && n.user == store[i].user && n.rotatedFrom == store[i].id
                && n.status == Active && n.expiresAt == q.now + q.ttl && n.usedAt == None && n.revokedAt == None)
            && ReplyTo(store, q) == Rotated(store[i].id, q.newId)
  {
    PresentedSplits(q, selector, validator);
    LookupOf(store, q, selector, validator);
  }

  /** Every other answer to a presentation an existing row accepts, when nothing fails. */
  lemma AcceptedAnswers(store: seq<Token>, q: Request, selector: string, validator: string, i: nat)
    requires Unique(store) && Presents(q, selector, validator) && Accepted(store, q, i, selector, validator)
    requires q.fault == NoFault
    ensures var t, r := store[i], ReplyTo(store, q);
            && (t.status == Compromised ==> r == FamilyCompromised)
            && (t.status == Revoked ==> r == TokenRevoked)
            && (t.status in {Used, Active} && q.now >= t.expiresAt ==> r == TokenExpired)
            && (t.status == Used && q.now < t.expiresAt ==> r == ReuseDetected)
            && (t.status == Active && q.now < t.expiresAt && q.user == MissingUser ==> r == InvalidToken)
            && (t.status == Active && q.now < t.expiresAt && q.user == InactiveUser ==> r == Forbidden)
  {
    PresentedSplits(q, selector, validator);
    LookupOf(store, q, selector, validator);
  }

  /** A presentation no row accepts is invalid, or an internal error when the lookup fails; the table stays. */
  lemma UnacceptedAnswers(store: seq<Token>, q: Request, selector: string, validator: string)
    requires Unique(store) && Presents(q, selector, validator)
    requires forall i: nat :: !Accepted(store, q, i, selector, validator)
    ensures ReplyTo(store, q) == (if q.fault == LookupFails then Internal else InvalidToken)
    ensures Refreshed(store, q) == store
  {
    PresentedSplits(q, selector, validator);
    LookupOf(store, q, selector, validator);
    var r := Lookup(store, q.presented);
    assert r.Some? ==> !Accepted(store, q, r.value, selector, validator);
  }

  /** What cannot be split is malformed, and changes nothing. */
  lemma MalformedAnswers(store: seq<Token>, q: Request)
    requires forall selector, validator :: !Presents(q, selector, validator)
    ensures ReplyTo(store, q) == Malformed && Refreshed(store, q) == store
  {
    var (selector, validator) := Split(q.presented);
    if selector != "" {
      SplitPresentationIff(q.presented, selector, validator);
      assert Presents(q, selector, validator);
    }
  }

  /** After every run: a validator no row accepts never rotates, is never taken for reuse, and changes nothing. */
  lemma WrongValidatorChangesNothing(es: seq<Event>, q: Request, selector: string, validator: string)
    requires Runs([], es) && Presents(q, selector, validator)
    requires forall i: nat :: !Accepted(RunOf([], es), q, i, selector, validator)
    ensures var store := RunOf([], es);
            !ReplyTo(store, q).Rotated? && !ReplyTo(store, q).ReuseDetected? && Refreshed(store, q) == store
  {
    RunsKeepChains([], es);
    UnacceptedAnswers(RunOf([], es), q, selector, validator);
  }

  // ---- logging out -------------------------------------------------------------------------------

  /** Logging out revokes the active row of the selector presented, whatever the validator, and no other. */
  lemma LogoutRevokes(store: seq<Token>, presented: string, selector: string, validator: string, now: int, i: nat)
    requires Unique(store) && selector != "" && '.' !in selector && validator != ""
    requires presented == selector + "." + validator
    requires i < |store| && store[i].selector == selector && store[i].status == Active
    ensures var t := LoggedOut(store, presented, now, true);
            && |t| == |store| && t[i] == store[i].(status := Revoked, revokedAt := Some(now))
            && forall j | 0 <= j < |store| && j != i :: t[j] == store[j]
  {
    SplitPresentationIff(presented, selector, validator);
    LookupFinds(store, i, presented);
  }

  /** A token logged out is answered as revoked ever after, whenever its validator is accepted. */
  lemma LoggedOutForGood(es: seq<Event>, selector: string, validator: string, now: int, later: seq<Event>, q: Request,
                         i: nat)
    requires Runs([], es) && Presents(q, selector, validator) && q.fault == NoFault
    requires var store := RunOf([], es); i < |store| && store[i].selector == selector && store[i].status == Active
    requires Runs(LoggedOut(RunOf([], es), q.presented, now, true), later)
    requires q.compare(RunOf([], es)[i].validatorHash, validator)
    ensures ReplyTo(RunOf(LoggedOut(RunOf([], es), q.presented, now, true), later), q) == TokenRevoked
  {
    var store := RunOf([], es);
    RunsKeepChains([], es);
    LogoutRevokes(store, q.presented, selector, validator, now, i);
    var out := LoggedOut(store, q.presented, now, true);
    assert Unique(out) && Chained(out) by { EventKeepsChains(store, Logout(q.presented, now, true)); }
    RunsKeepChains(out, later);
    RunsWear(out, later);
    AcceptedAnswers(RunOf(out, later), q, selector, validator, i);
  }
}
