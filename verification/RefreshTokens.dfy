/**
 Refresh-token rotation (section 10.4 of RFC 6749): the token table, one transaction a call, rolled
 back whenever the call returns an error. Hashing and the user table are inputs; calls are serial.
 */
module RefreshTokens {
  import opened Options

  datatype Status = Unspecified | Active | Used | Revoked | Compromised | Expired

  datatype Token = Token(
    id: string,
    family: string,
    user: string,
    selector: string,
    validatorHash: string,
    rotatedFrom: string,
    status: Status,
    expiresAt: int,
    usedAt: Option<int>,
    revokedAt: Option<int>)

  // ---- the presented form ------------------------------------------------------------------------

  /** The position of the first dot, or the length when there is none. */
  function DotIndex(token: string): (i: nat)
    ensures i <= |token|
  {
    if token == "" || token[0] == '.' then 0 else 1 + DotIndex(token[1..])
  }

  /** "<selector>.<validator>" split at the first dot; both empty when malformed. */
  function Split(token: string): (string, string)
  {
    var i := DotIndex(token);
    if i == 0 || i >= |token| - 1 then ("", "") else (token[..i], token[i + 1..])
  }

  function Presentation(selector: string, validator: string): string
  {
    selector + "." + validator
  }

  lemma {:induction false} DotIndexOfPresentation(selector: string, rest: string)
    requires '.' !in selector
    ensures DotIndex(selector + "." + rest) == |selector|
  {
    if selector == "" {
      assert selector + "." + rest == "." + rest;
    } else {
      DotIndexOfPresentation(selector[1..], rest);
      assert (selector + "." + rest)[1..] == selector[1..] + "." + rest;
    }
  }

  lemma {:induction false} DotIndexSpec(token: string)
    ensures '.' !in token[..DotIndex(token)]
    ensures DotIndex(token) < |token| ==> token[DotIndex(token)] == '.'
  {
    if token != "" && token[0] != '.' {
      DotIndexSpec(token[1..]);
      assert token[..DotIndex(token)] == [token[0]] + token[1..][..DotIndex(token[1..])];
    }
  }

  /** What is handed to a client splits back into the halves it was made of, and only such strings split. */
  lemma SplitPresentationIff(token: string, selector: string, validator: string)
    requires selector != "" && validator != ""
    ensures Split(token) == (selector, validator) <==> '.' !in selector && token == Presentation(selector, validator)
  {
    DotIndexSpec(token);
    if '.' !in selector && token == Presentation(selector, validator) {
      DotIndexOfPresentation(selector, validator);
      assert token[..|selector|] == selector && token[|selector| + 1..] == validator;
    }
    var i := DotIndex(token);
    if Split(token) == (selector, validator) {
      assert token == token[..i] + [token[i]] + token[i + 1..];
    }
  }

  // ---- one use of a token ------------------------------------------------------------------------

  datatype Use = Rotate | Reuse | UseCompromised | UseRevoked | UseExpired

  function ClassifyUse(t: Token, now: int): Use
  {
    if t.status.Compromised? then UseCompromised
    else if t.status.Revoked? then UseRevoked
    else if now >= t.expiresAt then UseExpired
    else if t.status.Used? then Reuse
    else if t.status.Active? then Rotate
    else UseRevoked
  }

  /** The row with a selector; the column is unique. */
  function Find(store: seq<Token>, selector: string): Option<nat>
  {
    if store == [] then None
    else
      var n := |store| - 1;
      if store[n].selector == selector then Some(n) else Find(store[..n], selector)
  }

  lemma {:induction false} FindSpec(store: seq<Token>, selector: string)
    ensures var r := Find(store, selector);
            && (r.Some? ==> r.value < |store| && store[r.value].selector == selector)
            && (r.None? ==> forall i | 0 <= i < |store| :: store[i].selector != selector)
  {
    if store != [] {
      FindSpec(store[..|store| - 1], selector);
    }
  }

  function FamilyRevoked(store: seq<Token>, family: string, now: int): seq<Token>
  {
    seq(|store|, i requires 0 <= i < |store| =>
      if store[i].family == family && !store[i].status.Compromised?
      then store[i].(status := Compromised, revokedAt := Some(now)) else store[i])
  }

  /** An insert violates a unique column. */
  predicate Clashes(store: seq<Token>, t: Token)
  {
    exists i | 0 <= i < |store| :: store[i].id == t.id || store[i].selector == t.selector
  }

  datatype User = MissingUser | InactiveUser | ActiveUser

  /** The statement at which the database or the key store lets the call down, if any. */
  datatype Fault = NoFault | LookupFails | RevokeFails | UserFails | MarkFails | MintFails | SessionFails | CommitFails

  /** Everything the call is given besides the table. */
  datatype Request = Request(
    presented: string,
    now: int,
    compare: (string, string) -> bool,
    user: User,
    newId: string,
    newSelector: string,
    newHash: string,
    ttl: int,
    fault: Fault)

  datatype Reply =
    | Rotated(presentedId: string, newId: string)
    | Malformed
    | InvalidToken
    | ReuseDetected
    | FamilyCompromised
    | TokenRevoked
    | TokenExpired
    | Forbidden
    | Internal

  function Minted(t: Token, q: Request): Token
  {
    Token(q.newId, t.family, t.user, q.newSelector, q.newHash, t.id, Active, q.now + q.ttl, None, None)
  }

  /** The token was rotated: it is used up and its successor closes the table. */
  function RotatedStore(store: seq<Token>, i: nat, q: Request): seq<Token>
    requires i < |store|
  {
    store[i := store[i].(status := Used, usedAt := Some(q.now))] + [Minted(store[i], q)]
  }

  /** What a found token whose validator matched is answered. */
  function ReplyFor(store: seq<Token>, t: Token, q: Request): Reply
  {
    match ClassifyUse(t, q.now)
    case Reuse => if q.fault.RevokeFails? then Internal else ReuseDetected
    case UseCompromised => FamilyCompromised
    case UseRevoked => TokenRevoked
    case UseExpired => TokenExpired
    case Rotate =>
      if q.fault.UserFails? then Internal
      else match q.user
        case MissingUser => InvalidToken
        case InactiveUser => Forbidden
        case ActiveUser =>
          if || q.fault.MarkFails? || q.fault.MintFails? || Clashes(store, Minted(t, q))
             || q.fault.SessionFails? || q.fault.CommitFails?
          then Internal else Rotated(t.id, q.newId)
  }

  function Lookup(store: seq<Token>, presented: string): (r: Option<nat>)
    ensures r.Some? ==> r.value < |store| && store[r.value].selector == Split(presented).0
  {
    FindSpec(store, Split(presented).0);
    if Split(presented).0 == "" then None else Find(store, Split(presented).0)
  }

  function ReplyTo(store: seq<Token>, q: Request): Reply
  {
    var i := Lookup(store, q.presented);
    if Split(q.presented).0 == "" then Malformed
    else if q.fault.LookupFails? then Internal
    else if i.None? || !q.compare(store[i.value].validatorHash, Split(q.presented).1) then InvalidToken
    else ReplyFor(store, store[i.value], q)
  }

  /** The table after a refresh: one more link of the chain, or exactly what it was. */
  function Refreshed(store: seq<Token>, q: Request): seq<Token>
  {
    var i := Lookup(store, q.presented);
    if i.Some? && ReplyTo(store, q).Rotated? then RotatedStore(store, i.value, q) else store
  }

  function LoggedOut(store: seq<Token>, presented: string, now: int, commits: bool): seq<Token>
  {
    var i := Lookup(store, presented);
    if commits && i.Some? && store[i.value].status.Active?
    then store[i.value := store[i.value].(status := Revoked, revokedAt := Some(now))]
    else store
  }

  class AuthService {
    var tokens: seq<Token>

    /**
     Rotation and reuse detection. Writes go to the transaction; an error anywhere, the reuse branch
     included, rolls them back.
     */
    method Refresh(q: Request) returns (r: Reply)
      modifies this
      ensures r == ReplyTo(old(tokens), q)
      ensures tokens == Refreshed(old(tokens), q)
      ensures !r.Rotated? ==> tokens == old(tokens)
    {
      var (selector, validator) := Split(q.presented);
      if selector == "" || validator == "" {
        return Malformed;
      }
      var tx := tokens;
      if q.fault.LookupFails? {
        return Internal;
      }
      var found := Find(tx, selector);
      FindSpec(tx, selector);
      if found.None? {
        return InvalidToken;
      }
      var rt := tx[found.value];
      if !q.compare(rt.validatorHash, validator) {
        return InvalidToken;
      }
      match ClassifyUse(rt, q.now) {
        case Rotate =>
        case Reuse =>
          if q.fault.RevokeFails? {
            return Internal;
          }
          tx := FamilyRevoked(tx, rt.family, q.now);
          // The error return rolls the revocation back.
          return ReuseDetected;
        case UseCompromised => return FamilyCompromised;
        case UseRevoked => return TokenRevoked;
        case UseExpired => return TokenExpired;
      }
      if q.fault.UserFails? {
        return Internal;
      }
      match q.user {
        case MissingUser => return InvalidToken;
        case InactiveUser => return Forbidden;
        case ActiveUser =>
      }
      if q.fault.MarkFails? {
        return Internal;
      }
      tx := tx[found.value := rt.(status := Used, usedAt := Some(q.now))];
      if q.fault.MintFails? || Clashes(tokens, Minted(rt, q)) {
        return Internal;
      }
      tx := tx + [Minted(rt, q)];
      if q.fault.SessionFails? || q.fault.CommitFails? {
        return Internal;
      }
      tokens := tx;
      return Rotated(rt.id, q.newId);
    }

    /** Revokes a presented active token by its selector; anything else is left as it is. */
    method Logout(presented: string, now: int, commits: bool) returns (revoked: bool)
      modifies this
      ensures tokens == LoggedOut(old(tokens), presented, now, commits)
      ensures revoked <==> tokens != old(tokens)
    {
      var (selector, _) := Split(presented);
      if selector == "" {
        return false;
      }
      FindSpec(tokens, selector);
      var found := Find(tokens, selector);
      if found.None? {
        return false;
      }
      var rt := tokens[found.value];
      if rt.status.Active? && commits {
        tokens := tokens[found.value := rt.(status := Revoked, revokedAt := Some(now))];
        return true;
      }
      return false;
    }
  }
}
