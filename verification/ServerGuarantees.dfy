/**
 The room protocol's safety over whole runs of one process lifetime: epochs determine states, tokens
 determine hosts, and a stamped command is accepted exactly until the next hand-over.
 */
module ServerGuarantees {
  import opened SyncStates
  import opened RoomServer
  import opened ServerRuns

  /** The server after the first i events of a run that started from s0. */
  ghost function At(cfg: Config, s0: SyncState, es: seq<Event>, i: nat): Server
    requires i <= |es| && Runs(cfg, Started(s0), es)
  {
    RunSplits(cfg, Started(s0), es, i);
    RunOf(cfg, Started(s0), es[..i])
  }

  lemma {:induction false} RunSplits(cfg: Config, s: Server, es: seq<Event>, i: nat)
    requires i <= |es| && Runs(cfg, s, es)
    ensures Runs(cfg, s, es[..i])
    ensures Runs(cfg, RunOf(cfg, s, es[..i]), es[i..])
    ensures RunOf(cfg, RunOf(cfg, s, es[..i]), es[i..]) == RunOf(cfg, s, es)
    decreases |es|
  {
    if i == 0 {
      assert es[..0] == [] && es[0..] == es;
    } else {
      RunSplits(cfg, Step(cfg, s, es[0]), es[1..], i - 1);
      assert es[..i][1..] == es[1..][..i - 1] && es[1..][i - 1..] == es[i..];
    }
  }

  /** A run is the run before its last event and that event. */
  lemma RunEnds(cfg: Config, s: Server, es: seq<Event>)
    requires es != [] && Runs(cfg, s, es)
    ensures var n := |es| - 1;
            && Runs(cfg, s, es[..n]) && Enabled(cfg, RunOf(cfg, s, es[..n]), es[n])
            && RunOf(cfg, s, es) == Step(cfg, RunOf(cfg, s, es[..n]), es[n])
  {
    var n := |es| - 1;
    RunSplits(cfg, s, es, n);
    assert es[n..] == [es[n]] && [es[n]][1..] == [];
  }

  /** Every state of a run satisfies the invariant and its histories only grow. */
  lemma RunHistory(cfg: Config, s0: SyncState, es: seq<Event>, i: nat, j: nat)
    requires i <= j <= |es| && Runs(cfg, Started(s0), es)
    ensures Inv(cfg, s0, At(cfg, s0, es, i)) && Inv(cfg, s0, At(cfg, s0, es, j))
    ensures Extends(At(cfg, s0, es, i), At(cfg, s0, es, j))
  {
    RunSplits(cfg, Started(s0), es, j);
    RunSplits(cfg, Started(s0), es[..j], i);
    assert es[..j][..i] == es[..i];
    var s := At(cfg, s0, es, i);
    assert Inv(cfg, s0, s) by {
      StartedInv(cfg, s0);
      RunKeepsInv(cfg, s0, Started(s0), es[..i]);
    }
    RunKeepsInv(cfg, s0, s, es[..j][i..]);
  }

  // ---- epochs ------------------------------------------------------------------------------------

  /** Any two states of a run with the same epoch are the same on the wire. */
  lemma EpochDeterminesState(cfg: Config, s0: SyncState, es: seq<Event>, i: nat, j: nat)
    requires i <= |es| && j <= |es| && Runs(cfg, Started(s0), es)
    requires At(cfg, s0, es, i).state.epoch == At(cfg, s0, es, j).state.epoch
    ensures ToWire(At(cfg, s0, es, i).state) == ToWire(At(cfg, s0, es, j).state)
  {
    if i <= j {
      RunHistory(cfg, s0, es, i, j);
    } else {
      RunHistory(cfg, s0, es, j, i);
    }
  }

  /** An event that changes the wire state raises the epoch, and broadcasts every epoch it opened. */
  lemma ChangesRaiseAndAnnounce(cfg: Config, s0: SyncState, es: seq<Event>, i: nat)
    requires i < |es| && Runs(cfg, Started(s0), es)
    ensures var s, t := At(cfg, s0, es, i), At(cfg, s0, es, i + 1);
            && s.state.epoch <= t.state.epoch
            && (ToWire(s.state) != ToWire(t.state) ==> s.state.epoch < t.state.epoch)
            && s.sent <= t.sent
            && (forall e: nat | s.state.epoch < e <= t.state.epoch :: Heralds(t.sent[|s.sent|..], e))
  {
    var s, t := At(cfg, s0, es, i), At(cfg, s0, es, i + 1);
    assert Extends(s, t) && FramesSorted(s) && Announces(s0, t) && HistoryOk(s0, s) && HistoryOk(s0, t) by {
      RunHistory(cfg, s0, es, i, i + 1);
    }
    NewEpochsHeralded(s0, s, t);
  }

  lemma NewEpochsHeralded(s0: SyncState, s: Server, t: Server)
    requires Extends(s, t) && FramesSorted(s) && Announces(s0, t) && s0.epoch <= s.state.epoch
    ensures forall e: nat | s.state.epoch < e <= t.state.epoch :: Heralds(t.sent[|s.sent|..], e)
  {
    assert forall k | 0 <= k < |s.sent| :: t.sent[k] == s.sent[k] && s.sent[k] in s.sent;
    forall e: nat | s.state.epoch < e <= t.state.epoch
      ensures Heralds(t.sent[|s.sent|..], e)
    {
      assert Heralds(t.sent, e);
      var k :| 0 <= k < |t.sent| && FrameEpoch(t.sent[k]) == e;
      assert t.sent[|s.sent|..][k - |s.sent|] == t.sent[k];
    }
  }

  // ---- hosts and tokens --------------------------------------------------------------------------

  /** A host, once there, stays; it changes only with a strictly larger token; one token, one host. */
  lemma OneHostPerToken(cfg: Config, s0: SyncState, es: seq<Event>, i: nat, j: nat)
    requires i <= j <= |es| && Runs(cfg, Started(s0), es)
    ensures var a, b := At(cfg, s0, es, i).state, At(cfg, s0, es, j).state;
            && a.token <= b.token
            && (a.hostId != "" ==> b.hostId != "")
            && (a.hostId != "" && a.hostId != b.hostId ==> a.token < b.token)
  {
    var s, t := At(cfg, s0, es, i), At(cfg, s0, es, j);
    assert HostOrder(ToWire(s.state), ToWire(t.state)) by {
      RunHistory(cfg, s0, es, i, j);
      assert HostOrder(t.hist[s.state.epoch], t.hist[t.state.epoch]);
    }
  }

  lemma TokenNeverPassesEpoch(cfg: Config, s0: SyncState, es: seq<Event>)
    requires Runs(cfg, Started(s0), es) && s0.token <= s0.epoch
    ensures RunOf(cfg, Started(s0), es).state.token <= RunOf(cfg, Started(s0), es).state.epoch
  {
    StartedInv(cfg, s0);
    RunKeepsInv(cfg, s0, Started(s0), es);
  }

  // ---- fencing -----------------------------------------------------------------------------------

  lemma {:induction false} NoMigrationsIff(fs: seq<Frame>)
    ensures Migrations(fs) == 0 <==> forall m | 0 <= m < |fs| :: IsFull(fs[m])
  {
    if fs != [] {
      NoMigrationsIff(fs[..|fs| - 1]);
    }
  }

  ghost predicate NoHandOverFrom(fs: seq<Frame>, k: nat)
  {
    forall m | k <= m < |fs| :: IsFull(fs[m])
  }

  lemma NoMigrationsFromIff(fs: seq<Frame>, k: nat)
    requires k <= |fs|
    ensures Migrations(fs[k..]) == 0 <==> NoHandOverFrom(fs, k)
  {
    var later := fs[k..];
    NoMigrationsIff(later);
    assert forall m | 0 <= m < |later| :: later[m] == fs[k + m];
    assert forall m | k <= m < |fs| :: fs[m] == later[m - k];
  }

  lemma {:induction false} MigrationsSplit(fs: seq<Frame>, gs: seq<Frame>)
    ensures Migrations(fs + gs) == Migrations(fs) + Migrations(gs)
    decreases |gs|
  {
    if gs == [] {
      assert fs + gs == fs;
    } else {
      assert (fs + gs)[..|fs + gs| - 1] == fs + gs[..|gs| - 1];
      MigrationsSplit(fs, gs[..|gs| - 1]);
    }
  }

  /** A later hand-over carries a larger token. */
  lemma HandOversDiffer(s0: SyncState, s: Server, j: nat, k: nat)
    requires TokensOk(s0, s) && j < k < |s.sent| && !IsFull(s.sent[k])
    ensures FrameToken(s.sent[j]) < FrameToken(s.sent[k])
  {
    var later := s.sent[j + 1..];
    var m := k - j;
    assert later == later[..m] + later[m..] && later[m..] == s.sent[k + 1..] && later[m - 1] == s.sent[k];
    MigrationsSplit(later[..m], later[m..]);
    NoMigrationsIff(later[..m]);
    assert later[..m][m - 1] == s.sent[k];
  }

  /**
   Any two frames of a run with the same epoch agree: full frames carry one state, a hand-over notice its
   host and token, and no epoch has two hand-over notices.
   */
  lemma EpochDeterminesFrames(cfg: Config, s0: SyncState, es: seq<Event>, j: nat, k: nat)
    requires Runs(cfg, Started(s0), es)
    requires var sent := RunOf(cfg, Started(s0), es).sent;
             j < |sent| && k < |sent| && FrameEpoch(sent[j]) == FrameEpoch(sent[k])
    ensures var sent := RunOf(cfg, Started(s0), es).sent;
            && (IsFull(sent[j]) ==> Agrees(sent[k], sent[j].state))
            && (!IsFull(sent[j]) && !IsFull(sent[k]) ==> j == k)
  {
    var s := RunOf(cfg, Started(s0), es);
    assert FramesOk(s) && TokensOk(s0, s) by {
      StartedInv(cfg, s0);
      RunKeepsInv(cfg, s0, Started(s0), es);
    }
    var f, g := s.sent[j], s.sent[k];
    assert f in s.sent && g in s.sent;
    SameEpochSameToken(s, f, g);
    if j < k && !IsFull(g) {
      HandOversDiffer(s0, s, j, k);
    } else if k < j && !IsFull(f) {
      HandOversDiffer(s0, s, k, j);
    }
  }

  lemma TokenFences(s0: SyncState, s: Server, k: nat)
    requires TokensOk(s0, s) && k < |s.sent|
    ensures Accepts(s, FrameToken(s.sent[k])) <==> NoHandOverFrom(s.sent, k + 1)
  {
    NoMigrationsFromIff(s.sent, k + 1);
  }

  /**
   A command stamped with the token of any frame of the run is accepted if and only if no hand-over
   followed that frame; a refused command changes nothing.
   */
  lemma StampedCommandAcceptedIff(cfg: Config, s0: SyncState, es: seq<Event>, k: nat, c: Command, nowMs: int, now: int)
    requires Runs(cfg, Started(s0), es) && k < |RunOf(cfg, Started(s0), es).sent|
    ensures var s := RunOf(cfg, Started(s0), es);
            var order := Order(c, FrameToken(s.sent[k]), nowMs, now);
            && (Accepts(s, order.token) <==> NoHandOverFrom(s.sent, k + 1))
            && (!Accepts(s, order.token) ==> Step(cfg, s, order) == s)
            && (Accepts(s, order.token) ==> Step(cfg, s, order).state == Commanded(s.state, c, nowMs, now))
  {
    var s := RunOf(cfg, Started(s0), es);
    assert TokensOk(s0, s) by {
      StartedInv(cfg, s0);
      RunKeepsInv(cfg, s0, Started(s0), es);
    }
    TokenFences(s0, s, k);
  }

  /** The same for a token read off the state at any moment, as a fresh snapshot does. */
  lemma StaleTokenIff(cfg: Config, s0: SyncState, es: seq<Event>, i: nat)
    requires i <= |es| && Runs(cfg, Started(s0), es)
    ensures var s, t := At(cfg, s0, es, i), RunOf(cfg, Started(s0), es);
            s.sent <= t.sent && (Accepts(t, s.state.token) <==> NoHandOverFrom(t.sent, |s.sent|))
  {
    var s, t := At(cfg, s0, es, i), RunOf(cfg, Started(s0), es);
    assert TokensOk(s0, s) && TokensOk(s0, t) && s.sent <= t.sent by {
      assert es[..|es|] == es;
      RunHistory(cfg, s0, es, i, |es|);
    }
    MigrationsSplit(s.sent, t.sent[|s.sent|..]);
    assert t.sent == s.sent + t.sent[|s.sent|..];
    NoMigrationsFromIff(t.sent, |s.sent|);
  }
}
