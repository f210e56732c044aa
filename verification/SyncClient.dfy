/** The subscribing client: it folds frames with epoch fencing into the state it shows. */
module SyncClients {
  import opened Options
  import opened RoomServer
  import opened ServerRuns

  datatype Client = Client(state: Option<Wire>, lastEpoch: nat)

  const BLANK := Client(None, 0)

  function WithState(c: Client, w: Wire): Client
  {
    if w.epoch >= c.lastEpoch then Client(Some(w), w.epoch) else c
  }

  /** A hand-over notice re-stamps host, token and epoch on whatever state is held. */
  function WithMigration(c: Client, newHost: string, newEpoch: nat, newToken: nat): Client
  {
    if c.state.None? || newEpoch < c.state.value.epoch then c
    else Client(Some(c.state.value.(hostId := Some(newHost), token := newToken, epoch := newEpoch)), newEpoch)
  }

  function Handled(c: Client, f: Frame): Client
  {
    if IsFull(f) then WithState(c, f.state) else WithMigration(c, f.newHost, f.newEpoch, f.newToken)
  }

  function Fold(c: Client, fs: seq<Frame>): Client
  {
    if fs == [] then c else Handled(Fold(c, fs[..|fs| - 1]), fs[|fs| - 1])
  }

  /** The hook's two references, overwritten frame by frame. */
  class SyncStream {
    var lastEpoch: nat
    var state: Option<Wire>

    ghost function View(): Client
      reads this
    {
      Client(state, lastEpoch)
    }

    constructor ()
      ensures View() == BLANK
    {
      lastEpoch, state := 0, None;
    }

    method ApplyState(w: Wire)
      modifies this
      ensures View() == WithState(old(View()), w)
    {
      if w.epoch >= lastEpoch {
        lastEpoch := w.epoch;
        state := Some(w);
      }
    }

    method ApplyMigration(newHost: string, newEpoch: nat, newToken: nat)
      modifies this
      ensures View() == WithMigration(old(View()), newHost, newEpoch, newToken)
    {
      if state.None? {
        return;
      }
      if newEpoch < state.value.epoch {
        return;
      }
      var next := state.value;
      next := next.(hostId := Some(newHost));
      next := next.(token := newToken);
      next := next.(epoch := newEpoch);
      lastEpoch := newEpoch;
      state := Some(next);
    }

    method HandleFrame(f: Frame)
      modifies this
      ensures View() == Handled(old(View()), f)
    {
      match f {
        case Update(w) => ApplyState(w);
        case Snapshot(w, _) => ApplyState(w);
        case HostMigration(_, newHost, newEpoch, newToken) => ApplyMigration(newHost, newEpoch, newToken);
      }
    }

    /** Frames taken one after another, from the stream or from a recovery answer. */
    method HandleFrames(frames: seq<Frame>)
      modifies this
      ensures View() == Fold(old(View()), frames)
    {
      for i := 0 to |frames|
        invariant View() == Fold(old(View()), frames[..i])
      {
        assert frames[..i + 1][..i] == frames[..i];
        HandleFrame(frames[i]);
      }
      assert frames[..|frames|] == frames;
    }
  }

  // ---- folding -----------------------------------------------------------------------------------

  /** The client's bookkeeping is consistent. */
  predicate ClientOk(c: Client)
  {
    if c.state.None? then c.lastEpoch == 0 else c.lastEpoch == c.state.value.epoch
  }

  /** The client holds exactly the given state, up to the start time of its epoch. */
  predicate Mirrors(c: Client, w: Wire)
  {
    c.state.Some? && c.state.value.(epochStarted := w.epochStarted) == w && c.lastEpoch == w.epoch
  }

  lemma {:induction false} FoldAppends(c: Client, fs: seq<Frame>, gs: seq<Frame>)
    ensures Fold(c, fs + gs) == Fold(Fold(c, fs), gs)
    decreases |gs|
  {
    if gs == [] {
      assert fs + gs == fs;
    } else {
      assert (fs + gs)[..|fs + gs| - 1] == fs + gs[..|gs| - 1];
      FoldAppends(c, fs, gs[..|gs| - 1]);
    }
  }

  /** Folding frames of at most some epoch leaves a consistent client of at most that epoch. */
  lemma {:induction false} FoldBounded(c: Client, fs: seq<Frame>, bound: nat)
    requires ClientOk(c) && c.lastEpoch <= bound && forall f | f in fs :: FrameEpoch(f) <= bound
    ensures ClientOk(Fold(c, fs)) && c.lastEpoch <= Fold(c, fs).lastEpoch <= bound
    decreases |fs|
  {
    if fs != [] {
      FoldBounded(c, fs[..|fs| - 1], bound);
      assert fs[|fs| - 1] in fs;
    }
  }

  /** Frames that agree with the history and are no newer than the state held are harmless. */
  lemma {:induction false} FoldHarmless(c: Client, w: Wire, hist: map<nat, Wire>, fs: seq<Frame>)
    requires Mirrors(c, w) && w.epoch in hist && hist[w.epoch] == w
    requires forall f | f in fs :: FrameEpoch(f) <= w.epoch && FrameEpoch(f) in hist && Agrees(f, hist[FrameEpoch(f)])
    ensures Mirrors(Fold(c, fs), w)
    decreases |fs|
  {
    if fs != [] {
      FoldHarmless(c, w, hist, fs[..|fs| - 1]);
      assert fs[|fs| - 1] in fs;
    }
  }

  /** A client in step with the server stays in step on the frame of the next act. */
  lemma HandledFollows(cfg: Config, s: Server, t: Server, f: Frame, c: Client)
    requires Spoke(cfg, s, t, f) && Mirrors(c, ToWire(s.state))
    ensures Mirrors(Handled(c, f), ToWire(t.state))
  {
  }

  /**
   A hand-over notice cannot make up for a dropped change: after a lost update the re-stamped client
   carries the current epoch, yet holds the current state if and only if the lost update had changed
   nothing but who hosts.
   */
  lemma LostUpdateThenMigrationIff(cfg: Config, s: Server, t: Server, u: Server, lost: Frame, f: Frame, c: Client)
    requires Spoke(cfg, s, t, lost) && IsFull(lost) && Spoke(cfg, t, u, f) && !IsFull(f)
    requires Mirrors(c, ToWire(s.state))
    ensures Handled(c, f).lastEpoch == u.state.epoch
    ensures Mirrors(Handled(c, f), ToWire(u.state)) <==> SameSample(ToWire(s.state), ToWire(t.state))
  {
  }
}
