/** Flow control neither creates nor loses credit. */
module StreamConservation {
  import opened StreamCore
  import opened StreamMachine

  // ----- Bytes by stage -----

  function Chunk(t: Writer): nat {
    match t.pc
    case WCheck(c) => c
    case WSignal(c) => c
    case WSend(c) => c
    case WRefund(c) => c
    case _ => 0
  }

  /** Bytes the writers have reserved and not yet sent. */
  function Reserved(ws: seq<Writer>): nat {
    if ws == [] then 0 else Reserved(ws[..|ws| - 1]) + Chunk(ws[|ws| - 1])
  }

  function Owed(t: Reader): nat {
    if t.pc.RCredit? then t.pc.n else 0
  }

  /** Bytes the readers have taken and not yet credited. */
  function Uncredited(rs: seq<Reader>): nat {
    if rs == [] then 0 else Uncredited(rs[..|rs| - 1]) + Owed(rs[|rs| - 1])
  }

  function DataIn(f: Frame): nat {
    if f.Data? then |f.bytes| else 0
  }

  function CreditIn(f: Frame): nat {
    if f.Credit? then f.delta else 0
  }

  function DataOn(wire: seq<Frame>): nat {
    if wire == [] then 0 else DataIn(wire[0]) + DataOn(wire[1..])
  }

  function CreditOn(wire: seq<Frame>): nat {
    if wire == [] then 0 else CreditIn(wire[0]) + CreditOn(wire[1..])
  }

  /** Data the read loop has taken off the wire and not yet buffered. */
  function Held(h: HandlerPc): nat {
    if h.HStore? then |h.bytes| else 0
  }

  /** Credit the read loop has taken off the wire and not yet added to the window. */
  function Pending(h: HandlerPc): nat {
    if h.HCredit? || h.HCas? then h.delta else 0
  }

  function AsSender(e: Endpoint): int {
    e.window + Reserved(e.writers) + Pending(e.handler)
  }

  function AsReceiver(e: Endpoint): int {
    Held(e.handler) + |e.buf| + Uncredited(e.readers)
  }

  /** Everything that stands for credit of the direction from `side` to its peer. */
  function Total(s: State, side: Side): int {
    AsSender(s.Ep(side)) + DataOn(s.From(side)) + AsReceiver(s.Ep(side.Other())) + CreditOn(s.From(side.Other()))
  }

  /** Both ends keep the stream and the connection works. */
  predicate Live(s: State, side: Side) {
    && s.Ep(side).registered && s.Ep(side.Other()).registered
    && !s.Ep(side).broken && !s.Ep(side.Other()).broken
  }

  ghost predicate Conserved(cfg: Config, s: State, side: Side) {
    && Total(s, side) <= cfg.window
    && (Live(s, side) ==> Total(s, side) == cfg.window)
  }

  ghost predicate FlowInv(cfg: Config, s: State) {
    AllFormed(cfg, s) && Conserved(cfg, s, A) && Conserved(cfg, s, B)
  }

  // ----- Sums under one change -----

  lemma ReservedSet(ws: seq<Writer>, i: nat, t: Writer)
    requires i < |ws|
    ensures Reserved(ws[i := t]) == Reserved(ws) - Chunk(ws[i]) + Chunk(t)
    ensures Chunk(ws[i]) <= Reserved(ws)
  {
    var n := |ws| - 1;
    if i < n {
      ReservedSet(ws[..n], i, t);
      assert ws[i := t][..n] == ws[..n][i := t];
    } else {
      assert ws[i := t][..n] == ws[..n];
    }
  }

  lemma UncreditedSet(rs: seq<Reader>, i: nat, t: Reader)
    requires i < |rs|
    ensures Uncredited(rs[i := t]) == Uncredited(rs) - Owed(rs[i]) + Owed(t)
    ensures Owed(rs[i]) <= Uncredited(rs)
  {
    var n := |rs| - 1;
    if i < n {
      UncreditedSet(rs[..n], i, t);
      assert rs[i := t][..n] == rs[..n][i := t];
    } else {
      assert rs[i := t][..n] == rs[..n];
    }
  }

  lemma WireAppend(w: seq<Frame>, out: seq<Frame>)
    ensures DataOn(w + out) == DataOn(w) + DataOn(out)
    ensures CreditOn(w + out) == CreditOn(w) + CreditOn(out)
  {
    if w == [] {
      assert w + out == out;
    } else {
      WireAppend(w[1..], out);
      assert (w + out)[1..] == w[1..] + out;
    }
  }

  // ----- One side -----

  /** One operation of a writer moves bytes from the window to a reservation to the wire, or back. */
  lemma WriterBalance(cfg: Config, t: Writer, st: StreamState, window: int, tok: bool)
    requires cfg.Valid() && WriterOk(cfg, t) && !t.pc.WIdle? && 0 <= window
    ensures var f := WriterStep(cfg, t, st, window, tok);
            f.window + Chunk(f.t) + |f.piece| == window + Chunk(t)
  {
  }

  lemma ReaderBalance(t: Reader, st: StreamState, buffered: nat, tok: bool)
    requires !t.pc.RIdle?
    ensures var f := ReaderStep(t, st, buffered, tok);
            Owed(f.t) + f.credit == Owed(t) + f.taken
  {
  }

  lemma WriterMoveBalance(cfg: Config, e: Endpoint, m: Move)
    requires cfg.Valid() && Formed(cfg, e) && CanMove(e, m)
    requires m.WBegin? || m.WStep? || m.WFail? || m.WDone?
    ensures var r := Moved(cfg, e, m);
            && AsSender(r.0) + DataOn(r.1) == AsSender(e)
            && AsReceiver(r.0) == AsReceiver(e) && CreditOn(r.1) == 0
  {
    var t := e.writers[m.i];
    assert WriterOk(cfg, t);
    var r := Moved(cfg, e, m);
    ReservedSet(e.writers, m.i, r.0.writers[m.i]);
    assert r.0.writers == e.writers[m.i := r.0.writers[m.i]];
    if m.WStep? {
      WriterBalance(cfg, t, e.state, e.window, e.windowTok);
    }
  }

  lemma ReaderMoveBalance(cfg: Config, e: Endpoint, m: Move)
    requires cfg.Valid() && Formed(cfg, e) && CanMove(e, m)
    requires m.RBegin? || m.RStep? || m.RFail? || m.RDone?
    ensures var r := Moved(cfg, e, m);
            && AsReceiver(r.0) + CreditOn(r.1) == AsReceiver(e) - (if m.RFail? then e.readers[m.i].pc.n else 0)
            && AsSender(r.0) == AsSender(e) && DataOn(r.1) == 0
  {
    var t := e.readers[m.i];
    var r := Moved(cfg, e, m);
    UncreditedSet(e.readers, m.i, r.0.readers[m.i]);
    assert r.0.readers == e.readers[m.i := r.0.readers[m.i]];
    if m.RStep? {
      ReaderBalance(t, e.state, |e.buf|, e.readTok);
    }
  }

  /** The handler finishes what it took; only the clamp could lose credit. */
  lemma HandlerBalance(cfg: Config, e: Endpoint)
    requires cfg.Valid() && Formed(cfg, e) && !e.handler.HIdle?
    ensures var e' := Moved(cfg, e, HStep).0;
            && AsReceiver(e') == AsReceiver(e)
            && AsSender(e') <= AsSender(e)
            && (AsSender(e) <= cfg.window ==> AsSender(e') == AsSender(e))
  {
    hide Reserved, Uncredited;
  }

  lemma MoveBalance(cfg: Config, e: Endpoint, m: Move)
    requires cfg.Valid() && Formed(cfg, e) && CanMove(e, m)
    ensures var r := Moved(cfg, e, m);
            && AsSender(r.0) + DataOn(r.1) <= AsSender(e)
            && AsReceiver(r.0) + CreditOn(r.1) <= AsReceiver(e)
            && (AsSender(e) <= cfg.window ==> AsSender(r.0) + DataOn(r.1) == AsSender(e))
            && (!r.0.broken ==> AsReceiver(r.0) + CreditOn(r.1) == AsReceiver(e))
  {
    match m {
      case WBegin(i, p) => WriterMoveBalance(cfg, e, m);
      case WStep(i) => WriterMoveBalance(cfg, e, m);
      case WFail(i) => WriterMoveBalance(cfg, e, m);
      case WDone(i) => WriterMoveBalance(cfg, e, m);
      case RBegin(i, limit) => ReaderMoveBalance(cfg, e, m);
      case RStep(i) => ReaderMoveBalance(cfg, e, m);
      case RFail(i) => ReaderMoveBalance(cfg, e, m);
      case RDone(i) => ReaderMoveBalance(cfg, e, m);
      case HStep => HandlerBalance(cfg, e);
      case _ => OtherMoveBalance(cfg, e, m);
    }
  }

  /** Close, reset and loss of the connection touch no credit. */
  lemma OtherMoveBalance(cfg: Config, e: Endpoint, m: Move)
    requires cfg.Valid() && Formed(cfg, e) && CanMove(e, m)
    requires m.CloseStep? || m.LocalReset? || m.Breaks? || m.MuxDies? || m.MuxClosed?
    ensures var r := Moved(cfg, e, m);
            && AsSender(r.0) == AsSender(e) && AsReceiver(r.0) == AsReceiver(e)
            && DataOn(r.1) == 0 && CreditOn(r.1) == 0
  {
    match m {
      case CloseStep =>
      case _ =>
    }
  }

  lemma ReceiveBalance(cfg: Config, e: Endpoint, f: Frame)
    requires e.handler.HIdle?
    ensures var r := Receive(cfg, e, f);
            && AsSender(r.0) <= AsSender(e) + CreditIn(f)
            && AsReceiver(r.0) <= AsReceiver(e) + DataIn(f)
            && DataOn(r.1) == 0 && CreditOn(r.1) == 0
            && (r.0.registered ==> e.registered) && r.0.broken == e.broken
            && (r.0.registered ==> AsSender(r.0) == AsSender(e) + CreditIn(f))
            && (r.0.registered ==> AsReceiver(r.0) == AsReceiver(e) + DataIn(f))
  {
    hide Reserved, Uncredited;
    match f {
      case Data(_) =>
      case Credit(_) =>
      case Close =>
      case Rst =>
    }
  }

  // ----- Both sides -----

  /** What a move keeps on its own side it keeps in the totals of both directions. */
  lemma ActConserves(cfg: Config, s: State, side: Side, m: Move)
    requires cfg.Valid() && FlowInv(cfg, s) && CanMove(s.Ep(side), m)
    ensures FlowInv(cfg, Next(cfg, s, Act(side, m)))
  {
    hide Moved, Formed, CanMove, Conserved;
    var r := Moved(cfg, s.Ep(side), m);
    NextFormed(cfg, s, Act(side, m));
    MoveBalance(cfg, s.Ep(side), m);
    FlagsOnlyRise(cfg, s.Ep(side), m);
    StepConserves(cfg, s, side, r.0, r.1);
  }

  lemma StepConserves(cfg: Config, s: State, side: Side, e: Endpoint, out: seq<Frame>)
    requires FlowInv(cfg, s)
    requires var o := s.Ep(side);
             && AsSender(e) + DataOn(out) <= AsSender(o)
             && AsReceiver(e) + CreditOn(out) <= AsReceiver(o)
             && (AsSender(o) <= cfg.window ==> AsSender(e) + DataOn(out) == AsSender(o))
             && (!e.broken ==> AsReceiver(e) + CreditOn(out) == AsReceiver(o))
             && (e.registered ==> o.registered) && (o.broken ==> e.broken)
    ensures var s' := s.Put(side, e, out); Conserved(cfg, s', A) && Conserved(cfg, s', B)
  {
    hide Reserved, Uncredited, DataOn, CreditOn;
    WireAppend(s.From(side), out);
  }

  lemma FlagsOnlyRise(cfg: Config, e: Endpoint, m: Move)
    requires cfg.Valid() && Formed(cfg, e) && CanMove(e, m)
    ensures var e' := Moved(cfg, e, m).0;
            (e'.registered ==> e.registered) && (e.broken ==> e'.broken)
  {
    match m {
      case HStep =>
      case CloseStep =>
      case WStep(i) =>
      case RStep(i) =>
      case _ =>
    }
  }

  /** Taking a frame in balances when the endpoint accounts for what was in it. */
  lemma TakingConserves(cfg: Config, s: State, side: Side, e: Endpoint, out: seq<Frame>)
    requires cfg.Valid() && FlowInv(cfg, s) && s.From(side.Other()) != []
    requires DataOn(out) == 0 && CreditOn(out) == 0
    requires var f := s.From(side.Other())[0];
             && AsSender(e) <= AsSender(s.Ep(side)) + CreditIn(f)
             && AsReceiver(e) <= AsReceiver(s.Ep(side)) + DataIn(f)
             && (e.registered ==> s.Ep(side).registered)
             && (e.registered ==> AsSender(e) == AsSender(s.Ep(side)) + CreditIn(f))
             && (e.registered ==> AsReceiver(e) == AsReceiver(s.Ep(side)) + DataIn(f))
             && e.broken == s.Ep(side).broken
    ensures var s' := s.DropFrom(side.Other()).Put(side, e, out);
            Conserved(cfg, s', A) && Conserved(cfg, s', B)
  {
    WireAppend(s.From(side), out);
    if side == A {
      assert s.DropFrom(B).Put(A, e, out) == State(e, s.b, s.ab + out, s.ba[1..]);
    } else {
      assert s.DropFrom(A).Put(B, e, out) == State(s.a, e, s.ab[1..], s.ba + out);
    }
  }

  lemma PopConserves(cfg: Config, s: State, side: Side)
    requires cfg.Valid() && FlowInv(cfg, s) && CanDo(s, Pop(side))
    ensures FlowInv(cfg, Next(cfg, s, Pop(side)))
  {
    var f := s.From(side.Other())[0];
    var r := Receive(cfg, s.Ep(side), f);
    NextFormed(cfg, s, Pop(side));
    ReceiveBalance(cfg, s.Ep(side), f);
    TakingConserves(cfg, s, side, r.0, r.1);
  }

  lemma NextConserves(cfg: Config, s: State, x: Action)
    requires cfg.Valid() && FlowInv(cfg, s) && CanDo(s, x)
    ensures FlowInv(cfg, Next(cfg, s, x))
  {
    match x {
      case Act(side, m) => ActConserves(cfg, s, side, m);
      case Pop(side) => PopConserves(cfg, s, side);
    }
  }

  lemma {:induction false} IdleSums(writers: nat, readers: nat)
    ensures Reserved(seq(writers, _ => Writer(WIdle, [], 0))) == 0
    ensures Uncredited(seq(readers, _ => Reader(RIdle, 0, NoCall))) == 0
    decreases writers + readers
  {
    var ws := seq(writers, _ => Writer(WIdle, [], 0));
    var rs := seq(readers, _ => Reader(RIdle, 0, NoCall));
    if writers > 0 {
      IdleSums(writers - 1, readers);
      assert ws[..writers - 1] == seq(writers - 1, _ => Writer(WIdle, [], 0));
    }
    if readers > 0 {
      IdleSums(writers, readers - 1);
      assert rs[..readers - 1] == seq(readers - 1, _ => Reader(RIdle, 0, NoCall));
    }
  }

  lemma InitialConserved(cfg: Config, s: State)
    requires cfg.Valid() && Initial(cfg, s)
    ensures FlowInv(cfg, s)
  {
    IdleSums(|s.a.writers|, |s.a.readers|);
    IdleSums(|s.b.writers|, |s.b.readers|);
  }

  lemma {:induction false} PathConserves(cfg: Config, s: State, acts: seq<Action>, t: State)
    requires cfg.Valid() && FlowInv(cfg, s) && Path(cfg, s, acts, t)
    ensures FlowInv(cfg, t)
    decreases |acts|
  {
    if acts != [] {
      NextConserves(cfg, s, acts[0]);
      PathConserves(cfg, Next(cfg, s, acts[0]), acts[1..], t);
    }
  }

  // ----- The theorems -----

  /**
   * In every reachable state and for each direction, while both ends keep the stream and the
   * connection works: send window + reserved chunks + data on the wire and in the handler +
   * buffered bytes + bytes read but not credited + credit on the wire and in the handler = window.
   * Whatever else happens the sum never exceeds the window.
   */
  lemma FlowControlConservation(cfg: Config, s: State, acts: seq<Action>, t: State, side: Side)
    requires cfg.Valid() && Initial(cfg, s) && Path(cfg, s, acts, t)
    ensures Total(t, side) <= cfg.window
    ensures Live(t, side) ==> Total(t, side) == cfg.window
  {
    hide Path;
    InitialConserved(cfg, s);
    PathConserves(cfg, s, acts, t);
  }

  /** The clamp in the window update never discards credit from a conforming peer. */
  lemma ClampNeverBites(cfg: Config, s: State, acts: seq<Action>, t: State, side: Side)
    requires cfg.Valid() && Initial(cfg, s) && Path(cfg, s, acts, t)
    requires t.Ep(side).handler.HCas? && t.Ep(side).window == t.Ep(side).handler.seen
    ensures Formed(cfg, t.Ep(side))
    ensures Moved(cfg, t.Ep(side), HStep).0.window == t.Ep(side).window + t.Ep(side).handler.delta
  {
    hide Path;
    FlowControlConservation(cfg, s, acts, t, side);
    PathFormed(cfg, s, acts, t);
  }

  /** Data a conforming peer sent is never taken for an overflow. */
  lemma OverflowNeverFires(cfg: Config, s: State, acts: seq<Action>, t: State, side: Side)
    requires cfg.Valid() && Initial(cfg, s) && Path(cfg, s, acts, t)
    requires CanDo(t, Pop(side)) && t.From(side.Other())[0].Data? && t.Ep(side).registered
    ensures AllFormed(cfg, t)
    ensures Next(cfg, t, Pop(side)).Ep(side).handler == HStore(t.From(side.Other())[0].bytes)
    ensures Next(cfg, t, Pop(side)).Ep(side).state == t.Ep(side).state
  {
    hide Path;
    FlowControlConservation(cfg, s, acts, t, side.Other());
    PathFormed(cfg, s, acts, t);
    AfterPop(cfg, t, side);
  }

  /** A direction with nothing under way has its whole window back. */
  lemma DrainedWindowIsFull(cfg: Config, s: State, acts: seq<Action>, t: State, side: Side)
    requires cfg.Valid() && Initial(cfg, s) && Path(cfg, s, acts, t)
    requires Live(t, side)
    requires t.ab == [] && t.ba == [] && t.a.handler.HIdle? && t.b.handler.HIdle?
    requires t.Ep(side.Other()).buf == [] && Uncredited(t.Ep(side.Other()).readers) == 0
    requires Reserved(t.Ep(side).writers) == 0
    ensures t.Ep(side).window == cfg.window
  {
    hide Path;
    FlowControlConservation(cfg, s, acts, t, side);
  }
}
