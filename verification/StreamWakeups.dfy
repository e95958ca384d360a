/** The one-slot wake-up channels lose no wake-up. */
module StreamWakeups {
  import opened StreamCore
  import opened StreamMachine

  predicate Asleep(t: Writer) { t.pc.WSleep? }

  /** The writer is at a point from which it will signal the window channel or look at the window again. */
  predicate WillSignal(t: Writer) {
    match t.pc
    case WLoop => t.total < |t.p|
    case WLoad => true
    case WCas(_) => true
    case WCheck(_) => true
    case WSignal(_) => true
    case WRefundSignal => true
    case _ => false
  }

  ghost predicate SomeAsleep(ws: seq<Writer>) {
    exists i :: 0 <= i < |ws| && Asleep(ws[i])
  }

  ghost predicate SomeWillSignal(ws: seq<Writer>) {
    exists i :: 0 <= i < |ws| && WillSignal(ws[i])
  }

  /** A writer asleep while there is credit has a wake-up under way. */
  ghost predicate WriterWake(e: Endpoint) {
    MayWrite(e.state) && 0 < e.window && SomeAsleep(e.writers) ==>
      e.windowTok || e.handler.HSignal? || SomeWillSignal(e.writers)
  }

  /** The caller of Read offered room, if it is in a call at all. */
  predicate Wants(t: Reader) { t.pc.RIdle? || 0 < t.limit }

  /** Readers asleep while data is buffered have a wake-up under way, or one of them is awake. */
  ghost predicate ReaderWake(e: Endpoint) {
    e.buf != [] && e.readers != [] && (forall i | 0 <= i < |e.readers| :: Wants(e.readers[i])) ==>
      e.readTok || e.handler.HReadSignal? || exists i :: 0 <= i < |e.readers| && !e.readers[i].pc.RSleep?
  }

  predicate Ended(st: StreamState) { PeerEnded(st) || st.Reset? }

  /** The reader is asleep, or about to be on the strength of a state it read earlier. */
  predicate Unaware(t: Reader) {
    t.pc.RSleep? || (t.pc.RDrain? && !Ended(t.pc.state))
  }

  /** A single reader that has not seen the end of the stream has a wake-up under way. */
  ghost predicate EndWake(e: Endpoint) {
    |e.readers| == 1 && Ended(e.state) && Unaware(e.readers[0]) ==> e.readTok || e.handler.HEndSignal?
  }

  ghost predicate WakeInv(e: Endpoint) {
    WriterWake(e) && ReaderWake(e) && EndWake(e)
  }

  // ----- Writers -----

  /** One operation of a writer passes its duty on: to itself, to the token, or the credit is gone. */
  lemma WriterDuty(cfg: Config, t: Writer, st: StreamState, window: int, tok: bool)
    requires cfg.Valid() && WriterOk(cfg, t) && !t.pc.WIdle? && MayWrite(st)
    ensures var f := WriterStep(cfg, t, st, window, tok);
            && (WillSignal(t) || tok ==> WillSignal(f.t) || f.tok || f.window <= 0)
            && (f.window > window ==> WillSignal(f.t))
            && (Asleep(f.t) ==> f.window <= 0)
  {
  }

  lemma WriterMoveWakes(cfg: Config, e: Endpoint, i: nat)
    requires cfg.Valid() && Formed(cfg, e) && CanMove(e, WStep(i)) && WriterWake(e)
    ensures WriterWake(Moved(cfg, e, WStep(i)).0)
  {
    var t := e.writers[i];
    assert WriterOk(cfg, t);
    var f := WriterStep(cfg, t, e.state, e.window, e.windowTok);
    var ws := e.writers[i := f.t];
    if MayWrite(e.state) && 0 < f.window && SomeAsleep(ws) && !f.tok && !e.handler.HSignal? {
      WriterDuty(cfg, t, e.state, e.window, e.windowTok);
      assert SomeWillSignal(ws) by {
        if WillSignal(f.t) {
          assert WillSignal(ws[i]);
        } else {
          var j :| 0 <= j < |ws| && Asleep(ws[j]);
          assert Asleep(e.writers[j]);
          var k :| 0 <= k < |e.writers| && WillSignal(e.writers[k]);
          assert WillSignal(ws[k]);
        }
      }
    }
  }

  lemma WriterEdgeWakes(cfg: Config, e: Endpoint, m: Move)
    requires cfg.Valid() && Formed(cfg, e) && CanMove(e, m) && WriterWake(e)
    requires m.WBegin? || m.WFail? || m.WDone?
    ensures WriterWake(Moved(cfg, e, m).0)
  {
    var e' := Moved(cfg, e, m).0;
    assert !WillSignal(e.writers[m.i]) && !Asleep(e'.writers[m.i]);
    if SomeAsleep(e'.writers) {
      var j :| 0 <= j < |e'.writers| && Asleep(e'.writers[j]);
      assert Asleep(e.writers[j]);
    }
    if SomeWillSignal(e.writers) {
      var k :| 0 <= k < |e.writers| && WillSignal(e.writers[k]);
      assert WillSignal(e'.writers[k]);
    }
  }

  /** The read loop keeps every token, raises the window, fills the buffer and ends the stream
      only on its way to a signal. */
  predicate HandlerDuty(e: Endpoint, f: HandlerEffect) {
    && (MayWrite(f.state) ==> MayWrite(e.state))
    && (e.windowTok || e.handler.HSignal? ==> f.windowTok)
    && (f.window == e.window || f.h.HSignal?)
    && (e.readTok || e.handler.HReadSignal? || e.handler.HEndSignal? ==> f.readTok)
    && (f.stored == [] || f.h.HReadSignal?)
    && (Ended(f.state) ==> Ended(e.state) || f.h.HEndSignal?)
  }

  lemma HandlerDoesItsDuty(cfg: Config, e: Endpoint)
    requires !e.handler.HIdle?
    ensures HandlerDuty(e, HandlerStep(cfg, e.handler, e.state, e.window, e.windowTok, e.readTok))
  {
  }

  lemma HandlerWakes(e: Endpoint, f: HandlerEffect)
    requires WakeInv(e) && HandlerDuty(e, f)
    ensures WakeInv(PutHandler(e, f))
  {
  }

  lemma OtherMovesWakeWriters(cfg: Config, e: Endpoint, m: Move)
    requires cfg.Valid() && Formed(cfg, e) && CanMove(e, m) && WriterWake(e)
    requires !m.WBegin? && !m.WStep? && !m.WFail? && !m.WDone? && !m.HStep?
    ensures WriterWake(Moved(cfg, e, m).0)
  {
    match m {
      case RStep(i) =>
      case CloseStep =>
      case _ =>
    }
  }

  // ----- Readers -----

  /** A reader falls asleep only on an empty buffer, and a token it takes wakes it. */
  lemma ReaderDuty(t: Reader, st: StreamState, buffered: nat, tok: bool)
    requires !t.pc.RIdle? && 0 < t.limit
    ensures var f := ReaderStep(t, st, buffered, tok);
            && (f.t.pc.RSleep? ==> buffered == 0 && f.taken == 0 && f.tok == tok)
            && (Unaware(f.t) && Ended(st) ==> Unaware(t) && f.tok == tok)
  {
  }

  lemma ReaderMoveWakes(cfg: Config, e: Endpoint, m: Move)
    requires cfg.Valid() && Formed(cfg, e) && CanMove(e, m) && ReaderWake(e)
    requires m.RBegin? || m.RStep? || m.RFail? || m.RDone?
    ensures ReaderWake(Moved(cfg, e, m).0)
  {
    var e' := Moved(cfg, e, m).0;
    if m.RStep? && e'.readers[m.i].pc.RSleep? && Wants(e'.readers[m.i]) {
      ReaderDuty(e.readers[m.i], e.state, |e.buf|, e.readTok);
    } else if !e'.readers[m.i].pc.RSleep? {
      assert 0 <= m.i < |e'.readers|;
    }
  }

  lemma ReaderMoveEnds(cfg: Config, e: Endpoint, m: Move)
    requires cfg.Valid() && Formed(cfg, e) && CanMove(e, m) && EndWake(e)
    requires m.RBegin? || m.RStep? || m.RFail? || m.RDone?
    ensures EndWake(Moved(cfg, e, m).0)
  {
  }

  lemma OtherMovesWakeReaders(cfg: Config, e: Endpoint, m: Move)
    requires cfg.Valid() && Formed(cfg, e) && CanMove(e, m) && ReaderWake(e)
    requires !m.RBegin? && !m.RStep? && !m.RFail? && !m.RDone? && !m.HStep?
    ensures ReaderWake(Moved(cfg, e, m).0)
  {
    assert Moved(cfg, e, m).0.readers == e.readers;
    match m {
      case WStep(i) =>
      case CloseStep =>
      case _ =>
    }
  }

  lemma OtherMovesEnd(cfg: Config, e: Endpoint, m: Move)
    requires cfg.Valid() && Formed(cfg, e) && CanMove(e, m) && EndWake(e)
    requires !m.RBegin? && !m.RStep? && !m.RFail? && !m.RDone? && !m.HStep?
    ensures EndWake(Moved(cfg, e, m).0)
  {
    match m {
      case WStep(i) =>
      case CloseStep =>
      case _ =>
    }
  }

  // ----- Every run -----

  lemma MoveWakes(cfg: Config, e: Endpoint, m: Move)
    requires cfg.Valid() && Formed(cfg, e) && CanMove(e, m) && WakeInv(e)
    ensures WakeInv(Moved(cfg, e, m).0)
  {
    match m {
      case WStep(i) => WriterMoveWakes(cfg, e, i); OtherMovesWakeReaders(cfg, e, m); OtherMovesEnd(cfg, e, m);
      case WBegin(i, p) => WriterEdgeWakes(cfg, e, m); OtherMovesWakeReaders(cfg, e, m); OtherMovesEnd(cfg, e, m);
      case WFail(i) => WriterEdgeWakes(cfg, e, m); OtherMovesWakeReaders(cfg, e, m); OtherMovesEnd(cfg, e, m);
      case WDone(i) => WriterEdgeWakes(cfg, e, m); OtherMovesWakeReaders(cfg, e, m); OtherMovesEnd(cfg, e, m);
      case RBegin(i, limit) => OtherMovesWakeWriters(cfg, e, m); ReaderMoveWakes(cfg, e, m); ReaderMoveEnds(cfg, e, m);
      case RStep(i) => OtherMovesWakeWriters(cfg, e, m); ReaderMoveWakes(cfg, e, m); ReaderMoveEnds(cfg, e, m);
      case RFail(i) => OtherMovesWakeWriters(cfg, e, m); ReaderMoveWakes(cfg, e, m); ReaderMoveEnds(cfg, e, m);
      case RDone(i) => OtherMovesWakeWriters(cfg, e, m); ReaderMoveWakes(cfg, e, m); ReaderMoveEnds(cfg, e, m);
      case HStep =>
        HandlerDoesItsDuty(cfg, e);
        HandlerWakes(e, HandlerStep(cfg, e.handler, e.state, e.window, e.windowTok, e.readTok));
      case _ => OtherMovesWakeWriters(cfg, e, m); OtherMovesWakeReaders(cfg, e, m); OtherMovesEnd(cfg, e, m);
    }
  }

  lemma ReceiveWakes(cfg: Config, e: Endpoint, f: Frame)
    requires e.handler.HIdle? && WakeInv(e)
    ensures WakeInv(Receive(cfg, e, f).0)
  {
  }

  ghost predicate AllWake(s: State) { WakeInv(s.a) && WakeInv(s.b) }

  lemma {:induction false} PathWakes(cfg: Config, s: State, acts: seq<Action>, t: State)
    requires cfg.Valid() && AllWake(s) && Path(cfg, s, acts, t)
    ensures AllWake(t)
    decreases |acts|
  {
    if acts != [] {
      var s' := Next(cfg, s, acts[0]);
      match acts[0] {
        case Act(side, m) =>
          MoveWakes(cfg, s.Ep(side), m);
          AfterAct(cfg, s, side, m);
        case Pop(side) =>
          ReceiveWakes(cfg, s.Ep(side), s.From(side.Other())[0]);
          AfterPop(cfg, s, side);
      }
      assert AllWake(s');
      PathWakes(cfg, s', acts[1..], t);
    }
  }

  lemma InitialWakes(cfg: Config, s: State)
    requires Initial(cfg, s)
    ensures AllWake(s)
  {
  }

  /**
   * Any number of concurrent writers, every interleaving: while the stream may be written, a
   * writer asleep with credit in the window is owed a wake-up by the token in the channel, by the
   * read loop, or by another writer that will signal or look again.
   */
  lemma NoLostWakeUp(cfg: Config, s: State, acts: seq<Action>, t: State, side: Side, i: nat)
    requires cfg.Valid() && Initial(cfg, s) && Path(cfg, s, acts, t)
    requires var e := t.Ep(side); MayWrite(e.state) && 0 < e.window && i < |e.writers| && e.writers[i].pc.WSleep?
    ensures var e := t.Ep(side);
            || e.windowTok || e.handler.HSignal?
            || exists j :: 0 <= j < |e.writers| && WillSignal(e.writers[j])
  {
    hide Path;
    InitialWakes(cfg, s);
    PathWakes(cfg, s, acts, t);
    assert Asleep(t.Ep(side).writers[i]);
  }

  /** A lone reader never sleeps on through buffered data or the end of the stream. */
  lemma NoLostReadWakeUp(cfg: Config, s: State, acts: seq<Action>, t: State, side: Side)
    requires cfg.Valid() && Initial(cfg, s) && Path(cfg, s, acts, t)
    requires var e := t.Ep(side); |e.readers| == 1 && e.readers[0].pc.RSleep? && 0 < e.readers[0].limit
    requires t.Ep(side).buf != [] || Ended(t.Ep(side).state)
    ensures t.Ep(side).readTok || t.Ep(side).handler.HReadSignal? || t.Ep(side).handler.HEndSignal?
  {
    hide Path;
    InitialWakes(cfg, s);
    PathWakes(cfg, s, acts, t);
  }
}
