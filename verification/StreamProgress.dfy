/** On a live stream whose readers keep draining, every Write finishes. */
module StreamProgress {
  import opened Base
  import opened StreamCore
  import opened StreamMachine
  import opened StreamConservation
  import opened StreamWakeups

  // ----- Live streams -----

  predicate WriterFlows(t: Writer) {
    !t.pc.WRefund? && !t.pc.WRefundSignal?
  }

  predicate ReaderFlows(t: Reader) {
    match t.pc
    case RIdle => true
    case RTop(muxDone) => !muxDone && 0 < t.limit
    case RDrain(st, muxDone) => !Ended(st) && !muxDone && 0 < t.limit
    case RCredit(n) => 0 < n && 0 < t.limit
    case RSleep => 0 < t.limit
  }

  predicate HandlerFlows(h: HandlerPc, st: StreamState) {
    match h
    case HStore(b) => b != []
    case HPeerClose(seen) => seen == st && MayWrite(st)
    case HEndSignal(cleanup) => !cleanup
    case HCredit(d) => 0 < d
    case HCas(_, d) => 0 < d
    case _ => true
  }

  /** Close has not been called, has returned, or is on its way between its operations. */
  predicate CloserFlows(c: CloserPc, st: StreamState) {
    match c
    case CCas(seen) => seen.Active? && st.Active?
    case CFinal => st.HalfClosedLocal?
    case CSend(cleanup) => st.HalfClosedLocal? && !cleanup
    case _ => true
  }

  predicate FrameFlows(f: Frame) { 0 < DataIn(f) || 0 < CreditIn(f) }

  /** An end of an open stream on a live connection. If the peer has not finished there are readers
      that offer room; if this end has, or is about to, its calls of Write have returned. */
  ghost predicate EndFlows(e: Endpoint) {
    && Open(e.state) && e.registered && !e.done && !e.broken
    && CloserFlows(e.closer, e.state) && HandlerFlows(e.handler, e.state)
    && (e.handler.HPeerClose? ==> !e.closer.CCas?)
    && (forall i | 0 <= i < |e.writers| ::
         if MayWrite(e.state) && !e.closer.CCas? then WriterFlows(e.writers[i]) else e.writers[i].pc.WIdle?)
    && (!PeerEnded(e.state) ==> e.readers != [] && forall i | 0 <= i < |e.readers| :: ReaderFlows(e.readers[i]))
  }

  /** Neither end has closed, or just one of them, whether the other has heard of it or not. */
  predicate StatesFit(a: StreamState, b: StreamState) {
    || (a.Active? && (b.Active? || b.HalfClosedLocal?))
    || (a.HalfClosedLocal? && MayWrite(b))
    || (a.HalfClosedRemote? && b.HalfClosedLocal?)
  }

  /** A close is handled only if the peer has closed, and begun only while the peer has not. */
  predicate Heeds(e: Endpoint, peer: Endpoint) {
    && (e.handler.HPeerClose? ==> peer.state.HalfClosedLocal?)
    && (e.closer.CCas? ==> e.state.Active? && peer.state.Active? && !peer.closer.CCas?)
  }

  predicate Paired(a: Endpoint, b: Endpoint) {
    StatesFit(a.state, b.state) && Heeds(a, b) && Heeds(b, a)
  }

  /** Frames of an end in state st: a CLOSE only when it has closed. */
  ghost predicate WireFlows(w: seq<Frame>, st: StreamState) {
    forall i | 0 <= i < |w| :: FrameFlows(w[i]) || (w[i].Close? && st.HalfClosedLocal?)
  }

  ghost predicate Flowing(cfg: Config, s: State) {
    && FlowInv(cfg, s) && AllWake(s)
    && EndFlows(s.a) && EndFlows(s.b) && WireFlows(s.ab, s.a.state) && WireFlows(s.ba, s.b.state) && Paired(s.a, s.b)
  }

  /** What the multiplexers and the readers do on their own; a Write never needs more to finish. */
  predicate Productive(s: State, x: Action) {
    x.Pop? || ProductiveMove(s.Ep(x.side).state, x.move)
  }

  predicate ProductiveMove(st: StreamState, m: Move) {
    m.WStep? || m.HStep? || (!PeerEnded(st) && (m.RStep? || (m.RBegin? && 0 < m.limit)))
  }

  // ----- The measure -----

  function Rest(t: Writer): nat {
    if t.pc.WIdle? || |t.p| < t.total + Chunk(t) then 0 else |t.p| - t.total - Chunk(t)
  }

  /** Bytes no chunk has been reserved for yet. */
  function Unreserved(ws: seq<Writer>): nat {
    if ws == [] then 0 else Unreserved(ws[..|ws| - 1]) + Rest(ws[|ws| - 1])
  }

  /** Bytes weighted by how far they still have to go. */
  function Load(e: Endpoint): nat {
    8 * Unreserved(e.writers) + 7 * Reserved(e.writers) + 5 * Held(e.handler) + 4 * |e.buf|
    + 3 * Uncredited(e.readers) + Pending(e.handler)
  }

  function WireLoad(w: seq<Frame>): nat {
    5 * DataOn(w) + CreditOn(w) + |w|
  }

  function TotalLoad(s: State): nat {
    Load(s.a) + Load(s.b) + WireLoad(s.ab) + WireLoad(s.ba)
  }

  /** Operations a thread may still take before it moves bytes or waits. */
  function WriterSteps(t: Writer, window: int): nat {
    match t.pc
    case WEnter => 9
    case WLoop => 8
    case WLoad => 7
    case WSleep => 2
    case WCas(seen) => if seen == window then 6 else 9
    case WCheck(_) => 13
    case WSignal(_) => 12
    case WSend(_) => 1
    case _ => 0
  }

  function AllWriterSteps(ws: seq<Writer>, window: int): nat {
    if ws == [] then 0 else AllWriterSteps(ws[..|ws| - 1], window) + WriterSteps(ws[|ws| - 1], window)
  }

  function ReaderSteps(t: Reader): nat {
    match t.pc
    case RIdle => 5
    case RTop(_) => 4
    case RDrain(_, _) => 3
    case RSleep => 2
    case RCredit(_) => 0
  }

  function AllReaderSteps(rs: seq<Reader>): nat {
    if rs == [] then 0 else AllReaderSteps(rs[..|rs| - 1]) + ReaderSteps(rs[|rs| - 1])
  }

  function HandlerSteps(h: HandlerPc, window: int): nat {
    match h
    case HReadSignal => 11
    case HPeerClose(_) => 12
    case HEndSignal(_) => 11
    case HCredit(_) => 7
    case HCas(seen, _) => if seen == window then 6 else 8
    case HSignal => 11
    case _ => 0
  }

  function Token(tok: bool): nat { if tok then 10 else 0 }

  function Steps(e: Endpoint): nat {
    AllWriterSteps(e.writers, e.window) + AllReaderSteps(e.readers) + HandlerSteps(e.handler, e.window)
    + Token(e.windowTok) + Token(e.readTok)
  }

  // ----- Sums under one change -----

  lemma UnreservedSet(ws: seq<Writer>, i: nat, t: Writer)
    requires i < |ws|
    ensures Unreserved(ws[i := t]) == Unreserved(ws) - Rest(ws[i]) + Rest(t)
  {
    var n := |ws| - 1;
    if i < n {
      UnreservedSet(ws[..n], i, t);
      assert ws[i := t][..n] == ws[..n][i := t];
    } else {
      assert ws[i := t][..n] == ws[..n];
    }
  }

  lemma WriterStepsSet(ws: seq<Writer>, window: int, i: nat, t: Writer)
    requires i < |ws|
    ensures AllWriterSteps(ws[i := t], window)
         == AllWriterSteps(ws, window) - WriterSteps(ws[i], window) + WriterSteps(t, window)
  {
    var n := |ws| - 1;
    if i < n {
      WriterStepsSet(ws[..n], window, i, t);
      assert ws[i := t][..n] == ws[..n][i := t];
    } else {
      assert ws[i := t][..n] == ws[..n];
    }
  }

  lemma ReaderStepsSet(rs: seq<Reader>, i: nat, t: Reader)
    requires i < |rs|
    ensures AllReaderSteps(rs[i := t]) == AllReaderSteps(rs) - ReaderSteps(rs[i]) + ReaderSteps(t)
  {
    var n := |rs| - 1;
    if i < n {
      ReaderStepsSet(rs[..n], i, t);
      assert rs[i := t][..n] == rs[..n][i := t];
    } else {
      assert rs[i := t][..n] == rs[..n];
    }
  }

  lemma OneFrame(f: Frame)
    ensures WireLoad([f]) == 5 * DataIn(f) + CreditIn(f) + 1
  {
    var w := [f];
    assert w[1..] == [] && w[0] == f;
    assert DataOn(w) == DataIn(f) && CreditOn(w) == CreditIn(f);
  }

  // ----- Every productive action makes progress -----

  /** Either bytes move on, or nothing is sent and fewer operations are left. */
  ghost predicate Advances(e: Endpoint, e': Endpoint, out: seq<Frame>) {
    || Load(e') + WireLoad(out) < Load(e)
    || (out == [] && Load(e') == Load(e) && Steps(e') < Steps(e))
  }

  /** Only the handler of a CLOSE changes the state, and only to half-closed by the peer. */
  predicate Steady(e: Endpoint, e': Endpoint) {
    && e'.closer == e.closer && (e'.handler.HPeerClose? ==> e.handler.HPeerClose?)
    && (e'.state == e.state || (e.handler.HPeerClose? && MayWrite(e.state) && e'.state.HalfClosedRemote?))
  }

  /** The account of one writer's operation, by itself. */
  lemma WriterAdvances(cfg: Config, t: Writer, st: StreamState, window: int, tok: bool)
    requires cfg.Valid() && WriterOk(cfg, t) && MayWrite(st) && !t.pc.WIdle? && WriterFlows(t) && 0 <= window
    requires t.pc.WSleep? ==> tok
    ensures var f := WriterStep(cfg, t, st, window, tok);
            && WriterFlows(f.t)
            && (f.piece != [] ==> 8 * Rest(f.t) + 7 * Chunk(f.t) + 5 * |f.piece| + 1 < 8 * Rest(t) + 7 * Chunk(t))
            && (f.piece == [] ==> 8 * Rest(f.t) + 7 * Chunk(f.t) <= 8 * Rest(t) + 7 * Chunk(t))
            && (f.piece == [] && 8 * Rest(f.t) + 7 * Chunk(f.t) == 8 * Rest(t) + 7 * Chunk(t) ==>
                  f.window == window
                  && WriterSteps(f.t, window) + Token(f.tok) < WriterSteps(t, window) + Token(tok))
  {
    match t.pc {
      case WCas(seen) =>
      case WSend(c) =>
        assert |t.p[t.total..t.total + c]| == c;
      case _ =>
    }
  }

  lemma WriterMoveAdvances(cfg: Config, e: Endpoint, i: nat)
    requires cfg.Valid() && Formed(cfg, e) && EndFlows(e) && CanMove(e, WStep(i))
    ensures var r := Moved(cfg, e, WStep(i));
            EndFlows(r.0) && Steady(e, r.0) && WireFlows(r.1, e.state) && Advances(e, r.0, r.1)
  {
    var t := e.writers[i];
    WriterIsBusy(cfg, e, i);
    var f := WriterStep(cfg, t, e.state, e.window, e.windowTok);
    hide Advances, EndFlows, Steady, WriterStep, PutWriter, Unreserved, Reserved, AllWriterSteps;
    WriterAdvances(cfg, t, e.state, e.window, e.windowTok);
    UnreservedSet(e.writers, i, f.t);
    ReservedSet(e.writers, i, f.t);
    WriterStepsSet(e.writers, e.window, i, f.t);
    PutWriterAdvances(e, i, f);
    PutWriterFlows(e, i, f);
    DataFlows(f.piece, e.state);
  }

  lemma DataFlows(piece: seq<byte>, st: StreamState)
    ensures WireFlows(if piece == [] then [] else [Data(piece)], st)
  {
  }

  lemma CreditFlows(credit: nat, st: StreamState)
    ensures WireFlows(if credit == 0 then [] else [Credit(credit)], st)
  {
  }

  lemma WriterIsBusy(cfg: Config, e: Endpoint, i: nat)
    requires Formed(cfg, e) && EndFlows(e) && CanMove(e, WStep(i))
    ensures var t := e.writers[i];
            && WriterOk(cfg, t) && MayWrite(e.state) && !e.closer.CCas? && !t.pc.WIdle? && WriterFlows(t)
            && 0 <= e.window && (t.pc.WSleep? ==> e.windowTok)
  {
  }

  lemma PutWriterFlows(e: Endpoint, i: nat, f: WriterEffect)
    requires EndFlows(e) && i < |e.writers| && MayWrite(e.state) && !e.closer.CCas? && WriterFlows(f.t)
    ensures EndFlows(PutWriter(e, i, f)) && Steady(e, PutWriter(e, i, f))
  {
  }

  lemma PutWriterAdvances(e: Endpoint, i: nat, f: WriterEffect)
    requires i < |e.writers|
    requires Unreserved(e.writers[i := f.t]) == Unreserved(e.writers) - Rest(e.writers[i]) + Rest(f.t)
    requires Reserved(e.writers[i := f.t]) == Reserved(e.writers) - Chunk(e.writers[i]) + Chunk(f.t)
    requires AllWriterSteps(e.writers[i := f.t], e.window)
          == AllWriterSteps(e.writers, e.window) - WriterSteps(e.writers[i], e.window) + WriterSteps(f.t, e.window)
    requires var t := e.writers[i];
             && (f.piece != [] ==> 8 * Rest(f.t) + 7 * Chunk(f.t) + 5 * |f.piece| + 1 < 8 * Rest(t) + 7 * Chunk(t))
             && (f.piece == [] ==> 8 * Rest(f.t) + 7 * Chunk(f.t) <= 8 * Rest(t) + 7 * Chunk(t))
             && (f.piece == [] && 8 * Rest(f.t) + 7 * Chunk(f.t) == 8 * Rest(t) + 7 * Chunk(t) ==>
                   f.window == e.window
                   && WriterSteps(f.t, e.window) + Token(f.tok) < WriterSteps(t, e.window) + Token(e.windowTok))
    ensures Advances(e, PutWriter(e, i, f), if f.piece == [] then [] else [Data(f.piece)])
  {
    if f.piece != [] {
      OneFrame(Data(f.piece));
    }
  }

  lemma ReaderAdvances(t: Reader, st: StreamState, buffered: nat, tok: bool)
    requires !Ended(st) && !t.pc.RIdle? && ReaderFlows(t) && (t.pc.RSleep? ==> tok)
    ensures var f := ReaderStep(t, st, buffered, tok);
            && ReaderFlows(f.t)
            && (f.credit == 0 && f.taken == 0 ==> Owed(f.t) == Owed(t))
            && (f.credit == 0 && f.taken == 0 ==>
                  ReaderSteps(f.t) + Token(f.tok) < ReaderSteps(t) + Token(tok))
            && (f.taken > 0 ==> f.credit == 0 && Owed(f.t) == f.taken && Owed(t) == 0)
            && (f.credit > 0 ==> f.taken == 0 && Owed(f.t) == 0 && Owed(t) == f.credit)
  {
  }

  lemma ReaderMoveAdvances(cfg: Config, e: Endpoint, m: Move)
    requires cfg.Valid() && Formed(cfg, e) && EndFlows(e) && CanMove(e, m)
    requires !PeerEnded(e.state) && (m.RStep? || (m.RBegin? && 0 < m.limit))
    ensures var r := Moved(cfg, e, m);
            EndFlows(r.0) && Steady(e, r.0) && WireFlows(r.1, e.state) && Advances(e, r.0, r.1)
  {
    if m.RBegin? {
      ReaderBeginAdvances(cfg, e, m.i, m.limit);
    } else {
      ReaderStepAdvances(cfg, e, m.i);
    }
  }

  lemma ReaderBeginAdvances(cfg: Config, e: Endpoint, i: nat, limit: nat)
    requires cfg.Valid() && Formed(cfg, e) && EndFlows(e) && !PeerEnded(e.state) && CanMove(e, RBegin(i, limit))
             && 0 < limit
    ensures var r := Moved(cfg, e, RBegin(i, limit));
            EndFlows(r.0) && Steady(e, r.0) && WireFlows(r.1, e.state) && Advances(e, r.0, r.1)
  {
    var t := e.readers[i].(pc := RTop(false), limit := limit, outcome := NoCall);
    UncreditedSet(e.readers, i, t);
    ReaderStepsSet(e.readers, i, t);
  }

  lemma ReaderStepAdvances(cfg: Config, e: Endpoint, i: nat)
    requires cfg.Valid() && Formed(cfg, e) && EndFlows(e) && !PeerEnded(e.state) && CanMove(e, RStep(i))
    ensures var r := Moved(cfg, e, RStep(i));
            EndFlows(r.0) && Steady(e, r.0) && WireFlows(r.1, e.state) && Advances(e, r.0, r.1)
  {
    var t := e.readers[i];
    assert ReaderFlows(t);
    var f := ReaderStep(t, e.state, |e.buf|, e.readTok);
    hide Advances, EndFlows, Steady, ReaderStep, PutReader, Uncredited, AllReaderSteps;
    UncreditedSet(e.readers, i, f.t);
    ReaderStepsSet(e.readers, i, f.t);
    OpenToReader(e);
    ReaderAdvances(t, e.state, |e.buf|, e.readTok);
    PutReaderAdvances(e, i, f);
    PutReaderFlows(e, i, f);
    CreditFlows(f.credit, e.state);
  }

  lemma OpenToReader(e: Endpoint)
    requires EndFlows(e) && !PeerEnded(e.state)
    ensures !Ended(e.state)
  {
  }

  lemma PutReaderFlows(e: Endpoint, i: nat, f: ReaderEffect)
    requires EndFlows(e) && i < |e.readers| && ReaderFlows(f.t) && f.taken <= |e.buf|
    ensures EndFlows(PutReader(e, i, f)) && Steady(e, PutReader(e, i, f))
  {
  }

  lemma PutReaderAdvances(e: Endpoint, i: nat, f: ReaderEffect)
    requires i < |e.readers| && f.taken <= |e.buf|
    requires Uncredited(e.readers[i := f.t]) == Uncredited(e.readers) - Owed(e.readers[i]) + Owed(f.t)
    requires AllReaderSteps(e.readers[i := f.t]) ==
             AllReaderSteps(e.readers) - ReaderSteps(e.readers[i]) + ReaderSteps(f.t)
    requires var t := e.readers[i];
             && (f.credit == 0 && f.taken == 0 ==> Owed(f.t) == Owed(t))
             && (f.credit == 0 && f.taken == 0 ==>
                   ReaderSteps(f.t) + Token(f.tok) < ReaderSteps(t) + Token(e.readTok))
             && (f.taken > 0 ==> f.credit == 0 && Owed(f.t) == f.taken && Owed(t) == 0)
             && (f.credit > 0 ==> f.taken == 0 && Owed(f.t) == 0 && Owed(t) == f.credit)
    ensures Advances(e, PutReader(e, i, f), if f.credit == 0 then [] else [Credit(f.credit)])
  {
    if f.credit > 0 {
      OneFrame(Credit(f.credit));
    }
  }

  lemma HandlerMoveAdvances(cfg: Config, e: Endpoint)
    requires cfg.Valid() && Formed(cfg, e) && EndFlows(e) && !e.handler.HIdle?
    ensures var e' := Moved(cfg, e, HStep).0; EndFlows(e') && Steady(e, e') && Advances(e, e', [])
  {
    var f := HandlerStep(cfg, e.handler, e.state, e.window, e.windowTok, e.readTok);
    HandlerAdvances(cfg, e.handler, e.state, e.window, e.windowTok, e.readTok);
    PutHandlerAdvances(e, f);
    PutHandlerFlows(e, f);
  }

  lemma HandlerAdvances(cfg: Config, h: HandlerPc, st: StreamState, window: int, windowTok: bool, readTok: bool)
    requires HandlerFlows(h, st) && !h.HIdle?
    ensures var f := HandlerStep(cfg, h, st, window, windowTok, readTok);
            && f.state == (if h.HPeerClose? then HalfClosedRemote else st)
            && HandlerFlows(f.h, f.state) && !f.h.HPeerClose? && !f.forget
            && 5 * Held(f.h) + 4 * |f.stored| + Pending(f.h) <= 5 * Held(h) + Pending(h)
            && (5 * Held(f.h) + 4 * |f.stored| + Pending(f.h) == 5 * Held(h) + Pending(h) ==>
                  f.window == window
                  && HandlerSteps(f.h, window) + Token(f.windowTok) + Token(f.readTok)
                     < HandlerSteps(h, window) + Token(windowTok) + Token(readTok))
  {
  }

  lemma PutHandlerFlows(e: Endpoint, f: HandlerEffect)
    requires EndFlows(e) && HandlerFlows(f.h, f.state) && !f.h.HPeerClose? && !f.forget
    requires f.state == if e.handler.HPeerClose? then HalfClosedRemote else e.state
    ensures EndFlows(PutHandler(e, f)) && Steady(e, PutHandler(e, f))
  {
  }

  lemma PutHandlerAdvances(e: Endpoint, f: HandlerEffect)
    requires 5 * Held(f.h) + 4 * |f.stored| + Pending(f.h) <= 5 * Held(e.handler) + Pending(e.handler)
    requires 5 * Held(f.h) + 4 * |f.stored| + Pending(f.h) == 5 * Held(e.handler) + Pending(e.handler) ==>
               f.window == e.window
               && HandlerSteps(f.h, e.window) + Token(f.windowTok) + Token(f.readTok)
                  < HandlerSteps(e.handler, e.window) + Token(e.windowTok) + Token(e.readTok)
    ensures Advances(e, PutHandler(e, f), [])
  {
  }

  lemma TakingAdvances(cfg: Config, e: Endpoint, f: Frame)
    requires e.handler.HIdle? && EndFlows(e)
    requires FrameFlows(f) || (f.Close? && MayWrite(e.state) && !e.closer.CCas?)
    requires f.Data? ==> |e.buf| + |f.bytes| <= cfg.window
    ensures var r := Receive(cfg, e, f);
            && EndFlows(r.0) && r.0.state == e.state && r.0.closer == e.closer && r.1 == []
            && (r.0.handler.HPeerClose? ==> f.Close?)
            && Load(r.0) < Load(e) + 5 * DataIn(f) + CreditIn(f) + 1
  {
  }

  /** Productive actions keep open for writing what was. */
  predicate KeepsWriting(s: State, t: State) {
    && (MayWrite(s.a.state) <==> MayWrite(t.a.state))
    && (MayWrite(s.b.state) <==> MayWrite(t.b.state))
  }

  ghost predicate Closer(s: State, s': State) {
    || TotalLoad(s') < TotalLoad(s)
    || (TotalLoad(s') == TotalLoad(s) && Steps(s'.a) + Steps(s'.b) < Steps(s.a) + Steps(s.b))
  }

  lemma ActAdvances(cfg: Config, s: State, side: Side, m: Move)
    requires cfg.Valid() && Flowing(cfg, s) && CanMove(s.Ep(side), m) && Productive(s, Act(side, m))
    ensures Flowing(cfg, Next(cfg, s, Act(side, m))) && Closer(s, Next(cfg, s, Act(side, m)))
    ensures KeepsWriting(s, Next(cfg, s, Act(side, m)))
  {
    hide Moved, WakeInv, EndFlows, WireFlows, Advances, Conserved, Paired, Steady, KeepsWriting;
    var e := s.Ep(side);
    var r := Moved(cfg, e, m);
    NextConserves(cfg, s, Act(side, m));
    MoveWakes(cfg, e, m);
    MoveAdvances(cfg, e, m);
    ActAssembles(s, side, r.0, r.1);
    ActFits(s, side, r.0, r.1);
  }

  lemma MoveAdvances(cfg: Config, e: Endpoint, m: Move)
    requires cfg.Valid() && Formed(cfg, e) && EndFlows(e) && CanMove(e, m) && ProductiveMove(e.state, m)
    ensures var r := Moved(cfg, e, m);
            EndFlows(r.0) && Steady(e, r.0) && WireFlows(r.1, e.state) && Advances(e, r.0, r.1)
  {
    match m {
      case WStep(i) => WriterMoveAdvances(cfg, e, i);
      case HStep => HandlerMoveAdvances(cfg, e);
      case _ => ReaderMoveAdvances(cfg, e, m);
    }
  }

  lemma ActAssembles(s: State, side: Side, e: Endpoint, out: seq<Frame>)
    requires Advances(s.Ep(side), e, out)
    ensures Closer(s, s.Put(side, e, out))
  {
    WireAppend(s.From(side), out);
    if out == [] {
      assert s.From(side) + out == s.From(side);
    }
  }

  lemma ActFits(s: State, side: Side, e: Endpoint, out: seq<Frame>)
    requires Paired(s.a, s.b) && Steady(s.Ep(side), e)
    requires WireFlows(s.From(side), s.Ep(side).state) && WireFlows(out, s.Ep(side).state)
    ensures var s' := s.Put(side, e, out);
            Paired(s'.a, s'.b) && WireFlows(s'.From(side), e.state) && KeepsWriting(s, s')
  {
  }

  lemma FrontFits(cfg: Config, s: State, side: Side)
    requires FlowInv(cfg, s) && s.From(side.Other()) != [] && s.From(side.Other())[0].Data?
    ensures |s.Ep(side).buf| + |s.From(side.Other())[0].bytes| <= cfg.window
  {
    assert |s.Ep(side).buf| + |s.From(side.Other())[0].bytes| <= Total(s, side.Other());
  }

  lemma PopAdvances(cfg: Config, s: State, side: Side)
    requires cfg.Valid() && Flowing(cfg, s) && CanDo(s, Pop(side))
    ensures Flowing(cfg, Next(cfg, s, Pop(side))) && Closer(s, Next(cfg, s, Pop(side)))
    ensures KeepsWriting(s, Next(cfg, s, Pop(side)))
  {
    var o := side.Other();
    var e := s.Ep(side);
    var w := s.From(o);
    hide Receive, WakeInv, EndFlows, Conserved, Load;
    NextConserves(cfg, s, Pop(side));
    ReceiveWakes(cfg, e, w[0]);
    assert FrameFlows(w[0]) || (w[0].Close? && s.Ep(o).state.HalfClosedLocal?);
    if w[0].Data? {
      FrontFits(cfg, s, side);
    }
    TakingAdvances(cfg, e, w[0]);
    PopAssembles(cfg, s, side, Receive(cfg, e, w[0]).0);
  }

  lemma PopAssembles(cfg: Config, s: State, side: Side, e: Endpoint)
    requires s.From(side.Other()) != [] && Flowing(cfg, s)
    requires EndFlows(e) && WakeInv(e) && e.state == s.Ep(side).state && e.closer == s.Ep(side).closer
    requires e.handler.HPeerClose? ==> s.From(side.Other())[0].Close?
    requires var f := s.From(side.Other())[0]; Load(e) < Load(s.Ep(side)) + 5 * DataIn(f) + CreditIn(f) + 1
    ensures var s' := s.DropFrom(side.Other()).Put(side, e, []);
            && Closer(s, s') && AllWake(s')
            && EndFlows(s'.a) && EndFlows(s'.b)
            && WireFlows(s'.ab, s'.a.state) && WireFlows(s'.ba, s'.b.state)
            && Paired(s'.a, s'.b)
  {
    hide EndFlows, WakeInv, FlowInv, Load, Closer;
    assert s.ab + [] == s.ab && s.ba + [] == s.ba;
    var f := s.From(side.Other())[0];
    assert FrameFlows(f) || s.Ep(side.Other()).state.HalfClosedLocal?;
    assert WireFlows(s.From(side.Other())[1..], s.Ep(side.Other()).state);
    PopCloser(s, side, e);
  }

  lemma PopCloser(s: State, side: Side, e: Endpoint)
    requires s.From(side.Other()) != [] && s.ab + [] == s.ab && s.ba + [] == s.ba
    requires var f := s.From(side.Other())[0]; Load(e) < Load(s.Ep(side)) + 5 * DataIn(f) + CreditIn(f) + 1
    ensures Closer(s, s.DropFrom(side.Other()).Put(side, e, []))
  {
  }

  /** The measure: bytes left by stage first, then operations left. */
  lemma ProductiveActionsAdvance(cfg: Config, s: State, x: Action)
    requires cfg.Valid() && Flowing(cfg, s) && CanDo(s, x) && Productive(s, x)
    ensures Flowing(cfg, Next(cfg, s, x)) && Closer(s, Next(cfg, s, x)) && KeepsWriting(s, Next(cfg, s, x))
  {
    match x {
      case Act(side, m) => ActAdvances(cfg, s, side, m);
      case Pop(side) => PopAdvances(cfg, s, side);
    }
  }

  // ----- Every Write that returns has written everything -----

  /** Bytes handed to calls of Write that have not returned. */
  function Asked(ws: seq<Writer>): nat {
    if ws == [] then 0
    else Asked(ws[..|ws| - 1]) + if ws[|ws| - 1].pc.WIdle? then 0 else |ws[|ws| - 1].p|
  }

  lemma AskedSet(ws: seq<Writer>, i: nat, t: Writer)
    requires i < |ws|
    ensures Asked(ws[i := t]) + (if ws[i].pc.WIdle? then 0 else |ws[i].p|) ==
            Asked(ws) + if t.pc.WIdle? then 0 else |t.p|
  {
    var n := |ws| - 1;
    if i < n {
      AskedSet(ws[..n], i, t);
      assert ws[i := t][..n] == ws[..n][i := t];
    } else {
      assert ws[i := t][..n] == ws[..n];
    }
  }

  lemma NothingAsked(ws: seq<Writer>)
    requires forall i | 0 <= i < |ws| :: ws[i].pc.WIdle?
    ensures Asked(ws) == 0
  {
  }

  /** What was handed in is still being written or has been reported as written. */
  predicate EndReports(e: Endpoint, e': Endpoint) {
    |e'.accepted| + Asked(e'.writers) == |e.accepted| + Asked(e.writers)
  }

  predicate Reports(s: State, t: State) { EndReports(s.a, t.a) && EndReports(s.b, t.b) }

  lemma WriterReports(cfg: Config, e: Endpoint, i: nat)
    requires cfg.Valid() && Formed(cfg, e) && EndFlows(e) && CanMove(e, WStep(i))
    ensures EndReports(e, Moved(cfg, e, WStep(i)).0)
  {
    WriterIsBusy(cfg, e, i);
    var f := WriterStep(cfg, e.writers[i], e.state, e.window, e.windowTok);
    AskedSet(e.writers, i, f.t);
  }

  lemma MoveReports(cfg: Config, e: Endpoint, m: Move)
    requires cfg.Valid() && Formed(cfg, e) && EndFlows(e) && CanMove(e, m) && ProductiveMove(e.state, m)
    ensures EndReports(e, Moved(cfg, e, m).0)
  {
    match m {
      case WStep(i) => WriterReports(cfg, e, i);
      case HStep =>
      case _ =>
    }
  }

  lemma ProductiveReports(cfg: Config, s: State, x: Action)
    requires cfg.Valid() && Flowing(cfg, s) && CanDo(s, x) && Productive(s, x)
    ensures Reports(s, Next(cfg, s, x))
  {
    hide Asked, Moved, Receive, EndFlows, CanMove, Formed, WireFlows, Paired;
    match x {
      case Act(side, m) =>
        MoveReports(cfg, s.Ep(side), m);
      case Pop(side) =>
        TakesNoWriter(cfg, s.Ep(side), s.From(side.Other())[0]);
    }
  }

  lemma TakesNoWriter(cfg: Config, e: Endpoint, f: Frame)
    requires e.handler.HIdle?
    ensures var e' := Receive(cfg, e, f).0; e'.writers == e.writers && e'.accepted == e.accepted
  {
  }

  // ----- There is always a productive action -----

  /** The writer is not in a call, or waits for credit. */
  predicate Waits(t: Writer) { t.pc.WIdle? || t.pc.WSleep? }

  lemma WaitingReserveNothing(ws: seq<Writer>)
    requires forall i | 0 <= i < |ws| :: Waits(ws[i])
    ensures Reserved(ws) == 0
  {
    if ws != [] {
      assert Waits(ws[|ws| - 1]);
    }
  }

  lemma SleepersOweNothing(rs: seq<Reader>)
    requires forall i | 0 <= i < |rs| :: rs[i].pc.RSleep?
    ensures Uncredited(rs) == 0
  {
  }

  /** With nothing on the wires, in the handlers or in the writers' hands, all the credit the
      sleeping writer waits for is in the receiver's buffer or with its readers. */
  lemma CreditIsWithTheReader(cfg: Config, s: State, side: Side)
    requires cfg.Valid() && Flowing(cfg, s) && s.ab == [] && s.ba == []
    requires s.a.handler.HIdle? && s.b.handler.HIdle?
    requires forall k | 0 <= k < |s.Ep(side).writers| :: Waits(s.Ep(side).writers[k])
    requires exists k :: 0 <= k < |s.Ep(side).writers| && Asleep(s.Ep(side).writers[k])
    requires !s.Ep(side).windowTok
    ensures AsReceiver(s.Ep(side.Other())) == cfg.window
  {
    WaitingReserveNothing(s.Ep(side).writers);
    assert WakeInv(s.Ep(side));
    assert !SomeWillSignal(s.Ep(side).writers);
    assert Conserved(cfg, s, side) && Live(s, side);
  }

  /** A reader that holds back credit, or has data to take, can go on. */
  lemma ReaderGoesOn(cfg: Config, e: Endpoint) returns (m: Move)
    requires EndFlows(e) && WakeInv(e) && e.handler.HIdle? && 0 < AsReceiver(e) && !PeerEnded(e.state)
    ensures CanMove(e, m) && (m.RStep? || (m.RBegin? && 0 < m.limit))
  {
    if j :| 0 <= j < |e.readers| && !e.readers[j].pc.RSleep? {
      m := if e.readers[j].pc.RIdle? then RBegin(j, 1) else RStep(j);
    } else {
      SleepersOweNothing(e.readers);
      assert e.buf != [];
      assert forall k | 0 <= k < |e.readers| :: ReaderFlows(e.readers[k]) && Wants(e.readers[k]);
      m := RStep(0);
    }
  }

  /** While any Write is unfinished some productive action is enabled: flow control cannot deadlock. */
  lemma NoDeadlock(cfg: Config, s: State, side: Side, i: nat) returns (x: Action)
    requires cfg.Valid() && Flowing(cfg, s)
    requires i < |s.Ep(side).writers| && !s.Ep(side).writers[i].pc.WIdle?
    ensures CanDo(s, x) && Productive(s, x)
  {
    var o := side.Other();
    var e := s.Ep(side);
    if !s.a.handler.HIdle? {
      return Act(A, HStep);
    } else if !s.b.handler.HIdle? {
      return Act(B, HStep);
    } else if s.ab != [] {
      return Pop(B);
    } else if s.ba != [] {
      return Pop(A);
    } else if k :| 0 <= k < |e.writers| && !Waits(e.writers[k]) {
      return Act(side, WStep(k));
    } else if e.windowTok {
      assert Waits(e.writers[i]);
      return Act(side, WStep(i));
    } else {
      assert Waits(e.writers[i]) && Asleep(e.writers[i]);
      CreditIsWithTheReader(cfg, s, side);
      var m := ReaderGoesOn(cfg, s.Ep(o));
      return Act(o, m);
    }
  }

  // ----- Every Write finishes -----

  ghost predicate AllWritesDone(s: State) {
    forall side: Side, i | 0 <= i < |s.Ep(side).writers| :: s.Ep(side).writers[i].pc.WIdle?
  }

  lemma PathCons(cfg: Config, s: State, x: Action, rest: seq<Action>, t: State)
    requires cfg.Valid() && AllFormed(cfg, s) && CanDo(s, x) && Path(cfg, Next(cfg, s, x), rest, t)
    ensures Path(cfg, s, [x] + rest, t)
    ensures Productive(s, x) && AllProductive(cfg, Next(cfg, s, x), rest, t) ==>
              AllProductive(cfg, s, [x] + rest, t)
  {
    assert ([x] + rest)[0] == x && ([x] + rest)[1..] == rest;
  }

  lemma PathHere(cfg: Config, s: State)
    requires cfg.Valid() && Flowing(cfg, s)
    ensures AllFormed(cfg, s) && Path(cfg, s, [], s) && AllProductive(cfg, s, [], s)
  {
  }

  lemma PathHead(cfg: Config, s: State, acts: seq<Action>, t: State)
    requires cfg.Valid() && Path(cfg, s, acts, t)
    ensures AllFormed(cfg, s)
    ensures if acts == [] then s == t else CanDo(s, acts[0]) && Path(cfg, Next(cfg, s, acts[0]), acts[1..], t)
  {
  }

  /** Every action of the path is productive when it is taken. */
  ghost predicate AllProductive(cfg: Config, s: State, acts: seq<Action>, t: State)
    requires cfg.Valid() && Path(cfg, s, acts, t)
    decreases |acts|
  {
    acts == [] || (Productive(s, acts[0]) && AllProductive(cfg, Next(cfg, s, acts[0]), acts[1..], t))
  }

  lemma GoOn(cfg: Config, s: State) returns (x: Action, next: State)
    requires cfg.Valid() && Flowing(cfg, s) && !AllWritesDone(s)
    ensures CanDo(s, x) && Productive(s, x) && next == Next(cfg, s, x)
    ensures Flowing(cfg, next) && Closer(s, next) && KeepsWriting(s, next) && Reports(s, next)
  {
    var side: Side, i: nat :| i < |s.Ep(side).writers| && !s.Ep(side).writers[i].pc.WIdle?;
    x := NoDeadlock(cfg, s, side, i);
    ProductiveActionsAdvance(cfg, s, x);
    ProductiveReports(cfg, s, x);
    next := Next(cfg, s, x);
  }

  /** Every Write under way in s has returned by t, having written its whole slice. */
  ghost predicate AllWritten(s: State, t: State) {
    && AllWritesDone(t)
    && |t.a.accepted| == |s.a.accepted| + Asked(s.a.writers)
    && |t.b.accepted| == |s.b.accepted| + Asked(s.b.writers)
  }

  lemma DoneIsWritten(s: State, t: State)
    requires AllWritesDone(t) && Reports(s, t)
    ensures AllWritten(s, t)
  {
    assert t.Ep(A) == t.a && t.Ep(B) == t.b;
    NothingAsked(t.a.writers);
    NothingAsked(t.b.writers);
  }

  /**
   * From every live state, productive actions alone - and every one of them brings the state
   * closer - lead to a state in which every Write has returned, having written all it was given.
   */
  lemma WritesFinish(cfg: Config, s: State) returns (acts: seq<Action>, t: State)
    requires cfg.Valid() && Flowing(cfg, s)
    ensures Path(cfg, s, acts, t) && AllProductive(cfg, s, acts, t)
    ensures Flowing(cfg, t) && AllWritten(s, t)
  {
    hide Flowing, Path, AllProductive, AllWritten;
    acts, t := RunToRest(cfg, s);
    DoneIsWritten(s, t);
  }

  lemma {:induction false} RunToRest(cfg: Config, s: State) returns (acts: seq<Action>, t: State)
    requires cfg.Valid() && Flowing(cfg, s)
    ensures Path(cfg, s, acts, t) && AllProductive(cfg, s, acts, t)
    ensures Flowing(cfg, t) && AllWritesDone(t) && Reports(s, t)
    decreases TotalLoad(s), Steps(s.a) + Steps(s.b)
  {
    hide Flowing, Path, AllFormed, Next, CanDo, AllWritesDone, TotalLoad, Steps, AllProductive, Productive, Asked;
    PathHere(cfg, s);
    if !AllWritesDone(s) {
      var x, next := GoOn(cfg, s);
      var rest;
      rest, t := RunToRest(cfg, next);
      PathCons(cfg, s, x, rest, t);
      acts := [x] + rest;
    } else {
      acts, t := [], s;
    }
  }

  /** What callers do: start a Write on an end that is open for writing, or close an end - whose
      Writes have returned - while the peer has not closed. */
  predicate Calls(s: State, x: Action) {
    x.Act? && (Begins(s.Ep(x.side), x.move) || Ends(s.Ep(x.side), s.Ep(x.side.Other()), x.move))
  }

  predicate Begins(e: Endpoint, m: Move) {
    m.WBegin? && MayWrite(e.state) && !e.closer.CCas?
  }

  predicate Ends(e: Endpoint, peer: Endpoint, m: Move) {
    && m.CloseStep?
    && (e.closer.CIdle? ==>
          && e.state.Active? && peer.state.Active? && !peer.closer.CCas?
          && forall i | 0 <= i < |e.writers| :: e.writers[i].pc.WIdle?)
  }

  /** The peer knows nothing of these yet. */
  lemma CallFlows(cfg: Config, s: State, x: Action)
    requires cfg.Valid() && Flowing(cfg, s) && CanDo(s, x) && Calls(s, x)
    ensures Flowing(cfg, Next(cfg, s, x))
  {
    var e, m := s.Ep(x.side), x.move;
    var r := Moved(cfg, e, m);
    NextConserves(cfg, s, x);
    MoveWakes(cfg, e, m);
    if m.WBegin? {
      BeginFlows(cfg, e, m.i, m.p);
    } else {
      EndingFlows(cfg, e, s.Ep(x.side.Other()));
    }
    hide Moved, EndFlows, WakeInv, Conserved;
    CallFits(s, x.side, r.0, r.1);
  }

  /** What a call leaves fits the peer that fitted before. */
  predicate CallStep(e: Endpoint, peer: Endpoint, e': Endpoint, out: seq<Frame>) {
    && e'.handler == e.handler
    && (e'.state == e.state || (e.state.Active? && e'.state.HalfClosedLocal? && peer.state.Active?))
    && (e'.closer.CCas? ==> e'.state.Active? && peer.state.Active? && !peer.closer.CCas?)
    && (out == [] || (out == [Close] && e'.state.HalfClosedLocal?))
    && (peer.closer.CCas? ==> e'.state.Active? && !e'.closer.CCas?)
  }

  lemma CallFits(s: State, side: Side, e: Endpoint, out: seq<Frame>)
    requires Paired(s.a, s.b) && CallStep(s.Ep(side), s.Ep(side.Other()), e, out)
    requires WireFlows(s.From(side), s.Ep(side).state) && WireFlows(s.From(side.Other()), s.Ep(side.Other()).state)
    ensures var s' := s.Put(side, e, out);
            Paired(s'.a, s'.b) && WireFlows(s'.ab, s'.a.state) && WireFlows(s'.ba, s'.b.state)
  {
  }

  lemma BeginFlows(cfg: Config, e: Endpoint, i: nat, p: seq<byte>)
    requires cfg.Valid() && Formed(cfg, e) && EndFlows(e) && CanMove(e, WBegin(i, p)) && Begins(e, WBegin(i, p))
    ensures var r := Moved(cfg, e, WBegin(i, p));
            EndFlows(r.0) && r.0 == e.(writers := r.0.writers) && r.1 == []
  {
  }

  lemma EndingFlows(cfg: Config, e: Endpoint, peer: Endpoint)
    requires cfg.Valid() && Formed(cfg, e) && EndFlows(e) && CanMove(e, CloseStep) && Ends(e, peer, CloseStep)
    requires StatesFit(e.state, peer.state) && Heeds(e, peer) && Heeds(peer, e)
    ensures var r := Moved(cfg, e, CloseStep); EndFlows(r.0) && CallStep(e, peer, r.0, r.1)
  {
  }

  lemma InitialFlows(cfg: Config, s: State)
    requires cfg.Valid() && Initial(cfg, s) && s.a.readers != [] && s.b.readers != []
    ensures Flowing(cfg, s)
  {
    InitialConserved(cfg, s);
    InitialWakes(cfg, s);
  }

  /** Any mix of callers' calls and productive actions. */
  ghost predicate Busy(cfg: Config, s: State, acts: seq<Action>, t: State)
    requires cfg.Valid() && Path(cfg, s, acts, t)
    decreases |acts|
  {
    acts == [] ||
    ((Productive(s, acts[0]) || Calls(s, acts[0])) && Busy(cfg, Next(cfg, s, acts[0]), acts[1..], t))
  }

  lemma {:induction false} BusyPathFlows(cfg: Config, s: State, acts: seq<Action>, t: State)
    requires cfg.Valid() && Flowing(cfg, s) && Path(cfg, s, acts, t) && Busy(cfg, s, acts, t)
    ensures Flowing(cfg, t)
    decreases |acts|
  {
    hide Flowing, AllFormed, Next, CanDo, Productive, Calls;
    PathHead(cfg, s, acts, t);
    if acts != [] {
      if Productive(s, acts[0]) {
        ProductiveActionsAdvance(cfg, s, acts[0]);
      } else {
        CallFlows(cfg, s, acts[0]);
      }
      BusyPathFlows(cfg, Next(cfg, s, acts[0]), acts[1..], t);
    }
  }

  lemma BusyFirst(cfg: Config, s: State, x: Action, next: State, rest: seq<Action>, t: State)
    requires cfg.Valid() && AllFormed(cfg, s) && CanDo(s, x) && Next(cfg, s, x) == next
    requires Productive(s, x) || Calls(s, x)
    requires Path(cfg, next, rest, t) && Busy(cfg, next, rest, t)
    ensures Path(cfg, s, [x] + rest, t) && Busy(cfg, s, [x] + rest, t)
  {
    assert ([x] + rest)[0] == x && ([x] + rest)[1..] == rest;
  }

  /** B takes the CLOSE of A. */
  lemma Hears(cfg: Config, s: State) returns (acts: seq<Action>, t: State)
    requires cfg.Valid() && AllFormed(cfg, s) && s.ab == [Close] && s.ba == []
    requires s.b.handler.HIdle? && s.b.state.Active? && s.b.registered
    ensures Path(cfg, s, acts, t) && Busy(cfg, s, acts, t)
    ensures t.a == s.a && t.b.state.HalfClosedRemote?
  {
    hide Path, Busy;
    assert s.b.buf + [] == s.b.buf && s.ba + [] == s.ba;
    var s1 := s.(b := s.b.(handler := HPeerClose(Active), peerClosed := true), ab := []);
    var s2 := s1.(b := s1.b.(handler := HEndSignal(false), state := HalfClosedRemote));
    t := s2.(b := s2.b.(handler := HIdle, readTok := true));
    BusyHere(cfg, t);
    BusyFirst(cfg, s2, Act(B, HStep), t, [], t);
    BusyFirst(cfg, s1, Act(B, HStep), s2, [Act(B, HStep)] + [], t);
    BusyFirst(cfg, s, Pop(B), s1, [Act(B, HStep)] + ([Act(B, HStep)] + []), t);
    acts := [Pop(B)] + ([Act(B, HStep)] + ([Act(B, HStep)] + []));
  }

  lemma BusyHere(cfg: Config, t: State)
    requires cfg.Valid() && AllFormed(cfg, t)
    ensures Path(cfg, t, [], t) && Busy(cfg, t, [], t)
  {
  }

  /** A, past the swap of its Close, tells B, and B hears. */
  lemma Tells(cfg: Config, s: State) returns (acts: seq<Action>, t: State)
    requires cfg.Valid() && AllFormed(cfg, s) && s.ab == [] && s.ba == []
    requires s.a.closer.CFinal? && s.a.state.HalfClosedLocal? && s.a.registered && !s.a.done && !s.a.broken
    requires s.b.handler.HIdle? && s.b.state.Active? && s.b.registered
    ensures Path(cfg, s, acts, t) && Busy(cfg, s, acts, t)
    ensures t.a.state.HalfClosedLocal? && t.a.closer.CDone? && t.b.state.HalfClosedRemote?
  {
    hide Path, Busy, WriterOk, WriterStep, ReaderStep, HandlerStep;
    assert s.ab + [] == s.ab;
    var s1 := s.(a := s.a.(closer := CSend(false)));
    var s2 := s1.(a := s1.a.(closer := CDone), ab := [Close]);
    acts, t := Hears(cfg, s2);
    var x := Act(A, CloseStep);
    BusyFirst(cfg, s1, x, s2, acts, t);
    BusyFirst(cfg, s, x, s1, [x] + acts, t);
    acts := [x] + ([x] + acts);
  }

  /** Such runs do close a direction: from a fresh stream to one closed by A, as B knows. */
  lemma HalfCloses(cfg: Config, s: State) returns (acts: seq<Action>, t: State)
    requires cfg.Valid() && Initial(cfg, s)
    ensures Path(cfg, s, acts, t) && Busy(cfg, s, acts, t)
    ensures t.a.state.HalfClosedLocal? && t.a.closer.CDone? && t.b.state.HalfClosedRemote?
  {
    assert AllFormed(cfg, s);
    hide Path, Busy, WriterStep, ReaderStep, HandlerStep;
    assert s.ab + [] == s.ab;
    var s1 := s.(a := s.a.(closer := CCas(Active)));
    var s2 := s1.(a := s1.a.(closer := CFinal, state := HalfClosedLocal));
    acts, t := Tells(cfg, s2);
    var x := Act(A, CloseStep);
    BusyFirst(cfg, s1, x, s2, acts, t);
    BusyFirst(cfg, s, x, s1, [x] + acts, t);
    acts := [x] + ([x] + acts);
  }

  /** However many writers have written however much on a fresh stream, and whichever end has closed
      its direction at whatever moment, all calls of Write can finish, having written all they were
      given - the CLOSE may still be on the wire, in a handler's hands, or between the operations of
      Close. */
  lemma BusyWritesFinish(cfg: Config, s: State, acts: seq<Action>, t: State) returns (more: seq<Action>, u: State)
    requires cfg.Valid() && Initial(cfg, s) && s.a.readers != [] && s.b.readers != []
    requires Path(cfg, s, acts, t) && Busy(cfg, s, acts, t)
    ensures Path(cfg, t, more, u) && AllProductive(cfg, t, more, u) && AllWritten(t, u)
  {
    hide Flowing, Path, Busy, AllProductive, AllWritten;
    InitialFlows(cfg, s);
    BusyPathFlows(cfg, s, acts, t);
    more, u := WritesFinish(cfg, t);
  }
}
