/**
 * One stream between two multiplexers, at the grain of single atomic operations.
 *
 * Each side has any number of threads inside Write and Read, one read loop
 * handling the peer's frames, one Close, and may reset the stream or lose the
 * connection at any moment.  A move is one atomic load, store, compare-and-swap,
 * channel operation, buffer lock section or frame write, except that these are
 * merged into one move each:
 *
 *  - LocalReset, and in Receive a RST or an overflow: storing the state, both
 *    signals, the answering RST and forgetting the stream;
 *  - MuxClosed: the loop over the state, both signals and forgetting the stream;
 *  - HEndSignal: the reader's signal and forgetting a stream closed by both;
 *  - CSend: the test for the end of the connection, the CLOSE and forgetting the
 *    stream;
 *  - Receive: taking a frame off the wire, looking its stream up and, for data,
 *    the test against the window; for CLOSE, loading the state.
 *
 * A frame gets onto the wire whole or not at all, and a connection on which a
 * write has failed carries nothing more.  That is what a reader sees of the frame
 * writer provided no frame is written after a torn one (FrameWriters.TornFrame).
 */
module StreamMachine {
  import opened Base
  import opened StreamCore

  datatype Frame = Data(bytes: seq<byte>) | Credit(delta: nat) | Close | Rst

  /** Both sides use the same window and frame size. */
  datatype Config = Config(window: nat, maxFrame: nat) {
    predicate Valid() { 0 < window && 0 < maxFrame }
  }

  // Where a thread stands in Write. A number is a value the thread read or a chunk it reserved.
  datatype WriterPc =
    | WIdle
    | WEnter
    | WLoop
    | WLoad
    | WSleep
    | WCas(seen: int)
    | WCheck(chunk: nat)
    | WSignal(chunk: nat)
    | WSend(chunk: nat)
    | WRefund(chunk: nat)
    | WRefundSignal

  datatype Writer = Writer(pc: WriterPc, p: seq<byte>, total: nat)

  // Where a thread stands in Read; muxDone is the flag of the same name.
  datatype ReaderPc =
    | RIdle
    | RTop(muxDone: bool)
    | RDrain(state: StreamState, muxDone: bool)
    | RCredit(n: nat)
    | RSleep

  datatype Outcome = NoCall | Bytes(n: nat) | EndOfFile | ResetError | UnexpectedEof

  /** limit is the length of the caller's slice; outcome is what the call returned, once it has. */
  datatype Reader = Reader(pc: ReaderPc, limit: nat, outcome: Outcome)

  // Where the read loop stands in the handler of the frame it took last.
  datatype HandlerPc =
    | HIdle
    | HStore(bytes: seq<byte>)
    | HReadSignal
    | HPeerClose(state: StreamState)
    | HEndSignal(cleanup: bool)
    | HCredit(delta: nat)
    | HCas(seen: int, delta: nat)
    | HSignal

  datatype CloserPc = CIdle | CCas(state: StreamState) | CFinal | CSend(cleanup: bool) | CDone

  datatype Endpoint = Endpoint(
    state: StreamState,
    registered: bool,
    window: int,
    windowTok: bool,
    readTok: bool,
    buf: seq<byte>,
    done: bool,     // mux.done is closed
    broken: bool,   // writes to the connection fail
    writers: seq<Writer>,
    readers: seq<Reader>,
    handler: HandlerPc,
    closer: CloserPc,
    // History: no move looks at these.
    sent: seq<byte>,      // the data put on the wire
    accepted: seq<byte>,  // the bytes finished Write calls reported as written
    delivered: seq<byte>, // the bytes taken out by Read, in the order taken
    peerClosed: bool)     // the peer's CLOSE reached the registered stream

  datatype Move =
    | WBegin(i: nat, p: seq<byte>) | WStep(i: nat) | WFail(i: nat) | WDone(i: nat)
    | RBegin(i: nat, limit: nat) | RStep(i: nat) | RFail(i: nat) | RDone(i: nat)
    | HStep
    | CloseStep
    | LocalReset | Breaks | MuxDies | MuxClosed

  // ----- Write -----

  /** What one operation of a writer leaves: its own record, the window and the token; and
      the bytes it put on the wire or reported as written. */
  datatype WriterEffect = WriterEffect(t: Writer, window: int, tok: bool, piece: seq<byte>, reported: seq<byte>)

  /** The call returns, reporting the bytes sent so far. */
  function Returns(t: Writer, window: int, tok: bool): WriterEffect
    requires t.total <= |t.p|
  {
    WriterEffect(Writer(WIdle, [], 0), window, tok, [], t.p[..t.total])
  }

  function Goes(t: Writer, pc: WriterPc, window: int, tok: bool): WriterEffect {
    WriterEffect(t.(pc := pc), window, tok, [], [])
  }

  function ChunkFor(cfg: Config, t: Writer, seen: int): int {
    Min(Min(|t.p| - t.total, seen), cfg.maxFrame)
  }

  /** The next chunk to go out lies inside the slice being written. */
  predicate WriterOk(cfg: Config, t: Writer) {
    && t.total <= |t.p|
    && match t.pc
       case WLoad => t.total < |t.p|
       case WSleep => t.total < |t.p|
       case WCas(seen) => t.total < |t.p| && 0 < seen
       case WCheck(c) => 0 < c <= |t.p| - t.total && c <= cfg.maxFrame
       case WSignal(c) => 0 < c <= |t.p| - t.total && c <= cfg.maxFrame
       case WSend(c) => 0 < c <= |t.p| - t.total && c <= cfg.maxFrame
       case _ => true
  }

  predicate WriterReady(t: Writer, tok: bool, broken: bool) {
    match t.pc
    case WIdle => false
    case WSleep => tok
    case WSend(_) => !broken
    case _ => true
  }

  function WriterStep(cfg: Config, t: Writer, st: StreamState, window: int, tok: bool): (f: WriterEffect)
    requires cfg.Valid() && WriterOk(cfg, t) && !t.pc.WIdle?
  {
    match t.pc
    case WEnter =>
      if MayWrite(st) then Goes(t, WLoop, window, tok) else Returns(t, window, tok)
    case WLoop =>
      if t.total < |t.p| && MayWrite(st) then Goes(t, WLoad, window, tok) else Returns(t, window, tok)
    case WLoad =>
      Goes(t, if window <= 0 then WSleep else WCas(window), window, tok)
    case WSleep =>
      Goes(t, WLoop, window, false)
    case WCas(seen) =>
      var c := ChunkFor(cfg, t, seen);
      if window == seen then Goes(t, WCheck(c), window - c, tok) else Goes(t, WLoop, window, tok)
    case WCheck(c) =>
      Goes(t, if window > 0 then WSignal(c) else WSend(c), window, tok)
    case WSignal(c) =>
      Goes(t, WSend(c), window, true)
    case WSend(c) =>
      WriterEffect(Writer(WLoop, t.p, t.total + c), window, tok, t.p[t.total..t.total + c], [])
    case WRefund(c) =>
      Goes(t, WRefundSignal, window + c, tok)
    case WRefundSignal =>
      Returns(t, window, true)
  }

  function PutWriter(e: Endpoint, i: nat, f: WriterEffect): Endpoint
    requires i < |e.writers|
  {
    e.(writers := e.writers[i := f.t], window := f.window, windowTok := f.tok,
       sent := e.sent + f.piece, accepted := e.accepted + f.reported)
  }

  // ----- Read -----

  /** What one operation of a reader leaves; it took the first `taken` bytes of the buffer and
      owes or sent the credit for them. */
  datatype ReaderEffect = ReaderEffect(t: Reader, tok: bool, taken: nat, credit: nat)

  function Ends(t: Reader, outcome: Outcome, tok: bool, credit: nat): ReaderEffect {
    ReaderEffect(t.(pc := RIdle, outcome := outcome), tok, 0, credit)
  }

  predicate ReaderReady(t: Reader, tok: bool, broken: bool) {
    match t.pc
    case RIdle => false
    case RCredit(_) => !broken
    case RSleep => tok
    case _ => true
  }

  function ReaderStep(t: Reader, st: StreamState, buffered: nat, tok: bool): (f: ReaderEffect)
    requires !t.pc.RIdle?
    ensures f.taken <= buffered
  {
    match t.pc
    case RTop(muxDone) => ReaderEffect(t.(pc := RDrain(st, muxDone)), tok, 0, 0)
    case RDrain(seen, muxDone) =>
      var n := Min(t.limit, buffered);
      if n > 0 then ReaderEffect(t.(pc := RCredit(n)), tok, n, 0)
      else if PeerEnded(seen) then Ends(t, EndOfFile, tok, 0)
      else if seen.Reset? then Ends(t, ResetError, tok, 0)
      else if muxDone then Ends(t, UnexpectedEof, tok, 0)
      else ReaderEffect(t.(pc := RSleep), tok, 0, 0)
    case RCredit(n) => Ends(t, Bytes(n), tok, n)
    case RSleep => ReaderEffect(t.(pc := RTop(false)), false, 0, 0)
  }

  function PutReader(e: Endpoint, i: nat, f: ReaderEffect): Endpoint
    requires i < |e.readers| && f.taken <= |e.buf|
  {
    e.(readers := e.readers[i := f.t], readTok := f.tok,
       buf := e.buf[f.taken..], delivered := e.delivered + e.buf[..f.taken])
  }

  // ----- The read loop -----

  /** A reset from either side: final, both kinds of sleeper are woken, the stream is forgotten. */
  function ResetEndpoint(e: Endpoint): Endpoint {
    e.(state := Reset, registered := false, windowTok := true, readTok := true)
  }

  function Answer(e: Endpoint, f: Frame): seq<Frame> {
    if e.broken then [] else [f]
  }

  /** The read loop takes the next frame of the peer. */
  function Receive(cfg: Config, e: Endpoint, f: Frame): (r: (Endpoint, seq<Frame>))
    requires e.handler.HIdle?
  {
    match f
    case Data(b) =>
      if !e.registered then (e, Answer(e, Rst))
      else if |e.buf| + |b| > cfg.window then (ResetEndpoint(e), Answer(e, Rst))
      else (e.(handler := HStore(b)), [])
    case Credit(d) =>
      (if e.registered then e.(handler := HCredit(d)) else e, [])
    case Close =>
      (if e.registered then e.(handler := HPeerClose(e.state), peerClosed := true) else e, [])
    case Rst =>
      (if e.registered then ResetEndpoint(e) else e, [])
  }

  /** What one operation of the read loop leaves; `stored` goes into the buffer, `forget`
      takes the stream out of the multiplexer's map. */
  datatype HandlerEffect = HandlerEffect(
    h: HandlerPc, state: StreamState, window: int, windowTok: bool, readTok: bool,
    stored: seq<byte>, forget: bool)

  function HandlerStep(cfg: Config, h: HandlerPc, st: StreamState, window: int, windowTok: bool, readTok: bool)
    : (f: HandlerEffect)
    requires !h.HIdle?
  {
    var same := HandlerEffect(HIdle, st, window, windowTok, readTok, [], false);
    match h
    case HStore(b) => same.(stored := b, h := HReadSignal)
    case HReadSignal => same.(readTok := true)
    case HPeerClose(seen) =>
      if st == seen then same.(state := AfterPeerClose(seen), h := HEndSignal(seen.HalfClosedLocal?))
      else same.(h := HEndSignal(false))
    case HEndSignal(cleanup) => same.(readTok := true, forget := cleanup)
    case HCredit(d) => same.(h := HCas(window, d))
    case HCas(seen, d) =>
      if window == seen then same.(window := Credited(seen, d, cfg.window), h := HSignal)
      else same.(h := HCredit(d))
    case HSignal => same.(windowTok := true)
  }

  function PutHandler(e: Endpoint, f: HandlerEffect): Endpoint {
    e.(handler := f.h, state := f.state, window := f.window, windowTok := f.windowTok, readTok := f.readTok,
       buf := e.buf + f.stored, registered := e.registered && !f.forget)
  }

  // ----- Close, Reset, loss of the connection -----

  /** What one operation of Close leaves; `says` is whether the CLOSE frame is due now. */
  datatype CloserEffect = CloserEffect(c: CloserPc, state: StreamState, says: bool, forget: bool)

  function CloserStep(c: CloserPc, st: StreamState): (f: CloserEffect)
    requires !c.CDone?
  {
    match c
    case CIdle => CloserEffect(CCas(st), st, false, false)
    case CCas(seen) => CloserEffect(CFinal, if st == seen then AfterLocalClose(seen) else st, false, false)
    case CFinal => CloserEffect(CSend(st.Closed? || st.Reset?), st, false, false)
    case CSend(cleanup) => CloserEffect(CDone, st, true, cleanup)
  }

  function PutCloser(e: Endpoint, f: CloserEffect): Endpoint {
    e.(closer := f.c, state := f.state, registered := e.registered && !f.forget)
  }

  predicate CanMove(e: Endpoint, m: Move) {
    match m
    case WBegin(i, p) => i < |e.writers| && e.writers[i].pc.WIdle?
    case WStep(i) => i < |e.writers| && WriterReady(e.writers[i], e.windowTok, e.broken)
    case WFail(i) => i < |e.writers| && e.writers[i].pc.WSend? && e.broken
    case WDone(i) => i < |e.writers| && e.writers[i].pc.WSleep? && e.done
    case RBegin(i, limit) => i < |e.readers| && e.readers[i].pc.RIdle?
    case RStep(i) => i < |e.readers| && ReaderReady(e.readers[i], e.readTok, e.broken)
    case RFail(i) => i < |e.readers| && e.readers[i].pc.RCredit? && e.broken
    case RDone(i) => i < |e.readers| && e.readers[i].pc.RSleep? && e.done
    case HStep => !e.handler.HIdle?
    case CloseStep => !e.closer.CDone?
    case LocalReset => true
    case Breaks => true
    case MuxDies => true
    case MuxClosed => e.done && e.registered
  }

  /** Facts about program positions that every move keeps. */
  ghost predicate Formed(cfg: Config, e: Endpoint) {
    && 0 <= e.window
    && (forall i | 0 <= i < |e.writers| :: WriterOk(cfg, e.writers[i]))
  }

  /** One move of one side and the frames it writes to the connection. */
  function Moved(cfg: Config, e: Endpoint, m: Move): (r: (Endpoint, seq<Frame>))
    requires cfg.Valid() && Formed(cfg, e) && CanMove(e, m)
  {
    match m
    case WBegin(i, p) => (e.(writers := e.writers[i := Writer(WEnter, p, 0)]), [])
    case WStep(i) =>
      var f := WriterStep(cfg, e.writers[i], e.state, e.window, e.windowTok);
      (PutWriter(e, i, f), if f.piece == [] then [] else [Data(f.piece)])
    case WFail(i) =>
      (PutWriter(e, i, Goes(e.writers[i], WRefund(e.writers[i].pc.chunk), e.window, e.windowTok)), [])
    case WDone(i) =>
      (PutWriter(e, i, Returns(e.writers[i], e.window, e.windowTok)), [])
    case RBegin(i, limit) =>
      (e.(readers := e.readers[i := e.readers[i].(pc := RTop(false), limit := limit, outcome := NoCall)]), [])
    case RStep(i) =>
      var f := ReaderStep(e.readers[i], e.state, |e.buf|, e.readTok);
      (PutReader(e, i, f), if f.credit == 0 then [] else [Credit(f.credit)])
    case RFail(i) =>
      (PutReader(e, i, Ends(e.readers[i], Bytes(e.readers[i].pc.n), e.readTok, 0)), [])
    case RDone(i) =>
      (PutReader(e, i, ReaderEffect(e.readers[i].(pc := RTop(true)), e.readTok, 0, 0)), [])
    case HStep =>
      (PutHandler(e, HandlerStep(cfg, e.handler, e.state, e.window, e.windowTok, e.readTok)), [])
    case CloseStep =>
      var f := CloserStep(e.closer, e.state);
      (PutCloser(e, f), if f.says && !e.done then Answer(e, Close) else [])
    case LocalReset => (ResetEndpoint(e), if e.done then [] else Answer(e, Rst))
    case Breaks => (e.(broken := true), [])
    case MuxDies => (e.(done := true), [])
    case MuxClosed =>
      (e.(state := AfterMuxClosed(e.state), registered := false, windowTok := true, readTok := true), [])
  }

  // ----- The two sides and the wires between them -----

  datatype Side = A | B {
    function Other(): Side { if this == A then B else A }
  }

  /** ab holds what A wrote and B has not read yet, oldest first; ba the other way. */
  datatype State = State(a: Endpoint, b: Endpoint, ab: seq<Frame>, ba: seq<Frame>) {
    function Ep(s: Side): Endpoint { if s == A then a else b }
    function From(s: Side): seq<Frame> { if s == A then ab else ba }
    function Put(s: Side, e: Endpoint, out: seq<Frame>): State {
      if s == A then State(e, b, ab + out, ba) else State(a, e, ab, ba + out)
    }
    function DropFrom(s: Side): State
      requires From(s) != []
    {
      if s == A then State(a, b, ab[1..], ba) else State(a, b, ab, ba[1..])
    }
  }

  datatype Action = Act(side: Side, move: Move) | Pop(side: Side)

  ghost predicate AllFormed(cfg: Config, s: State) {
    Formed(cfg, s.a) && Formed(cfg, s.b)
  }

  predicate CanDo(s: State, x: Action) {
    match x
    case Act(side, m) => CanMove(s.Ep(side), m)
    case Pop(side) => s.From(side.Other()) != [] && s.Ep(side).handler.HIdle?
  }

  /** Pop(side): the read loop of `side` takes the oldest frame its peer wrote. */
  function Next(cfg: Config, s: State, x: Action): State
    requires cfg.Valid() && AllFormed(cfg, s) && CanDo(s, x)
  {
    match x
    case Act(side, m) =>
      var r := Moved(cfg, s.Ep(side), m);
      s.Put(side, r.0, r.1)
    case Pop(side) =>
      var r := Receive(cfg, s.Ep(side), s.From(side.Other())[0]);
      s.DropFrom(side.Other()).Put(side, r.0, r.1)
  }

  function FreshEndpoint(cfg: Config, writers: nat, readers: nat): Endpoint {
    Endpoint(Active, true, cfg.window, false, false, [], false, false,
             seq(writers, _ => Writer(WIdle, [], 0)), seq(readers, _ => Reader(RIdle, 0, NoCall)),
             HIdle, CIdle, [], [], [], false)
  }

  /** A stream both sides have just registered, with the given numbers of threads. */
  predicate Initial(cfg: Config, s: State) {
    && s.a == FreshEndpoint(cfg, |s.a.writers|, |s.a.readers|)
    && s.b == FreshEndpoint(cfg, |s.b.writers|, |s.b.readers|)
    && s.ab == [] && s.ba == []
  }

  /** The actions lead from s to t, each enabled where it is taken. */
  ghost predicate Path(cfg: Config, s: State, acts: seq<Action>, t: State)
    requires cfg.Valid()
    decreases |acts|
  {
    && AllFormed(cfg, s)
    && if acts == [] then s == t else CanDo(s, acts[0]) && Path(cfg, Next(cfg, s, acts[0]), acts[1..], t)
  }

  // ----- Well-formedness is kept -----

  lemma WriterStepOk(cfg: Config, t: Writer, st: StreamState, window: int, tok: bool)
    requires cfg.Valid() && WriterOk(cfg, t) && !t.pc.WIdle? && 0 <= window
    ensures var f := WriterStep(cfg, t, st, window, tok); WriterOk(cfg, f.t) && 0 <= f.window
  {
  }

  /** The other moves leave the writers alone and keep the window non-negative. */
  lemma MovedOthers(cfg: Config, e: Endpoint, m: Move)
    requires cfg.Valid() && Formed(cfg, e) && CanMove(e, m)
    requires !m.WBegin? && !m.WStep? && !m.WFail? && !m.WDone?
    ensures var e' := Moved(cfg, e, m).0; e'.writers == e.writers && 0 <= e'.window
  {
    match m {
      case HStep =>
      case RStep(i) =>
      case CloseStep =>
      case _ =>
    }
  }

  lemma MovedFormed(cfg: Config, e: Endpoint, m: Move)
    requires cfg.Valid() && Formed(cfg, e) && CanMove(e, m)
    ensures Formed(cfg, Moved(cfg, e, m).0)
  {
    if m.WStep? {
      WriterStepOk(cfg, e.writers[m.i], e.state, e.window, e.windowTok);
    } else if m.WBegin? || m.WFail? || m.WDone? {
      assert WriterOk(cfg, e.writers[m.i]);
    } else {
      MovedOthers(cfg, e, m);
    }
  }

  lemma NextFormed(cfg: Config, s: State, x: Action)
    requires cfg.Valid() && AllFormed(cfg, s) && CanDo(s, x)
    ensures AllFormed(cfg, Next(cfg, s, x))
  {
    hide Moved, Receive, WriterOk;
    if x.Act? {
      MovedFormed(cfg, s.Ep(x.side), x.move);
    } else {
      ReceiveFormed(cfg, s.Ep(x.side), s.From(x.side.Other())[0]);
    }
  }

  lemma ReceiveFormed(cfg: Config, e: Endpoint, f: Frame)
    requires Formed(cfg, e) && e.handler.HIdle?
    ensures Formed(cfg, Receive(cfg, e, f).0)
  {
  }

  lemma {:induction false} PathFormed(cfg: Config, s: State, acts: seq<Action>, t: State)
    requires cfg.Valid() && Path(cfg, s, acts, t)
    ensures AllFormed(cfg, t)
    decreases |acts|
  {
    if acts != [] {
      PathFormed(cfg, Next(cfg, s, acts[0]), acts[1..], t);
    }
  }

  /** A move changes its own side and appends to its own wire. */
  lemma AfterAct(cfg: Config, s: State, side: Side, m: Move)
    requires cfg.Valid() && AllFormed(cfg, s) && CanMove(s.Ep(side), m)
    ensures var o := side.Other();
            var r := Moved(cfg, s.Ep(side), m);
            var s' := Next(cfg, s, Act(side, m));
            && s'.Ep(side) == r.0 && s'.Ep(o) == s.Ep(o)
            && s'.From(side) == s.From(side) + r.1 && s'.From(o) == s.From(o)
  {
  }

  /** Taking a frame also shortens the peer's wire by that frame. */
  lemma AfterPop(cfg: Config, s: State, side: Side)
    requires cfg.Valid() && AllFormed(cfg, s) && CanDo(s, Pop(side))
    ensures var o := side.Other();
            var r := Receive(cfg, s.Ep(side), s.From(o)[0]);
            var s' := Next(cfg, s, Pop(side));
            && s'.Ep(side) == r.0 && s'.Ep(o) == s.Ep(o)
            && s'.From(side) == s.From(side) + r.1 && s'.From(o) == s.From(o)[1..]
  {
  }
}
