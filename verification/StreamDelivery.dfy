/** What is read is what was written, and end of file means all of it. */
module StreamDelivery {
  import opened Base
  import opened StreamCore
  import opened StreamMachine
  import opened StreamConservation

  function Payload(f: Frame): seq<byte> {
    if f.Data? then f.bytes else []
  }

  function BytesOn(wire: seq<Frame>): seq<byte> {
    if wire == [] then [] else Payload(wire[0]) + BytesOn(wire[1..])
  }

  function HeldBytes(h: HandlerPc): seq<byte> {
    if h.HStore? then h.bytes else []
  }

  /** Every byte that reached the endpoint's buffer or is on its way from the handler. */
  function Received(e: Endpoint): seq<byte> {
    e.delivered + e.buf + HeldBytes(e.handler)
  }

  /** No data follows a CLOSE. */
  ghost predicate DataBeforeClose(wire: seq<Frame>) {
    forall i, j | 0 <= i < j < |wire| :: wire[i].Close? ==> !wire[j].Data?
  }

  predicate WritersIdle(e: Endpoint) {
    forall i | 0 <= i < |e.writers| :: e.writers[i].pc.WIdle?
  }

  /** The caller's discipline: Close after the writes have returned, no Write after Close. */
  predicate Orderly(s: State, x: Action) {
    match x
    case Act(side, CloseStep) => s.Ep(side).closer.CIdle? ==> WritersIdle(s.Ep(side))
    case Act(side, WBegin(i, p)) => s.Ep(side).closer.CIdle?
    case _ => true
  }

  /** What one endpoint knows of its peer's end of stream. */
  ghost predicate EndKnown(e: Endpoint) {
    && (PeerEnded(e.state) || e.handler.HPeerClose? ==> e.peerClosed)
    && (e.peerClosed ==> HeldBytes(e.handler) == [])
    && (forall i | 0 <= i < |e.readers| :: e.readers[i].pc.RDrain? && PeerEnded(e.readers[i].pc.state) ==> e.peerClosed)
  }

  /** The direction from snd over wire to rcv. */
  ghost predicate Delivers(snd: Endpoint, wire: seq<Frame>, rcv: Endpoint) {
    && Received(rcv) <= snd.sent
    && (rcv.registered ==> Received(rcv) + BytesOn(wire) == snd.sent)
    && (rcv.peerClosed ==> snd.closer.CDone? && BytesOn(wire) == [] && Received(rcv) == snd.sent)
    && DataBeforeClose(wire)
    && (Close in wire ==> snd.closer.CDone?)
    && (!snd.closer.CIdle? ==> WritersIdle(snd))
  }

  /** Calls that returned end of file to a caller with room had nothing left to return. */
  ghost predicate EofHonest(snd: Endpoint, rcv: Endpoint) {
    forall i | 0 <= i < |rcv.readers| ::
      rcv.readers[i].outcome.EndOfFile? && 0 < rcv.readers[i].limit ==>
        rcv.peerClosed && rcv.delivered == snd.sent
  }

  /** With one writer, the bytes sent are those its finished calls reported and those of the call it is in. */
  predicate OneWriterTold(e: Endpoint) {
    |e.writers| == 1 ==>
      (e.writers[0].pc.WIdle? ==> e.writers[0].total == 0) &&
      e.writers[0].total <= |e.writers[0].p| && e.sent == e.accepted + e.writers[0].p[..e.writers[0].total]
  }

  ghost predicate DirectionInv(s: State, side: Side) {
    && EndKnown(s.Ep(side)) && OneWriterTold(s.Ep(side))
    && Delivers(s.Ep(side), s.From(side), s.Ep(side.Other()))
    && EofHonest(s.Ep(side), s.Ep(side.Other()))
  }

  // ----- Wires -----

  lemma {:induction false} BytesAppend(w: seq<Frame>, out: seq<Frame>)
    ensures BytesOn(w + out) == BytesOn(w) + BytesOn(out)
  {
    if w == [] {
      assert w + out == out;
    } else {
      var tail := w[1..];
      BytesAppend(tail, out);
      assert (w + out)[0] == w[0] && (w + out)[1..] == tail + out;
      Associative(Payload(w[0]), BytesOn(tail), BytesOn(out));
    }
  }

  lemma Associative(a: seq<byte>, b: seq<byte>, c: seq<byte>)
    ensures a + b + c == a + (b + c)
  {
  }

  /** Past a CLOSE at its head a wire carries no data. */
  lemma NoBytesAfterClose(wire: seq<Frame>)
    requires forall i | 0 <= i < |wire| :: !wire[i].Data?
    ensures BytesOn(wire) == []
  {
  }

  // ----- The sender's moves -----

  /** What a move of the sender puts on its wire, and what it may be. */
  predicate SenderStep(e: Endpoint, e': Endpoint, out: seq<Frame>) {
    && |out| <= 1
    && e'.sent == e.sent + BytesOn(out)
    && (out != [] && out[0].Data? ==> e.closer.CIdle?)
    && (out != [] && out[0].Close? ==> e'.closer.CDone?)
    && (e.closer.CDone? ==> e'.closer.CDone?)
    && (!e'.closer.CIdle? ==> WritersIdle(e'))
  }

  lemma WriterSends(cfg: Config, e: Endpoint, m: Move)
    requires cfg.Valid() && Formed(cfg, e) && CanMove(e, m)
    requires m.WBegin? || m.WStep? || m.WFail? || m.WDone?
    requires m.WBegin? ==> e.closer.CIdle?
    requires !e.closer.CIdle? ==> WritersIdle(e)
    ensures var r := Moved(cfg, e, m); SenderStep(e, r.0, r.1)
  {
    assert WriterOk(cfg, e.writers[m.i]);
    assert e.closer.CIdle?;
    var r := Moved(cfg, e, m);
    assert BytesOn(r.1) == if r.1 == [] then [] else r.1[0].bytes;
  }

  lemma OthersSend(cfg: Config, e: Endpoint, m: Move)
    requires cfg.Valid() && Formed(cfg, e) && CanMove(e, m)
    requires !m.WBegin? && !m.WStep? && !m.WFail? && !m.WDone?
    requires m.CloseStep? && e.closer.CIdle? ==> WritersIdle(e)
    requires !e.closer.CIdle? ==> WritersIdle(e)
    ensures var r := Moved(cfg, e, m); SenderStep(e, r.0, r.1)
  {
    MovedOthers(cfg, e, m);
    match m {
      case RStep(i) =>
      case HStep =>
      case CloseStep =>
      case _ =>
    }
  }

  /** Appending to the wire what the sender added to its history keeps the direction. */
  lemma WireGrows(snd: Endpoint, wire: seq<Frame>, rcv: Endpoint, snd': Endpoint, out: seq<Frame>)
    requires Delivers(snd, wire, rcv) && SenderStep(snd, snd', out)
    ensures Delivers(snd', wire + out, rcv)
  {
    hide Received, DataBeforeClose;
    if out == [] {
      assert wire + out == wire;
      assert BytesOn(out) == [] && snd.sent + [] == snd.sent;
    } else {
      var f := out[0];
      assert out == [f];
      BytesAppend(wire, out);
      Associative(Received(rcv), BytesOn(wire), BytesOn(out));
      FrameFollows(wire, f);
    }
  }

  lemma FrameFollows(wire: seq<Frame>, f: Frame)
    requires DataBeforeClose(wire) && (Close in wire ==> !f.Data?)
    ensures DataBeforeClose(wire + [f])
    ensures Close in wire + [f] <==> Close in wire || f == Close
    ensures BytesOn([f]) == Payload(f)
  {
    assert BytesOn([f]) == Payload(f) + BytesOn([]);
  }

  // ----- The receiver's moves -----

  /** A move of the receiver hands bytes on without losing or reordering any. */
  predicate ReceiverStep(e: Endpoint, e': Endpoint) {
    && Received(e') == Received(e)
    && e'.peerClosed == e.peerClosed
    && (e'.registered ==> e.registered)
    && e.delivered <= e'.delivered
  }

  lemma HandlerReceives(cfg: Config, e: Endpoint)
    requires cfg.Valid() && Formed(cfg, e) && CanMove(e, HStep) && EndKnown(e)
    ensures var e' := Moved(cfg, e, HStep).0; ReceiverStep(e, e') && EndKnown(e')
  {
    var e' := Moved(cfg, e, HStep).0;
    assert e'.readers == e.readers && e'.delivered == e.delivered;
    if e.handler.HStore? {
      assert e.delivered + (e.buf + e.handler.bytes) + [] == e.delivered + e.buf + e.handler.bytes;
    } else {
      assert e'.buf == e.buf;
    }
  }

  lemma ReaderReceives(cfg: Config, e: Endpoint, m: Move)
    requires cfg.Valid() && Formed(cfg, e) && CanMove(e, m) && EndKnown(e)
    requires m.RBegin? || m.RStep? || m.RFail? || m.RDone?
    ensures var e' := Moved(cfg, e, m).0; ReceiverStep(e, e') && EndKnown(e')
  {
    var e' := Moved(cfg, e, m).0;
    if m.RStep? {
      var n := ReaderStep(e.readers[m.i], e.state, |e.buf|, e.readTok).taken;
      assert e.delivered + e.buf[..n] + e.buf[n..] == e.delivered + e.buf;
    } else if m.RFail? || m.RDone? {
      assert e.buf[0..] == e.buf && e.delivered + e.buf[..0] == e.delivered;
    }
  }

  lemma OthersReceive(cfg: Config, e: Endpoint, m: Move)
    requires cfg.Valid() && Formed(cfg, e) && CanMove(e, m) && EndKnown(e)
    requires !m.RBegin? && !m.RStep? && !m.RFail? && !m.RDone? && !m.HStep?
    ensures var e' := Moved(cfg, e, m).0; ReceiverStep(e, e') && EndKnown(e') && e'.readers == e.readers
  {
    match m {
      case WStep(i) =>
      case CloseStep =>
      case _ =>
    }
  }

  lemma ReceiverMoves(snd: Endpoint, wire: seq<Frame>, rcv: Endpoint, rcv': Endpoint)
    requires Delivers(snd, wire, rcv) && ReceiverStep(rcv, rcv')
    ensures Delivers(snd, wire, rcv')
  {
  }

  // ----- Taking a frame -----

  lemma ReceiverTakes(cfg: Config, snd: Endpoint, wire: seq<Frame>, rcv: Endpoint)
    requires wire != [] && rcv.handler.HIdle? && EndKnown(rcv) && Delivers(snd, wire, rcv)
    requires rcv.registered && wire[0].Data? ==> |rcv.buf| + |wire[0].bytes| <= cfg.window
    ensures var rcv' := Receive(cfg, rcv, wire[0]).0;
            Delivers(snd, wire[1..], rcv') && EndKnown(rcv')
  {
    var f, rest := wire[0], wire[1..];
    assert DataBeforeClose(rest);
    assert Close in rest ==> Close in wire;
    if f.Data? && rcv.registered {
      ReceiverStores(snd, wire, rcv, Receive(cfg, rcv, f).0);
    } else {
      OtherTaken(cfg, snd, wire, rcv);
    }
  }

  lemma OtherTaken(cfg: Config, snd: Endpoint, wire: seq<Frame>, rcv: Endpoint)
    requires wire != [] && rcv.handler.HIdle? && EndKnown(rcv) && Delivers(snd, wire, rcv)
    requires !(wire[0].Data? && rcv.registered)
    requires DataBeforeClose(wire[1..]) && (Close in wire[1..] ==> Close in wire)
    ensures var rcv' := Receive(cfg, rcv, wire[0]).0;
            Delivers(snd, wire[1..], rcv') && EndKnown(rcv')
  {
    hide Receive, EndKnown, Received;
    var f, rest := wire[0], wire[1..];
    TakesNoData(cfg, rcv, f);
    if f.Data? && rcv.peerClosed {
      assert f.bytes == [];
    }
    if f.Close? {
      assert forall i | 0 <= i < |rest| :: rest[i] == wire[i + 1];
      NoBytesAfterClose(rest);
    }
    ReceiverNotes(snd, wire, rcv, Receive(cfg, rcv, f).0);
  }

  lemma TakesNoData(cfg: Config, e: Endpoint, f: Frame)
    requires e.handler.HIdle? && EndKnown(e) && !(f.Data? && e.registered)
    ensures var e' := Receive(cfg, e, f).0;
            && e'.delivered == e.delivered && e'.buf == e.buf && HeldBytes(e'.handler) == HeldBytes(e.handler)
            && (e'.registered ==> e.registered && !f.Data?)
            && (e.peerClosed ==> e'.peerClosed)
            && (e'.peerClosed ==> e.peerClosed || (f.Close? && e.registered))
            && EndKnown(e')
  {
  }

  /** Data that arrives at a registered stream joins what was received. */
  lemma ReceiverStores(snd: Endpoint, wire: seq<Frame>, rcv: Endpoint, rcv': Endpoint)
    requires wire != [] && wire[0].Data? && rcv.registered && rcv.handler.HIdle?
    requires Delivers(snd, wire, rcv) && DataBeforeClose(wire[1..]) && (Close in wire[1..] ==> Close in wire)
    requires rcv' == rcv.(handler := HStore(wire[0].bytes))
    ensures Delivers(snd, wire[1..], rcv')
  {
    var b := wire[0].bytes;
    assert Received(rcv) == rcv.delivered + rcv.buf;
    assert Received(rcv') == Received(rcv) + b;
    Associative(Received(rcv), b, BytesOn(wire[1..]));
    assert Received(rcv') + BytesOn(wire[1..]) == snd.sent;
    if rcv.peerClosed {
      assert b == [];
    }
  }

  /** A frame that brings no data leaves what was received as it is. */
  lemma ReceiverNotes(snd: Endpoint, wire: seq<Frame>, rcv: Endpoint, rcv': Endpoint)
    requires wire != [] && Delivers(snd, wire, rcv)
    requires DataBeforeClose(wire[1..]) && (Close in wire[1..] ==> Close in wire)
    requires rcv'.delivered == rcv.delivered && rcv'.buf == rcv.buf && HeldBytes(rcv'.handler) == HeldBytes(rcv.handler)
    requires rcv'.registered ==> rcv.registered && !wire[0].Data?
    requires rcv.peerClosed ==> rcv'.peerClosed && Payload(wire[0]) == []
    requires rcv'.peerClosed ==> rcv.peerClosed || (wire[0].Close? && rcv.registered && BytesOn(wire[1..]) == [])
    ensures Delivers(snd, wire[1..], rcv')
  {
    assert Received(rcv') == Received(rcv);
    if Payload(wire[0]) == [] {
      assert BytesOn(wire) == BytesOn(wire[1..]);
    }
  }

  /** Answering a frame touches only the answerer's wire, and never with data or a CLOSE. */
  lemma AnswersSend(cfg: Config, e: Endpoint, f: Frame)
    requires e.handler.HIdle? && (!e.closer.CIdle? ==> WritersIdle(e))
    ensures var r := Receive(cfg, e, f); SenderStep(e, r.0, r.1)
    ensures var r := Receive(cfg, e, f); r.0.writers == e.writers && r.0.accepted == e.accepted && r.0.sent == e.sent
    ensures var r := Receive(cfg, e, f); r.0.readers == e.readers && r.0.delivered == e.delivered
    ensures var r := Receive(cfg, e, f); e.peerClosed ==> r.0.peerClosed
  {
  }

  // ----- End of file and the writer's account -----

  /** A call that returns end of file to a caller with room saw the peer's CLOSE and then an empty buffer. */
  lemma ReadersStayHonest(cfg: Config, snd: Endpoint, wire: seq<Frame>, rcv: Endpoint, m: Move)
    requires cfg.Valid() && Formed(cfg, rcv) && CanMove(rcv, m)
    requires EndKnown(rcv) && EofHonest(snd, rcv)
    requires m.RBegin? || m.RStep? || m.RFail? || m.RDone?
    requires var rcv' := Moved(cfg, rcv, m).0;
             ReceiverStep(rcv, rcv') && Delivers(snd, wire, rcv') && EndKnown(rcv')
    ensures EofHonest(snd, Moved(cfg, rcv, m).0)
  {
    var rcv' := Moved(cfg, rcv, m).0;
    var t, t' := rcv.readers[m.i], rcv'.readers[m.i];
    if t'.outcome.EndOfFile? && 0 < t'.limit && !t.outcome.EndOfFile? {
      ReaderTold(cfg, rcv, m);
    }
    ToldTogether(snd, wire, rcv, rcv', m.i);
  }

  /** Only draining an empty buffer after the peer's end makes a call with room return end of file. */
  lemma ReaderTold(cfg: Config, e: Endpoint, m: Move)
    requires cfg.Valid() && Formed(cfg, e) && CanMove(e, m) && EndKnown(e)
    requires m.RBegin? || m.RStep? || m.RFail? || m.RDone?
    requires var t' := Moved(cfg, e, m).0.readers[m.i];
             t'.outcome.EndOfFile? && 0 < t'.limit && !e.readers[m.i].outcome.EndOfFile?
    ensures e.peerClosed && Moved(cfg, e, m).0.buf == []
  {
  }

  lemma ToldTogether(snd: Endpoint, wire: seq<Frame>, rcv: Endpoint, rcv': Endpoint, i: nat)
    requires EofHonest(snd, rcv) && ReceiverStep(rcv, rcv') && Delivers(snd, wire, rcv') && EndKnown(rcv')
    requires i < |rcv.readers| == |rcv'.readers|
    requires forall k | 0 <= k < |rcv.readers| && k != i :: rcv'.readers[k] == rcv.readers[k]
    requires var t, t' := rcv.readers[i], rcv'.readers[i];
             t'.outcome.EndOfFile? && 0 < t'.limit ==>
               (t.outcome.EndOfFile? && t.limit == t'.limit) || (rcv.peerClosed && rcv'.buf == [])
    ensures EofHonest(snd, rcv')
  {
    forall k | 0 <= k < |rcv'.readers| && rcv'.readers[k].outcome.EndOfFile? && 0 < rcv'.readers[k].limit
      ensures rcv'.peerClosed && rcv'.delivered == snd.sent
    {
      assert |Received(rcv')| == |rcv'.delivered| + |rcv'.buf| + |HeldBytes(rcv'.handler)|;
      if !(k == i && rcv.peerClosed && rcv'.buf == []) {
        assert rcv.readers[k].outcome.EndOfFile?;
      }
    }
  }

  /** One operation of Write: what was sent in the call, plus the piece, is what is reported or still sent in it. */
  lemma WriterAccount(cfg: Config, t: Writer, st: StreamState, window: int, tok: bool)
    requires cfg.Valid() && WriterOk(cfg, t) && !t.pc.WIdle?
    ensures var f := WriterStep(cfg, t, st, window, tok);
            && f.t.total <= |f.t.p| && (f.t.pc.WIdle? ==> f.t.total == 0)
            && t.p[..t.total] + f.piece == f.reported + f.t.p[..f.t.total]
  {
    if t.pc.WSend? {
      assert t.p[..t.total + t.pc.chunk] == t.p[..t.total] + t.p[t.total..t.total + t.pc.chunk];
    }
  }

  lemma WriterTells(cfg: Config, e: Endpoint, m: Move)
    requires cfg.Valid() && Formed(cfg, e) && CanMove(e, m) && OneWriterTold(e)
    requires m.WBegin? || m.WStep? || m.WFail? || m.WDone?
    ensures OneWriterTold(Moved(cfg, e, m).0)
  {
    if |e.writers| == 1 {
      assert WriterOk(cfg, e.writers[0]);
      if m.WStep? {
        WriterAccount(cfg, e.writers[0], e.state, e.window, e.windowTok);
        EffectTells(e, WriterStep(cfg, e.writers[0], e.state, e.window, e.windowTok));
      }
    }
  }

  lemma EffectTells(e: Endpoint, f: WriterEffect)
    requires |e.writers| == 1 && OneWriterTold(e)
    requires f.t.total <= |f.t.p| && (f.t.pc.WIdle? ==> f.t.total == 0)
    requires var t := e.writers[0]; t.p[..t.total] + f.piece == f.reported + f.t.p[..f.t.total]
    ensures OneWriterTold(PutWriter(e, 0, f))
  {
    var t := e.writers[0];
    assert e.accepted + t.p[..t.total] + f.piece == e.accepted + (t.p[..t.total] + f.piece);
    assert e.accepted + (f.reported + f.t.p[..f.t.total]) == e.accepted + f.reported + f.t.p[..f.t.total];
  }

  lemma OthersSayNothing(cfg: Config, e: Endpoint, m: Move)
    requires cfg.Valid() && Formed(cfg, e) && CanMove(e, m)
    requires !m.WBegin? && !m.WStep? && !m.WFail? && !m.WDone?
    ensures var e' := Moved(cfg, e, m).0; e'.sent == e.sent && e'.accepted == e.accepted
  {
    match m {
      case HStep =>
      case RStep(i) =>
      case CloseStep =>
      case _ =>
    }
  }

  // ----- Every run -----

  ghost predicate DeliveryInv(cfg: Config, s: State) {
    FlowInv(cfg, s) && DirectionInv(s, A) && DirectionInv(s, B)
  }

  /** The mover as sender of its own direction. */
  lemma MoveSends(cfg: Config, e: Endpoint, m: Move)
    requires cfg.Valid() && Formed(cfg, e) && CanMove(e, m) && OneWriterTold(e)
    requires m.WBegin? ==> e.closer.CIdle?
    requires !e.closer.CIdle? || m.CloseStep? ==> WritersIdle(e)
    ensures var r := Moved(cfg, e, m); SenderStep(e, r.0, r.1) && OneWriterTold(r.0)
  {
    if m.WBegin? || m.WStep? || m.WFail? || m.WDone? {
      WriterSends(cfg, e, m);
      WriterTells(cfg, e, m);
    } else {
      OthersSend(cfg, e, m);
      MovedOthers(cfg, e, m);
      OthersSayNothing(cfg, e, m);
    }
  }

  /** The mover as receiver of the other direction. */
  lemma MoveReceives(cfg: Config, snd: Endpoint, wire: seq<Frame>, e: Endpoint, m: Move)
    requires cfg.Valid() && Formed(cfg, e) && CanMove(e, m)
    requires EndKnown(e) && Delivers(snd, wire, e) && EofHonest(snd, e)
    ensures var e' := Moved(cfg, e, m).0;
            EndKnown(e') && Delivers(snd, wire, e') && EofHonest(snd, e')
  {
    var e' := Moved(cfg, e, m).0;
    if m.RBegin? || m.RStep? || m.RFail? || m.RDone? {
      ReaderReceives(cfg, e, m);
      ReceiverMoves(snd, wire, e, e');
      ReadersStayHonest(cfg, snd, wire, e, m);
    } else if m.HStep? {
      HandlerReceives(cfg, e);
      ReceiverMoves(snd, wire, e, e');
      HonestAlong(snd, wire, e, e');
    } else {
      OthersReceive(cfg, e, m);
      ReceiverMoves(snd, wire, e, e');
      HonestAlong(snd, wire, e, e');
    }
  }

  /** Putting the mover back keeps both directions. */
  lemma Reassemble(s: State, side: Side, e: Endpoint, out: seq<Frame>)
    requires EndKnown(e) && OneWriterTold(e)
    requires var o := s.Ep(side.Other());
             && EndKnown(o) && OneWriterTold(o)
             && Delivers(e, s.From(side) + out, o) && EofHonest(e, o)
             && Delivers(o, s.From(side.Other()), e) && EofHonest(o, e)
    ensures var s' := s.Put(side, e, out); DirectionInv(s', A) && DirectionInv(s', B)
  {
    if side == A {
      assert s.Put(A, e, out) == State(e, s.b, s.ab + out, s.ba);
    } else {
      assert s.Put(B, e, out) == State(s.a, e, s.ab, s.ba + out);
    }
  }

  lemma MayActNow(s: State, side: Side, m: Move)
    requires Orderly(s, Act(side, m)) && Delivers(s.Ep(side), s.From(side), s.Ep(side.Other()))
    ensures m.WBegin? ==> s.Ep(side).closer.CIdle?
    ensures !s.Ep(side).closer.CIdle? || m.CloseStep? ==> WritersIdle(s.Ep(side))
  {
  }

  lemma ActDelivers(cfg: Config, s: State, side: Side, m: Move)
    requires cfg.Valid() && DeliveryInv(cfg, s) && CanMove(s.Ep(side), m) && Orderly(s, Act(side, m))
    ensures DeliveryInv(cfg, Next(cfg, s, Act(side, m)))
  {
    hide EndKnown, Delivers, EofHonest, OneWriterTold, SenderStep, Moved, CanMove, Formed, Conserved;
    var o := side.Other();
    var e := s.Ep(side);
    assert DirectionInv(s, side) && DirectionInv(s, o);
    MayActNow(s, side, m);
    var r := Moved(cfg, e, m);
    NextConserves(cfg, s, Act(side, m));
    MoveSends(cfg, e, m);
    MoveReceives(cfg, s.Ep(o), s.From(o), e, m);
    WireGrows(e, s.From(side), s.Ep(o), r.0, r.1);
    SenderStaysHonest(e, s.From(side), s.Ep(o), r.0, r.1);
    Reassemble(s, side, r.0, r.1);
  }

  /** The receiver's readers untouched: what they were told stays true. */
  lemma HonestAlong(snd: Endpoint, wire: seq<Frame>, rcv: Endpoint, rcv': Endpoint)
    requires EofHonest(snd, rcv) && Delivers(snd, wire, rcv) && ReceiverStep(rcv, rcv')
    requires rcv'.readers == rcv.readers
    ensures EofHonest(snd, rcv')
  {
    forall i | 0 <= i < |rcv'.readers| && rcv'.readers[i].outcome.EndOfFile? && 0 < rcv'.readers[i].limit
      ensures rcv'.peerClosed && rcv'.delivered == snd.sent
    {
      assert rcv.readers[i].outcome.EndOfFile?;
      assert |rcv'.delivered| <= |Received(rcv')|;
    }
  }

  /** Once a reader was told end of file, the sender sends no more data. */
  lemma SenderStaysHonest(snd: Endpoint, wire: seq<Frame>, rcv: Endpoint, snd': Endpoint, out: seq<Frame>)
    requires EofHonest(snd, rcv) && Delivers(snd, wire, rcv) && SenderStep(snd, snd', out)
    ensures EofHonest(snd', rcv)
  {
    if rcv.peerClosed {
      assert out != [] ==> out == [out[0]];
      assert BytesOn(out) == [];
    }
  }

  /** Conservation leaves room for what is on the wire. */
  lemma FrontHasRoom(cfg: Config, s: State, side: Side)
    requires FlowInv(cfg, s) && s.From(side.Other()) != []
    ensures var f := s.From(side.Other())[0]; f.Data? ==> |s.Ep(side).buf| + |f.bytes| <= cfg.window
  {
    hide Reserved, Uncredited, CreditOn;
    assert s.From(side.Other())[0].Data? ==>
        |s.Ep(side).buf| + |s.From(side.Other())[0].bytes| <= Total(s, side.Other());
  }

  lemma PopDelivers(cfg: Config, s: State, side: Side)
    requires cfg.Valid() && DeliveryInv(cfg, s) && CanDo(s, Pop(side))
    ensures DeliveryInv(cfg, Next(cfg, s, Pop(side)))
  {
    var o := side.Other();
    var e := s.Ep(side);
    var f := s.From(o)[0];
    var r := Receive(cfg, e, f);
    assert DirectionInv(s, side) && DirectionInv(s, o);
    assert !e.closer.CIdle? ==> WritersIdle(e);
    AnswersSend(cfg, e, f);
    hide EndKnown, Delivers, FlowInv, Receive, Formed, Received, SenderStep, WritersIdle;
    NextConserves(cfg, s, Pop(side));
    FrontHasRoom(cfg, s, side);
    ReceiverTakes(cfg, s.Ep(o), s.From(o), e);
    WireGrows(e, s.From(side), s.Ep(o), r.0, r.1);
    SenderStaysHonest(e, s.From(side), s.Ep(o), r.0, r.1);
    Reassemble(s.DropFrom(o), side, r.0, r.1);
  }

  /** Every action of the path keeps to the callers' discipline. */
  ghost predicate OrderlyPath(cfg: Config, s: State, acts: seq<Action>, t: State)
    requires cfg.Valid() && Path(cfg, s, acts, t)
    decreases |acts|
  {
    acts == [] || (Orderly(s, acts[0]) && OrderlyPath(cfg, Next(cfg, s, acts[0]), acts[1..], t))
  }

  lemma {:induction false} PathDelivers(cfg: Config, s: State, acts: seq<Action>, t: State)
    requires cfg.Valid() && DeliveryInv(cfg, s) && Path(cfg, s, acts, t) && OrderlyPath(cfg, s, acts, t)
    ensures DeliveryInv(cfg, t)
    decreases |acts|
  {
    if acts != [] {
      match acts[0] {
        case Act(side, m) => ActDelivers(cfg, s, side, m);
        case Pop(side) => PopDelivers(cfg, s, side);
      }
      PathDelivers(cfg, Next(cfg, s, acts[0]), acts[1..], t);
    }
  }

  lemma InitialDelivers(cfg: Config, s: State)
    requires cfg.Valid() && Initial(cfg, s)
    ensures DeliveryInv(cfg, s)
  {
    InitialConserved(cfg, s);
    FreshDelivers(cfg, |s.b.writers|, |s.b.readers|, |s.a.writers|, |s.a.readers|);
    FreshDelivers(cfg, |s.a.writers|, |s.a.readers|, |s.b.writers|, |s.b.readers|);
  }

  lemma FreshDelivers(cfg: Config, aw: nat, ar: nat, bw: nat, br: nat)
    ensures var a := FreshEndpoint(cfg, aw, ar);
            var b := FreshEndpoint(cfg, bw, br);
            EndKnown(a) && OneWriterTold(a) && Delivers(a, [], b) && EofHonest(a, b)
  {
  }

  // ----- The theorems -----

  lemma ReachedDirection(cfg: Config, s: State, acts: seq<Action>, t: State, side: Side)
    requires cfg.Valid() && Initial(cfg, s) && Path(cfg, s, acts, t) && OrderlyPath(cfg, s, acts, t)
    ensures EndKnown(t.Ep(side)) && EndKnown(t.Ep(side.Other())) && OneWriterTold(t.Ep(side))
    ensures Delivers(t.Ep(side), t.From(side), t.Ep(side.Other()))
    ensures EofHonest(t.Ep(side), t.Ep(side.Other()))
  {
    hide Path, OrderlyPath;
    InitialDelivers(cfg, s);
    PathDelivers(cfg, s, acts, t);
    assert DirectionInv(t, A) && DirectionInv(t, B);
  }

  /**
   * Whatever happens - resets, loss of the connection, any interleaving - the bytes Read has
   * returned on one side are a prefix of the bytes the other side sent; and with one writer there,
   * of the bytes its calls reported as written followed by those of the call it is in. Provided, as
   * everywhere in the step machine, that no frame is written after a torn one.
   */
  lemma FaithfulDelivery(cfg: Config, s: State, acts: seq<Action>, t: State, side: Side)
    requires cfg.Valid() && Initial(cfg, s) && Path(cfg, s, acts, t) && OrderlyPath(cfg, s, acts, t)
    ensures t.Ep(side.Other()).delivered <= t.Ep(side).sent
    ensures var e := t.Ep(side);
            |e.writers| == 1 ==>
              e.writers[0].total <= |e.writers[0].p| &&
              t.Ep(side.Other()).delivered <= e.accepted + e.writers[0].p[..e.writers[0].total]
  {
    hide Path, OrderlyPath;
    ReachedDirection(cfg, s, acts, t, side);
    DeliveredIsPrefix(t.Ep(side), t.From(side), t.Ep(side.Other()));
  }

  lemma DeliveredIsPrefix(snd: Endpoint, wire: seq<Frame>, rcv: Endpoint)
    requires Delivers(snd, wire, rcv) && OneWriterTold(snd)
    ensures rcv.delivered <= snd.sent
    ensures |snd.writers| == 1 ==>
              snd.writers[0].total <= |snd.writers[0].p| &&
              rcv.delivered <= snd.accepted + snd.writers[0].p[..snd.writers[0].total]
  {
    assert rcv.delivered <= Received(rcv);
  }

  /** A Read with room in its slice that returned end of file had returned every byte the peer
      wrote before its Close. */
  lemma HonestEof(cfg: Config, s: State, acts: seq<Action>, t: State, side: Side, i: nat)
    requires cfg.Valid() && Initial(cfg, s) && Path(cfg, s, acts, t) && OrderlyPath(cfg, s, acts, t)
    requires i < |t.Ep(side).readers|
    requires t.Ep(side).readers[i].outcome.EndOfFile? && 0 < t.Ep(side).readers[i].limit
    ensures var peer := t.Ep(side.Other());
            && peer.closer.CDone? && t.Ep(side).delivered == peer.sent
            && (|peer.writers| == 1 ==> t.Ep(side).delivered == peer.accepted)
  {
    hide Path, OrderlyPath;
    ReachedDirection(cfg, s, acts, t, side.Other());
    EofToldAt(t.Ep(side.Other()), t.From(side.Other()), t.Ep(side), i);
  }

  lemma EofToldAt(snd: Endpoint, wire: seq<Frame>, rcv: Endpoint, i: nat)
    requires Delivers(snd, wire, rcv) && EofHonest(snd, rcv) && OneWriterTold(snd)
    requires i < |rcv.readers| && rcv.readers[i].outcome.EndOfFile? && 0 < rcv.readers[i].limit
    ensures snd.closer.CDone? && rcv.delivered == snd.sent
    ensures |snd.writers| == 1 ==> rcv.delivered == snd.accepted
  {
    if |snd.writers| == 1 {
      assert snd.writers[0].pc.WIdle?;
      assert snd.writers[0].p[..0] == [];
    }
  }

  lemma EofAt(snd: Endpoint, wire: seq<Frame>, rcv: Endpoint, i: nat)
    requires Delivers(snd, wire, rcv) && EndKnown(rcv) && i < |rcv.readers|
    requires rcv.readers[i].pc.RDrain? && PeerEnded(rcv.readers[i].pc.state)
    ensures var f := ReaderStep(rcv.readers[i], rcv.state, |rcv.buf|, rcv.readTok);
            && (f.t.outcome.EndOfFile? && f.t.pc.RIdle? <==> rcv.readers[i].limit == 0 || rcv.buf == [])
            && (rcv.delivered == snd.sent <==> rcv.buf == [])
  {
    assert Received(rcv) == rcv.delivered + rcv.buf;
    assert |Received(rcv)| == |rcv.delivered| + |rcv.buf|;
  }

  /**
   * The empty slice is the one exception: in any reachable state, a call that has seen the peer's
   * end returns end of file exactly when it has no room or nothing is buffered, and that answer is
   * honest exactly when nothing is buffered. So Read tells the truth if and only if it was given
   * room or there was nothing left to tell.
   */
  lemma EofHonestExactlyWhen(cfg: Config, s: State, acts: seq<Action>, t: State, side: Side, i: nat)
    requires cfg.Valid() && Initial(cfg, s) && Path(cfg, s, acts, t) && OrderlyPath(cfg, s, acts, t)
    requires i < |t.Ep(side).readers|
    requires t.Ep(side).readers[i].pc.RDrain? && PeerEnded(t.Ep(side).readers[i].pc.state)
    ensures var e := t.Ep(side);
            var f := ReaderStep(e.readers[i], e.state, |e.buf|, e.readTok);
            && (f.t.outcome.EndOfFile? && f.t.pc.RIdle? <==> e.readers[i].limit == 0 || e.buf == [])
            && (e.delivered == t.Ep(side.Other()).sent <==> e.buf == [])
  {
    hide Path, OrderlyPath;
    ReachedDirection(cfg, s, acts, t, side.Other());
    EofAt(t.Ep(side.Other()), t.From(side.Other()), t.Ep(side), i);
  }

  /**
   * The exception happens: in every reachable state where the peer has ended the stream and bytes
   * are still buffered, a Read with an empty slice returns end of file at once, and those bytes
   * had not been delivered.
   */
  lemma EmptyReadEndsEarly(cfg: Config, s: State, acts: seq<Action>, t: State, side: Side, i: nat)
    requires cfg.Valid() && Initial(cfg, s) && Path(cfg, s, acts, t) && OrderlyPath(cfg, s, acts, t)
    requires i < |t.Ep(side).readers| && t.Ep(side).readers[i].pc.RIdle?
    requires PeerEnded(t.Ep(side).state) && t.Ep(side).buf != []
    ensures EmptyReadEnds(t.Ep(side), i)
    ensures t.Ep(side).delivered < t.Ep(side.Other()).sent
  {
    hide Path, OrderlyPath;
    ReachedDirection(cfg, s, acts, t, side.Other());
    BufferedIsUndelivered(t.Ep(side.Other()), t.From(side.Other()), t.Ep(side));
  }

  /** Begin, load the state, drain: three operations of a Read with an empty slice, and the answer. */
  predicate EmptyReadEnds(e: Endpoint, i: nat)
    requires i < |e.readers|
  {
    var f := ReaderStep(e.readers[i].(pc := RTop(false), limit := 0, outcome := NoCall), e.state, |e.buf|, e.readTok);
    && CanMove(e, RBegin(i, 0))
    && f.taken == 0 && f.t.pc.RDrain?
    && var g := ReaderStep(f.t, e.state, |e.buf|, e.readTok); g.t.outcome.EndOfFile? && g.taken == 0
  }

  lemma BufferedIsUndelivered(snd: Endpoint, wire: seq<Frame>, rcv: Endpoint)
    requires Delivers(snd, wire, rcv) && EndKnown(rcv) && PeerEnded(rcv.state) && rcv.buf != []
    ensures rcv.delivered < snd.sent
  {
    assert Received(rcv) == rcv.delivered + rcv.buf;
  }
}
