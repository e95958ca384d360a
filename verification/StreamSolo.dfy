/** A call or a handler of the step machine, left alone, does what the multiplexer's method says. */
module StreamSolo {
  import opened Base
  import opened StreamCore
  import opened StreamMachine
  import M = Muxes

  /** One end makes these moves, nothing coming between, and writes these frames. */
  ghost predicate Alone(cfg: Config, e: Endpoint, ms: seq<Move>, out: seq<Frame>, e': Endpoint)
    requires cfg.Valid()
    decreases |ms|
  {
    && Formed(cfg, e)
    && if ms == [] then e == e' && out == []
       else
         && CanMove(e, ms[0])
         && var r := Moved(cfg, e, ms[0]);
            && r.1 <= out
            && Alone(cfg, r.0, ms[1..], out[|r.1|..], e')
  }

  lemma Then(cfg: Config, e: Endpoint, m: Move, mid: Endpoint, first: seq<Frame>, ms: seq<Move>, out: seq<Frame>,
             e': Endpoint)
    requires cfg.Valid() && Formed(cfg, e) && CanMove(e, m) && Moved(cfg, e, m) == (mid, first)
    requires Alone(cfg, mid, ms, out, e')
    ensures Alone(cfg, e, [m] + ms, first + out, e')
  {
    assert ([m] + ms)[1..] == ms;
    assert (first + out)[|first|..] == out;
  }

  // ----- Write -----

  /** Nobody but the one writer moves. */
  ghost predicate Only(ms: seq<Move>, i: nat) {
    forall k | 0 <= k < |ms| :: ms[k] == WStep(i)
  }

  function At(e: Endpoint, i: nat, pc: WriterPc): Endpoint
    requires i < |e.writers|
  {
    e.(writers := e.writers[i := e.writers[i].(pc := pc)])
  }

  /** The frames of the class as frames of the machine. */
  function OnWire(frames: seq<M.OutFrame>): seq<Frame>
    requires forall i | 0 <= i < |frames| :: frames[i].OutData?
  {
    if frames == [] then [] else [Data(frames[0].bytes)] + OnWire(frames[1..])
  }

  /** The end after a writer has sent the first n bytes of what it had left: it has returned if that
      was all, and waits for credit otherwise. */
  predicate Sent(e: Endpoint, i: nat, n: nat, e': Endpoint)
    requires i < |e.writers| && e.writers[i].total + n <= |e.writers[i].p|
  {
    var t := e.writers[i];
    var all := t.total + n == |t.p|;
    && e'.writers == e.writers[i := if all then Writer(WIdle, [], 0) else Writer(WSleep, t.p, t.total + n)]
    && e'.window == e.window - n
    && e'.sent == e.sent + t.p[t.total..t.total + n]
    && e'.accepted == e.accepted + (if all then t.p else [])
    && e' == e.(writers := e'.writers, window := e'.window, windowTok := e'.windowTok,
                sent := e'.sent, accepted := e'.accepted)
  }

  lemma Step(cfg: Config, e: Endpoint, i: nat, f: WriterEffect)
    requires cfg.Valid() && Formed(cfg, e) && CanMove(e, WStep(i))
    requires f == WriterStep(cfg, e.writers[i], e.state, e.window, e.windowTok)
    ensures Moved(cfg, e, WStep(i)) == (PutWriter(e, i, f), if f.piece == [] then [] else [Data(f.piece)])
    ensures Formed(cfg, PutWriter(e, i, f))
  {
    MovedFormed(cfg, e, WStep(i));
  }

  /** A step that only goes on to another place. */
  lemma Pass(cfg: Config, e: Endpoint, i: nat, pc: WriterPc, ms: seq<Move>, out: seq<Frame>, e': Endpoint)
    requires cfg.Valid() && Formed(cfg, e) && CanMove(e, WStep(i))
    requires WriterStep(cfg, e.writers[i], e.state, e.window, e.windowTok) ==
             Goes(e.writers[i], pc, e.window, e.windowTok)
    requires Alone(cfg, At(e, i, pc), ms, out, e')
    ensures Alone(cfg, e, [WStep(i)] + ms, out, e')
  {
    Step(cfg, e, i, Goes(e.writers[i], pc, e.window, e.windowTok));
    assert e.sent + [] == e.sent && e.accepted + [] == e.accepted;
    assert PutWriter(e, i, Goes(e.writers[i], pc, e.window, e.windowTok)) == At(e, i, pc);
    Then(cfg, e, WStep(i), At(e, i, pc), [], ms, out, e');
    assert [] + out == out;
  }

  function Piece(t: Writer, c: nat): seq<byte>
    requires t.total + c <= |t.p|
  {
    t.p[t.total..t.total + c]
  }

  /** The chunk goes out. */
  function AfterSend(e: Endpoint, i: nat, c: nat): Endpoint
    requires i < |e.writers| && e.writers[i].total + c <= |e.writers[i].p|
  {
    var t := e.writers[i];
    e.(writers := e.writers[i := Writer(WLoop, t.p, t.total + c)], sent := e.sent + Piece(t, c))
  }

  lemma FromSend(cfg: Config, e: Endpoint, i: nat, ms: seq<Move>, out: seq<Frame>, e': Endpoint)
    requires cfg.Valid() && Formed(cfg, e) && i < |e.writers| && e.writers[i].pc.WSend? && !e.broken
    requires e.writers[i].total + e.writers[i].pc.chunk <= |e.writers[i].p|
    requires Alone(cfg, AfterSend(e, i, e.writers[i].pc.chunk), ms, out, e')
    ensures Alone(cfg, e, [WStep(i)] + ms, [Data(Piece(e.writers[i], e.writers[i].pc.chunk))] + out, e')
  {
    var t := e.writers[i];
    var c := t.pc.chunk;
    assert WriterOk(cfg, t);
    var f := WriterEffect(Writer(WLoop, t.p, t.total + c), e.window, e.windowTok, Piece(t, c), []);
    Step(cfg, e, i, f);
    assert e.accepted + [] == e.accepted;
    Then(cfg, e, WStep(i), AfterSend(e, i, c), [Data(Piece(t, c))], ms, out, e');
  }

  /** The wake-up is passed on when credit is left. */
  function Signalled(e: Endpoint): Endpoint {
    e.(windowTok := e.windowTok || e.window > 0)
  }

  lemma FromSignal(cfg: Config, e: Endpoint, i: nat, c: nat, ms: seq<Move>, out: seq<Frame>, e': Endpoint)
    requires cfg.Valid() && i < |e.writers| && e.window > 0 && Formed(cfg, At(e, i, WSignal(c)))
    requires Alone(cfg, At(Signalled(e), i, WSend(c)), ms, out, e')
    ensures Alone(cfg, At(e, i, WSignal(c)), [WStep(i)] + ms, out, e')
  {
    var signalling := At(e, i, WSignal(c));
    Step(cfg, signalling, i, Goes(signalling.writers[i], WSend(c), e.window, true));
    SignalStep(e, i, c);
    Then(cfg, signalling, WStep(i), At(Signalled(e), i, WSend(c)), [], ms, out, e');
    assert [] + out == out;
  }

  lemma FromCheck(cfg: Config, e: Endpoint, i: nat, ms: seq<Move>, out: seq<Frame>, e': Endpoint)
    returns (all: seq<Move>)
    requires cfg.Valid() && Formed(cfg, e) && i < |e.writers| && e.writers[i].pc.WCheck? && !e.broken
    requires e.writers[i].total + e.writers[i].pc.chunk <= |e.writers[i].p|
    requires Alone(cfg, AfterSend(Signalled(e), i, e.writers[i].pc.chunk), ms, out, e')
    ensures Alone(cfg, e, all, [Data(Piece(e.writers[i], e.writers[i].pc.chunk))] + out, e')
    ensures Only(ms, i) ==> Only(all, i)
  {
    hide Alone, Formed;
    var c := e.writers[i].pc.chunk;
    var sending := At(Signalled(e), i, WSend(c));
    AtFormed(cfg, e, i, c);
    assert AfterSend(sending, i, c) == AfterSend(Signalled(e), i, c);
    FromSend(cfg, sending, i, ms, out, e');
    all := [WStep(i)] + ms;
    if e.window > 0 {
      FromSignal(cfg, e, i, c, all, [Data(Piece(e.writers[i], c))] + out, e');
      all := [WStep(i)] + all;
      Pass(cfg, e, i, WSignal(c), all, [Data(Piece(e.writers[i], c))] + out, e');
    } else {
      Pass(cfg, e, i, WSend(c), all, [Data(Piece(e.writers[i], c))] + out, e');
    }
    all := [WStep(i)] + all;
  }

  lemma AtFormed(cfg: Config, e: Endpoint, i: nat, c: nat)
    requires Formed(cfg, e) && i < |e.writers| && e.writers[i].pc == WCheck(c)
    ensures Formed(cfg, At(Signalled(e), i, WSend(c))) && Formed(cfg, At(e, i, WSignal(c)))
  {
    assert WriterOk(cfg, e.writers[i]);
  }

  lemma SignalStep(e: Endpoint, i: nat, c: nat)
    requires i < |e.writers| && e.window > 0
    ensures var signalling := At(e, i, WSignal(c));
            PutWriter(signalling, i, Goes(signalling.writers[i], WSend(c), e.window, true)) ==
              At(Signalled(e), i, WSend(c))
  {
    assert e.sent + [] == e.sent && e.accepted + [] == e.accepted;
  }

  /** The end after a writer has reserved a chunk. */
  function Reserved(e: Endpoint, i: nat, c: nat): Endpoint
    requires i < |e.writers|
  {
    At(e.(window := e.window - c), i, WCheck(c))
  }

  lemma FromCas(cfg: Config, e: Endpoint, i: nat, c: nat, ms: seq<Move>, out: seq<Frame>, e': Endpoint)
    requires cfg.Valid() && i < |e.writers| && Formed(cfg, At(e, i, WCas(e.window)))
    requires c == ChunkFor(cfg, e.writers[i], e.window) && c >= 0
    requires Alone(cfg, Reserved(e, i, c), ms, out, e')
    ensures Alone(cfg, At(e, i, WCas(e.window)), [WStep(i)] + ms, out, e')
  {
    var swapping := At(e, i, WCas(e.window));
    assert WriterOk(cfg, swapping.writers[i]);
    Step(cfg, swapping, i, Goes(swapping.writers[i], WCheck(c), e.window - c, e.windowTok));
    ReserveStep(e, i, c);
    Then(cfg, swapping, WStep(i), Reserved(e, i, c), [], ms, out, e');
    assert [] + out == out;
  }

  /** One turn of the loop with credit in hand. */
  lemma FromLoop(cfg: Config, e: Endpoint, i: nat, ms: seq<Move>, out: seq<Frame>, e': Endpoint)
    returns (all: seq<Move>)
    requires cfg.Valid() && Formed(cfg, e) && i < |e.writers| && e.writers[i].pc.WLoop? && !e.broken
             && MayWrite(e.state)
    requires e.writers[i].total < |e.writers[i].p| && 0 < e.window
    requires var c := ChunkFor(cfg, e.writers[i], e.window);
             Formed(cfg, Reserved(e, i, c)) && Alone(cfg, AfterSend(Signalled(Reserved(e, i, c)), i, c), ms, out, e')
    ensures Alone(cfg, e, all, [Data(Piece(e.writers[i], ChunkFor(cfg, e.writers[i], e.window)))] + out, e')
    ensures Only(ms, i) ==> Only(all, i)
  {
    hide Alone;
    var c := ChunkFor(cfg, e.writers[i], e.window);
    var frames := [Data(Piece(e.writers[i], c))] + out;
    var rest := FromCheck(cfg, Reserved(e, i, c), i, ms, out, e');
    LoopFormed(cfg, e, i);
    FromCas(cfg, e, i, c, rest, frames, e');
    FromLoad(cfg, e, i, [WStep(i)] + rest, frames, e');
    Pass(cfg, e, i, WLoad, [WStep(i)] + ([WStep(i)] + rest), frames, e');
    all := [WStep(i)] + ([WStep(i)] + ([WStep(i)] + rest));
  }

  lemma FromLoad(cfg: Config, e: Endpoint, i: nat, ms: seq<Move>, out: seq<Frame>, e': Endpoint)
    requires cfg.Valid() && i < |e.writers| && 0 < e.window && Formed(cfg, At(e, i, WLoad))
    requires Alone(cfg, At(e, i, WCas(e.window)), ms, out, e')
    ensures Alone(cfg, At(e, i, WLoad), [WStep(i)] + ms, out, e')
  {
    assert At(At(e, i, WLoad), i, WCas(e.window)) == At(e, i, WCas(e.window));
    Pass(cfg, At(e, i, WLoad), i, WCas(e.window), ms, out, e');
  }

  lemma LoopFormed(cfg: Config, e: Endpoint, i: nat)
    requires Formed(cfg, e) && i < |e.writers| && e.writers[i].total < |e.writers[i].p|
    ensures Formed(cfg, At(e, i, WLoad)) && Formed(cfg, At(e, i, WSleep))
    ensures 0 < e.window ==> Formed(cfg, At(e, i, WCas(e.window)))
  {
  }

  lemma ReserveStep(e: Endpoint, i: nat, c: nat)
    requires i < |e.writers|
    ensures var swapping := At(e, i, WCas(e.window));
            PutWriter(swapping, i, Goes(swapping.writers[i], WCheck(c), e.window - c, e.windowTok)) == Reserved(e, i, c)
  {
    assert e.sent + [] == e.sent && e.accepted + [] == e.accepted;
  }

  lemma ReturnAlone(cfg: Config, e: Endpoint, i: nat) returns (ms: seq<Move>, out: seq<Frame>, e': Endpoint)
    requires cfg.Valid() && Formed(cfg, e) && i < |e.writers| && e.writers[i].pc.WLoop?
    requires e.writers[i].total == |e.writers[i].p|
    ensures Alone(cfg, e, ms, out, e') && Only(ms, i) && out == [] && Sent(e, i, 0, e')
  {
    var t := e.writers[i];
    var f := Returns(t, e.window, e.windowTok);
    Step(cfg, e, i, f);
    e', out, ms := PutWriter(e, i, f), [], [WStep(i)];
    assert t.p[..t.total] == t.p && e.sent + t.p[t.total..t.total] == e.sent;
    Then(cfg, e, WStep(i), e', [], [], [], e');
  }

  lemma WaitAlone(cfg: Config, e: Endpoint, i: nat) returns (ms: seq<Move>, out: seq<Frame>, e': Endpoint)
    requires cfg.Valid() && Formed(cfg, e) && i < |e.writers| && e.writers[i].pc.WLoop? && MayWrite(e.state)
    requires e.writers[i].total < |e.writers[i].p| && e.window == 0
    ensures Alone(cfg, e, ms, out, e') && Only(ms, i) && out == [] && Sent(e, i, 0, e')
  {
    var t := e.writers[i];
    LoopFormed(cfg, e, i);
    e', out, ms := At(e, i, WSleep), [], [WStep(i), WStep(i)];
    Still(cfg, e');
    assert At(At(e, i, WLoad), i, WSleep) == e';
    assert e.sent + t.p[t.total..t.total] == e.sent && e.accepted + [] == e.accepted;
    hide Alone, Formed;
    Pass(cfg, At(e, i, WLoad), i, WSleep, [], [], e');
    Pass(cfg, e, i, WLoad, [WStep(i)], [], e');
    assert [WStep(i)] + [] == [WStep(i)];
    assert [WStep(i)] + [WStep(i)] == ms;
  }

  lemma ChunkFormed(cfg: Config, e: Endpoint, i: nat, c: nat)
    requires cfg.Valid() && Formed(cfg, e) && i < |e.writers| && e.writers[i].total < |e.writers[i].p| && 0 < e.window
    requires c == ChunkFor(cfg, e.writers[i], e.window)
    ensures 0 < c <= e.window && c <= |e.writers[i].p| - e.writers[i].total
    ensures Formed(cfg, Reserved(e, i, c)) && Formed(cfg, AfterSend(Signalled(Reserved(e, i, c)), i, c))
  {
  }

  lemma MoreSent(cfg: Config, e: Endpoint, i: nat, c: nat, e': Endpoint)
    requires i < |e.writers| && e.writers[i].pc.WLoop? && 0 < c <= e.window
             && c <= |e.writers[i].p| - e.writers[i].total
    requires var next := AfterSend(Signalled(Reserved(e, i, c)), i, c);
             Sent(next, i, Min(|next.writers[i].p| - next.writers[i].total, next.window), e')
    ensures Sent(e, i, Min(|e.writers[i].p| - e.writers[i].total, e.window), e')
  {
    var t := e.writers[i];
    var n := Min(|t.p| - t.total, e.window);
    assert Piece(t, c) + t.p[t.total + c..t.total + n] == t.p[t.total..t.total + n];
    assert e.sent + Piece(t, c) + t.p[t.total + c..t.total + n] ==
           e.sent + (Piece(t, c) + t.p[t.total + c..t.total + n]);
  }

  /** The frames of the class's Write as the machine puts them on the wire. */
  function Pieces(p: seq<byte>, credit: nat, maxFrame: nat): seq<Frame>
    requires 0 < maxFrame
    decreases |p|
  {
    if p == [] || credit == 0 then []
    else
      var c := Min(Min(|p|, credit), maxFrame);
      [Data(p[..c])] + Pieces(p[c..], credit - c, maxFrame)
  }

  lemma {:induction false} PiecesAreChunks(id: int, p: seq<byte>, credit: nat, maxFrame: nat)
    requires 0 < maxFrame
    ensures var frames := M.Chunks(id, p, credit, maxFrame);
            (forall k | 0 <= k < |frames| :: frames[k].OutData?) && OnWire(frames) == Pieces(p, credit, maxFrame)
    decreases |p|
  {
    if p != [] && credit != 0 {
      var c := Min(Min(|p|, credit), maxFrame);
      PiecesAreChunks(id, p[c..], credit - c, maxFrame);
      var rest := M.Chunks(id, p[c..], credit - c, maxFrame);
      var frames := M.Chunks(id, p, credit, maxFrame);
      assert frames == [M.OutData(id, p[..c])] + rest && frames[1..] == rest;
      forall k | 0 <= k < |frames|
        ensures frames[k].OutData?
      {
        if k > 0 { assert frames[k] == rest[k - 1]; }
      }
    }
  }

  lemma MorePieces(cfg: Config, t: Writer, window: int, c: nat)
    requires cfg.Valid() && t.total < |t.p| && 0 < window && c == ChunkFor(cfg, t, window) && 0 < c <= |t.p| - t.total
    ensures Pieces(t.p[t.total..], window, cfg.maxFrame) ==
            [Data(Piece(t, c))] + Pieces(t.p[t.total + c..], window - c, cfg.maxFrame)
  {
    var p := t.p[t.total..];
    assert p[..c] == Piece(t, c) && p[c..] == t.p[t.total + c..];
  }

  /** What the next turn starts from. */
  lemma NextTurn(cfg: Config, e: Endpoint, i: nat) returns (c: nat, next: Endpoint)
    requires cfg.Valid() && Formed(cfg, e) && i < |e.writers| && e.writers[i].total < |e.writers[i].p| && 0 < e.window
    ensures c == ChunkFor(cfg, e.writers[i], e.window) && 0 < c <= e.window
            && c <= |e.writers[i].p| - e.writers[i].total
    ensures Formed(cfg, Reserved(e, i, c)) && Formed(cfg, next) && next == AfterSend(Signalled(Reserved(e, i, c)), i, c)
    ensures |next.writers| == |e.writers| && next.state == e.state && next.broken == e.broken
    ensures next.window == e.window - c && next.writers[i] == Writer(WLoop, e.writers[i].p, e.writers[i].total + c)
  {
    c := ChunkFor(cfg, e.writers[i], e.window);
    ChunkFormed(cfg, e, i, c);
    next := AfterSend(Signalled(Reserved(e, i, c)), i, c);
  }

  lemma {:induction false} GoesAlone(cfg: Config, e: Endpoint, i: nat)
    returns (ms: seq<Move>, out: seq<Frame>, e': Endpoint)
    requires cfg.Valid() && Formed(cfg, e) && i < |e.writers| && e.writers[i].pc.WLoop? && !e.broken
             && MayWrite(e.state)
    requires e.writers[i].total <= |e.writers[i].p| && 0 <= e.window
    ensures Alone(cfg, e, ms, out, e') && Only(ms, i)
    ensures Sent(e, i, Min(|e.writers[i].p| - e.writers[i].total, e.window), e')
    ensures out == Pieces(e.writers[i].p[e.writers[i].total..], e.window, cfg.maxFrame)
    decreases |e.writers[i].p| - e.writers[i].total
  {
    hide Alone, Only, Formed, Sent, AfterSend, Signalled, Reserved;
    var t := e.writers[i];
    if t.total == |t.p| {
      ms, out, e' := ReturnAlone(cfg, e, i);
    } else if e.window == 0 {
      ms, out, e' := WaitAlone(cfg, e, i);
    } else {
      var c, next := NextTurn(cfg, e, i);
      var ms1, out1;
      ms1, out1, e' := GoesAlone(cfg, next, i);
      ms := FromLoop(cfg, e, i, ms1, out1, e');
      out := [Data(Piece(t, c))] + out1;
      MoreSent(cfg, e, i, c, e');
      MorePieces(cfg, t, e.window, c);
    }
  }

  /** The state a writer enters with. */
  function Begun(e: Endpoint, i: nat, p: seq<byte>): Endpoint
    requires i < |e.writers|
  {
    e.(writers := e.writers[i := Writer(WLoop, p, 0)])
  }

  lemma Enter(cfg: Config, e: Endpoint, i: nat, p: seq<byte>, ms: seq<Move>, out: seq<Frame>, e': Endpoint)
    requires cfg.Valid() && Formed(cfg, e) && i < |e.writers| && e.writers[i].pc.WIdle? && MayWrite(e.state)
    requires Formed(cfg, Begun(e, i, p)) && Alone(cfg, Begun(e, i, p), ms, out, e')
    ensures Alone(cfg, e, [WBegin(i, p)] + ([WStep(i)] + ms), out, e')
  {
    var entering := e.(writers := e.writers[i := Writer(WEnter, p, 0)]);
    assert Formed(cfg, entering);
    assert At(entering, i, WLoop) == Begun(e, i, p);
    Pass(cfg, entering, i, WLoop, ms, out, e');
    Then(cfg, e, WBegin(i, p), entering, [], [WStep(i)] + ms, out, e');
    assert [] + out == out;
  }

  /** A Write left alone: from its first step on it sends what the credit allows, in exactly the
      chunks of the multiplexer's Write, debits exactly that, and then has returned or waits. */
  lemma WriteAlone(cfg: Config, e: Endpoint, i: nat, p: seq<byte>, id: int)
    returns (ms: seq<Move>, out: seq<Frame>, e': Endpoint)
    requires cfg.Valid() && Formed(cfg, e) && i < |e.writers| && e.writers[i].pc.WIdle? && !e.broken
             && MayWrite(e.state)
    ensures Alone(cfg, e, [WBegin(i, p)] + ([WStep(i)] + ms), out, e') && Only(ms, i)
    ensures Sent(Begun(e, i, p), i, Min(|p|, e.window), e')
    ensures var frames := M.Chunks(id, p, e.window, cfg.maxFrame);
            (forall k | 0 <= k < |frames| :: frames[k].OutData?) && out == OnWire(frames)
  {
    assert Formed(cfg, Begun(e, i, p)) && 0 <= e.window;
    hide Alone, Only, Formed, Sent;
    ms, out, e' := GoesAlone(cfg, Begun(e, i, p), i);
    Enter(cfg, e, i, p, ms, out, e');
    assert p[0..] == p;
    PiecesAreChunks(id, p, e.window, cfg.maxFrame);
  }

  // ----- Read -----

  function RAt(e: Endpoint, i: nat, t: Reader): Endpoint
    requires i < |e.readers|
  {
    e.(readers := e.readers[i := t])
  }

  /** A step of a reader that takes nothing. */
  lemma ReadPass(cfg: Config, e: Endpoint, i: nat, t: Reader, t': Reader, credit: nat, ms: seq<Move>, out: seq<Frame>,
                 e': Endpoint)
    requires cfg.Valid() && Formed(cfg, e) && i < |e.readers| && CanMove(RAt(e, i, t), RStep(i))
    requires ReaderStep(t, e.state, |e.buf|, e.readTok) == ReaderEffect(t', e.readTok, 0, credit)
    requires Alone(cfg, RAt(e, i, t'), ms, out, e')
    ensures Alone(cfg, RAt(e, i, t), [RStep(i)] + ms, (if credit == 0 then [] else [Credit(credit)]) + out, e')
  {
    assert e.buf[0..] == e.buf && e.delivered + e.buf[..0] == e.delivered;
    assert RAt(e, i, t).readers[i := t'] == RAt(e, i, t').readers;
    assert Moved(cfg, RAt(e, i, t), RStep(i)) == (RAt(e, i, t'), if credit == 0 then [] else [Credit(credit)]);
    Then(cfg, RAt(e, i, t), RStep(i), RAt(e, i, t'), if credit == 0 then [] else [Credit(credit)], ms, out, e');
  }

  function TakenFrom(e: Endpoint, n: nat): Endpoint
    requires n <= |e.buf|
  {
    e.(buf := e.buf[n..], delivered := e.delivered + e.buf[..n])
  }

  lemma ReadTakes(cfg: Config, e: Endpoint, i: nat, limit: nat, ms: seq<Move>, out: seq<Frame>, e': Endpoint)
    requires cfg.Valid() && Formed(cfg, e) && i < |e.readers| && 0 < limit && e.buf != []
    requires var n := Min(limit, |e.buf|);
             Alone(cfg, RAt(TakenFrom(e, n), i, Reader(RCredit(n), limit, NoCall)), ms, out, e')
    ensures Alone(cfg, RAt(e, i, Reader(RDrain(e.state, false), limit, NoCall)), [RStep(i)] + ms, out, e')
  {
    var n := Min(limit, |e.buf|);
    var draining := RAt(e, i, Reader(RDrain(e.state, false), limit, NoCall));
    var owing := RAt(TakenFrom(e, n), i, Reader(RCredit(n), limit, NoCall));
    assert draining.readers[i := Reader(RCredit(n), limit, NoCall)] == owing.readers;
    assert Moved(cfg, draining, RStep(i)) == (owing, []);
    Then(cfg, draining, RStep(i), owing, [], ms, out, e');
    assert [] + out == out;
  }

  /** A Read left alone takes the front of the buffer and returns its credit, as the
      multiplexer's Read does. */
  lemma ReadAlone(cfg: Config, e: Endpoint, i: nat, limit: nat)
    requires cfg.Valid() && Formed(cfg, e) && i < |e.readers| && e.readers[i].pc.RIdle? && !e.broken
    requires 0 < limit && e.buf != []
    ensures var n := Min(limit, |e.buf|);
            Alone(cfg, e, [RBegin(i, limit), RStep(i), RStep(i), RStep(i)], [Credit(n)],
                  RAt(TakenFrom(e, n), i, Reader(RIdle, limit, Bytes(n))))
  {
    var n := Min(limit, |e.buf|);
    hide Alone;
    var credit := [Credit(n)] + [];
    assert credit == [Credit(n)];
    var end := RAt(TakenFrom(e, n), i, Reader(RIdle, limit, Bytes(n)));
    ReadPass(cfg, TakenFrom(e, n), i, Reader(RCredit(n), limit, NoCall), Reader(RIdle, limit, Bytes(n)), n, [], [],
             end);
    ReadTakes(cfg, e, i, limit, [RStep(i)] + [], credit, end);
    ReadPass(cfg, e, i, Reader(RTop(false), limit, NoCall), Reader(RDrain(e.state, false), limit, NoCall), 0,
             [RStep(i)] + ([RStep(i)] + []), credit, end);
    assert [] + credit == credit;
    Then(cfg, e, RBegin(i, limit), RAt(e, i, Reader(RTop(false), limit, NoCall)), [],
         [RStep(i)] + ([RStep(i)] + ([RStep(i)] + [])), credit, end);
    assert [RBegin(i, limit), RStep(i), RStep(i), RStep(i)] ==
           [RBegin(i, limit)] + ([RStep(i)] + ([RStep(i)] + ([RStep(i)] + [])));
  }

  /** A Read left alone that has no room, or finds nothing, says why or waits, as the multiplexer's
      Read does. */
  lemma EmptyReadAlone(cfg: Config, e: Endpoint, i: nat, limit: nat)
    requires cfg.Valid() && Formed(cfg, e) && i < |e.readers| && e.readers[i].pc.RIdle?
    requires limit == 0 || e.buf == []
    ensures var told := match e.state
                        case HalfClosedRemote => Reader(RIdle, limit, EndOfFile)
                        case Closed => Reader(RIdle, limit, EndOfFile)
                        case Reset => Reader(RIdle, limit, ResetError)
                        case _ => Reader(RSleep, limit, NoCall);
            Alone(cfg, e, [RBegin(i, limit), RStep(i), RStep(i)], [], RAt(e, i, told))
  {
    hide Alone;
    EmptyRead(cfg, e, i, limit);
  }

  /** Why there was nothing to read, or that the reader now waits. */
  function Told(st: StreamState, limit: nat): Reader {
    if PeerEnded(st) then Reader(RIdle, limit, EndOfFile)
    else if st.Reset? then Reader(RIdle, limit, ResetError)
    else Reader(RSleep, limit, NoCall)
  }

  lemma EmptyRead(cfg: Config, e: Endpoint, i: nat, limit: nat)
    requires cfg.Valid() && Formed(cfg, e) && i < |e.readers| && e.readers[i].pc.RIdle?
    requires limit == 0 || e.buf == []
    ensures Alone(cfg, e, [RBegin(i, limit), RStep(i), RStep(i)], [], RAt(e, i, Told(e.state, limit)))
  {
    hide Alone;
    var end := RAt(e, i, Told(e.state, limit));
    Still(cfg, end);
    ReadPass(cfg, e, i, Reader(RDrain(e.state, false), limit, NoCall), Told(e.state, limit), 0, [], [], end);
    ReadPass(cfg, e, i, Reader(RTop(false), limit, NoCall), Reader(RDrain(e.state, false), limit, NoCall), 0,
             [RStep(i)] + [], [], end);
    Then(cfg, e, RBegin(i, limit), RAt(e, i, Reader(RTop(false), limit, NoCall)), [], [RStep(i)] + ([RStep(i)] + []),
         [], end);
    assert [RBegin(i, limit), RStep(i), RStep(i)] == [RBegin(i, limit)] + ([RStep(i)] + ([RStep(i)] + []));
  }

  /** One that waits when the connection has gone looks once more and is then told of the truncation. */
  lemma CutReadAlone(cfg: Config, e: Endpoint, i: nat, limit: nat)
    requires cfg.Valid() && Formed(cfg, e) && i < |e.readers| && e.readers[i] == Reader(RSleep, limit, NoCall)
    requires e.done && (limit == 0 || e.buf == []) && !PeerEnded(e.state) && !e.state.Reset?
    ensures Alone(cfg, e, [RDone(i), RStep(i), RStep(i)], [], RAt(e, i, Reader(RIdle, limit, UnexpectedEof)))
  {
    hide Alone;
    var end := RAt(e, i, Reader(RIdle, limit, UnexpectedEof));
    Still(cfg, end);
    ReadPass(cfg, e, i, Reader(RDrain(e.state, true), limit, NoCall), Reader(RIdle, limit, UnexpectedEof), 0, [], [],
             end);
    ReadPass(cfg, e, i, Reader(RTop(true), limit, NoCall), Reader(RDrain(e.state, true), limit, NoCall), 0,
             [RStep(i)] + [], [], end);
    assert e.buf[0..] == e.buf && e.delivered + e.buf[..0] == e.delivered;
    Then(cfg, e, RDone(i), RAt(e, i, Reader(RTop(true), limit, NoCall)), [], [RStep(i)] + ([RStep(i)] + []), [], end);
    assert [RDone(i), RStep(i), RStep(i)] == [RDone(i)] + ([RStep(i)] + ([RStep(i)] + []));
  }

  lemma Still(cfg: Config, e: Endpoint)
    requires cfg.Valid() && Formed(cfg, e)
    ensures Alone(cfg, e, [], [], e)
  {
  }

  // ----- The handlers and Close -----

  lemma HandlerThen(cfg: Config, e: Endpoint, f: HandlerEffect, ms: seq<Move>, out: seq<Frame>, e': Endpoint)
    requires cfg.Valid() && Formed(cfg, e) && !e.handler.HIdle?
    requires f == HandlerStep(cfg, e.handler, e.state, e.window, e.windowTok, e.readTok)
    requires Alone(cfg, PutHandler(e, f), ms, out, e')
    ensures Alone(cfg, e, [HStep] + ms, out, e')
  {
    Then(cfg, e, HStep, PutHandler(e, f), [], ms, out, e');
    assert [] + out == out;
  }

  /** The handler of a data frame that fits stores it and wakes a reader. */
  lemma DataAlone(cfg: Config, e: Endpoint, b: seq<byte>)
    requires cfg.Valid() && Formed(cfg, e) && e.handler.HIdle? && e.registered && |e.buf| + |b| <= cfg.window
    ensures Alone(cfg, Receive(cfg, e, Data(b)).0, [HStep, HStep], [], e.(buf := e.buf + b, readTok := true))
  {
    var stored := e.(buf := e.buf + b, handler := HReadSignal);
    var end := e.(buf := e.buf + b, readTok := true);
    assert e.buf + b + [] == e.buf + b;
    Still(cfg, end);
    hide Alone;
    HandlerThen(cfg, stored, HandlerEffect(HIdle, e.state, e.window, e.windowTok, true, [], false), [], [], end);
    HandlerThen(cfg, e.(handler := HStore(b)),
                HandlerEffect(HReadSignal, e.state, e.window, e.windowTok, e.readTok, b, false), [HStep] + [], [], end);
    assert [HStep, HStep] == [HStep] + ([HStep] + []);
  }

  lemma EndSignalAlone(cfg: Config, e: Endpoint, cleanup: bool)
    requires cfg.Valid() && Formed(cfg, e) && e.handler.HIdle?
    ensures Alone(cfg, e.(handler := HEndSignal(cleanup)), [HStep], [],
                  e.(readTok := true, registered := e.registered && !cleanup))
  {
    var end := e.(readTok := true, registered := e.registered && !cleanup);
    Still(cfg, end);
    hide Alone;
    assert e.buf + [] == e.buf;
    HandlerThen(cfg, e.(handler := HEndSignal(cleanup)),
                HandlerEffect(HIdle, e.state, e.window, e.windowTok, true, [], cleanup), [], [], end);
    assert [HStep] == [HStep] + [];
  }

  /** The handler of the peer's close moves the state on and forgets a stream closed by both. */
  lemma PeerCloseAlone(cfg: Config, e: Endpoint)
    requires cfg.Valid() && Formed(cfg, e) && e.handler.HIdle? && e.registered && Open(e.state)
    ensures var st := AfterPeerClose(e.state);
            Alone(cfg, Receive(cfg, e, Close).0, [HStep, HStep], [],
                  e.(state := st, registered := Open(st), readTok := true, peerClosed := true))
  {
    hide Alone;
    var st := AfterPeerClose(e.state);
    var both := e.state.HalfClosedLocal?;
    var told := e.(peerClosed := true);
    assert e.buf + [] == e.buf;
    EndSignalAlone(cfg, told.(state := st), both);
    HandlerThen(cfg, told.(handler := HPeerClose(e.state)),
                HandlerEffect(HEndSignal(both), st, e.window, e.windowTok, e.readTok, [], false), [HStep], [],
                e.(state := st, registered := Open(st), readTok := true, peerClosed := true));
    assert [HStep, HStep] == [HStep] + [HStep];
  }

  lemma CloserThen(cfg: Config, e: Endpoint, f: CloserEffect, ms: seq<Move>, out: seq<Frame>, e': Endpoint)
    requires cfg.Valid() && Formed(cfg, e) && !e.closer.CDone? && f == CloserStep(e.closer, e.state)
    requires Alone(cfg, PutCloser(e, f), ms, out, e')
    ensures Alone(cfg, e, [CloseStep] + ms, (if f.says && !e.done then Answer(e, Close) else []) + out, e')
  {
    Then(cfg, e, CloseStep, PutCloser(e, f), if f.says && !e.done then Answer(e, Close) else [], ms, out, e');
  }

  lemma CloseTail(cfg: Config, e: Endpoint)
    requires cfg.Valid() && Formed(cfg, e) && e.closer.CFinal? && !e.state.Reset?
    ensures Alone(cfg, e, [CloseStep, CloseStep], if e.done then [] else Answer(e, Close),
                  e.(registered := e.registered && !e.state.Closed?, closer := CDone))
  {
    var end := e.(registered := e.registered && !e.state.Closed?, closer := CDone);
    var told := (if e.done then [] else Answer(e, Close)) + [];
    assert Alone(cfg, end, [], [], end);
    hide Alone;
    CloserThen(cfg, e.(closer := CSend(e.state.Closed?)), CloserEffect(CDone, e.state, true, e.state.Closed?), [], [],
               end);
    assert [] + told == told;
    CloserThen(cfg, e, CloserEffect(CSend(e.state.Closed?), e.state, false, false), [CloseStep] + [], told, end);
    assert [CloseStep, CloseStep] == [CloseStep] + ([CloseStep] + []);
    assert told == if e.done then [] else Answer(e, Close);
  }

  /** Close left alone moves the state on, tells the peer unless the connection is gone, and forgets
      a stream closed by both. */
  lemma CloseAlone(cfg: Config, e: Endpoint)
    requires cfg.Valid() && Formed(cfg, e) && e.closer.CIdle? && Open(e.state)
    ensures var st := AfterLocalClose(e.state);
            Alone(cfg, e, [CloseStep, CloseStep, CloseStep, CloseStep], if e.done then [] else Answer(e, Close),
                  e.(state := st, registered := e.registered && Open(st), closer := CDone))
  {
    hide Alone;
    var st := AfterLocalClose(e.state);
    var end := e.(state := st, registered := e.registered && Open(st), closer := CDone);
    var told := if e.done then [] else Answer(e, Close);
    CloseTail(cfg, e.(state := st, closer := CFinal));
    assert [] + told == told;
    CloserThen(cfg, e.(closer := CCas(e.state)), CloserEffect(CFinal, st, false, false), [CloseStep, CloseStep], told,
               end);
    CloserThen(cfg, e, CloserEffect(CCas(e.state), e.state, false, false), [CloseStep] + [CloseStep, CloseStep], told,
               end);
    assert [CloseStep, CloseStep, CloseStep, CloseStep] == [CloseStep] + ([CloseStep] + [CloseStep, CloseStep]);
  }
}
