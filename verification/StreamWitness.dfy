/** Runs from a fresh stream that end in the states one would not expect. */
module StreamWitness {
  import opened Base
  import opened StreamCore
  import opened StreamMachine
  import opened StreamSolo
  import M = Muxes
  import B = StreamBounds
  import D = StreamDelivery

  // ----- Putting runs together -----

  /** The actions lead from s to t, and the callers keep to the discipline of closing after writing. */
  ghost predicate Reach(cfg: Config, s: State, acts: seq<Action>, t: State)
    requires cfg.Valid()
  {
    Path(cfg, s, acts, t) && D.OrderlyPath(cfg, s, acts, t)
  }

  lemma First(cfg: Config, s: State, x: Action, rest: seq<Action>, t: State)
    requires cfg.Valid() && AllFormed(cfg, s) && CanDo(s, x) && D.Orderly(s, x)
    requires Reach(cfg, Next(cfg, s, x), rest, t)
    ensures Reach(cfg, s, [x] + rest, t)
  {
    assert ([x] + rest)[0] == x && ([x] + rest)[1..] == rest;
  }

  lemma Stay(cfg: Config, s: State)
    requires cfg.Valid() && AllFormed(cfg, s)
    ensures Reach(cfg, s, [], s)
  {
  }

  lemma {:induction false} Join(cfg: Config, s: State, first: seq<Action>, t: State, rest: seq<Action>, u: State)
    requires cfg.Valid() && Reach(cfg, s, first, t) && Reach(cfg, t, rest, u)
    ensures Reach(cfg, s, first + rest, u)
    decreases |first|
  {
    hide Next, D.Orderly;
    if first == [] {
      assert first + rest == rest;
    } else {
      Join(cfg, Next(cfg, s, first[0]), first[1..], t, rest, u);
      First(cfg, s, first[0], first[1..] + rest, u);
      assert first + rest == [first[0]] + (first[1..] + rest);
    }
  }

  function ActsOf(side: Side, ms: seq<Move>): seq<Action> {
    seq(|ms|, i requires 0 <= i < |ms| => Act(side, ms[i]))
  }

  predicate Tame(m: Move) {
    !m.CloseStep? && !m.WBegin?
  }

  /** Only Close and beginning a Write ask for discipline: these moves keep it. */
  ghost predicate Polite(e: Endpoint, ms: seq<Move>) {
    || (forall k | 0 <= k < |ms| :: Tame(ms[k]))
    || ((forall k | 0 <= k < |ms| :: ms[k].CloseStep? || ms[k].HStep?) && D.WritersIdle(e))
  }

  lemma PoliteNext(cfg: Config, s: State, side: Side, ms: seq<Move>)
    requires cfg.Valid() && AllFormed(cfg, s) && ms != [] && CanMove(s.Ep(side), ms[0]) && Polite(s.Ep(side), ms)
    ensures D.Orderly(s, Act(side, ms[0])) && Polite(Moved(cfg, s.Ep(side), ms[0]).0, ms[1..])
  {
    var e, m := s.Ep(side), ms[0];
    if !(forall k | 0 <= k < |ms| :: Tame(ms[k])) {
      SameWriters(cfg, e, m);
    }
    hide Moved;
  }

  lemma SameWriters(cfg: Config, e: Endpoint, m: Move)
    requires cfg.Valid() && Formed(cfg, e) && CanMove(e, m) && (m.CloseStep? || m.HStep?)
    ensures Moved(cfg, e, m).0.writers == e.writers
  {
  }

  lemma OneMove(cfg: Config, s: State, side: Side, m: Move, acts: seq<Action>, t: State)
    requires cfg.Valid() && AllFormed(cfg, s) && CanMove(s.Ep(side), m) && D.Orderly(s, Act(side, m))
    requires var r := Moved(cfg, s.Ep(side), m); Reach(cfg, s.Put(side, r.0, r.1), acts, t)
    ensures Reach(cfg, s, [Act(side, m)] + acts, t)
  {
    hide Reach;
    First(cfg, s, Act(side, m), acts, t);
  }

  /** The moves of one end alone are a run of both. */
  lemma {:induction false} AloneReaches(cfg: Config, s: State, side: Side, ms: seq<Move>, out: seq<Frame>, e': Endpoint)
    requires cfg.Valid() && AllFormed(cfg, s) && Alone(cfg, s.Ep(side), ms, out, e') && Polite(s.Ep(side), ms)
    ensures Reach(cfg, s, ActsOf(side, ms), s.Put(side, e', out))
    decreases |ms|
  {
    hide Reach, Polite, Moved, D.Orderly;
    if ms == [] {
      assert s.ab + [] == s.ab && s.ba + [] == s.ba;
      assert s.Put(side, e', []) == s;
      Stay(cfg, s);
    } else {
      var e, m := s.Ep(side), ms[0];
      var r := Moved(cfg, e, m);
      MovedFormed(cfg, e, m);
      PoliteNext(cfg, s, side, ms);
      AloneReaches(cfg, s.Put(side, r.0, r.1), side, ms[1..], out[|r.1|..], e');
      PutTwice(s, side, r.0, r.1, e', out);
      OneMove(cfg, s, side, m, ActsOf(side, ms[1..]), s.Put(side, e', out));
      assert ActsOf(side, ms) == [Act(side, m)] + ActsOf(side, ms[1..]);
    }
  }

  lemma PutTwice(s: State, side: Side, e1: Endpoint, first: seq<Frame>, e2: Endpoint, out: seq<Frame>)
    requires first <= out
    ensures s.Put(side, e1, first).Put(side, e2, out[|first|..]) == s.Put(side, e2, out)
  {
    assert first + out[|first|..] == out;
    assert s.From(side) + first + out[|first|..] == s.From(side) + out;
  }

  /** The read loop takes a frame, and its handler runs to its end. */
  lemma TakeReaches(cfg: Config, s: State, side: Side, f: Frame, rest: seq<Frame>, ms: seq<Move>, e': Endpoint)
    requires cfg.Valid() && AllFormed(cfg, s) && s.From(side.Other()) == [f] + rest && s.Ep(side).handler.HIdle?
    requires Receive(cfg, s.Ep(side), f).1 == []
    requires Alone(cfg, Receive(cfg, s.Ep(side), f).0, ms, [], e') && forall k | 0 <= k < |ms| :: ms[k].HStep?
    ensures var t := if side == A then State(e', s.b, s.ab, rest) else State(s.a, e', rest, s.ba);
            Reach(cfg, s, [Pop(side)] + ActsOf(side, ms), t)
  {
    var s1 := Next(cfg, s, Pop(side));
    NextFormed(cfg, s, Pop(side));
    AfterPop(cfg, s, side);
    assert s.ab + [] == s.ab && s.ba + [] == s.ba;
    AloneReaches(cfg, s1, side, ms, [], e');
    First(cfg, s, Pop(side), ActsOf(side, ms), s1.Put(side, e', []));
  }

  // ----- An empty Read ends early -----

  function Fresh(cfg: Config, writers: nat, readers: nat): State {
    State(FreshEndpoint(cfg, writers, 0), FreshEndpoint(cfg, 0, readers), [], [])
  }

  /** A after its one writer has sent one byte, and after it has closed as well. */
  function AfterWrite(cfg: Config, b: byte, tok: bool): Endpoint {
    FreshEndpoint(cfg, 1, 0).(window := cfg.window - 1, windowTok := tok, sent := [b], accepted := [b])
  }

  /** A writes one byte. */
  lemma WriteOne(cfg: Config, b: byte) returns (acts: seq<Action>, tok: bool)
    requires cfg.Valid()
    ensures Reach(cfg, Fresh(cfg, 1, 1), acts,
                  State(AfterWrite(cfg, b, tok), FreshEndpoint(cfg, 0, 1), [Data([b])], []))
  {
    var s, e := Fresh(cfg, 1, 1), FreshEndpoint(cfg, 1, 0);
    var ms, out, e' := WriteAlone(cfg, e, 0, [b], 2);
    OneFrame(cfg, b, out);
    tok := e'.windowTok;
    SentOne(cfg, b, e');
    var begun := Next(cfg, s, Act(A, WBegin(0, [b])));
    assert Alone(cfg, begun.a, [WStep(0)] + ms, out, e') by {
      assert ([WBegin(0, [b])] + ([WStep(0)] + ms))[1..] == [WStep(0)] + ms;
      assert out[0..] == out;
    }
    NextFormed(cfg, s, Act(A, WBegin(0, [b])));
    AloneReaches(cfg, begun, A, [WStep(0)] + ms, out, e');
    acts := [Act(A, WBegin(0, [b]))] + ActsOf(A, [WStep(0)] + ms);
    assert begun.Put(A, e', out) == State(AfterWrite(cfg, b, tok), FreshEndpoint(cfg, 0, 1), [Data([b])], []);
    First(cfg, s, Act(A, WBegin(0, [b])), ActsOf(A, [WStep(0)] + ms), begun.Put(A, e', out));
  }

  lemma OneFrame(cfg: Config, b: byte, out: seq<Frame>)
    requires cfg.Valid()
    requires var frames := M.Chunks(2, [b], cfg.window, cfg.maxFrame);
             (forall k | 0 <= k < |frames| :: frames[k].OutData?) && out == OnWire(frames)
    ensures out == [Data([b])]
  {
    PiecesAreChunks(2, [b], cfg.window, cfg.maxFrame);
    assert [b][..1] == [b] && [b][1..] == [];
  }

  lemma SentOne(cfg: Config, b: byte, e': Endpoint)
    requires cfg.Valid() && Sent(Begun(FreshEndpoint(cfg, 1, 0), 0, [b]), 0, 1, e')
    ensures e' == AfterWrite(cfg, b, e'.windowTok)
  {
    var e := FreshEndpoint(cfg, 1, 0);
    assert e'.writers == e.writers;
    assert [] + [b][0..1] == [b] && [] + [b] == [b];
  }

  /** A closes behind its byte, and B stores it. */
  function Written(cfg: Config, b: byte, tok: bool): Endpoint {
    AfterWrite(cfg, b, tok).(state := HalfClosedLocal, closer := CDone)
  }

  function Stored(cfg: Config, b: byte): Endpoint {
    FreshEndpoint(cfg, 0, 1).(buf := [b], readTok := true)
  }

  lemma CloseBehind(cfg: Config, b: byte, tok: bool) returns (acts: seq<Action>)
    requires cfg.Valid()
    ensures Reach(cfg, State(AfterWrite(cfg, b, tok), FreshEndpoint(cfg, 0, 1), [Data([b])], []), acts,
                  State(Written(cfg, b, tok), FreshEndpoint(cfg, 0, 1), [Data([b]), Close], []))
  {
    hide Alone, Reach;
    var e := AfterWrite(cfg, b, tok);
    var s := State(e, FreshEndpoint(cfg, 0, 1), [Data([b])], []);
    CloseAlone(cfg, e);
    var close := [CloseStep, CloseStep, CloseStep, CloseStep];
    AloneReaches(cfg, s, A, close, [Close], Written(cfg, b, tok));
    assert s.Put(A, Written(cfg, b, tok), [Close]) ==
           State(Written(cfg, b, tok), FreshEndpoint(cfg, 0, 1), [Data([b]), Close], []);
    acts := ActsOf(A, close);
  }

  lemma StoreByte(cfg: Config, b: byte, tok: bool) returns (acts: seq<Action>)
    requires cfg.Valid()
    ensures Reach(cfg, State(Written(cfg, b, tok), FreshEndpoint(cfg, 0, 1), [Data([b]), Close], []), acts,
                  State(Written(cfg, b, tok), Stored(cfg, b), [Close], []))
  {
    hide Alone, Reach;
    var r := FreshEndpoint(cfg, 0, 1);
    DataAlone(cfg, r, [b]);
    assert [] + [b] == [b] && [Data([b]), Close] == [Data([b])] + [Close];
    TakeReaches(cfg, State(Written(cfg, b, tok), r, [Data([b]), Close], []), B, Data([b]), [Close], [HStep, HStep],
                Stored(cfg, b));
    acts := [Pop(B)] + ActsOf(B, [HStep, HStep]);
  }

  /** B hears of the close. */
  function Heard(cfg: Config, b: byte): Endpoint {
    Stored(cfg, b).(state := HalfClosedRemote, peerClosed := true)
  }

  lemma Hear(cfg: Config, b: byte, tok: bool) returns (acts: seq<Action>)
    requires cfg.Valid()
    ensures Reach(cfg, State(Written(cfg, b, tok), Stored(cfg, b), [Close], []), acts,
                  State(Written(cfg, b, tok), Heard(cfg, b), [], []))
  {
    hide Alone, Reach;
    var r := Stored(cfg, b);
    PeerCloseAlone(cfg, r);
    assert r.(state := HalfClosedRemote, registered := true, readTok := true, peerClosed := true) == Heard(cfg, b);
    assert [Close] == [Close] + [];
    TakeReaches(cfg, State(Written(cfg, b, tok), r, [Close], []), B, Close, [], [HStep, HStep], Heard(cfg, b));
    acts := [Pop(B)] + ActsOf(B, [HStep, HStep]);
  }

  /** A Read with an empty slice is told end of file over the byte. */
  lemma ReadNothing(cfg: Config, b: byte, tok: bool) returns (acts: seq<Action>)
    requires cfg.Valid()
    ensures Reach(cfg, State(Written(cfg, b, tok), Heard(cfg, b), [], []), acts,
                  State(Written(cfg, b, tok), Heard(cfg, b).(readers := [Reader(RIdle, 0, EndOfFile)]), [], []))
  {
    hide Alone, Reach;
    var r := Heard(cfg, b);
    var s := State(Written(cfg, b, tok), r, [], []);
    EmptyReadAlone(cfg, r, 0, 0);
    var read := [RBegin(0, 0), RStep(0), RStep(0)];
    var end := r.(readers := [Reader(RIdle, 0, EndOfFile)]);
    assert RAt(r, 0, Reader(RIdle, 0, EndOfFile)) == end;
    AloneReaches(cfg, s, B, read, [], end);
    assert s.Put(B, end, []) == State(Written(cfg, b, tok), end, [], []);
    acts := ActsOf(B, read);
  }

  lemma Chain(cfg: Config, b: byte, tok: bool, write: seq<Action>, close: seq<Action>, store: seq<Action>,
              hear: seq<Action>, read: seq<Action>)
    requires cfg.Valid()
    requires var s1 := State(AfterWrite(cfg, b, tok), FreshEndpoint(cfg, 0, 1), [Data([b])], []);
             var s2 := State(Written(cfg, b, tok), FreshEndpoint(cfg, 0, 1), [Data([b]), Close], []);
             var s3 := State(Written(cfg, b, tok), Stored(cfg, b), [Close], []);
             var s4 := State(Written(cfg, b, tok), Heard(cfg, b), [], []);
             var t := State(Written(cfg, b, tok), Heard(cfg, b).(readers := [Reader(RIdle, 0, EndOfFile)]), [], []);
             && Reach(cfg, Fresh(cfg, 1, 1), write, s1) && Reach(cfg, s1, close, s2) && Reach(cfg, s2, store, s3)
             && Reach(cfg, s3, hear, s4) && Reach(cfg, s4, read, t)
    ensures var t := State(Written(cfg, b, tok), Heard(cfg, b).(readers := [Reader(RIdle, 0, EndOfFile)]), [], []);
            Reach(cfg, Fresh(cfg, 1, 1), write + (close + (store + (hear + read))), t)
  {
    hide *;
    var s1 := State(AfterWrite(cfg, b, tok), FreshEndpoint(cfg, 0, 1), [Data([b])], []);
    var s2 := State(Written(cfg, b, tok), FreshEndpoint(cfg, 0, 1), [Data([b]), Close], []);
    var s3 := State(Written(cfg, b, tok), Stored(cfg, b), [Close], []);
    var s4 := State(Written(cfg, b, tok), Heard(cfg, b), [], []);
    var t := State(Written(cfg, b, tok), Heard(cfg, b).(readers := [Reader(RIdle, 0, EndOfFile)]), [], []);
    Join(cfg, s3, hear, s4, read, t);
    Join(cfg, s2, store, s3, hear + read, t);
    Join(cfg, s1, close, s2, store + (hear + read), t);
    Join(cfg, Fresh(cfg, 1, 1), write, s1, close + (store + (hear + read)), t);
  }

  /**
   * On every configuration there is a run in which a Read with an empty slice returns end of file
   * although the peer's byte has not been delivered: one writer sends it and closes, and an idle
   * reader asks with no room.
   */
  lemma EmptyReadRun(cfg: Config, b: byte) returns (acts: seq<Action>, t: State)
    requires cfg.Valid()
    ensures Initial(cfg, Fresh(cfg, 1, 1)) && Path(cfg, Fresh(cfg, 1, 1), acts, t)
    ensures D.OrderlyPath(cfg, Fresh(cfg, 1, 1), acts, t)
    ensures t.b.readers == [Reader(RIdle, 0, EndOfFile)] && t.b.delivered == []
    ensures t.a.accepted == [b] && t.a.sent == [b] && t.a.closer.CDone?
  {
    var write, tok := WriteOne(cfg, b);
    var close := CloseBehind(cfg, b, tok);
    var store := StoreByte(cfg, b, tok);
    var hear := Hear(cfg, b, tok);
    var read := ReadNothing(cfg, b, tok);
    t := State(Written(cfg, b, tok), Heard(cfg, b).(readers := [Reader(RIdle, 0, EndOfFile)]), [], []);
    acts := write + (close + (store + (hear + read)));
    Chain(cfg, b, tok, write, close, store, hear, read);
  }

  // ----- A refund overfills the window -----

  lemma RunFirst(cfg: Config, e: Endpoint, x: B.Event, mid: Endpoint, xs: seq<B.Event>, refunds: nat, e': Endpoint)
    requires cfg.Valid() && Formed(cfg, e) && B.CanHappen(e, x) && B.After(cfg, e, x) == mid
    requires B.Run(cfg, mid, xs, refunds, e')
    ensures B.Run(cfg, e, [x] + xs, B.Refund(e, x) + refunds, e')
  {
    assert ([x] + xs)[0] == x && ([x] + xs)[1..] == xs;
  }

  /** The writer at a place, its byte still to be reserved, and reserved. */
  function Place(cfg: Config, b: byte, pc: WriterPc): Endpoint {
    FreshEndpoint(cfg, 1, 0).(writers := [Writer(pc, [b], 0)])
  }

  function Holding(cfg: Config, b: byte, pc: WriterPc, window: int, tok: bool): Endpoint {
    Place(cfg, b, pc).(window := window, windowTok := tok)
  }

  /** One step of the only writer. */
  lemma WriterGoes(cfg: Config, e: Endpoint, mid: Endpoint, xs: seq<B.Event>, refunds: nat, e': Endpoint)
    requires cfg.Valid() && Formed(cfg, e) && |e.writers| == 1 && CanMove(e, WStep(0))
    requires var f := WriterStep(cfg, e.writers[0], e.state, e.window, e.windowTok);
             f.piece == [] && f.reported == [] && mid == e.(writers := [f.t], window := f.window, windowTok := f.tok)
    requires B.Run(cfg, mid, xs, refunds, e')
    ensures B.Run(cfg, e, [B.Own(WStep(0))] + xs, B.Refund(e, B.Own(WStep(0))) + refunds, e')
  {
    var f := WriterStep(cfg, e.writers[0], e.state, e.window, e.windowTok);
    assert e.sent + [] == e.sent && e.accepted + [] == e.accepted && e.writers[0 := f.t] == [f.t];
    RunFirst(cfg, e, B.Own(WStep(0)), mid, xs, refunds, e');
  }

  /** The end after a window of credit and a refund. */
  function Overfull(cfg: Config, b: byte): Endpoint {
    Holding(cfg, b, WRefundSignal, cfg.window + 1, true).(broken := true)
  }

  /** With the whole window back and its byte still reserved, the write fails and refunds the byte. */
  lemma FailAndRefund(cfg: Config, b: byte) returns (xs: seq<B.Event>)
    requires cfg.Valid()
    ensures B.Run(cfg, Holding(cfg, b, WSend(1), cfg.window, true).(broken := true), xs, 1, Overfull(cfg, b))
  {
    hide B.Run;
    var full := Holding(cfg, b, WSend(1), cfg.window, true).(broken := true);
    var failed := Holding(cfg, b, WRefund(1), cfg.window, true).(broken := true);
    Nothing(cfg, Overfull(cfg, b));
    WriterGoes(cfg, failed, Overfull(cfg, b), [], 0, Overfull(cfg, b));
    WriteFails(cfg, full, failed);
    RunFirst(cfg, full, B.Own(WFail(0)), failed, [B.Own(WStep(0))] + [], 1, Overfull(cfg, b));
    xs := [B.Own(WFail(0))] + ([B.Own(WStep(0))] + []);
  }

  /** From the reserved byte: the connection fails, and a peer that owes none gives a window of credit. */
  lemma Overfill(cfg: Config, b: byte, tok: bool) returns (xs: seq<B.Event>)
    requires cfg.Valid()
    ensures B.Run(cfg, Holding(cfg, b, WSend(1), cfg.window - 1, tok), xs, 1, Overfull(cfg, b))
  {
    hide B.Run;
    var e := Holding(cfg, b, WSend(1), cfg.window - 1, tok).(broken := true);
    xs := FailAndRefund(cfg, b);
    xs := CreditComes(cfg, e, cfg.window, xs, Overfull(cfg, b));
    RunFirst(cfg, Holding(cfg, b, WSend(1), cfg.window - 1, tok), B.Own(Breaks), e, xs, 1, Overfull(cfg, b));
    xs := [B.Own(Breaks)] + xs;
  }

  lemma Nothing(cfg: Config, e: Endpoint)
    requires cfg.Valid() && Formed(cfg, e)
    ensures B.Run(cfg, e, [], 0, e)
  {
  }

  lemma WriteFails(cfg: Config, e: Endpoint, failed: Endpoint)
    requires cfg.Valid() && Formed(cfg, e) && e.broken && |e.writers| == 1 && e.writers[0].pc == WSend(1)
    requires failed == e.(writers := [e.writers[0].(pc := WRefund(1))])
    ensures B.After(cfg, e, B.Own(WFail(0))) == failed
  {
    assert e.sent + [] == e.sent && e.accepted + [] == e.accepted;
    assert e.writers[0 := e.writers[0].(pc := WRefund(1))] == failed.writers;
  }

  lemma HandlerGoes(cfg: Config, e: Endpoint, f: HandlerEffect, xs: seq<B.Event>, end: Endpoint)
    requires cfg.Valid() && Formed(cfg, e) && !e.handler.HIdle?
    requires f == HandlerStep(cfg, e.handler, e.state, e.window, e.windowTok, e.readTok)
    requires B.Run(cfg, PutHandler(e, f), xs, 1, end)
    ensures B.Run(cfg, e, [B.Own(HStep)] + xs, 1, end)
  {
    hide B.Run;
    RunFirst(cfg, e, B.Own(HStep), PutHandler(e, f), xs, 1, end);
  }

  /** The peer's credit arrives and is added, clamped. */
  lemma CreditComes(cfg: Config, e: Endpoint, d: nat, xs: seq<B.Event>, end: Endpoint) returns (all: seq<B.Event>)
    requires cfg.Valid() && Formed(cfg, e) && e.handler.HIdle? && e.registered && 0 <= Credited(e.window, d, cfg.window)
    requires B.Run(cfg, e.(window := Credited(e.window, d, cfg.window), windowTok := true), xs, 1, end)
    ensures B.Run(cfg, e, all, 1, end)
  {
    hide B.Run;
    var w := Credited(e.window, d, cfg.window);
    assert e.buf + [] == e.buf;
    HandlerGoes(cfg, e.(window := w, handler := HSignal),
                HandlerEffect(HIdle, e.state, w, true, e.readTok, [], false), xs, end);
    all := [B.Own(HStep)] + xs;
    HandlerGoes(cfg, e.(handler := HCas(e.window, d)),
                HandlerEffect(HSignal, e.state, w, e.windowTok, e.readTok, [], false), all, end);
    all := [B.Own(HStep)] + all;
    HandlerGoes(cfg, e.(handler := HCredit(d)),
                HandlerEffect(HCas(e.window, d), e.state, e.window, e.windowTok, e.readTok, [], false), all, end);
    all := [B.Own(HStep)] + all;
    RunFirst(cfg, e, B.Peer(Credit(d)), e.(handler := HCredit(d)), all, 1, end);
    all := [B.Peer(Credit(d))] + all;
  }

  /** From the reservation to the send, by way of the signal when credit is left. */
  lemma PassOn(cfg: Config, b: byte, xs: seq<B.Event>, end: Endpoint) returns (all: seq<B.Event>)
    requires cfg.Valid() && B.Run(cfg, Holding(cfg, b, WSend(1), cfg.window - 1, cfg.window > 1), xs, 1, end)
    ensures B.Run(cfg, Holding(cfg, b, WCheck(1), cfg.window - 1, false), all, 1, end)
  {
    hide B.Run;
    var w := cfg.window;
    all := xs;
    if w > 1 {
      WriterGoes(cfg, Holding(cfg, b, WSignal(1), w - 1, false), Holding(cfg, b, WSend(1), w - 1, true), all, 1, end);
      all := [B.Own(WStep(0))] + all;
      WriterGoes(cfg, Holding(cfg, b, WCheck(1), w - 1, false), Holding(cfg, b, WSignal(1), w - 1, false), all, 1, end);
    } else {
      WriterGoes(cfg, Holding(cfg, b, WCheck(1), w - 1, false), Holding(cfg, b, WSend(1), w - 1, false), all, 1, end);
    }
    all := [B.Own(WStep(0))] + all;
  }

  /** From the start of the loop to the reserved byte. */
  lemma ReserveByte(cfg: Config, b: byte, xs: seq<B.Event>, end: Endpoint) returns (all: seq<B.Event>)
    requires cfg.Valid() && B.Run(cfg, Holding(cfg, b, WSend(1), cfg.window - 1, cfg.window > 1), xs, 1, end)
    ensures B.Run(cfg, Place(cfg, b, WLoop), all, 1, end)
  {
    hide B.Run;
    all := PassOn(cfg, b, xs, end);
    WriterGoes(cfg, Place(cfg, b, WCas(cfg.window)), Holding(cfg, b, WCheck(1), cfg.window - 1, false), all, 1, end);
    all := [B.Own(WStep(0))] + all;
    WriterGoes(cfg, Place(cfg, b, WLoad), Place(cfg, b, WCas(cfg.window)), all, 1, end);
    all := [B.Own(WStep(0))] + all;
    WriterGoes(cfg, Place(cfg, b, WLoop), Place(cfg, b, WLoad), all, 1, end);
    all := [B.Own(WStep(0))] + all;
  }

  /** On every configuration a fresh end can come to more than a window of credit: by one failed write
      and a peer that credits what it never received. */
  lemma RefundRun(cfg: Config, b: byte) returns (xs: seq<B.Event>, end: Endpoint)
    requires cfg.Valid()
    ensures B.Run(cfg, FreshEndpoint(cfg, 1, 0), xs, 1, end) && end.window == cfg.window + 1
  {
    hide B.Run;
    end := Overfull(cfg, b);
    xs := Overfill(cfg, b, cfg.window > 1);
    xs := ReserveByte(cfg, b, xs, end);
    WriterGoes(cfg, Place(cfg, b, WEnter), Place(cfg, b, WLoop), xs, 1, end);
    xs := [B.Own(WStep(0))] + xs;
    RunFirst(cfg, FreshEndpoint(cfg, 1, 0), B.Own(WBegin(0, [b])), Place(cfg, b, WEnter), xs, 1, end);
    xs := [B.Own(WBegin(0, [b]))] + xs;
  }

  // ----- A close that is lost -----

  /** B is told of A's close, and has closed, in between the two steps of the handler. */
  function Lost(cfg: Config): Endpoint {
    FreshEndpoint(cfg, 0, 1).(state := HalfClosedLocal, closer := CDone, peerClosed := true, readTok := true)
  }

  /** A, which closed first, has heard of B's close and forgotten the stream. */
  function Gone(cfg: Config): Endpoint {
    FreshEndpoint(cfg, 0, 0).(state := Closed, registered := false, closer := CDone,
                              peerClosed := true, readTok := true)
  }

  function Closed1(cfg: Config): Endpoint {
    FreshEndpoint(cfg, 0, 0).(state := HalfClosedLocal, closer := CDone)
  }

  lemma CloseFirst(cfg: Config) returns (acts: seq<Action>)
    requires cfg.Valid()
    ensures Reach(cfg, Fresh(cfg, 0, 1), acts, State(Closed1(cfg), FreshEndpoint(cfg, 0, 1), [Close], []))
  {
    hide Alone, Reach;
    var close := [CloseStep, CloseStep, CloseStep, CloseStep];
    CloseAlone(cfg, FreshEndpoint(cfg, 0, 0));
    AloneReaches(cfg, Fresh(cfg, 0, 1), A, close, [Close], Closed1(cfg));
    assert Fresh(cfg, 0, 1).Put(A, Closed1(cfg), [Close]) == State(Closed1(cfg), FreshEndpoint(cfg, 0, 1), [Close], []);
    acts := ActsOf(A, close);
  }

  function Informed(cfg: Config): Endpoint {
    FreshEndpoint(cfg, 0, 1).(peerClosed := true)
  }

  /** Both have loaded Active; the local swap comes first, and the handler's fails. */
  lemma RaceAlone(cfg: Config)
    requires cfg.Valid()
    ensures Alone(cfg, Informed(cfg).(handler := HPeerClose(Active)),
                  [CloseStep, CloseStep, HStep, HStep, CloseStep, CloseStep], [Close], Lost(cfg))
  {
    hide Alone;
    var b := Informed(cfg);
    var closed := b.(closer := CFinal, state := HalfClosedLocal);
    assert b.buf + [] == b.buf && [] + [Close] == [Close];
    CloseTail(cfg, closed.(readTok := true));
    assert closed.(readTok := true).(registered := true, closer := CDone) == Lost(cfg);
    var ms := [CloseStep, CloseStep];
    HandlerThen(cfg, closed.(handler := HEndSignal(false)),
                HandlerEffect(HIdle, HalfClosedLocal, b.window, false, true, [], false), ms, [Close], Lost(cfg));
    HandlerThen(cfg, closed.(handler := HPeerClose(Active)),
                HandlerEffect(HEndSignal(false), HalfClosedLocal, b.window, false, false, [], false), [HStep] + ms,
                [Close], Lost(cfg));
    CloserThen(cfg, b.(handler := HPeerClose(Active), closer := CCas(Active)),
               CloserEffect(CFinal, HalfClosedLocal, false, false), [HStep] + ([HStep] + ms), [Close], Lost(cfg));
    CloserThen(cfg, b.(handler := HPeerClose(Active)),
               CloserEffect(CCas(Active), Active, false, false), [CloseStep] + ([HStep] + ([HStep] + ms)), [Close],
               Lost(cfg));
    assert [CloseStep, CloseStep, HStep, HStep, CloseStep, CloseStep] ==
           [CloseStep] + ([CloseStep] + ([HStep] + ([HStep] + ms)));
  }

  lemma Race(cfg: Config) returns (acts: seq<Action>)
    requires cfg.Valid()
    ensures Reach(cfg, State(Closed1(cfg), FreshEndpoint(cfg, 0, 1), [Close], []), acts,
                  State(Closed1(cfg), Lost(cfg), [], [Close]))
  {
    hide Alone, Reach;
    var ms := [CloseStep, CloseStep, HStep, HStep, CloseStep, CloseStep];
    var s := State(Closed1(cfg), FreshEndpoint(cfg, 0, 1), [Close], []);
    var s1 := State(Closed1(cfg), Informed(cfg).(handler := HPeerClose(Active)), [], []);
    RaceAlone(cfg);
    AloneReaches(cfg, s1, B, ms, [Close], Lost(cfg));
    assert s1.Put(B, Lost(cfg), [Close]) == State(Closed1(cfg), Lost(cfg), [], [Close]);
    assert Next(cfg, s, Pop(B)) == s1;
    First(cfg, s, Pop(B), ActsOf(B, ms), State(Closed1(cfg), Lost(cfg), [], [Close]));
    acts := [Pop(B)] + ActsOf(B, ms);
  }

  /** A hears of B's close and forgets the stream. */
  lemma HearBack(cfg: Config, b: Endpoint) returns (acts: seq<Action>)
    requires cfg.Valid() && Formed(cfg, b)
    ensures Reach(cfg, State(Closed1(cfg), b, [], [Close]), acts, State(Gone(cfg), b, [], []))
  {
    hide Alone, Reach;
    PeerCloseAlone(cfg, Closed1(cfg));
    assert [Close] == [Close] + [];
    TakeReaches(cfg, State(Closed1(cfg), b, [], [Close]), A, Close, [], [HStep, HStep], Gone(cfg));
    acts := [Pop(A)] + ActsOf(A, [HStep, HStep]);
  }

  /**
   * There is a run in which both ends close, both closes arrive, and one end still takes the stream
   * for half-closed: nothing is under way any more, the stream stays registered there, and its
   * readers have not been told of the end.
   */
  lemma CloseLostRun(cfg: Config) returns (acts: seq<Action>, t: State)
    requires cfg.Valid()
    ensures Reach(cfg, Fresh(cfg, 0, 1), acts, t)
    ensures t.b.closer.CDone? && t.b.peerClosed && t.b.state.HalfClosedLocal? && t.b.registered
    ensures t.a.state.Closed? && !t.a.registered && t.ab == [] && t.ba == []
    ensures Stuck(t)
  {
    hide Alone, Reach;
    var close := CloseFirst(cfg);
    var race := Race(cfg);
    var hear := HearBack(cfg, Lost(cfg));
    t := State(Gone(cfg), Lost(cfg), [], []);
    Join(cfg, State(Closed1(cfg), FreshEndpoint(cfg, 0, 1), [Close], []), race,
         State(Closed1(cfg), Lost(cfg), [], [Close]), hear, t);
    acts := close + (race + hear);
    Join(cfg, Fresh(cfg, 0, 1), close, State(Closed1(cfg), FreshEndpoint(cfg, 0, 1), [Close], []), race + hear, t);
  }

  // ----- And it stays lost -----

  /** Nobody ends the stream or the connection. */
  predicate Spares(x: Action) {
    x.Act? ==> !x.move.LocalReset? && !x.move.MuxDies? && !x.move.MuxClosed?
  }

  /** The reader has not been told anything, and will not be by this call. */
  predicate Unanswered(t: Reader) {
    && t.outcome.NoCall?
    && match t.pc
       case RTop(muxDone) => !muxDone
       case RDrain(seen, muxDone) => seen.HalfClosedLocal? && !muxDone
       case RCredit(_) => false
       case _ => true
  }

  /** B waits for a close that has come and gone; A, which has neither writers nor readers, has
      forgotten the stream. */
  ghost predicate Stuck(s: State) {
    && s.ab == [] && s.ba == [] && s.a.writers == [] && s.a.readers == [] && s.b.writers == []
    && s.a.handler.HIdle? && s.a.closer.CDone?
    && s.b.handler.HIdle? && s.b.closer.CDone? && s.b.state.HalfClosedLocal? && !s.b.done && s.b.buf == []
    && forall i | 0 <= i < |s.b.readers| :: Unanswered(s.b.readers[i])
  }

  lemma StepStaysStuck(cfg: Config, s: State, x: Action)
    requires cfg.Valid() && AllFormed(cfg, s) && Stuck(s) && CanDo(s, x) && Spares(x)
    ensures Stuck(Next(cfg, s, x))
  {
    hide Receive, WriterStep, HandlerStep, CloserStep, Formed, Unanswered;
    assert s.ab + [] == s.ab && s.ba + [] == s.ba;
    assert x.Act?;
    if x.side == B {
      ReaderStaysUnanswered(cfg, s.b, x.move);
    } else {
      assert x.move.Breaks?;
    }
  }

  lemma ReaderStaysUnanswered(cfg: Config, e: Endpoint, m: Move)
    requires cfg.Valid() && Formed(cfg, e) && CanMove(e, m) && !m.LocalReset? && !m.MuxDies? && !m.MuxClosed?
    requires e.writers == [] && e.handler.HIdle? && e.closer.CDone? && !e.done
    requires e.state.HalfClosedLocal? && e.buf == [] && forall i | 0 <= i < |e.readers| :: Unanswered(e.readers[i])
    ensures var r := Moved(cfg, e, m);
            && r.0 == e.(readers := r.0.readers, readTok := r.0.readTok, broken := r.0.broken) && r.1 == []
            && forall i | 0 <= i < |r.0.readers| :: Unanswered(r.0.readers[i])
  {
    assert forall i | 0 <= i < |e.readers| :: Unanswered(e.readers[i]) ==> !e.readers[i].pc.RCredit?;
    assert m.RBegin? || m.RStep? || m.Breaks?;
    if m.RStep? {
      assert Unanswered(e.readers[m.i]);
      StepLeavesUnanswered(cfg, e, m.i);
    }
  }

  lemma StepLeavesUnanswered(cfg: Config, e: Endpoint, i: nat)
    requires cfg.Valid() && Formed(cfg, e) && CanMove(e, RStep(i)) && Unanswered(e.readers[i])
    requires e.state.HalfClosedLocal? && e.buf == [] && !e.done
    ensures var r := Moved(cfg, e, RStep(i));
            && r.0 == e.(readers := r.0.readers, readTok := r.0.readTok) && r.1 == []
            && |r.0.readers| == |e.readers| && Unanswered(r.0.readers[i])
            && forall j | 0 <= j < |e.readers| && j != i :: r.0.readers[j] == e.readers[j]
  {
    assert e.buf[0..] == e.buf && e.delivered + e.buf[..0] == e.delivered;
  }

  lemma {:induction false} StaysStuck(cfg: Config, s: State, acts: seq<Action>, t: State)
    requires cfg.Valid() && Stuck(s) && Path(cfg, s, acts, t) && forall k | 0 <= k < |acts| :: Spares(acts[k])
    ensures Stuck(t)
    decreases |acts|
  {
    if acts != [] {
      StepStaysStuck(cfg, s, acts[0]);
      StaysStuck(cfg, Next(cfg, s, acts[0]), acts[1..], t);
    }
  }

  /** After that run no Read is ever answered and the stream is never forgotten, whatever the threads
      do, short of a reset or the end of the connection. */
  lemma LostForGood(cfg: Config) returns (acts: seq<Action>, t: State)
    requires cfg.Valid()
    ensures Reach(cfg, Fresh(cfg, 0, 1), acts, t) && t.b.peerClosed && t.b.registered
    ensures forall more, u :: Path(cfg, t, more, u) && (forall k | 0 <= k < |more| :: Spares(more[k])) ==>
              u.b.state.HalfClosedLocal? && forall i | 0 <= i < |u.b.readers| :: u.b.readers[i].outcome.NoCall?
  {
    acts, t := CloseLostRun(cfg);
    assert Stuck(t);
    forall more, u | Path(cfg, t, more, u) && forall k | 0 <= k < |more| :: Spares(more[k])
      ensures u.b.state.HalfClosedLocal? && forall i | 0 <= i < |u.b.readers| :: u.b.readers[i].outcome.NoCall?
    {
      StaysStuck(cfg, t, more, u);
      assert forall i | 0 <= i < |u.b.readers| :: Unanswered(u.b.readers[i]);
    }
  }

  // ----- The other close lost -----

  /** B has loaded the state to close, and hears of A's close before it swaps. */
  function Loaded(cfg: Config): Endpoint {
    FreshEndpoint(cfg, 0, 1).(closer := CCas(Active))
  }

  function Overtaken(cfg: Config): Endpoint {
    Loaded(cfg).(state := HalfClosedRemote, readTok := true, peerClosed := true)
  }

  /** Its Close returns, having told the peer, and the stream is as open for writing as before. */
  function Leaky(cfg: Config): Endpoint {
    Overtaken(cfg).(closer := CDone)
  }

  lemma LoadToClose(cfg: Config) returns (acts: seq<Action>)
    requires cfg.Valid()
    ensures Reach(cfg, State(Closed1(cfg), FreshEndpoint(cfg, 0, 1), [Close], []), acts,
                  State(Closed1(cfg), Loaded(cfg), [Close], []))
  {
    hide Alone, Reach;
    var s := State(Closed1(cfg), FreshEndpoint(cfg, 0, 1), [Close], []);
    Still(cfg, Loaded(cfg));
    CloserThen(cfg, FreshEndpoint(cfg, 0, 1), CloserEffect(CCas(Active), Active, false, false), [], [], Loaded(cfg));
    var none: seq<Frame> := [];
    assert [CloseStep] + [] == [CloseStep] && none + none == none;
    AloneReaches(cfg, s, B, [CloseStep], [], Loaded(cfg));
    assert s.Put(B, Loaded(cfg), []) == State(Closed1(cfg), Loaded(cfg), [Close], []);
    acts := ActsOf(B, [CloseStep]);
  }

  lemma HearBetween(cfg: Config) returns (acts: seq<Action>)
    requires cfg.Valid()
    ensures Reach(cfg, State(Closed1(cfg), Loaded(cfg), [Close], []), acts,
                  State(Closed1(cfg), Overtaken(cfg), [], []))
  {
    hide Alone, Reach;
    PeerCloseAlone(cfg, Loaded(cfg));
    assert [Close] == [Close] + [];
    TakeReaches(cfg, State(Closed1(cfg), Loaded(cfg), [Close], []), B, Close, [], [HStep, HStep], Overtaken(cfg));
    acts := [Pop(B)] + ActsOf(B, [HStep, HStep]);
  }

  lemma CloseInVain(cfg: Config) returns (acts: seq<Action>)
    requires cfg.Valid()
    ensures Reach(cfg, State(Closed1(cfg), Overtaken(cfg), [], []), acts,
                  State(Closed1(cfg), Leaky(cfg), [], [Close]))
  {
    hide Alone, Reach;
    var s := State(Closed1(cfg), Overtaken(cfg), [], []);
    CloseTail(cfg, Overtaken(cfg).(closer := CFinal));
    CloserThen(cfg, Overtaken(cfg), CloserEffect(CFinal, HalfClosedRemote, false, false), [CloseStep, CloseStep],
               [Close], Leaky(cfg));
    var ms := [CloseStep] + [CloseStep, CloseStep];
    assert [] + [Close] == [Close];
    AloneReaches(cfg, s, B, ms, [Close], Leaky(cfg));
    assert s.Put(B, Leaky(cfg), [Close]) == State(Closed1(cfg), Leaky(cfg), [], [Close]);
    acts := ActsOf(B, ms);
  }

  /** Nothing is under way; A has forgotten the stream, B has not, though its Close has returned. */
  ghost predicate Leaked(s: State) {
    && s.ab == [] && s.ba == [] && s.a.writers == [] && s.a.readers == [] && s.b.writers == []
    && s.a.handler.HIdle? && s.a.closer.CDone? && !s.a.registered
    && s.b.handler.HIdle? && s.b.closer.CDone? && s.b.state.HalfClosedRemote? && s.b.registered
    && !s.b.done && s.b.buf == []
    && forall i | 0 <= i < |s.b.readers| :: !s.b.readers[i].pc.RCredit?
  }

  lemma StepStaysLeaked(cfg: Config, s: State, x: Action)
    requires cfg.Valid() && AllFormed(cfg, s) && Leaked(s) && CanDo(s, x) && Spares(x)
    ensures Leaked(Next(cfg, s, x))
  {
    assert s.ab + [] == s.ab && s.ba + [] == s.ba;
    assert s.b.buf[0..] == s.b.buf;
    assert x.Act?;
    if x.side == B {
      assert x.move.RBegin? || x.move.RStep? || x.move.Breaks?;
    } else {
      assert x.move.Breaks?;
    }
  }

  lemma {:induction false} StaysLeaked(cfg: Config, s: State, acts: seq<Action>, t: State)
    requires cfg.Valid() && Leaked(s) && Path(cfg, s, acts, t) && forall k | 0 <= k < |acts| :: Spares(acts[k])
    ensures Leaked(t)
    decreases |acts|
  {
    if acts != [] {
      StepStaysLeaked(cfg, s, acts[0]);
      StaysLeaked(cfg, Next(cfg, s, acts[0]), acts[1..], t);
    }
  }

  /** The other way round: there is a run in which both ends close and both closes arrive, but one end
      heard of the peer's while its own Close was between load and swap. Its Close has returned, and
      still the stream is registered and allows writing, whatever the threads do, short of a reset or
      the end of the connection. */
  lemma LeftOpenForGood(cfg: Config) returns (acts: seq<Action>, t: State)
    requires cfg.Valid()
    ensures Reach(cfg, Fresh(cfg, 0, 1), acts, t)
    ensures t.b.closer.CDone? && t.b.peerClosed && t.a.state.Closed? && !t.a.registered
    ensures forall more, u :: Path(cfg, t, more, u) && (forall k | 0 <= k < |more| :: Spares(more[k])) ==>
              u.b.registered && MayWrite(u.b.state)
  {
    hide Alone, Reach;
    var first := CloseFirst(cfg);
    var load := LoadToClose(cfg);
    var hear := HearBetween(cfg);
    var vain := CloseInVain(cfg);
    var back := HearBack(cfg, Leaky(cfg));
    t := State(Gone(cfg), Leaky(cfg), [], []);
    Join(cfg, State(Closed1(cfg), Overtaken(cfg), [], []), vain, State(Closed1(cfg), Leaky(cfg), [], [Close]), back, t);
    Join(cfg, State(Closed1(cfg), Loaded(cfg), [Close], []), hear, State(Closed1(cfg), Overtaken(cfg), [], []),
         vain + back, t);
    Join(cfg, State(Closed1(cfg), FreshEndpoint(cfg, 0, 1), [Close], []), load,
         State(Closed1(cfg), Loaded(cfg), [Close], []), hear + (vain + back), t);
    Join(cfg, Fresh(cfg, 0, 1), first, State(Closed1(cfg), FreshEndpoint(cfg, 0, 1), [Close], []),
         load + (hear + (vain + back)), t);
    acts := first + (load + (hear + (vain + back)));
    assert Leaked(t);
    forall more, u | Path(cfg, t, more, u) && forall k | 0 <= k < |more| :: Spares(more[k])
      ensures u.b.registered && MayWrite(u.b.state)
    {
      StaysLeaked(cfg, t, more, u);
    }
  }
}
