/** What a stream's calls are told once it was reset or its connection has ended. */
module StreamEnds {
  import opened Base
  import opened StreamCore
  import opened StreamMachine
  import opened StreamBounds
  import opened StreamClosing
  import opened StreamSolo

  // ----- The end of the connection -----

  /** No reset strikes. */
  ghost predicate Unstruck(cfg: Config, e: Endpoint, xs: seq<Event>, refunds: nat, e': Endpoint)
    requires cfg.Valid() && Run(cfg, e, xs, refunds, e')
    decreases |xs|
  {
    xs != [] ==>
      && !Strikes(cfg, e, xs[0])
      && Unstruck(cfg, After(cfg, e, xs[0]), xs[1..], refunds - Refund(e, xs[0]), e')
  }

  /** No reader has been told end of file, or is about to be. */
  ghost predicate NoEof(e: Endpoint) {
    forall i | 0 <= i < |e.readers| ::
      && !e.readers[i].outcome.EndOfFile?
      && (e.readers[i].pc.RDrain? ==> !PeerEnded(e.readers[i].pc.state))
  }

  /** What an event does to the state and the readers, a peer's end being final unless a reset strikes. */
  lemma EventKeepsEnd(cfg: Config, e: Endpoint, x: Event)
    requires cfg.Valid() && Formed(cfg, e) && CanHappen(e, x)
    ensures var e' := After(cfg, e, x);
            && (PeerEnded(e.state) && !Strikes(cfg, e, x) ==> PeerEnded(e'.state))
            && (e.state.Reset? ==> e'.state.Reset?)
  {
    match x {
      case Own(m) => MoveKeepsEnd(cfg, e, m);
      case Peer(f) =>
    }
  }

  lemma MoveKeepsEnd(cfg: Config, e: Endpoint, m: Move)
    requires cfg.Valid() && Formed(cfg, e) && CanMove(e, m)
    ensures var e' := Moved(cfg, e, m).0;
            && (PeerEnded(e.state) && !m.LocalReset? ==> PeerEnded(e'.state))
            && (e.state.Reset? ==> e'.state.Reset?)
  {
    if m.HStep? || m.CloseStep? {
    } else if m.LocalReset? || m.MuxClosed? {
      EndsShow(cfg, e, m);
    } else {
      OthersKeepLife(cfg, e, m);
    }
  }

  lemma EventKeepsNoEof(cfg: Config, e: Endpoint, x: Event)
    requires cfg.Valid() && Formed(cfg, e) && CanHappen(e, x) && NoEof(e) && !PeerEnded(e.state)
    ensures NoEof(After(cfg, e, x))
  {
    hide Moved, Receive, CanMove, Formed;
    match x {
      case Own(m) =>
        if m.RBegin? || m.RStep? || m.RFail? || m.RDone? {
          ReaderKeepsNoEof(cfg, e, m);
        } else {
          ReadersStay(cfg, e, m);
        }
      case Peer(f) => TakingLeavesReaders(cfg, e, f);
    }
  }

  lemma TakingLeavesReaders(cfg: Config, e: Endpoint, f: Frame)
    requires e.handler.HIdle?
    ensures Receive(cfg, e, f).0.readers == e.readers
  {
  }

  lemma ReaderKeepsNoEof(cfg: Config, e: Endpoint, m: Move)
    requires cfg.Valid() && Formed(cfg, e) && CanMove(e, m) && NoEof(e) && !PeerEnded(e.state)
    requires m.RBegin? || m.RStep? || m.RFail? || m.RDone?
    ensures NoEof(Moved(cfg, e, m).0)
  {
    assert !e.readers[m.i].outcome.EndOfFile?;
  }

  lemma ReadersStay(cfg: Config, e: Endpoint, m: Move)
    requires cfg.Valid() && Formed(cfg, e) && CanMove(e, m)
    requires !m.RBegin? && !m.RStep? && !m.RFail? && !m.RDone?
    ensures Moved(cfg, e, m).0.readers == e.readers
  {
    hide WriterStep, HandlerStep, CloserStep, Formed, WriterReady, ReaderReady;
    match m {
      case WStep(i) =>
      case WFail(i) =>
      case WDone(i) =>
      case HStep =>
      case CloseStep =>
      case _ =>
    }
  }

  /** The peer's end lasts. */
  lemma {:induction false} EndLasts(cfg: Config, e: Endpoint, xs: seq<Event>, refunds: nat, e': Endpoint)
    requires cfg.Valid() && Run(cfg, e, xs, refunds, e') && Unstruck(cfg, e, xs, refunds, e') && PeerEnded(e.state)
    ensures PeerEnded(e'.state)
    decreases |xs|
  {
    if xs != [] {
      EventKeepsEnd(cfg, e, xs[0]);
      EndLasts(cfg, After(cfg, e, xs[0]), xs[1..], refunds - Refund(e, xs[0]), e');
    }
  }

  /** As long as the peer has not ended the stream, no reader is told that it has. */
  lemma {:induction false} NotEndedNotTold(cfg: Config, e: Endpoint, xs: seq<Event>, refunds: nat, e': Endpoint)
    requires cfg.Valid() && Run(cfg, e, xs, refunds, e') && Unstruck(cfg, e, xs, refunds, e')
    requires NoEof(e) && !PeerEnded(e'.state)
    ensures NoEof(e')
    decreases |xs|
  {
    if xs != [] {
      if PeerEnded(e.state) {
        EndLasts(cfg, e, xs, refunds, e');
        assert false;
      } else {
        EventKeepsNoEof(cfg, e, xs[0]);
        NotEndedNotTold(cfg, After(cfg, e, xs[0]), xs[1..], refunds - Refund(e, xs[0]), e');
      }
    }
  }

  /** A reset lasts, and nobody is told end of file after it who had not been before. */
  lemma {:induction false} ResetLasts(cfg: Config, e: Endpoint, xs: seq<Event>, refunds: nat, e': Endpoint)
    requires cfg.Valid() && Run(cfg, e, xs, refunds, e') && e.state.Reset?
    ensures e'.state.Reset? && (NoEof(e) ==> NoEof(e'))
    decreases |xs|
  {
    if xs != [] {
      EventKeepsEnd(cfg, e, xs[0]);
      if NoEof(e) {
        EventKeepsNoEof(cfg, e, xs[0]);
      }
      ResetLasts(cfg, After(cfg, e, xs[0]), xs[1..], refunds - Refund(e, xs[0]), e');
    }
  }

  /** An end whose peer has ended the stream has had its CLOSE. */
  predicate Informed(e: Endpoint) {
    PeerEnded(e.state) || e.handler.HPeerClose? ==> e.peerClosed
  }

  lemma EventInforms(cfg: Config, e: Endpoint, x: Event)
    requires cfg.Valid() && Formed(cfg, e) && CanHappen(e, x) && Informed(e)
    ensures Informed(After(cfg, e, x))
  {
    match x {
      case Own(m) => MoveInforms(cfg, e, m);
      case Peer(f) =>
    }
  }

  lemma MoveInforms(cfg: Config, e: Endpoint, m: Move)
    requires cfg.Valid() && Formed(cfg, e) && CanMove(e, m) && Informed(e)
    ensures Informed(Moved(cfg, e, m).0)
  {
    if m.HStep? || m.CloseStep? {
    } else if m.LocalReset? || m.MuxClosed? {
      EndsShow(cfg, e, m);
    } else {
      OthersKeepLife(cfg, e, m);
    }
  }

  lemma {:induction false} RunInforms(cfg: Config, e: Endpoint, xs: seq<Event>, refunds: nat, e': Endpoint)
    requires cfg.Valid() && Run(cfg, e, xs, refunds, e') && Informed(e)
    ensures Informed(e')
    decreases |xs|
  {
    hide Informed, After;
    if xs != [] {
      EventInforms(cfg, e, xs[0]);
      RunInforms(cfg, After(cfg, e, xs[0]), xs[1..], refunds - Refund(e, xs[0]), e');
    }
  }

  lemma {:induction false} RunForms(cfg: Config, e: Endpoint, xs: seq<Event>, refunds: nat, e': Endpoint)
    requires cfg.Valid() && Run(cfg, e, xs, refunds, e')
    ensures Formed(cfg, e')
    decreases |xs|
  {
    hide Formed, After;
    if xs != [] {
      RunForms(cfg, After(cfg, e, xs[0]), xs[1..], refunds - Refund(e, xs[0]), e');
    }
  }

  /**
   * The connection ends somewhere in a run without resets. If the peer's close had been handled by then,
   * and not been missed, the stream ends as the peer ended it, ever after. If the peer had not closed, the
   * stream is reset, and none of its readers is ever told end of file. In general the state before decides.
   */
  lemma ConnectionEnds(cfg: Config, writers: nat, readers: nat, before: seq<Event>, r1: nat, e1: Endpoint,
                       after: seq<Event>, r2: nat, e2: Endpoint)
    requires cfg.Valid() && Run(cfg, FreshEndpoint(cfg, writers, readers), before, r1, e1)
    requires Unstruck(cfg, FreshEndpoint(cfg, writers, readers), before, r1, e1)
    requires CanHappen(e1, Own(MuxClosed)) && Formed(cfg, e1)
    requires Run(cfg, After(cfg, e1, Own(MuxClosed)), after, r2, e2)
    requires Unstruck(cfg, After(cfg, e1, Own(MuxClosed)), after, r2, e2)
    ensures if e1.state.HalfClosedRemote? || e1.state.Closed? then e2.state.HalfClosedRemote? || e2.state.Closed?
            else e2.state.Reset?
    ensures e1.peerClosed && !e1.handler.HPeerClose? &&
            Missed(cfg, FreshEndpoint(cfg, writers, readers), before, r1, e1) == Miss.None ==>
              e2.state.HalfClosedRemote? || e2.state.Closed?
    ensures !e1.peerClosed ==>
              e2.state.Reset? && forall i | 0 <= i < |e2.readers| :: !e2.readers[i].outcome.EndOfFile?
  {
    var e := FreshEndpoint(cfg, writers, readers);
    var cut := After(cfg, e1, Own(MuxClosed));
    RunInforms(cfg, e, before, r1, e1);
    if PeerEnded(e1.state) {
      EndLasts(cfg, cut, after, r2, e2);
    } else {
      NotEndedNotTold(cfg, e, before, r1, e1);
      ResetLasts(cfg, cut, after, r2, e2);
    }
    if Missed(cfg, e, before, r1, e1) == Miss.None {
      RunShows(cfg, e, before, r1, e1);
    }
  }

  // ----- What Read then says -----

  lemma {:induction false} AloneJoins(cfg: Config, e: Endpoint, ms: seq<Move>, out: seq<Frame>, mid: Endpoint,
                                      more: seq<Move>, out': seq<Frame>, e': Endpoint)
    requires cfg.Valid() && Alone(cfg, e, ms, out, mid) && Alone(cfg, mid, more, out', e')
    ensures Alone(cfg, e, ms + more, out + out', e')
    decreases |ms|
  {
    hide Moved, CanMove, Formed;
    if ms == [] {
      assert ms + more == more && out + out' == out';
    } else {
      var r := Moved(cfg, e, ms[0]);
      AloneJoins(cfg, r.0, ms[1..], out[|r.1|..], mid, more, out', e');
      assert (ms + more)[1..] == ms[1..] + more;
      assert (out + out')[|r.1|..] == out[|r.1|..] + out';
    }
  }

  /** A Read with room and bytes to take, also when the credit for them cannot be sent any more. */
  lemma ReadOnce(cfg: Config, e: Endpoint, i: nat, limit: nat) returns (ms: seq<Move>, out: seq<Frame>)
    requires cfg.Valid() && Formed(cfg, e) && i < |e.readers| && e.readers[i].pc.RIdle?
    requires 0 < limit && e.buf != []
    ensures var n := Min(limit, |e.buf|);
            Alone(cfg, e, ms, out, RAt(TakenFrom(e, n), i, Reader(RIdle, limit, Bytes(n))))
    ensures Reads(ms, i)
  {
    if !e.broken {
      ReadAlone(cfg, e, i, limit);
      return [RBegin(i, limit), RStep(i), RStep(i), RStep(i)], [Credit(Min(limit, |e.buf|))];
    }
    hide Alone;
    var n := Min(limit, |e.buf|);
    var owing := RAt(TakenFrom(e, n), i, Reader(RCredit(n), limit, NoCall));
    var end := RAt(TakenFrom(e, n), i, Reader(RIdle, limit, Bytes(n)));
    Still(cfg, end);
    CreditFails(cfg, TakenFrom(e, n), i, n, limit);
    Then(cfg, owing, RFail(i), end, [], [], [], end);
    var none: seq<Frame> := [];
    assert none + none == none;
    ReadTakes(cfg, e, i, limit, [RFail(i)] + [], [], end);
    ReadPass(cfg, e, i, Reader(RTop(false), limit, NoCall), Reader(RDrain(e.state, false), limit, NoCall), 0,
             [RStep(i)] + ([RFail(i)] + []), [], end);
    Then(cfg, e, RBegin(i, limit), RAt(e, i, Reader(RTop(false), limit, NoCall)), [],
         [RStep(i)] + ([RStep(i)] + ([RFail(i)] + [])), [], end);
    ms, out := [RBegin(i, limit)] + ([RStep(i)] + ([RStep(i)] + ([RFail(i)] + []))), [];
  }

  lemma CreditFails(cfg: Config, e: Endpoint, i: nat, n: nat, limit: nat)
    requires cfg.Valid() && Formed(cfg, e) && i < |e.readers| && e.broken
    ensures var owing := RAt(e, i, Reader(RCredit(n), limit, NoCall));
            CanMove(owing, RFail(i)) &&
            Moved(cfg, owing, RFail(i)) == (RAt(e, i, Reader(RIdle, limit, Bytes(n))), [])
  {
    assert e.buf[0..] == e.buf && e.delivered + e.buf[..0] == e.delivered;
    assert RAt(e, i, Reader(RCredit(n), limit, NoCall)).readers[i := Reader(RIdle, limit, Bytes(n))] ==
           RAt(e, i, Reader(RIdle, limit, Bytes(n))).readers;
  }

  ghost predicate Reads(ms: seq<Move>, i: nat) {
    forall k | 0 <= k < |ms| ::
      (ms[k].RBegin? && ms[k].i == i) || ms[k] == RStep(i) || ms[k] == RFail(i)
  }

  /** Reading on until there is nothing more: first every byte that was buffered, then, if the peer ended
      the stream, end of file, and if it was reset, that it was. */
  lemma {:induction false} ReadsToTheEnd(cfg: Config, e: Endpoint, i: nat, limit: nat)
    returns (ms: seq<Move>, out: seq<Frame>, e': Endpoint)
    requires cfg.Valid() && Formed(cfg, e) && i < |e.readers| && e.readers[i].pc.RIdle? && 0 < limit
    requires e.state.HalfClosedRemote? || e.state.Closed? || e.state.Reset?
    ensures Alone(cfg, e, ms, out, e') && Reads(ms, i)
    ensures e'.delivered == e.delivered + e.buf && e'.buf == [] && e'.state == e.state
    ensures i < |e'.readers| && e'.readers[i] == Reader(RIdle, limit, if e.state.Reset? then ResetError else EndOfFile)
    decreases |e.buf|
  {
    hide Alone;
    if e.buf == [] {
      EmptyReadAlone(cfg, e, i, limit);
      assert e.delivered + [] == e.delivered;
      return [RBegin(i, limit), RStep(i), RStep(i)], [],
        RAt(e, i, Reader(RIdle, limit, if e.state.Reset? then ResetError else EndOfFile));
    }
    var n := Min(limit, |e.buf|);
    var ms1, out1 := ReadOnce(cfg, e, i, limit);
    var mid := RAt(TakenFrom(e, n), i, Reader(RIdle, limit, Bytes(n)));
    var ms2, out2;
    ms2, out2, e' := ReadsToTheEnd(cfg, mid, i, limit);
    AloneJoins(cfg, e, ms1, out1, mid, ms2, out2, e');
    assert e.delivered + e.buf[..n] + e.buf[n..] == e.delivered + e.buf;
    ms, out := ms1 + ms2, out1 + out2;
  }

  /** So a transfer the peer had completed when the connection ended reads as complete. */
  lemma CompleteTransferReadsOut(cfg: Config, writers: nat, readers: nat, before: seq<Event>, r1: nat, e1: Endpoint,
                                 after: seq<Event>, r2: nat, e2: Endpoint, i: nat, limit: nat)
    returns (ms: seq<Move>, out: seq<Frame>, e': Endpoint)
    requires cfg.Valid() && Run(cfg, FreshEndpoint(cfg, writers, readers), before, r1, e1)
    requires Unstruck(cfg, FreshEndpoint(cfg, writers, readers), before, r1, e1)
    requires e1.peerClosed && !e1.handler.HPeerClose?
    requires Missed(cfg, FreshEndpoint(cfg, writers, readers), before, r1, e1) == Miss.None
    requires CanHappen(e1, Own(MuxClosed)) && Formed(cfg, e1)
    requires Run(cfg, After(cfg, e1, Own(MuxClosed)), after, r2, e2)
    requires Unstruck(cfg, After(cfg, e1, Own(MuxClosed)), after, r2, e2)
    requires i < |e2.readers| && e2.readers[i].pc.RIdle? && 0 < limit
    ensures Alone(cfg, e2, ms, out, e') && Reads(ms, i)
    ensures e'.delivered == e2.delivered + e2.buf && i < |e'.readers| && e'.readers[i].outcome.EndOfFile?
  {
    hide Run, Unstruck, Missed, Alone;
    ConnectionEnds(cfg, writers, readers, before, r1, e1, after, r2, e2);
    RunForms(cfg, After(cfg, e1, Own(MuxClosed)), after, r2, e2);
    ms, out, e' := ReadsToTheEnd(cfg, e2, i, limit);
  }

  // ----- Resets -----

  /** Whatever resets a stream, it is over: forgotten, both kinds of sleeper woken, the frame that was too
      much not stored; and whatever happens later it stays reset. The peer is told, unless it was the one
      to say so or nothing can be written. */
  lemma ResetEndsTheStream(cfg: Config, e: Endpoint, x: Event, xs: seq<Event>, refunds: nat, e': Endpoint)
    requires cfg.Valid() && Formed(cfg, e) && CanHappen(e, x) && Strikes(cfg, e, x)
    requires Run(cfg, After(cfg, e, x), xs, refunds, e')
    ensures var r := After(cfg, e, x);
            r == e.(state := Reset, registered := false, windowTok := true, readTok := true)
    ensures e'.state.Reset?
    ensures match x
            case Own(m) => Moved(cfg, e, m).1 == if e.done || e.broken then [] else [Rst]
            case Peer(f) => Receive(cfg, e, f).1 == if f.Rst? || e.broken then [] else [Rst]
  {
    ResetLasts(cfg, After(cfg, e, x), xs, refunds, e');
  }

  lemma WriterGivesUp(cfg: Config, e: Endpoint, i: nat, p: seq<byte>)
    requires cfg.Valid() && Formed(cfg, e) && i < |e.writers| && e.writers[i] == Writer(WIdle, [], 0)
    requires e.state.HalfClosedLocal? || e.state.Closed? || e.state.Reset?
    ensures var entered := e.(writers := e.writers[i := Writer(WEnter, p, 0)]);
            Formed(cfg, entered) && CanMove(entered, WStep(i)) && Moved(cfg, entered, WStep(i)) == (e, [])
  {
    var entered := e.(writers := e.writers[i := Writer(WEnter, p, 0)]);
    assert entered.writers[i := Writer(WIdle, [], 0)] == e.writers;
    assert e.sent + [] == e.sent && e.accepted + [] == e.accepted && p[..0] == [];
  }

  /** A Write on a stream that is closed here or reset returns at once and sends nothing. */
  lemma WriteTooLate(cfg: Config, e: Endpoint, i: nat, p: seq<byte>)
    requires cfg.Valid() && Formed(cfg, e) && i < |e.writers| && e.writers[i] == Writer(WIdle, [], 0)
    requires e.state.HalfClosedLocal? || e.state.Closed? || e.state.Reset?
    ensures Alone(cfg, e, [WBegin(i, p), WStep(i)], [], e)
  {
    var entered := e.(writers := e.writers[i := Writer(WEnter, p, 0)]);
    WriterGivesUp(cfg, e, i, p);
    Still(cfg, e);
    hide Alone;
    Then(cfg, entered, WStep(i), e, [], [], [], e);
    var none: seq<Frame> := [];
    assert none + none == none;
    Then(cfg, e, WBegin(i, p), entered, [], [WStep(i)] + [], [], e);
    assert [WBegin(i, p), WStep(i)] == [WBegin(i, p)] + ([WStep(i)] + []);
  }
}
