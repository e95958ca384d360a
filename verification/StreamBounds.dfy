/** What one end of a stream keeps against any peer, conforming or not. */
module StreamBounds {
  import opened Base
  import opened StreamCore
  import opened StreamMachine
  import opened StreamConservation

  /** The end moves by itself, or its read loop takes whatever frame the peer chose to send. */
  datatype Event = Own(move: Move) | Peer(frame: Frame)

  predicate CanHappen(e: Endpoint, x: Event) {
    match x
    case Own(m) => CanMove(e, m)
    case Peer(_) => e.handler.HIdle?
  }

  function After(cfg: Config, e: Endpoint, x: Event): Endpoint
    requires cfg.Valid() && Formed(cfg, e) && CanHappen(e, x)
  {
    match x
    case Own(m) => Moved(cfg, e, m).0
    case Peer(f) => Receive(cfg, e, f).0
  }

  /** Bytes an event gives back to the window because a frame write failed. */
  function Refund(e: Endpoint, x: Event): nat
    requires CanHappen(e, x)
  {
    if x.Own? && x.move.WStep? && e.writers[x.move.i].pc.WRefund? then e.writers[x.move.i].pc.chunk else 0
  }

  /** The events lead from e to e', giving back `refunds` bytes in all. */
  ghost predicate Run(cfg: Config, e: Endpoint, xs: seq<Event>, refunds: nat, e': Endpoint)
    requires cfg.Valid()
    decreases |xs|
  {
    && Formed(cfg, e)
    && if xs == [] then e == e' && refunds == 0
       else CanHappen(e, xs[0]) && Refund(e, xs[0]) <= refunds
            && Run(cfg, After(cfg, e, xs[0]), xs[1..], refunds - Refund(e, xs[0]), e')
  }

  /** The bytes stored or about to be stored fit the window, and so does the send credit but for
      what failed writes gave back. */
  predicate Bounded(cfg: Config, e: Endpoint, refunds: nat) {
    && |e.buf| + Held(e.handler) <= cfg.window
    && 0 <= e.window <= cfg.window + refunds
    && (e.handler.HCas? ==> e.handler.seen <= cfg.window + refunds)
  }

  lemma WriterBounded(cfg: Config, t: Writer, st: StreamState, window: int, tok: bool)
    requires cfg.Valid() && WriterOk(cfg, t) && !t.pc.WIdle? && 0 <= window
    ensures var f := WriterStep(cfg, t, st, window, tok);
            0 <= f.window <= window + if t.pc.WRefund? then t.pc.chunk else 0
  {
  }

  lemma OwnBounded(cfg: Config, e: Endpoint, m: Move, refunds: nat)
    requires cfg.Valid() && Formed(cfg, e) && CanMove(e, m) && Bounded(cfg, e, refunds)
    ensures Bounded(cfg, Moved(cfg, e, m).0, refunds + Refund(e, Own(m)))
  {
    match m {
      case WStep(i) =>
        assert WriterOk(cfg, e.writers[i]);
        WriterBounded(cfg, e.writers[i], e.state, e.window, e.windowTok);
        PutWriterBounded(cfg, e, i, WriterStep(cfg, e.writers[i], e.state, e.window, e.windowTok),
                         refunds + Refund(e, Own(m)));
      case HStep => HandlerBounded(cfg, e, refunds);
      case _ => OthersBounded(cfg, e, m, refunds);
    }
  }

  lemma OthersBounded(cfg: Config, e: Endpoint, m: Move, refunds: nat)
    requires cfg.Valid() && Formed(cfg, e) && CanMove(e, m) && Bounded(cfg, e, refunds)
    requires !m.WStep? && !m.HStep?
    ensures Bounded(cfg, Moved(cfg, e, m).0, refunds)
  {
    match m {
      case RStep(i) =>
      case CloseStep =>
      case _ =>
    }
  }

  lemma PutWriterBounded(cfg: Config, e: Endpoint, i: nat, f: WriterEffect, refunds: nat)
    requires i < |e.writers| && Bounded(cfg, e, refunds) && 0 <= f.window <= cfg.window + refunds
    ensures Bounded(cfg, PutWriter(e, i, f), refunds)
  {
  }

  lemma HandlerBounded(cfg: Config, e: Endpoint, refunds: nat)
    requires cfg.Valid() && Formed(cfg, e) && !e.handler.HIdle? && Bounded(cfg, e, refunds)
    ensures Bounded(cfg, Moved(cfg, e, HStep).0, refunds)
  {
    match e.handler {
      case HStore(b) =>
      case HCas(seen, d) =>
      case _ =>
    }
  }

  lemma PeerBounded(cfg: Config, e: Endpoint, f: Frame, refunds: nat)
    requires e.handler.HIdle? && Bounded(cfg, e, refunds)
    ensures Bounded(cfg, Receive(cfg, e, f).0, refunds)
  {
  }

  lemma {:induction false} RunBounded(cfg: Config, e: Endpoint, xs: seq<Event>, before: nat, refunds: nat, e': Endpoint)
    requires cfg.Valid() && Run(cfg, e, xs, refunds, e') && Bounded(cfg, e, before)
    ensures Bounded(cfg, e', before + refunds)
    decreases |xs|
  {
    if xs != [] {
      var r := Refund(e, xs[0]);
      match xs[0] {
        case Own(m) => OwnBounded(cfg, e, m, before);
        case Peer(f) => PeerBounded(cfg, e, f, before);
      }
      RunBounded(cfg, After(cfg, e, xs[0]), xs[1..], before + r, refunds - r, e');
    }
  }

  /**
   * Whatever frames a peer sends, in whatever order, and however the threads of this end run: what
   * is buffered never exceeds one window, and the send credit stays between zero and the window
   * as long as no frame write has failed - beyond that, by no more than failed writes gave back.
   */
  lemma BoundedAgainstAnyPeer(cfg: Config, writers: nat, readers: nat, xs: seq<Event>, refunds: nat, e: Endpoint)
    requires cfg.Valid() && Run(cfg, FreshEndpoint(cfg, writers, readers), xs, refunds, e)
    ensures |e.buf| <= cfg.window
    ensures 0 <= e.window <= cfg.window + refunds
  {
    RunBounded(cfg, FreshEndpoint(cfg, writers, readers), xs, 0, refunds, e);
  }
}
