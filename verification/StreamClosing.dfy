/** When a stream that both ends have closed is forgotten: Close and the handler of the peer's close
    each swap the state once, and the one that misses is not tried again. */
module StreamClosing {
  import opened StreamCore
  import opened StreamMachine
  import opened StreamBounds

  // Whose swap failed although the stream was still open.
  datatype Miss = None | Handlers | Closes

  function MissAt(e: Endpoint, x: Event): Miss {
    if x == Own(HStep) && e.handler.HPeerClose? && Open(e.state) && e.state != e.handler.state then Handlers
    else if x == Own(CloseStep) && e.closer.CCas? && Open(e.state) && e.state != e.closer.state then Closes
    else None
  }

  /** The first swap the run misses. */
  ghost function Missed(cfg: Config, e: Endpoint, xs: seq<Event>, refunds: nat, e': Endpoint): Miss
    requires cfg.Valid() && Run(cfg, e, xs, refunds, e')
    decreases |xs|
  {
    if xs == [] then None
    else if MissAt(e, xs[0]) != None then MissAt(e, xs[0])
    else Missed(cfg, After(cfg, e, xs[0]), xs[1..], refunds - Refund(e, xs[0]), e')
  }

  /** Close has done its swap; the peer's close has been handled as far as its swap. */
  predicate ClosedHere(e: Endpoint) { e.closer.CFinal? || e.closer.CSend? || e.closer.CDone? }
  predicate ClosedThere(e: Endpoint) { e.peerClosed && !e.handler.HPeerClose? }

  /** Both closes have run to their end. */
  predicate ClosedByBoth(e: Endpoint) {
    e.closer.CDone? && e.peerClosed && e.handler.HIdle?
  }

  /** What the two closes and the multiplexer's table are about. */
  predicate SameLife(e: Endpoint, e': Endpoint) {
    && e'.state == e.state && e'.registered == e.registered && e'.handler == e.handler
    && e'.closer == e.closer && e'.peerClosed == e.peerClosed
  }

  lemma OthersKeepLife(cfg: Config, e: Endpoint, m: Move)
    requires cfg.Valid() && Formed(cfg, e) && CanMove(e, m)
    requires !m.HStep? && !m.CloseStep? && !m.LocalReset? && !m.MuxClosed?
    ensures SameLife(e, Moved(cfg, e, m).0)
  {
    hide WriterStep, ReaderStep, Formed;
    match m {
      case WStep(i) =>
      case RStep(i) =>
      case _ =>
    }
  }

  // ----- No swap missed -----

  /** Each close that has done its swap shows in the state, and whoever completed the two forgets the stream. */
  predicate Shows(e: Endpoint) {
    && (e.state.Reset? ==> !e.registered)
    && (ClosedHere(e) ==> !MayWrite(e.state))
    && (ClosedThere(e) ==> PeerEnded(e.state) || e.state.Reset?)
    && (e.state.Closed? && e.registered ==>
          e.handler == HEndSignal(true) || e.closer.CFinal? || e.closer == CSend(true))
  }

  lemma OwnShows(cfg: Config, e: Endpoint, m: Move)
    requires cfg.Valid() && Formed(cfg, e) && CanMove(e, m) && Shows(e) && MissAt(e, Own(m)) == None
    ensures Shows(Moved(cfg, e, m).0)
  {
    hide Moved, CanMove, Formed;
    match m {
      case HStep => HandlerShows(cfg, e);
      case CloseStep => CloserShows(cfg, e);
      case LocalReset => EndsShow(cfg, e, m);
      case MuxClosed => EndsShow(cfg, e, m);
      case _ => OthersKeepLife(cfg, e, m);
    }
  }

  lemma EndsShow(cfg: Config, e: Endpoint, m: Move)
    requires cfg.Valid() && Formed(cfg, e) && CanMove(e, m) && (m.LocalReset? || m.MuxClosed?)
    ensures var e' := Moved(cfg, e, m).0;
            && !e'.registered && e'.closer == e.closer && e'.handler == e.handler && e'.peerClosed == e.peerClosed
            && (e'.state.Reset? || (e'.state == e.state && PeerEnded(e.state)))
  {
  }

  lemma HandlerShows(cfg: Config, e: Endpoint)
    requires cfg.Valid() && Formed(cfg, e) && CanMove(e, HStep) && Shows(e) && MissAt(e, Own(HStep)) == None
    ensures Shows(Moved(cfg, e, HStep).0)
  {
  }

  lemma CloserShows(cfg: Config, e: Endpoint)
    requires cfg.Valid() && Formed(cfg, e) && CanMove(e, CloseStep) && Shows(e) && MissAt(e, Own(CloseStep)) == None
    ensures Shows(Moved(cfg, e, CloseStep).0)
  {
  }

  lemma PeerShows(cfg: Config, e: Endpoint, f: Frame)
    requires e.handler.HIdle? && Shows(e)
    ensures Shows(Receive(cfg, e, f).0)
  {
  }

  lemma {:induction false} RunShows(cfg: Config, e: Endpoint, xs: seq<Event>, refunds: nat, e': Endpoint)
    requires cfg.Valid() && Run(cfg, e, xs, refunds, e') && Shows(e) && Missed(cfg, e, xs, refunds, e') == None
    ensures Shows(e')
    decreases |xs|
  {
    hide Shows, MissAt, Moved, Receive, Formed, CanMove;
    if xs != [] {
      match xs[0] {
        case Own(m) => OwnShows(cfg, e, m);
        case Peer(f) => PeerShows(cfg, e, f);
      }
      RunShows(cfg, After(cfg, e, xs[0]), xs[1..], refunds - Refund(e, xs[0]), e');
    }
  }

  /** Against any peer: unless a swap was missed, a stream that both ends have closed is over, and the
      multiplexer has forgotten it. */
  lemma ClosedByBothIsForgotten(cfg: Config, writers: nat, readers: nat, xs: seq<Event>, refunds: nat, e: Endpoint)
    requires cfg.Valid() && Run(cfg, FreshEndpoint(cfg, writers, readers), xs, refunds, e) && ClosedByBoth(e)
    requires Missed(cfg, FreshEndpoint(cfg, writers, readers), xs, refunds, e) == None
    ensures !e.registered && (e.state.Closed? || e.state.Reset?)
  {
    RunShows(cfg, FreshEndpoint(cfg, writers, readers), xs, refunds, e);
  }

  // ----- Exactly when -----

  /** A reset strikes: this end's own, the peer's, or one for too much data. */
  predicate Strikes(cfg: Config, e: Endpoint, x: Event) {
    match x
    case Own(m) => m.LocalReset?
    case Peer(Rst) => e.registered
    case Peer(Data(b)) => e.registered && |e.buf| + |b| > cfg.window
    case Peer(_) => false
  }

  /** Ends the stream by force: a reset, or the end of the connection. */
  predicate Cuts(cfg: Config, e: Endpoint, x: Event) {
    Strikes(cfg, e, x) || x == Own(MuxClosed)
  }

  /** No such event, and no second CLOSE. */
  ghost predicate Undisturbed(cfg: Config, e: Endpoint, xs: seq<Event>, refunds: nat, e': Endpoint)
    requires cfg.Valid() && Run(cfg, e, xs, refunds, e')
    decreases |xs|
  {
    xs != [] ==>
      && !Cuts(cfg, e, xs[0]) && !(xs[0] == Peer(Close) && e.peerClosed)
      && Undisturbed(cfg, After(cfg, e, xs[0]), xs[1..], refunds - Refund(e, xs[0]), e')
  }

  /** The state is what the two closes have made of it, and each swap under way has loaded it, or the
      other close has come in between. */
  predicate Tells(e: Endpoint) {
    && !e.state.Reset?
    && (ClosedHere(e) <==> !MayWrite(e.state))
    && (ClosedThere(e) <==> PeerEnded(e.state))
    && (e.handler.HPeerClose? ==>
          e.peerClosed && (e.handler.state == e.state || (e.handler.state.Active? && e.state.HalfClosedLocal?)))
    && (e.closer.CCas? ==>
          e.closer.state == e.state || (e.closer.state.Active? && e.state.HalfClosedRemote?))
    && (Open(e.state) ==> e.registered)
    && (e.state.Closed? && e.registered ==>
          e.handler == HEndSignal(true) || e.closer.CFinal? || e.closer == CSend(true))
    && (e.handler == HEndSignal(true) || e.closer == CSend(true) ==> e.state.Closed?)
  }

  /** A missed swap has left the stream half-closed, and nobody is going to close it further. */
  predicate Stays(e: Endpoint, miss: Miss) {
    && e.registered && ClosedHere(e) && ClosedThere(e) && e.handler != HEndSignal(true) && e.closer != CSend(true)
    && match miss
       case None => false
       case Handlers => e.state.HalfClosedLocal?
       case Closes => e.state.HalfClosedRemote?
  }

  predicate Fate(e: Endpoint, miss: Miss) {
    if miss == None then Tells(e) else Stays(e, miss)
  }

  lemma OwnFate(cfg: Config, e: Endpoint, m: Move, miss: Miss)
    requires cfg.Valid() && Formed(cfg, e) && CanMove(e, m) && Fate(e, miss) && !Cuts(cfg, e, Own(m))
    ensures Fate(Moved(cfg, e, m).0, if miss == None then MissAt(e, Own(m)) else miss)
  {
    match m {
      case HStep => HandlerFate(cfg, e, miss);
      case CloseStep => CloserFate(cfg, e, miss);
      case _ => OthersKeepLife(cfg, e, m);
    }
  }

  lemma HandlerFate(cfg: Config, e: Endpoint, miss: Miss)
    requires cfg.Valid() && Formed(cfg, e) && CanMove(e, HStep) && Fate(e, miss)
    ensures Fate(Moved(cfg, e, HStep).0, if miss == None then MissAt(e, Own(HStep)) else miss)
  {
    hide Formed;
    if miss != None {
      HandlerStays(cfg, e, miss);
    } else if e.handler.HPeerClose? {
      PeerCloseTells(cfg, e);
    } else {
      HandlerTells(cfg, e);
    }
  }

  lemma HandlerStays(cfg: Config, e: Endpoint, miss: Miss)
    requires cfg.Valid() && Formed(cfg, e) && CanMove(e, HStep) && Stays(e, miss)
    ensures Stays(Moved(cfg, e, HStep).0, miss)
  {
  }

  lemma PeerCloseTells(cfg: Config, e: Endpoint)
    requires cfg.Valid() && Formed(cfg, e) && CanMove(e, HStep) && Tells(e) && e.handler.HPeerClose?
    ensures Fate(Moved(cfg, e, HStep).0, MissAt(e, Own(HStep)))
  {
  }

  lemma HandlerTells(cfg: Config, e: Endpoint)
    requires cfg.Valid() && Formed(cfg, e) && CanMove(e, HStep) && Tells(e) && !e.handler.HPeerClose?
    ensures Tells(Moved(cfg, e, HStep).0) && MissAt(e, Own(HStep)) == None
  {
  }

  lemma CloserFate(cfg: Config, e: Endpoint, miss: Miss)
    requires cfg.Valid() && Formed(cfg, e) && CanMove(e, CloseStep) && Fate(e, miss)
    ensures Fate(Moved(cfg, e, CloseStep).0, if miss == None then MissAt(e, Own(CloseStep)) else miss)
  {
  }

  lemma PeerFate(cfg: Config, e: Endpoint, f: Frame, miss: Miss)
    requires e.handler.HIdle? && Fate(e, miss) && !Cuts(cfg, e, Peer(f)) && !(f.Close? && e.peerClosed)
    ensures Fate(Receive(cfg, e, f).0, miss) && MissAt(e, Peer(f)) == None
  {
  }

  lemma {:induction false} RunFate(cfg: Config, e: Endpoint, xs: seq<Event>, refunds: nat, e': Endpoint, miss: Miss)
    requires cfg.Valid() && Run(cfg, e, xs, refunds, e') && Fate(e, miss) && Undisturbed(cfg, e, xs, refunds, e')
    ensures Fate(e', if miss == None then Missed(cfg, e, xs, refunds, e') else miss)
    decreases |xs|
  {
    hide Fate, MissAt, Moved, Receive, Formed, CanMove;
    if xs != [] {
      match xs[0] {
        case Own(m) => OwnFate(cfg, e, m, miss);
        case Peer(f) => PeerFate(cfg, e, f, miss);
      }
      var now := if miss == None then MissAt(e, xs[0]) else miss;
      RunFate(cfg, After(cfg, e, xs[0]), xs[1..], refunds - Refund(e, xs[0]), e', now);
    }
  }

  /**
   * Undisturbed, a stream that both ends have closed is over and forgotten if and only if no swap was
   * missed. When the handler of the peer's close missed, the stream stays registered and half-closed
   * as if the peer had not closed, and its readers wait on; when Close missed, as if it had not been
   * called, and Write goes on.
   */
  lemma ForgottenExactlyWhen(cfg: Config, writers: nat, readers: nat, xs: seq<Event>, refunds: nat, e: Endpoint)
    requires cfg.Valid() && Run(cfg, FreshEndpoint(cfg, writers, readers), xs, refunds, e)
    requires Undisturbed(cfg, FreshEndpoint(cfg, writers, readers), xs, refunds, e)
    ensures match Missed(cfg, FreshEndpoint(cfg, writers, readers), xs, refunds, e)
            case None => ClosedByBoth(e) ==> !e.registered && e.state.Closed?
            case Handlers => e.registered && e.state.HalfClosedLocal? && e.peerClosed
            case Closes => e.registered && e.state.HalfClosedRemote? && ClosedHere(e)
  {
    RunFate(cfg, FreshEndpoint(cfg, writers, readers), xs, refunds, e, None);
  }
}
