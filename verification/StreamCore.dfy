/** The states of one stream and the rules every handler applies to them. */
module StreamCore {
  import opened Base

  datatype StreamState = Active | HalfClosedLocal | HalfClosedRemote | Closed | Reset

  /** How far a stream's life has advanced; the two half-closed states are side by side. */
  function Rank(st: StreamState): nat {
    match st
    case Active => 0
    case HalfClosedLocal => 1
    case HalfClosedRemote => 1
    case Closed => 2
    case Reset => 3
  }

  /** The states in which Write goes on. */
  predicate MayWrite(st: StreamState) {
    st.Active? || st.HalfClosedRemote?
  }

  /** The states in which an empty receive buffer means end of stream. */
  predicate PeerEnded(st: StreamState) {
    st.HalfClosedRemote? || st.Closed?
  }

  function AfterLocalClose(st: StreamState): StreamState {
    match st
    case Active => HalfClosedLocal
    case HalfClosedRemote => Closed
    case _ => st
  }

  function AfterPeerClose(st: StreamState): StreamState {
    match st
    case Active => HalfClosedRemote
    case HalfClosedLocal => Closed
    case _ => st
  }

  /** Losing the connection cuts off every stream whose peer had not finished. */
  function AfterMuxClosed(st: StreamState): StreamState {
    if PeerEnded(st) then st else Reset
  }

  /** Send credit after an update: added, but never above the initial window. */
  function Credited(window: int, delta: nat, limit: int): int {
    Min(window + delta, limit)
  }

  // ----- The life of one stream, one step per handler -----

  datatype LifeEvent = LocalClose | PeerClose | AnyReset | MuxGone

  function AfterLife(st: StreamState, x: LifeEvent): StreamState {
    match x
    case LocalClose => AfterLocalClose(st)
    case PeerClose => AfterPeerClose(st)
    case AnyReset => Reset
    case MuxGone => AfterMuxClosed(st)
  }

  function AfterLives(st: StreamState, xs: seq<LifeEvent>): StreamState {
    if xs == [] then st else AfterLife(AfterLives(st, xs[..|xs| - 1]), xs[|xs| - 1])
  }

  /** A registered stream has at least one side still open. */
  predicate Open(st: StreamState) {
    st.Active? || st.HalfClosedLocal? || st.HalfClosedRemote?
  }

  /** States only rise, never from one half-closed state to the other, and Reset is final. */
  lemma {:induction false} StatesOnlyRise(st: StreamState, xs: seq<LifeEvent>)
    ensures var st' := AfterLives(st, xs);
            && (st' == st || Rank(st) < Rank(st'))
            && (st.Reset? ==> st'.Reset?)
            && (AnyReset in xs ==> st'.Reset?)
  {
    if xs != [] {
      var front, x := xs[..|xs| - 1], xs[|xs| - 1];
      StatesOnlyRise(st, front);
      assert AnyReset in xs ==> AnyReset in front || x == AnyReset;
    }
  }

  /** A stream that both ends have closed, in either order, or that was reset, is no longer open. */
  lemma {:induction false} ClosedByBothIsNotOpen(xs: seq<LifeEvent>)
    ensures var st := AfterLives(Active, xs);
            && (LocalClose in xs ==> !MayWrite(st))
            && (PeerClose in xs ==> PeerEnded(st) || st.Reset?)
            && (LocalClose in xs && PeerClose in xs ==> !Open(st))
            && (PeerEnded(st) ==> PeerClose in xs)
  {
    if xs != [] {
      var front, x := xs[..|xs| - 1], xs[|xs| - 1];
      ClosedByBothIsNotOpen(front);
      assert forall y: LifeEvent :: y in xs <==> y in front || y == x;
    }
  }

  /** The end of the connection, and what it finds: a peer that closed before it has ended the stream
      for good, and its data reads to a clean end; one that did not has been cut off. */
  lemma {:induction false} EndOfConnection(before: seq<LifeEvent>, after: seq<LifeEvent>)
    requires AnyReset !in before && MuxGone !in before && AnyReset !in after
    ensures var st := AfterLives(Active, before + [MuxGone] + after);
            if PeerClose in before then st.HalfClosedRemote? || st.Closed? else st.Reset?
    decreases |after|
  {
    if after == [] {
      OpenBefore(before);
      assert (before + [MuxGone] + after)[..|before|] == before;
      assert before + [MuxGone] + after == before + [MuxGone];
    } else {
      var front, x := after[..|after| - 1], after[|after| - 1];
      assert (before + [MuxGone] + after)[..|before| + |after|] == before + [MuxGone] + front;
      assert forall y | y in front :: y in after;
      EndOfConnection(before, front);
    }
  }

  /** Without a reset or the end of the connection, the state tells which ends have closed. */
  lemma {:induction false} OpenBefore(xs: seq<LifeEvent>)
    requires AnyReset !in xs && MuxGone !in xs
    ensures var st := AfterLives(Active, xs);
            st == match (LocalClose in xs, PeerClose in xs)
                  case (false, false) => Active
                  case (true, false) => HalfClosedLocal
                  case (false, true) => HalfClosedRemote
                  case (true, true) => Closed
  {
    if xs != [] {
      var front, x := xs[..|xs| - 1], xs[|xs| - 1];
      assert forall y: LifeEvent :: y in xs <==> y in front || y == x;
      OpenBefore(front);
    }
  }
}
