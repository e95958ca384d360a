/** Certificates: one issuance at a time for each host, and a cache that stays bounded. */
module Certs {
  import opened Base

  // ----- Single flight -----

  // Nothing yet; the error a leader leaves behind when it panics; or what issuing returned.
  datatype Outcome = Nothing | Aborted | Refused(reason: nat) | Issued(cert: nat)

  // A leader prepares, issues, wakes the waiters and withdraws the call; the others wait for it.
  datatype Point =
    | Asking
    | Waiting(call: int)
    | Preparing(call: int)
    | Issuing(call: int)
    | Closing(call: int)
    | Withdrawing(call: int)
    | Ended(call: int, result: Outcome)

  datatype Caller = Caller(host: string, at: Point, panicked: bool)

  datatype Call = Call(host: string, leader: int, done: bool, outcome: Outcome)

  datatype State = State(callers: seq<Caller>, calls: seq<Call>, inflight: map<string, int>)

  datatype Action =
    | Arrive(host: string)
    | Enter(i: int)
    | Prepare(i: int)
    | Finish(i: int, outcome: Outcome)
    | Panic(i: int)
    | CloseDone(i: int)
    | Withdraw(i: int)
    | Wake(i: int)

  predicate Leads(at: Point) {
    at.Preparing? || at.Issuing? || at.Closing? || at.Withdrawing?
  }

  predicate CanDo(s: State, a: Action) {
    match a
    case Arrive(_) => true
    case Enter(i) => 0 <= i < |s.callers| && s.callers[i].at.Asking?
    case Prepare(i) => 0 <= i < |s.callers| && s.callers[i].at.Preparing? && 0 <= s.callers[i].at.call < |s.calls|
    case Finish(i, outcome) =>
      && 0 <= i < |s.callers| && s.callers[i].at.Issuing? && 0 <= s.callers[i].at.call < |s.calls|
      && (outcome.Refused? || outcome.Issued?)
    case Panic(i) => 0 <= i < |s.callers| && s.callers[i].at.Issuing?
    case CloseDone(i) => 0 <= i < |s.callers| && s.callers[i].at.Closing? && 0 <= s.callers[i].at.call < |s.calls|
    case Withdraw(i) => 0 <= i < |s.callers| && s.callers[i].at.Withdrawing? && 0 <= s.callers[i].at.call < |s.calls|
    case Wake(i) =>
      && 0 <= i < |s.callers| && s.callers[i].at.Waiting? && 0 <= s.callers[i].at.call < |s.calls|
      && s.calls[s.callers[i].at.call].done
  }

  function Go(s: State, i: int, at: Point): seq<Caller>
    requires 0 <= i < |s.callers|
  {
    s.callers[i := s.callers[i].(at := at)]
  }

  function Next(s: State, a: Action): State
    requires CanDo(s, a)
  {
    match a
    case Arrive(host) => s.(callers := s.callers + [Caller(host, Asking, false)])
    case Enter(i) =>
      var host := s.callers[i].host;
      if host in s.inflight then s.(callers := Go(s, i, Waiting(s.inflight[host])))
      else State(Go(s, i, Preparing(|s.calls|)), s.calls + [Call(host, i, false, Nothing)],
                 s.inflight[host := |s.calls|])
    case Prepare(i) =>
      var c := s.callers[i].at.call;
      State(Go(s, i, Issuing(c)), s.calls[c := s.calls[c].(outcome := Aborted)], s.inflight)
    case Finish(i, outcome) =>
      var c := s.callers[i].at.call;
      State(Go(s, i, Closing(c)), s.calls[c := s.calls[c].(outcome := outcome)], s.inflight)
    case Panic(i) =>
      s.(callers := s.callers[i := s.callers[i].(at := Closing(s.callers[i].at.call), panicked := true)])
    case CloseDone(i) =>
      var c := s.callers[i].at.call;
      State(Go(s, i, Withdrawing(c)), s.calls[c := s.calls[c].(done := true)], s.inflight)
    case Withdraw(i) =>
      var c := s.callers[i].at.call;
      State(Go(s, i, Ended(c, s.calls[c].outcome)), s.calls, s.inflight - {s.callers[i].host})
    case Wake(i) =>
      var c := s.callers[i].at.call;
      s.(callers := Go(s, i, Ended(c, s.calls[c].outcome)))
  }

  /** What each caller's place says of the call it is about. */
  ghost predicate CallerAgrees(s: State, i: int)
    requires 0 <= i < |s.callers|
  {
    var me := s.callers[i];
    (me.at.Asking? && !me.panicked) ||
    (&& !me.at.Asking? && 0 <= me.at.call < |s.calls|
     && var call := s.calls[me.at.call];
        && call.host == me.host
        && (Leads(me.at) ==> call.leader == i && me.host in s.inflight && s.inflight[me.host] == me.at.call)
        && (Leads(me.at) ==> (call.done <==> me.at.Withdrawing?))
        && (me.at.Preparing? || me.at.Issuing? ==> !me.panicked)
        && (me.at.Issuing? ==> call.outcome == Aborted)
        && (me.at.Closing? || me.at.Withdrawing? ==> Settled(call.outcome, me.panicked))
        && (me.at.Waiting? ==> call.leader != i && !me.panicked)
        && (me.at.Ended? ==> call.done && me.at.result == call.outcome)
        && (me.at.Ended? && call.leader == i ==> Settled(call.outcome, me.panicked)))
  }

  /** A panic leaves the abort error; otherwise there is what issuing returned. */
  predicate Settled(outcome: Outcome, panicked: bool) {
    if panicked then outcome == Aborted else outcome.Refused? || outcome.Issued?
  }

  /** Each call has its leader, who is still at it or has woken everyone. */
  ghost predicate CallAgrees(s: State, c: int)
    requires 0 <= c < |s.calls|
  {
    var call := s.calls[c];
    && 0 <= call.leader < |s.callers|
    && var boss := s.callers[call.leader];
       !boss.at.Asking? && boss.at.call == c && (Leads(boss.at) || (boss.at.Ended? && call.done))
  }

  ghost predicate FlightAgrees(s: State, host: string)
    requires host in s.inflight
  {
    var c := s.inflight[host];
    && 0 <= c < |s.calls| && s.calls[c].host == host
    && 0 <= s.calls[c].leader < |s.callers|
    && Leads(s.callers[s.calls[c].leader].at) && s.callers[s.calls[c].leader].at.call == c
  }

  ghost predicate Inv(s: State) {
    && (forall i | 0 <= i < |s.callers| :: CallerAgrees(s, i))
    && (forall c | 0 <= c < |s.calls| :: CallAgrees(s, c))
    && (forall host | host in s.inflight :: FlightAgrees(s, host))
  }

  lemma ArriveKeepsInv(s: State, host: string)
    requires Inv(s)
    ensures Inv(Next(s, Arrive(host)))
  {
    var s' := Next(s, Arrive(host));
    forall i | 0 <= i < |s'.callers|
      ensures CallerAgrees(s', i)
    {
      if i < |s.callers| { assert CallerAgrees(s, i); }
    }
    forall c | 0 <= c < |s'.calls|
      ensures CallAgrees(s', c)
    {
      assert CallAgrees(s, c);
    }
    forall h | h in s'.inflight
      ensures FlightAgrees(s', h)
    {
      assert FlightAgrees(s, h);
    }
  }

  /** A step of one caller that changes at most one call, and not whose it is. */
  ghost predicate Touches(s: State, s': State, i: int, c: int) {
    && |s'.callers| == |s.callers| && |s'.calls| == |s.calls|
    && 0 <= i < |s.callers| && 0 <= c < |s.calls|
    && (forall j | 0 <= j < |s.callers| && j != i :: s'.callers[j] == s.callers[j])
    && (forall d | 0 <= d < |s.calls| && d != c :: s'.calls[d] == s.calls[d])
    && s'.calls[c].host == s.calls[c].host && s'.calls[c].leader == s.calls[c].leader
  }

  /** The leader of a call moves on, and only it and the call change. */
  lemma LeaderMoves(s: State, s': State, i: int, c: int)
    requires Inv(s) && Touches(s, s', i, c) && s'.inflight == s.inflight
    requires Leads(s.callers[i].at) && s.callers[i].at.call == c && !s.calls[c].done
    requires Leads(s'.callers[i].at) && s'.callers[i].at.call == c && s'.callers[i].host == s.callers[i].host
    requires CallerAgrees(s', i)
    ensures Inv(s')
  {
    assert CallerAgrees(s, i);
    forall j | 0 <= j < |s'.callers|
      ensures CallerAgrees(s', j)
    {
      if j != i { assert CallerAgrees(s, j); }
    }
    forall d | 0 <= d < |s'.calls|
      ensures CallAgrees(s', d)
    {
      assert CallAgrees(s, d);
    }
    forall h | h in s'.inflight
      ensures FlightAgrees(s', h)
    {
      assert FlightAgrees(s, h);
    }
  }

  lemma LeaderStepKeepsInv(s: State, a: Action)
    requires Inv(s) && CanDo(s, a) && (a.Prepare? || a.Finish? || a.Panic? || a.CloseDone?)
    ensures Inv(Next(s, a))
  {
    assert CallerAgrees(s, a.i);
    LeaderMoves(s, Next(s, a), a.i, s.callers[a.i].at.call);
  }

  lemma WaiterMoves(s: State, i: int, at: Point)
    requires Inv(s) && 0 <= i < |s.callers| && !Leads(s.callers[i].at) && !Leads(at) && !at.Asking?
    requires s.callers[i].at.Asking? || s.callers[i].at.call == at.call
    requires 0 <= at.call < |s.calls| && s.calls[at.call].leader != i && (!s.callers[i].at.Asking? ==> at.Ended?)
    requires CallerAgrees(s.(callers := Go(s, i, at)), i)
    requires forall c | 0 <= c < |s.calls| :: s.calls[c].leader != i
    ensures Inv(s.(callers := Go(s, i, at)))
  {
    var s' := s.(callers := Go(s, i, at));
    forall j | 0 <= j < |s'.callers|
      ensures CallerAgrees(s', j)
    {
      if j != i { assert CallerAgrees(s, j); }
    }
    forall d | 0 <= d < |s'.calls|
      ensures CallAgrees(s', d)
    {
      assert CallAgrees(s, d);
    }
    forall h | h in s'.inflight
      ensures FlightAgrees(s', h)
    {
      assert FlightAgrees(s, h);
    }
  }

  lemma NotALeader(s: State, i: int, c: int)
    requires Inv(s) && 0 <= i < |s.callers| && 0 <= c < |s.calls|
    requires s.callers[i].at.Asking? || s.callers[i].at.Waiting?
    ensures s.calls[c].leader != i
  {
    assert CallAgrees(s, c);
  }

  lemma WakeKeepsInv(s: State, i: int)
    requires Inv(s) && CanDo(s, Wake(i))
    ensures Inv(Next(s, Wake(i)))
  {
    assert CallerAgrees(s, i);
    forall c | 0 <= c < |s.calls|
      ensures s.calls[c].leader != i
    {
      NotALeader(s, i, c);
    }
    WaiterMoves(s, i, Next(s, Wake(i)).callers[i].at);
  }

  lemma JoinKeepsInv(s: State, i: int)
    requires Inv(s) && CanDo(s, Enter(i)) && s.callers[i].host in s.inflight
    ensures Inv(Next(s, Enter(i)))
  {
    assert FlightAgrees(s, s.callers[i].host);
    assert CallerAgrees(s, i);
    forall c | 0 <= c < |s.calls|
      ensures s.calls[c].leader != i
    {
      NotALeader(s, i, c);
    }
    WaiterMoves(s, i, Next(s, Enter(i)).callers[i].at);
  }

  lemma LeadKeepsInv(s: State, i: int)
    requires Inv(s) && CanDo(s, Enter(i)) && s.callers[i].host !in s.inflight
    ensures Inv(Next(s, Enter(i)))
  {
    var s' := Next(s, Enter(i));
    forall j | 0 <= j < |s'.callers|
      ensures CallerAgrees(s', j)
    {
      assert CallerAgrees(s, j);
    }
    forall c | 0 <= c < |s'.calls|
      ensures CallAgrees(s', c)
    {
      if c < |s.calls| {
        NotALeader(s, i, c);
        assert CallAgrees(s, c);
      }
    }
    forall h | h in s'.inflight
      ensures FlightAgrees(s', h)
    {
      if h != s.callers[i].host {
        assert FlightAgrees(s, h);
        NotALeader(s, i, s.inflight[h]);
      }
    }
  }

  lemma WithdrawKeepsInv(s: State, i: int)
    requires Inv(s) && CanDo(s, Withdraw(i))
    ensures Inv(Next(s, Withdraw(i)))
  {
    var s' := Next(s, Withdraw(i));
    assert CallerAgrees(s, i);
    forall j | 0 <= j < |s'.callers|
      ensures CallerAgrees(s', j)
    {
      assert CallerAgrees(s, j);
    }
    forall c | 0 <= c < |s'.calls|
      ensures CallAgrees(s', c)
    {
      assert CallAgrees(s, c);
    }
    forall h | h in s'.inflight
      ensures FlightAgrees(s', h)
    {
      assert FlightAgrees(s, h);
    }
  }

  lemma NextKeepsInv(s: State, a: Action)
    requires Inv(s) && CanDo(s, a)
    ensures Inv(Next(s, a))
  {
    match a {
      case Arrive(host) => ArriveKeepsInv(s, host);
      case Enter(i) => if s.callers[i].host in s.inflight { JoinKeepsInv(s, i); } else { LeadKeepsInv(s, i); }
      case Withdraw(i) => WithdrawKeepsInv(s, i);
      case Wake(i) => WakeKeepsInv(s, i);
      case _ => LeaderStepKeepsInv(s, a);
    }
  }

  // ----- Runs -----

  ghost predicate Run(s: State, run: seq<Action>)
    decreases |run|
  {
    run == [] || (CanDo(s, run[0]) && Run(Next(s, run[0]), run[1..]))
  }

  ghost function Final(s: State, run: seq<Action>): State
    requires Run(s, run)
    decreases |run|
  {
    if run == [] then s else Final(Next(s, run[0]), run[1..])
  }

  const START := State([], [], map[])

  lemma {:induction false} RunKeepsInv(s: State, run: seq<Action>)
    requires Inv(s) && Run(s, run)
    ensures Inv(Final(s, run))
    decreases |run|
  {
    if run != [] {
      NextKeepsInv(s, run[0]);
      RunKeepsInv(Next(s, run[0]), run[1..]);
    }
  }

  /** In every interleaving at most one caller is issuing for a host - indeed at most one is anywhere
      between entering its call and withdrawing it. */
  lemma OneIssuanceAtATime(run: seq<Action>, i: int, j: int)
    requires Run(START, run)
    requires var s := Final(START, run);
             && 0 <= i < j < |s.callers| && Leads(s.callers[i].at) && Leads(s.callers[j].at)
    ensures var s := Final(START, run); s.callers[i].host != s.callers[j].host
  {
    RunKeepsInv(START, run);
    var s := Final(START, run);
    assert CallerAgrees(s, i) && CallerAgrees(s, j);
  }

  /** Every caller that shared a call ends with what its leader ended with: the certificate or error
      that issuing returned or, if the leader panicked, the abort error. */
  lemma SharedResult(run: seq<Action>, i: int)
    requires Run(START, run)
    requires var s := Final(START, run); 0 <= i < |s.callers| && s.callers[i].at.Ended?
    ensures var s := Final(START, run);
            var c := s.callers[i].at.call;
            && 0 <= c < |s.calls|
            && var boss := s.calls[c].leader;
               && 0 <= boss < |s.callers| && s.callers[boss].host == s.callers[i].host
               && !s.callers[boss].at.Asking? && s.callers[boss].at.call == c
               && (s.callers[boss].at.Ended? ==> s.callers[boss].at.result == s.callers[i].at.result)
               && Settled(s.callers[i].at.result, s.callers[boss].panicked)
  {
    RunKeepsInv(START, run);
    var s := Final(START, run);
    var c := s.callers[i].at.call;
    assert CallerAgrees(s, i);
    assert CallAgrees(s, c);
    assert CallerAgrees(s, s.calls[c].leader);
  }

  /** The call has its outcome, and its leader nothing more to do that could change it. */
  ghost predicate Decided(s: State, c: int, outcome: Outcome) {
    && 0 <= c < |s.calls| && s.calls[c].outcome == outcome
    && 0 <= s.calls[c].leader < |s.callers|
    && !s.callers[s.calls[c].leader].at.Asking?
    && !s.callers[s.calls[c].leader].at.Preparing? && !s.callers[s.calls[c].leader].at.Issuing?
  }

  lemma StaysDecided(s: State, a: Action, c: int, outcome: Outcome)
    requires Inv(s) && CanDo(s, a) && Decided(s, c, outcome)
    ensures Decided(Next(s, a), c, outcome)
  {
    if !a.Arrive? {
      assert CallerAgrees(s, a.i);
    }
  }

  lemma {:induction false} RunStaysDecided(s: State, run: seq<Action>, c: int, outcome: Outcome)
    requires Inv(s) && Run(s, run) && Decided(s, c, outcome)
    ensures Decided(Final(s, run), c, outcome) && Inv(Final(s, run))
    decreases |run|
  {
    if run != [] {
      NextKeepsInv(s, run[0]);
      StaysDecided(s, run[0], c, outcome);
      RunStaysDecided(Next(s, run[0]), run[1..], c, outcome);
    }
  }

  /** The outcome of the leader's work: what issuing returned, or the abort error when it panicked. */
  function OutcomeOf(x: Action): Outcome
    requires x.Finish? || x.Panic?
  {
    if x.Finish? then x.outcome else Aborted
  }

  /** However the run goes on after issuing returned, or panicked: whoever ends in that call, leader or
      waiter, ends with exactly what it returned, or with the abort error. */
  lemma EveryoneGetsWhatWasIssued(before: seq<Action>, x: Action, after: seq<Action>, j: int)
    requires Run(START, before) && (x.Finish? || x.Panic?)
    requires CanDo(Final(START, before), x) && Run(Next(Final(START, before), x), after)
    requires var s := Final(Next(Final(START, before), x), after); 0 <= j < |s.callers| && s.callers[j].at.Ended?
    requires var s := Final(Next(Final(START, before), x), after);
             s.callers[j].at.call == Final(START, before).callers[x.i].at.call
    ensures Final(Next(Final(START, before), x), after).callers[j].at.result == OutcomeOf(x)
  {
    var s := Final(START, before);
    RunKeepsInv(START, before);
    var c := s.callers[x.i].at.call;
    assert CallerAgrees(s, x.i);
    NextKeepsInv(s, x);
    RunStaysDecided(Next(s, x), after, c, OutcomeOf(x));
    assert CallerAgrees(Final(Next(s, x), after), j);
  }

  /** Nobody waits for a leader that has ended, or is past waking: such a waiter can go on. */
  lemma NoWaiterIsLeftBehind(run: seq<Action>, i: int)
    requires Run(START, run)
    requires var s := Final(START, run); 0 <= i < |s.callers| && s.callers[i].at.Waiting?
    ensures var s := Final(START, run);
            && 0 <= s.callers[i].at.call < |s.calls|
            && var boss := s.calls[s.callers[i].at.call].leader;
               && 0 <= boss < |s.callers|
               && (CanDo(s, Wake(i)) <==> s.callers[boss].at.Withdrawing? || s.callers[boss].at.Ended?)
               && (!CanDo(s, Wake(i)) ==>
                     s.callers[boss].at.Preparing? || s.callers[boss].at.Issuing? || s.callers[boss].at.Closing?)
  {
    RunKeepsInv(START, run);
    var s := Final(START, run);
    var c := s.callers[i].at.call;
    assert CallerAgrees(s, i);
    assert CallAgrees(s, c);
    assert CallerAgrees(s, s.calls[c].leader);
  }

  // ----- The cache -----

  const MAX_CACHED := 4096

  class Cache {
    var certs: map<string, nat>
    var certCount: int

    ghost predicate Valid()
      reads this
    {
      certCount == |certs| <= MAX_CACHED
    }

    constructor ()
      ensures Valid() && certs == map[]
    {
      certs, certCount := map[], 0;
    }

    /** Caches a certificate. One too many makes room: half the limit's worth of other entries go,
        arbitrary ones, and never the one just stored. */
    method StoreCert(host: string, cert: nat)
      requires Valid()
      modifies this
      ensures Valid() && host in certs && certs[host] == cert
      ensures forall h | h in certs && h != host :: h in old(certs) && certs[h] == old(certs)[h]
      ensures host in old(certs) || |old(certs)| < 4096 ==> certs == old(certs)[host := cert]
      ensures !(host in old(certs) || |old(certs)| < 4096) ==> |certs| == 2049
    {
      var existed := host in certs;
      SizeWith(certs, host, cert);
      certs := certs[host := cert];
      if existed {
        return;
      }
      certCount := certCount + 1;
      if certCount > MAX_CACHED {
        DropHalf(host);
      }
    }

    /** Walks the table in some order and drops what it meets, but for the host, until half the limit
        has gone. */
    method DropHalf(host: string)
      requires certCount == |certs| == MAX_CACHED + 1 && host in certs
      modifies this
      ensures certCount == |certs| == MAX_CACHED + 1 - MAX_CACHED / 2
      ensures host in certs && forall h | h in certs :: h in old(certs) && certs[h] == old(certs)[h]
    {
      var n := 0;
      var todo := certs.Keys;
      while n < MAX_CACHED / 2
        invariant 0 <= n <= MAX_CACHED / 2 && todo <= certs.Keys && host in certs
        invariant certCount == |certs| == MAX_CACHED + 1 - n
        invariant |todo| + n + (if host in todo then 0 else 1) == MAX_CACHED + 1
        invariant forall h | h in certs :: h in old(certs) && certs[h] == old(certs)[h]
        decreases |todo|
      {
        assert todo != {};
        var k := AnyOf(todo);
        todo := todo - {k};
        if k != host {
          SizeWithout(certs, k);
          certs := certs - {k};
          certCount := certCount - 1;
          n := n + 1;
        }
      }
    }

    method DropCert(host: string)
      requires Valid()
      modifies this
      ensures Valid() && certs == old(certs) - {host}
    {
      if host in certs {
        SizeWithout(certs, host);
        certs := certs - {host};
        certCount := certCount - 1;
      } else {
        assert certs - {host} == certs;
      }
    }
  }

  lemma SizeWith<K, V>(m: map<K, V>, k: K, v: V)
    ensures |m[k := v]| == |m| + if k in m then 0 else 1
  {
    assert m[k := v].Keys == m.Keys + {k};
    assert |m[k := v]| == |m[k := v].Keys| && |m| == |m.Keys|;
  }
}
