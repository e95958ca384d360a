/** Account limits when handlers interleave: one lock section, or one visit of a walk, per step. */
module Quotas {

  // A session is registered until it is taken out of the table, and open until its own lock section
  // clears its tunnels a moment later.
  datatype Session = Session(account: nat, registered: bool, open: bool, tunnels: nat)

  // Who holds the account lock, and how far its walk over the table has come.
  datatype Lock =
    | Free
    | CountingSessions(account: nat, todo: set<int>, n: nat)
    | CountingTunnels(sid: int, todo: set<int>, n: nat)
    | Adding(sid: int)

  datatype State = State(sessions: seq<Session>, lock: Lock)

  // Zero is no limit.
  datatype Limits = Limits(maxSessions: nat -> nat, maxTunnels: nat -> nat, perSession: nat)

  datatype Action =
    | BeginLogin(account: nat)
    | BeginAdd(sid: int)
    // The walk looks at a session that was in the table when it began.
    | Visit(i: int)
    // A session taken out of the table during the walk may be passed over.
    | Skip(i: int)
    | FinishLogin
    | FinishCount
    | Add
    // These take only the session's own lock.
    | Unregister(i: int)
    | Clear(i: int)
    | CloseOne(i: int)

  predicate Within(limit: nat, n: nat) {
    limit == 0 || n < limit
  }

  function Registered(sessions: seq<Session>): set<int> {
    set i | 0 <= i < |sessions| && sessions[i].registered
  }

  predicate CanDo(s: State, a: Action) {
    match a
    case BeginLogin(_) => s.lock.Free?
    case BeginAdd(sid) => s.lock.Free? && 0 <= sid < |s.sessions|
    case Visit(i) => (s.lock.CountingSessions? || s.lock.CountingTunnels?) && i in s.lock.todo && 0 <= i < |s.sessions|
    case Skip(i) =>
      && (s.lock.CountingSessions? || s.lock.CountingTunnels?)
      && i in s.lock.todo && 0 <= i < |s.sessions| && !s.sessions[i].registered
    case FinishLogin => s.lock.CountingSessions? && s.lock.todo == {}
    case FinishCount => s.lock.CountingTunnels? && s.lock.todo == {} && 0 <= s.lock.sid < |s.sessions|
    case Add => s.lock.Adding? && 0 <= s.lock.sid < |s.sessions|
    case Unregister(i) => 0 <= i < |s.sessions| && s.sessions[i].registered
    case Clear(i) => 0 <= i < |s.sessions| && !s.sessions[i].registered && s.sessions[i].open
    case CloseOne(i) => 0 <= i < |s.sessions| && s.sessions[i].tunnels > 0
  }

  function Visited(lock: Lock, i: int, sess: Session, account: nat): Lock
    requires lock.CountingSessions? || lock.CountingTunnels?
  {
    match lock
    case CountingSessions(of, todo, n) => CountingSessions(of, todo - {i}, n + if sess.account == account then 1 else 0)
    case CountingTunnels(sid, todo, n) =>
      CountingTunnels(sid, todo - {i}, n + if sess.account == account then sess.tunnels else 0)
  }

  function AccountOf(s: State): nat {
    match s.lock
    case CountingSessions(account, _, _) => account
    case CountingTunnels(sid, _, _) => if 0 <= sid < |s.sessions| then s.sessions[sid].account else 0
    case _ => 0
  }

  function Next(l: Limits, s: State, a: Action): State
    requires CanDo(s, a)
  {
    match a
    case BeginLogin(account) =>
      if l.maxSessions(account) == 0 then Joined(s, account)
      else s.(lock := CountingSessions(account, Registered(s.sessions), 0))
    case BeginAdd(sid) =>
      if l.maxTunnels(s.sessions[sid].account) == 0 then s.(lock := Adding(sid))
      else s.(lock := CountingTunnels(sid, Registered(s.sessions), 0))
    case Visit(i) => s.(lock := Visited(s.lock, i, s.sessions[i], AccountOf(s)))
    case Skip(i) => s.(lock := s.lock.(todo := s.lock.todo - {i}))
    case FinishLogin =>
      if s.lock.n >= l.maxSessions(s.lock.account) then s.(lock := Free) else Joined(s, s.lock.account)
    case FinishCount =>
      if s.lock.n >= l.maxTunnels(s.sessions[s.lock.sid].account) then s.(lock := Free)
      else s.(lock := Adding(s.lock.sid))
    case Add =>
      var sess := s.sessions[s.lock.sid];
      if !sess.open || sess.tunnels >= l.perSession then s.(lock := Free)
      else State(s.sessions[s.lock.sid := sess.(tunnels := sess.tunnels + 1)], Free)
    case Unregister(i) => s.(sessions := s.sessions[i := s.sessions[i].(registered := false)])
    case Clear(i) => s.(sessions := s.sessions[i := s.sessions[i].(open := false, tunnels := 0)])
    case CloseOne(i) => s.(sessions := s.sessions[i := s.sessions[i].(tunnels := s.sessions[i].tunnels - 1)])
  }

  function Joined(s: State, account: nat): State {
    State(s.sessions + [Session(account, true, true, 0)], Free)
  }

  // ----- Sums -----

  datatype What = Heads | Tunnels

  function Weight(what: What, account: nat, sess: Session): nat {
    if !sess.registered || sess.account != account then 0
    else match what case Heads => 1 case Tunnels => sess.tunnels
  }

  /** The account's registered sessions, or their tunnels, leaving out those still to be visited. */
  function Sum(what: What, account: nat, sessions: seq<Session>, todo: set<int>): nat
    decreases |sessions|
  {
    if sessions == [] then 0
    else
      var last := |sessions| - 1;
      Sum(what, account, sessions[..last], todo) + if last in todo then 0 else Weight(what, account, sessions[last])
  }

  lemma {:induction false} SumUpdate(what: What, account: nat, sessions: seq<Session>, todo: set<int>, i: int,
                                     sess: Session)
    requires 0 <= i < |sessions|
    ensures Sum(what, account, sessions[i := sess], todo) ==
            Sum(what, account, sessions, todo) +
            if i in todo then 0 else Weight(what, account, sess) - Weight(what, account, sessions[i])
    decreases |sessions|
  {
    var last := |sessions| - 1;
    if i == last {
      assert sessions[i := sess][..last] == sessions[..last];
    } else {
      SumUpdate(what, account, sessions[..last], todo, i, sess);
      assert sessions[i := sess][..last] == sessions[..last][i := sess];
    }
  }

  lemma {:induction false} SumVisit(what: What, account: nat, sessions: seq<Session>, todo: set<int>, i: int)
    requires 0 <= i < |sessions| && i in todo
    ensures Sum(what, account, sessions, todo - {i}) ==
            Sum(what, account, sessions, todo) + Weight(what, account, sessions[i])
    decreases |sessions|
  {
    var last := |sessions| - 1;
    if i == last {
      SumIgnores(what, account, sessions[..last], todo, i);
    } else {
      SumVisit(what, account, sessions[..last], todo, i);
    }
  }

  lemma {:induction false} SumIgnores(what: What, account: nat, sessions: seq<Session>, todo: set<int>, i: int)
    requires i >= |sessions|
    ensures Sum(what, account, sessions, todo - {i}) == Sum(what, account, sessions, todo)
    decreases |sessions|
  {
    if sessions != [] {
      SumIgnores(what, account, sessions[..|sessions| - 1], todo, i);
    }
  }

  /** Nobody has been visited when a walk over all registered sessions begins. */
  lemma {:induction false} SumStart(what: What, account: nat, sessions: seq<Session>, todo: set<int>)
    requires forall i | 0 <= i < |sessions| && sessions[i].registered :: i in todo
    ensures Sum(what, account, sessions, todo) == 0
    decreases |sessions|
  {
    if sessions != [] {
      SumStart(what, account, sessions[..|sessions| - 1], todo);
    }
  }

  // ----- The limits -----

  predicate AccountWithin(l: Limits, account: nat, sessions: seq<Session>) {
    && (l.maxSessions(account) == 0 || Sum(Heads, account, sessions, {}) <= l.maxSessions(account))
    && (l.maxTunnels(account) == 0 || Sum(Tunnels, account, sessions, {}) <= l.maxTunnels(account))
  }

  ghost predicate EachWithin(l: Limits, sessions: seq<Session>) {
    forall i | 0 <= i < |sessions| ::
      sessions[i].tunnels <= l.perSession && (!sessions[i].open ==> sessions[i].tunnels == 0)
  }

  /** What the holder of the lock has counted so far is not less than what it has visited holds now;
      once it has decided to add there is room. */
  ghost predicate LockKnows(l: Limits, s: State) {
    match s.lock
    case Free => true
    case CountingSessions(account, todo, n) => Sum(Heads, account, s.sessions, todo) <= n
    case CountingTunnels(sid, todo, n) =>
      0 <= sid < |s.sessions| && Sum(Tunnels, s.sessions[sid].account, s.sessions, todo) <= n
    case Adding(sid) =>
      && 0 <= sid < |s.sessions|
      && var account := s.sessions[sid].account; Within(l.maxTunnels(account), Sum(Tunnels, account, s.sessions, {}))
  }

  ghost predicate Inv(l: Limits, s: State) {
    && (forall account :: AccountWithin(l, account, s.sessions))
    && EachWithin(l, s.sessions)
    && LockKnows(l, s)
  }

  /** A session that loses tunnels, or its registration, loosens every limit. */
  lemma LossKeepsInv(l: Limits, s: State, i: int, sess: Session)
    requires Inv(l, s) && 0 <= i < |s.sessions|
    requires sess.account == s.sessions[i].account && sess.tunnels <= s.sessions[i].tunnels
    requires sess.registered ==> s.sessions[i].registered
    requires !sess.open ==> sess.tunnels == 0
    ensures Inv(l, s.(sessions := s.sessions[i := sess]))
  {
    var s' := s.(sessions := s.sessions[i := sess]);
    forall account
      ensures AccountWithin(l, account, s'.sessions)
    {
      assert AccountWithin(l, account, s.sessions);
      SumUpdate(Heads, account, s.sessions, {}, i, sess);
      SumUpdate(Tunnels, account, s.sessions, {}, i, sess);
    }
    match s.lock {
      case CountingSessions(account, todo, n) => SumUpdate(Heads, account, s.sessions, todo, i, sess);
      case CountingTunnels(sid, todo, n) => SumUpdate(Tunnels, s.sessions[sid].account, s.sessions, todo, i, sess);
      case Adding(sid) => SumUpdate(Tunnels, s.sessions[sid].account, s.sessions, {}, i, sess);
      case _ =>
    }
  }

  lemma VisitKeepsInv(l: Limits, s: State, i: int)
    requires Inv(l, s) && CanDo(s, Visit(i))
    ensures LockKnows(l, Next(l, s, Visit(i)))
  {
    match s.lock {
      case CountingSessions(account, todo, n) => SumVisit(Heads, account, s.sessions, todo, i);
      case CountingTunnels(sid, todo, n) => SumVisit(Tunnels, s.sessions[sid].account, s.sessions, todo, i);
    }
  }

  lemma SkipKeepsInv(l: Limits, s: State, i: int)
    requires Inv(l, s) && CanDo(s, Skip(i))
    ensures LockKnows(l, Next(l, s, Skip(i)))
  {
    match s.lock {
      case CountingSessions(account, todo, n) => SumVisit(Heads, account, s.sessions, todo, i);
      case CountingTunnels(sid, todo, n) => SumVisit(Tunnels, s.sessions[sid].account, s.sessions, todo, i);
    }
  }

  lemma BeginKeepsInv(l: Limits, s: State, a: Action)
    requires Inv(l, s) && CanDo(s, a)
    requires (a.BeginLogin? && l.maxSessions(a.account) != 0) || a.BeginAdd?
    ensures Inv(l, Next(l, s, a))
  {
    var todo := Registered(s.sessions);
    match a {
      case BeginLogin(account) => SumStart(Heads, account, s.sessions, todo);
      case BeginAdd(sid) => SumStart(Tunnels, s.sessions[sid].account, s.sessions, todo);
    }
  }

  lemma JoinKeepsInv(l: Limits, s: State, account: nat)
    requires Inv(l, s) && Within(l.maxSessions(account), Sum(Heads, account, s.sessions, {}))
    ensures Inv(l, Joined(s, account))
  {
    var s' := Joined(s, account);
    assert s'.sessions[..|s.sessions|] == s.sessions;
    forall b
      ensures AccountWithin(l, b, s'.sessions)
    {
      assert AccountWithin(l, b, s.sessions);
    }
  }

  lemma AddKeepsInv(l: Limits, s: State)
    requires Inv(l, s) && CanDo(s, Add)
    ensures Inv(l, Next(l, s, Add))
  {
    var sid := s.lock.sid;
    var sess := s.sessions[sid];
    if sess.open && sess.tunnels < l.perSession {
      var more := sess.(tunnels := sess.tunnels + 1);
      var s' := Next(l, s, Add);
      forall account
        ensures AccountWithin(l, account, s'.sessions)
      {
        assert AccountWithin(l, account, s.sessions);
        SumUpdate(Heads, account, s.sessions, {}, sid, more);
        SumUpdate(Tunnels, account, s.sessions, {}, sid, more);
      }
    }
  }

  lemma NextKeepsInv(l: Limits, s: State, a: Action)
    requires Inv(l, s) && CanDo(s, a)
    ensures Inv(l, Next(l, s, a))
  {
    match a {
      case BeginLogin(account) =>
        if l.maxSessions(account) == 0 {
          JoinKeepsInv(l, s, account);
        } else {
          BeginKeepsInv(l, s, a);
        }
      case BeginAdd(_) => BeginKeepsInv(l, s, a);
      case Visit(i) => VisitKeepsInv(l, s, i);
      case Skip(i) => SkipKeepsInv(l, s, i);
      case FinishLogin => if s.lock.n < l.maxSessions(s.lock.account) { JoinKeepsInv(l, s, s.lock.account); }
      case FinishCount =>
      case Add => AddKeepsInv(l, s);
      case Unregister(i) => LossKeepsInv(l, s, i, s.sessions[i].(registered := false));
      case Clear(i) => LossKeepsInv(l, s, i, s.sessions[i].(open := false, tunnels := 0));
      case CloseOne(i) => LossKeepsInv(l, s, i, s.sessions[i].(tunnels := s.sessions[i].tunnels - 1));
    }
  }

  ghost predicate Run(l: Limits, s: State, run: seq<Action>)
    decreases |run|
  {
    run == [] || (CanDo(s, run[0]) && Run(l, Next(l, s, run[0]), run[1..]))
  }

  ghost function Final(l: Limits, s: State, run: seq<Action>): State
    requires Run(l, s, run)
    decreases |run|
  {
    if run == [] then s else Final(l, Next(l, s, run[0]), run[1..])
  }

  lemma {:induction false} RunKeepsInv(l: Limits, s: State, run: seq<Action>)
    requires Inv(l, s) && Run(l, s, run)
    ensures Inv(l, Final(l, s, run))
    decreases |run|
  {
    if run != [] {
      NextKeepsInv(l, s, run[0]);
      RunKeepsInv(l, Next(l, s, run[0]), run[1..]);
    }
  }

  /** However creates, logins, closes, takeovers and removals interleave, no account has more sessions
      or tunnels than it may, and no session more tunnels; a session that was cleared has none. */
  lemma LimitsHold(l: Limits, run: seq<Action>)
    requires Run(l, State([], Free), run)
    ensures var s := Final(l, State([], Free), run);
            && (forall account ::
                 && (l.maxSessions(account) > 0 ==> Sum(Heads, account, s.sessions, {}) <= l.maxSessions(account))
                 && (l.maxTunnels(account) > 0 ==> Sum(Tunnels, account, s.sessions, {}) <= l.maxTunnels(account)))
            && (forall i | 0 <= i < |s.sessions| ::
                 s.sessions[i].tunnels <= l.perSession && (!s.sessions[i].open ==> s.sessions[i].tunnels == 0))
  {
    RunKeepsInv(l, State([], Free), run);
    var s := Final(l, State([], Free), run);
    forall account
      ensures l.maxSessions(account) > 0 ==> Sum(Heads, account, s.sessions, {}) <= l.maxSessions(account)
      ensures l.maxTunnels(account) > 0 ==> Sum(Tunnels, account, s.sessions, {}) <= l.maxTunnels(account)
    {
      assert AccountWithin(l, account, s.sessions);
    }
  }

  // ----- Where there is room, it is given -----

  // A login whose walk others may disturb: sessions leave and tunnels close, but nobody else has the lock.
  ghost predicate OneLock(walk: seq<Action>) {
    forall k | 0 <= k < |walk| :: !walk[k].BeginLogin? && !walk[k].BeginAdd?
  }

  /** A login that began in s0 is counting no more than there was then, or is over and was refused only
      for lack of room. */
  ghost predicate LoginFrom(l: Limits, s0: State, account: nat, s: State) {
    && var max := l.maxSessions(account);
    && |s0.sessions| <= |s.sessions|
    && (forall i | 0 <= i < |s0.sessions| :: s.sessions[i].account == s0.sessions[i].account)
    && match s.lock
       case CountingSessions(of, todo, n) =>
         && of == account && |s.sessions| == |s0.sessions| && todo <= Registered(s0.sessions)
         && max > 0 && n <= Sum(Heads, account, s0.sessions, todo)
       case Free =>
         if |s.sessions| == |s0.sessions| then max > 0 && Sum(Heads, account, s0.sessions, {}) >= max
         else |s.sessions| == |s0.sessions| + 1 && s.sessions[|s0.sessions|].account == account
       case _ => false
  }

  lemma LoginFromNext(l: Limits, s0: State, account: nat, s: State, a: Action)
    requires LoginFrom(l, s0, account, s) && CanDo(s, a) && !a.BeginLogin? && !a.BeginAdd?
    ensures LoginFrom(l, s0, account, Next(l, s, a))
  {
    if a.Visit? || a.Skip? {
      SumVisit(Heads, account, s0.sessions, s.lock.todo, a.i);
    }
  }

  lemma {:induction false} LoginFromRun(l: Limits, s0: State, account: nat, s: State, walk: seq<Action>)
    requires LoginFrom(l, s0, account, s) && Run(l, s, walk) && OneLock(walk)
    ensures LoginFrom(l, s0, account, Final(l, s, walk))
    decreases |walk|
  {
    if walk != [] {
      LoginFromNext(l, s0, account, s, walk[0]);
      LoginFromRun(l, s0, account, Next(l, s, walk[0]), walk[1..]);
    }
  }

  /** A login that began while the account was below its limit, or has none, is let in, whatever leaves
      the table during its walk; any other leaves the table no longer than it was, or becomes a session. */
  lemma LoginWithRoom(l: Limits, s: State, account: nat, walk: seq<Action>)
    requires s.lock.Free? && Run(l, s, [BeginLogin(account)] + walk) && OneLock(walk)
    requires Final(l, s, [BeginLogin(account)] + walk).lock.Free?
    ensures var s' := Final(l, s, [BeginLogin(account)] + walk);
            && (l.maxSessions(account) == 0 || Sum(Heads, account, s.sessions, {}) < l.maxSessions(account)
                ==> |s'.sessions| == |s.sessions| + 1)
            && (|s'.sessions| == |s.sessions|
                || (|s'.sessions| == |s.sessions| + 1 && s'.sessions[|s.sessions|].account == account))
  {
    var run := [BeginLogin(account)] + walk;
    assert run[0] == BeginLogin(account) && run[1..] == walk;
    var s1 := Next(l, s, run[0]);
    assert Registered(s.sessions) <= Registered(s.sessions);
    LoginFromRun(l, s, account, s1, walk);
  }

  predicate Quiet(a: Action) {
    a.Visit? || a.FinishCount? || a.Add?
  }

  /** A tunnel's creation that began in s0 and that nobody disturbs: where it stands. */
  ghost predicate AddFrom(l: Limits, s0: State, sid: int, s: State)
    requires 0 <= sid < |s0.sessions|
  {
    var sess := s0.sessions[sid];
    var held, max := Sum(Tunnels, sess.account, s0.sessions, {}), l.maxTunnels(sess.account);
    match s.lock
    case CountingTunnels(of, todo, n) =>
      && of == sid && s.sessions == s0.sessions && todo <= Registered(s0.sessions) && max > 0
      && n == Sum(Tunnels, sess.account, s0.sessions, todo)
    case Adding(of) => of == sid && s.sessions == s0.sessions && (max == 0 || held < max)
    case Free =>
      s.sessions ==
      if (max == 0 || held < max) && sess.open && sess.tunnels < l.perSession
      then s0.sessions[sid := Session(sess.account, sess.registered, true, sess.tunnels + 1)]
      else s0.sessions
    case _ => false
  }

  lemma AddFromNext(l: Limits, s0: State, sid: int, s: State, a: Action)
    requires 0 <= sid < |s0.sessions| && AddFrom(l, s0, sid, s) && CanDo(s, a) && Quiet(a)
    ensures AddFrom(l, s0, sid, Next(l, s, a))
  {
    if a.Visit? {
      SumVisit(Tunnels, s0.sessions[sid].account, s0.sessions, s.lock.todo, a.i);
    }
  }

  lemma {:induction false} AddFromRun(l: Limits, s0: State, sid: int, s: State, walk: seq<Action>)
    requires 0 <= sid < |s0.sessions| && AddFrom(l, s0, sid, s) && Run(l, s, walk)
    requires forall k | 0 <= k < |walk| :: Quiet(walk[k])
    ensures AddFrom(l, s0, sid, Final(l, s, walk))
    decreases |walk|
  {
    if walk != [] {
      AddFromNext(l, s0, sid, s, walk[0]);
      AddFromRun(l, s0, sid, Next(l, s, walk[0]), walk[1..]);
    }
  }

  /** Left alone, in whatever order its walk visits the sessions, adding a tunnel succeeds exactly when the
      account is below its limit and the session is open and below its own, and then adds one tunnel. */
  lemma AddAlone(l: Limits, s: State, sid: int, walk: seq<Action>)
    requires s.lock.Free? && Run(l, s, [BeginAdd(sid)] + walk) && (forall k | 0 <= k < |walk| :: Quiet(walk[k]))
    requires Final(l, s, [BeginAdd(sid)] + walk).lock.Free?
    ensures 0 <= sid < |s.sessions|
    ensures var sess, s' := s.sessions[sid], Final(l, s, [BeginAdd(sid)] + walk);
            var held, max := Sum(Tunnels, sess.account, s.sessions, {}), l.maxTunnels(sess.account);
            if (max == 0 || held < max) && sess.open && sess.tunnels < l.perSession
            then s'.sessions == s.sessions[sid := Session(sess.account, sess.registered, true, sess.tunnels + 1)]
            else s'.sessions == s.sessions
  {
    var run := [BeginAdd(sid)] + walk;
    assert run[0] == BeginAdd(sid) && run[1..] == walk;
    SumStart(Tunnels, s.sessions[sid].account, s.sessions, Registered(s.sessions));
    AddFromRun(l, s, sid, Next(l, s, run[0]), walk);
  }

  /** Once a session has been cleared it stays without tunnels for the rest of any run. */
  lemma {:induction false} ClearedStaysEmpty(l: Limits, s: State, run: seq<Action>, i: int)
    requires Run(l, s, run) && 0 <= i < |s.sessions| && !s.sessions[i].open && s.sessions[i].tunnels == 0
    ensures var s' := Final(l, s, run); i < |s'.sessions| && !s'.sessions[i].open && s'.sessions[i].tunnels == 0
    decreases |run|
  {
    if run != [] {
      ClearedStaysEmpty(l, Next(l, s, run[0]), run[1..], i);
    }
  }
}
