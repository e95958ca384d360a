/** Accounts and sessions never exceed their limits, and are let in while there is room. */
module AccountLimits {
  import opened Base
  import opened Ports
  import opened Registry
  import opened RegistryRuns
  import opened Requests

  ghost function HeadsOf(s: State, account: nat): set<nat> {
    set sid | sid in s.sessions && s.sessions[sid].account == account
  }

  /** Every login of an account comes with the limits the account has for good; zero is none. */
  ghost predicate Fixed(run: seq<Action>, heads: nat -> nat, tunnels: nat -> nat) {
    forall i | 0 <= i < |run| && run[i].Login? ::
      run[i].maxSessions == heads(run[i].account) && run[i].maxTunnels == tunnels(run[i].account)
  }

  ghost predicate InLimits(c: Config, s: State, heads: nat -> nat, tunnels: nat -> nat) {
    && (forall account: nat | heads(account) > 0 :: |HeadsOf(s, account)| <= heads(account))
    && (forall account: nat | tunnels(account) > 0 :: |OfAccount(s, account)| <= tunnels(account))
    && (forall sid | sid in s.sessions :: |s.sessions[sid].tunnels| <= c.maxTunnelsPerSession)
    && (forall sid | sid in s.sessions :: s.sessions[sid].maxTunnels == tunnels(s.sessions[sid].account))
  }

  /** Fewer sessions, with fewer tunnels, and otherwise the same. */
  ghost predicate Shrinks(s: State, s': State) {
    forall sid | sid in s'.sessions ::
      && sid in s.sessions && s'.sessions[sid].account == s.sessions[sid].account
      && s'.sessions[sid].maxTunnels == s.sessions[sid].maxTunnels
      && s'.sessions[sid].tunnels.Keys <= s.sessions[sid].tunnels.Keys
  }

  lemma ShrinkingIsFine(c: Config, s: State, s': State, heads: nat -> nat, tunnels: nat -> nat)
    requires InLimits(c, s, heads, tunnels) && Shrinks(s, s')
    ensures InLimits(c, s', heads, tunnels)
  {
    forall account: nat
      ensures |HeadsOf(s', account)| <= |HeadsOf(s, account)| && |OfAccount(s', account)| <= |OfAccount(s, account)|
    {
      Smaller(HeadsOf(s', account), HeadsOf(s, account));
      Smaller(OfAccount(s', account), OfAccount(s, account));
    }
    forall sid | sid in s'.sessions
      ensures |s'.sessions[sid].tunnels| <= c.maxTunnelsPerSession
    {
      Smaller(s'.sessions[sid].tunnels.Keys, s.sessions[sid].tunnels.Keys);
    }
  }

  /** What one tunnel more means for an account. */
  lemma OneTunnelMore(s: State, sid: nat, t: Tunnel, account: nat)
    requires t.session == sid && sid in s.sessions
    ensures var s' := s.(sessions := AddTo(s.sessions, t));
            && HeadsOf(s', account) == HeadsOf(s, account)
            && (account != s.sessions[sid].account ==> OfAccount(s', account) == OfAccount(s, account))
            && |OfAccount(s', s.sessions[sid].account)| <= |OfAccount(s, s.sessions[sid].account)| + 1
  {
    var s', own := s.(sessions := AddTo(s.sessions, t)), s.sessions[sid].account;
    assert OfAccount(s', own) == OfAccount(s, own) + {(sid, t.id)};
  }

  lemma OneKeyMore<K, V>(m: map<K, V>, k: K, v: V)
    ensures |m[k := v]| <= |m| + 1
  {
    assert m[k := v].Keys == m.Keys + {k};
  }

  /** A tunnel is added to a session with room for it, after others have gone. */
  lemma AddingIsFine(c: Config, s: State, sid: nat, t: Tunnel, heads: nat -> nat, tunnels: nat -> nat)
    requires InLimits(c, s, heads, tunnels) && t.session == sid && sid in s.sessions
    requires RoomInSession(c, s, sid) && RoomInAccount(s, s.sessions[sid].account, s.sessions[sid].maxTunnels)
    ensures InLimits(c, s.(sessions := AddTo(s.sessions, t)), heads, tunnels)
  {
    hide OfAccount, HeadsOf;
    var s' := s.(sessions := AddTo(s.sessions, t));
    forall account: nat
      ensures |HeadsOf(s', account)| == |HeadsOf(s, account)|
      ensures tunnels(account) > 0 ==> |OfAccount(s', account)| <= tunnels(account)
    {
      OneTunnelMore(s, sid, t, account);
    }
    OneKeyMore(s.sessions[sid].tunnels, t.id, t);
  }

  /** What one session more means for an account. */
  lemma OneSessionMore(s: State, sid: nat, sess: Session, account: nat)
    requires sid !in s.sessions && sess.tunnels == map[]
    ensures var s' := s.(sessions := s.sessions[sid := sess]);
            && OfAccount(s', account) == OfAccount(s, account)
            && |HeadsOf(s', account)| == |HeadsOf(s, account)| + if account == sess.account then 1 else 0
  {
    var s' := s.(sessions := s.sessions[sid := sess]);
    if account == sess.account {
      assert HeadsOf(s', account) == HeadsOf(s, account) + {sid};
    } else {
      assert HeadsOf(s', account) == HeadsOf(s, account);
    }
  }

  lemma LoginIsFine(c: Config, s: State, a: Action, heads: nat -> nat, tunnels: nat -> nat)
    requires InLimits(c, s, heads, tunnels) && a.Login? && a.sid !in s.sessions && c.Valid()
    requires a.maxSessions == heads(a.account) && a.maxTunnels == tunnels(a.account)
    ensures InLimits(c, Next(c, s, a), heads, tunnels)
  {
    hide OfAccount, HeadsOf;
    var s' := Next(c, s, a);
    LoginBelowLimit(s, a.sid, a.account, a.maxSessions, a.maxTunnels);
    if s' != s {
      forall account: nat
        ensures |HeadsOf(s', account)| == |HeadsOf(s, account)| + if account == a.account then 1 else 0
        ensures |OfAccount(s', account)| == |OfAccount(s, account)|
      {
        OneSessionMore(s, a.sid, Session(a.account, a.maxTunnels, map[], false), account);
      }
    }
  }

  /** What a request does to the sessions. */
  ghost predicate AsksFor(s: State, s': State, a: Action)
    requires a.Ask?
  {
    || Shrinks(s, s')
    || exists mid: State, t: Tunnel ::
         && Shrinks(s, mid) && t.session == a.sid && a.sid in mid.sessions
         && s'.sessions == AddTo(mid.sessions, t)
  }

  lemma AskAddsOne(c: Config, s: State, a: Action)
    requires c.Valid() && a.Ask?
    ensures AsksFor(s, Next(c, s, a), a)
    ensures !Shrinks(s, Next(c, s, a)) ==>
              RoomInSession(c, s, a.sid) && RoomInAccount(s, a.account, a.maxTunnels)
  {
    SameAccount(s, a.account);
    if EarlyRefusal(c, s, a.sid, a.account, a.maxTunnels, a.req).None? {
      if a.req.wanted.WantTcp? {
        TcpAddsOne(c, s, Tunnel(a.tid, a.sid, a.account, Tcp(0), a.req.ttl), a);
      } else if HttpRefusal(s, a.req.wanted).None? {
        HttpAddsOne(s, Tunnel(a.tid, a.sid, a.account, WantedKind(a.req.wanted), a.req.ttl), a);
      }
    }
  }

  lemma TcpAddsOne(c: Config, s: State, t: Tunnel, a: Action)
    requires c.Valid() && a.Ask? && a.req.wanted.WantTcp? && t.session == a.sid
    ensures AsksFor(s, AfterTcp(c, s, t, a.maxTunnels, a.req.wanted.foreign).0, a)
  {
    hide Listen, AtAccountLimit, AtSessionLimit;
    assert Shrinks(s, s);
    ListenKeepsBooks(c.range, s.ports, s.next, a.req.wanted.foreign, false);
    var (l, _, next) := Listen(c.range, s.ports, s.next, a.req.wanted.foreign, false);
    if l.Bound? {
      var u := t.(kind := Tcp(l.port));
      if AfterBound(c, s.(next := next), u, a.maxTunnels).1.Created? {
        assert a.sid in s.sessions by { BoundHasRoom(c, s.(next := next), u, a.maxTunnels); }
        assert Add(s.(next := next), u).sessions == AddTo(s.sessions, u);
      }
    }
  }

  lemma BoundHasRoom(c: Config, s: State, t: Tunnel, maxTunnels: nat)
    requires AfterBound(c, s, t, maxTunnels).1.Created?
    ensures t.session in s.sessions && AfterBound(c, s, t, maxTunnels).0 == Add(s, t)
  {
  }

  lemma HttpAddsOne(s: State, t: Tunnel, a: Action)
    requires a.Ask? && a.req.wanted.WantHttp? && t.kind.Http? && t.session == a.sid && a.sid in s.sessions
    ensures AsksFor(s, AfterHttp(s, t, a.req.wanted.reconnect, a.now).0, a)
  {
    var name := t.kind.name;
    var s1 := s.(held := Asked(s.held, name, a.now));
    assert Shrinks(s, s1);
    assert Add(s1, t).sessions == AddTo(s1.sessions, t);
    if name in s.tunnels {
      var mid := Drop(s1, s.tunnels[name]);
      assert Shrinks(s, mid);
      assert Add(mid, t).sessions == AddTo(mid.sessions, t);
    }
  }

  lemma AskIsFine(c: Config, s: State, a: Action, heads: nat -> nat, tunnels: nat -> nat)
    requires Inv(c, s) && InLimits(c, s, heads, tunnels) && CanDo(s, a) && a.Ask?
    ensures InLimits(c, Next(c, s, a), heads, tunnels)
  {
    hide InLimits, Next;
    var s' := Next(c, s, a);
    AskAddsOne(c, s, a);
    if Shrinks(s, s') {
      ShrinkingIsFine(c, s, s', heads, tunnels);
    } else {
      var mid: State, t: Tunnel :|
        Shrinks(s, mid) && t.session == a.sid && a.sid in mid.sessions && s'.sessions == AddTo(mid.sessions, t);
      ShrinkingIsFine(c, s, mid, heads, tunnels);
      StillRoom(c, s, mid, a.sid);
      AddingIsFine(c, mid, a.sid, t, heads, tunnels);
      SameSessions(c, mid.(sessions := s'.sessions), s', heads, tunnels);
    }
  }

  lemma StillRoom(c: Config, s: State, s': State, sid: nat)
    requires Shrinks(s, s') && sid in s'.sessions && RoomInSession(c, s, sid)
    requires RoomInAccount(s, s.sessions[sid].account, s.sessions[sid].maxTunnels)
    ensures RoomInSession(c, s', sid) && RoomInAccount(s', s'.sessions[sid].account, s'.sessions[sid].maxTunnels)
  {
    Smaller(s'.sessions[sid].tunnels.Keys, s.sessions[sid].tunnels.Keys);
    Smaller(OfAccount(s', s.sessions[sid].account), OfAccount(s, s.sessions[sid].account));
  }

  lemma SameSessions(c: Config, s: State, s': State, heads: nat -> nat, tunnels: nat -> nat)
    requires InLimits(c, s, heads, tunnels) && s'.sessions == s.sessions
    ensures InLimits(c, s', heads, tunnels)
  {
    forall account: nat
      ensures HeadsOf(s', account) == HeadsOf(s, account) && OfAccount(s', account) == OfAccount(s, account)
    {
    }
  }

  lemma OthersShrink(c: Config, s: State, a: Action)
    requires c.Valid() && !a.Login? && !a.Ask?
    ensures Shrinks(s, Next(c, s, a))
  {
  }

  lemma StepIsFine(c: Config, s: State, a: Action, heads: nat -> nat, tunnels: nat -> nat)
    requires Inv(c, s) && InLimits(c, s, heads, tunnels) && CanDo(s, a) && Fixed([a], heads, tunnels)
    ensures InLimits(c, Next(c, s, a), heads, tunnels)
  {
    assert c.Valid();
    hide InLimits, Inv;
    match a {
      case Login(_, _, _, _) =>
        assert [a][0] == a;
        LoginIsFine(c, s, a, heads, tunnels);
      case Ask(_, _, _, _, _, _) => AskIsFine(c, s, a, heads, tunnels);
      case _ =>
        OthersShrink(c, s, a);
        ShrinkingIsFine(c, s, Next(c, s, a), heads, tunnels);
    }
  }

  lemma {:induction false} RunIsFine(c: Config, s: State, run: seq<Action>, heads: nat -> nat, tunnels: nat -> nat)
    requires Inv(c, s) && InLimits(c, s, heads, tunnels) && Run(c, s, run) && Fixed(run, heads, tunnels)
    ensures InLimits(c, Final(c, s, run), heads, tunnels)
    decreases |run|
  {
    if run != [] {
      assert Fixed([run[0]], heads, tunnels);
      NextKeepsInv(c, s, run[0]);
      StepIsFine(c, s, run[0], heads, tunnels);
      assert forall i | 0 <= i < |run| - 1 :: run[1..][i] == run[i + 1];
      RunIsFine(c, Next(c, s, run[0]), run[1..], heads, tunnels);
    }
  }

  /** In every run no account has more sessions, nor more tunnels, than its limits allow, and no session
      more tunnels than the server's limit. */
  lemma NoLimitExceeded(c: Config, run: seq<Action>, heads: nat -> nat, tunnels: nat -> nat)
    requires c.Valid() && Run(c, Start(c), run) && Fixed(run, heads, tunnels)
    ensures var s := Final(c, Start(c), run);
            && (forall account: nat | heads(account) > 0 :: |HeadsOf(s, account)| <= heads(account))
            && (forall account: nat | tunnels(account) > 0 :: |OfAccount(s, account)| <= tunnels(account))
            && (forall sid | sid in s.sessions :: |s.sessions[sid].tunnels| <= c.maxTunnelsPerSession)
  {
    NothingYet(c, heads, tunnels);
    RunIsFine(c, Start(c), run, heads, tunnels);
  }

  lemma NothingYet(c: Config, heads: nat -> nat, tunnels: nat -> nat)
    requires c.Valid()
    ensures InLimits(c, Start(c), heads, tunnels)
  {
    forall account: nat
      ensures HeadsOf(Start(c), account) == {} && OfAccount(Start(c), account) == {}
    {
    }
  }

  /** A login is let in if and only if the account has no limit or is below it; the session then has no
      tunnels, belongs to the account and has not said goodbye. Otherwise nothing changes. */
  lemma LoginBelowLimit(s: State, sid: nat, account: nat, maxSessions: nat, maxTunnels: nat)
    ensures var (s', ok) := AfterLogin(s, sid, account, maxSessions, maxTunnels);
            && (ok <==> maxSessions == 0 || |HeadsOf(s, account)| < maxSessions)
            && s' == if ok then s.(sessions := s.sessions[sid := Session(account, maxTunnels, map[], false)]) else s
  {
    assert SessionsOf(s.sessions, account) == HeadsOf(s, account);
  }
}
