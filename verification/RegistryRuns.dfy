/** Runs of the server, one step per handler: the tables agree in every state they reach. */
module RegistryRuns {
  import opened Names
  import opened Ports
  import opened Registry

  datatype Action =
    | Login(sid: nat, account: nat, maxSessions: nat, maxTunnels: nat)
    | Ask(sid: nat, account: nat, maxTunnels: nat, req: Request, tid: nat, now: int)
    | Close(sid: nat, tid: nat)
    | GoAway(sid: nat)
    | Remove(sid: nat, now: int)
    | Sweep(now: int)
    | Restart(stopped: int, started: int)

  /** Session and tunnel identifiers are fresh, and a session's requests come under its own login. */
  predicate CanDo(s: State, a: Action) {
    match a
    case Login(sid, _, _, _) => sid !in s.sessions
    case Ask(sid, account, maxTunnels, _, tid, _) =>
      sid in s.sessions ==>
        && account == s.sessions[sid].account && maxTunnels == s.sessions[sid].maxTunnels
        && tid !in s.sessions[sid].tunnels
    case _ => true
  }

  function Next(c: Config, s: State, a: Action): State
    requires c.Valid()
  {
    match a
    case Login(sid, account, maxSessions, maxTunnels) => AfterLogin(s, sid, account, maxSessions, maxTunnels).0
    case Ask(sid, account, maxTunnels, req, tid, now) => AfterAsk(c, s, sid, account, maxTunnels, req, tid, now).0
    case Close(sid, tid) => AfterClose(s, sid, tid).0
    case GoAway(sid) => AfterGoAway(s, sid)
    case Remove(sid, now) => AfterRemove(c, s, sid, now)
    case Sweep(now) => AfterSweep(s, now)
    case Restart(stopped, started) => AfterRestart(c, s, stopped, started)
  }

  // ----- Every step keeps the invariant -----

  lemma FewerHolds(c: Config, s: State, held: map<string, Hold>)
    requires Inv(c, s) && forall n | n in held :: n in s.held
    ensures Inv(c, s.(held := held))
  {
    SameTables(c, s, s.(held := held));
  }

  lemma SameTables(c: Config, s: State, s': State)
    requires s'.sessions == s.sessions && s'.tunnels == s.tunnels && s'.ports == s.ports
    ensures SessionsAgree(c, s) ==> SessionsAgree(c, s')
    ensures EntriesAgree(c, s) ==> EntriesAgree(c, s')
    ensures PortsAgree(s) ==> PortsAgree(s')
  {
    if SessionsAgree(c, s) {
      forall sid, id | sid in s.sessions && id in s.sessions[sid].tunnels
        ensures Stored(c, s', s.sessions[sid].tunnels[id])
      {
        assert Stored(c, s, s.sessions[sid].tunnels[id]);
      }
    }
    if EntriesAgree(c, s) {
      forall k | k in s.tunnels
        ensures Live(s', s.tunnels[k])
      {
        assert Live(s, s.tunnels[k]);
      }
    }
  }

  /** Sessions may be added or change anything but their tunnels and account. */
  lemma SameTunnels(c: Config, s: State, s': State)
    requires Inv(c, s) && s'.tunnels == s.tunnels && s'.ports == s.ports && s'.held == s.held
    requires s.sessions.Keys <= s'.sessions.Keys
    requires forall sid | sid in s.sessions ::
      s'.sessions[sid].tunnels == s.sessions[sid].tunnels && s'.sessions[sid].account == s.sessions[sid].account
    requires forall sid | sid in s'.sessions && sid !in s.sessions :: s'.sessions[sid].tunnels == map[]
    ensures Inv(c, s')
  {
    forall sid, id | sid in s'.sessions && id in s'.sessions[sid].tunnels
      ensures var t := s'.sessions[sid].tunnels[id];
              t.id == id && t.session == sid && t.account == s'.sessions[sid].account && Stored(c, s', t)
    {
      assert sid in s.sessions;
      assert Stored(c, s, s.sessions[sid].tunnels[id]);
    }
    forall k | k in s'.tunnels
      ensures Live(s', s'.tunnels[k])
    {
      assert Live(s, s.tunnels[k]);
    }
  }

  lemma CloseIsDrop(c: Config, s: State, sid: nat, tid: nat)
    requires Inv(c, s) && sid in s.sessions && tid in s.sessions[sid].tunnels
    ensures var t := s.sessions[sid].tunnels[tid];
            Live(s, t) && t.session == sid && AfterClose(s, sid, tid) == (Drop(s, t), true)
  {
  }

  /** The tunnel's session may have ended since its port was bound. */
  lemma BoundKeepsInv(c: Config, s: State, t: Tunnel, maxTunnels: nat)
    requires Inv(c, s) && t.kind.Tcp? && c.range.Has(t.kind.port) && t.kind.port !in s.ports
    requires t.session in s.sessions ==>
      t.account == s.sessions[t.session].account && t.id !in s.sessions[t.session].tunnels
    ensures Inv(c, AfterBound(c, s, t, maxTunnels).0)
  {
    if AfterBound(c, s, t, maxTunnels).1.Created? {
      assert TcpKey(t.kind.port) !in s.tunnels;
      AddKeepsInv(c, s, t);
    }
  }

  lemma TcpKeepsInv(c: Config, s: State, t: Tunnel, maxTunnels: nat, foreign: seq<set<int>>)
    requires Inv(c, s)
    requires t.session in s.sessions ==>
      t.account == s.sessions[t.session].account && t.id !in s.sessions[t.session].tunnels
    ensures Inv(c, AfterTcp(c, s, t, maxTunnels, foreign).0)
  {
    hide Listen;
    ListenKeepsBooks(c.range, s.ports, s.next, foreign, false);
    var (l, _, next) := Listen(c.range, s.ports, s.next, foreign, false);
    var s1 := s.(next := next);
    SameTables(c, s, s1);
    if l.Bound? {
      BoundKeepsInv(c, s1, t.(kind := Tcp(l.port)), maxTunnels);
    }
  }

  lemma HttpKeepsInv(c: Config, s: State, t: Tunnel, reconnect: bool, now: int)
    requires Inv(c, s) && t.session in s.sessions && t.account == s.sessions[t.session].account
    requires t.id !in s.sessions[t.session].tunnels
    requires t.kind.Http? && Proper(c, t.kind)
    requires t.kind.domain.Some? ==> DomainKey(t.kind.domain.value) !in s.tunnels
    ensures Inv(c, AfterHttp(s, t, reconnect, now).0)
  {
    var name := t.kind.name;
    var s1 := s.(held := Asked(s.held, name, now));
    FewerHolds(c, s, s1.held);
    if !HeldByOther(s.held, name, t.account, now) {
      if name !in s.tunnels {
        AddKeepsInv(c, s1, t);
      } else {
        var prior := s.tunnels[name];
        if reconnect && MayTakeOver(prior, t.session, t.account) {
          PriorKey(c, s, prior, name);
          assert Live(s1, prior);
          DropKeepsInv(c, s1, prior);
          AddKeepsInv(c, Drop(s1, prior), t);
        }
      }
    }
  }

  /** What is registered under a valid name is the HTTP tunnel of that name. */
  lemma PriorKey(c: Config, s: State, t: Tunnel, name: string)
    requires EntriesAgree(c, s) && ValidName(name) && name in s.tunnels && s.tunnels[name] == t
    ensures Live(s, t) && t.kind.Http? && t.kind.name == name
  {
    OwnName(c, t.kind, name);
  }

  lemma AskKeepsInv(c: Config, s: State, sid: nat, account: nat, maxTunnels: nat, req: Request, tid: nat, now: int)
    requires Inv(c, s) && CanDo(s, Ask(sid, account, maxTunnels, req, tid, now))
    ensures Inv(c, AfterAsk(c, s, sid, account, maxTunnels, req, tid, now).0)
  {
    if EarlyRefusal(c, s, sid, account, maxTunnels, req).None? {
      if req.wanted.WantTcp? {
        TcpKeepsInv(c, s, Tunnel(tid, sid, account, Tcp(0), req.ttl), maxTunnels, req.wanted.foreign);
      } else if HttpRefusal(s, req.wanted).None? {
        HttpKeepsInv(c, s, Tunnel(tid, sid, account, WantedKind(req.wanted), req.ttl), req.wanted.reconnect, now);
      }
    }
  }

  lemma RemoveKeepsSessions(c: Config, s: State, sid: nat, now: int)
    requires SessionsAgree(c, s) && sid in s.sessions
    ensures SessionsAgree(c, AfterRemove(c, s, sid, now))
  {
    var s' := AfterRemove(c, s, sid, now);
    forall i, id | i in s'.sessions && id in s'.sessions[i].tunnels
      ensures Stored(c, s', s.sessions[i].tunnels[id])
    {
      var t := s.sessions[i].tunnels[id];
      assert Stored(c, s, t) && t.session == i && t.id == id;
    }
  }

  lemma RemoveKeepsEntries(c: Config, s: State, sid: nat, now: int)
    requires EntriesAgree(c, s) && sid in s.sessions
    ensures EntriesAgree(c, AfterRemove(c, s, sid, now))
  {
    var s' := AfterRemove(c, s, sid, now);
    forall k | k in s'.tunnels
      ensures Live(s', s'.tunnels[k]) && Proper(c, s'.tunnels[k].kind) && k in Keys(s'.tunnels[k].kind)
    {
      assert k in s.tunnels && s'.tunnels[k] == s.tunnels[k];
      assert Live(s, s.tunnels[k]);
    }
  }

  lemma RemoveKeepsPorts(c: Config, s: State, sid: nat, now: int)
    requires PortsAgree(s) && PortsInRange(c, s) && sid in s.sessions
    ensures PortsAgree(AfterRemove(c, s, sid, now)) && PortsInRange(c, AfterRemove(c, s, sid, now))
  {
  }

  lemma RemoveKeepsHolds(c: Config, s: State, sid: nat, now: int)
    requires EntriesAgree(c, s) && HoldsAgree(s) && sid in s.sessions
    ensures HoldsAgree(AfterRemove(c, s, sid, now))
  {
    forall n | n in PlainNames(s.tunnels, sid)
      ensures ValidName(n)
    {
      assert Proper(c, s.tunnels[n].kind);
    }
  }

  lemma RemoveKeepsInv(c: Config, s: State, sid: nat, now: int)
    requires Inv(c, s)
    ensures Inv(c, AfterRemove(c, s, sid, now))
  {
    if sid in s.sessions {
      RemoveKeepsSessions(c, s, sid, now);
      RemoveKeepsEntries(c, s, sid, now);
      RemoveKeepsPorts(c, s, sid, now);
      RemoveKeepsHolds(c, s, sid, now);
    }
  }

  lemma RestartKeepsInv(c: Config, s: State, stopped: int, started: int)
    requires Inv(c, s)
    ensures Inv(c, AfterRestart(c, s, stopped, started))
  {
    forall n | n in ConnectedNames(s)
      ensures ValidName(n)
    {
      assert Proper(c, s.tunnels[n].kind);
    }
  }

  lemma LoginKeepsInv(c: Config, s: State, sid: nat, account: nat, maxSessions: nat, maxTunnels: nat)
    requires Inv(c, s) && sid !in s.sessions
    ensures Inv(c, AfterLogin(s, sid, account, maxSessions, maxTunnels).0)
  {
    var s' := AfterLogin(s, sid, account, maxSessions, maxTunnels).0;
    assert s'.sessions.Keys <= s.sessions.Keys + {sid};
    assert sid in s'.sessions ==> s'.sessions[sid].tunnels == map[];
    hide Inv;
    SameTunnels(c, s, s');
  }

  lemma CloseKeepsInv(c: Config, s: State, sid: nat, tid: nat)
    requires Inv(c, s)
    ensures Inv(c, AfterClose(s, sid, tid).0)
  {
    if sid in s.sessions && tid in s.sessions[sid].tunnels {
      CloseIsDrop(c, s, sid, tid);
      DropKeepsInv(c, s, s.sessions[sid].tunnels[tid]);
    }
  }

  lemma GoAwayKeepsInv(c: Config, s: State, sid: nat)
    requires Inv(c, s)
    ensures Inv(c, AfterGoAway(s, sid))
  {
    SameTunnels(c, s, AfterGoAway(s, sid));
  }

  lemma SweepKeepsInv(c: Config, s: State, now: int)
    requires Inv(c, s)
    ensures Inv(c, AfterSweep(s, now))
  {
    FewerHolds(c, s, AfterSweep(s, now).held);
  }

  lemma NextKeepsInv(c: Config, s: State, a: Action)
    requires Inv(c, s) && CanDo(s, a)
    ensures Inv(c, Next(c, s, a))
  {
    hide Inv, AfterLogin, AfterAsk, AfterClose, AfterRemove, AfterRestart;
    match a {
      case Login(sid, account, maxSessions, maxTunnels) => LoginKeepsInv(c, s, sid, account, maxSessions, maxTunnels);
      case Ask(sid, account, maxTunnels, req, tid, now) => AskKeepsInv(c, s, sid, account, maxTunnels, req, tid, now);
      case Close(sid, tid) => CloseKeepsInv(c, s, sid, tid);
      case GoAway(sid) => GoAwayKeepsInv(c, s, sid);
      case Remove(sid, now) => RemoveKeepsInv(c, s, sid, now);
      case Sweep(now) => SweepKeepsInv(c, s, now);
      case Restart(stopped, started) => RestartKeepsInv(c, s, stopped, started);
    }
  }

  // ----- Runs -----

  ghost predicate Run(c: Config, s: State, run: seq<Action>)
    requires c.Valid()
    decreases |run|
  {
    run == [] || (CanDo(s, run[0]) && Run(c, Next(c, s, run[0]), run[1..]))
  }

  function Final(c: Config, s: State, run: seq<Action>): State
    requires c.Valid()
    decreases |run|
  {
    if run == [] then s else Final(c, Next(c, s, run[0]), run[1..])
  }

  lemma {:induction false} RunKeepsInv(c: Config, s: State, run: seq<Action>)
    requires Inv(c, s) && Run(c, s, run)
    ensures Inv(c, Final(c, s, run))
    decreases |run|
  {
    if run != [] {
      NextKeepsInv(c, s, run[0]);
      RunKeepsInv(c, Next(c, s, run[0]), run[1..]);
    }
  }

  /** In every state a server reaches, each tunnel of a live session is what is registered under each
      of its keys, each entry is one live tunnel's, the ports taken are those of the live TCP
      tunnels, and no name is both held and registered. */
  lemma TablesAgree(c: Config, run: seq<Action>)
    requires c.Valid() && Run(c, Start(c), run)
    ensures var s := Final(c, Start(c), run);
            && (forall sid, id | sid in s.sessions && id in s.sessions[sid].tunnels ::
                 forall k | k in Keys(s.sessions[sid].tunnels[id].kind) ::
                   k in s.tunnels && s.tunnels[k] == s.sessions[sid].tunnels[id])
            && (forall k | k in s.tunnels :: k in Keys(s.tunnels[k].kind) && Live(s, s.tunnels[k]))
            && (forall p: nat :: p in s.ports <==> TcpKey(p) in s.tunnels)
            && (forall n | n in s.held :: n !in s.tunnels)
  {
    RunKeepsInv(c, Start(c), run);
    var s := Final(c, Start(c), run);
    forall sid, id | sid in s.sessions && id in s.sessions[sid].tunnels
      ensures Stored(c, s, s.sessions[sid].tunnels[id])
    {
    }
  }
}
