/** Who can end a registration, and what becomes of a name whose client dropped off. */
module NameSafety {
  import opened Base
  import opened Names
  import opened Ports
  import opened Registry
  import opened RegistryRuns

  // ----- Entries -----

  /** The actions that end the registration under a key: closing its tunnel, the end of its session,
      a restart, and the same account reclaiming the name from another session. */
  predicate Ends(s: State, a: Action, k: string)
    requires k in s.tunnels
  {
    var t := s.tunnels[k];
    match a
    case Close(sid, tid) => sid == t.session && tid == t.id
    case Remove(sid, _) => sid == t.session
    case Restart(_, _) => true
    case Ask(sid, account, _, req, _, _) =>
      && req.wanted.WantHttp? && req.wanted.reconnect
      && t.kind == Http(WantedName(req.wanted), None) && MayTakeOver(t, sid, account)
    case _ => false
  }

  lemma DropLeavesOthers(c: Config, s: State, t: Tunnel, k: string)
    requires Inv(c, s) && Live(s, t) && k in s.tunnels && s.tunnels[k] != t
    ensures k !in Keys(t.kind)
  {
    LiveIsStored(c, s, t);
  }

  lemma HttpLeavesOthers(c: Config, s: State, t: Tunnel, reconnect: bool, now: int, k: string)
    requires Inv(c, s) && t.session in s.sessions && t.kind.Http? && Proper(c, t.kind)
    requires t.kind.domain.Some? ==> DomainKey(t.kind.domain.value) !in s.tunnels
    requires k in s.tunnels
    requires !(reconnect && s.tunnels[k].kind == Http(t.kind.name, None)
               && MayTakeOver(s.tunnels[k], t.session, t.account))
    ensures var s' := AfterHttp(s, t, reconnect, now).0; k in s'.tunnels && s'.tunnels[k] == s.tunnels[k]
  {
    var name := t.kind.name;
    var s1 := s.(held := Asked(s.held, name, now));
    if name in s.tunnels {
      var prior := s.tunnels[name];
      PriorKey(c, s, prior, name);
      if reconnect && MayTakeOver(prior, t.session, t.account) {
        DropLeavesOthers(c, s, prior, k);
        AddLeavesOthers(c, Drop(s1, prior), t, k);
      }
    } else {
      AddLeavesOthers(c, s1, t, k);
    }
  }

  lemma AddLeavesOthers(c: Config, s: State, t: Tunnel, k: string)
    requires t.session in s.sessions && t.kind.Http? && t.kind.name !in s.tunnels && k in s.tunnels
    requires t.kind.domain.Some? ==> DomainKey(t.kind.domain.value) !in s.tunnels
    ensures k in Add(s, t).tunnels && Add(s, t).tunnels[k] == s.tunnels[k]
  {
  }

  lemma AskLeavesOthers(c: Config, s: State, a: Action, k: string)
    requires Inv(c, s) && CanDo(s, a) && a.Ask? && k in s.tunnels && !Ends(s, a, k)
    ensures var s' := Next(c, s, a); k in s'.tunnels && s'.tunnels[k] == s.tunnels[k]
  {
    var Ask(sid, account, maxTunnels, req, tid, now) := a;
    if EarlyRefusal(c, s, sid, account, maxTunnels, req).None? {
      if req.wanted.WantTcp? {
        TcpLeavesOthers(c, s, Tunnel(tid, sid, account, Tcp(0), req.ttl), maxTunnels, req.wanted.foreign, k);
      } else if HttpRefusal(s, req.wanted).None? {
        HttpLeavesOthers(c, s, Tunnel(tid, sid, account, WantedKind(req.wanted), req.ttl),
                         req.wanted.reconnect, now, k);
      }
    }
  }

  lemma TcpLeavesOthers(c: Config, s: State, t: Tunnel, maxTunnels: nat, foreign: seq<set<int>>, k: string)
    requires Inv(c, s) && k in s.tunnels
    ensures var s' := AfterTcp(c, s, t, maxTunnels, foreign).0; k in s'.tunnels && s'.tunnels[k] == s.tunnels[k]
  {
    assert PortsAgree(s);
    hide Listen, AfterBound, Inv, PortsAgree;
    ListenKeepsBooks(c.range, s.ports, s.next, foreign, false);
    var (l, _, next) := Listen(c.range, s.ports, s.next, foreign, false);
    if l.Bound? {
      SameTables(c, s, s.(next := next));
      BoundLeavesOthers(c, s.(next := next), t.(kind := Tcp(l.port)), maxTunnels, k);
    }
  }

  lemma BoundLeavesOthers(c: Config, s: State, t: Tunnel, maxTunnels: nat, k: string)
    requires PortsAgree(s) && t.kind.Tcp? && t.kind.port !in s.ports && k in s.tunnels
    ensures var s' := AfterBound(c, s, t, maxTunnels).0; k in s'.tunnels && s'.tunnels[k] == s.tunnels[k]
  {
    hide AtAccountLimit, AtSessionLimit;
    assert TcpKey(t.kind.port) !in s.tunnels;
  }

  /** Nothing else touches it: in particular no teardown, though it deletes by key, removes another
      tunnel's entry. */
  lemma EntryIsKept(c: Config, s: State, a: Action, k: string)
    requires Inv(c, s) && CanDo(s, a) && k in s.tunnels && !Ends(s, a, k)
    ensures var s' := Next(c, s, a); k in s'.tunnels && s'.tunnels[k] == s.tunnels[k]
  {
    match a {
      case Ask(_, _, _, _, _, _) => AskLeavesOthers(c, s, a, k);
      case Close(sid, tid) => CloseLeavesOthers(c, s, sid, tid, k);
      case Remove(sid, now) => RemoveLeavesOthers(c, s, sid, now, k);
      case _ =>
    }
  }

  lemma CloseLeavesOthers(c: Config, s: State, sid: nat, tid: nat, k: string)
    requires Inv(c, s) && k in s.tunnels && !(sid == s.tunnels[k].session && tid == s.tunnels[k].id)
    ensures var s' := AfterClose(s, sid, tid).0; k in s'.tunnels && s'.tunnels[k] == s.tunnels[k]
  {
    if sid in s.sessions && tid in s.sessions[sid].tunnels {
      CloseIsDrop(c, s, sid, tid);
      DropLeavesOthers(c, s, s.sessions[sid].tunnels[tid], k);
    }
  }

  lemma RemoveLeavesOthers(c: Config, s: State, sid: nat, now: int, k: string)
    requires Inv(c, s) && k in s.tunnels && sid != s.tunnels[k].session
    ensures var s' := AfterRemove(c, s, sid, now); k in s'.tunnels && s'.tunnels[k] == s.tunnels[k]
  {
  }

  /** A reclaimed name belongs to the new tunnel: the end of the session it was taken from neither
      frees nor holds it. */
  lemma ReclaimedNameStays(c: Config, s: State, a: Action, later: int)
    requires Inv(c, s) && CanDo(s, a) && a.Ask? && a.req.wanted.WantHttp?
    requires AfterAsk(c, s, a.sid, a.account, a.maxTunnels, a.req, a.tid, a.now).1.Created?
    requires WantedName(a.req.wanted) in s.tunnels
    ensures var name := WantedName(a.req.wanted);
            var from := s.tunnels[name].session;
            var s' := AfterRemove(c, Next(c, s, a), from, later);
            && from != a.sid && name !in s'.held
            && name in s'.tunnels && s'.tunnels[name].session == a.sid && s'.tunnels[name].id == a.tid
  {
    var name := WantedName(a.req.wanted);
    var from := s.tunnels[name].session;
    NextKeepsInv(c, s, a);
    RemoveLeavesOthers(c, Next(c, s, a), from, later, name);
    RemoveKeepsInv(c, Next(c, s, a), from, later);
  }

  // ----- Names -----

  /** The name is the account's: on hold for it at least until then, or registered by it. */
  predicate Guarded(s: State, name: string, account: nat, until: int) {
    || (name in s.held && s.held[name].account == account && s.held[name].until >= until)
    || (name in s.tunnels && s.tunnels[name].account == account)
  }

  /** Its owner lets go of the name: closing the tunnel, or ending the session - or the server
      stopping - when the client has said goodbye or the tunnel has a custom domain. */
  predicate Releases(s: State, a: Action, name: string) {
    && name in s.tunnels
    && var t := s.tunnels[name];
       match a
       case Close(sid, tid) => sid == t.session && tid == t.id
       case Remove(sid, _) => sid == t.session && LetsGo(s, t)
       case Restart(_, _) => LetsGo(s, t)
       case _ => false
  }

  predicate LetsGo(s: State, t: Tunnel) {
    !Plain(t.kind) || (t.session in s.sessions && s.sessions[t.session].goAway)
  }

  /** The times an action happens at lie in a period; a restart must be over before its end, and only
      a file of holds carries a name across it. */
  predicate Within(c: Config, a: Action, from: int, until: int) {
    match a
    case Ask(_, _, _, _, _, now) => from <= now <= until
    case Remove(_, now) => from <= now
    case Sweep(now) => from <= now <= until
    case Restart(stopped, started) => c.keepsFile && from <= stopped <= started < until
    case _ => true
  }

  /** A dropped session's plain names go on hold for its account, for the whole grace period. */
  lemma DropGuards(c: Config, s: State, sid: nat, now: int, name: string)
    requires Inv(c, s) && c.grace > 0 && name in s.tunnels && s.tunnels[name].session == sid && ValidName(name)
    requires !LetsGo(s, s.tunnels[name])
    ensures Guarded(AfterRemove(c, s, sid, now), name, s.tunnels[name].account, now + c.grace)
  {
    var t := s.tunnels[name];
    PriorKey(c, s, t, name);
    LiveIsStored(c, s, t);
    assert name in PlainNames(s.tunnels, sid);
  }

  /** A stop writes down the connected names if there is a file for them, and a start in time reads
      them back: that, and nothing less, carries a name over. */
  lemma RestartGuards(c: Config, s: State, stopped: int, started: int, name: string)
    requires Inv(c, s) && c.grace > 0 && name in s.tunnels && ValidName(name) && !LetsGo(s, s.tunnels[name])
    ensures Guarded(AfterRestart(c, s, stopped, started), name, s.tunnels[name].account, stopped + c.grace) <==>
            c.keepsFile && started < stopped + c.grace
  {
    PriorKey(c, s, s.tunnels[name], name);
    assert name in ConnectedNames(s);
  }

  lemma HoldIsGuarded(c: Config, s: State, a: Action, name: string, account: nat, from: int, until: int)
    requires Inv(c, s) && CanDo(s, a) && Within(c, a, from, until)
    requires c.grace > 0
    requires name in s.held && s.held[name].account == account && s.held[name].until >= until
    ensures Guarded(Next(c, s, a), name, account, until)
  {
    match a {
      case Ask(sid, acct, maxTunnels, req, tid, now) =>
        AskGuards(c, s, a, name, account, until);
      case Remove(sid, now) =>
        assert name !in PlainNames(s.tunnels, sid);
      case Restart(stopped, started) =>
        assert name !in ConnectedNames(s);
      case _ =>
    }
  }

  /** While a hold lasts only its account can have the name. */
  lemma AskGuards(c: Config, s: State, a: Action, name: string, account: nat, until: int)
    requires Inv(c, s) && CanDo(s, a) && a.Ask? && a.now <= until
    requires name in s.held && s.held[name].account == account && s.held[name].until >= until
    ensures Guarded(Next(c, s, a), name, account, until)
  {
    var Ask(sid, acct, maxTunnels, req, tid, now) := a;
    if EarlyRefusal(c, s, sid, acct, maxTunnels, req).None? {
      if req.wanted.WantTcp? {
        HeldAcrossTcp(c, s, Tunnel(tid, sid, acct, Tcp(0), req.ttl), maxTunnels, req.wanted.foreign);
      } else if HttpRefusal(s, req.wanted).None? {
        HeldAcrossHttp(s, Tunnel(tid, sid, acct, WantedKind(req.wanted), req.ttl), req.wanted.reconnect, now, name);
      }
    }
  }

  lemma HeldAcrossTcp(c: Config, s: State, t: Tunnel, maxTunnels: nat, foreign: seq<set<int>>)
    requires c.Valid()
    ensures AfterTcp(c, s, t, maxTunnels, foreign).0.held == s.held
  {
  }

  lemma HeldAcrossHttp(s: State, t: Tunnel, reconnect: bool, now: int, name: string)
    requires t.kind.Http? && t.session in s.sessions && name in s.held && now <= s.held[name].until
    ensures var s' := AfterHttp(s, t, reconnect, now).0;
            || (name in s'.held && s'.held[name] == s.held[name])
            || (name in s'.tunnels && s'.tunnels[name] == t && t.account == s.held[name].account)
  {
  }

  lemma EntryIsGuarded(c: Config, s: State, a: Action, name: string, account: nat, from: int, until: int)
    requires Inv(c, s) && CanDo(s, a) && Within(c, a, from, until) && ValidName(name)
    requires c.grace > 0 && until <= from + c.grace
    requires name in s.tunnels && s.tunnels[name].account == account && !Releases(s, a, name)
    ensures Guarded(Next(c, s, a), name, account, until)
  {
    if !Ends(s, a, name) {
      EntryIsKept(c, s, a, name);
    } else {
      match a {
        case Remove(sid, now) => DropGuards(c, s, sid, now, name);
        case Restart(stopped, started) => RestartGuards(c, s, stopped, started, name);
        case Ask(_, _, _, _, _, _) => TakeOverGuards(c, s, a, name);
        case _ => assert false;
      }
    }
  }

  lemma TakeOverGuards(c: Config, s: State, a: Action, name: string)
    requires Inv(c, s) && CanDo(s, a) && a.Ask? && name in s.tunnels && Ends(s, a, name) && ValidName(name)
    ensures var s' := Next(c, s, a); name in s'.tunnels && s'.tunnels[name].account == s.tunnels[name].account
  {
    PriorKey(c, s, s.tunnels[name], name);
  }

  ghost predicate Kept(c: Config, s: State, run: seq<Action>, name: string, from: int, until: int)
    requires c.Valid()
    decreases |run|
  {
    run != [] ==>
      && Within(c, run[0], from, until) && !Releases(s, run[0], name)
      && Kept(c, Next(c, s, run[0]), run[1..], name, from, until)
  }

  /** Once the name is its owner's for the grace period it stays so - held, or registered again by
      the owner - through any run in that period in which the owner does not release it, restarts
      included: no other account's tunnel is ever registered under it. */
  lemma {:induction false} NameIsSafe(c: Config, s: State, run: seq<Action>, name: string, account: nat, from: int,
                                      until: int)
    requires Inv(c, s) && Run(c, s, run) && ValidName(name)
    requires c.grace > 0 && until <= from + c.grace
    requires Guarded(s, name, account, until) && Kept(c, s, run, name, from, until)
    ensures var s' := Final(c, s, run);
            Guarded(s', name, account, until) && (name in s'.tunnels ==> s'.tunnels[name].account == account)
    decreases |run|
  {
    if run != [] {
      var a := run[0];
      NextKeepsInv(c, s, a);
      if name in s.tunnels {
        assert s.tunnels[name].account == account by { assert name !in s.held || name !in s.tunnels; }
        EntryIsGuarded(c, s, a, name, account, from, until);
      } else {
        HoldIsGuarded(c, s, a, name, account, from, until);
      }
      NameIsSafe(c, Next(c, s, a), run[1..], name, account, from, until);
    }
  }

  /** The client serving the name is lost without a goodbye, or the server stops and, with a
      file of holds, starts again in time. */
  predicate Loses(c: Config, s: State, a: Action, name: string) {
    && name in s.tunnels && !LetsGo(s, s.tunnels[name])
    && match a
       case Remove(sid, _) => sid == s.tunnels[name].session
       case Restart(stopped, started) => c.keepsFile && started < stopped + c.grace
       case _ => false
  }

  function LossTime(a: Action): int
    requires a.Remove? || a.Restart?
  {
    if a.Remove? then a.now else a.stopped
  }

  lemma LossGuards(c: Config, s: State, a: Action, name: string)
    requires Inv(c, s) && Loses(c, s, a, name) && c.grace > 0 && ValidName(name)
    ensures Guarded(Next(c, s, a), name, s.tunnels[name].account, LossTime(a) + c.grace)
  {
    match a {
      case Remove(sid, now) => DropGuards(c, s, sid, now, name);
      case Restart(stopped, started) => RestartGuards(c, s, stopped, started, name);
    }
  }

  /** A client that is lost keeps its name: in the grace period that follows, however the run goes on,
      no other account is registered under it unless the owner releases it. */
  lemma LostNameIsSafe(c: Config, s: State, run: seq<Action>, name: string, from: int, until: int)
    requires Inv(c, s) && Run(c, s, run) && ValidName(name) && c.grace > 0
    requires run != [] && Loses(c, s, run[0], name) && from == LossTime(run[0]) && until == from + c.grace
    requires Kept(c, Next(c, s, run[0]), run[1..], name, from, until)
    ensures var s', account := Final(c, s, run), s.tunnels[name].account;
            && Inv(c, s') && Guarded(s', name, account, until)
            && (name in s'.tunnels ==> s'.tunnels[name].account == account)
  {
    var a := run[0];
    NextKeepsInv(c, s, a);
    LossGuards(c, s, a, name);
    NameIsSafe(c, Next(c, s, a), run[1..], name, s.tunnels[name].account, from, until);
    RunKeepsInv(c, s, run);
  }

  /** And the owner gets it back: at any time in that period a request of its account that passes the
      checks is granted, unless a tunnel of its own has the name that may not be taken over. */
  lemma OwnerGetsItBack(c: Config, s: State, run: seq<Action>, name: string, from: int, until: int, a: Action)
    requires Inv(c, s) && Run(c, s, run) && ValidName(name) && c.grace > 0
    requires run != [] && Loses(c, s, run[0], name) && from == LossTime(run[0]) && until == from + c.grace
    requires Kept(c, Next(c, s, run[0]), run[1..], name, from, until)
    requires var s' := Final(c, s, run);
             && CanDo(s', a) && a.Ask? && a.account == s.tunnels[name].account && a.now <= until
             && a.req.wanted.WantHttp? && WantedName(a.req.wanted) == name
             && EarlyRefusal(c, s', a.sid, a.account, a.maxTunnels, a.req).None?
             && HttpRefusal(s', a.req.wanted).None?
    ensures var s' := Final(c, s, run);
            var reply := AfterAsk(c, s', a.sid, a.account, a.maxTunnels, a.req, a.tid, a.now).1;
            && (name in s'.tunnels ==> s'.tunnels[name].account == a.account)
            && (reply.Created? <==>
                  || name !in s'.tunnels
                  || (a.req.wanted.reconnect && MayTakeOver(s'.tunnels[name], a.sid, a.account)))
  {
    hide Run, Kept, Final;
    LostNameIsSafe(c, s, run, name, from, until);
    OwnerReclaims(c, Final(c, s, run), a, until);
  }

  lemma OwnerReclaims(c: Config, s: State, a: Action, until: int)
    requires Inv(c, s) && CanDo(s, a) && a.Ask? && a.req.wanted.WantHttp? && a.now <= until
    requires EarlyRefusal(c, s, a.sid, a.account, a.maxTunnels, a.req).None? && HttpRefusal(s, a.req.wanted).None?
    requires Guarded(s, WantedName(a.req.wanted), a.account, until)
    ensures var name := WantedName(a.req.wanted);
            AfterAsk(c, s, a.sid, a.account, a.maxTunnels, a.req, a.tid, a.now).1.Created? <==>
            name !in s.tunnels || (a.req.wanted.reconnect && MayTakeOver(s.tunnels[name], a.sid, a.account))
  {
  }

  /** At its last instant a hold survives a sweep, but not a restart that is over only then. */
  lemma HoldEnds(c: Config, s: State, name: string, stopped: int, now: int)
    requires Inv(c, s) && c.keepsFile && c.grace > 0 && name in s.held && stopped <= now
    ensures name in AfterSweep(s, now).held <==> now <= s.held[name].until
    ensures name in AfterRestart(c, s, stopped, now).held <==> now < s.held[name].until
    ensures now <= s.held[name].until ==> AfterSweep(s, now).held[name] == s.held[name]
  {
    assert name !in ConnectedNames(s);
  }

  /** A plain request for the name, and the login it comes under. */
  function Bids(name: string, account: nat, sid: nat, tid: nat, now: int): seq<Action> {
    [Login(sid, account, 0, 0),
     Ask(sid, account, 0, Request(0, true, WantHttp("", name, true, NotAsked, false)), tid, now)]
  }

  /**
   * So the two ways of spending the last instant of the period come out differently: another account
   * that asks for the name after a sweep is refused, and after a restart gets it.
   */
  lemma LastInstant(c: Config, s: State, name: string, stopped: int, account: nat, sid: nat, tid: nat)
    requires Inv(c, s) && c.keepsFile && c.grace > 0 && 0 < c.maxTunnelsPerSession
    requires name in s.held && name !in RESERVED && stopped <= s.held[name].until
    requires account != s.held[name].account && sid !in s.sessions
    ensures var until := s.held[name].until;
            var bids := Bids(name, account, sid, tid, until);
            var swept, restarted := [Sweep(until)] + bids, [Restart(stopped, until)] + bids;
            && Run(c, s, swept) && Run(c, s, restarted)
            && (var s' := Final(c, s, swept); name !in s'.tunnels && name in s'.held && s'.held[name] == s.held[name])
            && (var s' := Final(c, s, restarted); name in s'.tunnels && s'.tunnels[name].account == account)
  {
    var until := s.held[name].until;
    var bids := Bids(name, account, sid, tid, until);
    HoldEnds(c, s, name, stopped, until);
    FirstOf(c, s, Sweep(until), bids);
    FirstOf(c, s, Restart(stopped, until), bids);
    NextKeepsInv(c, s, Sweep(until));
    NextKeepsInv(c, s, Restart(stopped, until));
    BidsOutcome(c, AfterSweep(s, until), name, account, sid, tid, until);
    BidsOutcome(c, AfterRestart(c, s, stopped, until), name, account, sid, tid, until);
  }

  lemma FirstOf(c: Config, s: State, a: Action, rest: seq<Action>)
    requires c.Valid() && CanDo(s, a)
    ensures Final(c, s, [a] + rest) == Final(c, Next(c, s, a), rest)
    ensures Run(c, Next(c, s, a), rest) ==> Run(c, s, [a] + rest)
  {
    assert ([a] + rest)[1..] == rest;
  }

  /** On a free name the request is granted if and only if no other account holds it. */
  lemma BidsOutcome(c: Config, s: State, name: string, account: nat, sid: nat, tid: nat, now: int)
    requires Inv(c, s) && 0 < c.maxTunnelsPerSession && sid !in s.sessions
    requires ValidName(name) && name !in RESERVED && name !in s.tunnels
    ensures var bids := Bids(name, account, sid, tid, now);
            var s' := Final(c, s, bids);
            && Run(c, s, bids)
            && if HeldByOther(s.held, name, account, now)
               then name !in s'.tunnels && name in s'.held && s'.held[name] == s.held[name]
               else name in s'.tunnels && s'.tunnels[name].account == account && s'.tunnels[name].session == sid
  {
    var login, ask := Bids(name, account, sid, tid, now)[0], Bids(name, account, sid, tid, now)[1];
    assert Bids(name, account, sid, tid, now) == [login] + [ask] == [login] + ([ask] + []);
    var s1 := Next(c, s, login);
    FirstOf(c, s1, ask, []);
    FirstOf(c, s, login, [ask] + []);
    assert EarlyRefusal(c, s1, sid, account, 0, ask.req).None?;
    assert HttpRefusal(s1, ask.req.wanted).None?;
  }
}
