/** What the end of a tunnel, of a session or of the server leaves of its names and ports, and what
    difference a goodbye makes. */
module Endings {
  import opened Base
  import opened Names
  import opened Registry
  import opened RegistryRuns
  import opened NameSafety

  // ----- Goodbyes -----

  /** The session goes on, and does not say goodbye unless it may. */
  ghost predicate GoesOn(run: seq<Action>, sid: nat, goodbyes: bool) {
    forall i | 0 <= i < |run| ::
      && !(run[i].Remove? && run[i].sid == sid) && !run[i].Restart?
      && (run[i].GoAway? && run[i].sid == sid ==> goodbyes)
  }

  /** What the table remembers. */
  predicate Remembers(s: State, sid: nat, account: nat, goodbye: bool) {
    sid in s.sessions && s.sessions[sid].account == account && s.sessions[sid].goAway == goodbye
  }

  lemma AskRemembers(c: Config, s: State, a: Action, sid: nat, account: nat, goodbye: bool)
    requires c.Valid() && a.Ask? && Remembers(s, sid, account, goodbye)
    ensures Remembers(Next(c, s, a), sid, account, goodbye)
  {
    hide Remembers, AfterTcp, AfterHttp;
    if EarlyRefusal(c, s, a.sid, a.account, a.maxTunnels, a.req).None? {
      if a.req.wanted.WantTcp? {
        TcpRemembers(c, s, Tunnel(a.tid, a.sid, a.account, Tcp(0), a.req.ttl), a, sid, account, goodbye);
      } else if HttpRefusal(s, a.req.wanted).None? {
        var t := Tunnel(a.tid, a.sid, a.account, WantedKind(a.req.wanted), a.req.ttl);
        HttpRemembers(s, t, a.req.wanted.reconnect, a.now, sid, account, goodbye);
      }
    }
  }

  lemma HttpRemembers(s: State, t: Tunnel, reconnect: bool, now: int, sid: nat, account: nat, goodbye: bool)
    requires t.kind.Http? && t.session in s.sessions && Remembers(s, sid, account, goodbye)
    ensures Remembers(AfterHttp(s, t, reconnect, now).0, sid, account, goodbye)
  {
  }

  lemma TcpRemembers(c: Config, s: State, t: Tunnel, a: Action, sid: nat, account: nat, goodbye: bool)
    requires c.Valid() && a.Ask? && a.req.wanted.WantTcp? && Remembers(s, sid, account, goodbye)
    ensures Remembers(AfterTcp(c, s, t, a.maxTunnels, a.req.wanted.foreign).0, sid, account, goodbye)
  {
    hide AtAccountLimit;
  }

  lemma {:induction false} RunRemembers(c: Config, s: State, run: seq<Action>, sid: nat, account: nat, goodbye: bool)
    requires c.Valid() && Run(c, s, run) && GoesOn(run, sid, goodbye) && Remembers(s, sid, account, goodbye)
    ensures Remembers(Final(c, s, run), sid, account, goodbye)
    decreases |run|
  {
    if run != [] {
      assert forall i | 0 <= i < |run| - 1 :: run[1..][i] == run[i + 1];
      if run[0].Ask? {
        AskRemembers(c, s, run[0], sid, account, goodbye);
      }
      RunRemembers(c, Next(c, s, run[0]), run[1..], sid, account, goodbye);
    }
  }

  /** The client of a live session says goodbye and is gone some time later, or the server stops: none of the
      names it was then served under is on hold, and anybody who asks for one gets it. */
  lemma GoodbyeFreesNames(c: Config, s: State, sid: nat, run: seq<Action>, last: Action)
    requires Inv(c, s) && sid in s.sessions && Run(c, Next(c, s, GoAway(sid)), run) && GoesOn(run, sid, true)
    requires last.Restart? || (last.Remove? && last.sid == sid)
    ensures var s1 := Final(c, Next(c, s, GoAway(sid)), run);
            var s2 := Next(c, s1, last);
            forall name | name in s1.tunnels && s1.tunnels[name].session == sid ::
              name !in s2.tunnels && name !in s2.held
    ensures var s1 := Final(c, Next(c, s, GoAway(sid)), run);
            var s2 := Next(c, s1, last);
            forall name, account: nat, sid': nat, tid: nat, now: int |
              && name in s1.tunnels && s1.tunnels[name].session == sid && ValidName(name)
              && sid' !in s2.sessions && 0 < c.maxTunnelsPerSession ::
              GetsName(c, s2, name, account, sid', tid, now)
  {
    assert c.Valid();
    hide Inv, Run, Final, GetsName;
    var said := Next(c, s, GoAway(sid));
    var s1 := Final(c, said, run);
    NextKeepsInv(c, s, GoAway(sid));
    RunKeepsInv(c, said, run);
    RunRemembers(c, said, run, sid, s.sessions[sid].account, true);
    NextKeepsInv(c, s1, last);
    HoldsDo(c, s1);
    NothingHeld(c, s1, sid, last);
    forall name, account: nat, sid': nat, tid: nat, now: int |
      && name in s1.tunnels && s1.tunnels[name].session == sid && ValidName(name)
      && sid' !in Next(c, s1, last).sessions && 0 < c.maxTunnelsPerSession
      ensures GetsName(c, Next(c, s1, last), name, account, sid', tid, now)
    {
      AnybodyGetsIt(c, s1, Next(c, s1, last), name, account, sid', tid, now);
    }
  }

  lemma HoldsDo(c: Config, s: State)
    requires Inv(c, s)
    ensures HoldsAgree(s)
  {
  }

  lemma NothingHeld(c: Config, s: State, sid: nat, last: Action)
    requires c.Valid() && HoldsAgree(s) && sid in s.sessions && s.sessions[sid].goAway
    requires last.Restart? || (last.Remove? && last.sid == sid)
    ensures var s' := Next(c, s, last);
            forall name | name in s.tunnels && s.tunnels[name].session == sid :: name !in s'.tunnels && name !in s'.held
  {
    if last.Remove? {
      NoneHeld(c, s, sid, last.now);
    } else {
      forall name | name in s.tunnels && s.tunnels[name].session == sid
        ensures name !in Next(c, s, last).tunnels && name !in Next(c, s, last).held
      {
        NotSaved(c, s, last.stopped, last.started, sid, name);
      }
    }
  }

  lemma NoneHeld(c: Config, s: State, sid: nat, now: int)
    requires sid in s.sessions && s.sessions[sid].goAway && forall n | n in s.held :: n !in s.tunnels
    ensures var s' := AfterRemove(c, s, sid, now);
            forall name | name in s.tunnels && s.tunnels[name].session == sid :: name !in s'.tunnels && name !in s'.held
  {
  }

  lemma NotSaved(c: Config, s: State, stopped: int, started: int, sid: nat, name: string)
    requires c.Valid() && HoldsAgree(s) && sid in s.sessions && s.sessions[sid].goAway
    requires name in s.tunnels && s.tunnels[name].session == sid && name !in s.held
    ensures var s' := AfterRestart(c, s, stopped, started); name !in s'.tunnels && name !in s'.held
  {
    SavedWhat(c, s, stopped, name);
    hide Saved;
  }

  lemma AnybodyGetsIt(c: Config, s: State, s': State, name: string, account: nat, sid: nat, tid: nat, now: int)
    requires Inv(c, s) && Inv(c, s') && name in s.tunnels && ValidName(name)
    requires name !in s'.tunnels && name !in s'.held && sid !in s'.sessions && 0 < c.maxTunnelsPerSession
    ensures GetsName(c, s', name, account, sid, tid, now)
  {
    PriorKey(c, s, s.tunnels[name], name);
    assert Proper(c, s.tunnels[name].kind);
    hide Inv, Run, Final;
    BidsOutcome(c, s', name, account, sid, tid, now);
  }

  /** The account logs in, asks for the name, and is served under it. */
  ghost predicate GetsName(c: Config, s: State, name: string, account: nat, sid: nat, tid: nat, now: int)
    requires c.Valid()
  {
    var bids := Bids(name, account, sid, tid, now);
    && Run(c, s, bids)
    && name in Final(c, s, bids).tunnels && Final(c, s, bids).tunnels[name].account == account
    && Final(c, s, bids).tunnels[name].session == sid
  }

  /** It asks in vain. */
  ghost predicate MissesName(c: Config, s: State, name: string, account: nat, sid: nat, tid: nat, now: int)
    requires c.Valid()
  {
    var bids := Bids(name, account, sid, tid, now);
    Run(c, s, bids) && name !in Final(c, s, bids).tunnels
  }

  /** Had the client not said goodbye since it logged in, its plain names would be on hold for the grace
      period, and nobody else would get one in that time. */
  lemma LossHoldsNames(c: Config, s: State, sid: nat, account: nat, maxSessions: nat, maxTunnels: nat,
                       run: seq<Action>, gone: int)
    requires Inv(c, s) && sid !in s.sessions && c.grace > 0
    requires AfterLogin(s, sid, account, maxSessions, maxTunnels).1
    requires var s0 := Next(c, s, Login(sid, account, maxSessions, maxTunnels));
             Run(c, s0, run) && GoesOn(run, sid, false)
    ensures var s1 := Final(c, Next(c, s, Login(sid, account, maxSessions, maxTunnels)), run);
            var s2 := Next(c, s1, Remove(sid, gone));
            forall name |
              name in s1.tunnels && s1.tunnels[name].session == sid && s1.tunnels[name].kind == Http(name, None) ::
              && name !in s2.tunnels && name in s2.held && s2.held[name] == Hold(account, gone + c.grace)
    ensures var s1 := Final(c, Next(c, s, Login(sid, account, maxSessions, maxTunnels)), run);
            var s2 := Next(c, s1, Remove(sid, gone));
            forall name, other: nat, sid': nat, tid: nat, now: int |
              && name in s1.tunnels && s1.tunnels[name].session == sid && s1.tunnels[name].kind == Http(name, None)
              && other != account && now <= gone + c.grace && sid' !in s2.sessions && 0 < c.maxTunnelsPerSession ::
              MissesName(c, s2, name, other, sid', tid, now)
  {
    assert c.Valid();
    hide Inv, Run, Final, MissesName;
    var login := Login(sid, account, maxSessions, maxTunnels);
    var s0 := Next(c, s, login);
    var s1 := Final(c, s0, run);
    var s2 := Next(c, s1, Remove(sid, gone));
    NextKeepsInv(c, s, login);
    RunKeepsInv(c, s0, run);
    RunRemembers(c, s0, run, sid, account, false);
    NextKeepsInv(c, s1, Remove(sid, gone));
    NamesHeld(c, s1, sid, gone);
    forall name, other: nat, sid': nat, tid: nat, now: int |
      && name in s1.tunnels && s1.tunnels[name].session == sid && s1.tunnels[name].kind == Http(name, None)
      && other != account && now <= gone + c.grace && sid' !in s2.sessions && 0 < c.maxTunnelsPerSession
      ensures MissesName(c, s2, name, other, sid', tid, now)
    {
      NobodyElseGetsIt(c, s1, s2, name, other, sid', tid, now);
    }
  }

  lemma NamesHeld(c: Config, s: State, sid: nat, gone: int)
    requires Inv(c, s) && sid in s.sessions && !s.sessions[sid].goAway && c.grace > 0
    ensures var s' := Next(c, s, Remove(sid, gone));
            forall name |
              name in s.tunnels && s.tunnels[name].session == sid && s.tunnels[name].kind == Http(name, None) ::
              name !in s'.tunnels && name in s'.held && s'.held[name] == Hold(s.sessions[sid].account, gone + c.grace)
  {
    assert c.Valid();
    hide Inv, Stored, Live;
    assert s.held + HoldAll(PlainNames(s.tunnels, sid), s.sessions[sid].account, gone + c.grace) ==
           Next(c, s, Remove(sid, gone)).held;
  }

  lemma NobodyElseGetsIt(c: Config, s: State, s': State, name: string, other: nat, sid: nat, tid: nat, now: int)
    requires Inv(c, s) && Inv(c, s') && name in s.tunnels && s.tunnels[name].kind == Http(name, None)
    requires name !in s'.tunnels && name in s'.held && s'.held[name].account != other && now <= s'.held[name].until
    requires sid !in s'.sessions && 0 < c.maxTunnelsPerSession
    ensures MissesName(c, s', name, other, sid, tid, now)
  {
    assert Proper(c, s.tunnels[name].kind);
    hide Inv, Run, Final;
    BidsOutcome(c, s', name, other, sid, tid, now);
  }

  // ----- Tunnels, sessions and the server -----

  /** The tunnel's name, domain or port are nobody's and not on hold. */
  ghost predicate Free(s: State, kind: Kind) {
    match kind
    case Http(name, domain) =>
      name !in s.tunnels && name !in s.held && (domain.Some? ==> "domain:" + domain.value !in s.tunnels)
    case Tcp(port) => "tcp:" + Itoa(port) !in s.tunnels && port !in s.ports
  }

  /** Closing a tunnel takes it out of its session and frees all that was its own, at once. */
  lemma CloseFrees(c: Config, s: State, sid: nat, tid: nat)
    requires Inv(c, s) && sid in s.sessions && tid in s.sessions[sid].tunnels
    ensures var t, s' := s.sessions[sid].tunnels[tid], Next(c, s, Close(sid, tid));
            && Free(s', t.kind) && AfterClose(s, sid, tid).1
            && sid in s'.sessions && s'.sessions[sid].tunnels == s.sessions[sid].tunnels - {tid}
            && (forall i | i in s.sessions && i != sid :: i in s'.sessions && s'.sessions[i] == s.sessions[i])
            && (forall k | k in s.tunnels && s.tunnels[k] != t :: k in s'.tunnels && s'.tunnels[k] == s.tunnels[k])
            && s'.held == s.held
  {
    var t := s.sessions[sid].tunnels[tid];
    CloseIsDrop(c, s, sid, tid);
    LiveIsStored(c, s, t);
    forall k | k in s.tunnels && s.tunnels[k] != t
      ensures k !in Keys(t.kind)
    {
    }
    if t.kind.Http? {
      assert t.kind.name in Keys(t.kind);
    }
  }

  /** A close of what is not there does nothing. */
  lemma CloseOfNothing(c: Config, s: State, sid: nat, tid: nat)
    requires c.Valid() && !(sid in s.sessions && tid in s.sessions[sid].tunnels)
    ensures Next(c, s, Close(sid, tid)) == s && !AfterClose(s, sid, tid).1
  {
  }

  /** The end of a session ends all its tunnels and no other, and frees their ports. */
  lemma RemoveEnds(c: Config, s: State, sid: nat, gone: int)
    requires Inv(c, s) && sid in s.sessions
    ensures var s' := Next(c, s, Remove(sid, gone));
            && s'.sessions == s.sessions - {sid}
            && (forall k :: k in s'.tunnels <==> k in s.tunnels && s.tunnels[k].session != sid)
            && (forall k | k in s'.tunnels :: s'.tunnels[k] == s.tunnels[k])
            && (forall p: nat :: p in s'.ports <==> p in s.ports && s.tunnels["tcp:" + Itoa(p)].session != sid)
            && (forall n | n in s.held :: n in s'.held && s'.held[n] == s.held[n])
  {
    assert PortsAgree(s);
    forall n | n in s.held
      ensures n !in PlainNames(s.tunnels, sid)
    {
    }
    forall p: nat
      ensures TcpKey(p) == "tcp:" + Itoa(p)
    {
    }
  }

  /** A sweep drops the holds whose time is over, and nothing else. */
  lemma SweepDrops(c: Config, s: State, now: int)
    requires c.Valid()
    ensures var s' := Next(c, s, Sweep(now));
            && s' == s.(held := s'.held)
            && (forall n :: n in s'.held <==> n in s.held && now <= s.held[n].until)
            && (forall n | n in s'.held :: s'.held[n] == s.held[n])
  {
  }

  /** A server that starts knows of nothing but, when there is a file of holds, the names that were on hold or
      connected when it stopped and are still in time: the connected ones for the grace period. */
  lemma RestartKnows(c: Config, s: State, stopped: int, started: int, n: string)
    requires Inv(c, s)
    ensures var s' := Next(c, s, Restart(stopped, started));
            && s'.sessions == map[] && s'.tunnels == map[] && s'.ports == {}
            && (var connected := n in s.tunnels && s.tunnels[n].kind == Http(n, None)
                                 && !s.sessions[s.tunnels[n].session].goAway;
                && (n in s'.held <==>
                     && c.keepsFile && c.grace > 0
                     && ((n in s.held && stopped < s.held[n].until && started < s.held[n].until)
                         || (connected && started < stopped + c.grace)))
                && (n in s'.held ==>
                     s'.held[n] == if connected then Hold(s.tunnels[n].account, stopped + c.grace) else s.held[n]))
  {
    if n in s.tunnels {
      assert Live(s, s.tunnels[n]);
    }
    assert c.Valid() && HoldsAgree(s);
    hide Inv;
    SavedWhat(c, s, stopped, n);
  }

  lemma SavedWhat(c: Config, s: State, stopped: int, n: string)
    requires HoldsAgree(s)
    ensures var saved := Saved(c, s, stopped);
            var connected := n in ConnectedNames(s);
            && (n in saved <==>
                 c.keepsFile && c.grace > 0 && ((n in s.held && stopped < s.held[n].until) || connected))
            && (n in saved ==>
                 saved[n] == if connected then Hold(s.tunnels[n].account, stopped + c.grace) else s.held[n])
  {
  }
}
