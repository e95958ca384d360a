/** The server's handlers as they change its tables. Each is proved to do what Registry says of it. */
module Servers {
  import opened Base
  import opened Names
  import opened Ports
  import R = Registry
  import Runs = RegistryRuns

  class Session {
    const id: nat
    const account: nat
    const maxTunnels: nat
    // None once the session has been removed.
    var tunnels: Option<map<nat, R.Tunnel>>
    var goAway: bool

    constructor (id: nat, account: nat, maxTunnels: nat)
      ensures this.id == id && this.account == account && this.maxTunnels == maxTunnels
      ensures tunnels == Some(map[]) && !goAway
    {
      this.id, this.account, this.maxTunnels := id, account, maxTunnels;
      tunnels, goAway := Some(map[]), false;
    }

    ghost function View(): R.Session
      reads this
    {
      R.Session(account, maxTunnels, if tunnels.Some? then tunnels.value else map[], goAway)
    }

    method AddTunnel(t: R.Tunnel, limit: nat) returns (ok: bool)
      modifies this`tunnels
      ensures ok == (old(tunnels).Some? && |old(tunnels).value| < limit)
      ensures tunnels == if ok then Some(old(tunnels).value[t.id := t]) else old(tunnels)
    {
      if tunnels.None? || |tunnels.value| >= limit {
        return false;
      }
      tunnels := Some(tunnels.value[t.id := t]);
      return true;
    }
  }

  datatype Record = Record(name: string, hold: R.Hold)

  class Server {
    const config: R.Config
    const ports: PortTable
    var sessions: map<nat, Session>
    var tunnels: map<string, R.Tunnel>
    var held: map<string, R.Hold>

    constructor (config: R.Config)
      requires config.Valid()
      ensures fresh(ports) && this.config == config
      ensures Valid() && View() == R.Start(config)
    {
      this.config := config;
      ports := new PortTable(config.range);
      sessions, tunnels, held := map[], map[], map[];
    }

    ghost predicate Wired()
      reads this`sessions, sessions.Values
    {
      && config.Valid() && ports.range == config.range
      && forall sid | sid in sessions :: sessions[sid].id == sid && sessions[sid].tunnels.Some?
    }

    ghost function SessionViews(): map<nat, R.Session>
      reads this`sessions, sessions.Values
    {
      map sid | sid in sessions :: sessions[sid].View()
    }

    ghost function View(): R.State
      reads this, ports, sessions.Values
    {
      R.State(SessionViews(), tunnels, held, ports.tcpPorts, ports.nextPort)
    }

    ghost predicate Valid()
      reads this, ports, sessions.Values
    {
      Wired() && R.Inv(config, View())
    }

    /** A session object the server made: it is in the table until it is removed. */
    ghost predicate Knows(sess: Session)
      reads this`sessions, sess
    {
      if sess.id in sessions then sessions[sess.id] == sess else sess.tunnels.None?
    }

    // ----- Counting -----

    method AccountSessionCount(account: nat) returns (n: nat)
      ensures n == |R.SessionsOf(SessionViews(), account)|
    {
      n := 0;
      var todo := sessions.Keys;
      ghost var views := SessionViews();
      while todo != {}
        invariant todo <= sessions.Keys && n == |R.SessionsOf(views, account) - todo|
        decreases todo
      {
        var sid := AnyOf(todo);
        CountSession(R.SessionsOf(views, account), todo, sid);
        todo := todo - {sid};
        if sessions[sid].account == account {
          n := n + 1;
        }
      }
      assert R.SessionsOf(views, account) - todo == R.SessionsOf(views, account);
    }

    method AccountTunnelCount(account: nat) returns (n: nat)
      requires Wired()
      ensures n == |R.TunnelsOf(SessionViews(), account)|
    {
      n := 0;
      var todo := sessions.Keys;
      ghost var views := SessionViews();
      while todo != {}
        invariant todo <= sessions.Keys && n == |Counted(views, account, todo)|
        decreases todo
      {
        var sid := AnyOf(todo);
        CountOne(views, account, todo, sid);
        todo := todo - {sid};
        if sessions[sid].account == account {
          n := n + |sessions[sid].tunnels.value|;
        }
      }
      assert Counted(views, account, todo) == R.TunnelsOf(views, account);
    }

    // ----- Sessions -----

    method RegisterSession(sess: Session, maxSessions: nat) returns (ok: bool)
      requires Valid() && sess.id !in sessions && sess.tunnels == Some(map[]) && !sess.goAway
      modifies this`sessions
      ensures Valid()
      ensures var (s, done) := R.AfterLogin(old(View()), sess.id, sess.account, maxSessions, sess.maxTunnels);
              View() == s && ok == done
    {
      ghost var before := View();
      Runs.LoginKeepsInv(config, before, sess.id, sess.account, maxSessions, sess.maxTunnels);
      hide R.Inv, R.SessionsOf;
      if maxSessions > 0 {
        var n := AccountSessionCount(sess.account);
        if n >= maxSessions {
          return false;
        }
      }
      StoreSession(sess);
      return true;
    }

    method StoreSession(sess: Session)
      requires Wired() && sess.tunnels.Some?
      modifies this`sessions
      ensures Wired() && sessions == old(sessions)[sess.id := sess]
      ensures SessionViews() == old(SessionViews())[sess.id := sess.View()]
    {
      sessions := sessions[sess.id := sess];
    }

    /** Takes a tunnel out of its session. */
    method Detach(sess: Session, tid: nat)
      requires Wired() && Knows(sess) && sess.tunnels.Some?
      modifies sess`tunnels
      ensures Wired() && Knows(sess)
      ensures SessionViews() == R.CutFrom(old(SessionViews()), sess.id, tid)
    {
      sess.tunnels := Some(sess.tunnels.value - {tid});
    }

    /** The client says it is leaving on purpose. */
    method ReceiveGoAway(sess: Session)
      requires Valid() && Knows(sess)
      modifies sess`goAway
      ensures Valid() && Knows(sess)
      ensures View() == R.AfterGoAway(old(View()), sess.id)
    {
      ghost var before := View();
      sess.goAway := true;
      assert sess.id in sessions ==> SessionViews() == before.sessions[sess.id := sess.View()];
      assert sess.id !in sessions ==> SessionViews() == before.sessions;
      assert View() == R.AfterGoAway(before, sess.id);
      Runs.NextKeepsInv(config, before, Runs.GoAway(sess.id));
    }

    // ----- Holds -----

    method HoldSubdomain(name: string, account: nat, now: int)
      modifies this`held
      ensures held == if config.grace > 0 then old(held)[name := R.Hold(account, now + config.grace)] else old(held)
    {
      if config.grace <= 0 {
        return;
      }
      held := held[name := R.Hold(account, now + config.grace)];
    }

    method HeldBy(name: string, now: int) returns (owner: Option<nat>)
      modifies this`held
      ensures held == R.Asked(old(held), name, now)
      ensures owner == if name in held then Some(held[name].account) else None
    {
      if name !in held {
        return None;
      }
      if now > held[name].until {
        held := held - {name};
        return None;
      }
      return Some(held[name].account);
    }

    method SweepHeld(now: int)
      requires Valid()
      modifies this`held
      ensures Valid() && View() == R.AfterSweep(old(View()), now)
    {
      ghost var before := View();
      Runs.SweepKeepsInv(config, before, now);
      hide R.Inv;
      DropExpired(now);
      assert held == R.AfterSweep(before, now).held;
    }

    method DropExpired(now: int)
      modifies this`held
      ensures held == map n | n in old(held) && !R.Expired(old(held)[n], now) :: old(held)[n]
    {
      var todo := held.Keys;
      while todo != {}
        invariant todo <= held.Keys <= old(held).Keys
        invariant forall n | n in old(held) :: n in held <==> n in todo || !R.Expired(old(held)[n], now)
        invariant forall n | n in held :: held[n] == old(held)[n]
        decreases todo
      {
        var n := AnyOf(todo);
        todo := todo - {n};
        if now > held[n].until {
          held := held - {n};
        }
      }
    }

    // ----- Closing -----

    /** Releases what a tunnel holds. Only a custom domain is checked to be still its own. */
    method TeardownTunnel(t: R.Tunnel)
      requires forall k | k in R.Keys(t.kind) && k in tunnels :: tunnels[k] == t
      modifies this`tunnels, ports`tcpPorts
      ensures tunnels == old(tunnels) - R.Keys(t.kind)
      ensures ports.tcpPorts == old(ports.tcpPorts) - R.PortsOf(t.kind)
    {
      match t.kind {
        case Http(name, domain) =>
          tunnels := tunnels - {name};
          if domain.Some? {
            var key := DomainKey(domain.value);
            if key in tunnels && tunnels[key] == t {
              tunnels := tunnels - {key};
            }
          }
        case Tcp(port) =>
          tunnels := tunnels - {TcpKey(port)};
          ports.ReleasePort(port);
      }
    }

    method EndTunnel(sess: Session, t: R.Tunnel, tid: nat)
      requires Wired() && Knows(sess) && sess.tunnels.Some?
      requires forall k | k in R.Keys(t.kind) && k in tunnels :: tunnels[k] == t
      modifies this`tunnels, ports`tcpPorts, sess`tunnels
      ensures Wired() && Knows(sess)
      ensures SessionViews() == R.CutFrom(old(SessionViews()), sess.id, tid)
      ensures tunnels == old(tunnels) - R.Keys(t.kind)
      ensures ports.tcpPorts == old(ports.tcpPorts) - R.PortsOf(t.kind)
    {
      Detach(sess, tid);
      TeardownTunnel(t);
    }

    method CloseTunnel(sess: Session, tid: nat) returns (ok: bool)
      requires Valid() && Knows(sess)
      modifies this`tunnels, ports`tcpPorts, sess`tunnels
      ensures Valid() && Knows(sess)
      ensures var (s, done) := R.AfterClose(old(View()), sess.id, tid); View() == s && ok == done
    {
      ghost var before := View();
      Runs.CloseKeepsInv(config, before, sess.id, tid);
      if sess.tunnels.None? {
        return false;
      }
      if tid !in sess.tunnels.value {
        return false;
      }
      var t := sess.tunnels.value[tid];
      assert before.sessions[sess.id].tunnels[tid] == t;
      assert R.Stored(config, before, t);
      EndTunnel(sess, t, tid);
      return true;
    }

    /** Ends a session: the names of its plain tunnels go on hold before they are torn down, unless
        the client said goodbye. */
    method RemoveSession(sid: nat, now: int)
      requires Valid()
      modifies this, ports`tcpPorts, if sid in sessions then {sessions[sid]} else {}
      ensures Valid() && View() == R.AfterRemove(config, old(View()), sid, now)
    {
      ghost var before := View();
      Runs.RemoveKeepsInv(config, before, sid, now);
      if sid !in sessions {
        return;
      }
      var sess := sessions[sid];
      AllOwned(config, before, sid);
      assert before.sessions[sid] == sess.View();
      hide *;
      EndSession(before, sess, sess.tunnels.value, !sess.goAway, now);
    }

    method EndSession(ghost before: R.State, sess: Session, ts: map<nat, R.Tunnel>, keep: bool, now: int)
      requires Wired() && before == View() && sess.id in sessions && sessions[sess.id] == sess
      requires sess.id in before.sessions
      requires before.sessions[sess.id] == R.Session(sess.account, sess.maxTunnels, ts, !keep)
      requires OwnsAll(config, before, sess.id, ts, sess.account)
      modifies this, ports`tcpPorts, sess
      ensures Wired() && View() == R.AfterRemove(config, before, sess.id, now)
    {
      hide *;
      Forget(sess.id);
      CloseDown(before, sess.id, ts, keep, sess.account, now);
      IsRemoved(config, before, sess.id, now, View());
    }

    method CloseDown(ghost before: R.State, sid: nat, ts: map<nat, R.Tunnel>, keep: bool, ghost account: nat, now: int)
      requires Wired() && OwnsAll(config, before, sid, ts, account)
      requires before == View().(sessions := before.sessions)
      modifies this`tunnels, this`held, ports`tcpPorts
      ensures Wired()
      ensures View().sessions == old(View()).sessions && View().next == before.next
      ensures View().tunnels == R.Without(before.tunnels, sid)
      ensures View().ports == R.PortsIn(before.ports, View().tunnels)
      ensures View().held == R.Holding(before.held, keep && config.grace > 0, R.PlainNames(before.tunnels, sid),
                                       account, now + config.grace)
    {
      hide OwnsAll, R.Without, R.PlainNames, R.Holding, R.PortsIn;
      TearDownAll(before, sid, ts, keep, account, now);
    }

    /** Takes the session out of the table. */
    method Forget(sid: nat)
      requires Wired() && sid in sessions
      modifies this`sessions, sessions[sid]
      ensures Wired() && View() == old(View()).(sessions := old(View()).sessions - {sid})
      ensures old(sessions)[sid].tunnels.None?
    {
      var sess := sessions[sid];
      sessions := sessions - {sid};
      sess.tunnels := None;
    }

    method TearDownAll(ghost before: R.State, sid: nat, ts: map<nat, R.Tunnel>, keep: bool, ghost account: nat,
                       now: int)
      requires OwnsAll(config, before, sid, ts, account)
      requires tunnels == before.tunnels && ports.tcpPorts == before.ports
      modifies this`tunnels, this`held, ports`tcpPorts
      ensures tunnels == R.Without(before.tunnels, sid)
      ensures ports.tcpPorts == R.PortsIn(before.ports, tunnels)
      ensures held == R.Holding(old(held), keep && config.grace > 0, R.PlainNames(before.tunnels, sid),
                                account, now + config.grace)
    {
      var rest := ts.Keys;
      NothingGone(before.tunnels, sid, rest);
      while rest != {}
        invariant rest <= ts.Keys
        invariant tunnels == Partly(before.tunnels, sid, rest)
        invariant ports.tcpPorts == R.PortsIn(before.ports, tunnels)
        invariant held == R.Holding(old(held), keep && config.grace > 0, PlainGone(before.tunnels, sid, rest),
                                    account, now + config.grace)
        decreases rest
      {
        var id := AnyOf(rest);
        TearDownNext(before, sid, rest, id, ts[id], keep, account, now, old(held));
        rest := rest - {id};
      }
      AllGone(before.tunnels, sid);
    }

    method TearDownNext(ghost before: R.State, sid: nat, ghost rest: set<nat>, id: nat, t: R.Tunnel, keep: bool,
                        ghost account: nat, now: int, ghost holds: map<string, R.Hold>)
      requires id in rest && Owned(config, before.tunnels, sid, id, t, account)
      requires tunnels == Partly(before.tunnels, sid, rest) && ports.tcpPorts == R.PortsIn(before.ports, tunnels)
      requires held == R.Holding(holds, keep && config.grace > 0, PlainGone(before.tunnels, sid, rest),
                                 account, now + config.grace)
      modifies this`tunnels, this`held, ports`tcpPorts
      ensures tunnels == Partly(before.tunnels, sid, rest - {id})
      ensures ports.tcpPorts == R.PortsIn(before.ports, tunnels)
      ensures held == R.Holding(holds, keep && config.grace > 0, PlainGone(before.tunnels, sid, rest - {id}),
                                account, now + config.grace)
    {
      hide *;
      OneGone(config, before.tunnels, sid, rest, id, t, account);
      OnePlainGone(config, before.tunnels, sid, rest, id, t, account);
      OnePortGone(config, before.ports, tunnels, t.kind);
      OneHeld(holds, keep && config.grace > 0, PlainGone(before.tunnels, sid, rest), t.kind, account,
              now + config.grace);
      TearDownOne(t, keep, now);
    }

    method TearDownOne(t: R.Tunnel, keep: bool, now: int)
      requires forall k | k in R.Keys(t.kind) && k in tunnels :: tunnels[k] == t
      modifies this`tunnels, this`held, ports`tcpPorts
      ensures tunnels == old(tunnels) - R.Keys(t.kind)
      ensures ports.tcpPorts == old(ports.tcpPorts) - R.PortsOf(t.kind)
      ensures held == HeldWith(old(held), keep && config.grace > 0, t.kind, t.account, now + config.grace)
    {
      if keep && t.kind.Http? && t.kind.domain.None? {
        HoldSubdomain(t.kind.name, t.account, now);
      }
      TeardownTunnel(t);
    }

    // ----- Creating -----

    method Attach(sess: Session, t: R.Tunnel) returns (ok: bool)
      requires Wired() && Knows(sess) && t.session == sess.id
      modifies sess`tunnels
      ensures Wired() && Knows(sess)
      ensures ok == !R.AtSessionLimit(config, old(SessionViews()), sess.id)
      ensures ok ==> SessionViews() == R.AddTo(old(SessionViews()), t)
      ensures !ok ==> SessionViews() == old(SessionViews())
    {
      ok := sess.AddTunnel(t, config.maxTunnelsPerSession);
    }

    /** Registers a tunnel on its session, or says why not. */
    method AddTunnel(sess: Session, t: R.Tunnel) returns (refusal: Option<R.Refusal>)
      requires Wired() && Knows(sess) && t.session == sess.id
      modifies sess`tunnels
      ensures Wired() && Knows(sess)
      ensures refusal ==
        if R.AtAccountLimit(old(SessionViews()), sess.account, sess.maxTunnels) then Some(R.AccountLimit)
        else if R.AtSessionLimit(config, old(SessionViews()), sess.id) then Some(R.SessionClosed)
        else None
      ensures refusal.None? ==> SessionViews() == R.AddTo(old(SessionViews()), t)
      ensures refusal.Some? ==> SessionViews() == old(SessionViews())
    {
      if sess.maxTunnels > 0 {
        var n := AccountTunnelCount(sess.account);
        if n >= sess.maxTunnels {
          return Some(R.AccountLimit);
        }
      }
      var ok := Attach(sess, t);
      return if ok then None else Some(R.SessionClosed);
    }

    /** Gives the name to the new tunnel when a session the same client left behind has it. */
    method TakeOver(name: string, sess: Session, t: R.Tunnel) returns (ok: bool)
      requires Wired() && Knows(sess) && name in tunnels
      requires tunnels[name].session in sessions ==> tunnels[name].session == sessions[tunnels[name].session].id
      modifies this`tunnels, if tunnels[name].session in sessions then {sessions[tunnels[name].session]} else {}
      ensures Wired() && Knows(sess)
      ensures ok == R.MayTakeOver(old(tunnels)[name], sess.id, sess.account)
      ensures tunnels == if ok then old(tunnels)[name := t] else old(tunnels)
      ensures SessionViews() ==
        if ok then R.CutFrom(old(SessionViews()), old(tunnels)[name].session, old(tunnels)[name].id)
        else old(SessionViews())
    {
      var prior := tunnels[name];
      if !prior.kind.Http? || prior.kind.domain.Some? || prior.account != sess.account || prior.session == sess.id {
        return false;
      }
      tunnels := tunnels[name := t];
      if prior.session in sessions {
        Detach(sessions[prior.session], prior.id);
      }
      return true;
    }

    /** Stores the tunnel under its name if that is free, or can be taken over. */
    method ClaimName(sess: Session, t: R.Tunnel, reconnect: bool) returns (ok: bool)
      requires Wired() && Knows(sess) && t.kind.Http?
      modifies this`tunnels, sessions.Values
      ensures Wired() && Knows(sess)
      ensures ok == NameFree(old(tunnels), t.kind.name, sess.id, sess.account, reconnect)
      ensures tunnels == if ok then old(tunnels)[t.kind.name := t] else old(tunnels)
      ensures SessionViews() ==
        if ok then Freed(old(tunnels), old(SessionViews()), t.kind.name) else old(SessionViews())
    {
      var name := t.kind.name;
      if name !in tunnels {
        tunnels := tunnels[name := t];
        return true;
      }
      if !reconnect {
        return false;
      }
      ok := TakeOver(name, sess, t);
    }

    method StoreDomain(t: R.Tunnel)
      requires t.kind.Http?
      modifies this`tunnels
      ensures tunnels == if t.kind.domain.Some? then old(tunnels)[DomainKey(t.kind.domain.value) := t] else old(tunnels)
    {
      if t.kind.domain.Some? {
        tunnels := tunnels[DomainKey(t.kind.domain.value) := t];
      }
    }

    /** The checks of an HTTP request. A custom domain must be free when the request begins. */
    method CheckHttp(w: R.Wanted) returns (why: Option<R.Refusal>)
      requires w.WantHttp?
      ensures why == R.HttpRefusal(View(), w)
    {
      var name := if w.name == "" then w.spare else Lower(w.name);
      var valid := IsValidSubdomain(name);
      if !valid {
        return Some(R.BadName);
      }
      if name in RESERVED {
        return Some(R.ReservedName);
      }
      if !w.authOk {
        return Some(R.BadAuth);
      }
      match w.domain {
        case NotAsked =>
        case Unproven =>
          return Some(R.DomainUnproven);
        case Proven(domain) =>
          if DomainKey(domain) in tunnels {
            return Some(R.DomainInUse);
          }
      }
      return None;
    }

    /** Claims the keys of a checked tunnel and registers it. As one step the domain is still free
        when the name has been claimed, and the limits checked early still leave room: neither late
        refusal happens. */
    method ClaimAndAdd(sess: Session, t: R.Tunnel, reconnect: bool, ghost before: R.State) returns (ok: bool)
      requires Wired() && Knows(sess) && t.session == sess.id && t.account == sess.account && t.kind.Http?
      requires before.tunnels == tunnels && before.sessions == SessionViews()
      requires R.Inv(config, before) && MayRegister(config, before, sess.View(), t)
      modifies this`tunnels, sessions.Values
      ensures Wired() && Knows(sess)
      ensures ok == NameFree(before.tunnels, t.kind.name, t.session, t.account, reconnect)
      ensures tunnels == if ok then WithKeys(before.tunnels, t) else before.tunnels
      ensures sess.id in before.sessions
      ensures SessionViews() ==
        if ok then R.AddTo(Freed(before.tunnels, before.sessions, t.kind.name), t) else before.sessions
    {
      hide R.Inv, MayRegister, Freed, NameFree, R.AtAccountLimit, R.AtSessionLimit, R.AddTo;
      ghost var view := sess.View();
      Registrable(config, before, view, t);
      ok := ClaimName(sess, t, reconnect);
      if ok {
        LateChecksPass(config, before, view, t, reconnect);
        assert t.kind.domain.Some? ==> DomainKey(t.kind.domain.value) !in tunnels;
        StoreDomain(t);
        var refusal := AddTunnel(sess, t);
        assert refusal.None?;
      }
    }

    method CreateHttpTunnel(sess: Session, t: R.Tunnel, reconnect: bool, now: int) returns (reply: R.Reply)
      requires Valid() && Knows(sess) && sess.id in sessions
      requires t.session == sess.id && t.account == sess.account && t.kind.Http?
      requires MayRegister(config, View(), sess.View(), t)
      modifies this`tunnels, this`held, sessions.Values
      ensures Valid() && Knows(sess)
      ensures var (s, r) := R.AfterHttp(old(View()), t, reconnect, now); View() == s && reply == r
    {
      hide R.Inv, MayRegister, R.AfterHttp, Freed, NameFree, R.Asked, WithKeys, Wired, Knows;
      ghost var before, view := View(), sess.View();
      HttpOutcome(config, before, view, t, reconnect, now);
      Runs.HttpKeepsInv(config, before, t, reconnect, now) by { Registrable(config, before, view, t); }
      var owner := HeldBy(t.kind.name, now);
      if owner.Some? && owner.value != sess.account {
        return R.Refused(R.NameTaken);
      }
      var ok := ClaimAndAdd(sess, t, reconnect, before);
      if !ok {
        return R.Refused(R.NameTaken);
      }
      held := held - {t.kind.name};
      return R.Created(t);
    }

    /** Registers a bound port's tunnel. The limits are tested again now that the port is bound: a
        refusal takes the key out and gives the port back. */
    method RegisterTcp(sess: Session, t: R.Tunnel) returns (reply: R.Reply)
      requires Wired() && Knows(sess) && t.session == sess.id && t.account == sess.account && t.kind.Tcp?
      requires t.kind.port in ports.tcpPorts && TcpKey(t.kind.port) !in tunnels
      modifies this`tunnels, ports`tcpPorts, sess`tunnels
      ensures Wired() && Knows(sess)
      ensures var s := old(View()).(ports := old(ports.tcpPorts) - {t.kind.port});
              (View(), reply) == R.AfterBound(config, s, t, sess.maxTunnels)
    {
      hide R.AtAccountLimit, R.AtSessionLimit, R.AfterBound, R.AddTo, Wired, Knows;
      BoundOutcome(config, View(), t, sess.maxTunnels);
      tunnels := tunnels[TcpKey(t.kind.port) := t];
      var refusal := AddTunnel(sess, t);
      if refusal.Some? {
        GiveBack(t.kind.port);
        return R.Refused(refusal.value);
      }
      return R.Created(t);
    }

    method GiveBack(port: nat)
      requires Wired()
      modifies this`tunnels, ports`tcpPorts
      ensures Wired()
      ensures View() == old(View()).(tunnels := old(tunnels) - {TcpKey(port)}, ports := old(ports.tcpPorts) - {port})
    {
      tunnels := tunnels - {TcpKey(port)};
      ports.ReleasePort(port);
    }

    method CreateTcpTunnel(sess: Session, tid: nat, ttl: nat, foreign: seq<set<int>>) returns (reply: R.Reply)
      requires Valid() && Knows(sess) && tid !in sess.View().tunnels
      requires |foreign| == MAX_BIND_ATTEMPTS
      modifies this`tunnels, ports, sess`tunnels
      ensures Valid() && Knows(sess)
      ensures var t := R.Tunnel(tid, sess.id, sess.account, R.Tcp(0), ttl);
              var (s, r) := R.AfterTcp(config, old(View()), t, sess.maxTunnels, foreign);
              View() == s && reply == r
    {
      ghost var before, blank := View(), R.Tunnel(tid, sess.id, sess.account, R.Tcp(0), ttl);
      assert sess.id in before.sessions ==> before.sessions[sess.id] == sess.View();
      hide R.Inv, R.AfterTcp, PortNew;
      PortIsNew(config, before, foreign);
      Runs.TcpKeepsInv(config, before, blank, sess.maxTunnels, foreign);
      reply := ListenAndRegister(sess, tid, ttl, foreign);
    }

    method ListenAndRegister(sess: Session, tid: nat, ttl: nat, foreign: seq<set<int>>) returns (reply: R.Reply)
      requires Wired() && Knows(sess) && |foreign| == MAX_BIND_ATTEMPTS && PortNew(config, View(), foreign)
      modifies this`tunnels, ports, sess`tunnels
      ensures Wired() && Knows(sess)
      ensures var t := R.Tunnel(tid, sess.id, sess.account, R.Tcp(0), ttl);
              (View(), reply) == R.AfterTcp(config, old(View()), t, sess.maxTunnels, foreign)
    {
      assert config.Valid() && ports.range == config.range;
      hide R.AfterBound, Listen;
      var l := ports.ListenTunnelPort(foreign);
      match l {
        case NoPorts => return R.Refused(R.NoPortFree);
        case BindFailed => return R.Refused(R.CannotBind);
        case Bound(port) =>
          reply := RegisterTcp(sess, R.Tunnel(tid, sess.id, sess.account, R.Tcp(port), ttl));
      }
    }

    /** The checks made before anything changes. */
    method CheckEarly(sess: Session, req: R.Request) returns (why: Option<R.Refusal>)
      requires Wired() && Knows(sess)
      ensures why == R.EarlyRefusal(config, View(), sess.id, sess.account, sess.maxTunnels, req)
    {
      if !req.rateOk {
        return Some(R.RateLimited);
      }
      if sess.maxTunnels > 0 {
        var n := AccountTunnelCount(sess.account);
        if n >= sess.maxTunnels {
          return Some(R.AccountLimit);
        }
      }
      if sess.tunnels.None? || |sess.tunnels.value| >= config.maxTunnelsPerSession {
        return Some(R.SessionLimit);
      }
      if req.ttl < 0 || req.ttl > R.MAX_TTL {
        return Some(R.BadTtl);
      }
      if R.AsksDomain(req.wanted) && !req.wanted.WantHttp? {
        return Some(R.DomainNeedsHttp);
      }
      return if req.wanted.WantOther? then Some(R.Unsupported) else None;
    }

    method HandleTunnelRequest(sess: Session, req: R.Request, tid: nat, now: int) returns (reply: R.Reply)
      requires Valid() && Knows(sess) && tid !in sess.View().tunnels
      requires req.wanted.WantTcp? ==> |req.wanted.foreign| == MAX_BIND_ATTEMPTS
      modifies this`tunnels, this`held, ports, sess, sessions.Values
      ensures Valid() && Knows(sess)
      ensures var (s, r) := R.AfterAsk(config, old(View()), sess.id, sess.account, sess.maxTunnels, req, tid, now);
              View() == s && reply == r
    {
      hide R.Inv, R.AtAccountLimit, R.AtSessionLimit, R.AfterTcp, R.AfterHttp, R.HttpRefusal;
      var early := CheckEarly(sess, req);
      if early.Some? {
        return R.Refused(early.value);
      }
      EarlyPassed(config, View(), sess.id, sess.account, sess.maxTunnels, req);
      if req.wanted.WantTcp? {
        reply := CreateTcpTunnel(sess, tid, req.ttl, req.wanted.foreign);
        return;
      }
      var why := CheckHttp(req.wanted);
      if why.Some? {
        return R.Refused(why.value);
      }
      var t := R.Tunnel(tid, sess.id, sess.account, R.WantedKind(req.wanted), req.ttl);
      ReadyHttp(config, View(), sess.View(), t, req);
      reply := CreateHttpTunnel(sess, t, req.wanted.reconnect, now);
    }

    // ----- Across restarts -----

    /** Lists the names on hold and those of clients connected now. */
    method SaveHeld(now: int) returns (records: seq<Record>)
      requires Valid()
      ensures Lists(records, R.Saved(config, View(), now))
    {
      if !config.keepsFile || config.grace <= 0 {
        return [];
      }
      var lasting := ListLasting(now);
      var connected := ListConnected(now + config.grace);
      ListsBoth(config, View(), lasting, connected, now);
      return lasting + connected;
    }

    method ListLasting(now: int) returns (records: seq<Record>)
      ensures forall r :: r in records <==> r.name in held && held[r.name] == r.hold && now < r.hold.until
    {
      records := [];
      var todo := held.Keys;
      while todo != {}
        invariant todo <= held.Keys
        invariant forall r :: r in records <==>
                  r.name in held && r.name !in todo && held[r.name] == r.hold && now < r.hold.until
        decreases todo
      {
        var n := AnyOf(todo);
        todo := todo - {n};
        if now < held[n].until {
          records := records + [Record(n, held[n])];
        }
      }
    }

    method ListConnected(until: int) returns (records: seq<Record>)
      requires Valid()
      ensures forall r :: r in records <==> Connected(View(), r, until)
    {
      hide R.Inv, Connected, OwnerOf;
      OwnersConnected(View(), until);
      records := [];
      var todo := sessions.Keys;
      while todo != {}
        invariant todo <= sessions.Keys
        invariant forall r :: r in records <==> Connected(View(), r, until) && OwnerOf(View(), r) !in todo
        decreases todo
      {
        var sid := AnyOf(todo);
        var more := ListSession(sid, until);
        records := records + more;
        todo := todo - {sid};
      }
    }

    method ListSession(sid: nat, until: int) returns (records: seq<Record>)
      requires Valid() && sid in sessions
      ensures forall r :: r in records <==> Connected(View(), r, until) && OwnerOf(View(), r) == sid
    {
      hide R.Inv;
      records := [];
      if !sessions[sid].goAway {
        records := ListPlain(sessions[sid].tunnels.value, until);
      }
      ConnectedOf(config, View(), sid, records, until);
    }

    method ListPlain(ts: map<nat, R.Tunnel>, until: int) returns (records: seq<Record>)
      ensures forall r :: r in records <==> PlainOf(ts, r, until, ts.Keys)
    {
      records := [];
      var todo := ts.Keys;
      while todo != {}
        invariant todo <= ts.Keys
        invariant forall r :: r in records <==> PlainOf(ts, r, until, ts.Keys - todo)
        decreases todo
      {
        var id := AnyOf(todo);
        ghost var done := ts.Keys - todo;
        todo := todo - {id};
        PlainStep(ts, done, id, until);
        assert ts.Keys - todo == done + {id};
        if R.Plain(ts[id].kind) {
          records := records + [Record(ts[id].kind.name, R.Hold(ts[id].account, until))];
        }
      }
      assert ts.Keys - todo == ts.Keys;
    }

    /** A server that starts puts the names that are still in time on hold again. */
    method LoadHeld(records: seq<Record>, now: int)
      requires Wired()
      modifies this`held
      ensures Wired() && View() == old(View()).(held := Loaded(old(held), records, now))
    {
      for i := 0 to |records|
        invariant Loaded(held, records[i..], now) == Loaded(old(held), records, now)
      {
        var r := records[i];
        assert records[i..][1..] == records[i + 1..];
        if r.name != "" && now < r.hold.until {
          held := held[r.name := r.hold];
        }
      }
    }
  }

  /** Stops one server and starts the next. */
  method RestartServer(server: Server, stopped: int, started: int) returns (next: Server)
    requires server.Valid()
    ensures fresh(next) && next.config == server.config && next.Valid()
    ensures next.View() == R.AfterRestart(server.config, server.View(), stopped, started)
  {
    hide R.Inv, R.Saved, R.AfterRestart, Lists, Loaded;
    ghost var before := server.View();
    var records := server.SaveHeld(stopped);
    next := new Server(server.config);
    next.LoadHeld(records, started);
    SavedIsLoaded(server.config, before, records, stopped, started);
    Runs.RestartKeepsInv(server.config, before, stopped, started);
  }

  /** The records are the table, each entry of it somewhere and nothing else. */
  ghost predicate Lists(records: seq<Record>, m: map<string, R.Hold>) {
    forall r :: r in records <==> r.name in m && m[r.name] == r.hold
  }

  function Loaded(held: map<string, R.Hold>, records: seq<Record>, now: int): map<string, R.Hold>
    decreases |records|
  {
    if records == [] then held
    else
      var r := records[0];
      Loaded(if r.name != "" && now < r.hold.until then held[r.name := r.hold] else held, records[1..], now)
  }

  ghost predicate Connected(s: R.State, r: Record, until: int) {
    r.name in R.ConnectedNames(s) && r.hold == R.Hold(s.tunnels[r.name].account, until)
  }

  /** The session whose tunnel has the record's name. */
  ghost function OwnerOf(s: R.State, r: Record): nat {
    if r.name in s.tunnels then s.tunnels[r.name].session else 0
  }

  lemma OwnersConnected(s: R.State, until: int)
    ensures forall r :: Connected(s, r, until) ==> OwnerOf(s, r) in s.sessions
  {
  }

  ghost predicate PlainOf(ts: map<nat, R.Tunnel>, r: Record, until: int, ids: set<nat>) {
    exists id :: id in ids && PlainAt(ts, r, until, id)
  }

  ghost predicate PlainAt(ts: map<nat, R.Tunnel>, r: Record, until: int, id: nat) {
    id in ts && ts[id].kind == R.Http(r.name, None) && r.hold == R.Hold(ts[id].account, until)
  }

  lemma PlainStep(ts: map<nat, R.Tunnel>, done: set<nat>, id: nat, until: int)
    requires id in ts
    ensures forall r :: PlainOf(ts, r, until, done + {id}) <==> PlainOf(ts, r, until, done) || PlainAt(ts, r, until, id)
  {
    forall r
      ensures PlainOf(ts, r, until, done + {id}) <==> PlainOf(ts, r, until, done) || PlainAt(ts, r, until, id)
    {
      if PlainAt(ts, r, until, id) {
        assert id in done + {id};
      }
    }
  }

  /** The connected names of one session are its plain tunnels', unless it said goodbye. */
  lemma ConnectedOf(c: R.Config, s: R.State, sid: nat, more: seq<Record>, until: int)
    requires R.Inv(c, s) && sid in s.sessions
    requires s.sessions[sid].goAway ==> more == []
    requires !s.sessions[sid].goAway ==>
      forall r :: r in more <==> PlainOf(s.sessions[sid].tunnels, r, until, s.sessions[sid].tunnels.Keys)
    ensures forall r :: r in more <==> Connected(s, r, until) && OwnerOf(s, r) == sid
  {
    var ts := s.sessions[sid].tunnels;
    forall r
      ensures !s.sessions[sid].goAway && PlainOf(ts, r, until, ts.Keys) <==>
              Connected(s, r, until) && OwnerOf(s, r) == sid
    {
      if PlainOf(ts, r, until, ts.Keys) {
        var id :| id in ts.Keys && PlainAt(ts, r, until, id);
        assert R.Stored(c, s, ts[id]) && r.name in R.Keys(ts[id].kind);
      }
      if Connected(s, r, until) && OwnerOf(s, r) == sid {
        assert R.Live(s, s.tunnels[r.name]);
        R.LiveIsStored(c, s, s.tunnels[r.name]);
        assert PlainAt(ts, r, until, s.tunnels[r.name].id);
      }
    }
  }

  lemma ListsBoth(c: R.Config, s: R.State, lasting: seq<Record>, connected: seq<Record>, now: int)
    requires R.HoldsAgree(s) && c.keepsFile && c.grace > 0
    requires forall r :: r in lasting <==> r.name in s.held && s.held[r.name] == r.hold && now < r.hold.until
    requires forall r :: r in connected <==> Connected(s, r, now + c.grace)
    ensures Lists(lasting + connected, R.Saved(c, s, now))
  {
    forall r
      ensures r in lasting + connected <==> r.name in R.Saved(c, s, now) && R.Saved(c, s, now)[r.name] == r.hold
    {
    }
  }

  lemma {:induction false} LoadedIs(held: map<string, R.Hold>, records: seq<Record>, now: int, m: map<string, R.Hold>)
    requires forall n | n in m :: n != ""
    requires forall r | r in records :: r.name in m && m[r.name] == r.hold
    requires forall n | n in held :: n in m && now < m[n].until && held[n] == m[n]
    requires forall n | n in m && now < m[n].until :: n in held || Record(n, m[n]) in records
    ensures Loaded(held, records, now) == map n | n in m && now < m[n].until :: m[n]
    decreases |records|
  {
    if records != [] {
      var r := records[0];
      assert r in records;
      var held' := if r.name != "" && now < r.hold.until then held[r.name := r.hold] else held;
      forall x | x in records[1..]
        ensures x in records
      {
      }
      forall n | n in m && now < m[n].until
        ensures n in held' || Record(n, m[n]) in records[1..]
      {
        if n !in held && Record(n, m[n]) != r {
          assert Record(n, m[n]) in records;
        }
      }
      LoadedIs(held', records[1..], now, m);
    }
  }

  /** Whatever order the records were written in, reading them back gives the table of the names
      that are still in time. */
  lemma SavedIsLoaded(c: R.Config, s: R.State, records: seq<Record>, stopped: int, started: int)
    requires R.Inv(c, s) && Lists(records, R.Saved(c, s, stopped))
    ensures R.Start(c).(held := Loaded(map[], records, started)) == R.AfterRestart(c, s, stopped, started)
  {
    var saved := R.Saved(c, s, stopped);
    forall n | n in R.ConnectedNames(s)
      ensures ValidName(n)
    {
      assert R.Proper(c, s.tunnels[n].kind);
    }
    forall n | n in saved
      ensures n != "" && Record(n, saved[n]) in records
    {
      var r := Record(n, saved[n]);
      assert r.name in saved && saved[r.name] == r.hold;
    }
    LoadedIs(map[], records, started, saved);
  }

  /** A port that is bound was nobody's, and neither was its key; a failure takes none. */
  ghost predicate PortNew(c: R.Config, s: R.State, foreign: seq<set<int>>)
    requires c.Valid()
  {
    var (l, taken, next) := Listen(c.range, s.ports, s.next, foreign, false);
    && (!l.Bound? ==> taken == s.ports)
    && (l.Bound? ==>
          l.port >= 0 && l.port in taken && taken - {l.port} == s.ports && TcpKey(l.port) !in s.tunnels)
  }

  lemma PortIsNew(c: R.Config, s: R.State, foreign: seq<set<int>>)
    requires R.Inv(c, s)
    ensures PortNew(c, s, foreign)
  {
    hide Listen;
    ListenKeepsBooks(c.range, s.ports, s.next, foreign, false);
    var (l, taken, next) := Listen(c.range, s.ports, s.next, foreign, false);
    if l.Bound? {
      assert l.port !in s.ports;
    }
  }

  lemma BoundOutcome(c: R.Config, s: R.State, t: R.Tunnel, maxTunnels: nat)
    requires t.kind.Tcp? && t.kind.port in s.ports && TcpKey(t.kind.port) !in s.tunnels
    ensures var stored := s.tunnels[TcpKey(t.kind.port) := t];
            && stored - {TcpKey(t.kind.port)} == s.tunnels
            && R.AfterBound(c, s.(ports := s.ports - {t.kind.port}), t, maxTunnels) ==
               if R.AtAccountLimit(s.sessions, t.account, maxTunnels)
               then (s.(ports := s.ports - {t.kind.port}), R.Refused(R.AccountLimit))
               else if R.AtSessionLimit(c, s.sessions, t.session)
               then (s.(ports := s.ports - {t.kind.port}), R.Refused(R.SessionClosed))
               else (s.(sessions := R.AddTo(s.sessions, t), tunnels := stored), R.Created(t))
  {
    assert s.tunnels + (map k | k in R.Keys(t.kind) :: t) == s.tunnels[TcpKey(t.kind.port) := t];
    assert s.held - {} == s.held;
    assert s.ports - {t.kind.port} + {t.kind.port} == s.ports;
  }

  lemma EarlyPassed(c: R.Config, s: R.State, sid: nat, account: nat, maxTunnels: nat, req: R.Request)
    requires R.EarlyRefusal(c, s, sid, account, maxTunnels, req).None?
    ensures sid in s.sessions && 0 <= req.ttl && !req.wanted.WantOther?
    ensures !R.AtAccountLimit(s.sessions, account, maxTunnels) && !R.AtSessionLimit(c, s.sessions, sid)
  {
  }

  lemma ReadyHttp(c: R.Config, s: R.State, sess: R.Session, t: R.Tunnel, req: R.Request)
    requires t.session in s.sessions && s.sessions[t.session] == sess && t.account == sess.account
             && t.id !in sess.tunnels
    requires R.EarlyRefusal(c, s, t.session, sess.account, sess.maxTunnels, req).None? && req.wanted.WantHttp?
    requires R.HttpRefusal(s, req.wanted).None? && t.kind == R.WantedKind(req.wanted)
    ensures MayRegister(c, s, sess, t)
  {
  }

  lemma Registrable(c: R.Config, s: R.State, sess: R.Session, t: R.Tunnel)
    requires MayRegister(c, s, sess, t)
    ensures t.session in s.sessions && t.account == s.sessions[t.session].account
    ensures t.id !in s.sessions[t.session].tunnels
    ensures t.kind.Http? && R.Proper(c, t.kind)
    ensures t.kind.domain.Some? ==> DomainKey(t.kind.domain.value) !in s.tunnels
  {
  }

  predicate NameFree(tunnels: map<string, R.Tunnel>, name: string, sid: nat, account: nat, reconnect: bool) {
    name !in tunnels || (reconnect && R.MayTakeOver(tunnels[name], sid, account))
  }

  /** An HTTP tunnel under its keys. */
  function WithKeys(tunnels: map<string, R.Tunnel>, t: R.Tunnel): map<string, R.Tunnel>
    requires t.kind.Http?
  {
    var named := tunnels[t.kind.name := t];
    if t.kind.domain.Some? then named[DomainKey(t.kind.domain.value) := t] else named
  }

  /** What is left when the tunnel has been created. */
  ghost function Registered(s: R.State, t: R.Tunnel, held: map<string, R.Hold>): R.State
    requires t.kind.Http? && t.session in s.sessions
  {
    R.State(R.AddTo(Freed(s.tunnels, s.sessions, t.kind.name), t), WithKeys(s.tunnels, t), held - {t.kind.name},
            s.ports, s.next)
  }

  lemma HttpOutcome(c: R.Config, s: R.State, sess: R.Session, t: R.Tunnel, reconnect: bool, now: int)
    requires R.Inv(c, s) && MayRegister(c, s, sess, t)
    ensures var name := t.kind.name;
            var held := R.Asked(s.held, name, now);
            R.AfterHttp(s, t, reconnect, now) ==
            if (name in held && held[name].account != t.account)
              || !NameFree(s.tunnels, name, t.session, t.account, reconnect)
            then (s.(held := held), R.Refused(R.NameTaken))
            else (Registered(s, t, held), R.Created(t))
  {
    var name := t.kind.name;
    var held := R.Asked(s.held, name, now);
    if NameFree(s.tunnels, name, t.session, t.account, reconnect) {
      if name in s.tunnels {
        Runs.PriorKey(c, s, s.tunnels[name], name);
        TakenIsRegistered(s, t, held);
      } else {
        FreeIsRegistered(s, t, held);
      }
    }
  }

  lemma FreeIsRegistered(s: R.State, t: R.Tunnel, held: map<string, R.Hold>)
    requires t.kind.Http? && t.session in s.sessions && t.kind.name !in s.tunnels
    ensures R.Add(s.(held := held), t) == Registered(s, t, held)
  {
    SameKeys(s.tunnels, t);
  }

  lemma TakenIsRegistered(s: R.State, t: R.Tunnel, held: map<string, R.Hold>)
    requires t.kind.Http? && t.session in s.sessions && t.kind.name in s.tunnels
    requires s.tunnels[t.kind.name].kind == R.Http(t.kind.name, None)
    ensures R.Add(R.Drop(s.(held := held), s.tunnels[t.kind.name]), t) == Registered(s, t, held)
  {
    SameKeys(s.tunnels, t);
  }

  lemma SameKeys(tunnels: map<string, R.Tunnel>, t: R.Tunnel)
    requires t.kind.Http?
    ensures tunnels + (map k | k in R.Keys(t.kind) :: t) == WithKeys(tunnels, t)
    ensures tunnels - {t.kind.name} + (map k | k in R.Keys(t.kind) :: t) == WithKeys(tunnels, t)
  {
  }

  /** Taking over only makes room, and only in another session. */
  lemma LateChecksPass(c: R.Config, s: R.State, sess: R.Session, t: R.Tunnel, reconnect: bool)
    requires R.Inv(c, s) && MayRegister(c, s, sess, t)
             && NameFree(s.tunnels, t.kind.name, t.session, t.account, reconnect)
    ensures var freed := Freed(s.tunnels, s.sessions, t.kind.name);
            && !R.AtAccountLimit(freed, sess.account, sess.maxTunnels)
            && !R.AtSessionLimit(c, freed, t.session)
    ensures t.kind.domain.Some? ==> DomainKey(t.kind.domain.value) !in s.tunnels[t.kind.name := t]
  {
    var freed := Freed(s.tunnels, s.sessions, t.kind.name);
    if t.kind.domain.Some? {
      KeysNeverCollide(t.kind.name, 0, 0, t.kind.domain.value, "");
    }
    FewerTunnels(s.sessions, s.tunnels, t.kind.name, sess.account);
    Smaller(R.TunnelsOf(freed, sess.account), R.TunnelsOf(s.sessions, sess.account));
  }

  lemma FewerTunnels(sessions: map<nat, R.Session>, tunnels: map<string, R.Tunnel>, name: string, account: nat)
    ensures R.TunnelsOf(Freed(tunnels, sessions, name), account) <= R.TunnelsOf(sessions, account)
  {
  }

  /** A tunnel ready to be registered: made for a session with room for it, its domain free. */
  ghost predicate MayRegister(c: R.Config, s: R.State, sess: R.Session, t: R.Tunnel) {
    && t.session in s.sessions && s.sessions[t.session] == sess
    && t.account == sess.account && t.id !in sess.tunnels
    && !R.AtAccountLimit(s.sessions, sess.account, sess.maxTunnels)
    && !R.AtSessionLimit(c, s.sessions, t.session)
    && t.kind.Http? && R.Proper(c, t.kind)
    && (t.kind.domain.Some? ==> DomainKey(t.kind.domain.value) !in s.tunnels)
  }

  /** The sessions once whoever has the name has lost it. */
  ghost function Freed(tunnels: map<string, R.Tunnel>, sessions: map<nat, R.Session>, name: string)
    : map<nat, R.Session>
  {
    if name in tunnels then R.CutFrom(sessions, tunnels[name].session, tunnels[name].id) else sessions
  }

  /** The entries left when only some of a session's tunnels are still to be torn down. */
  ghost function Partly(tunnels: map<string, R.Tunnel>, sid: nat, rest: set<nat>): map<string, R.Tunnel> {
    map k | k in tunnels && (tunnels[k].session != sid || tunnels[k].id in rest) :: tunnels[k]
  }

  ghost function PlainGone(tunnels: map<string, R.Tunnel>, sid: nat, rest: set<nat>): set<string> {
    set k | k in tunnels && tunnels[k].session == sid && tunnels[k].id !in rest && tunnels[k].kind == R.Http(k, None)
  }

  ghost function HeldWith(held: map<string, R.Hold>, keep: bool, kind: R.Kind, account: nat, until: int)
    : map<string, R.Hold>
  {
    if keep && R.Plain(kind) then held[kind.name := R.Hold(account, until)] else held
  }

  /** A session's tunnel is what is registered under its keys, and nowhere else. */
  ghost predicate Owned(c: R.Config, tunnels: map<string, R.Tunnel>, sid: nat, id: nat, t: R.Tunnel, account: nat) {
    && R.Proper(c, t.kind) && t.account == account
    && (forall k | k in R.Keys(t.kind) :: k in tunnels && tunnels[k] == t)
    && (forall k | k in tunnels :: tunnels[k].session == sid && tunnels[k].id == id <==> k in R.Keys(t.kind))
  }

  ghost predicate OwnsAll(c: R.Config, s: R.State, sid: nat, ts: map<nat, R.Tunnel>, account: nat) {
    && (forall id | id in ts :: Owned(c, s.tunnels, sid, id, ts[id], account))
    && (forall k | k in s.tunnels && s.tunnels[k].session == sid :: s.tunnels[k].id in ts)
    && R.PortsIn(s.ports, s.tunnels) == s.ports
  }

  lemma NothingGone(tunnels: map<string, R.Tunnel>, sid: nat, rest: set<nat>)
    requires forall k | k in tunnels && tunnels[k].session == sid :: tunnels[k].id in rest
    ensures Partly(tunnels, sid, rest) == tunnels && PlainGone(tunnels, sid, rest) == {}
  {
  }

  lemma AllGone(tunnels: map<string, R.Tunnel>, sid: nat)
    ensures Partly(tunnels, sid, {}) == R.Without(tunnels, sid)
            && PlainGone(tunnels, sid, {}) == R.PlainNames(tunnels, sid)
  {
  }

  lemma IsRemoved(c: R.Config, s: R.State, sid: nat, now: int, s': R.State)
    requires sid in s.sessions && s'.sessions == s.sessions - {sid} && s'.next == s.next
    requires s'.tunnels == R.Without(s.tunnels, sid) && s'.ports == R.PortsIn(s.ports, s'.tunnels)
    requires s'.held == R.Holding(s.held, !s.sessions[sid].goAway && c.grace > 0, R.PlainNames(s.tunnels, sid),
                                  s.sessions[sid].account, now + c.grace)
    ensures s' == R.AfterRemove(c, s, sid, now)
  {
  }

  lemma AllOwned(c: R.Config, s: R.State, sid: nat)
    requires R.Inv(c, s) && sid in s.sessions
    ensures OwnsAll(c, s, sid, s.sessions[sid].tunnels, s.sessions[sid].account)
  {
    forall k | k in s.tunnels && s.tunnels[k].session == sid
      ensures s.tunnels[k].id in s.sessions[sid].tunnels
    {
      assert R.Live(s, s.tunnels[k]);
    }
    forall id | id in s.sessions[sid].tunnels
      ensures Owned(c, s.tunnels, sid, id, s.sessions[sid].tunnels[id], s.sessions[sid].account)
    {
      OneOwned(c, s, sid, id);
    }
  }

  lemma OneOwned(c: R.Config, s: R.State, sid: nat, id: nat)
    requires R.SessionsAgree(c, s) && R.EntriesAgree(c, s) && sid in s.sessions && id in s.sessions[sid].tunnels
    ensures Owned(c, s.tunnels, sid, id, s.sessions[sid].tunnels[id], s.sessions[sid].account)
  {
    var t := s.sessions[sid].tunnels[id];
    assert R.Stored(c, s, t);
    forall k | k in s.tunnels
      ensures s.tunnels[k].session == sid && s.tunnels[k].id == id <==> k in R.Keys(t.kind)
    {
      assert R.Live(s, s.tunnels[k]) && k in R.Keys(s.tunnels[k].kind);
    }
  }

  lemma OneGone(c: R.Config, tunnels: map<string, R.Tunnel>, sid: nat, rest: set<nat>, id: nat, t: R.Tunnel,
                account: nat)
    requires Owned(c, tunnels, sid, id, t, account) && id in rest
    ensures R.Proper(c, t.kind) && t.account == account
    ensures Partly(tunnels, sid, rest - {id}) == Partly(tunnels, sid, rest) - R.Keys(t.kind)
    ensures forall k | k in R.Keys(t.kind) && k in Partly(tunnels, sid, rest) :: Partly(tunnels, sid, rest)[k] == t
  {
  }

  lemma OnePlainGone(c: R.Config, tunnels: map<string, R.Tunnel>, sid: nat, rest: set<nat>, id: nat, t: R.Tunnel,
                     account: nat)
    requires Owned(c, tunnels, sid, id, t, account) && id in rest
    ensures PlainGone(tunnels, sid, rest - {id}) ==
            PlainGone(tunnels, sid, rest) + if R.Plain(t.kind) then {t.kind.name} else {}
  {
    if R.Plain(t.kind) {
      assert R.Keys(t.kind) == {t.kind.name};
    }
  }

  lemma OnePortGone(c: R.Config, ports: set<int>, tunnels: map<string, R.Tunnel>, kind: R.Kind)
    requires R.Proper(c, kind)
    ensures R.PortsIn(ports, tunnels - R.Keys(kind)) == R.PortsIn(ports, tunnels) - R.PortsOf(kind)
  {
    forall p: nat
      ensures TcpKey(p) in R.Keys(kind) <==> p in R.PortsOf(kind)
    {
      R.OwnTcpKey(c, kind, p);
    }
  }

  lemma OneHeld(held: map<string, R.Hold>, keep: bool, names: set<string>, kind: R.Kind, account: nat, until: int)
    ensures R.Holding(held, keep, names + (if R.Plain(kind) then {kind.name} else {}), account, until) ==
            HeldWith(R.Holding(held, keep, names, account, until), keep, kind, account, until)
  {
    assert names + {} == names;
  }

  lemma CountSession<T>(all: set<T>, todo: set<T>, x: T)
    requires x in todo
    ensures |all - (todo - {x})| == |all - todo| + if x in all then 1 else 0
  {
    assert all - (todo - {x}) == (all - todo) + (all * {x});
    if x in all {
      assert all * {x} == {x};
    } else {
      assert all * {x} == {};
    }
  }

  ghost function Counted(views: map<nat, R.Session>, account: nat, todo: set<nat>): set<(nat, nat)> {
    set p | p in R.TunnelsOf(views, account) && p.0 !in todo
  }

  ghost function Pairs(sid: nat, ids: set<nat>): set<(nat, nat)> {
    set id | id in ids :: (sid, id)
  }

  lemma {:induction false} PairsSize(sid: nat, ids: set<nat>)
    ensures |Pairs(sid, ids)| == |ids|
  {
    if ids != {} {
      var id := AnyIn(ids);
      PairsSize(sid, ids - {id});
      assert Pairs(sid, ids) == Pairs(sid, ids - {id}) + {(sid, id)};
    }
  }

  lemma CountOne(views: map<nat, R.Session>, account: nat, todo: set<nat>, sid: nat)
    requires sid in todo && sid in views
    ensures |Counted(views, account, todo - {sid})| ==
            |Counted(views, account, todo)| + if views[sid].account == account then |views[sid].tunnels| else 0
  {
    var more := if views[sid].account == account then Pairs(sid, views[sid].tunnels.Keys) else {};
    PairsSize(sid, views[sid].tunnels.Keys);
    assert Counted(views, account, todo - {sid}) == Counted(views, account, todo) + more;
    assert Counted(views, account, todo) !! more;
  }
}
