/** What the server knows of sessions, tunnels, names on hold and ports, and what each handler,
    taken as one step, makes of it. */
module Registry {
  import opened Base
  import opened Names
  import opened Ports

  // The domain is the tunnel's custom one, if it has one.
  datatype Kind = Http(name: string, domain: Option<string>) | Tcp(port: nat)

  datatype Tunnel = Tunnel(id: nat, session: nat, account: nat, kind: Kind, ttl: nat)

  datatype Session = Session(account: nat, maxTunnels: nat, tunnels: map<nat, Tunnel>, goAway: bool)

  datatype Hold = Hold(account: nat, until: int)

  datatype Config = Config(maxTunnelsPerSession: nat, grace: int, keepsFile: bool, range: Range) {
    predicate Valid() { range.Valid() }
  }

  datatype State = State(
    sessions: map<nat, Session>,
    tunnels: map<string, Tunnel>,
    held: map<string, Hold>,
    ports: set<int>,
    next: Int32)

  function Start(c: Config): State
    requires c.Valid()
  {
    State(map[], map[], map[], {}, c.range.start - 1)
  }

  function Keys(kind: Kind): set<string>
  {
    match kind
    case Http(name, None) => {name}
    case Http(name, Some(domain)) => {name, DomainKey(domain)}
    case Tcp(port) => {TcpKey(port)}
  }

  function PortsOf(kind: Kind): set<int> {
    if kind.Tcp? then {kind.port} else {}
  }

  function NamesOf(kind: Kind): set<string> {
    if kind.Http? then {kind.name} else {}
  }

  // ----- Agreement -----

  predicate Proper(c: Config, kind: Kind) {
    match kind
    case Http(name, _) => ValidName(name) && name !in RESERVED
    case Tcp(port) => c.range.Valid() && c.range.Has(port)
  }

  predicate Live(s: State, t: Tunnel) {
    && t.session in s.sessions
    && t.id in s.sessions[t.session].tunnels
    && s.sessions[t.session].tunnels[t.id] == t
  }

  ghost predicate Stored(c: Config, s: State, t: Tunnel) {
    Proper(c, t.kind) && forall k | k in Keys(t.kind) :: k in s.tunnels && s.tunnels[k] == t
  }

  /** A session's tunnels know whose they are and are registered under all their keys. */
  ghost predicate SessionsAgree(c: Config, s: State) {
    forall sid, id | sid in s.sessions && id in s.sessions[sid].tunnels ::
      var t := s.sessions[sid].tunnels[id];
      t.id == id && t.session == sid && t.account == s.sessions[sid].account && Stored(c, s, t)
  }

  /** What is registered is a live session's tunnel, under a key of its own. */
  ghost predicate EntriesAgree(c: Config, s: State) {
    forall k | k in s.tunnels :: Live(s, s.tunnels[k]) && Proper(c, s.tunnels[k].kind) && k in Keys(s.tunnels[k].kind)
  }

  ghost predicate PortsAgree(s: State) {
    forall p: nat :: p in s.ports <==> TcpKey(p) in s.tunnels
  }

  ghost predicate PortsInRange(c: Config, s: State) {
    forall p | p in s.ports :: c.range.Has(p)
  }

  /** No name is both held and registered. */
  ghost predicate HoldsAgree(s: State) {
    forall n | n in s.held :: n !in s.tunnels && ValidName(n)
  }

  ghost predicate Inv(c: Config, s: State) {
    && c.Valid()
    && SessionsAgree(c, s)
    && EntriesAgree(c, s)
    && PortsAgree(s)
    && PortsInRange(c, s)
    && HoldsAgree(s)
  }

  // ----- Changes -----

  function AddTo(sessions: map<nat, Session>, t: Tunnel): map<nat, Session>
    requires t.session in sessions
  {
    var sess := sessions[t.session];
    sessions[t.session := sess.(tunnels := sess.tunnels[t.id := t])]
  }

  function CutFrom(sessions: map<nat, Session>, sid: nat, id: nat): (cut: map<nat, Session>)
    ensures cut.Keys == sessions.Keys
  {
    if sid in sessions then sessions[sid := sessions[sid].(tunnels := sessions[sid].tunnels - {id})] else sessions
  }

  /** A tunnel registered under all its keys; its name is no longer on hold. */
  function Add(s: State, t: Tunnel): State
    requires t.session in s.sessions
  {
    State(AddTo(s.sessions, t), s.tunnels + map k | k in Keys(t.kind) :: t,
          s.held - NamesOf(t.kind), s.ports + PortsOf(t.kind), s.next)
  }

  /** A tunnel taken out of its session and from under all its keys. */
  function Drop(s: State, t: Tunnel): State {
    State(CutFrom(s.sessions, t.session, t.id), s.tunnels - Keys(t.kind), s.held, s.ports - PortsOf(t.kind), s.next)
  }

  lemma AddKeepsInv(c: Config, s: State, t: Tunnel)
    requires Inv(c, s) && Proper(c, t.kind)
    requires t.session in s.sessions && t.account == s.sessions[t.session].account
    requires t.id !in s.sessions[t.session].tunnels
    requires Keys(t.kind) !! s.tunnels.Keys
    ensures Inv(c, Add(s, t))
  {
    AddKeepsSessions(c, s, t);
    AddKeepsEntries(c, s, t);
    AddKeepsPorts(c, s, t);
    AddKeepsHolds(c, s, t);
  }

  lemma AddKeepsSessions(c: Config, s: State, t: Tunnel)
    requires SessionsAgree(c, s) && Proper(c, t.kind)
    requires t.session in s.sessions && t.account == s.sessions[t.session].account
    requires Keys(t.kind) !! s.tunnels.Keys
    ensures SessionsAgree(c, Add(s, t))
  {
    var s' := Add(s, t);
    forall sid, id | sid in s'.sessions && id in s'.sessions[sid].tunnels
      ensures var u := s'.sessions[sid].tunnels[id];
              u.id == id && u.session == sid && u.account == s'.sessions[sid].account && Stored(c, s', u)
    {
      var u := s'.sessions[sid].tunnels[id];
      if u != t {
        assert id in s.sessions[sid].tunnels && s.sessions[sid].tunnels[id] == u;
        assert Stored(c, s, u);
      }
    }
  }

  lemma AddKeepsEntries(c: Config, s: State, t: Tunnel)
    requires EntriesAgree(c, s) && Proper(c, t.kind)
    requires t.session in s.sessions && t.id !in s.sessions[t.session].tunnels
    ensures EntriesAgree(c, Add(s, t))
  {
    var s' := Add(s, t);
    forall k | k in s'.tunnels
      ensures Live(s', s'.tunnels[k]) && Proper(c, s'.tunnels[k].kind) && k in Keys(s'.tunnels[k].kind)
    {
      if k !in Keys(t.kind) {
        assert k in s.tunnels && s'.tunnels[k] == s.tunnels[k];
        assert Live(s, s.tunnels[k]);
      }
    }
  }

  lemma OwnTcpKey(c: Config, kind: Kind, p: nat)
    requires Proper(c, kind)
    ensures TcpKey(p) in Keys(kind) <==> kind == Tcp(p)
  {
    match kind {
      case Http(name, domain) =>
        KeysNeverCollide(name, p, p, if domain.Some? then domain.value else "", "");
      case Tcp(port) =>
        KeysNeverCollide("a", p, port, "", "");
    }
  }

  lemma AddKeepsPorts(c: Config, s: State, t: Tunnel)
    requires PortsAgree(s) && PortsInRange(c, s) && Proper(c, t.kind) && t.session in s.sessions
    ensures PortsAgree(Add(s, t)) && PortsInRange(c, Add(s, t))
  {
    forall p: nat
      ensures p in Add(s, t).ports <==> TcpKey(p) in Add(s, t).tunnels
    {
      OwnTcpKey(c, t.kind, p);
    }
  }

  lemma OwnName(c: Config, kind: Kind, name: string)
    requires Proper(c, kind) && ValidName(name)
    ensures name in Keys(kind) <==> name in NamesOf(kind)
  {
    match kind {
      case Http(_, domain) =>
        KeysNeverCollide(name, 0, 0, if domain.Some? then domain.value else "", "");
      case Tcp(port) =>
        KeysNeverCollide(name, port, port, "", "");
    }
  }

  lemma AddKeepsHolds(c: Config, s: State, t: Tunnel)
    requires HoldsAgree(s) && Proper(c, t.kind) && t.session in s.sessions
    ensures HoldsAgree(Add(s, t))
  {
    forall n | n in Add(s, t).held
      ensures n !in Add(s, t).tunnels && ValidName(n)
    {
      assert n in s.held;
      OwnName(c, t.kind, n);
    }
  }

  /** Two tunnels under one key are the same. */
  lemma KeyTellsTunnel(c: Config, s: State, t: Tunnel, u: Tunnel, k: string)
    requires Stored(c, s, t) && Stored(c, s, u) && k in Keys(t.kind) && k in Keys(u.kind)
    ensures t == u
  {
  }

  lemma LiveIsStored(c: Config, s: State, t: Tunnel)
    requires SessionsAgree(c, s) && Live(s, t)
    ensures Stored(c, s, t) && t.account == s.sessions[t.session].account
  {
    assert t.id in s.sessions[t.session].tunnels;
  }

  lemma DropKeepsInv(c: Config, s: State, t: Tunnel)
    requires Inv(c, s) && Live(s, t)
    ensures Proper(c, t.kind) && Inv(c, Drop(s, t))
    ensures Keys(t.kind) !! Drop(s, t).tunnels.Keys
  {
    LiveIsStored(c, s, t);
    DropKeepsSessions(c, s, t);
    DropKeepsEntries(c, s, t);
    DropKeepsPorts(c, s, t);
  }

  lemma DropKeepsSessions(c: Config, s: State, t: Tunnel)
    requires SessionsAgree(c, s) && Live(s, t) && Stored(c, s, t)
    ensures SessionsAgree(c, Drop(s, t))
  {
    var s' := Drop(s, t);
    forall sid, id | sid in s'.sessions && id in s'.sessions[sid].tunnels
      ensures var u := s'.sessions[sid].tunnels[id];
              u.id == id && u.session == sid && u.account == s'.sessions[sid].account && Stored(c, s', u)
    {
      var u := s'.sessions[sid].tunnels[id];
      assert id in s.sessions[sid].tunnels && s.sessions[sid].tunnels[id] == u;
      assert Stored(c, s, u) && u.id == id && u.session == sid;
      assert u != t;
      forall k | k in Keys(u.kind)
        ensures k in s'.tunnels && s'.tunnels[k] == u
      {
        if k in Keys(t.kind) {
          KeyTellsTunnel(c, s, t, u, k);
        }
      }
    }
  }

  lemma DropKeepsEntries(c: Config, s: State, t: Tunnel)
    requires EntriesAgree(c, s) && Live(s, t) && Stored(c, s, t)
    ensures EntriesAgree(c, Drop(s, t))
  {
    var s' := Drop(s, t);
    forall k | k in s'.tunnels
      ensures Live(s', s'.tunnels[k]) && Proper(c, s'.tunnels[k].kind) && k in Keys(s'.tunnels[k].kind)
    {
      assert k in s.tunnels && s'.tunnels[k] == s.tunnels[k];
      assert Live(s, s.tunnels[k]) && s.tunnels[k] != t;
    }
  }

  lemma DropKeepsPorts(c: Config, s: State, t: Tunnel)
    requires PortsAgree(s) && PortsInRange(c, s) && Live(s, t) && Proper(c, t.kind)
    ensures PortsAgree(Drop(s, t)) && PortsInRange(c, Drop(s, t))
  {
    forall p: nat
      ensures p in Drop(s, t).ports <==> TcpKey(p) in Drop(s, t).tunnels
    {
      OwnTcpKey(c, t.kind, p);
    }
  }

  // ----- Requests -----

  // What the environment says of a custom domain: its spelling and its DNS record are checked elsewhere.
  datatype DomainCheck = NotAsked | Unproven | Proven(domain: string)

  datatype Wanted =
    | WantHttp(name: string, spare: string, authOk: bool, domain: DomainCheck, reconnect: bool)
    | WantTcp(asksDomain: bool, foreign: seq<set<int>>)
    | WantOther(asksDomain: bool)

  datatype Request = Request(ttl: int, rateOk: bool, wanted: Wanted)

  datatype Refusal =
    | RateLimited | AccountLimit | SessionLimit | BadTtl | DomainNeedsHttp | Unsupported
    | BadName | ReservedName | BadAuth | DomainUnproven | DomainInUse | NameTaken | NoPortFree
    | CannotBind | SessionClosed

  datatype Reply = Created(tunnel: Tunnel) | Refused(why: Refusal)

  const MAX_TTL := 31536000

  function SessionsOf(sessions: map<nat, Session>, account: nat): set<nat> {
    set sid | sid in sessions && sessions[sid].account == account
  }

  function TunnelsOf(sessions: map<nat, Session>, account: nat): set<(nat, nat)> {
    set sid, id | sid in sessions && sessions[sid].account == account && id in sessions[sid].tunnels :: (sid, id)
  }

  predicate AtAccountLimit(sessions: map<nat, Session>, account: nat, maxTunnels: nat) {
    maxTunnels > 0 && |TunnelsOf(sessions, account)| >= maxTunnels
  }

  predicate AtSessionLimit(c: Config, sessions: map<nat, Session>, sid: nat) {
    sid !in sessions || |sessions[sid].tunnels| >= c.maxTunnelsPerSession
  }

  predicate AsksDomain(wanted: Wanted) {
    match wanted
    case WantHttp(_, _, _, domain, _) => domain != NotAsked
    case WantTcp(asks, _) => asks
    case WantOther(asks) => asks
  }

  /** The checks made before anything changes. The account and its limit are those of the login. */
  function EarlyRefusal(c: Config, s: State, sid: nat, account: nat, maxTunnels: nat, req: Request): Option<Refusal> {
    if !req.rateOk then Some(RateLimited)
    else if AtAccountLimit(s.sessions, account, maxTunnels) then Some(AccountLimit)
    else if AtSessionLimit(c, s.sessions, sid) then Some(SessionLimit)
    else if req.ttl < 0 || req.ttl > MAX_TTL then Some(BadTtl)
    else if AsksDomain(req.wanted) && !req.wanted.WantHttp? then Some(DomainNeedsHttp)
    else if req.wanted.WantOther? then Some(Unsupported)
    else None
  }

  function WantedName(w: Wanted): string
    requires w.WantHttp?
  {
    if w.name == "" then w.spare else Lower(w.name)
  }

  function WantedKind(w: Wanted): Kind
    requires w.WantHttp?
  {
    Http(WantedName(w), if w.domain.Proven? then Some(w.domain.domain) else None)
  }

  function HttpRefusal(s: State, w: Wanted): Option<Refusal>
    requires w.WantHttp?
  {
    var name := WantedName(w);
    if !ValidName(name) then Some(BadName)
    else if name in RESERVED then Some(ReservedName)
    else if !w.authOk then Some(BadAuth)
    else if w.domain.Unproven? then Some(DomainUnproven)
    else if w.domain.Proven? && DomainKey(w.domain.domain) in s.tunnels then Some(DomainInUse)
    else None
  }

  predicate Expired(h: Hold, now: int) {
    now > h.until
  }

  /** Asking about a name drops its hold once that has expired. */
  function Asked(held: map<string, Hold>, name: string, now: int): map<string, Hold> {
    if name in held && Expired(held[name], now) then held - {name} else held
  }

  predicate HeldByOther(held: map<string, Hold>, name: string, account: nat, now: int) {
    name in held && !Expired(held[name], now) && held[name].account != account
  }

  /** A plain HTTP tunnel of the same account in another session: the one a client left behind. */
  predicate MayTakeOver(prior: Tunnel, sid: nat, account: nat) {
    prior.kind.Http? && prior.kind.domain.None? && prior.account == account && prior.session != sid
  }

  function AfterHttp(s: State, t: Tunnel, reconnect: bool, now: int): (State, Reply)
    requires t.kind.Http? && t.session in s.sessions
  {
    var name := t.kind.name;
    var s1 := s.(held := Asked(s.held, name, now));
    if HeldByOther(s.held, name, t.account, now) then (s1, Refused(NameTaken))
    else if name !in s.tunnels then (Add(s1, t), Created(t))
    else
      var prior := s.tunnels[name];
      if reconnect && MayTakeOver(prior, t.session, t.account) then (Add(Drop(s1, prior), t), Created(t))
      else (s1, Refused(NameTaken))
  }

  /** A bound port's tunnel is registered if the limits, tested again, still leave room. Ports in s
      are those of registered tunnels. */
  function AfterBound(c: Config, s: State, t: Tunnel, maxTunnels: nat): (State, Reply) {
    if AtAccountLimit(s.sessions, t.account, maxTunnels) then (s, Refused(AccountLimit))
    else if AtSessionLimit(c, s.sessions, t.session) then (s, Refused(SessionClosed))
    else (Add(s, t), Created(t))
  }

  function AfterTcp(c: Config, s: State, t: Tunnel, maxTunnels: nat, foreign: seq<set<int>>): (State, Reply)
    requires c.Valid()
  {
    ListenKeepsBooks(c.range, s.ports, s.next, foreign, false);
    var (l, _, next) := Listen(c.range, s.ports, s.next, foreign, false);
    var s1 := s.(next := next);
    match l
    case NoPorts => (s1, Refused(NoPortFree))
    case BindFailed => (s1, Refused(CannotBind))
    case Bound(port) => AfterBound(c, s1, t.(kind := Tcp(port)), maxTunnels)
  }

  function AfterAsk(c: Config, s: State, sid: nat, account: nat, maxTunnels: nat, req: Request, tid: nat,
                    now: int): (State, Reply)
    requires c.Valid()
  {
    var early := EarlyRefusal(c, s, sid, account, maxTunnels, req);
    if early.Some? then (s, Refused(early.value))
    else if req.wanted.WantTcp? then
      AfterTcp(c, s, Tunnel(tid, sid, account, Tcp(0), req.ttl), maxTunnels, req.wanted.foreign)
    else
      var refusal := HttpRefusal(s, req.wanted);
      if refusal.Some? then (s, Refused(refusal.value))
      else AfterHttp(s, Tunnel(tid, sid, account, WantedKind(req.wanted), req.ttl), req.wanted.reconnect, now)
  }

  // ----- Sessions and time -----

  function AfterLogin(s: State, sid: nat, account: nat, maxSessions: nat, maxTunnels: nat): (State, bool) {
    if maxSessions > 0 && |SessionsOf(s.sessions, account)| >= maxSessions then (s, false)
    else (s.(sessions := s.sessions[sid := Session(account, maxTunnels, map[], false)]), true)
  }

  /** A close request, or a time limit that runs out. */
  function AfterClose(s: State, sid: nat, tid: nat): (State, bool) {
    if sid in s.sessions && tid in s.sessions[sid].tunnels then
      var kind := s.sessions[sid].tunnels[tid].kind;
      (State(CutFrom(s.sessions, sid, tid), s.tunnels - Keys(kind), s.held, s.ports - PortsOf(kind), s.next), true)
    else (s, false)
  }

  function AfterGoAway(s: State, sid: nat): State {
    if sid in s.sessions then s.(sessions := s.sessions[sid := s.sessions[sid].(goAway := true)]) else s
  }

  predicate Plain(kind: Kind) {
    kind.Http? && kind.domain.None?
  }

  /** The entries that are not a session's. */
  function Without(tunnels: map<string, Tunnel>, sid: nat): map<string, Tunnel> {
    map k | k in tunnels && tunnels[k].session != sid :: tunnels[k]
  }

  function PlainNames(tunnels: map<string, Tunnel>, sid: nat): set<string> {
    set k | k in tunnels && tunnels[k].session == sid && tunnels[k].kind == Http(k, None)
  }

  function PortsIn(ports: set<int>, tunnels: map<string, Tunnel>): set<int> {
    set p | p in ports && p >= 0 && TcpKey(p) in tunnels
  }

  function HoldAll(names: set<string>, account: nat, until: int): map<string, Hold> {
    map n | n in names :: Hold(account, until)
  }

  function Holding(held: map<string, Hold>, keep: bool, names: set<string>, account: nat, until: int)
    : map<string, Hold>
  {
    if keep then held + HoldAll(names, account, until) else held
  }

  /** The end of a session: exactly its tunnels go, with their ports, and their plain names go on
      hold, unless the client said goodbye. */
  function AfterRemove(c: Config, s: State, sid: nat, now: int): State {
    if sid !in s.sessions then s
    else
      var sess := s.sessions[sid];
      var left := Without(s.tunnels, sid);
      State(
        s.sessions - {sid},
        left,
        Holding(s.held, !sess.goAway && c.grace > 0, PlainNames(s.tunnels, sid), sess.account, now + c.grace),
        PortsIn(s.ports, left),
        s.next)
  }

  function AfterSweep(s: State, now: int): State {
    s.(held := map n | n in s.held && !Expired(s.held[n], now) :: s.held[n])
  }

  /** The names clients connected without having said goodbye are served under. */
  function ConnectedNames(s: State): set<string> {
    set k | k in s.tunnels && s.tunnels[k].kind == Http(k, None) && s.tunnels[k].session in s.sessions
            && !s.sessions[s.tunnels[k].session].goAway
  }

  /** What a stopping server writes down: names on hold, and connected ones from now on. */
  function Saved(c: Config, s: State, now: int): map<string, Hold> {
    if !c.keepsFile || c.grace <= 0 then map[]
    else
      (map n | n in s.held && now < s.held[n].until :: s.held[n]) +
      (map n | n in ConnectedNames(s) :: Hold(s.tunnels[n].account, now + c.grace))
  }

  /** A new server that reads the file. */
  function AfterRestart(c: Config, s: State, stopped: int, started: int): State
    requires c.Valid()
  {
    var saved := Saved(c, s, stopped);
    Start(c).(held := map n | n in saved && started < saved[n].until :: saved[n])
  }
}
