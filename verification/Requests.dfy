/** Which requests are granted, with what, and which are refused, over what. The conditions are those
    of the request and of the tables, spelled out once more. */
module Requests {
  import opened Base
  import opened Names
  import opened Ports
  import opened Registry
  import opened RegistryRuns

  // ----- Names -----

  /** r is s in lower case. Of what is not ASCII, two letters become ASCII and the rest does not. */
  ghost predicate LowerOf(s: string, r: string) {
    && |r| == |s|
    && forall i | 0 <= i < |s| :: LetterLower(s[i] as int, r[i] as int)
  }

  predicate LetterLower(a: int, b: int) {
    if 65 <= a <= 90 then b == a + 32
    else if a < 128 then b == a
    else if a == 0x130 then b == 105
    else if a == 0x212A then b == 107
    else b >= 128
  }

  /** Letters and digits, and hyphens in between. */
  ghost predicate Label(s: string) {
    && 1 <= |s| <= 63 && s[0] != '-' && s[|s| - 1] != '-'
    && forall i | 0 <= i < |s| :: LabelChar(s[i] as int)
  }

  predicate LabelChar(c: int) {
    97 <= c <= 122 || 65 <= c <= 90 || 48 <= c <= 57 || c == 45
  }

  /** The name a request is about: the one asked for or, if none was, the spare one the server picks. */
  ghost predicate About(w: Wanted, name: string) {
    w.WantHttp? && if w.name == "" then name == w.spare else LowerOf(w.name, name)
  }

  lemma LowerLowers(s: string)
    ensures LowerOf(s, Lower(s))
  {
  }

  lemma LabelIsValid(s: string)
    ensures Label(s) <==> ValidName(s)
  {
    forall i | 0 <= i < |s|
      ensures LabelChar(s[i] as int) <==> AlphaNum(s[i]) || s[i] == '-'
      ensures AlphaNum(s[i]) ==> s[i] != '-'
    {
    }
  }

  /** A label is the lower case of a name in one way only. */
  lemma OneLabel(s: string, a: string, b: string)
    requires LowerOf(s, a) && LowerOf(s, b) && Label(a)
    ensures a == b
  {
    forall i | 0 <= i < |s|
      ensures a[i] == b[i]
    {
      assert LabelChar(a[i] as int);
      assert LetterLower(s[i] as int, a[i] as int) && LetterLower(s[i] as int, b[i] as int);
    }
  }

  lemma LabelIsLower(s: string, name: string)
    requires LowerOf(s, name)
    ensures Label(name) <==> ValidName(Lower(s))
    ensures Label(name) ==> name == Lower(s)
  {
    LowerLowers(s);
    LabelIsValid(Lower(s));
    if Label(name) {
      OneLabel(s, name, Lower(s));
    }
    if Label(Lower(s)) {
      OneLabel(s, Lower(s), name);
    }
  }

  /** So this is what the server looks at. */
  lemma NameAsked(w: Wanted, name: string)
    requires About(w, name)
    ensures Label(name) <==> ValidName(WantedName(w))
    ensures Label(name) ==> name == WantedName(w)
  {
    if w.name == "" {
      LabelIsValid(name);
    } else {
      LabelIsLower(w.name, name);
    }
  }

  // ----- Requests for names -----

  /** What belongs to the service itself. */
  predicate OfTheService(name: string) {
    || name == "www" || name == "api" || name == "admin" || name == "dashboard" || name == "app" || name == "mail"
    || name == "smtp" || name == "ftp" || name == "ns1" || name == "ns2" || name == "status" || name == "wirerift"
    || name == "localhost" || name == "root" || name == "support" || name == "help" || name == "login"
    || name == "auth"
  }

  /** The tunnels of an account's sessions. */
  ghost function OfAccount(s: State, account: nat): set<(nat, nat)> {
    set sid, id | sid in s.sessions && s.sessions[sid].account == account && id in s.sessions[sid].tunnels :: (sid, id)
  }

  predicate RoomInSession(c: Config, s: State, sid: nat) {
    sid in s.sessions && |s.sessions[sid].tunnels| < c.maxTunnelsPerSession
  }

  ghost predicate RoomInAccount(s: State, account: nat, maxTunnels: nat) {
    maxTunnels == 0 || |OfAccount(s, account)| < maxTunnels
  }

  predicate GoodTtl(ttl: int) { 0 <= ttl <= 31536000 }

  /** A custom domain must be proven and nobody else's. */
  predicate GoodDomain(s: State, check: DomainCheck) {
    match check
    case NotAsked => true
    case Unproven => false
    case Proven(domain) => "domain:" + domain !in s.tunnels
  }

  /** On hold for somebody else. */
  predicate HeldFor(s: State, name: string, account: nat, now: int) {
    name in s.held && now <= s.held[name].until && s.held[name].account != account
  }

  /** In use, and not by a tunnel the same account left behind in another session. */
  predicate InUse(s: State, name: string, sid: nat, account: nat, reconnect: bool) {
    && name in s.tunnels
    && !(reconnect && s.tunnels[name].kind.Http? && s.tunnels[name].kind.domain == None
         && s.tunnels[name].account == account && s.tunnels[name].session != sid)
  }

  /** Why a request for a name is refused: the first of the checks it fails. */
  ghost predicate NameAnswer(c: Config, s: State, a: Action, name: string, reply: Reply)
    requires a.Ask? && a.req.wanted.WantHttp?
  {
    var w := a.req.wanted;
    if !a.req.rateOk then reply == Refused(RateLimited)
    else if !RoomInAccount(s, a.account, a.maxTunnels) then reply == Refused(AccountLimit)
    else if !RoomInSession(c, s, a.sid) then reply == Refused(SessionLimit)
    else if !GoodTtl(a.req.ttl) then reply == Refused(BadTtl)
    else if !Label(name) then reply == Refused(BadName)
    else if OfTheService(name) then reply == Refused(ReservedName)
    else if !w.authOk then reply == Refused(BadAuth)
    else if w.domain.Unproven? then reply == Refused(DomainUnproven)
    else if !GoodDomain(s, w.domain) then reply == Refused(DomainInUse)
    else if HeldFor(s, name, a.account, a.now) || InUse(s, name, a.sid, a.account, w.reconnect)
    then reply == Refused(NameTaken)
    else reply == Created(Tunnel(a.tid, a.sid, a.account,
                                 Http(name, if w.domain.Proven? then Some(w.domain.domain) else None), a.req.ttl))
  }

  /** After a grant the tunnel is its session's, and what is found under its name and its domain; the name
      is on hold no more. What else there was is still there. */
  ghost predicate NameGranted(s: State, s': State, t: Tunnel) {
    && t.kind.Http? && t.session in s'.sessions && t.id in s'.sessions[t.session].tunnels
    && s'.sessions[t.session].tunnels[t.id] == t
    && t.kind.name in s'.tunnels && s'.tunnels[t.kind.name] == t && t.kind.name !in s'.held
    && (t.kind.domain.Some? ==>
          "domain:" + t.kind.domain.value in s'.tunnels && s'.tunnels["domain:" + t.kind.domain.value] == t)
    && s'.ports == s.ports
    && forall k | k in s.tunnels && k != t.kind.name :: k in s'.tunnels && s'.tunnels[k] == s.tunnels[k]
  }

  /** A refusal changes nothing, but if it was over the name an expired hold on that is dropped. */
  predicate NothingDone(s: State, s': State, name: string, now: int, overName: bool) {
    s' == if overName && name in s.held && s.held[name].until < now then s.(held := s.held - {name}) else s
  }

  lemma SameAccount(s: State, account: nat)
    ensures OfAccount(s, account) == TunnelsOf(s.sessions, account)
  {
  }

  lemma Reserved(name: string)
    ensures name in RESERVED <==> OfTheService(name)
  {
  }

  /**
   * A request for a name is answered as told: granted if and only if it passes every check, and then
   * with the name, domain and lifetime asked for; and refused over the first it fails.
   */
  lemma NameRequest(c: Config, s: State, a: Action, name: string)
    requires Inv(c, s) && CanDo(s, a) && a.Ask? && a.req.wanted.WantHttp? && About(a.req.wanted, name)
    ensures var (s', reply) := AfterAsk(c, s, a.sid, a.account, a.maxTunnels, a.req, a.tid, a.now);
            && s' == Next(c, s, a)
            && NameAnswer(c, s, a, name, reply)
            && (reply.Created? ==> NameGranted(s, s', reply.tunnel))
            && (reply.Refused? ==> NothingDone(s, s', name, a.now, reply.why.NameTaken?))
  {
    SameAccount(s, a.account);
    NameAsked(a.req.wanted, name);
    Reserved(name);
    if Label(name) && EarlyRefusal(c, s, a.sid, a.account, a.maxTunnels, a.req).None? &&
       HttpRefusal(s, a.req.wanted).None? {
      var t := Tunnel(a.tid, a.sid, a.account, WantedKind(a.req.wanted), a.req.ttl);
      Claimed(c, s, t, a.req.wanted.reconnect, a.now);
    }
  }

  lemma Claimed(c: Config, s: State, t: Tunnel, reconnect: bool, now: int)
    requires Inv(c, s) && t.session in s.sessions && t.account == s.sessions[t.session].account
    requires t.id !in s.sessions[t.session].tunnels && t.kind.Http? && Proper(c, t.kind)
    requires t.kind.domain.Some? ==> DomainKey(t.kind.domain.value) !in s.tunnels
    ensures var (s', reply) := AfterHttp(s, t, reconnect, now);
            && (reply.Created? <==> !HeldFor(s, t.kind.name, t.account, now) &&
                                    !InUse(s, t.kind.name, t.session, t.account, reconnect))
            && (reply.Created? ==> reply == Created(t) && NameGranted(s, s', t))
            && (reply.Refused? ==> reply == Refused(NameTaken) && NothingDone(s, s', t.kind.name, now, true))
  {
    hide Inv, NameGranted, NothingDone, HeldFor, InUse, Proper, AfterHttp;
    ClaimAnswered(c, s, t, reconnect, now);
    Unchanged(s, t.kind.name, now);
    ClaimTaken(c, s, t, reconnect, now);
  }

  lemma ClaimAnswered(c: Config, s: State, t: Tunnel, reconnect: bool, now: int)
    requires t.kind.Http? && t.session in s.sessions
    ensures var (s', reply) := AfterHttp(s, t, reconnect, now);
            && (reply.Created? <==> !HeldFor(s, t.kind.name, t.account, now) &&
                                    !InUse(s, t.kind.name, t.session, t.account, reconnect))
            && (reply.Created? ==> reply == Created(t))
            && (reply.Refused? ==>
                  reply == Refused(NameTaken) && s' == s.(held := Asked(s.held, t.kind.name, now)))
  {
    hide Add, Drop, Asked;
  }

  lemma ClaimTaken(c: Config, s: State, t: Tunnel, reconnect: bool, now: int)
    requires Inv(c, s) && t.session in s.sessions && t.kind.Http? && Proper(c, t.kind)
    requires t.kind.domain.Some? ==> DomainKey(t.kind.domain.value) !in s.tunnels
    ensures var (s', reply) := AfterHttp(s, t, reconnect, now); reply.Created? ==> NameGranted(s, s', t)
  {
    var name := t.kind.name;
    var s1 := s.(held := Asked(s.held, name, now));
    if name in s.tunnels {
      PriorKey(c, s, s.tunnels[name], name);
    }
    hide Inv, NameGranted, Add, Drop, Proper, Asked, HeldByOther;
    if name !in s.tunnels {
      Added(s, s1, t);
    } else if s.tunnels[name].kind == Http(name, None) {
      Dropped(s1, s.tunnels[name]);
      Added(s, Drop(s1, s.tunnels[name]), t);
    }
  }

  lemma Unchanged(s: State, name: string, now: int)
    ensures NothingDone(s, s.(held := Asked(s.held, name, now)), name, now, true)
  {
  }

  lemma Dropped(s: State, t: Tunnel)
    requires t.kind.Http? && t.kind.domain.None?
    ensures var s' := Drop(s, t);
            s'.tunnels == s.tunnels - {t.kind.name} && s'.ports == s.ports && s'.sessions.Keys == s.sessions.Keys
  {
    assert s.ports - {} == s.ports;
  }

  lemma Added(s: State, s1: State, t: Tunnel)
    requires t.kind.Http? && t.session in s1.sessions && s1.ports == s.ports
    requires s1.tunnels == s.tunnels - {t.kind.name} || s1.tunnels == s.tunnels
    requires t.kind.domain.Some? ==> DomainKey(t.kind.domain.value) !in s.tunnels
    ensures NameGranted(s, Add(s1, t), t)
  {
    assert s.ports + {} == s.ports;
  }

  // ----- Requests for ports -----

  /** Why a request for a port, or for something else, is refused; a port is refused only if none of the range
      is found free, or none that is found can be bound. */
  ghost predicate PortAnswer(c: Config, s: State, a: Action, reply: Reply)
    requires a.Ask? && !a.req.wanted.WantHttp?
  {
    if !a.req.rateOk then reply == Refused(RateLimited)
    else if !RoomInAccount(s, a.account, a.maxTunnels) then reply == Refused(AccountLimit)
    else if !RoomInSession(c, s, a.sid) then reply == Refused(SessionLimit)
    else if !GoodTtl(a.req.ttl) then reply == Refused(BadTtl)
    else if a.req.wanted.asksDomain then reply == Refused(DomainNeedsHttp)
    else if a.req.wanted.WantOther? then reply == Refused(Unsupported)
    else match Listen(c.range, s.ports, s.next, a.req.wanted.foreign, false).0
         case NoPorts => reply == Refused(NoPortFree)
         case BindFailed => reply == Refused(CannotBind)
         case Bound(port) => port >= 0 && reply == Created(Tunnel(a.tid, a.sid, a.account, Tcp(port), a.req.ttl))
  }

  /** After a grant the tunnel is its session's, and has a port of the range that was free. */
  ghost predicate PortGranted(c: Config, s: State, s': State, t: Tunnel) {
    && t.kind.Tcp? && t.session in s'.sessions && t.id in s'.sessions[t.session].tunnels
    && s'.sessions[t.session].tunnels[t.id] == t
    && c.range.start <= t.kind.port <= c.range.end && t.kind.port !in s.ports
    && s'.ports == s.ports + {t.kind.port} && s'.held == s.held
    && s'.tunnels == s.tunnels["tcp:" + Itoa(t.kind.port) := t]
  }

  lemma PortRequest(c: Config, s: State, a: Action)
    requires Inv(c, s) && CanDo(s, a) && a.Ask? && !a.req.wanted.WantHttp?
    ensures var (s', reply) := AfterAsk(c, s, a.sid, a.account, a.maxTunnels, a.req, a.tid, a.now);
            && s' == Next(c, s, a)
            && PortAnswer(c, s, a, reply)
            && (reply.Created? ==> PortGranted(c, s, s', reply.tunnel))
            && (reply.Refused? ==> s' == s.(next := s'.next))
            && s'.next ==
               (if reply.Created? || reply.why.NoPortFree? || reply.why.CannotBind?
                then Listen(c.range, s.ports, s.next, a.req.wanted.foreign, false).2 else s.next)
  {
    SameAccount(s, a.account);
    hide Inv, Listen, AfterTcp, AtAccountLimit, OfAccount, PortGranted;
    if EarlyRefusal(c, s, a.sid, a.account, a.maxTunnels, a.req).None? {
      Opened(c, s, Tunnel(a.tid, a.sid, a.account, Tcp(0), a.req.ttl), a.maxTunnels, a.req.wanted.foreign);
    }
  }

  lemma Opened(c: Config, s: State, t: Tunnel, maxTunnels: nat, foreign: seq<set<int>>)
    requires Inv(c, s) && t.session in s.sessions
    requires !AtAccountLimit(s.sessions, t.account, maxTunnels) && !AtSessionLimit(c, s.sessions, t.session)
    ensures var (s', reply) := AfterTcp(c, s, t, maxTunnels, foreign);
            && (match Listen(c.range, s.ports, s.next, foreign, false).0
                case NoPorts => reply == Refused(NoPortFree)
                case BindFailed => reply == Refused(CannotBind)
                case Bound(port) => port >= 0 && reply == Created(t.(kind := Tcp(port))))
            && (reply.Created? ==> PortGranted(c, s, s', reply.tunnel))
            && (reply.Refused? ==> s' == s.(next := s'.next))
            && s'.next == Listen(c.range, s.ports, s.next, foreign, false).2
  {
    assert c.range.Valid();
    hide Listen, Inv, AtAccountLimit, AtSessionLimit, Add, PortGranted;
    ListenKeepsBooks(c.range, s.ports, s.next, foreign, false);
    var (l, taken, next) := Listen(c.range, s.ports, s.next, foreign, false);
    if l.Bound? {
      BoundIsGranted(c, s, s.(next := next), t.(kind := Tcp(l.port)));
    }
  }

  lemma BoundIsGranted(c: Config, s: State, s1: State, t: Tunnel)
    requires t.kind.Tcp? && t.session in s.sessions && c.range.Has(t.kind.port) && t.kind.port !in s.ports
    requires s1 == s.(next := s1.next)
    ensures PortGranted(c, s, Add(s1, t), t)
  {
    assert Keys(t.kind) == {TcpKey(t.kind.port)};
    assert s.held - {} == s.held;
    assert s.tunnels + (map k | k in Keys(t.kind) :: t) == s.tunnels["tcp:" + Itoa(t.kind.port) := t];
  }
}
