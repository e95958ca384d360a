/** Opening TCP tunnels while other requests run: a request binds its port in one step and registers
    the tunnel, or is refused and gives the port back, in another. */
module TcpRuns {
  import opened Names
  import opened Ports
  import opened Registry
  import opened RegistryRuns
  import opened Requests

  // s.ports are the ports of registered tunnels, pending those of requests between the two steps.
  datatype Wide = Wide(s: State, pending: set<int>) {
    /** The port table. */
    function Taken(): set<int> { s.ports + pending }
  }

  datatype Step = Whole(a: Action) | Bind(foreign: seq<set<int>>) | Register(t: Tunnel, maxTunnels: nat)

  /** A request registers the port it bound, for a tunnel identifier of its own. */
  predicate CanStep(w: Wide, x: Step) {
    match x
    case Whole(a) => CanDo(w.s, a) && !(a.Ask? && a.req.wanted.WantTcp?)
    case Bind(_) => true
    case Register(t, _) =>
      && t.kind.Tcp? && t.kind.port in w.pending
      && (t.session in w.s.sessions ==>
            t.account == w.s.sessions[t.session].account && t.id !in w.s.sessions[t.session].tunnels)
  }

  /** A restart ends the requests under way. */
  function After(c: Config, w: Wide, x: Step): Wide
    requires c.Valid()
  {
    match x
    case Whole(a) => Wide(Next(c, w.s, a), if a.Restart? then {} else w.pending)
    case Bind(foreign) =>
      var (l, _, next) := Listen(c.range, w.Taken(), w.s.next, foreign, false);
      Wide(w.s.(next := next), w.pending + if l.Bound? then {l.port} else {})
    case Register(t, maxTunnels) =>
      Wide(AfterBound(c, w.s, t, maxTunnels).0, w.pending - if t.kind.Tcp? then {t.kind.port} else {})
  }

  ghost predicate WideInv(c: Config, w: Wide) {
    && Inv(c, w.s)
    && w.pending !! w.s.ports
    && forall p | p in w.pending :: c.range.Has(p)
  }

  ghost predicate WideRun(c: Config, w: Wide, run: seq<Step>)
    requires c.Valid()
    decreases |run|
  {
    run == [] || (CanStep(w, run[0]) && WideRun(c, After(c, w, run[0]), run[1..]))
  }

  function WideEnd(c: Config, w: Wide, run: seq<Step>): Wide
    requires c.Valid()
    decreases |run|
  {
    if run == [] then w else WideEnd(c, After(c, w, run[0]), run[1..])
  }

  /** Only registering takes ports into the tables. */
  lemma NextKeepsPorts(c: Config, s: State, a: Action)
    requires c.Valid() && !(a.Ask? && a.req.wanted.WantTcp?)
    ensures Next(c, s, a).ports <= s.ports
  {
    match a {
      case Ask(sid, account, maxTunnels, req, tid, now) => HttpTakesNoPort(c, s, a);
      case _ =>
    }
  }

  lemma HttpTakesNoPort(c: Config, s: State, a: Action)
    requires c.Valid() && a.Ask? && !a.req.wanted.WantTcp?
    ensures Next(c, s, a).ports <= s.ports
  {
    var Ask(sid, account, maxTunnels, req, tid, now) := a;
    if EarlyRefusal(c, s, sid, account, maxTunnels, req).None? && HttpRefusal(s, req.wanted).None? {
      var t := Tunnel(tid, sid, account, WantedKind(req.wanted), req.ttl);
      assert PortsOf(t.kind) == {};
    }
  }

  lemma StepKeepsInv(c: Config, w: Wide, x: Step)
    requires WideInv(c, w) && CanStep(w, x)
    ensures WideInv(c, After(c, w, x))
  {
    hide Listen, Next;
    match x {
      case Whole(a) =>
        NextKeepsInv(c, w.s, a);
        NextKeepsPorts(c, w.s, a);
      case Bind(foreign) =>
        ListenKeepsBooks(c.range, w.Taken(), w.s.next, foreign, false);
        SameTables(c, w.s, After(c, w, x).s);
      case Register(t, maxTunnels) =>
        BoundKeepsInv(c, w.s, t, maxTunnels);
    }
  }

  lemma {:induction false} WideRunKeepsInv(c: Config, w: Wide, run: seq<Step>)
    requires WideInv(c, w) && WideRun(c, w, run)
    ensures WideInv(c, WideEnd(c, w, run))
    decreases |run|
  {
    if run != [] {
      StepKeepsInv(c, w, run[0]);
      hide WideInv, CanStep, After;
      WideRunKeepsInv(c, After(c, w, run[0]), run[1..]);
    }
  }

  /** However the requests interleave, the port table holds the ports of the registered tunnels and
      of the requests under way, each once: no refusal leaks a port, no port is given twice. */
  lemma NoPortLeaks(c: Config, run: seq<Step>)
    requires c.Valid() && WideRun(c, Wide(Start(c), {}), run)
    ensures var w := WideEnd(c, Wide(Start(c), {}), run);
            && Inv(c, w.s) && w.pending !! w.s.ports
            && (forall p: nat :: p in w.Taken() <==> p in w.pending || TcpKey(p) in w.s.tunnels)
            && (forall p | p in w.Taken() :: c.range.Has(p))
  {
    WideRunKeepsInv(c, Wide(Start(c), {}), run);
  }

  /** A request's port stays its own until it registers it or the server restarts. */
  lemma PendingStays(c: Config, w: Wide, x: Step, port: int)
    requires WideInv(c, w) && CanStep(w, x) && port in w.pending
    ensures port in After(c, w, x).pending <==>
            !(x.Register? && x.t.kind == Tcp(port)) && !(x.Whole? && x.a.Restart?)
    ensures x.Bind? ==>
      || After(c, w, x).pending == w.pending
      || exists p :: p !in w.Taken() && After(c, w, x).pending == w.pending + {p}
  {
    hide Listen, Next;
    if x.Bind? {
      ListenKeepsBooks(c.range, w.Taken(), w.s.next, x.foreign, false);
    }
  }

  lemma BoundAnswered(c: Config, s: State, t: Tunnel, maxTunnels: nat)
    ensures AfterBound(c, s, t, maxTunnels).1.Created? <==>
            RoomInAccount(s, t.account, maxTunnels) && RoomInSession(c, s, t.session)
  {
    SameAccount(s, t.account);
  }

  lemma RegisterSettles(c: Config, w: Wide, t: Tunnel, maxTunnels: nat)
    requires WideInv(c, w) && CanStep(w, Register(t, maxTunnels))
    ensures Settled(c, w, t, maxTunnels)
  {
    BoundAnswered(c, w.s, t, maxTunnels);
    hide Inv, AtAccountLimit, AtSessionLimit, RoomInAccount, RoomInSession;
    assert t.kind.port !in w.s.ports;
    assert Keys(t.kind) == {TcpKey(t.kind.port)};
  }

  /** Granted if and only if the account and the session still have room. A refusal leaves the tables as
      they are and the port table without the port; else the port and its key are the tunnel's. */
  ghost predicate Settled(c: Config, w: Wide, t: Tunnel, maxTunnels: nat)
    requires c.Valid() && t.kind.Tcp?
  {
    var w', reply := After(c, w, Register(t, maxTunnels)), AfterBound(c, w.s, t, maxTunnels).1;
    && t.kind.port !in w'.pending
    && (reply.Created? <==> RoomInAccount(w.s, t.account, maxTunnels) && RoomInSession(c, w.s, t.session))
    && if reply.Refused? then w'.s == w.s && w'.Taken() == w.Taken() - {t.kind.port}
       else && w'.Taken() == w.Taken()
            && TcpKey(t.kind.port) in w'.s.tunnels && w'.s.tunnels[TcpKey(t.kind.port)] == t
  }

  predicate Takes(x: Step, port: nat) {
    (x.Register? && x.t.kind == Tcp(port)) || (x.Whole? && x.a.Restart?)
  }

  /** From its binding on, through any run in which its request does not go on and the server does not
      restart, a port is its request's alone: no tunnel has it. When the request does go on, it either
      gets a tunnel under the port's key or leaves nothing behind. */
  lemma {:induction false} BoundPortIsSettled(c: Config, w: Wide, run: seq<Step>, t: Tunnel, maxTunnels: nat)
    requires WideInv(c, w) && WideRun(c, w, run) && t.kind.Tcp? && t.kind.port in w.pending
    requires forall i | 0 <= i < |run| :: !Takes(run[i], t.kind.port)
    ensures var w' := WideEnd(c, w, run);
            && t.kind.port in w'.pending && TcpKey(t.kind.port) !in w'.s.tunnels
            && (CanStep(w', Register(t, maxTunnels)) ==> Settled(c, w', t, maxTunnels))
    decreases |run|
  {
    hide After, CanStep, Settled;
    if run == [] {
      assert t.kind.port !in w.s.ports;
      if CanStep(w, Register(t, maxTunnels)) {
        RegisterSettles(c, w, t, maxTunnels);
      }
    } else {
      assert !Takes(run[0], t.kind.port);
      StepKeepsInv(c, w, run[0]);
      PendingStays(c, w, run[0], t.kind.port);
      BoundPortIsSettled(c, After(c, w, run[0]), run[1..], t, maxTunnels);
    }
  }
}
