/** The client after a reconnect: it asks for its tunnels again, keeping their deadlines. Times are
    nanoseconds on one clock that client and server share. */
module Clients {
  import opened Base

  const SECOND := 1_000_000_000
  const MAX_ATTEMPTS := 5

  // The rest of a request, which no step looks at, is one opaque value.
  datatype Request = Request(name: string, http: bool, ttl: int, reconnect: bool, rest: nat)

  // auto: the server picked the name.
  datatype Tunnel = Tunnel(id: nat, name: string, auto: bool, request: Option<Request>, expiresAt: Option<int>)

  datatype Failure = NotSent | Dropped | Refused(taken: bool)

  // What the network and the server make of a request.
  datatype Answer = Lost(why: Failure) | Opened(name: string)

  // A request, with the times its lifetime was worked out and it reached the server, and what came of it.
  datatype Sent = Sent(request: Request, asked: int, arrived: int, answer: Answer)

  datatype Fate = Recreated(again: Tunnel, sent: Sent) | Kept | Expired | NoRequest | Cancelled

  /** The server ends a tunnel its lifetime after the request came in; without one, never. */
  function Deadline(ttl: int, arrived: int): Option<int> {
    if ttl <= 0 then None else Some(arrived + ttl * SECOND)
  }

  /** The tunnel of a granted request. A name the server picked is pinned for the next time. */
  function Granted(request: Request, id: nat, name: string, arrived: int): Tunnel {
    if request.name == "" && name != "" && request.http
    then Tunnel(id, name, true, Some(request.(name := name)), Deadline(request.ttl, arrived))
    else Tunnel(id, request.name, false, Some(request), Deadline(request.ttl, arrived))
  }

  /** A tunnel is time-limited exactly when its request was. */
  predicate Timely(t: Tunnel) {
    t.request.Some? ==> 0 <= t.request.value.ttl && (t.request.value.ttl > 0 <==> t.expiresAt.Some?)
  }

  /** Whole seconds left, rounded down. */
  function Left(deadline: int, now: int): int {
    (deadline - now) / SECOND
  }

  /** What is asked for again on a tunnel's behalf: the same, marked as a reconnect, for as long as it
      still has; and, when the picked name has gone to someone else, without it. */
  predicate AsksAgain(t: Tunnel, sent: Sent) {
    && t.request.Some?
    && sent.request == t.request.value.(name := sent.request.name, reconnect := true, ttl := sent.request.ttl)
    && (sent.request.name == t.request.value.name || (t.auto && sent.request.name == ""))
    && sent.asked <= sent.arrived
    && match t.expiresAt
       case None => sent.request.ttl == t.request.value.ttl
       case Some(deadline) => deadline - sent.asked >= SECOND && sent.request.ttl == Left(deadline, sent.asked)
  }

  // ----- Deadlines -----

  /** A time-limited tunnel never asks for zero, which would mean no limit. */
  lemma NeverUnlimited(t: Tunnel, sent: Sent)
    requires AsksAgain(t, sent) && Timely(t)
    ensures sent.request.ttl > 0 <==> t.expiresAt.Some?
    ensures 0 <= sent.request.ttl
  {
  }

  /** Asking again moves a deadline by no more than the request took, and loses less than a second. */
  lemma DeadlineDrifts(t: Tunnel, sent: Sent, id: nat, name: string)
    requires AsksAgain(t, sent) && Timely(t)
    ensures var u := Granted(sent.request, id, name, sent.arrived);
            && Timely(u)
            && (u.expiresAt.Some? <==> t.expiresAt.Some?)
            && (t.expiresAt.Some? ==>
                 var delay := sent.arrived - sent.asked;
                 t.expiresAt.value + delay - SECOND < u.expiresAt.value <= t.expiresAt.value + delay)
  {
  }

  /** The tunnels one is re-created as, reconnect after reconnect. */
  ghost predicate Lineage(tunnels: seq<Tunnel>, sents: seq<Sent>) {
    && |tunnels| == |sents| + 1
    && Timely(tunnels[0])
    && forall i | 0 <= i < |sents| :: AsksAgain(tunnels[i], sents[i]) && Follows(tunnels[i], sents[i], tunnels[i + 1])
  }

  ghost predicate Follows(t: Tunnel, sent: Sent, u: Tunnel) {
    && sent.answer.Opened?
    && SameUpToAuto(u, Granted(sent.request, u.id, sent.answer.name, sent.arrived), t.auto)
  }

  /** A tunnel whose name was once picked stays one of those. */
  predicate SameUpToAuto(u: Tunnel, granted: Tunnel, auto: bool) {
    u == if auto then granted.(auto := true) else granted
  }

  function Delays(sents: seq<Sent>): int
    decreases |sents|
  {
    if sents == [] then 0 else Delays(sents[..|sents| - 1]) + sents[|sents| - 1].arrived - sents[|sents| - 1].asked
  }

  /** After any number of reconnects the deadline is at most the original one plus what the requests
      took together, less at most a second for each; and a tunnel without one never gets one. */
  lemma {:induction false} DeadlineAfterReconnects(tunnels: seq<Tunnel>, sents: seq<Sent>)
    requires Lineage(tunnels, sents)
    ensures var first, last := tunnels[0], tunnels[|sents|];
            && Timely(last)
            && (last.expiresAt.Some? <==> first.expiresAt.Some?)
            && (first.expiresAt.Some? ==>
                 first.expiresAt.value + Delays(sents) - |sents| * SECOND <= last.expiresAt.value
                   <= first.expiresAt.value + Delays(sents))
    decreases |sents|
  {
    if sents != [] {
      var k := |sents| - 1;
      var before := sents[..k];
      forall i | 0 <= i < |before|
        ensures AsksAgain(tunnels[..|sents|][i], before[i])
                && Follows(tunnels[..|sents|][i], before[i], tunnels[..|sents|][i + 1])
      {
        assert before[i] == sents[i];
      }
      DeadlineAfterReconnects(tunnels[..|sents|], before);
      var t, sent, u := tunnels[k], sents[k], tunnels[k + 1];
      assert Follows(t, sent, u);
      DeadlineDrifts(t, sent, u.id, sent.answer.name);
    }
  }

  // ----- Names -----

  /** What a granted request makes: a tunnel under the name asked for, which asks for the same again; but an
      HTTP tunnel without a name gets the one the server picked, and asks for that from then on. */
  lemma GrantNames(request: Request, id: nat, name: string, arrived: int)
    ensures var t := Granted(request, id, name, arrived);
            && t.id == id && t.request.Some?
            && (request.http && request.name == "" && name != "" ==>
                  t.name == name && t.request.value == request.(name := name) && t.auto)
            && (!(request.http && request.name == "" && name != "") ==>
                  t.name == request.name && t.request.value == request && !t.auto)
            && t.expiresAt == if request.ttl <= 0 then None else Some(arrived + request.ttl * 1000000000)
  {
  }

  /** As long as it is asked for each time, a name lasts: after any number of reconnects the tunnel has the one
      it had at first, and asks for it, with everything else as at first and marked as a reconnect. */
  lemma {:induction false} NameAfterReconnects(tunnels: seq<Tunnel>, sents: seq<Sent>, name: string)
    requires Lineage(tunnels, sents) && name != ""
    requires tunnels[0].name == name && tunnels[0].request.Some? && tunnels[0].request.value.name == name
    requires forall i | 0 <= i < |sents| :: sents[i].request.name == name
    ensures var first, last := tunnels[0], tunnels[|sents|];
            && last.name == name && last.auto == first.auto && last.request.Some?
            && last.request.value ==
               first.request.value.(ttl := last.request.value.ttl,
                                    reconnect := sents != [] || first.request.value.reconnect)
    decreases |sents|
  {
    if sents != [] {
      var k := |sents| - 1;
      var before := sents[..k];
      forall i | 0 <= i < |before|
        ensures before[i] == sents[i] && before[i].request.name == name
        ensures AsksAgain(tunnels[..|sents|][i], before[i])
                && Follows(tunnels[..|sents|][i], before[i], tunnels[..|sents|][i + 1])
      {
        assert before[i] == sents[i];
      }
      NameAfterReconnects(tunnels[..|sents|], before, name);
      var t, sent, u := tunnels[k], sents[k], tunnels[k + 1];
      assert AsksAgain(t, sent) && Follows(t, sent, u);
      GrantNames(sent.request, u.id, sent.answer.name, sent.arrived);
    }
  }

  /** A tunnel the server named whose name has gone gets another one, and is still one of those. */
  lemma NewName(t: Tunnel, sent: Sent, u: Tunnel)
    requires AsksAgain(t, sent) && Follows(t, sent, u) && sent.request.name == "" && t.request.value.name != ""
    requires sent.request.http && sent.answer.name != ""
    ensures t.auto && u.auto && u.name == sent.answer.name && u.request.Some?
    ensures u.request.value == t.request.value.(name := sent.answer.name, reconnect := true, ttl := sent.request.ttl)
  {
  }

  // ----- The client -----

  /** What became of one tunnel, out of the map while it was tried. */
  ghost predicate Settled(t: Tunnel, fate: Fate, before: map<nat, Tunnel>, after: map<nat, Tunnel>, now: int) {
    match fate
    case Recreated(u, sent) =>
      && u.id !in before && after == before[u.id := u]
      && AsksAgain(t, sent) && Follows(t, sent, u) && sent.arrived <= now
    case Kept => after == before[t.id := t]
    // Less than a second was left.
    case Expired => after == before && t.expiresAt.Some? && t.expiresAt.value - now < SECOND
    case NoRequest => after == before && t.request.None?
    case Cancelled => after == before
  }

  class Client {
    var tunnels: map<nat, Tunnel>
    var now: int
    // The connection this reconnect made; once it is gone it stays gone.
    var dead: bool
    // Identifiers the server has handed out are below this.
    var issued: nat
    ghost var log: seq<Sent>

    ghost predicate Valid()
      reads this
    {
      forall id | id in tunnels :: tunnels[id].id == id < issued && Timely(tunnels[id])
    }

    /** Sends a request and waits for the answer, whatever it is and however long it takes. */
    method OpenTunnel(request: Request, asked: int) returns (result: Result<Tunnel, Failure>)
      requires Valid() && asked <= now && 0 <= request.ttl
      modifies this
      ensures Valid() && old(now) <= now && (old(dead) ==> dead) && old(issued) <= issued
      ensures |log| == |old(log)| + 1 && log[..|old(log)|] == old(log)
      ensures var sent := log[|old(log)|];
              && sent.request == request && sent.asked == asked && old(now) <= sent.arrived <= now
              && match result
                 case Err(why) => sent.answer == Lost(why) && tunnels == old(tunnels)
                 case Ok(t) =>
                   && old(issued) <= t.id && tunnels == old(tunnels)[t.id := t]
                   && sent.answer.Opened? && t == Granted(request, t.id, sent.answer.name, sent.arrived)
    {
      var there, back :| 0 <= there && 0 <= back;
      var gone: bool := *;
      var answer: Answer := *;
      var arrived := now + there;
      now := arrived + back;
      dead := dead || gone;
      log := log + [Sent(request, asked, arrived, answer)];
      match answer {
        case Lost(why) =>
          return Err(why);
        case Opened(name) =>
          var id := issued;
          issued := issued + 1;
          var t := Granted(request, id, name, arrived);
          tunnels := tunnels[id := t];
          return Ok(t);
      }
    }

    /** Sleeps between two attempts; the client may be stopped meanwhile. */
    method Sleep(delay: nat) returns (cancelled: bool)
      modifies this`now, this`dead
      ensures old(now) <= now && (old(dead) ==> dead) && (!cancelled ==> old(now) + delay <= now)
    {
      var extra :| 0 <= extra;
      var gone: bool := *;
      cancelled := *;
      dead := dead || gone;
      now := if cancelled then now else now + delay + extra;
    }

    /** Time passes, and the connection may go. */
    method Look() returns (lost: bool)
      modifies this`now, this`dead
      ensures old(now) <= now && (old(dead) ==> dead) && lost == dead
    {
      var extra :| 0 <= extra;
      var gone: bool := *;
      now, dead := now + extra, dead || gone;
      lost := dead;
    }

    /** One request on a tunnel's behalf, for what it has left now. None when that is too little. */
    method Ask(t: Tunnel, name: string) returns (result: Option<Result<Tunnel, Failure>>)
      requires Valid() && Timely(t) && t.request.Some?
      requires name == t.request.value.name || (t.auto && name == "")
      modifies this
      ensures Valid() && old(now) <= now && (old(dead) ==> dead) && old(issued) <= issued
      ensures result.None? ==>
        t.expiresAt.Some? && t.expiresAt.value - now < SECOND && tunnels == old(tunnels) && log == old(log)
      ensures result.Some? ==> |log| == |old(log)| + 1 && log[..|old(log)|] == old(log)
      ensures result.Some? ==>
        AsksAgain(t, log[|old(log)|]) && old(now) <= log[|old(log)|].asked && log[|old(log)|].arrived <= now
      ensures result.Some? ==> log[|old(log)|].request.name == name
      ensures result.Some? && result.value.Err? ==>
        tunnels == old(tunnels) && log[|old(log)|].answer == Lost(result.value.error)
      ensures result.Some? && result.value.Ok? ==>
              Taken(result.value.value, log[|old(log)|], old(issued), old(tunnels), tunnels)
    {
      var request := t.request.value.(name := name, reconnect := true);
      var asked := now;
      if t.expiresAt.Some? {
        if t.expiresAt.value - asked < SECOND {
          return None;
        }
        request := request.(ttl := Left(t.expiresAt.value, asked));
      }
      var answer := OpenTunnel(request, asked);
      return Some(answer);
    }

    /** Up to five attempts, waiting twice as long after each. */
    method Retry(t: Tunnel) returns (tried: Tried)
      requires Valid() && Timely(t) && t.request.Some?
      modifies this
      ensures Valid() && old(now) <= now && old(issued) <= issued
      ensures Logged(t, old(log), log) && Spaced(log, |old(log)|)
      ensures |old(log)| <= |log| <= |old(log)| + 5
      ensures !tried.Got? ==> tunnels == old(tunnels)
      ensures tried.OutOfTime? ==> t.expiresAt.Some? && t.expiresAt.value - now < SECOND
      ensures tried.Failed? ==> |log| == |old(log)| + 5
      ensures tried.Got? ==> |log| > |old(log)| && log[|log| - 1].arrived <= now
      ensures tried.Got? ==> Taken(tried.tunnel, log[|log| - 1], old(issued), old(tunnels), tunnels)
      ensures tried.Got? ==> log[|log| - 1].request.name == t.request.value.name
      ensures tried.Failed? ==> log[|log| - 1].answer == Lost(tried.why)
      ensures tried.ConnectionLost? ==> dead
      ensures InVain(t, log, |old(log)|, if tried.Got? then |log| - 1 else |log|)
    {
      hide Logged, Spaced, AsksAgain, InVain, Backoff;
      NothingLogged(t, log);
      FirstBackoff();
      var delay := SECOND;
      for attempt := 0 to MAX_ATTEMPTS
        invariant Valid() && old(now) <= now && old(issued) <= issued && tunnels == old(tunnels)
        invariant attempt < MAX_ATTEMPTS && delay == Backoff(attempt) && |log| == |old(log)| + attempt
        invariant Logged(t, old(log), log) && Spaced(log, |old(log)|) && InVain(t, log, |old(log)|, |log|)
        invariant attempt > 0 ==> log[|log| - 1].arrived + Backoff(attempt - 1) <= now
      {
        ghost var before := log;
        var answer := Ask(t, t.request.value.name);
        if answer.None? {
          return OutOfTime;
        }
        OneMore(t, old(log), before, log);
        OneMoreInVain(t, before, log, |old(log)|);
        if answer.value.Ok? {
          return Got(answer.value.value);
        }
        var lost := Look();
        if lost {
          return ConnectionLost;
        }
        if attempt == MAX_ATTEMPTS - 1 {
          return Failed(answer.value.error);
        }
        var cancelled := Sleep(delay);
        if cancelled {
          return Stopped;
        }
        NextBackoff(attempt);
        delay := delay * 2;
      }
      assert false;
    }

    /** Notes that the name of a re-created tunnel was once picked by the server. */
    method Adopt(t: Tunnel, u: Tunnel) returns (again: Tunnel)
      requires Valid() && u.id in tunnels && tunnels[u.id] == u
      modifies this`tunnels
      ensures Valid() && SameUpToAuto(again, u, t.auto) && tunnels == old(tunnels)[u.id := again]
    {
      again := if t.auto then u.(auto := true) else u;
      tunnels := tunnels[u.id := again];
    }

    method Keep(t: Tunnel)
      requires Valid() && t.id < issued && Timely(t)
      modifies this`tunnels
      ensures Valid() && tunnels == old(tunnels)[t.id := t]
    {
      tunnels := tunnels[t.id := t];
    }

    /** Re-creates one tunnel, which is out of the map. When its picked name has gone to someone else
        it asks once more, for any name. */
    method RecreateOne(t: Tunnel) returns (cancelled: bool, ghost fate: Fate)
      requires Valid() && Timely(t) && t.request.Some? && t.id < issued
      modifies this
      ensures Valid() && old(now) <= now && old(issued) <= issued
      ensures Logged(t, old(log), log) && |log| <= |old(log)| + 6
      ensures cancelled == fate.Cancelled?
      ensures fate.Recreated? ==> old(issued) <= fate.again.id
      ensures Settled(t, fate, old(tunnels), tunnels, now)
      ensures Deserved(t, fate, old(log), log, dead)
    {
      hide InVain, Logged, Spaced, AsksAgain, Timely, SameUpToAuto;
      cancelled := false;
      ghost var first := issued;
      var tried := Retry(t);
      LastInVain(t, old(log), log, tried.Got?);
      match tried {
        case Got(u) =>
          RequestsAgree(t, old(log), log);
          fate := Done(t, u, old(tunnels), first);
        case OutOfTime =>
          fate := Expired;
        case ConnectionLost =>
          Keep(t);
          fate := Kept;
        case Stopped =>
          cancelled, fate := true, Cancelled;
        case Failed(why) =>
          if !(t.auto && why.Refused? && why.taken) {
            Keep(t);
            fate := Kept;
            return;
          }
          ghost var before := log;
          var answer := Ask(t, "");
          if answer.None? {
            fate := Expired;
            return;
          }
          OneMore(t, old(log), before, log);
          StillInVain(t, before, log, |old(log)|);
          if answer.value.Err? {
            Keep(t);
            fate := Kept;
            return;
          }
          fate := Done(t, answer.value.value, old(tunnels), first);
      }
    }

    /** The last request was granted. */
    method Done(t: Tunnel, u: Tunnel, ghost before: map<nat, Tunnel>, ghost issued0: nat) returns (ghost fate: Fate)
      requires Valid() && log != [] && log[|log| - 1].arrived <= now
      requires Taken(u, log[|log| - 1], issued0, before, tunnels) && AsksAgain(t, log[|log| - 1])
      requires forall id | id in before :: id < issued0
      modifies this`tunnels
      ensures Valid() && Settled(t, fate, before, tunnels, now) && fate.Recreated? && issued0 <= fate.again.id
      ensures fate.sent == log[|log| - 1]
    {
      var again := Adopt(t, u);
      ghost var sent := log[|log| - 1];
      assert Follows(t, sent, again);
      fate := Recreated(again, sent);
      assert before[u.id := u][u.id := again] == before[u.id := again];
    }

    /** After a reconnect: every tunnel is taken out and tried in turn. Those without a request are
        dropped. If the client is stopped meanwhile, the rest stay out. */
    method RecreateTunnels() returns (cancelled: bool, ghost fates: map<nat, Fate>)
      requires Valid()
      modifies this
      ensures Valid()
      ensures !cancelled ==> fates.Keys == old(tunnels).Keys
      ensures !cancelled ==> forall id | id in fates :: Ended(old(tunnels)[id], fates[id], tunnels, now)
      ensures !cancelled ==> forall id | id in tunnels :: Accounted(fates, id)
    {
      hide Progress, Settled, Ended, Accounted;
      var todo := tunnels;
      tunnels := map[];
      fates := map[];
      cancelled := false;
      ghost var all, first := todo, issued;
      ProgressStarts(all, now, first);
      while todo != map[]
        invariant Valid() && !cancelled && first <= issued
        invariant Progress(all, todo, fates, tunnels, now, first)
        decreases |todo|
      {
        var id := AnyOf(todo.Keys);
        var t := todo[id];
        SizeWithout(todo, id);
        ghost var before, was := tunnels, now;
        ghost var fate := NoRequest;
        NextOne(all, todo, fates, before, was, first, id);
        if t.request.Some? {
          cancelled, fate := RecreateOne(t);
          if cancelled {
            return;
          }
        }
        Progresses(all, todo, fates, before, tunnels, t, fate, was, now, first);
        todo := todo - {id};
        fates := fates[id := fate];
      }
      ProgressEnds(all, fates, tunnels, now, first);
    }
  }

  /** Between two tunnels: some are done with, the others are out of the map. */
  ghost predicate Progress(all: map<nat, Tunnel>, todo: map<nat, Tunnel>, fates: map<nat, Fate>,
                           tunnels: map<nat, Tunnel>, now: int, first: nat) {
    && (forall id | id in all :: all[id].id == id < first && Timely(all[id]))
    && (forall id | id in todo :: id in all && todo[id] == all[id] && id !in fates && id !in tunnels)
    && (forall id | id in all :: id in todo || id in fates)
    && (forall id | id in fates :: id in all && Ended(all[id], fates[id], tunnels, now))
    && (forall id | id in tunnels :: Accounted(fates, id))
  }

  lemma ProgressStarts(all: map<nat, Tunnel>, now: int, first: nat)
    requires forall id | id in all :: all[id].id == id < first && Timely(all[id])
    ensures Progress(all, all, map[], map[], now, first)
  {
  }

  lemma NextOne(all: map<nat, Tunnel>, todo: map<nat, Tunnel>, fates: map<nat, Fate>, tunnels: map<nat, Tunnel>,
                now: int, first: nat, id: nat)
    requires Progress(all, todo, fates, tunnels, now, first) && id in todo
    ensures todo[id].id == id < first && Timely(todo[id])
    ensures todo[id].request.None? ==> Settled(todo[id], NoRequest, tunnels, tunnels, now)
  {
  }

  lemma ProgressEnds(all: map<nat, Tunnel>, fates: map<nat, Fate>, tunnels: map<nat, Tunnel>, now: int, first: nat)
    requires Progress(all, map[], fates, tunnels, now, first)
    ensures fates.Keys == all.Keys
    ensures forall id | id in fates :: Ended(all[id], fates[id], tunnels, now)
    ensures forall id | id in tunnels :: Accounted(fates, id)
  {
  }

  lemma Progresses(all: map<nat, Tunnel>, todo: map<nat, Tunnel>, fates: map<nat, Fate>, before: map<nat, Tunnel>,
                   after: map<nat, Tunnel>, t: Tunnel, fate: Fate, was: int, now: int, first: nat)
    requires Progress(all, todo, fates, before, was, first) && t.id in todo && todo[t.id] == t && was <= now
    requires Settled(t, fate, before, after, now) && !fate.Cancelled? && (fate.Recreated? ==> first <= fate.again.id)
    ensures Progress(all, todo - {t.id}, fates[t.id := fate], after, now, first)
  {
    StillEnded(all, fates, before, after, t, fate, was, now, first);
    StillAccounted(fates, before, after, t, fate, now);
  }

  /** In the end: re-created, kept for the next reconnect, or dropped because its time had come. */
  ghost predicate Ended(t: Tunnel, fate: Fate, after: map<nat, Tunnel>, now: int) {
    match fate
    case Recreated(u, sent) =>
      u.id in after && after[u.id] == u && AsksAgain(t, sent) && Follows(t, sent, u) && sent.arrived <= now
        && t.id !in after
    case Kept => t.id in after && after[t.id] == t
    case Expired => t.expiresAt.Some? && t.expiresAt.value - now < SECOND && t.id !in after
    case NoRequest => t.request.None? && t.id !in after
    case Cancelled => false
  }

  /** Nothing else is in the map. */
  ghost predicate Accounted(fates: map<nat, Fate>, id: nat) {
    || (id in fates && fates[id].Kept?)
    || exists k :: k in fates && fates[k].Recreated? && fates[k].again.id == id
  }

  lemma StillEnded(all: map<nat, Tunnel>, fates: map<nat, Fate>, before: map<nat, Tunnel>, after: map<nat, Tunnel>,
                   t: Tunnel, fate: Fate, was: int, now: int, first: nat)
    requires t.id < first && t.id !in fates && t.id !in before && was <= now
    requires forall id | id in fates :: id in all
    requires forall id | id in all :: all[id].id == id < first
    requires Settled(t, fate, before, after, now) && !fate.Cancelled? && (fate.Recreated? ==> first <= fate.again.id)
    requires forall id | id in fates :: Ended(all[id], fates[id], before, was)
    ensures forall id | id in fates :: Ended(all[id], fates[id], after, now)
    ensures Ended(t, fate, after, now)
  {
    forall id | id in fates
      ensures Ended(all[id], fates[id], after, now)
    {
      assert Ended(all[id], fates[id], before, was);
      assert all[id].id == id;
    }
  }

  lemma StillAccounted(fates: map<nat, Fate>, before: map<nat, Tunnel>, after: map<nat, Tunnel>, t: Tunnel,
                       fate: Fate, now: int)
    requires t.id !in fates && Settled(t, fate, before, after, now)
    requires forall id | id in before :: Accounted(fates, id)
    ensures forall id | id in after :: Accounted(fates[t.id := fate], id)
  {
    var more := fates[t.id := fate];
    forall id | id in after
      ensures Accounted(more, id)
    {
      if id in before {
        assert Accounted(fates, id);
        if !(id in fates && fates[id].Kept?) {
          var k :| k in fates && fates[k].Recreated? && fates[k].again.id == id;
          assert k in more && more[k] == fates[k];
        }
      } else {
        assert t.id in more && more[t.id] == fate;
      }
    }
  }

  lemma RequestsAgree(t: Tunnel, before: seq<Sent>, after: seq<Sent>)
    requires Logged(t, before, after) && |after| > |before|
    ensures AsksAgain(t, after[|after| - 1])
  {
  }

  datatype Tried = Got(tunnel: Tunnel) | Failed(why: Failure) | OutOfTime | ConnectionLost | Stopped

  /** The tunnel was granted on a request and is in the map under a new identifier. */
  ghost predicate Taken(u: Tunnel, sent: Sent, issued: nat, before: map<nat, Tunnel>, after: map<nat, Tunnel>) {
    && issued <= u.id && after == before[u.id := u]
    && sent.answer.Opened? && u == Granted(sent.request, u.id, sent.answer.name, sent.arrived)
  }

  /** These requests were for the tunnel's own name, and not granted. */
  ghost predicate InVain(t: Tunnel, log: seq<Sent>, from: nat, to: nat) {
    && from <= to <= |log| && t.request.Some?
    && forall i | from <= i < to :: !log[i].answer.Opened? && log[i].request.name == t.request.value.name
  }

  predicate NameGone(answer: Answer) {
    answer == Lost(Refused(true))
  }

  /**
   * Why a tunnel came to its fate: re-created exactly when the last request made for it was granted. Kept only
   * if the connection went, or after five requests in vain - and one more, without the name, if it was a
   * name the server had picked and that was what the last refusal was about.
   */
  ghost predicate Deserved(t: Tunnel, fate: Fate, before: seq<Sent>, after: seq<Sent>, dead: bool)
    requires |before| <= |after|
  {
    var n, last := |after| - |before|, |after| - 1;
    var again := n == 6;
    && t.request.Some?
    && (fate.Recreated? <==> n > 0 && after[last].answer.Opened?)
    && InVain(t, after, |before|, |before| + if again then 5 else if fate.Recreated? then n - 1 else n)
    && (again ==> t.auto && NameGone(after[last - 1].answer) && after[last].request.name == "")
    && (fate.Recreated? ==> fate.sent == after[last] && (!again ==> after[last].request.name == t.request.value.name))
    && (fate.Kept? ==> dead || again || (n == 5 && !(t.auto && NameGone(after[last].answer))))
  }

  /** Every request added to the log is one on the tunnel's behalf. */
  ghost predicate Logged(t: Tunnel, before: seq<Sent>, after: seq<Sent>) {
    && |before| <= |after| && after[..|before|] == before
    && forall i | |before| <= i < |after| :: AsksAgain(t, after[i])
  }

  lemma FirstBackoff()
    ensures Backoff(0) == 1000000000
  {
  }

  lemma NextBackoff(attempt: nat)
    ensures Backoff(attempt + 1) == 2 * Backoff(attempt)
  {
  }

  lemma OneMoreInVain(t: Tunnel, before: seq<Sent>, after: seq<Sent>, from: nat)
    requires InVain(t, before, from, |before|) && |after| == |before| + 1 && after[..|before|] == before
    requires after[|before|].request.name == t.request.value.name
    ensures InVain(t, after, from, |before|)
    ensures !after[|before|].answer.Opened? ==> InVain(t, after, from, |after|)
  {
    assert forall i | 0 <= i < |before| :: after[..|before|][i] == after[i];
  }

  lemma LastInVain(t: Tunnel, before: seq<Sent>, after: seq<Sent>, got: bool)
    requires |before| <= |after| && (got ==> |before| < |after|)
    requires InVain(t, after, |before|, if got then |after| - 1 else |after|)
    ensures t.request.Some?
    ensures !got && |after| > |before| ==>
              !after[|after| - 1].answer.Opened? && after[|after| - 1].request.name == t.request.value.name
  {
  }

  lemma StillInVain(t: Tunnel, before: seq<Sent>, after: seq<Sent>, from: nat)
    requires InVain(t, before, from, |before|) && |after| == |before| + 1 && after[..|before|] == before
    ensures InVain(t, after, from, |before|)
    ensures forall i | 0 <= i < |before| :: after[i] == before[i]
  {
    assert forall i | 0 <= i < |before| :: after[..|before|][i] == after[i];
  }

  lemma NothingLogged(t: Tunnel, log: seq<Sent>)
    ensures Logged(t, log, log) && Spaced(log, |log|)
    ensures t.request.Some? ==> InVain(t, log, |log|, |log|)
  {
  }

  lemma OneMore(t: Tunnel, start: seq<Sent>, before: seq<Sent>, after: seq<Sent>)
    requires Logged(t, start, before) && |after| == |before| + 1 && after[..|before|] == before
             && AsksAgain(t, after[|before|])
    ensures Logged(t, start, after)
    ensures Spaced(before, |start|) && (|before| > |start| ==>
              before[|before| - 1].arrived + Backoff(|before| - 1 - |start|) <= after[|before|].asked) ==>
            Spaced(after, |start|)
  {
    forall i | |start| <= i < |after|
      ensures AsksAgain(t, after[i])
    {
      if i < |before| { assert after[i] == before[i]; }
    }
    assert after[..|start|] == before[..|start|];
    forall i | 0 <= i < |before|
      ensures after[i] == before[i]
    {
      assert after[..|before|][i] == before[i];
    }
  }

  function Backoff(attempt: nat): nat {
    if attempt == 0 then SECOND else 2 * Backoff(attempt - 1)
  }

  /** The waits between attempts double from one second. */
  ghost predicate Spaced(log: seq<Sent>, from: nat) {
    forall i | from <= i < |log| - 1 :: log[i].arrived + Backoff(i - from) <= log[i + 1].asked
  }
}
