/** Token buckets filled lazily on each call, and a manager that evicts idle ones. */
module RateLimits {
  import opened Base

  // ----- One bucket -----

  datatype Params = Params(rate: real, burst: nat) {
    predicate Valid() { 0.0 <= rate }
  }

  datatype Bucket = Bucket(tokens: real, last: real)

  /** The tokens that drip in over a length of time. */
  function Drip(p: Params, dt: real): real {
    dt * p.rate
  }

  lemma DripIs(p: Params, dt: real)
    ensures Drip(p, dt) == dt * p.rate
  {
  }

  lemma DripAdds(p: Params, a: real, b: real)
    ensures Drip(p, a) + Drip(p, b) == Drip(p, a + b)
  {
  }

  lemma DripGrows(p: Params, a: real, b: real)
    requires p.Valid() && a <= b
    ensures Drip(p, a) <= Drip(p, b)
    ensures Drip(p, 0.0) == 0.0
  {
  }

  function FullBucket(p: Params, now: real): Bucket {
    Bucket(p.burst as real, now)
  }

  /** The tokens there are at a time, filled up since the last call but never above the burst. */
  function Available(p: Params, b: Bucket, now: real): real {
    var filled := b.tokens + Drip(p, now - b.last);
    if filled > p.burst as real then p.burst as real else filled
  }

  /** Taking n tokens: all of them or none; either way the bucket is brought up to date. */
  function Take(p: Params, b: Bucket, n: nat, now: real): (Bucket, bool) {
    var a := Available(p, b, now);
    if a >= n as real then (Bucket(a - n as real, now), true) else (Bucket(a, now), false)
  }

  ghost predicate Sound(p: Params, b: Bucket) {
    0.0 <= b.tokens <= p.burst as real
  }

  class Limiter {
    const rate: real
    const burst: nat
    var tokens: real
    var lastUpdate: real

    function P(): Params { Params(rate, burst) }

    function B(): Bucket
      reads this
    {
      Bucket(tokens, lastUpdate)
    }

    constructor (rate: real, burst: nat, now: real)
      ensures P() == Params(rate, burst) && B() == FullBucket(P(), now)
    {
      this.rate, this.burst := rate, burst;
      tokens, lastUpdate := burst as real, now;
    }

    method AllowN(n: nat, now: real) returns (ok: bool)
      modifies this
      ensures (B(), ok) == Take(P(), old(B()), n, now)
      ensures ok <==> n <= burst && n as real <= old(tokens) + (now - old(lastUpdate)) * rate
    {
      GrantExactlyWhen(P(), B(), n, now);
      var elapsed := now - lastUpdate;
      lastUpdate := now;
      tokens := tokens + elapsed * rate;
      if tokens > burst as real {
        tokens := burst as real;
      }
      assert tokens == Available(P(), old(B()), now);
      if tokens >= n as real {
        tokens := tokens - n as real;
        return true;
      }
      return false;
    }

    /** Only looks: the answer is what a call at this time would find. */
    method Tokens(now: real) returns (t: real)
      ensures t == Available(P(), B(), now)
      ensures var filled := tokens + (now - lastUpdate) * rate;
              t == if filled > burst as real then burst as real else filled
    {
      DripIs(P(), now - lastUpdate);
      var elapsed := now - lastUpdate;
      t := tokens + elapsed * rate;
      if t > burst as real {
        t := burst as real;
      }
    }
  }

  // ----- The bound -----

  datatype Call = Call(n: nat, now: real)

  /** Times do not run backwards. */
  ghost predicate Ordered(from: real, calls: seq<Call>) {
    && (calls != [] ==> from <= calls[0].now)
    && forall i | 0 < i < |calls| :: calls[i - 1].now <= calls[i].now
  }

  /** The bucket after the calls, and the tokens they were granted. */
  function Serve(p: Params, b: Bucket, calls: seq<Call>): (Bucket, nat)
    decreases |calls|
  {
    if calls == [] then (b, 0)
    else
      var (b', ok) := Take(p, b, calls[0].n, calls[0].now);
      var (end, granted) := Serve(p, b', calls[1..]);
      (end, granted + if ok then calls[0].n else 0)
  }

  lemma TakeSound(p: Params, b: Bucket, n: nat, now: real)
    requires p.Valid() && Sound(p, b) && b.last <= now
    ensures var (b', ok) := Take(p, b, n, now);
            && Sound(p, b') && b'.last == now
            && b'.tokens + (if ok then n as real else 0.0) == Available(p, b, now)
  {
    DripGrows(p, 0.0, now - b.last);
  }

  /** Tokens granted come out of the bucket or have dripped in since. */
  lemma {:induction false} GrantsAreEarned(p: Params, b: Bucket, calls: seq<Call>, until: real)
    requires p.Valid() && Sound(p, b) && Ordered(b.last, calls)
    requires until == if calls == [] then b.last else calls[|calls| - 1].now
    ensures var (end, granted) := Serve(p, b, calls);
            Sound(p, end) && granted as real + end.tokens <= b.tokens + Drip(p, until - b.last)
    decreases |calls|
  {
    if calls != [] {
      var c := calls[0];
      var (b', ok) := Take(p, b, c.n, c.now);
      TakeSound(p, b, c.n, c.now);
      assert Ordered(c.now, calls[1..]);
      GrantsAreEarned(p, b', calls[1..], until);
      DripAdds(p, until - c.now, c.now - b.last);
      assert until - c.now + (c.now - b.last) == until - b.last;
    }
  }

  /**
   * In any window of any run - that is, from any state a bucket can be in - the tokens granted
   * are at most the burst plus what drips in between the first call and the last.
   */
  lemma TokenBound(p: Params, b: Bucket, calls: seq<Call>)
    requires p.Valid() && Sound(p, b) && Ordered(b.last, calls) && calls != []
    ensures Serve(p, b, calls).1 as real <= p.burst as real + Drip(p, calls[|calls| - 1].now - calls[0].now)
  {
    var c := calls[0];
    var (b', ok) := Take(p, b, c.n, c.now);
    TakeSound(p, b, c.n, c.now);
    assert Ordered(c.now, calls[1..]);
    GrantsAreEarned(p, b', calls[1..], calls[|calls| - 1].now);
  }

  /** The bound is reached: a full bucket grants its burst at once. */
  lemma BoundIsTight(p: Params, now: real)
    requires p.Valid()
    ensures Serve(p, FullBucket(p, now), [Call(p.burst, now)]).1 == p.burst
  {
    var b, calls := FullBucket(p, now), [Call(p.burst, now)];
    DripGrows(p, 0.0, 0.0);
    assert Drip(p, now - now) == 0.0 by { assert now - now == 0.0; }
    assert Take(p, b, p.burst, now) == (Bucket(0.0, now), true);
    assert calls[1..] == [] && Serve(p, Bucket(0.0, now), []) == (Bucket(0.0, now), 0);
  }

  /** A call is granted if and only if it is within the burst, and within what there was and what has dripped
      in since; a grant takes just that and a refusal nothing. */
  predicate FairlyServed(p: Params, b: Bucket, n: nat, now: real, b': Bucket, ok: bool) {
    var level := b.tokens + (now - b.last) * p.rate;
    && (ok <==> n <= p.burst && n as real <= level)
    && b'.last == now
    && b'.tokens == (if level < p.burst as real then level else p.burst as real) - if ok then n as real else 0.0
  }

  lemma GrantExactlyWhen(p: Params, b: Bucket, n: nat, now: real)
    ensures var (b', ok) := Take(p, b, n, now); FairlyServed(p, b, n, now, b', ok)
  {
    var dripped := Drip(p, now - b.last);
    DripIs(p, now - b.last);
    TakeIs(p, b, n, now, dripped);
    hide Drip, Take;
  }

  lemma TakeIs(p: Params, b: Bucket, n: nat, now: real, dripped: real)
    requires dripped == Drip(p, now - b.last)
    ensures var (b', ok) := Take(p, b, n, now);
            && (ok <==> n <= p.burst && n as real <= b.tokens + dripped)
            && b'.last == now
            && b'.tokens == (if b.tokens + dripped < p.burst as real then b.tokens + dripped else p.burst as real) -
                            if ok then n as real else 0.0
  {
    hide Drip;
    assert n as real <= p.burst as real <==> n <= p.burst;
  }

  lemma {:induction false} ServeLast(p: Params, b: Bucket, calls: seq<Call>, c: Call)
    ensures var (end, before) := Serve(p, b, calls);
            var (after, ok) := Take(p, end, c.n, c.now);
            && Serve(p, b, calls + [c]) == (after, before + if ok then c.n else 0)
            && (calls != [] ==> end.last == calls[|calls| - 1].now)
    decreases |calls|
  {
    hide Take;
    if calls == [] {
      assert (calls + [c])[1..] == [] && (calls + [c])[0] == c;
    } else {
      GrantExactlyWhen(p, b, calls[0].n, calls[0].now);
      assert (calls + [c])[0] == calls[0] && (calls + [c])[1..] == calls[1..] + [c];
      ServeLast(p, Take(p, b, calls[0].n, calls[0].now).0, calls[1..], c);
    }
  }

  /** And no smaller request is refused for nothing: after any calls the next one is served fairly. */
  lemma GrantedExactlyWhen(p: Params, b: Bucket, calls: seq<Call>, c: Call) returns (ok: bool)
    ensures var (end, before) := Serve(p, b, calls);
            var (next, after) := Serve(p, b, calls + [c]);
            && FairlyServed(p, end, c.n, c.now, next, ok)
            && after == before + (if ok then c.n else 0)
            && (calls != [] ==> end.last == calls[|calls| - 1].now)
  {
    ServeLast(p, b, calls, c);
    GrantExactlyWhen(p, Serve(p, b, calls).0, c.n, c.now);
    return Take(p, Serve(p, b, calls).0, c.n, c.now).1;
  }

  // ----- The manager -----

  /** Every key has its own parameters, fixed for good. */
  type Rates = string -> Params

  type Buckets = map<string, Bucket>

  // Look is Get followed by Tokens: it makes a limiter where there is none and only reads it.
  datatype Op = Ask(key: string, n: nat, now: real) | Look(key: string, now: real) | Evict(now: real)

  datatype Answer = Granted(ok: bool) | Level(tokens: real) | Evicted

  function BucketFor(p: Params, m: Buckets, key: string, now: real): Bucket {
    if key in m then m[key] else FullBucket(p, now)
  }

  function AfterAsk(p: Params, m: Buckets, key: string, n: nat, now: real): (Buckets, bool) {
    var (b, ok) := Take(p, BucketFor(p, m, key, now), n, now);
    (m[key := b], ok)
  }

  /** A manager grants a key it has not heard of up to the burst, and another what its bucket holds. */
  lemma AskAnswered(p: Params, m: Buckets, key: string, n: nat, now: real)
    requires p.Valid()
    ensures var (m', ok) := AfterAsk(p, m, key, n, now);
            && key in m' && m' - {key} == m - {key}
            && (key in m ==> FairlyServed(p, m[key], n, now, m'[key], ok))
            && (key !in m ==>
                 (ok <==> n <= p.burst) && m'[key] == Bucket((if ok then p.burst - n else p.burst) as real, now))
  {
    GrantExactlyWhen(p, BucketFor(p, m, key, now), n, now);
    assert key !in m ==> (now - now) * p.rate == 0.0;
  }

  /** The buckets not used for longer than maxAge are dropped. */
  function Kept(m: Buckets, now: real, maxAge: real): Buckets {
    map k | k in m && !(m[k].last < now - maxAge) :: m[k]
  }

  function AfterLook(p: Params, m: Buckets, key: string, now: real): (Buckets, real) {
    var b := BucketFor(p, m, key, now);
    (m[key := b], Available(p, b, now))
  }

  /** Looking tells what a call would find, and changes no bucket that was there. */
  lemma LookAnswered(p: Params, m: Buckets, key: string, now: real)
    ensures var (m', level) := AfterLook(p, m, key, now);
            && (key in m ==>
                 var filled := m[key].tokens + (now - m[key].last) * p.rate;
                 m' == m && level == if filled < p.burst as real then filled else p.burst as real)
            && (key !in m ==> m' == m[key := Bucket(p.burst as real, now)] && level == p.burst as real)
  {
    var b := BucketFor(p, m, key, now);
    DripIs(p, now - b.last);
    assert key !in m ==> (now - now) * p.rate == 0.0;
    hide Drip;
    assert key in m ==> m[key := m[key]] == m;
  }

  /** One operation and its answer; eviction does something only when this manager evicts. */
  function AfterOp(rates: Rates, m: Buckets, op: Op, maxAge: Option<real>): (Buckets, Answer) {
    match op
    case Ask(key, n, now) =>
      var (m', ok) := AfterAsk(rates(key), m, key, n, now);
      (m', Granted(ok))
    case Look(key, now) =>
      var (m', tokens) := AfterLook(rates(key), m, key, now);
      (m', Level(tokens))
    case Evict(now) =>
      (if maxAge.Some? then Kept(m, now, maxAge.value) else m, Evicted)
  }

  function Answers(rates: Rates, m: Buckets, ops: seq<Op>, maxAge: Option<real>): seq<Answer>
    decreases |ops|
  {
    if ops == [] then []
    else
      var (m', answer) := AfterOp(rates, m, ops[0], maxAge);
      [answer] + Answers(rates, m', ops[1..], maxAge)
  }

  ghost predicate InOrder(from: real, ops: seq<Op>) {
    && (forall i | 0 <= i < |ops| :: from <= ops[i].now)
    && forall i, j | 0 <= i < j < |ops| :: ops[i].now <= ops[j].now
  }

  predicate Refilled(p: Params, b: Bucket, now: real) {
    b.tokens + Drip(p, now - b.last) >= p.burst as real
  }

  /** Either the same bucket, or b was made full at a time by which c had refilled. */
  predicate Twin(p: Params, b: Bucket, c: Bucket) {
    b == c || (b.tokens == p.burst as real && c.last <= b.last && Refilled(p, c, b.last))
  }

  /** m evicted and r did not: they differ only where r's bucket had filled up again by the time m
      made a new one, or has by now. */
  ghost predicate Alike(rates: Rates, m: Buckets, r: Buckets, now: real) {
    && (forall k | k in r :: Sound(rates(k), r[k]) && r[k].last <= now)
    && (forall k | k in m :: k in r && m[k].last <= now && Twin(rates(k), m[k], r[k]))
    && (forall k | k in r && k !in m :: Refilled(rates(k), r[k], now))
  }

  ghost predicate IdleMeansFull(rates: Rates, maxAge: real) {
    forall k :: rates(k).Valid() && Drip(rates(k), maxAge) >= rates(k).burst as real
  }

  lemma TimePasses(rates: Rates, m: Buckets, r: Buckets, now: real, later: real)
    requires Alike(rates, m, r, now) && now <= later && forall k :: rates(k).Valid()
    ensures Alike(rates, m, r, later)
  {
    forall k | k in r && k !in m
      ensures Refilled(rates(k), r[k], later)
    {
      DripGrows(rates(k), now - r[k].last, later - r[k].last);
    }
  }

  /** Twins hold the same number of tokens from the later one's time on. */
  lemma SameLevel(p: Params, b: Bucket, c: Bucket, now: real)
    requires p.Valid() && Twin(p, b, c) && b.last <= now
    ensures Available(p, b, now) == Available(p, c, now)
  {
    if b != c {
      DripGrows(p, 0.0, now - b.last);
      DripGrows(p, b.last - c.last, now - c.last);
    }
  }

  /** The buckets an operation on a key starts from, in the two managers. */
  lemma BucketsAlike(rates: Rates, m: Buckets, r: Buckets, key: string, now: real)
    requires Alike(rates, m, r, now) && forall k :: rates(k).Valid()
    ensures var p := rates(key);
            var b, c := BucketFor(p, m, key, now), BucketFor(p, r, key, now);
            && Sound(p, c) && c.last <= now && b.last <= now && Twin(p, b, c)
            && Available(p, b, now) == Available(p, c, now)
  {
    var p := rates(key);
    assert p.Valid();
    DripGrows(p, 0.0, 0.0);
    SameLevel(p, BucketFor(p, m, key, now), BucketFor(p, r, key, now), now);
  }

  lemma AskAlike(rates: Rates, m: Buckets, r: Buckets, key: string, n: nat, now: real)
    requires Alike(rates, m, r, now) && forall k :: rates(k).Valid()
    ensures var (m', x) := AfterAsk(rates(key), m, key, n, now);
            var (r', y) := AfterAsk(rates(key), r, key, n, now);
            x == y && Alike(rates, m', r', now)
  {
    var p := rates(key);
    assert p.Valid();
    BucketsAlike(rates, m, r, key, now);
    TakeSound(p, BucketFor(p, r, key, now), n, now);
  }

  lemma LookAlike(rates: Rates, m: Buckets, r: Buckets, key: string, now: real)
    requires Alike(rates, m, r, now) && forall k :: rates(k).Valid()
    ensures var (m', x) := AfterLook(rates(key), m, key, now);
            var (r', y) := AfterLook(rates(key), r, key, now);
            x == y && Alike(rates, m', r', now)
  {
    BucketsAlike(rates, m, r, key, now);
  }

  lemma EvictAlike(rates: Rates, m: Buckets, r: Buckets, now: real, maxAge: real)
    requires Alike(rates, m, r, now) && IdleMeansFull(rates, maxAge)
    ensures Alike(rates, Kept(m, now, maxAge), r, now)
  {
    var m' := Kept(m, now, maxAge);
    forall k | k in r && k !in m'
      ensures Refilled(rates(k), r[k], now)
    {
      if k in m {
        assert rates(k).Valid() && Sound(rates(k), r[k]) && Twin(rates(k), m[k], r[k]);
        assert m[k].last < now - maxAge;
        if m[k] == r[k] {
          DripGrows(rates(k), maxAge, now - r[k].last);
        } else {
          DripGrows(rates(k), m[k].last - r[k].last, now - r[k].last);
        }
      }
    }
  }

  lemma {:induction false} AlikeAnswers(rates: Rates, m: Buckets, r: Buckets, now: real, ops: seq<Op>, maxAge: real)
    requires Alike(rates, m, r, now) && IdleMeansFull(rates, maxAge) && InOrder(now, ops)
    ensures Answers(rates, m, ops, Some(maxAge)) == Answers(rates, r, ops, None)
    decreases |ops|
  {
    if ops != [] {
      var op := ops[0];
      var (m', x) := AfterOp(rates, m, op, Some(maxAge));
      var (r', y) := AfterOp(rates, r, op, None);
      TimePasses(rates, m, r, now, op.now);
      match op {
        case Ask(key, n, t) => AskAlike(rates, m, r, key, n, t);
        case Look(key, t) => LookAlike(rates, m, r, key, t);
        case Evict(t) => EvictAlike(rates, m, r, t, maxAge);
      }
      AlikeAnswers(rates, m', r', op.now, ops[1..], maxAge);
    }
  }

  /** When an idle bucket refills within maxAge, evicting it is invisible: on every run of asking,
      looking and evicting the manager answers as one that never evicts. */
  lemma EvictionIsInvisible(rates: Rates, start: real, ops: seq<Op>, maxAge: real)
    requires IdleMeansFull(rates, maxAge) && InOrder(start, ops)
    ensures Answers(rates, map[], ops, Some(maxAge)) == Answers(rates, map[], ops, None)
  {
    AlikeAnswers(rates, map[], map[], start, ops, maxAge);
  }

  const EVICT_AFTER := 600.0

  /** Tunnel requests: an account's own limit is both rate and burst; without one the defaults hold. */
  function TunnelRates(limits: string -> nat): Rates {
    account => if limits(account) > 0 then Params(limits(account) as real, limits(account)) else Params(100.0, 50)
  }

  /** Failed logins, by remote address. */
  function LoginRates(): Rates {
    ip => Params(0.2, 10)
  }

  /** The server evicts after twice five minutes; neither of its limiters can tell, the throttle for
      logins included, which looks before it lets a login be tried and asks when one has failed. */
  lemma ServerEvictionIsInvisible(limits: string -> nat, start: real, ops: seq<Op>)
    requires InOrder(start, ops)
    ensures Answers(TunnelRates(limits), map[], ops, Some(EVICT_AFTER)) ==
            Answers(TunnelRates(limits), map[], ops, None)
    ensures Answers(LoginRates(), map[], ops, Some(EVICT_AFTER)) == Answers(LoginRates(), map[], ops, None)
  {
    EvictionIsInvisible(TunnelRates(limits), start, ops, EVICT_AFTER);
    EvictionIsInvisible(LoginRates(), start, ops, EVICT_AFTER);
  }

  /** A time after maxAge by which an emptied bucket has not refilled. */
  function TooEarly(p: Params, maxAge: real): real {
    if p.rate == 0.0 then maxAge + 1.0 else (maxAge + p.burst as real / p.rate) / 2.0
  }

  lemma NotRefilled(p: Params, maxAge: real)
    requires p.Valid() && 0.0 <= maxAge && Drip(p, maxAge) < p.burst as real
    ensures maxAge < TooEarly(p, maxAge) && Drip(p, TooEarly(p, maxAge)) < p.burst as real
  {
    if p.rate != 0.0 {
      var full := p.burst as real / p.rate;
      assert Drip(p, full) == p.burst as real;
      if full <= maxAge {
        DripGrows(p, full, maxAge);
      }
      DripAdds(p, maxAge, full);
      DripAdds(p, TooEarly(p, maxAge), TooEarly(p, maxAge));
      assert TooEarly(p, maxAge) + TooEarly(p, maxAge) == maxAge + full;
    }
  }

  /** And only then: otherwise emptying a bucket, waiting just over maxAge and asking again gets a
      second burst that a manager without eviction refuses. */
  lemma EvictionIsVisibleOtherwise(rates: Rates, key: string, maxAge: real)
    requires rates(key).Valid() && 0.0 <= maxAge && Drip(rates(key), maxAge) < rates(key).burst as real
    ensures var p := rates(key);
            var t := TooEarly(p, maxAge);
            var ops := [Ask(key, p.burst, 0.0), Evict(t), Ask(key, p.burst, t)];
            && InOrder(0.0, ops)
            && Answers(rates, map[], ops, Some(maxAge)) == [Granted(true), Evicted, Granted(true)]
            && Answers(rates, map[], ops, None) == [Granted(true), Evicted, Granted(false)]
  {
    var p := rates(key);
    var t := TooEarly(p, maxAge);
    NotRefilled(p, maxAge);
    var ops := [Ask(key, p.burst, 0.0), Evict(t), Ask(key, p.burst, t)];
    var m: Buckets := map[key := Bucket(0.0, 0.0)];
    assert AfterOp(rates, map[], ops[0], None) == (m, Granted(true));
    assert Kept(m, t, maxAge) == map[];
    assert ops[1..] == [Evict(t), Ask(key, p.burst, t)] && ops[1..][1..] == [Ask(key, p.burst, t)];
    LastAnswer(rates, map[], key, p.burst, t, Some(maxAge));
    LastAnswer(rates, m, key, p.burst, t, None);
  }

  lemma LastAnswer(rates: Rates, m: Buckets, key: string, n: nat, t: real, maxAge: Option<real>)
    ensures Answers(rates, m, [Ask(key, n, t)], maxAge) ==
            [Granted(Take(rates(key), BucketFor(rates(key), m, key, t), n, t).1)]
  {
    assert [Ask(key, n, t)][1..] == [];
  }

  // ----- The bound for an evicting manager -----

  function After(rates: Rates, m: Buckets, ops: seq<Op>, maxAge: Option<real>): Buckets
    decreases |ops|
  {
    if ops == [] then m else After(rates, AfterOp(rates, m, ops[0], maxAge).0, ops[1..], maxAge)
  }

  /** The tokens one operation grants to a key. */
  function GrantOf(key: string, op: Op, answer: Answer): nat {
    if op.Ask? && op.key == key && answer == Granted(true) then op.n else 0
  }

  /** The tokens a run grants to a key. */
  function GrantedTo(rates: Rates, m: Buckets, ops: seq<Op>, maxAge: Option<real>, key: string): nat
    decreases |ops|
  {
    if ops == [] then 0
    else
      var (m', answer) := AfterOp(rates, m, ops[0], maxAge);
      GrantOf(key, ops[0], answer) + GrantedTo(rates, m', ops[1..], maxAge, key)
  }

  /** What a call for the key would find. */
  function LevelOf(rates: Rates, m: Buckets, key: string, now: real): real {
    Available(rates(key), BucketFor(rates(key), m, key, now), now)
  }

  ghost predicate Settled(rates: Rates, m: Buckets, now: real) {
    forall k | k in m :: Sound(rates(k), m[k]) && m[k].last <= now
  }

  /** Waiting adds what drips in, at most; the level is never above the burst. */
  lemma LevelDrips(rates: Rates, m: Buckets, key: string, now: real, later: real)
    requires rates(key).Valid() && now <= later
    ensures LevelOf(rates, m, key, later) <= LevelOf(rates, m, key, now) + Drip(rates(key), later - now)
    ensures LevelOf(rates, m, key, now) <= rates(key).burst as real
  {
    var p := rates(key);
    DripGrows(p, 0.0, later - now);
    if key in m {
      DripAdds(p, later - now, now - m[key].last);
      assert later - now + (now - m[key].last) == later - m[key].last;
    } else {
      DripGrows(p, 0.0, 0.0);
    }
  }

  /** An operation takes out of the key's bucket what it grants the key; evicting an idle bucket puts
      nothing in, since that was full. */
  lemma LevelPays(rates: Rates, m: Buckets, op: Op, maxAge: real, key: string)
    requires Settled(rates, m, op.now) && IdleMeansFull(rates, maxAge)
    ensures var (m', answer) := AfterOp(rates, m, op, Some(maxAge));
            && Settled(rates, m', op.now)
            && LevelOf(rates, m', key, op.now) + GrantOf(key, op, answer) as real == LevelOf(rates, m, key, op.now)
  {
    assert rates(key).Valid();
    DripGrows(rates(key), 0.0, 0.0);
    match op {
      case Ask(k, n, now) => AskPays(rates, m, k, n, now, key);
      case Look(k, now) =>
        assert rates(k).Valid();
      case Evict(now) =>
        if key in m && key !in Kept(m, now, maxAge) {
          DripGrows(rates(key), maxAge, now - m[key].last);
        }
    }
  }

  lemma AskPays(rates: Rates, m: Buckets, k: string, n: nat, now: real, key: string)
    requires Settled(rates, m, now) && rates(k).Valid() && rates(key).Valid()
    ensures var (m', ok) := AfterAsk(rates(k), m, k, n, now);
            && Settled(rates, m', now)
            && LevelOf(rates, m', key, now) + (if k == key && ok then n as real else 0.0) == LevelOf(rates, m, key, now)
  {
    var p := rates(k);
    var b := BucketFor(p, m, k, now);
    DripGrows(p, 0.0, 0.0);
    TakeSound(p, b, n, now);
    var b' := Take(p, b, n, now).0;
    assert Drip(p, now - b'.last) == 0.0 by { assert now - b'.last == 0.0; }
  }

  lemma {:induction false} GrantsArePaid(rates: Rates, m: Buckets, from: real, ops: seq<Op>, maxAge: real,
                                         key: string, until: real)
    requires Settled(rates, m, from) && IdleMeansFull(rates, maxAge) && InOrder(from, ops)
    requires until == if ops == [] then from else ops[|ops| - 1].now
    ensures GrantedTo(rates, m, ops, Some(maxAge), key) as real <=
            LevelOf(rates, m, key, from) + Drip(rates(key), until - from)
    decreases |ops|
  {
    var p := rates(key);
    assert p.Valid();
    DripGrows(p, 0.0, 0.0);
    if ops == [] {
      LevelIsNatural(rates, m, key, from);
    } else {
      var op := ops[0];
      var m' := AfterOp(rates, m, op, Some(maxAge)).0;
      LevelDrips(rates, m, key, from, op.now);
      LevelPays(rates, m, op, maxAge, key);
      GrantsArePaid(rates, m', op.now, ops[1..], maxAge, key, until);
      DripAdds(p, until - op.now, op.now - from);
      assert until - op.now + (op.now - from) == until - from;
    }
  }

  lemma LevelIsNatural(rates: Rates, m: Buckets, key: string, now: real)
    requires Settled(rates, m, now) && rates(key).Valid()
    ensures 0.0 <= LevelOf(rates, m, key, now)
  {
    if key in m {
      DripGrows(rates(key), 0.0, now - m[key].last);
    } else {
      DripGrows(rates(key), 0.0, 0.0);
    }
  }

  lemma {:induction false} RunSettles(rates: Rates, m: Buckets, from: real, before: seq<Op>, maxAge: real, to: real)
    requires Settled(rates, m, from) && IdleMeansFull(rates, maxAge) && InOrder(from, before) && from <= to
    requires forall i | 0 <= i < |before| :: before[i].now <= to
    ensures Settled(rates, After(rates, m, before, Some(maxAge)), to)
    decreases |before|
  {
    if before != [] {
      LevelPays(rates, m, before[0], maxAge, "");
      RunSettles(rates, AfterOp(rates, m, before[0], Some(maxAge)).0, before[0].now, before[1..], maxAge, to);
    }
  }

  /** So the bound survives eviction: in any window of any run, an evicting manager grants a key at
      most its burst plus what drips in between the window's first operation and its last. */
  lemma ManagerBound(rates: Rates, start: real, before: seq<Op>, window: seq<Op>, maxAge: real, key: string)
    requires IdleMeansFull(rates, maxAge) && window != [] && InOrder(start, before + window)
    ensures var m := After(rates, map[], before, Some(maxAge));
            var length := window[|window| - 1].now - window[0].now;
            GrantedTo(rates, m, window, Some(maxAge), key) as real <=
            rates(key).burst as real + Drip(rates(key), length)
  {
    hide After, GrantedTo, LevelOf;
    var first := window[0].now;
    WindowInOrder(start, before, window);
    RunSettles(rates, map[], start, before, maxAge, first);
    var m := After(rates, map[], before, Some(maxAge));
    assert rates(key).Valid();
    GrantsArePaid(rates, m, first, window, maxAge, key, window[|window| - 1].now);
    LevelDrips(rates, m, key, first, first);
  }

  lemma WindowInOrder(start: real, before: seq<Op>, window: seq<Op>)
    requires window != [] && InOrder(start, before + window)
    ensures start <= window[0].now && InOrder(start, before) && InOrder(window[0].now, window)
    ensures forall i | 0 <= i < |before| :: before[i].now <= window[0].now
  {
    var all := before + window;
    assert forall i | 0 <= i < |before| :: before[i] == all[i];
    assert forall i | 0 <= i < |window| :: window[i] == all[|before| + i];
  }

  // Limiters are shared objects: a caller that has looked one up keeps using that one.
  class Manager {
    var limiters: map<string, Limiter>
    const rate: real
    const burst: nat

    constructor (rate: real, burst: nat)
      ensures limiters == map[] && this.rate == rate && this.burst == burst && Valid()
    {
      limiters := map[];
      this.rate, this.burst := rate, burst;
    }

    ghost predicate Valid()
      reads this
    {
      forall j, k | j in limiters && k in limiters && j != k :: limiters[j] != limiters[k]
    }

    ghost function View(): Buckets
      reads this, limiters.Values
    {
      map k | k in limiters :: limiters[k].B()
    }

    /** The limiter for a key, made full with the given parameters if there is none. */
    method Obtain(key: string, rate: real, burst: nat, now: real) returns (l: Limiter)
      requires Valid()
      modifies this`limiters
      ensures Valid() && key in limiters && limiters[key] == l
      ensures key in old(limiters) ==> limiters == old(limiters)
      ensures key !in old(limiters) ==> fresh(l) && limiters == old(limiters)[key := l] && l.P() == Params(rate, burst)
      ensures l.B() == BucketFor(Params(rate, burst), old(View()), key, now)
      ensures View() == old(View())[key := l.B()]
    {
      if key in limiters {
        return limiters[key];
      }
      l := new Limiter(rate, burst, now);
      limiters := limiters[key := l];
    }

    /** Get and then Tokens: how the server asks whether a login may be tried. */
    method Look(key: string, now: real) returns (tokens: real)
      requires Valid() && (key in limiters ==> limiters[key].P() == Params(rate, burst))
      modifies this`limiters
      ensures Valid() && key in limiters && limiters[key].P() == Params(rate, burst)
      ensures var (m, level) := AfterLook(Params(rate, burst), old(View()), key, now);
              View() == m && tokens == level
    {
      var l := Obtain(key, rate, burst, now);
      tokens := l.Tokens(now);
    }

    method AllowN(key: string, n: nat, now: real) returns (ok: bool)
      requires Valid() && (key in limiters ==> limiters[key].P() == Params(rate, burst))
      modifies this`limiters, if key in limiters then {limiters[key]} else {}
      ensures Valid() && key in limiters && limiters[key].P() == Params(rate, burst)
      ensures (View(), ok) == AfterAsk(Params(rate, burst), old(View()), key, n, now)
    {
      ok := AllowWith(key, rate, burst, n, now);
    }

    /** The parameters count only when the limiter is made; Allow asks for one token. */
    method AllowWith(key: string, rate: real, burst: nat, n: nat, now: real) returns (ok: bool)
      requires Valid() && (key in limiters ==> limiters[key].P() == Params(rate, burst))
      modifies this`limiters, if key in limiters then {limiters[key]} else {}
      ensures Valid() && key in limiters && limiters[key].P() == Params(rate, burst)
      ensures (View(), ok) == AfterAsk(Params(rate, burst), old(View()), key, n, now)
    {
      ghost var before := View();
      var l := Obtain(key, rate, burst, now);
      ghost var b := BucketFor(Params(rate, burst), before, key, now);
      assert l.P() == Params(rate, burst);
      ok := Draw(key, n, now);
      ghost var after := Take(Params(rate, burst), b, n, now).0;
      assert before[key := b][key := after] == before[key := after];
    }

    /** Asking the limiter under a key leaves the others alone. */
    method Draw(key: string, n: nat, now: real) returns (ok: bool)
      requires Valid() && key in limiters
      modifies limiters[key]
      ensures var (b, granted) := Take(limiters[key].P(), old(limiters[key].B()), n, now);
              View() == old(View())[key := b] && ok == granted
    {
      ghost var before := View();
      var l := limiters[key];
      ok := l.AllowN(n, now);
      assert forall k | k in limiters && k != key :: limiters[k].B() == before[k];
      assert View() == before[key := l.B()];
    }

    method EvictIdle(now: real, maxAge: real) returns (evicted: nat)
      requires Valid()
      modifies this`limiters
      ensures Valid() && View() == Kept(old(View()), now, maxAge)
      ensures limiters ==
              map k | k in old(limiters) && now - old(limiters[k].lastUpdate) <= maxAge :: old(limiters)[k]
      ensures evicted == |old(limiters)| - |limiters|
    {
      evicted := DropIdle(now, maxAge);
    }

    method DropIdle(now: real, maxAge: real) returns (evicted: nat)
      modifies this`limiters
      ensures limiters ==
              map k | k in old(limiters) && now - old(limiters[k].lastUpdate) <= maxAge :: old(limiters)[k]
      ensures evicted == |old(limiters)| - |limiters|
    {
      var cutoff := now - maxAge;
      evicted := 0;
      var keys := limiters.Keys;
      ghost var all := limiters;
      while keys != {}
        invariant keys <= limiters.Keys <= all.Keys
        invariant forall k | k in limiters :: limiters[k] == all[k]
        invariant forall k | k in all :: k in limiters <==> k in keys || !(all[k].lastUpdate < cutoff)
        invariant evicted == |all| - |limiters|
        decreases keys
      {
        var k := AnyOf(keys);
        keys := keys - {k};
        if limiters[k].lastUpdate < cutoff {
          Remove(k);
          evicted := evicted + 1;
        }
      }
    }

    method Remove(key: string)
      modifies this`limiters
      ensures limiters == old(limiters) - {key}
      ensures |limiters| == |old(limiters)| - if key in old(limiters) then 1 else 0
    {
      var rest := limiters - {key};
      assert key in limiters ==> limiters == rest[key := limiters[key]];
      assert key !in limiters ==> limiters == rest;
      limiters := rest;
    }
  }
}
