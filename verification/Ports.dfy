/** Public TCP ports: a 32-bit counter that wraps, reduced into the configured range. */
module Ports {
  import opened Base

  const MAX32 := 0x7fff_ffff
  const MIN32 := -0x8000_0000
  const WRAP := 0x1_0000_0000
  const MAX_BIND_ATTEMPTS := 16

  type Int32 = n: int | MIN32 <= n <= MAX32

  datatype Range = Range(start: int, end: int) {
    // A range the operator typed backwards is an empty one.
    predicate Valid() { 0 <= start <= 65535 && 0 <= end <= 65535 }

    function Size(): nat { if end < start then 0 else end - start + 1 }

    predicate Has(port: int) { start <= port <= end }

    function All(): set<int> { set p: int | start <= p <= end && Has(p) }
  }

  function Add32(n: Int32): Int32 {
    if n == MAX32 then MIN32 else n + 1
  }

  /** The remainder of a division that truncates towards zero: it has the sign of a. */
  function TruncMod(a: int, b: int): int
    requires b > 0
  {
    if a >= 0 then a % b else -((-a) % b)
  }

  function PortFor(r: Range, raw: int): int
    requires r.Size() > 0
  {
    var port := r.start + TruncMod(raw - r.start, r.Size());
    if port < r.start then port + r.Size() else port
  }

  // ----- Remainders -----

  lemma Multiple(k: int, b: int)
    requires b > 0
    ensures k >= 1 ==> k * b >= b
    ensures k <= 0 ==> k * b <= 0
    ensures k <= -1 ==> k * b <= -b
  {
    if k >= 1 {
      assert k * b == (k - 1) * b + b && (k - 1) * b >= 0;
    } else {
      assert -k * b >= 0;
      if k <= -1 { assert (-k - 1) * b >= 0; }
    }
  }

  lemma Division(a: int, b: int, q: int, m: int)
    requires b > 0 && a == q * b + m && 0 <= m < b
    ensures a % b == m
  {
    var q', m' := a / b, a % b;
    Quotient(a, b);
    Distribute(q, q', b);
    Multiple(q - q', b);
  }

  lemma Quotient(a: int, b: int)
    requires b > 0
    ensures a == a / b * b + a % b && 0 <= a % b < b
  {
  }

  lemma Distribute(j: int, k: int, b: int)
    ensures (j - k) * b == j * b - k * b
  {
  }

  lemma AddMultiple(a: int, b: int, k: int)
    requires b > 0
    ensures (a + k * b) % b == a % b
  {
    Distribute(a / b, -k, b);
    Quotient(a, b);
    assert -k * b == -(k * b);
    Division(a + k * b, b, a / b + k, a % b);
  }

  lemma SameRemainder(a: int, c: int, b: int)
    requires b > 0 && a % b == c % b
    ensures !(0 < a - c < b)
  {
    var k := a / b - c / b;
    Quotient(a, b);
    Quotient(c, b);
    Distribute(a / b, c / b, b);
    Multiple(k, b);
  }

  lemma Negated(a: int, b: int)
    requires b > 0
    ensures a % b == if (-a) % b == 0 then 0 else b - (-a) % b
  {
    var q, m := (-a) / b, (-a) % b;
    assert a == -q * b - m;
    if m == 0 {
      Division(a, b, -q, 0);
    } else {
      assert (-q - 1) * b == -q * b - b;
      Division(a, b, -q - 1, b - m);
    }
  }

  /** Every counter value, negative ones too, falls in the range, one further for each step. */
  lemma PortInRange(r: Range, raw: int)
    requires r.Size() > 0
    ensures PortFor(r, raw) == r.start + (raw - r.start) % r.Size()
    ensures r.Has(PortFor(r, raw))
  {
    Negated(raw - r.start, r.Size());
  }

  // ----- One scan -----

  /** The counter after i steps. */
  function RawAt(next: Int32, i: nat): Int32
    requires i <= 0x1_0000
  {
    if next + i <= MAX32 then next + i else next + i - WRAP
  }

  /** Up to n steps to a port that is not taken, and the counter after them. */
  function Scan(r: Range, taken: set<int>, next: Int32, n: nat): (Option<int>, Int32)
    requires n <= r.Size()
    decreases n
  {
    if n == 0 then (None, next)
    else
      var raw := Add32(next);
      var port := PortFor(r, raw);
      if port !in taken then (Some(port), raw) else Scan(r, taken, raw, n - 1)
  }

  /** A scan ends at the first step whose port is free; it fails when every step's port is taken. */
  lemma {:induction false} ScanStops(r: Range, taken: set<int>, next: Int32, n: nat)
    requires r.Valid() && n <= r.Size()
    ensures var (port, raw) := Scan(r, taken, next, n);
            && (port.None? ==> forall i | 1 <= i <= n :: PortFor(r, RawAt(next, i)) in taken)
            && (port.Some? ==> exists i | 1 <= i <= n :: StopsAt(r, taken, next, i, port.value, raw))
    decreases n
  {
    if n > 0 {
      var raw := Add32(next);
      assert raw == RawAt(next, 1);
      if PortFor(r, raw) !in taken {
        assert StopsAt(r, taken, next, 1, PortFor(r, raw), raw);
      } else {
        ScanStops(r, taken, raw, n - 1);
        forall i | 1 <= i <= n - 1
          ensures RawAt(raw, i) == RawAt(next, i + 1)
        {
        }
        var (port, end) := Scan(r, taken, raw, n - 1);
        if port.Some? {
          var i :| 1 <= i <= n - 1 && StopsAt(r, taken, raw, i, port.value, end);
          forall j | 1 <= j < i + 1
            ensures PortFor(r, RawAt(next, j)) in taken
          {
            if j > 1 { assert RawAt(next, j) == RawAt(raw, j - 1); }
          }
          assert StopsAt(r, taken, next, i + 1, port.value, end);
        } else {
          forall j | 1 <= j <= n
            ensures PortFor(r, RawAt(next, j)) in taken
          {
            if j > 1 { assert RawAt(next, j) == RawAt(raw, j - 1); }
          }
        }
      }
    }
  }

  ghost predicate StopsAt(r: Range, taken: set<int>, next: Int32, i: nat, port: int, raw: Int32)
    requires r.Size() > 0 && i <= 0x1_0000
  {
    && raw == RawAt(next, i) && port == PortFor(r, raw) && port !in taken
    && forall j | 1 <= j < i :: PortFor(r, RawAt(next, j)) in taken
  }

  // ----- Which ports a scan visits -----

  /** The scan runs over the counter's overflow part of the way. */
  predicate Crosses(r: Range, next: Int32) {
    0 < MAX32 - next < r.Size()
  }

  /** The overflow does not disturb the remainders. */
  predicate WrapsEvenly(r: Range) {
    r.Size() > 0 && WRAP % r.Size() == 0
  }

  /** The step at which a scan visits a port, if it is a scan that visits all of them. */
  function StepOf(r: Range, next: Int32, port: int): int
    requires r.Size() > 0
  {
    1 + (port - Behind(next) - 1) % r.Size()
  }

  /** The value one below the first one tried. */
  function Behind(next: Int32): int {
    if next == MAX32 then MIN32 - 1 else next
  }

  lemma Reaches(b: int, offset: int, start: int, size: int)
    requires 0 <= offset < size
    ensures var i := 1 + (start + offset - b - 1) % size;
            1 <= i <= size && (b + i - start) % size == offset
  {
    var d := start + offset - b - 1;
    Quotient(d, size);
    Distribute(0, d / size, size);
    AddMultiple(offset, size, -(d / size));
    Division(offset, size, 0, offset);
    assert b + (1 + d % size) - start == offset + -(d / size) * size;
  }

  lemma StepVisits(r: Range, next: Int32, port: int)
    requires r.Valid() && r.Has(port) && (!Crosses(r, next) || WrapsEvenly(r))
    ensures 1 <= StepOf(r, next, port) <= r.Size()
    ensures PortFor(r, RawAt(next, StepOf(r, next, port))) == port
  {
    var size, b := r.Size(), Behind(next);
    var i := StepOf(r, next, port);
    Reaches(b, port - r.start, r.start, size);
    PortInRange(r, b + i);
    if WrapsEvenly(r) {
      WrapShifts(r, b + i);
    }
  }

  /** The overflow moves the ports on by what the span leaves over after whole ranges. */
  lemma WrapShifts(r: Range, raw: int)
    requires r.Size() > 0
    ensures PortFor(r, raw - WRAP) == PortFor(r, raw - WRAP % r.Size())
  {
    var size := r.Size();
    var near := raw - WRAP % size;
    Quotient(WRAP, size);
    Distribute(0, WRAP / size, size);
    AddMultiple(near - r.start, size, -(WRAP / size));
    PortInRange(r, near);
    PortInRange(r, raw - WRAP);
  }

  /** Counter values less than a range apart give different ports. */
  lemma CloseValuesDiffer(r: Range, a: int, c: int)
    requires 0 < c - a < r.Size()
    ensures PortFor(r, a) != PortFor(r, c)
  {
    PortInRange(r, a);
    PortInRange(r, c);
    if PortFor(r, a) == PortFor(r, c) {
      SameRemainder(c - r.start, a - r.start, r.Size());
    }
  }

  /** A run of range-many counter values that does not cross the overflow hits every port exactly once. */
  lemma EachPortOnce(r: Range, next: Int32, port: int)
    requires r.Valid() && r.Has(port) && !Crosses(r, next)
    ensures exists i | 1 <= i <= r.Size() :: PortFor(r, RawAt(next, i)) == port
    ensures forall i, j | 1 <= i < j <= r.Size() :: PortFor(r, RawAt(next, i)) != PortFor(r, RawAt(next, j))
  {
    StepVisits(r, next, port);
    forall i, j | 1 <= i < j <= r.Size()
      ensures PortFor(r, RawAt(next, i)) != PortFor(r, RawAt(next, j))
    {
      CloseValuesDiffer(r, RawAt(next, i), RawAt(next, j));
    }
  }

  /** A port that a scan across the overflow does not visit. */
  function Missed(r: Range, next: Int32): int
    requires Crosses(r, next)
  {
    var size := r.Size();
    PortFor(r, MAX32 + 1 + Min(size - (MAX32 - next) - 1, size - WRAP % size - 1))
  }

  lemma MissedIsMissed(r: Range, next: Int32, i: nat)
    requires r.Valid() && Crosses(r, next) && !WrapsEvenly(r) && 1 <= i <= r.Size()
    ensures PortFor(r, RawAt(next, i)) != Missed(r, next)
  {
    var size := r.Size();
    var x := Min(size - (MAX32 - next) - 1, size - WRAP % size - 1);
    var raw := MAX32 + 1 + x;
    if next + i <= MAX32 {
      CloseValuesDiffer(r, next + i, raw);
    } else {
      // Taking off whole ranges brings the value to less than a range below.
      WrapShifts(r, next + i);
      CloseValuesDiffer(r, next + i - WRAP % size, raw);
    }
  }

  /** Allocation fails only when every port is taken - exactly when the scan does not run over the
      overflow, or the range divides the counter's span. */
  lemma ScanIsComplete(r: Range, next: Int32)
    requires r.Valid()
    ensures (forall taken: set<int> :: Scan(r, taken, next, r.Size()).0.None? ==> r.All() <= taken) <==>
            (!Crosses(r, next) || WrapsEvenly(r))
  {
    if !Crosses(r, next) || WrapsEvenly(r) {
      forall taken: set<int> | Scan(r, taken, next, r.Size()).0.None?
        ensures r.All() <= taken
      {
        ScanStops(r, taken, next, r.Size());
        forall p | r.Has(p)
          ensures p in taken
        {
          StepVisits(r, next, p);
        }
      }
    } else {
      var p := Missed(r, next);
      PortInRange(r, MAX32 + 1 + Min(r.Size() - (MAX32 - next) - 1, r.Size() - WRAP % r.Size() - 1));
      var taken := r.All() - {p};
      MissFree(r, next, taken);
      assert p in r.All();
    }
  }

  lemma MissFree(r: Range, next: Int32, taken: set<int>)
    requires r.Valid() && Crosses(r, next) && !WrapsEvenly(r) && taken == r.All() - {Missed(r, next)}
    ensures Scan(r, taken, next, r.Size()).0.None?
  {
    ScanStops(r, taken, next, r.Size());
    forall i | 1 <= i <= r.Size()
      ensures PortFor(r, RawAt(next, i)) in taken
    {
      MissedIsMissed(r, next, i);
      PortInRange(r, RawAt(next, i));
    }
  }

  // ----- Binding -----

  datatype Listened = Bound(port: int) | NoPorts | BindFailed

  /** Allocate and bind; while the bind fails, give the port back and try again. At each attempt
      some ports are held by other programs of the host. */
  function Listen(r: Range, taken: set<int>, next: Int32, foreign: seq<set<int>>, failed: bool)
    : (Listened, set<int>, Int32)
    decreases |foreign|
  {
    if foreign == [] then (BindFailed, taken, next)
    else
      var (port, next') := Scan(r, taken, next, r.Size());
      if port.None? then (if failed then BindFailed else NoPorts, taken, next')
      else if port.value !in foreign[0] then (Bound(port.value), taken + {port.value}, next')
      else Listen(r, taken, next', foreign[1..], true)
  }

  /** A port that is bound was free and is now taken; nothing else changes, and a failure leaks no port. */
  lemma {:induction false} ListenKeepsBooks(r: Range, taken: set<int>, next: Int32, foreign: seq<set<int>>,
                                            failed: bool)
    requires r.Valid()
    ensures var (l, taken', _) := Listen(r, taken, next, foreign, failed);
            && (!l.Bound? ==> taken' == taken)
            && (l.Bound? ==> r.Has(l.port) && l.port !in taken && taken' == taken + {l.port})
    decreases |foreign|
  {
    if foreign != [] {
      ScanStops(r, taken, next, r.Size());
      var (port, next') := Scan(r, taken, next, r.Size());
      if port.Some? {
        PortInRange(r, next');
        if port.value in foreign[0] {
          ListenKeepsBooks(r, taken, next', foreign[1..], true);
        }
      }
    }
  }

  /** A counter value that leads to a free port some other program holds. */
  ghost predicate Blocked(r: Range, taken: set<int>, held: set<int>, raw: int) {
    r.Size() > 0 && PortFor(r, raw) !in taken && PortFor(r, raw) in held
  }

  ghost function BlockedIn(r: Range, taken: set<int>, held: set<int>, lo: int, hi: int): set<int> {
    set raw | lo < raw < hi && Blocked(r, taken, held, raw)
  }

  /** With a port that can be bound at counter value hi and fewer blocked values before it than
      attempts left, listening succeeds. */
  lemma {:induction false} ListenReaches(r: Range, taken: set<int>, next: Int32, foreign: seq<set<int>>, failed: bool,
                                         held: set<int>, hi: int)
    requires r.Valid() && next < hi <= next + r.Size() && hi <= MAX32
    requires PortFor(r, hi) !in taken && PortFor(r, hi) !in held
    requires forall i | 0 <= i < |foreign| :: foreign[i] == held
    requires |BlockedIn(r, taken, held, next, hi)| < |foreign|
    ensures Listen(r, taken, next, foreign, failed).0.Bound?
    decreases |foreign|
  {
    var (port, next') := Scan(r, taken, next, r.Size());
    StopsBefore(r, taken, next, hi);
    if port.value in held {
      assert next' != hi;
      assert BlockedIn(r, taken, held, next, hi) >= BlockedIn(r, taken, held, next', hi) + {next'};
      Smaller(BlockedIn(r, taken, held, next', hi) + {next'}, BlockedIn(r, taken, held, next, hi));
      ListenReaches(r, taken, next', foreign[1..], true, held, hi);
    }
  }

  lemma StopsBefore(r: Range, taken: set<int>, next: Int32, hi: int)
    requires r.Valid() && next < hi <= next + r.Size() && hi <= MAX32 && PortFor(r, hi) !in taken
    ensures var (port, next') := Scan(r, taken, next, r.Size());
            port.Some? && next < next' <= hi && PortFor(r, next') == port.value && port.value !in taken
  {
    ScanStops(r, taken, next, r.Size());
    assert RawAt(next, hi - next) == hi;
    var (port, next') := Scan(r, taken, next, r.Size());
    assert port.Some?;
    var i :| 1 <= i <= r.Size() && StopsAt(r, taken, next, i, port.value, next');
    assert i <= hi - next;
  }

  /** Fewer than a range of counter values block at most once for each held port. */
  lemma {:induction false} BlockedByHeld(r: Range, raws: set<int>, ports: set<int>, lo: int)
    requires forall raw | raw in raws :: lo < raw <= lo + r.Size() && r.Size() > 0 && PortFor(r, raw) in ports
    ensures |raws| <= |ports|
    decreases raws
  {
    if raws != {} {
      var raw := AnyIn(raws);
      var p := PortFor(r, raw);
      forall other | other in raws - {raw}
        ensures PortFor(r, other) in ports - {p}
      {
        CloseValuesDiffer(r, Min(raw, other), Max(raw, other));
      }
      BlockedByHeld(r, raws - {raw}, ports - {p}, lo);
    }
  }

  ghost function AnyIn<T>(s: set<T>): T
    requires s != {}
    ensures AnyIn(s) in s
  {
    var x :| x in s; x
  }

  /** One free port that can be bound is found even when other programs hold up to fifteen of the
      free ones (away from the overflow). */
  lemma ListenFindsBindable(r: Range, taken: set<int>, next: Int32, held: set<int>, foreign: seq<set<int>>, port: int)
    requires r.Valid() && next + r.Size() <= MAX32
    requires r.Has(port) && port !in taken && port !in held
    requires |foreign| == 16 && forall i | 0 <= i < |foreign| :: foreign[i] == held
    requires |(r.All() - taken) * held| <= 15
    ensures Listen(r, taken, next, foreign, false).0.Bound?
  {
    StepVisits(r, next, port);
    var hi := next + StepOf(r, next, port);
    assert RawAt(next, hi - next) == hi;
    var raws := BlockedIn(r, taken, held, next, hi);
    forall raw | raw in raws
      ensures PortFor(r, raw) in (r.All() - taken) * held
    {
      PortInRange(r, raw);
    }
    BlockedByHeld(r, raws, (r.All() - taken) * held, next);
    ListenReaches(r, taken, next, foreign, false, held, hi);
  }

  /** What the answer says: "no ports" when all are taken - and, away from the overflow, only then -; a bound
      port was not another program's when it was tried; and otherwise there was a free one. */
  lemma {:induction false} ListenAnswers(r: Range, taken: set<int>, next: Int32, foreign: seq<set<int>>)
    requires r.Valid() && foreign != []
    ensures var l := Listen(r, taken, next, foreign, false).0;
            && (r.All() <= taken ==> l.NoPorts?)
            && (l.NoPorts? && (!Crosses(r, next) || WrapsEvenly(r)) ==> r.All() <= taken)
            && (l.Bound? ==> exists i :: 0 <= i < |foreign| && l.port !in foreign[i])
            && (l.BindFailed? ==> !(r.All() <= taken))
  {
    ScanIsComplete(r, next);
    ScanStops(r, taken, next, r.Size());
    LaterAttempts(r, taken, next, foreign, false);
    ListenKeepsBooks(r, taken, next, foreign, false);
    if Scan(r, taken, next, r.Size()).0.Some? {
      ScanPort(r, taken, next);
    }
  }

  lemma ScanPort(r: Range, taken: set<int>, next: Int32)
    requires r.Valid() && Scan(r, taken, next, r.Size()).0.Some?
    ensures var p := Scan(r, taken, next, r.Size()).0.value; p in r.All() && p !in taken
  {
    ScanStops(r, taken, next, r.Size());
    var (port, next') := Scan(r, taken, next, r.Size());
    PortInRange(r, next');
  }

  lemma {:induction false} LaterAttempts(r: Range, taken: set<int>, next: Int32, foreign: seq<set<int>>, failed: bool)
    requires r.Valid()
    ensures var l := Listen(r, taken, next, foreign, failed).0;
            && (l.Bound? ==> exists i :: 0 <= i < |foreign| && l.port !in foreign[i])
            && (l.NoPorts? ==> !failed && foreign != [] && Scan(r, taken, next, r.Size()).0.None?)
            && (l.BindFailed? && !failed && foreign != [] ==> Scan(r, taken, next, r.Size()).0.Some?)
    decreases |foreign|
  {
    if foreign != [] {
      var (port, next') := Scan(r, taken, next, r.Size());
      if port.Some? && port.value in foreign[0] {
        LaterAttempts(r, taken, next', foreign[1..], true);
        var l := Listen(r, taken, next', foreign[1..], true).0;
        if l.Bound? {
          var i :| 0 <= i < |foreign[1..]| && l.port !in foreign[1..][i];
          assert l.port !in foreign[i + 1];
        }
      }
    }
  }

  lemma OneAttempt(r: Range, taken: set<int>, next: Int32, foreign: seq<set<int>>, failed: bool)
    requires foreign != []
    ensures var (port, next') := Scan(r, taken, next, r.Size());
            Listen(r, taken, next, foreign, failed) ==
            if port.None? then (if failed then BindFailed else NoPorts, taken, next')
            else if port.value !in foreign[0] then (Bound(port.value), taken + {port.value}, next')
            else Listen(r, taken, next', foreign[1..], true)
  {
  }

  class PortTable {
    const range: Range
    var tcpPorts: set<int>
    var nextPort: Int32

    constructor (range: Range)
      requires range.Valid()
      ensures this.range == range && tcpPorts == {} && nextPort == range.start - 1
    {
      this.range, tcpPorts, nextPort := range, {}, range.start - 1;
    }

    method AllocatePort() returns (port: Option<int>)
      modifies this
      ensures (port, nextPort) == Scan(range, old(tcpPorts), old(nextPort), range.Size())
      ensures tcpPorts == old(tcpPorts) + if port.Some? then {port.value} else {}
      ensures port.Some? ==> port.value !in old(tcpPorts)
    {
      for i := 0 to range.Size()
        invariant tcpPorts == old(tcpPorts)
        invariant Scan(range, tcpPorts, nextPort, range.Size() - i) ==
                  Scan(range, tcpPorts, old(nextPort), range.Size())
      {
        nextPort := Add32(nextPort);
        var p := PortFor(range, nextPort);
        if p !in tcpPorts {
          tcpPorts := tcpPorts + {p};
          return Some(p);
        }
      }
      return None;
    }

    method ReleasePort(port: int)
      modifies this`tcpPorts
      ensures tcpPorts == old(tcpPorts) - {port}
    {
      tcpPorts := tcpPorts - {port};
    }

    /** Takes a port, unless none is free, and keeps it unless another program has it. */
    method TryPort(foreign: set<int>) returns (port: Option<int>, bound: bool)
      modifies this
      ensures (port, nextPort) == Scan(range, old(tcpPorts), old(nextPort), range.Size())
      ensures bound == (port.Some? && port.value !in foreign)
      ensures tcpPorts == old(tcpPorts) + if bound then {port.value} else {}
    {
      port := AllocatePort();
      bound := port.Some? && port.value !in foreign;
      if port.Some? && !bound {
        ReleasePort(port.value);
      }
    }

    method ListenTunnelPort(foreign: seq<set<int>>) returns (l: Listened)
      requires |foreign| == MAX_BIND_ATTEMPTS
      modifies this
      ensures var (l', taken, next) := Listen(range, old(tcpPorts), old(nextPort), foreign, false);
              l == l' && tcpPorts == taken && nextPort == next
    {
      var attempt := 0;
      ghost var goal := Listen(range, tcpPorts, nextPort, foreign, false);
      assert foreign[0..] == foreign;
      while attempt < |foreign|
        invariant attempt <= |foreign|
        invariant tcpPorts == old(tcpPorts)
        invariant Listen(range, tcpPorts, nextPort, foreign[attempt..], attempt > 0) == goal
      {
        OneAttempt(range, tcpPorts, nextPort, foreign[attempt..], attempt > 0);
        var port, bound := TryPort(foreign[attempt]);
        if port.None? {
          return if attempt > 0 then BindFailed else NoPorts;
        }
        if bound {
          return Bound(port.value);
        }
        assert foreign[attempt..][1..] == foreign[attempt + 1..];
        attempt := attempt + 1;
      }
      return BindFailed;
    }
  }
}
