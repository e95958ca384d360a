/** Even stream IDs handed out round the 24-bit space, skipping live ones. */
module StreamIds {
  import opened Base

  const MAX_LOCAL_ID := 0xFF_FFFE  // the largest even ID that fits three bytes
  const EVEN_IDS := 8388607        // 2, 4, .., MAX_LOCAL_ID

  /** The ID at a place on the circle of even IDs. */
  function IdAt(pos: nat): (id: int)
    ensures 2 <= id <= MAX_LOCAL_ID && id % 2 == 0
  {
    2 + 2 * (pos % EVEN_IDS)
  }

  /** The place the counter stands at; one past the last even ID is where it wraps. */
  function PosOf(nextId: int): nat
    requires 2 <= nextId && nextId % 2 == 0
  {
    nextId / 2 - 1
  }

  /** The IDs at the k places from pos on. */
  function IdsFrom(pos: nat, k: nat): set<int> {
    set p | pos <= p < pos + k :: IdAt(p)
  }

  lemma DistinctIds(p: nat, q: nat)
    requires p < q < p + EVEN_IDS
    ensures IdAt(p) != IdAt(q)
  {
  }

  /** Up to once round the circle no ID comes twice. */
  lemma {:induction false} CountIds(pos: nat, k: nat)
    requires k <= EVEN_IDS
    ensures |IdsFrom(pos, k)| == k
  {
    if k > 0 {
      CountIds(pos, k - 1);
      var last := IdAt(pos + k - 1);
      assert IdsFrom(pos, k) == IdsFrom(pos, k - 1) + {last};
      if last in IdsFrom(pos, k - 1) {
        var p :| pos <= p < pos + k - 1 && IdAt(p) == last;
        DistinctIds(p, pos + k - 1);
      }
    }
  }

  /** Once round the circle every even ID comes. */
  lemma EveryIdComes(pos: nat, id: int) returns (t: nat)
    requires 2 <= id <= MAX_LOCAL_ID && id % 2 == 0
    ensures t < EVEN_IDS && IdAt(pos + t) == id
  {
    var q := id / 2 - 1;
    var r := pos % EVEN_IDS;
    t := if r <= q then q - r else q + EVEN_IDS - r;
    assert (pos + t) % EVEN_IDS == q;
  }

  /**
   * Pigeonhole across the wrap: with no more than limit + 1 streams live and some even ID free,
   * one of the limit + 2 places the scan looks at is free.
   */
  lemma ScanFinds(pos: nat, live: set<int>, limit: nat, free: int) returns (t: nat)
    requires |live| <= limit + 1
    requires 2 <= free <= MAX_LOCAL_ID && free % 2 == 0 && free !in live
    ensures t <= limit + 1 && IdAt(pos + t) !in live
  {
    if limit + 2 >= EVEN_IDS {
      t := EveryIdComes(pos, free);
    } else {
      CountIds(pos, limit + 2);
      if IdsFrom(pos, limit + 2) <= live {
        Smaller(IdsFrom(pos, limit + 2), live);
      }
      var id :| id in IdsFrom(pos, limit + 2) && id !in live;
      var p :| pos <= p < pos + limit + 2 && IdAt(p) == id;
      t := p - pos;
    }
  }

  // ----- How long before an ID comes again -----

  /** Streams end, or the next free ID is issued after skipping the live ones before it. */
  datatype IdEvent = Ended(id: int) | Issued(skipped: nat)

  /** pos counts places without wrapping; issued are the IDs issued since the start of the run. */
  datatype IdState = IdState(pos: nat, live: set<int>, issued: set<int>)

  ghost predicate CanIssue(s: IdState, skipped: nat) {
    && (forall p | s.pos <= p < s.pos + skipped :: IdAt(p) in s.live)
    && IdAt(s.pos + skipped) !in s.live
  }

  ghost function AfterEvent(s: IdState, x: IdEvent): IdState {
    match x
    case Ended(id) => s.(live := s.live - {id})
    case Issued(n) =>
      var id := IdAt(s.pos + n);
      IdState(s.pos + n + 1, s.live + {id}, s.issued + {id})
  }

  ghost predicate IdRun(s: IdState, xs: seq<IdEvent>, t: IdState)
    decreases |xs|
  {
    if xs == [] then s == t
    else (xs[0].Issued? ==> CanIssue(s, xs[0].skipped)) && IdRun(AfterEvent(s, xs[0]), xs[1..], t)
  }

  /** Every ID passed since the start was live then or has been issued since. */
  ghost predicate Passed(start: nat, live0: set<int>, s: IdState) {
    && start <= s.pos
    && s.live <= live0 + s.issued
    && forall p | start <= p < s.pos :: IdAt(p) in live0 + s.issued
  }

  lemma {:induction false} RunPasses(start: nat, live0: set<int>, s: IdState, xs: seq<IdEvent>, t: IdState)
    requires Passed(start, live0, s) && IdRun(s, xs, t)
    ensures Passed(start, live0, t) && s.issued <= t.issued
    decreases |xs|
  {
    if xs != [] {
      var s' := AfterEvent(s, xs[0]);
      if xs[0].Issued? {
        assert forall p | start <= p < s'.pos :: IdAt(p) in live0 + s'.issued;
      }
      RunPasses(start, live0, s', xs[1..], t);
    }
  }

  /**
   * Right after an ID is issued with `live` streams live (itself included), it is not issued again
   * before 8388606 less the other live streams' number of other IDs have been issued.
   */
  lemma ReuseDistance(pos: nat, live: set<int>, xs: seq<IdEvent>, t: IdState, skipped: nat)
    requires IdAt(pos) in live
    requires IdRun(IdState(pos + 1, live, {}), xs, t) && CanIssue(t, skipped)
    requires IdAt(t.pos + skipped) == IdAt(pos)
    ensures |t.issued - {IdAt(pos)}| >= EVEN_IDS - 1 - |live - {IdAt(pos)}|
  {
    var id := IdAt(pos);
    var s := IdState(pos + 1, live, {});
    RunPasses(pos + 1, live, s, xs, t);
    var again := t.pos + skipped;
    assert again >= pos + EVEN_IDS by {
      if again < pos + EVEN_IDS {
        DistinctIds(pos, again);
      }
    }
    var others := IdsFrom(pos + 1, EVEN_IDS - 1);
    CountIds(pos + 1, EVEN_IDS - 1);
    var seen := (live - {id}) + (t.issued - {id});
    forall x | x in others ensures x in seen {
      var p :| pos + 1 <= p < pos + EVEN_IDS && IdAt(p) == x;
      DistinctIds(pos, p);
    }
    Smaller(others, seen);
  }
}
