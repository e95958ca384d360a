/** Threads sharing one frame writer: the lock makes the wire a sequence of whole frames. */
module FrameWriters {
  import opened Base
  import opened Frames

  // A thread waits for the lock, holds it with the header or the payload still to write, has
  // finished as the place-th to do so, or has failed.
  datatype Pc = Waiting | AtHeader | AtPayload | Finished(place: nat) | Failed

  /** Thread t got out only `kept` bytes of its frame, when `done` threads had finished; the wire was
      then `upTo` bytes long. */
  datatype Tear = Tear(t: nat, kept: nat, done: nat, upTo: nat)

  /**
   * Thread t writes frames[t]. `order` lists the threads that have finished, first to last; `torn`
   * is the first frame cut in the middle. The writer itself remembers neither: a thread that comes
   * later writes on.
   */
  datatype State = State(pcs: seq<Pc>, holder: Option<nat>, wire: seq<byte>, order: seq<nat>, torn: Option<Tear>)

  // Fail(t, k): of the piece thread t is writing only the first k bytes get out.
  datatype Step = Lock(t: nat) | WriteHeader(t: nat) | WritePayload(t: nat) | Fail(t: nat, k: nat)

  predicate CanStep(frames: seq<WireFrame>, s: State, x: Step) {
    && x.t < |frames| == |s.pcs|
    && match x
       case Lock(t) => s.pcs[t].Waiting? && s.holder.None?
       case WriteHeader(t) => s.pcs[t].AtHeader?
       case WritePayload(t) => s.pcs[t].AtPayload?
       case Fail(t, k) =>
         (s.pcs[t].AtHeader? && k < HEADER_SIZE) || (s.pcs[t].AtPayload? && k < |frames[t].payload|)
  }

  function Finishes(s: State, t: nat, piece: seq<byte>): State
    requires t < |s.pcs|
  {
    State(s.pcs[t := Finished(|s.order|)], None, s.wire + piece, s.order + [t], s.torn)
  }

  /** An empty payload is not written at all. */
  function Stepped(frames: seq<WireFrame>, s: State, x: Step): State
    requires CanStep(frames, s, x)
  {
    var f := frames[x.t];
    match x
    case Lock(t) => s.(pcs := s.pcs[t := AtHeader], holder := Some(t))
    case WriteHeader(t) =>
      if f.payload == [] then Finishes(s, t, Header(f))
      else s.(pcs := s.pcs[t := AtPayload], wire := s.wire + Header(f))
    case WritePayload(t) => Finishes(s, t, f.payload)
    case Fail(t, k) =>
      var piece := if s.pcs[t].AtHeader? then Header(f) else f.payload;
      var kept := if s.pcs[t].AtHeader? then k else HEADER_SIZE + k;
      s.(pcs := s.pcs[t := Failed], holder := None, wire := s.wire + piece[..k],
         torn := if s.torn.None? && kept > 0 then Some(Tear(t, kept, |s.order|, |s.wire| + k)) else s.torn)
  }

  predicate Holds(pc: Pc) { pc.AtHeader? || pc.AtPayload? }

  predicate Threads(frames: seq<WireFrame>, order: seq<nat>) {
    forall i | 0 <= i < |order| :: order[i] < |frames|
  }

  /** The frames of the listed threads, in the order of the list. */
  function Listed(frames: seq<WireFrame>, order: seq<nat>): (fs: seq<WireFrame>)
    requires Threads(frames, order)
    ensures |fs| == |order| && forall i | 0 <= i < |order| :: fs[i] == frames[order[i]]
  {
    if order == [] then []
    else
      var front := order[..|order| - 1];
      assert Threads(frames, front);
      Listed(frames, front) + [frames[order[|order| - 1]]]
  }

  /** What the holder of the lock has written of its frame. */
  function Begun(frames: seq<WireFrame>, s: State): seq<byte> {
    if s.holder.Some? && s.holder.value < |frames| == |s.pcs| && s.pcs[s.holder.value].AtPayload?
    then Header(frames[s.holder.value]) else []
  }

  /** The list holds each finished thread once, at its place. */
  ghost predicate Listing(s: State) {
    && (forall i | 0 <= i < |s.order| :: s.order[i] < |s.pcs| && s.pcs[s.order[i]] == Finished(i))
    && (forall t | 0 <= t < |s.pcs| && s.pcs[t].Finished? :: s.pcs[t].place < |s.order| && s.order[s.pcs[t].place] == t)
  }

  ghost predicate Locking(s: State) {
    && (s.holder.Some? ==> s.holder.value < |s.pcs|)
    && (forall t | 0 <= t < |s.pcs| :: Holds(s.pcs[t]) <==> s.holder == Some(t))
  }

  /** The payload is still to be written only where there is one. */
  predicate Begins(frames: seq<WireFrame>, s: State) {
    forall t | 0 <= t < |s.pcs| && t < |frames| && s.pcs[t].AtPayload? :: frames[t].payload != []
  }

  /** What was on the wire when the first frame was torn, and whether anything came behind it. */
  ghost predicate TornAt(frames: seq<WireFrame>, s: State, r: Tear) {
    && r.t < |frames| && 0 < r.kept < |Wire(frames[r.t])| && r.done <= |s.order| && r.upTo <= |s.wire|
    && Threads(frames, s.order[..r.done])
    && s.wire[..r.upTo] == WireAll(Listed(frames, s.order[..r.done])) + Wire(frames[r.t])[..r.kept]
    && (|s.wire| == r.upTo ==> |s.order| == r.done && Begun(frames, s) == [])
  }

  ghost predicate Inv(frames: seq<WireFrame>, s: State) {
    && |s.pcs| == |frames| && Locking(s) && Listing(s) && Threads(frames, s.order) && Begins(frames, s)
    && match s.torn
       case None => s.wire == WireAll(Listed(frames, s.order)) + Begun(frames, s)
       case Some(r) => TornAt(frames, s, r)
  }

  /** A thread that finishes adds exactly its frame to the whole frames on the wire. */
  lemma Completes(frames: seq<WireFrame>, order: seq<nat>, t: nat)
    requires t < |frames| && Threads(frames, order)
    ensures Threads(frames, order + [t])
    ensures WireAll(Listed(frames, order + [t])) == WireAll(Listed(frames, order)) + Wire(frames[t])
  {
    assert (order + [t])[..|order|] == order;
    assert Listed(frames, order + [t]) == Listed(frames, order) + [frames[t]];
    WireAllAppend(Listed(frames, order), frames[t]);
  }

  lemma FinishKeepsList(s: State, t: nat, piece: seq<byte>)
    requires Locking(s) && Listing(s) && t < |s.pcs| && Holds(s.pcs[t])
    ensures Locking(Finishes(s, t, piece)) && Listing(Finishes(s, t, piece))
  {
  }

  lemma FinishInv(frames: seq<WireFrame>, s: State, t: nat, piece: seq<byte>)
    requires Inv(frames, s) && t < |frames| && Holds(s.pcs[t])
    requires piece == if s.pcs[t].AtHeader? then Wire(frames[t]) else frames[t].payload
    ensures Inv(frames, Finishes(s, t, piece))
  {
    Completes(frames, s.order, t);
    FinishKeepsList(s, t, piece);
    match s.torn {
      case None =>
        FinishWire(WireAll(Listed(frames, s.order)), s.wire, frames[t], piece, s.pcs[t].AtHeader?);
      case Some(r) =>
        TornGrows(frames, s, Finishes(s, t, piece), r);
    }
  }

  lemma FinishWire(whole: seq<byte>, wire: seq<byte>, f: WireFrame, piece: seq<byte>, atHeader: bool)
    requires wire == whole + if atHeader then [] else Header(f)
    requires piece == if atHeader then Wire(f) else f.payload
    ensures wire + piece == whole + Wire(f) + []
  {
    if atHeader {
      assert whole + [] == whole;
    } else {
      assert whole + Header(f) + f.payload == whole + (Header(f) + f.payload);
    }
  }

  /** Whatever is written later, what was there when the frame was torn stays in front. */
  lemma TornGrows(frames: seq<WireFrame>, s: State, s': State, r: Tear)
    requires TornAt(frames, s, r) && s.wire <= s'.wire && s.order <= s'.order
    requires |s'.wire| == r.upTo ==> s'.order == s.order && Begun(frames, s') == []
    ensures TornAt(frames, s', r)
  {
    assert s'.wire[..r.upTo] == s.wire[..r.upTo];
    assert s'.order[..r.done] == s.order[..r.done];
  }

  lemma ListingKept(s: State, t: nat, s': State)
    requires Listing(s) && t < |s.pcs| && !s.pcs[t].Finished?
    requires s'.order == s.order && |s'.pcs| == |s.pcs| && !s'.pcs[t].Finished? && s'.pcs == s.pcs[t := s'.pcs[t]]
    ensures Listing(s')
  {
  }

  /** A step that neither finishes nor tears a frame changes neither the list nor what was written before. */
  lemma MidInv(frames: seq<WireFrame>, s: State, t: nat, s': State)
    requires Inv(frames, s) && t < |frames| && !s.pcs[t].Finished?
    requires s'.order == s.order && |s'.pcs| == |s.pcs| && !s'.pcs[t].Finished? && s'.torn == s.torn
    requires s'.pcs == s.pcs[t := s'.pcs[t]] && Begins(frames, s')
    requires Locking(s') && s.wire <= s'.wire
    requires s.torn.None? ==> s'.wire == WireAll(Listed(frames, s.order)) + Begun(frames, s')
    requires s.torn.Some? && |s'.wire| == s.torn.value.upTo ==> Begun(frames, s') == []
    ensures Inv(frames, s')
  {
    hide WireAll, Begun, TornAt;
    ListingKept(s, t, s');
    if s.torn.Some? {
      TornGrows(frames, s, s', s.torn.value);
    }
  }

  lemma TearInv(frames: seq<WireFrame>, s: State, t: nat, k: nat)
    requires Inv(frames, s) && CanStep(frames, s, Fail(t, k))
    ensures Inv(frames, Stepped(frames, s, Fail(t, k)))
  {
    var s' := Stepped(frames, s, Fail(t, k));
    assert s.holder == Some(t);
    hide Wire, WireAll;
    if s.torn.Some? || (s.pcs[t].AtHeader? && k == 0) {
      assert s.pcs[t].AtHeader? && k == 0 ==> s'.wire == s.wire;
      MidInv(frames, s, t, s');
    } else {
      var whole := WireAll(Listed(frames, s.order));
      var kept := s'.torn.value.kept;
      assert s.order[..|s.order|] == s.order && s'.wire[..|s'.wire|] == s'.wire;
      TornPiece(whole, s.wire, frames[t], s.pcs[t].AtHeader?, k, kept);
      assert TornAt(frames, s', s'.torn.value);
    }
  }

  lemma TornPiece(whole: seq<byte>, wire: seq<byte>, f: WireFrame, atHeader: bool, k: nat, kept: nat)
    requires wire == whole + if atHeader then [] else Header(f)
    requires k < if atHeader then HEADER_SIZE else |f.payload|
    requires kept == if atHeader then k else HEADER_SIZE + k
    ensures kept < |Wire(f)|
    ensures wire + (if atHeader then Header(f) else f.payload)[..k] == whole + Wire(f)[..kept]
  {
    if atHeader {
      assert whole + [] == whole && Wire(f)[..k] == Header(f)[..k];
    } else {
      assert Wire(f)[..kept] == Header(f) + f.payload[..k];
      assert whole + Header(f) + f.payload[..k] == whole + (Header(f) + f.payload[..k]);
    }
  }

  lemma StepInv(frames: seq<WireFrame>, s: State, x: Step)
    requires Inv(frames, s) && CanStep(frames, s, x)
    ensures Inv(frames, Stepped(frames, s, x))
  {
    match x {
      case Lock(t) =>
        assert s.wire + [] == s.wire;
        MidInv(frames, s, t, Stepped(frames, s, x));
      case WriteHeader(t) => HeaderInv(frames, s, t);
      case WritePayload(t) => FinishInv(frames, s, t, frames[t].payload);
      case Fail(t, k) => TearInv(frames, s, t, k);
    }
  }

  lemma HeaderInv(frames: seq<WireFrame>, s: State, t: nat)
    requires Inv(frames, s) && CanStep(frames, s, WriteHeader(t))
    ensures Inv(frames, Stepped(frames, s, WriteHeader(t)))
  {
    if frames[t].payload == [] {
      assert Header(frames[t]) == Wire(frames[t]);
      FinishInv(frames, s, t, Header(frames[t]));
    } else {
      var w := WireAll(Listed(frames, s.order));
      assert w + [] == w;
      MidInv(frames, s, t, Stepped(frames, s, WriteHeader(t)));
    }
  }

  ghost predicate Run(frames: seq<WireFrame>, s: State, xs: seq<Step>, s': State)
    decreases |xs|
  {
    if xs == [] then s == s'
    else CanStep(frames, s, xs[0]) && Run(frames, Stepped(frames, s, xs[0]), xs[1..], s')
  }

  lemma {:induction false} RunInv(frames: seq<WireFrame>, s: State, xs: seq<Step>, s': State)
    requires Inv(frames, s) && Run(frames, s, xs, s')
    ensures Inv(frames, s')
    decreases |xs|
  {
    if xs != [] {
      StepInv(frames, s, xs[0]);
      RunInv(frames, Stepped(frames, s, xs[0]), xs[1..], s');
    }
  }

  function Start(n: nat): State {
    State(seq(n, _ => Waiting), None, [], [], None)
  }

  lemma ReachedInv(frames: seq<WireFrame>, xs: seq<Step>, s: State)
    requires Run(frames, Start(|frames|), xs, s)
    ensures Inv(frames, s)
  {
    RunInv(frames, Start(|frames|), xs, s);
  }

  /**
   * Whatever the interleaving, until a frame is torn the wire holds the frames of the threads that
   * have finished, each once, whole and in the order they finished, followed by at most the header
   * of the frame being written, and a reader gets exactly those frames. A write that fails before
   * its frame's first byte tears nothing.
   */
  lemma WholeFrames(frames: seq<WireFrame>, xs: seq<Step>, s: State)
    requires Run(frames, Start(|frames|), xs, s) && s.torn.None?
    ensures |s.pcs| == |frames| && Threads(frames, s.order) && Listing(s)
    ensures s.wire == WireAll(Listed(frames, s.order)) + Begun(frames, s)
    ensures ParseAll(s.wire) == (Listed(frames, s.order), EndOfFile)
  {
    ReachedInv(frames, xs, s);
    BegunReads(frames, s);
    ParseAllTail(Listed(frames, s.order), Begun(frames, s));
    assert Listed(frames, s.order) + [] == Listed(frames, s.order);
  }

  lemma BegunReads(frames: seq<WireFrame>, s: State)
    requires Inv(frames, s)
    ensures ParseAll(Begun(frames, s)) == ([], EndOfFile)
  {
    if Begun(frames, s) != [] {
      var f := frames[s.holder.value];
      NoPrefixParses(f, HEADER_SIZE);
      assert Wire(f)[..HEADER_SIZE] == Header(f);
    }
  }

  /**
   * Once a frame is torn, all the frames finished before it are still read. If nothing is written
   * behind the tear they are all there is, and the end is clean exactly when the tear is right behind
   * the header. But nothing keeps a thread that comes later from writing, and its bytes are taken for
   * the rest of the torn frame: when that was torn in its payload, the reader gets a frame more - of
   * bytes no thread wrote as one - exactly when as many bytes follow as were missing.
   */
  lemma TornFrame(frames: seq<WireFrame>, xs: seq<Step>, s: State)
    requires Run(frames, Start(|frames|), xs, s) && s.torn.Some?
    ensures TornAt(frames, s, s.torn.value)
    ensures var r := s.torn.value;
            var f, before := frames[r.t], Listed(frames, s.order[..r.done]);
            var read, rest, missing := ParseAll(s.wire), s.wire[r.upTo..], |Wire(f)| - r.kept;
            && before <= read.0
            && (rest == [] ==>
                  Threads(frames, s.order) && before == Listed(frames, s.order)
                  && read == (before, if r.kept == HEADER_SIZE then EndOfFile else UnexpectedEof))
            && (r.kept >= HEADER_SIZE ==>
                  && (read.0 == before <==> |rest| < missing)
                  && (|rest| >= missing ==>
                        |read.0| > |before| && read.0[|before|] ==
                        f.(payload := f.payload[..r.kept - HEADER_SIZE] + rest[..missing])))
  {
    hide ParseAll, WireAll, Wire, Listing, Locking, Begun;
    ReachedInv(frames, xs, s);
    var r := s.torn.value;
    TornReads(Listed(frames, s.order[..r.done]), frames[r.t], r.kept, s.wire, r.upTo);
    if s.wire[r.upTo..] == [] {
      assert s.order[..r.done] == s.order;
    }
  }

  lemma TornReads(before: seq<WireFrame>, f: WireFrame, kept: nat, wire: seq<byte>, upTo: nat)
    requires 0 < kept < |Wire(f)| && upTo <= |wire| && wire[..upTo] == WireAll(before) + Wire(f)[..kept]
    ensures var read, rest, missing := ParseAll(wire), wire[upTo..], |Wire(f)| - kept;
            && before <= read.0
            && (rest == [] ==> read == (before, if kept == HEADER_SIZE then EndOfFile else UnexpectedEof))
            && (kept >= HEADER_SIZE ==>
                  && (read.0 == before <==> |rest| < missing)
                  && (|rest| >= missing ==>
                        |read.0| > |before| && read.0[|before|] ==
                        f.(payload := f.payload[..kept - HEADER_SIZE] + rest[..missing])))
  {
    var rest := wire[upTo..];
    var tail := Wire(f)[..kept] + rest;
    assert wire == WireAll(before) + tail by {
      assert wire == wire[..upTo] + rest;
      assert WireAll(before) + Wire(f)[..kept] + rest == WireAll(before) + (Wire(f)[..kept] + rest);
    }
    ParseAllTail(before, tail);
    assert before + [] == before;
    if rest == [] {
      assert tail == Wire(f)[..kept];
      NoPrefixParses(f, kept);
    }
    if kept >= HEADER_SIZE {
      CutReads(f, kept, rest);
    }
  }

  /**
   * And it happens: the payload of a frame times out, the next thread writes its own short frame, and
   * the reader gets the header of that as the first frame's payload - a frame no thread wrote.
   */
  lemma TornRun(f: WireFrame, g: WireFrame) returns (xs: seq<Step>, s: State)
    requires |f.payload| == HEADER_SIZE && g.payload == [] && f.payload != Header(g)
    ensures Run([f, g], Start(2), xs, s) && s.order == [1]
    ensures ParseAll(s.wire) == ([f.(payload := Header(g))], EndOfFile)
    ensures f.(payload := Header(g)) !in [f, g]
  {
    var frames := [f, g];
    xs := [Lock(0), WriteHeader(0), Fail(0, 0), Lock(1), WriteHeader(1)];
    var s0 := Start(2);
    var s1 := Stepped(frames, s0, xs[0]);
    var s2 := Stepped(frames, s1, xs[1]);
    var s3 := Stepped(frames, s2, xs[2]);
    var s4 := Stepped(frames, s3, xs[3]);
    s := Stepped(frames, s4, xs[4]);
    FiveSteps(frames, xs, s0, s1, s2, s3, s4, s);
    assert s.wire == Header(f) + Header(g) == Wire(f.(payload := Header(g)));
    ParseAllWireAll([f.(payload := Header(g))]);
    assert WireAll([f.(payload := Header(g))]) == s.wire;
  }

  lemma FiveSteps(frames: seq<WireFrame>, xs: seq<Step>, s0: State, s1: State, s2: State, s3: State, s4: State,
                  s5: State)
    requires |xs| == 5
    requires CanStep(frames, s0, xs[0]) && Stepped(frames, s0, xs[0]) == s1
    requires CanStep(frames, s1, xs[1]) && Stepped(frames, s1, xs[1]) == s2
    requires CanStep(frames, s2, xs[2]) && Stepped(frames, s2, xs[2]) == s3
    requires CanStep(frames, s3, xs[3]) && Stepped(frames, s3, xs[3]) == s4
    requires CanStep(frames, s4, xs[4]) && Stepped(frames, s4, xs[4]) == s5
    ensures Run(frames, s0, xs, s5)
  {
    hide CanStep, Stepped;
    assert Run(frames, s4, xs[4..], s5);
    assert xs[3..][1..] == xs[4..] && xs[2..][1..] == xs[3..] && xs[1..][1..] == xs[2..];
    assert Run(frames, s3, xs[3..], s5);
    assert Run(frames, s2, xs[2..], s5);
    assert Run(frames, s1, xs[1..], s5);
  }
}
