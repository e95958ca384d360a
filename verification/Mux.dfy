/** The multiplexer: its table of streams, the handlers of the peer's frames, and the ID allocator. */
module Muxes {
  import opened Base
  import opened StreamCore
  import opened RingBuffers
  import opened StreamIds

  const INITIAL_READ_BUFFER := 4096
  const DEFAULT_WINDOW_SIZE := 256 * 1024
  const DEFAULT_MAX_STREAMS := 10000
  const DEFAULT_MAX_FRAME_SIZE := 64 * 1024
  const ACCEPT_QUEUE := 128
  const CONTROL_STREAM_ID := 0

  /** What the multiplexer writes to the connection. */
  datatype OutFrame =
    | OutData(id: int, bytes: seq<byte>)
    | OutClose(id: int)
    | OutRst(id: int)
    | OutWindow(id: int, delta: nat)

  // Waits: the call would go on only after another thread has acted.
  datatype ReadResult = Got(n: nat) | Eof | WasReset | Truncated | ReadWaits
  datatype WriteResult = Wrote(n: nat) | StreamClosed | StreamWasReset | WriteWaits(n: nat) | WriteFailed(n: nat)

  /** The DATA frames for p while there is credit: each as large as the slice, the credit and the
      frame size allow. */
  function Chunks(id: int, p: seq<byte>, credit: nat, maxFrame: nat): seq<OutFrame>
    requires 0 < maxFrame
    decreases |p|
  {
    if p == [] || credit == 0 then []
    else
      var c := Min(Min(|p|, credit), maxFrame);
      [OutData(id, p[..c])] + Chunks(id, p[c..], credit - c, maxFrame)
  }

  function Payloads(frames: seq<OutFrame>): seq<byte> {
    if frames == [] then []
    else (if frames[0].OutData? then frames[0].bytes else []) + Payloads(frames[1..])
  }

  lemma ChunksStep(out: seq<OutFrame>, id: int, p: seq<byte>, total: nat, credit: nat, maxFrame: nat)
    requires 0 < maxFrame && total < |p| && 0 < credit
    ensures var c := Min(Min(|p| - total, credit), maxFrame);
            out + Chunks(id, p[total..], credit, maxFrame)
            == out + [OutData(id, p[total..total + c])] + Chunks(id, p[total + c..], credit - c, maxFrame)
  {
    var c := Min(Min(|p| - total, credit), maxFrame);
    assert p[total..][..c] == p[total..total + c] && p[total..][c..] == p[total + c..];
  }

  /** The frames carry exactly the bytes there was credit for, in order, none empty or too large. */
  lemma {:induction false} ChunksCarry(id: int, p: seq<byte>, credit: nat, maxFrame: nat)
    requires 0 < maxFrame
    ensures var frames := Chunks(id, p, credit, maxFrame);
            && Payloads(frames) == p[..Min(|p|, credit)]
            && forall i | 0 <= i < |frames| ::
                 frames[i].OutData? && frames[i].id == id && 0 < |frames[i].bytes| <= maxFrame
    decreases |p|
  {
    if p != [] && credit != 0 {
      var c := Min(Min(|p|, credit), maxFrame);
      ChunksCarry(id, p[c..], credit - c, maxFrame);
      assert Chunks(id, p, credit, maxFrame)[1..] == Chunks(id, p[c..], credit - c, maxFrame);
      assert p[..c] + p[c..][..Min(|p| - c, credit - c)] == p[..Min(|p|, credit)];
    }
  }

  lemma {:induction false} PayloadsAppend(frames: seq<OutFrame>, id: int, bytes: seq<byte>)
    ensures Payloads(frames + [OutData(id, bytes)]) == Payloads(frames) + bytes
  {
    if frames == [] {
      assert frames + [OutData(id, bytes)] == [OutData(id, bytes)];
    } else {
      PayloadsAppend(frames[1..], id, bytes);
      var more := frames + [OutData(id, bytes)];
      assert more[1..] == frames[1..] + [OutData(id, bytes)] && more[0] == frames[0];
      var first := if frames[0].OutData? then frames[0].bytes else [];
      assert first + (Payloads(frames[1..]) + bytes) == first + Payloads(frames[1..]) + bytes;
    }
  }

  class Stream {
    const id: int
    const maxWindow: int
    const readBuf: RingBuffer
    var state: StreamState
    var window: int
    var windowTok: bool
    var readTok: bool
    var closeCalled: bool

    /** Nothing a peer sends gets past these bounds. */
    ghost predicate Valid()
      reads this, readBuf, readBuf.buf
    {
      && readBuf.Valid() && readBuf.maxSize == MAX_RING_BUFFER_SIZE
      && 0 < maxWindow <= MAX_RING_BUFFER_SIZE
      && |readBuf.Contents()| <= maxWindow
      && readBuf.size < 2 * maxWindow && readBuf.size <= MAX_RING_BUFFER_SIZE
      && 0 <= window
    }

    constructor (id: int, windowSize: int)
      requires 0 < windowSize <= MAX_RING_BUFFER_SIZE
      ensures Valid() && fresh(readBuf) && fresh(readBuf.buf)
      ensures this.id == id && maxWindow == windowSize && window == windowSize
      ensures state.Active? && !closeCalled && readBuf.Contents() == []
    {
      this.id := id;
      maxWindow := windowSize;
      readBuf := new RingBuffer(Min(windowSize, INITIAL_READ_BUFFER), MAX_RING_BUFFER_SIZE);
      state, window := Active, windowSize;
      windowTok, readTok, closeCalled := false, false, false;
    }

    /** Buffers data that fits the window; the ring takes all of it. */
    method Store(data: seq<byte>)
      requires Valid() && |readBuf.Contents()| + |data| <= maxWindow
      modifies this`readTok, readBuf, readBuf.buf
      ensures Valid() && (fresh(readBuf.buf) || readBuf.buf == old(readBuf.buf))
      ensures readBuf.Contents() == old(readBuf.Contents()) + data && readTok
    {
      var n := readBuf.Write(data);
      assert data[..n] == data;
      readTok := true;
    }

    method SignalWindow()
      modifies this`windowTok
      ensures windowTok
    {
      windowTok := true;
    }

    method Wake()
      modifies this`readTok, this`windowTok
      ensures readTok && windowTok
    {
      readTok := true;
      windowTok := true;
    }

    /** A saturating add: no peer can wrap the window or raise it above its start. */
    method OnWindowUpdate(delta: nat)
      requires Valid()
      modifies this`window, this`windowTok
      ensures Valid() && window == Credited(old(window), delta, maxWindow) && windowTok
    {
      var next := window + delta;
      if next > maxWindow {
        next := maxWindow;
      }
      window := next;
      SignalWindow();
    }
  }

  class Mux {
    var streams: map<int, Stream>
    var streamCount: int
    var nextId: int
    var done: bool
    var maxStreams: int
    const windowSize: int
    const maxFrameSize: int
    var accept: seq<Stream>
    var out: seq<OutFrame>

    /** Every registered stream is open, under the ID it carries; the counter is the table's size. */
    ghost predicate Valid()
      reads this, streams.Values
    {
      && streamCount == |streams|
      && 2 <= nextId <= MAX_LOCAL_ID + 2 && nextId % 2 == 0
      && 0 < windowSize <= MAX_RING_BUFFER_SIZE && 0 < maxFrameSize
      && CONTROL_STREAM_ID !in streams
      && (forall id | id in streams :: streams[id].id == id && streams[id].maxWindow == windowSize)
      && (forall id | id in streams :: Open(streams[id].state))
    }

    constructor (maxStreams: int, windowSize: int, maxFrameSize: int)
      ensures Valid() && streams == map[] && !done && out == []
      ensures this.windowSize == Min(if windowSize <= 0 then 262144 else windowSize, 16777216)
      ensures this.maxStreams == if maxStreams <= 0 then 10000 else maxStreams
      ensures this.maxFrameSize == if maxFrameSize <= 0 then 65536 else maxFrameSize
    {
      streams, streamCount, nextId := map[], 0, 2;
      done, accept, out := false, [], [];
      this.maxStreams := if maxStreams <= 0 then DEFAULT_MAX_STREAMS else maxStreams;
      var w := if windowSize <= 0 then DEFAULT_WINDOW_SIZE else windowSize;
      this.windowSize := if w > MAX_RING_BUFFER_SIZE then MAX_RING_BUFFER_SIZE else w;
      this.maxFrameSize := if maxFrameSize <= 0 then DEFAULT_MAX_FRAME_SIZE else maxFrameSize;
    }

    // ----- The table of streams -----

    method RemoveStream(id: int)
      requires streamCount == |streams|
      modifies this`streams, this`streamCount
      ensures streams == old(streams) - {id} && streamCount == |streams|
    {
      if id in streams {
        var rest := streams - {id};
        assert streams == rest[id := streams[id]];
        streams := rest;
        streamCount := streamCount - 1;
      }
    }

    /** Every place passed over was live. */
    ghost predicate SkippedFrom(pos: nat, p: nat)
      reads this
    {
      forall q :: pos <= q < p ==> IdAt(q) in streams
    }

    /** The scan for the next free even ID: success exactly when one of the places it may look at
        is free, and then the first such. */
    method AllocId() returns (id: int, ok: bool)
      requires 2 <= nextId <= MAX_LOCAL_ID + 2 && nextId % 2 == 0 && 0 <= maxStreams
      modifies this`nextId
      ensures 2 <= nextId <= MAX_LOCAL_ID + 2 && nextId % 2 == 0
      ensures var pos := PosOf(old(nextId));
              ok <==> exists p :: pos <= p <= pos + maxStreams + 1 && IdAt(p) !in streams
      ensures var pos := PosOf(old(nextId));
              ok ==>
                nextId == id + 2 && id !in streams &&
                exists p :: pos <= p <= pos + maxStreams + 1 && id == IdAt(p) && SkippedFrom(pos, p)
    {
      ghost var pos := PosOf(nextId);
      var tries := 0;
      while tries <= maxStreams + 1
        invariant 0 <= tries <= maxStreams + 2
        invariant 2 <= nextId <= MAX_LOCAL_ID + 2 && nextId % 2 == 0
        invariant IdAt(pos + tries) == if nextId > MAX_LOCAL_ID then 2 else nextId
        invariant SkippedFrom(pos, pos + tries)
      {
        id := nextId;
        if id < 2 || id > MAX_LOCAL_ID {
          id := 2;
        }
        nextId := id + 2;
        NextPlace(pos + tries);
        if id !in streams {
          return id, true;
        }
        tries := tries + 1;
      }
      return 0, false;
    }

    // ----- Frames from the peer -----

    /** A peer may open streams up to the limit, under IDs that are free, while there is room in
        the accept queue; a stream that finds the queue full is registered and at once reset. */
    method HandleStreamOpen(id: int)
      requires Valid()
      modifies this`streams, this`streamCount, this`accept, this`out
      ensures Valid()
      ensures id == 0 || |old(streams)| >= maxStreams || id in old(streams) ==>
                streams == old(streams) && accept == old(accept) && out == old(out) + [OutRst(id)]
      ensures id != 0 && |old(streams)| < maxStreams && id !in old(streams) &&
              |old(accept)| < 128 ==>
                && id in streams && fresh(streams[id]) && fresh(streams[id].readBuf) && fresh(streams[id].readBuf.buf)
                && streams == old(streams)[id := streams[id]]
                && streams[id].Valid() && streams[id].state.Active? && streams[id].window == windowSize
                && accept == old(accept) + [streams[id]] && out == old(out)
      ensures id != 0 && |old(streams)| < maxStreams && id !in old(streams) &&
              |old(accept)| >= 128 ==>
                && streams == old(streams) && accept == old(accept)
                && out == if done then old(out) else old(out) + [OutRst(id)]
    {
      if id == CONTROL_STREAM_ID || streamCount >= maxStreams || id in streams {
        out := out + [OutRst(id)];
        return;
      }
      AcceptFrom(id);
    }

    method AcceptFrom(id: int)
      requires Valid() && id != CONTROL_STREAM_ID && id !in streams
      modifies this`streams, this`streamCount, this`accept, this`out
      ensures Valid()
      ensures |old(accept)| < ACCEPT_QUEUE ==>
                && id in streams && fresh(streams[id]) && fresh(streams[id].readBuf) && fresh(streams[id].readBuf.buf)
                && streams == old(streams)[id := streams[id]]
                && streams[id].Valid() && streams[id].state.Active? && streams[id].window == windowSize
                && accept == old(accept) + [streams[id]] && out == old(out)
      ensures |old(accept)| >= ACCEPT_QUEUE ==>
                && streams == old(streams) && accept == old(accept)
                && out == if done then old(out) else old(out) + [OutRst(id)]
    {
      var s := new Stream(id, windowSize);
      AddStream(s);
      ghost var added := streams;
      Offer(s);
      assert added - {id} == old(streams);
    }

    method AddStream(s: Stream)
      requires Valid() && s.id != CONTROL_STREAM_ID && s.id !in streams && s.maxWindow == windowSize && Open(s.state)
      modifies this`streams, this`streamCount
      ensures Valid() && streams == old(streams)[s.id := s]
    {
      streams := streams[s.id := s];
      streamCount := streamCount + 1;
    }

    /** Hands a registered stream to the acceptor, or resets it when the queue is full. */
    method Offer(s: Stream)
      requires Valid() && s.id in streams && streams[s.id] == s
      modifies this`streams, this`streamCount, this`accept, this`out, s`state, s`readTok, s`windowTok
      ensures Valid()
      ensures |old(accept)| < ACCEPT_QUEUE ==>
                streams == old(streams) && accept == old(accept) + [s] && out == old(out) && s.state == old(s.state)
      ensures |old(accept)| >= ACCEPT_QUEUE ==>
                && streams == old(streams) - {s.id} && accept == old(accept)
                && out == if done then old(out) else old(out) + [OutRst(s.id)]
    {
      if |accept| < ACCEPT_QUEUE {
        accept := accept + [s];
      } else {
        ResetStream(s);
      }
    }

    /** This side opens a stream under the first free even ID the scan comes to. */
    method OpenStream() returns (s: Option<Stream>)
      requires Valid() && 0 <= maxStreams
      modifies this`streams, this`streamCount, this`nextId
      ensures Valid()
      ensures s.None? ==> streams == old(streams)
      ensures s.Some? ==>
        s.value.id !in old(streams) && fresh(s.value) && s.value.Valid() && s.value.window == windowSize
      ensures s.Some? ==> fresh(s.value.readBuf) && fresh(s.value.readBuf.buf)
      ensures s.Some? ==> streams == old(streams)[s.value.id := s.value]
      ensures s.Some? ==> 2 <= s.value.id <= MAX_LOCAL_ID && s.value.id % 2 == 0
      ensures s.Some? ==> !done && |old(streams)| < maxStreams
      ensures !done && |old(streams)| < maxStreams && SomeEvenIdFree(old(streams)) ==> s.Some?
    {
      if done || streamCount >= maxStreams {
        return None;
      }
      ghost var pos := PosOf(nextId);
      var id, ok := AllocId();
      if !ok {
        if SomeEvenIdFree(streams) {
          var free :| 2 <= free <= MAX_LOCAL_ID && free % 2 == 0 && free !in streams;
          var t := ScanFinds(pos, streams.Keys, maxStreams, free);
        }
        return None;
      }
      var added := new Stream(id, windowSize);
      AddStream(added);
      return Some(added);
    }

    /** Data within the window is stored whole; more than that resets the stream. */
    method HandleStreamData(id: int, payload: seq<byte>)
      requires Valid() && (id in streams ==> streams[id].Valid())
      modifies this`streams, this`streamCount, this`out
      modifies (if id in streams then {streams[id]} else {})`state
      modifies (if id in streams then {streams[id]} else {})`readTok,
               (if id in streams then {streams[id]} else {})`windowTok
      modifies if id in streams then {streams[id].readBuf, streams[id].readBuf.buf} else {}
      ensures Valid()
      ensures id !in old(streams) ==> streams == old(streams) && out == old(out) + [OutRst(id)]
      ensures id in old(streams) ==> old(streams)[id].Valid() && old(streams)[id].readTok
      ensures id in old(streams) ==>
                fresh(old(streams)[id].readBuf.buf) || old(streams)[id].readBuf.buf == old(streams[id].readBuf.buf)
      ensures id in old(streams) && |old(streams[id].readBuf.Contents())| + |payload| > windowSize ==>
                var s := old(streams)[id];
                && s.state.Reset? && s.windowTok && s.readBuf.Contents() == old(streams[id].readBuf.Contents())
                && streams == old(streams) - {id} && out == old(out) + [OutRst(id)]
      ensures id in old(streams) && |old(streams[id].readBuf.Contents())| + |payload| <= windowSize ==>
                var s := old(streams)[id];
                && s.state == old(streams[id].state)
                && s.readBuf.Contents() == old(streams[id].readBuf.Contents()) + payload
                && streams == old(streams) && out == old(out)
    {
      if id !in streams {
        out := out + [OutRst(id)];
        return;
      }
      var s := streams[id];
      var buffered := s.readBuf.Len();
      if buffered + |payload| > s.maxWindow {
        OnReset(s);
        out := out + [OutRst(id)];
      } else {
        s.Store(payload);
      }
    }

    method HandleStreamClose(id: int)
      requires Valid()
      modifies this`streams, this`streamCount
      modifies (if id in streams then {streams[id]} else {})`state,
               (if id in streams then {streams[id]} else {})`readTok
      ensures Valid()
      ensures id !in old(streams) ==> streams == old(streams)
      ensures id in old(streams) ==>
                var s := old(streams)[id];
                && s.state == AfterPeerClose(old(s.state)) && s.readTok
                && streams == if s.state.Closed? || s.state.Reset? then old(streams) - {id} else old(streams)
    {
      if id !in streams {
        return;
      }
      var s := streams[id];
      if s.state.Active? {
        s.state := HalfClosedRemote;
      } else if s.state.HalfClosedLocal? {
        s.state := Closed;
        RemoveStream(id);
      }
      s.readTok := true;
    }

    method HandleStreamRst(id: int)
      requires Valid()
      modifies this`streams, this`streamCount, (if id in streams then {streams[id]} else {})`state
      modifies (if id in streams then {streams[id]} else {})`readTok,
               (if id in streams then {streams[id]} else {})`windowTok
      ensures Valid() && streams == old(streams) - {id}
      ensures id in old(streams) ==> var s := old(streams)[id]; s.state.Reset? && s.readTok && s.windowTok
    {
      if id in streams {
        OnReset(streams[id]);
      } else {
        assert streams - {id} == streams;
      }
    }

    method HandleStreamWindow(id: int, delta: nat)
      requires Valid() && (id in streams ==> streams[id].Valid())
      modifies (if id in streams then {streams[id]} else {})`window,
               (if id in streams then {streams[id]} else {})`windowTok
      ensures Valid()
      ensures id in streams ==>
                && streams[id].Valid() && streams[id].windowTok && streams[id].state == old(streams[id].state)
                && streams[id].window == Credited(old(streams[id].window), delta, windowSize)
    {
      if id in streams {
        streams[id].OnWindowUpdate(delta);
      }
    }

    // ----- What the owner of a stream does -----

    /** Marks the stream reset, wakes its sleepers and forgets it. */
    method OnReset(s: Stream)
      requires Valid() && s.id in streams && streams[s.id] == s
      modifies this`streams, this`streamCount, s`state, s`readTok, s`windowTok
      ensures Valid() && s.state.Reset? && s.readTok && s.windowTok
      ensures streams == old(streams) - {s.id}
    {
      s.state := Reset;
      s.Wake();
      RemoveStream(s.id);
    }

    /** Close: once, and the CLOSE frame goes out unless the connection is gone. */
    method CloseStream(s: Stream)
      requires Valid()
      modifies this`streams, this`streamCount, this`out, s`state, s`closeCalled
      ensures Valid() && s.closeCalled
      ensures old(s.closeCalled) ==> streams == old(streams) && out == old(out) && s.state == old(s.state)
      ensures !old(s.closeCalled) ==>
                && s.state == AfterLocalClose(old(s.state))
                && out == (if done then old(out) else old(out) + [OutClose(s.id)])
                && streams == if s.state.Closed? || s.state.Reset? then old(streams) - {s.id} else old(streams)
    {
      if s.closeCalled {
        return;
      }
      s.closeCalled := true;
      if s.state.Active? {
        s.state := HalfClosedLocal;
      } else if s.state.HalfClosedRemote? {
        s.state := Closed;
      }
      var fullyClosed := s.state.Closed? || s.state.Reset?;
      if !done {
        out := out + [OutClose(s.id)];
      }
      if fullyClosed {
        RemoveStream(s.id);
      }
    }

    method ResetStream(s: Stream)
      requires Valid()
      modifies this`streams, this`streamCount, this`out, s`state, s`readTok, s`windowTok
      ensures Valid() && s.state.Reset? && s.readTok && s.windowTok
      ensures streams == old(streams) - {s.id}
      ensures out == if done then old(out) else old(out) + [OutRst(s.id)]
    {
      s.state := Reset;
      s.Wake();
      if !done {
        out := out + [OutRst(s.id)];
      }
      RemoveStream(s.id);
    }

    /** Write as far as it gets by itself: it returns, has to wait for credit, or the connection
        fails it after a number of frames; then the chunk that did not go out is refunded. */
    method Write(s: Stream, p: seq<byte>, sends: nat) returns (r: WriteResult)
      requires s.Valid() && 0 < maxFrameSize
      modifies this`out, s`window, s`windowTok
      ensures s.Valid()
      ensures !(s.state.Active? || s.state.HalfClosedRemote?) ==>
                r == (if s.state.Reset? then StreamWasReset else StreamClosed)
                && out == old(out) && s.window == old(s.window)
      ensures s.state.Active? || s.state.HalfClosedRemote? ==>
                var frames := Chunks(s.id, p, old(s.window), maxFrameSize);
                var n := Min(|p|, old(s.window));
                |frames| <= sends ==>
                  && r == (if n == |p| then Wrote(n) else WriteWaits(n))
                  && s.window == old(s.window) - n
                  && out == old(out) + frames
      ensures s.state.Active? || s.state.HalfClosedRemote? ==>
                var frames := Chunks(s.id, p, old(s.window), maxFrameSize);
                sends < |frames| ==>
                  && r == WriteFailed(|Payloads(frames[..sends])|) && s.windowTok
                  && s.window == old(s.window) - r.n
                  && out == old(out) + frames[..sends]
    {
      if s.state.Closed? || s.state.HalfClosedLocal? {
        return StreamClosed;
      }
      if s.state.Reset? {
        return StreamWasReset;
      }
      var n, failed := SendAll(s, p, sends);
      return if failed then WriteFailed(n) else if n == |p| then Wrote(n) else WriteWaits(n);
    }

    method SendAll(s: Stream, p: seq<byte>, sends: nat) returns (total: nat, failed: bool)
      requires s.Valid() && 0 < maxFrameSize
      modifies this`out, s`window, s`windowTok
      ensures s.Valid() && s.window == old(s.window) - total
      ensures var frames := Chunks(s.id, p, old(s.window), maxFrameSize);
              && failed == (sends < |frames|)
              && out == old(out) + (if failed then frames[..sends] else frames)
              && (failed ==> s.windowTok && total == |Payloads(frames[..sends])|)
              && (!failed ==> total == Min(|p|, old(s.window)))
    {
      ghost var frames := Chunks(s.id, p, s.window, maxFrameSize);
      ghost var sent: seq<OutFrame> := [];
      var left := sends;
      total := 0;
      while total < |p|
        invariant 0 <= total <= Min(|p|, old(s.window)) && s.window == old(s.window) - total && s.Valid()
        invariant out == old(out) + sent && sent + Chunks(s.id, p[total..], s.window, maxFrameSize) == frames
        invariant |sent| + left == sends && |Payloads(sent)| == total
        decreases |p| - total
      {
        if s.window <= 0 {
          return total, false;
        }
        ghost var before := total;
        var ok;
        ok, total := SendChunk(s, p, total, left > 0, sent);
        if !ok {
          assert frames[..sends] == sent;
          return total, true;
        }
        PayloadsAppend(sent, s.id, p[before..total]);
        sent := sent + [OutData(s.id, p[before..total])];
        left := left - 1;
      }
      assert p[total..] == [];
      return total, false;
    }

    /** Takes the credit for the next chunk; what is left wakes another writer. */
    method Reserve(s: Stream, left: nat) returns (chunk: nat)
      requires s.Valid() && 0 < maxFrameSize && 0 < left && 0 < s.window
      modifies s`window, s`windowTok
      ensures s.Valid() && 0 < chunk == Min(Min(left, old(s.window)), maxFrameSize)
      ensures s.window == old(s.window) - chunk
      ensures s.windowTok == (old(s.windowTok) || s.window > 0)
    {
      chunk := left;
      if chunk > s.window {
        chunk := s.window;
      }
      if chunk > maxFrameSize {
        chunk := maxFrameSize;
      }
      s.window := s.window - chunk;
      if s.window > 0 {
        s.SignalWindow();
      }
    }

    /** One turn of the loop in Write with credit in hand: reserve, pass a left-over wake-up on, send;
        and give the reservation back if that fails. */
    method SendChunk(s: Stream, p: seq<byte>, total: nat, works: bool, ghost sent: seq<OutFrame>)
      returns (ok: bool, next: nat)
      requires s.Valid() && 0 < maxFrameSize && total < |p| && 0 < s.window
      modifies this`out, s`window, s`windowTok
      ensures s.Valid() && ok == works
      ensures works ==> total < next <= |p| && s.window == old(s.window) - (next - total)
      ensures works ==> out == old(out) + [OutData(s.id, p[total..next])]
      ensures works ==>
                sent + [OutData(s.id, p[total..next])] + Chunks(s.id, p[next..], s.window, maxFrameSize)
                == sent + Chunks(s.id, p[total..], old(s.window), maxFrameSize)
      ensures !works ==> next == total && s.window == old(s.window) && out == old(out) && s.windowTok
      ensures Chunks(s.id, p[total..], old(s.window), maxFrameSize) != []
    {
      ChunksStep(sent, s.id, p, total, s.window, maxFrameSize);
      var chunk := Reserve(s, |p| - total);
      if !works {
        s.window := s.window + chunk;
        s.SignalWindow();
        return false, total;
      }
      out := out + [OutData(s.id, p[total..total + chunk])];
      return true, total + chunk;
    }

    /** Read as far as it gets by itself: what is buffered, with the credit for it, or the reason
        there is nothing. */
    method Read(s: Stream, p: array<byte>) returns (r: ReadResult)
      requires s.Valid() && p != s.readBuf.buf
      modifies this`out, s.readBuf`r, s.readBuf`full, p
      ensures s.Valid()
      ensures var n := Min(p.Length, |old(s.readBuf.Contents())|);
              && p[..n] == old(s.readBuf.Contents())[..n]
              && s.readBuf.Contents() == old(s.readBuf.Contents())[n..]
              && (n > 0 ==> r == Got(n) && out == old(out) + [OutWindow(s.id, n)])
              && (n == 0 ==> out == old(out) && r == match s.state
                                                     case HalfClosedRemote => Eof
                                                     case Closed => Eof
                                                     case Reset => WasReset
                                                     case _ => if done then Truncated else ReadWaits)
    {
      var n := s.readBuf.Read(p);
      if n > 0 {
        out := out + [OutWindow(s.id, n)];
        return Got(n);
      }
      if s.state.Closed? || s.state.HalfClosedRemote? {
        return Eof;
      }
      if s.state.Reset? {
        return WasReset;
      }
      return if done then Truncated else ReadWaits;
    }

    // ----- The end of the connection -----

    /** One stream keeps its end-of-stream state or is cut off; either way it is forgotten. */
    method OnMuxClosed(s: Stream)
      requires Valid() && s.id in streams && streams[s.id] == s
      modifies this`streams, this`streamCount, s`state, s`readTok, s`windowTok
      ensures Valid() && streams == old(streams) - {s.id}
      ensures s.readTok && s.windowTok
      ensures s.state == match old(s.state)
                         case HalfClosedRemote => HalfClosedRemote
                         case Closed => Closed
                         case _ => Reset
    {
      if !PeerEnded(s.state) {
        s.state := Reset;
      }
      s.Wake();
      RemoveStream(s.id);
    }

    /** The end of the connection leaves no stream registered. */
    method CloseWithError()
      requires Valid()
      modifies this`done, this`streams, this`streamCount
      modifies streams.Values`state, streams.Values`readTok, streams.Values`windowTok
      ensures Valid() && done
      ensures old(done) ==> streams == old(streams)
      ensures !old(done) ==> streams == map[]
      ensures !old(done) ==> forall id | id in old(streams) ::
        && old(streams)[id].readTok && old(streams)[id].windowTok
        && old(streams)[id].state == if old(streams[id].state).HalfClosedRemote? then HalfClosedRemote else Reset
    {
      if done {
        return;
      }
      done := true;
      ghost var all := streams;
      ghost var was := map id | id in streams :: streams[id].state;
      var ids := streams.Keys;
      while ids != {}
        invariant CutExcept(all, was, ids) && done
        decreases ids
      {
        ids := CutNext(all, was, ids);
      }
    }

    /** The streams have been told of the end but for those still under ids, which stay registered. */
    ghost predicate CutExcept(all: map<int, Stream>, was: map<int, StreamState>, ids: set<int>)
      reads this, streams.Values, all.Values
    {
      && Valid() && ids <= all.Keys == was.Keys
      && streams == (map id | id in ids :: all[id])
      && forall id | id in all ::
           && all[id].id == id && Open(was[id])
           && if id in ids then all[id].state == was[id]
              else all[id].readTok && all[id].windowTok
                   && all[id].state == if was[id].HalfClosedRemote? then HalfClosedRemote else Reset
    }

    method CutNext(ghost all: map<int, Stream>, ghost was: map<int, StreamState>, ids: set<int>)
      returns (rest: set<int>)
      requires CutExcept(all, was, ids) && ids != {}
      modifies this`streams, this`streamCount, all.Values`state, all.Values`readTok, all.Values`windowTok
      ensures CutExcept(all, was, rest) && rest < ids
    {
      var id := AnyOf(ids);
      var s := streams[id];
      rest := ids - {id};
      CutOff(id);
      assert streams == map i | i in rest :: all[i];
      assert forall i | i in all && i != id :: all[i] != s;
    }

    /** The same for the stream under an ID; the other streams are left alone. */
    method CutOff(id: int)
      requires Valid() && id in streams
      modifies this`streams, this`streamCount, {streams[id]}`state, {streams[id]}`readTok, {streams[id]}`windowTok
      ensures Valid() && streams == old(streams) - {id}
      ensures old(streams)[id].readTok && old(streams)[id].windowTok
      ensures old(streams)[id].state == if old(streams[id].state).HalfClosedRemote? then HalfClosedRemote else Reset
    {
      OnMuxClosed(streams[id]);
    }
  }

  ghost predicate SomeEvenIdFree(streams: map<int, Stream>) {
    exists id :: 2 <= id <= MAX_LOCAL_ID && id % 2 == 0 && id !in streams
  }

  /** From one place on the circle to the next. */
  lemma NextPlace(pos: nat)
    ensures IdAt(pos + 1) == if IdAt(pos) + 2 > MAX_LOCAL_ID then 2 else IdAt(pos) + 2
  {
  }
}
