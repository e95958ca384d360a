/** Whatever frames a peer sends, and whatever the owners of the streams do between them. */
module MuxRuns {
  import opened Base
  import opened StreamCore
  import opened RingBuffers
  import opened Muxes

  datatype InFrame =
    | InOpen(id: int)
    | InData(id: int, payload: seq<byte>)
    | InClose(id: int)
    | InRst(id: int)
    | InWindow(id: int, delta: nat)

  ghost function RingsOf(m: Mux): set<RingBuffer>
    reads m
  {
    set s | s in m.streams.Values :: s.readBuf
  }

  ghost function ArraysOf(m: Mux): set<array<byte>>
    reads m, RingsOf(m)
  {
    set r | r in RingsOf(m) :: r.buf
  }

  /** Every registered stream has a sound buffer of its own. */
  ghost predicate Sound(m: Mux)
    reads m, m.streams.Values, RingsOf(m), ArraysOf(m)
  {
    && (forall id | id in m.streams :: m.streams[id].Valid())
    && (forall i, j | i in m.streams && j in m.streams && i != j ::
         m.streams[i].readBuf != m.streams[j].readBuf && m.streams[i].readBuf.buf != m.streams[j].readBuf.buf)
  }

  /** The send credit of every registered stream lies within its start. */
  ghost predicate Credits(m: Mux)
    reads m, m.streams.Values
  {
    forall id | id in m.streams :: m.streams[id].window <= m.windowSize
  }

  /** The same of all streams but one. */
  ghost predicate SoundExcept(m: Mux, but: int)
    reads m, m.streams.Values, RingsOf(m), ArraysOf(m)
  {
    && (forall id | id in m.streams && id != but :: m.streams[id].Valid())
    && (forall i, j | i in m.streams && j in m.streams && i != j && i != but && j != but ::
         m.streams[i].readBuf != m.streams[j].readBuf && m.streams[i].readBuf.buf != m.streams[j].readBuf.buf)
  }

  /** Of all streams but one, none is new, and no buffer has changed; some may have been forgotten,
      and states, tokens and windows may have moved. */
  twostate predicate OthersKept(m: Mux, but: int)
    reads m, m.streams.Values, RingsOf(m), ArraysOf(m)
  {
    forall id | id in m.streams && id != but ::
      && id in old(m.streams) && m.streams[id] == old(m.streams[id])
      && unchanged(m.streams[id].readBuf) && unchanged(m.streams[id].readBuf.buf)
      && (m.streams[id].window == old(m.streams[id].window) || 0 <= m.streams[id].window)
  }

  twostate lemma OthersStay(m: Mux)
    requires old(Sound(m))
    ensures forall but :: OthersKept(m, but) ==> SoundExcept(m, but)
  {
    forall but, id | OthersKept(m, but) && id in m.streams && id != but
      ensures m.streams[id].Valid()
    {
      var s := m.streams[id];
      assert old(s.Valid());
      assert s.readBuf.Contents() == old(s.readBuf.Contents());
    }
  }

  lemma AllSound(m: Mux, but: int)
    requires SoundExcept(m, but) && (but in m.streams ==> m.streams[but].Valid())
    requires but in m.streams ==> forall id | id in m.streams && id != but ::
      m.streams[id].readBuf != m.streams[but].readBuf && m.streams[id].readBuf.buf != m.streams[but].readBuf.buf
    ensures Sound(m)
  {
  }

  lemma OneSound(m: Mux, id: int)
    requires Sound(m) && id in m.streams
    ensures m.streams[id].Valid()
    ensures forall i | i in m.streams && i != id ::
      m.streams[i].readBuf != m.streams[id].readBuf && m.streams[i].readBuf.buf != m.streams[id].readBuf.buf
  {
  }

  /** The table holds streams it held before, and new ones; buffers have grown into new arrays. */
  twostate predicate Grown(m: Mux)
    reads m, m.streams.Values, RingsOf(m)
  {
    forall id | id in m.streams ::
      var s := m.streams[id];
      || (fresh(s) && fresh(s.readBuf) && fresh(s.readBuf.buf))
      || (s in old(m.streams.Values) && (fresh(s.readBuf.buf) || s.readBuf.buf == old(s.readBuf.buf)))
  }

  /** The limit on streams is fixed, and kept. */
  twostate predicate Limited(m: Mux)
    reads m
  {
    m.maxStreams == old(m.maxStreams) && (old(|m.streams| <= m.maxStreams) ==> |m.streams| <= m.maxStreams)
  }

  /** Forgetting streams keeps the limit. */
  twostate lemma FewerStreams(m: Mux)
    requires m.maxStreams == old(m.maxStreams) && m.streams.Keys <= old(m.streams.Keys)
    ensures Limited(m)
  {
    Smaller(m.streams.Keys, old(m.streams.Keys));
  }

  // ----- One frame -----

  method TakeClose(m: Mux, id: int)
    requires m.Valid() && Sound(m)
    modifies m, m.streams.Values
    ensures m.Valid() && Sound(m) && Grown(m) && Limited(m) && (old(Credits(m)) ==> Credits(m))
  {
    hide Sound, SoundExcept;
    m.HandleStreamClose(id);
    FewerStreams(m);
    OthersStay(m);
    assert OthersKept(m, CONTROL_STREAM_ID);
    AllSound(m, CONTROL_STREAM_ID);
  }

  method TakeRst(m: Mux, id: int)
    requires m.Valid() && Sound(m)
    modifies m, m.streams.Values
    ensures m.Valid() && Sound(m) && Grown(m) && Limited(m) && (old(Credits(m)) ==> Credits(m))
  {
    hide Sound, SoundExcept;
    m.HandleStreamRst(id);
    FewerStreams(m);
    OthersStay(m);
    assert OthersKept(m, CONTROL_STREAM_ID);
    AllSound(m, CONTROL_STREAM_ID);
  }

  method TakeWindow(m: Mux, id: int, delta: nat)
    requires m.Valid() && Sound(m)
    modifies m, m.streams.Values
    ensures m.Valid() && Sound(m) && Grown(m) && Limited(m) && (old(Credits(m)) ==> Credits(m))
  {
    hide Sound, SoundExcept;
    if id in m.streams {
      OneSound(m, id);
    }
    m.HandleStreamWindow(id, delta);
    FewerStreams(m);
    OthersStay(m);
    assert OthersKept(m, CONTROL_STREAM_ID);
    AllSound(m, CONTROL_STREAM_ID);
  }

  method TakeOpen(m: Mux, id: int)
    requires m.Valid() && Sound(m)
    modifies m
    ensures m.Valid() && Sound(m) && Grown(m) && Limited(m) && (old(Credits(m)) ==> Credits(m))
  {
    hide Sound, SoundExcept;
    if id != CONTROL_STREAM_ID && |m.streams| < m.maxStreams && id !in m.streams && |m.accept| < ACCEPT_QUEUE {
      TakeNew(m, id);
    } else {
      m.HandleStreamOpen(id);
      FewerStreams(m);
      OthersStay(m);
      assert OthersKept(m, CONTROL_STREAM_ID);
      AllSound(m, CONTROL_STREAM_ID);
    }
  }

  method TakeNew(m: Mux, id: int)
    requires m.Valid() && Sound(m) && id != CONTROL_STREAM_ID && |m.streams| < m.maxStreams && id !in m.streams
    requires |m.accept| < ACCEPT_QUEUE
    modifies m
    ensures m.Valid() && Sound(m) && Grown(m) && Limited(m) && (old(Credits(m)) ==> Credits(m))
  {
    hide Sound, SoundExcept;
    m.HandleStreamOpen(id);
    OthersStay(m);
    assert OthersKept(m, id);
    AllSound(m, id);
  }

  method TakeData(m: Mux, id: int, payload: seq<byte>)
    requires m.Valid() && Sound(m)
    modifies m, m.streams.Values, RingsOf(m), ArraysOf(m)
    ensures m.Valid() && Sound(m) && Grown(m) && Limited(m) && (old(Credits(m)) ==> Credits(m))
  {
    hide Sound, SoundExcept;
    if id in m.streams {
      StoreData(m, id, payload);
    } else {
      m.HandleStreamData(id, payload);
      FewerStreams(m);
      OthersStay(m);
      assert OthersKept(m, id);
      AllSound(m, id);
    }
  }

  method StoreData(m: Mux, id: int, payload: seq<byte>)
    requires m.Valid() && Sound(m) && id in m.streams
    modifies m, m.streams[id], m.streams[id].readBuf, m.streams[id].readBuf.buf
    ensures m.Valid() && Sound(m) && Grown(m) && Limited(m) && (old(Credits(m)) ==> Credits(m))
  {
    hide Sound, SoundExcept;
    OneSound(m, id);
    m.HandleStreamData(id, payload);
    FewerStreams(m);
    OthersStay(m);
    assert OthersKept(m, id);
    AllSound(m, id);
  }

  /** The dispatcher of the read loop. */
  method HandleFrame(m: Mux, f: InFrame)
    requires m.Valid() && Sound(m)
    modifies m, m.streams.Values, RingsOf(m), ArraysOf(m)
    ensures m.Valid() && Sound(m) && Grown(m) && Limited(m) && (old(Credits(m)) ==> Credits(m))
  {
    match f {
      case InOpen(id) => TakeOpen(m, id);
      case InData(id, payload) => TakeData(m, id, payload);
      case InClose(id) => TakeClose(m, id);
      case InRst(id) => TakeRst(m, id);
      case InWindow(id, delta) => TakeWindow(m, id, delta);
    }
  }

  // ----- What the owners of streams do -----

  method OpenOne(m: Mux)
    requires m.Valid() && Sound(m) && 0 <= m.maxStreams
    modifies m
    ensures m.Valid() && Sound(m) && Grown(m) && Limited(m) && (old(Credits(m)) ==> Credits(m))
  {
    hide Sound, SoundExcept;
    var s := m.OpenStream();
    OthersStay(m);
    ghost var id := if s.Some? then s.value.id else CONTROL_STREAM_ID;
    assert OthersKept(m, id);
    AllSound(m, id);
  }

  method ReadSome(m: Mux, id: int, limit: nat)
    requires m.Valid() && Sound(m)
    modifies m, m.streams.Values, RingsOf(m)
    ensures m.Valid() && Sound(m) && Grown(m) && Limited(m) && (old(Credits(m)) ==> Credits(m))
  {
    hide Sound, SoundExcept;
    if id in m.streams {
      OneSound(m, id);
      var p := new byte[limit](_ => 0);
      var r := m.Read(m.streams[id], p);
      FewerStreams(m);
      OthersStay(m);
      assert OthersKept(m, id);
      AllSound(m, id);
    }
  }

  method WriteSome(m: Mux, id: int, p: seq<byte>, sends: nat)
    requires m.Valid() && Sound(m)
    modifies m, m.streams.Values
    ensures m.Valid() && Sound(m) && Grown(m) && Limited(m) && (old(Credits(m)) ==> Credits(m))
  {
    hide Sound, SoundExcept;
    if id in m.streams {
      OneSound(m, id);
      var r := m.Write(m.streams[id], p, sends);
      FewerStreams(m);
      OthersStay(m);
      assert OthersKept(m, CONTROL_STREAM_ID);
      AllSound(m, CONTROL_STREAM_ID);
    }
  }

  method CloseOne(m: Mux, id: int, abort: bool)
    requires m.Valid() && Sound(m)
    modifies m, m.streams.Values
    ensures m.Valid() && Sound(m) && Grown(m) && Limited(m) && (old(Credits(m)) ==> Credits(m))
  {
    if id in m.streams {
      if abort {
        AbortOne(m, m.streams[id]);
      } else {
        EndOne(m, m.streams[id]);
      }
    }
  }

  method AbortOne(m: Mux, s: Stream)
    requires m.Valid() && Sound(m)
    requires s in m.streams.Values
    modifies m, m.streams.Values
    ensures m.Valid() && Sound(m) && Grown(m) && Limited(m) && (old(Credits(m)) ==> Credits(m))
  {
    hide Sound, SoundExcept;
    m.ResetStream(s);
    FewerStreams(m);
    OthersStay(m);
    assert OthersKept(m, CONTROL_STREAM_ID);
    AllSound(m, CONTROL_STREAM_ID);
  }

  method EndOne(m: Mux, s: Stream)
    requires m.Valid() && Sound(m)
    requires s in m.streams.Values
    modifies m, m.streams.Values
    ensures m.Valid() && Sound(m) && Grown(m) && Limited(m) && (old(Credits(m)) ==> Credits(m))
  {
    hide Sound, SoundExcept;
    m.CloseStream(s);
    FewerStreams(m);
    OthersStay(m);
    assert OthersKept(m, CONTROL_STREAM_ID);
    AllSound(m, CONTROL_STREAM_ID);
  }

  // ----- Runs -----

  datatype Event =
    | Frame(frame: InFrame)
    | LocalOpen
    | LocalRead(id: int, limit: nat)
    | LocalWrite(id: int, p: seq<byte>, sends: nat)
    | LocalClose(id: int, abort: bool)
    | ConnectionEnds

  method Step(m: Mux, x: Event)
    requires m.Valid() && Sound(m) && 0 <= m.maxStreams
    modifies m, m.streams.Values, RingsOf(m), ArraysOf(m)
    ensures m.Valid() && Sound(m) && Grown(m) && Limited(m) && (old(Credits(m)) ==> Credits(m))
  {
    match x {
      case Frame(f) => HandleFrame(m, f);
      case LocalOpen => OpenOne(m);
      case LocalRead(id, limit) => ReadSome(m, id, limit);
      case LocalWrite(id, p, sends) => WriteSome(m, id, p, sends);
      case LocalClose(id, abort) => CloseOne(m, id, abort);
      case ConnectionEnds => EndAll(m);
    }
  }

  method EndAll(m: Mux)
    requires m.Valid() && Sound(m)
    modifies m, m.streams.Values
    ensures m.Valid() && Sound(m) && Grown(m) && Limited(m) && (old(Credits(m)) ==> Credits(m))
  {
    hide Sound, SoundExcept;
    m.CloseWithError();
    FewerStreams(m);
    OthersStay(m);
    assert OthersKept(m, CONTROL_STREAM_ID);
    AllSound(m, CONTROL_STREAM_ID);
  }

  lemma KeyOf<K, V>(table: map<K, V>, v: V) returns (k: K)
    requires v in table.Values
    ensures k in table && table[k] == v
  {
    k :| k in table && table[k] == v;
  }

  twostate lemma OnlyNew(m: Mux)
    requires Grown(m)
    ensures fresh(m.streams.Values - old(m.streams.Values))
    ensures fresh(RingsOf(m) - old(RingsOf(m)))
    ensures fresh(ArraysOf(m) - old(ArraysOf(m)))
  {
    forall s | s in m.streams.Values
      ensures s in old(m.streams.Values) || fresh(s)
      ensures s.readBuf in old(RingsOf(m)) || fresh(s.readBuf)
      ensures s.readBuf.buf in old(ArraysOf(m)) || fresh(s.readBuf.buf)
    {
      var id := KeyOf(m.streams, s);
      if s in old(m.streams.Values) {
        assert old(s.readBuf in RingsOf(m));
        assert old(s.readBuf.buf in ArraysOf(m));
      }
    }
  }

  method NextStep(m: Mux, x: Event)
    requires m.Valid() && Sound(m) && 0 <= m.maxStreams
    modifies m, m.streams.Values, RingsOf(m), ArraysOf(m)
    ensures m.Valid() && Sound(m) && Limited(m) && (old(Credits(m)) ==> Credits(m))
    ensures fresh(m.streams.Values - old(m.streams.Values))
    ensures fresh(RingsOf(m) - old(RingsOf(m)))
    ensures fresh(ArraysOf(m) - old(ArraysOf(m)))
  {
    hide Sound, Credits, RingsOf, ArraysOf, Grown;
    Step(m, x);
    OnlyNew(m);
  }

  lemma Bounds(m: Mux)
    requires m.Valid() && Sound(m) && Credits(m)
    ensures m.streamCount == |m.streams|
    ensures forall id | id in m.streams ::
      var s := m.streams[id];
      && Open(s.state) && s.readBuf.Valid()
      && |s.readBuf.Contents()| <= m.windowSize
      && s.readBuf.size < 2 * m.windowSize && s.readBuf.size <= MAX_RING_BUFFER_SIZE
      && 0 <= s.window <= m.windowSize
  {
  }

  /**
   * Through any sequence of frames from the peer, conforming or not, and of calls by the streams'
   * owners: the counter is the table's size and within the limit asked for - ten thousand if none
   * was -, every registered stream is open, what it buffers fits the window, its buffer's capacity
   * stays below two windows and 16 MB, and its send credit lies between zero and the window.
   */
  method Serve(maxStreams: int, windowSize: int, maxFrameSize: int, events: seq<Event>) returns (m: Mux)
    ensures fresh(m) && m.Valid() && m.streamCount == |m.streams|
    ensures |m.streams| <= if maxStreams <= 0 then 10000 else maxStreams
    ensures forall id | id in m.streams ::
      var s := m.streams[id];
      && Open(s.state) && s.readBuf.Valid()
      && |s.readBuf.Contents()| <= m.windowSize
      && s.readBuf.size < 2 * m.windowSize && s.readBuf.size <= MAX_RING_BUFFER_SIZE
      && 0 <= s.window <= m.windowSize
  {
    m := new Mux(maxStreams, windowSize, maxFrameSize);
    assert Sound(m) && Credits(m) && RingsOf(m) == {} && ArraysOf(m) == {};
    hide Sound, Credits, RingsOf, ArraysOf;
    for i := 0 to |events|
      invariant fresh(m) && fresh(m.streams.Values) && fresh(RingsOf(m)) && fresh(ArraysOf(m))
      invariant m.Valid() && Sound(m) && Credits(m) && 0 <= |m.streams| <= m.maxStreams
      invariant m.maxStreams == if maxStreams <= 0 then 10000 else maxStreams
    {
      NextStep(m, events[i]);
    }
    Bounds(m);
  }
}
