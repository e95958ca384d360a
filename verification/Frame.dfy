/** The 9-byte frame header and the payload behind it. */
module Frames {
  import opened Base

  const VERSION: byte := 0x01
  const HEADER_SIZE := 9
  const MAX_PAYLOAD_SIZE := 16 * 1024 * 1024
  const MAX_STREAM_ID := 0xFF_FFFF
  const SMALL_PAYLOAD_SIZE := 64 * 1024

  /** streamId is a 32-bit field of which the wire carries 24 bits. */
  datatype Frame = Frame(version: byte, kind: byte, streamId: nat, payload: seq<byte>)

  datatype EncodeError = BadVersion | BadStreamId | TooLarge | WriteFailed
  datatype ReadError = EndOfFile | UnexpectedEof | InvalidVersion | PayloadTooLarge

  // ----- The format -----

  predicate Encodable(f: Frame) {
    f.version == VERSION && f.streamId <= MAX_STREAM_ID && |f.payload| <= MAX_PAYLOAD_SIZE
  }

  type WireFrame = f: Frame | Encodable(f) witness Frame(VERSION, 0, 0, [])

  /** The fixed part: version, type, 24-bit stream ID and 32-bit payload length, big-endian. */
  function Header(f: Frame): (h: seq<byte>)
    requires f.streamId <= MAX_STREAM_ID && |f.payload| <= MAX_PAYLOAD_SIZE
    ensures |h| == HEADER_SIZE
  {
    var n := |f.payload|;
    [f.version, f.kind, f.streamId / 0x1_0000, f.streamId / 0x100 % 0x100, f.streamId % 0x100,
     n / 0x100_0000, n / 0x1_0000 % 0x100, n / 0x100 % 0x100, n % 0x100]
  }

  function Wire(f: Frame): seq<byte>
    requires Encodable(f)
  {
    Header(f) + f.payload
  }

  function BigEndian3(a: nat, b: nat, c: nat): nat {
    a * 0x1_0000 + b * 0x100 + c
  }

  function BigEndian4(a: nat, b: nat, c: nat, d: nat): nat {
    a * 0x100_0000 + b * 0x1_0000 + c * 0x100 + d
  }

  function StreamIdOf(h: seq<byte>): nat
    requires |h| == HEADER_SIZE
  {
    BigEndian3(h[2], h[3], h[4])
  }

  function LengthOf(h: seq<byte>): nat
    requires |h| == HEADER_SIZE
  {
    BigEndian4(h[5], h[6], h[7], h[8])
  }

  /** Reading exactly n bytes: io.ReadFull's errors. */
  function Short(available: nat): ReadError {
    if available == 0 then EndOfFile else UnexpectedEof
  }

  /** What reading one frame from these bytes gives. */
  function Parse(b: seq<byte>): (r: Result<Frame, ReadError>)
    ensures r.Ok? ==> |r.value.payload| <= MAX_PAYLOAD_SIZE && HEADER_SIZE + |r.value.payload| <= |b|
  {
    if |b| < HEADER_SIZE then Err(Short(|b|))
    else
      var h := b[..HEADER_SIZE];
      var n := LengthOf(h);
      if h[0] != VERSION then Err(InvalidVersion)
      else if n > MAX_PAYLOAD_SIZE then Err(PayloadTooLarge)
      else if |b| < HEADER_SIZE + n then Err(Short(|b| - HEADER_SIZE))
      else Ok(Frame(h[0], h[1], StreamIdOf(h), b[HEADER_SIZE..HEADER_SIZE + n]))
  }

  /** Splitting a number into bytes and putting it together again. */
  lemma HeaderFields(f: Frame)
    requires Encodable(f)
    ensures StreamIdOf(Header(f)) == f.streamId && LengthOf(Header(f)) == |f.payload|
  {
    Bytes3(f.streamId);
    Bytes4(|f.payload|);
  }

  lemma Bytes3(n: nat)
    requires n <= MAX_STREAM_ID
    ensures BigEndian3(n / 0x1_0000, n / 0x100 % 0x100, n % 0x100) == n
  {
  }

  lemma Bytes4(n: nat)
    ensures BigEndian4(n / 0x100_0000, n / 0x1_0000 % 0x100, n / 0x100 % 0x100, n % 0x100) == n
  {
    assert n / 0x100 / 0x100 == n / 0x1_0000 && n / 0x1_0000 / 0x100 == n / 0x100_0000;
  }

  /** Putting bytes together and splitting the number again. */
  lemma FieldsHeader(h: seq<byte>, f: Frame)
    requires |h| == HEADER_SIZE && Encodable(f)
    requires f.version == h[0] && f.kind == h[1] && f.streamId == StreamIdOf(h) && |f.payload| == LengthOf(h)
    ensures Header(f) == h
  {
    Digits3(h[2], h[3], h[4]);
    Digits4(h[5], h[6], h[7], h[8]);
  }

  /** Division with remainder by a power of 256, one of them at a time. */
  lemma Divide(q: nat, r: nat, m: nat)
    requires m == 0x100 || m == 0x1_0000 || m == 0x100_0000
    requires r < m
    ensures (q * m + r) / m == q && (q * m + r) % m == r
  {
  }

  lemma Digits3(a: nat, b: nat, c: nat)
    requires a < 0x100 && b < 0x100 && c < 0x100
    ensures var n := BigEndian3(a, b, c); n / 0x1_0000 == a && n / 0x100 % 0x100 == b && n % 0x100 == c
  {
    Divide(a * 0x100 + b, c, 0x100);
    Divide(a, b, 0x100);
    Divide(a, b * 0x100 + c, 0x1_0000);
  }

  lemma Digits4(a: nat, b: nat, c: nat, d: nat)
    requires a < 0x100 && b < 0x100 && c < 0x100 && d < 0x100
    ensures var n := BigEndian4(a, b, c, d);
            n / 0x100_0000 == a && n / 0x1_0000 % 0x100 == b && n / 0x100 % 0x100 == c && n % 0x100 == d
  {
    Divide(a, b * 0x1_0000 + c * 0x100 + d, 0x100_0000);
    Divide(a * 0x100 + b, c * 0x100 + d, 0x1_0000);
    Divide(a, b, 0x100);
    Divide(a * 0x1_0000 + b * 0x100 + c, d, 0x100);
    Divide(a * 0x100 + b, c, 0x100);
  }

  // ----- Laws of the format -----

  /** Where each part lies, and its range: a version byte of 1, the type, three bytes of stream identifier and
      four of payload length, the most significant first, and then the payload. */
  lemma Layout(f: Frame)
    ensures Encodable(f) <==> f.version == 1 && f.streamId <= 16777215 && |f.payload| <= 16777216
    ensures Encodable(f) ==>
      var b := Wire(f);
      && |b| == 9 + |f.payload| && b[0] == 1 && b[1] == f.kind && b[9..] == f.payload
      && f.streamId == (b[2] as int) * 65536 + (b[3] as int) * 256 + b[4] as int
      && |f.payload| == (b[5] as int) * 16777216 + (b[6] as int) * 65536 + (b[7] as int) * 256 + b[8] as int
  {
    if Encodable(f) {
      HeaderFields(f);
    }
  }

  /** What is refused, and over what: first a header cut short, then its version, then its length, then a
      payload cut short. */
  lemma Refusals(b: seq<byte>)
    ensures |b| < 9 ==> Parse(b) == Err(if b == [] then EndOfFile else UnexpectedEof)
    ensures |b| >= 9 ==>
      var n := (b[5] as int) * 16777216 + (b[6] as int) * 65536 + (b[7] as int) * 256 + b[8] as int;
      && (b[0] != 1 ==> Parse(b) == Err(InvalidVersion))
      && (b[0] == 1 && n > 16777216 ==> Parse(b) == Err(PayloadTooLarge))
      && (b[0] == 1 && n <= 16777216 && |b| < 9 + n ==>
            Parse(b) == Err(if |b| == 9 then EndOfFile else UnexpectedEof))
      && (b[0] == 1 && n <= 16777216 && |b| >= 9 + n ==>
            var id := (b[2] as int) * 65536 + (b[3] as int) * 256 + b[4] as int;
            Parse(b) == Ok(Frame(1, b[1], id, b[9..9 + n])))
  {
  }

  /** Decoding what was encoded, whatever follows it. */
  lemma DecodeEncode(f: Frame, rest: seq<byte>)
    requires Encodable(f)
    ensures Parse(Wire(f) + rest) == Ok(f)
  {
    HeaderFields(f);
    var b := Wire(f) + rest;
    assert b[..HEADER_SIZE] == Header(f);
    assert b[HEADER_SIZE..HEADER_SIZE + |f.payload|] == f.payload;
  }

  /** Encoding what was decoded: accepted bytes have no second form. */
  lemma EncodeDecode(b: seq<byte>)
    requires Parse(b).Ok?
    ensures var f := Parse(b).value;
            Encodable(f) && Wire(f) == b[..HEADER_SIZE + |f.payload|]
  {
    var f := Parse(b).value;
    var h := b[..HEADER_SIZE];
    assert StreamIdOf(h) <= MAX_STREAM_ID;
    FieldsHeader(h, f);
    assert b[..HEADER_SIZE + |f.payload|] == h + b[HEADER_SIZE..HEADER_SIZE + |f.payload|];
  }

  /** A frame cut short anywhere reads as end of file: as a clean one before its first byte, and right
      behind its header too, where it is not. */
  lemma NoPrefixParses(f: Frame, k: nat)
    requires Encodable(f) && k < |Wire(f)|
    ensures Parse(Wire(f)[..k]) == Err(if k == 0 || k == HEADER_SIZE then EndOfFile else UnexpectedEof)
  {
    HeaderFields(f);
    if k >= HEADER_SIZE {
      assert Wire(f)[..k][..HEADER_SIZE] == Header(f);
    }
  }

  /** Frames back to back. */
  function WireAll(fs: seq<WireFrame>): seq<byte> {
    if fs == [] then [] else Wire(fs[0]) + WireAll(fs[1..])
  }

  /** Every frame a reader gets from these bytes, and the error that ends it. */
  function ParseAll(b: seq<byte>): (seq<Frame>, ReadError)
    decreases |b|
  {
    match Parse(b)
    case Err(e) => ([], e)
    case Ok(f) =>
      var tail := ParseAll(b[HEADER_SIZE + |f.payload|..]);
      ([f] + tail.0, tail.1)
  }

  lemma ParseOne(f: WireFrame, rest: seq<byte>)
    ensures ParseAll(Wire(f) + rest) == ([f] + ParseAll(rest).0, ParseAll(rest).1)
  {
    hide Parse, Header;
    DecodeEncode(f, rest);
    assert (Wire(f) + rest)[HEADER_SIZE + |f.payload|..] == rest;
  }

  /** Whole frames are read whatever follows them, and what follows is read from its start. */
  lemma {:induction false} ParseAllTail(fs: seq<WireFrame>, tail: seq<byte>)
    ensures ParseAll(WireAll(fs) + tail) == (fs + ParseAll(tail).0, ParseAll(tail).1)
  {
    hide ParseAll, Wire;
    if fs == [] {
      assert WireAll(fs) + tail == tail;
      assert fs + ParseAll(tail).0 == ParseAll(tail).0;
    } else {
      assert WireAll(fs) + tail == Wire(fs[0]) + (WireAll(fs[1..]) + tail);
      ParseOne(fs[0], WireAll(fs[1..]) + tail);
      ParseAllTail(fs[1..], tail);
      assert [fs[0]] + (fs[1..] + ParseAll(tail).0) == fs + ParseAll(tail).0;
    }
  }

  /** Reading the concatenation of any list of frames gives that list and then a clean end. */
  lemma ParseAllWireAll(fs: seq<WireFrame>)
    ensures ParseAll(WireAll(fs)) == (fs, EndOfFile)
  {
    ParseAllTail(fs, []);
    assert WireAll(fs) + [] == WireAll(fs) && fs + [] == fs;
    assert Parse([]) == Err(EndOfFile);
  }

  /** A frame cut short in its payload, with other bytes behind the cut: they are taken for the rest of
      the payload, and as soon as there are enough of them a frame is read. */
  lemma CutReads(f: Frame, k: nat, rest: seq<byte>)
    requires Encodable(f) && HEADER_SIZE <= k < |Wire(f)|
    ensures var missing := |Wire(f)| - k;
            Parse(Wire(f)[..k] + rest) ==
            if |rest| < missing then Err(Short(k - HEADER_SIZE + |rest|))
            else Ok(f.(payload := f.payload[..k - HEADER_SIZE] + rest[..missing]))
  {
    HeaderFields(f);
    var b := Wire(f)[..k] + rest;
    assert b[..HEADER_SIZE] == Header(f);
    Spliced(Header(f), f.payload, k, rest);
  }

  lemma Spliced(header: seq<byte>, payload: seq<byte>, k: nat, rest: seq<byte>)
    requires |header| <= k < |header + payload|
    ensures var (n, missing) := (|header|, |header + payload| - k);
            var b := (header + payload)[..k] + rest;
            |rest| >= missing ==> b[n..n + |payload|] == payload[..k - n] + rest[..missing]
  {
    var n := |header|;
    assert (header + payload)[..k] == header + payload[..k - n];
    assert ((header + payload)[..k] + rest)[n..] == payload[..k - n] + rest;
  }

  lemma {:induction false} WireAllAppend(fs: seq<WireFrame>, f: WireFrame)
    ensures WireAll(fs + [f]) == WireAll(fs) + Wire(f)
  {
    if fs == [] {
      assert fs + [f] == [f];
      assert Wire(f) + [] == Wire(f);
    } else {
      WireAllAppend(fs[1..], f);
      assert (fs + [f])[1..] == fs[1..] + [f];
      assert Wire(fs[0]) + (WireAll(fs[1..]) + Wire(f)) == Wire(fs[0]) + WireAll(fs[1..]) + Wire(f);
    }
  }

  // ----- The code -----

  /** A connection being written; the write that finds less than its length of room is cut short. */
  class Sink {
    var data: seq<byte>
    var room: nat

    method Write(p: seq<byte>) returns (ok: bool)
      modifies this
      ensures ok <==> |p| <= old(room)
      ensures data == old(data) + p[..Min(|p|, old(room))]
      ensures room == old(room) - Min(|p|, old(room))
    {
      var n := if |p| <= room then |p| else room;
      data := data + p[..n];
      ok := n == |p|;
      room := room - n;
    }
  }

  class Source {
    var data: seq<byte>  // what is still to be read

    method ReadFull(n: nat) returns (r: Result<seq<byte>, ReadError>)
      modifies this
      ensures |old(data)| < n ==> r == Err(Short(|old(data)|)) && data == []
      ensures |old(data)| >= n ==> r == Ok(old(data)[..n]) && data == old(data)[n..]
    {
      if |data| < n {
        r := Err(if |data| == 0 then EndOfFile else UnexpectedEof);
        data := [];
      } else {
        r := Ok(data[..n]);
        data := data[n..];
      }
    }

    /** A growing buffer filled with at most n bytes; some but too few are an unexpected end. */
    method CopyN(n: nat) returns (r: Result<seq<byte>, ReadError>)
      requires 0 < n
      modifies this
      ensures |old(data)| < n ==> r == Err(Short(|old(data)|)) && data == []
      ensures |old(data)| >= n ==> r == Ok(old(data)[..n]) && data == old(data)[n..]
    {
      var take := if |data| < n then |data| else n;
      var got := data[..take];
      data := data[take..];
      if take < n {
        r := Err(if take > 0 then UnexpectedEof else EndOfFile);
      } else {
        r := Ok(got);
      }
    }
  }

  /** Writes the frame through a pooled header buffer; nothing is written of a frame that cannot
      be encoded, and a failed write leaves a proper prefix of the frame behind. */
  method Encode(f: Frame, w: Sink, header: array<byte>) returns (r: Result<(), EncodeError>)
    requires header.Length == HEADER_SIZE
    modifies w, header
    ensures Encodable(f) && |Wire(f)| <= old(w.room) <==> r.Ok?
    ensures r.Ok? ==> w.data == old(w.data) + Wire(f)
    ensures !Encodable(f) ==> w.data == old(w.data) && r == Err(
              if f.version != VERSION then BadVersion else if f.streamId > MAX_STREAM_ID then BadStreamId else TooLarge)
    ensures Encodable(f) && r.Err? ==> r == Err(WriteFailed) && old(w.room) < |Wire(f)|
    ensures Encodable(f) && r.Err? ==> w.data == old(w.data) + Wire(f)[..old(w.room)]
  {
    if f.version != VERSION {
      return Err(BadVersion);
    }
    if f.streamId > MAX_STREAM_ID {
      return Err(BadStreamId);
    }
    if |f.payload| > MAX_PAYLOAD_SIZE {
      return Err(TooLarge);
    }
    FillHeader(f, header);
    ghost var room := w.room;
    var ok := w.Write(header[..]);
    if !ok {
      assert Header(f)[..room] == Wire(f)[..room];
      return Err(WriteFailed);
    }
    if |f.payload| > 0 {
      ghost var before := w.data;
      ok := w.Write(f.payload);
      if !ok {
        assert Header(f) + f.payload[..room - HEADER_SIZE] == Wire(f)[..room];
        return Err(WriteFailed);
      }
    }
    return Ok(());
  }

  method FillHeader(f: Frame, header: array<byte>)
    requires header.Length == HEADER_SIZE && Encodable(f)
    modifies header
    ensures header[..] == Header(f)
  {
    var n := |f.payload|;
    header[0] := f.version;
    header[1] := f.kind;
    header[2] := f.streamId / 0x1_0000;
    header[3] := f.streamId / 0x100 % 0x100;
    header[4] := f.streamId % 0x100;
    header[5] := n / 0x100_0000;
    header[6] := n / 0x1_0000 % 0x100;
    header[7] := n / 0x100 % 0x100;
    header[8] := n % 0x100;
  }

  /** Reads one frame; small payloads at once, large ones as they arrive - with the same outcome. */
  method ReadFrame(s: Source) returns (r: Result<Frame, ReadError>)
    modifies s
    ensures r == Parse(old(s.data))
    ensures r.Ok? ==> s.data == old(s.data)[HEADER_SIZE + |r.value.payload|..]
  {
    ghost var b := s.data;
    var header := s.ReadFull(HEADER_SIZE);
    if header.Err? {
      return Err(header.error);
    }
    var h := header.value;
    if h[0] != VERSION {
      return Err(InvalidVersion);
    }
    var streamId := BigEndian3(h[2], h[3], h[4]);
    var n := BigEndian4(h[5], h[6], h[7], h[8]);
    if n > MAX_PAYLOAD_SIZE {
      return Err(PayloadTooLarge);
    }
    var payload := [];
    if n > 0 {
      var body;
      if n <= SMALL_PAYLOAD_SIZE {
        body := s.ReadFull(n);
      } else {
        body := s.CopyN(n);
      }
      if body.Err? {
        return Err(body.error);
      }
      payload := body.value;
      assert b[HEADER_SIZE..][..n] == b[HEADER_SIZE..HEADER_SIZE + n];
      assert b[HEADER_SIZE..][n..] == b[HEADER_SIZE + n..];
    }
    return Ok(Frame(h[0], h[1], streamId, payload));
  }
}
