/** The growing circular receive buffer, refining a plain queue of bytes. */
module RingBuffers {
  import opened Base

  const MAX_RING_BUFFER_SIZE := 16 * 1024 * 1024
  const DEFAULT_SIZE := 4096

  /** The queue a ring holds: its bytes from the read cursor round to the write cursor. */
  function QueueOf(b: seq<byte>, r: int, w: int, full: bool): (q: seq<byte>)
    requires 0 <= r < |b| && 0 <= w < |b| && (full ==> r == w)
    ensures |q| <= |b|
    ensures |q| == |b| <==> full
    ensures q == [] <==> !full && r == w
  {
    if !full && r <= w then b[r..w] else b[r..] + b[..w]
  }

  /** The array size after a write that leaves `wanted` bytes queued if they all fit. */
  function SizeFor(size: int, maxSize: int, wanted: int): (newSize: int)
    ensures newSize >= size
    ensures newSize >= Min(wanted, Max(size, maxSize))
  {
    if wanted <= size then size else Max(size, Min(maxSize, Max(2 * size, wanted)))
  }

  /** Overwriting the cells from the write cursor on appends to the queue. */
  lemma QueuePut(b: seq<byte>, r: int, w: int, piece: seq<byte>)
    requires 0 <= r < |b| && 0 <= w < |b| && piece != []
    requires |piece| <= if w >= r then |b| - w else r - w
    ensures var w' := if w + |piece| == |b| then 0 else w + |piece|;
            QueueOf(b[..w] + piece + b[w + |piece|..], r, w', r == w')
            == QueueOf(b, r, w, false) + piece
  {
    var b' := b[..w] + piece + b[w + |piece|..];
    if w < r {
      assert b'[r..] == b[r..];
      assert b'[..w + |piece|] == b[..w] + piece;
    } else {
      assert b'[r..w + |piece|] == b[r..w] + piece;
      if w + |piece| == |b| {
        assert b'[r..] == b'[r..w + |piece|];
      }
    }
  }

  /** Moving the read cursor one cell on takes the front of the queue. */
  lemma QueueTake(b: seq<byte>, r: int, w: int, full: bool)
    requires 0 <= r < |b| && 0 <= w < |b| && (full ==> r == w)
    requires full || r != w
    ensures var r' := if r + 1 == |b| then 0 else r + 1;
            QueueOf(b, r, w, full) == [b[r]] + QueueOf(b, r', w, false)
  {
    if !full && r < w {
      assert b[r..w] == [b[r]] + b[r + 1..w];
    } else {
      assert b[r..] == [b[r]] + b[r + 1..];
      if r + 1 == |b| {
        assert b[r..] + b[..w] == [b[r]] + b[0..w];
      }
    }
  }

  class RingBuffer {
    var buf: array<byte>
    var size: int
    const maxSize: int
    var r: int      // read cursor
    var w: int      // write cursor
    var full: bool

    // Specification only: the bytes growth has copied since the buffer was made.
    ghost var copied: nat

    ghost predicate Valid()
      reads this, buf
    {
      && 0 < size == buf.Length
      && 0 <= r < size && 0 <= w < size
      && (full ==> r == w)
      && copied < 2 * size
      && (size < maxSize ==> copied < size)
    }

    /** The queued bytes, oldest first. */
    ghost function Contents(): (s: seq<byte>)
      requires Valid()
      reads this, buf
      ensures |s| <= size
      ensures |s| == size <==> full
      ensures s == [] <==> !full && r == w
    {
      QueueOf(buf[..], r, w, full)
    }

    /** The most this buffer can ever hold. */
    function Capacity(): int
      reads this
    {
      Max(size, maxSize)
    }

    constructor (initial: int, maxSize: int)
      ensures Valid() && fresh(buf) && Contents() == []
      ensures size == (if initial <= 0 then DEFAULT_SIZE else initial)
      ensures this.maxSize == maxSize && copied == 0
    {
      var n := if initial <= 0 then DEFAULT_SIZE else initial;
      buf := new byte[n](_ => 0);
      size := n;
      this.maxSize := maxSize;
      r, w, full := 0, 0, false;
      copied := 0;
    }

    method Len() returns (n: int)
      requires Valid()
      ensures n == |Contents()|
    {
      if full {
        n := size;
      } else if w >= r {
        n := w - r;
      } else {
        n := size - r + w;
      }
    }

    method Available() returns (n: int)
      requires Valid()
      ensures n == size - |Contents()|
    {
      if full {
        n := 0;
      } else if w >= r {
        n := size - w + r;
      } else {
        n := r - w;
      }
    }

    method Reset()
      requires Valid()
      modifies this`r, this`w, this`full
      ensures Valid() && Contents() == []
    {
      r, w, full := 0, 0, false;
    }

    /** Moves the queue to a larger array, unwrapped; the queue itself is unchanged. */
    method Grow(newSize: int)
      requires Valid() && size < newSize
      requires newSize <= maxSize && (newSize == maxSize || 2 * size <= newSize)
      modifies this
      ensures Valid() && fresh(buf) && size == newSize && !full
      ensures Contents() == old(Contents())
      ensures copied == old(copied) + |old(Contents())|
    {
      ghost var was := Contents();
      var dataLen := Len();
      var newBuf := new byte[newSize](_ => 0);
      if dataLen > 0 {
        if w > r {
          forall k | 0 <= k < w - r { newBuf[k] := buf[r + k]; }
        } else {
          var n := size - r;
          forall k | 0 <= k < n { newBuf[k] := buf[r + k]; }
          forall k | 0 <= k < w { newBuf[n + k] := buf[k]; }
        }
      }
      assert newBuf[..dataLen] == was;
      copied := copied + dataLen;
      buf, size, r, w := newBuf, newSize, 0, dataLen;
      full := w == size;
    }

    /** Grows, when `count` more bytes do not fit, at least doubling and up to maxSize. */
    method MakeRoom(count: int)
      requires Valid() && 0 < count
      modifies this
      ensures Valid() && (fresh(buf) || buf == old(buf))
      ensures Contents() == old(Contents()) && Capacity() == old(Capacity())
      ensures |Contents()| + count <= size || size == Capacity()
      ensures size == SizeFor(old(size), maxSize, |old(Contents())| + count)
    {
      var available := Available();
      if available < count {
        var newSize := size + count - available;
        if newSize < size * 2 {
          newSize := size * 2;
        }
        if newSize > maxSize {
          newSize := maxSize;
        }
        if newSize > size {
          Grow(newSize);
        }
      }
    }

    /** Appends as much of `data` as the capacity allows, growing on demand. */
    method Write(data: seq<byte>) returns (n: int)
      requires Valid()
      modifies this, buf
      ensures Valid() && (fresh(buf) || buf == old(buf))
      ensures n == Min(|data|, old(Capacity()) - |old(Contents())|)
      ensures Contents() == old(Contents()) + data[..n]
      ensures Capacity() == old(Capacity())
      ensures size == SizeFor(old(size), maxSize, |old(Contents())| + |data|)
    {
      if |data| == 0 {
        return 0;
      }
      MakeRoom(|data|);
      n := CopyIn(data);
    }

    /** The copy loop: at most two rounds, one on each side of the array's end. */
    method CopyIn(data: seq<byte>) returns (n: int)
      requires Valid()
      modifies this`w, this`full, buf
      ensures Valid()
      ensures n == Min(|data|, size - |old(Contents())|)
      ensures Contents() == old(Contents()) + data[..n]
    {
      ghost var was := Contents();
      n := 0;
      while n < |data| && !full
        invariant Valid() && 0 <= n <= |data|
        invariant Contents() == was + data[..n]
      {
        var space := if w >= r then size - w else r - w;
        var chunk := |data| - n;
        if chunk > space {
          chunk := space;
        }
        ghost var n0 := n;
        n := PutChunk(data, n, chunk);
        assert was + data[..n0] + data[n0..n] == was + data[..n];
      }
    }

    /** A cursor that reached the end of the array goes back to its start. */
    static method Wrap(x: int, n: int) returns (y: int)
      requires 0 <= x <= n && 0 < n
      ensures y == if x == n then 0 else x
    {
      y := x % n;
    }

    method Copy(data: seq<byte>, n: nat, chunk: nat)
      requires 0 <= w && w + chunk <= buf.Length && n + chunk <= |data|
      modifies buf
      ensures buf[..] == old(buf[..w]) + data[n..n + chunk] + old(buf[w + chunk..])
    {
      forall k | 0 <= k < chunk { buf[w + k] := data[n + k]; }
    }

    /** One contiguous copy of `chunk` bytes at the write cursor. */
    method PutChunk(data: seq<byte>, n: int, chunk: int) returns (next: int)
      requires Valid() && !full && 0 <= n && 0 < chunk <= |data| - n
      requires chunk <= if w >= r then size - w else r - w
      modifies this`w, this`full, buf
      ensures Valid() && next == n + chunk
      ensures Contents() == old(Contents()) + data[n..n + chunk]
    {
      ghost var piece := data[n..n + chunk];
      QueuePut(buf[..], r, w, piece);
      Copy(data, n, chunk);
      w := Wrap(w + chunk, size);
      full := r == w;
      next := n + chunk;
    }

    /** Takes the oldest byte. */
    method TakeByte() returns (b: byte)
      requires Valid() && Contents() != []
      modifies this`r, this`full
      ensures Valid() && [b] + Contents() == old(Contents())
    {
      QueueTake(buf[..], r, w, full);
      b := buf[r];
      r := Wrap(r + 1, size);
      full := false;
    }

    /** Takes up to |p| bytes from the front of the queue into p. */
    method Read(p: array<byte>) returns (n: int)
      requires Valid() && p != buf
      modifies this`r, this`full, p
      ensures Valid()
      ensures n == Min(p.Length, |old(Contents())|)
      ensures p[..n] == old(Contents())[..n] && p[n..] == old(p[n..])
      ensures Contents() == old(Contents())[n..]
    {
      ghost var was := Contents();
      n := 0;
      while n < p.Length && !(!full && r == w)
        invariant Valid() && 0 <= n <= p.Length && n <= |was|
        invariant Contents() == was[n..]
        invariant forall k | 0 <= k < n :: p[k] == was[k]
        invariant forall k | n <= k < p.Length :: p[k] == old(p[k])
        decreases p.Length - n
      {
        var b := TakeByte();
        assert b == was[n] && Contents() == was[n + 1..];
        p[n] := b;
        n := n + 1;
      }
    }
  }

  /** What the ring stands for: a plain queue under the same calls. */
  datatype QueueOp = Put(data: seq<byte>) | Take(limit: nat) | Clear

  /** The queue, and in order of time every byte it took in and every byte it gave out. */
  datatype Queue = Queue(bytes: seq<byte>, accepted: seq<byte>, taken: seq<byte>)

  function Apply(q: Queue, capacity: int, op: QueueOp): (q': Queue)
    requires |q.bytes| <= capacity
    ensures |q'.bytes| <= capacity
  {
    match op
    case Put(data) =>
      var n := Min(|data|, capacity - |q.bytes|);
      q.(bytes := q.bytes + data[..n], accepted := q.accepted + data[..n])
    case Take(limit) =>
      var n := Min(limit, |q.bytes|);
      q.(bytes := q.bytes[n..], taken := q.taken + q.bytes[..n])
    case Clear => q.(bytes := [])
  }

  function ApplyAll(q: Queue, capacity: int, ops: seq<QueueOp>): (q': Queue)
    requires |q.bytes| <= capacity
    ensures |q'.bytes| <= capacity
  {
    if ops == [] then q else Apply(ApplyAll(q, capacity, ops[..|ops| - 1]), capacity, ops[|ops| - 1])
  }

  /** Whatever mix of calls, growth included, the ring answers as the plain queue does. */
  method Replay(rb: RingBuffer, ops: seq<QueueOp>) returns (taken: seq<byte>)
    requires rb.Valid()
    modifies rb, rb.buf
    ensures rb.Valid() && rb.Capacity() == old(rb.Capacity())
    ensures var q := ApplyAll(Queue(old(rb.Contents()), [], []), old(rb.Capacity()), ops);
            rb.Contents() == q.bytes && taken == q.taken
  {
    taken := [];
    ghost var start := Queue(rb.Contents(), [], []);
    for i := 0 to |ops|
      invariant rb.Valid() && rb.Capacity() == old(rb.Capacity())
      invariant fresh(rb.buf) || rb.buf == old(rb.buf)
      invariant rb.Contents() == ApplyAll(start, old(rb.Capacity()), ops[..i]).bytes
      invariant taken == ApplyAll(start, old(rb.Capacity()), ops[..i]).taken
    {
      assert ops[..i + 1][..i] == ops[..i];
      var got := Perform(rb, ops[i]);
      taken := taken + got;
    }
    assert ops[..|ops|] == ops;
  }

  /** One call on the ring. */
  method Perform(rb: RingBuffer, op: QueueOp) returns (taken: seq<byte>)
    requires rb.Valid()
    modifies rb, rb.buf
    ensures rb.Valid() && rb.Capacity() == old(rb.Capacity())
    ensures fresh(rb.buf) || rb.buf == old(rb.buf)
    ensures forall q: Queue :: q.bytes == old(rb.Contents()) ==>
              var q' := Apply(q, old(rb.Capacity()), op);
              rb.Contents() == q'.bytes && q'.taken == q.taken + taken
  {
    taken := [];
    match op {
      case Put(data) =>
        var n := rb.Write(data);
      case Take(limit) =>
        var p := new byte[limit](_ => 0);
        var n := rb.Read(p);
        taken := p[..n];
      case Clear =>
        rb.Reset();
    }
  }

  /** First in, first out: with no Reset, what came out and what is still queued is what went in. */
  lemma {:induction false} Fifo(q: Queue, capacity: int, ops: seq<QueueOp>)
    requires |q.bytes| <= capacity && Clear !in ops
    ensures var q' := ApplyAll(Queue(q.bytes, [], []), capacity, ops);
            q'.taken + q'.bytes == q.bytes + q'.accepted
  {
    if ops != [] {
      var ops0 := ops[..|ops| - 1];
      assert forall op | op in ops0 :: op in ops;
      Fifo(q, capacity, ops0);
      var q0 := ApplyAll(Queue(q.bytes, [], []), capacity, ops0);
      var op := ops[|ops| - 1];
      FifoStep(q.bytes, q0, capacity, ops[|ops| - 1]);
    }
  }

  lemma FifoStep(start: seq<byte>, q: Queue, capacity: int, op: QueueOp)
    requires |q.bytes| <= capacity && op != Clear && q.taken + q.bytes == start + q.accepted
    ensures var q' := Apply(q, capacity, op); q'.taken + q'.bytes == start + q'.accepted
  {
    match op {
      case Put(data) =>
        var piece := data[..Min(|data|, capacity - |q.bytes|)];
        assert q.taken + (q.bytes + piece) == q.taken + q.bytes + piece;
        assert start + q.accepted + piece == start + (q.accepted + piece);
      case Take(limit) =>
        var n := Min(limit, |q.bytes|);
        assert q.taken + q.bytes[..n] + q.bytes[n..] == q.taken + q.bytes;
    }
  }
}
