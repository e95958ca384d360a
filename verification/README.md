# WireRift in Dafny

A model of the concurrent and stateful core of WireRift, a tunnel server and client, with proofs of
what it keeps. `dafny verify dfyconfig.toml` checks all of it.

WireRift carries many byte streams over one ordered connection between client and server, and gives
each client public names and ports that lead to its streams. Three things are modelled.

**The stream multiplexer.** Two endpoints, one connection, credit-based flow control, half-close,
reset and loss of the connection.

- `StreamMachine` is a step machine for one stream and its two ends. A step is one atomic load, store,
  compare-and-swap, channel operation, buffer lock section or frame write; any number of threads
  stand at named points of `Write` and `Read`, and resets and failures strike between any two steps.
  Five moves merge several of these operations: a reset (state, both signals, RST, removal from the
  table), the end of the connection (likewise), the last step of the handler of a CLOSE (signal and
  removal), the last of `Close` (test for the end of the connection, frame, removal), and taking a
  frame (lookup, and the test against the window or the load of the state).
  `StreamConservation` (credit is conserved), `StreamWakeups` (no wake-up is lost), `StreamProgress`
  (no deadlock, every write can finish), `StreamDelivery` (what is read is what was written, and end
  of file is honest), `StreamBounds` (an end facing a peer that follows no rules), `StreamClosing`
  (when a stream both ends have closed is forgotten) and `StreamEnds` (what a reset and the end of the
  connection do to a stream, and what its readers are then told) are theorems about all its runs.
  `StreamWitness` has runs from a fresh stream into the states one would not expect.
- `Mux` and `RingBuffer` are the classes behind it, with one handler per step: the table of streams,
  its counter, the frame handlers, the identifier allocator and the growing circular buffer.
  `MuxRuns` drives a multiplexer through any sequence of frames and local calls. `StreamCore` holds
  the rules of a stream's life, which machine and classes share, and `StreamIds` the arithmetic of
  the identifier circle.
- `StreamSolo` ties the two together: a call or a handler of the machine that nothing interrupts does
  what the method of the class says.
- `Frame` is the frame codec, `FrameWriter` the lock that keeps frames of many threads whole until one
  is torn by a failed write. The step machine's wires are what a reader sees of it provided no frame is
  written after a torn one.

**The tunnel registry.** `Names` has the rules for names and the three kinds of registry key; `Ports`
the port counter that wraps in 32 bits; `Registry` the state of the server and what each handler
makes of it; `Server` the handlers themselves as methods that change maps, each proved to do what
`Registry` says. `RegistryRuns` and `NameSafety` prove what holds in every run: that sessions, keys,
ports and holds agree, who can end a registration, and what becomes of a name whose client was lost.
`Requests` says which requests are granted, with what, and over what the others are refused, `Endings`
what the end of a tunnel, of a session or of the server leaves and what difference a goodbye makes, and
`AccountLimits` that no run exceeds a limit; the conditions are spelled out there once more, so that they
do not depend on how `Registry` computes them. `Quotas` takes the account limits at a finer grain, one
lock section or one visit of a table walk per step, and `TcpRuns` the opening of a TCP tunnel, which
binds its port in one step and registers it, or gives it back, in another.

**Supporting parts.** `RateLimit` (the token bucket and its evicting manager), `Certs` (single-flight
issuance and the bounded certificate cache) and `Client` (re-creating tunnels after a reconnect).

## Where the code does not do what one would expect

- A `Read` with an empty slice can return `io.EOF` while data is still buffered (internal/mux/stream.go:107-114).
  End of file is honest exactly when the slice had room or nothing was left: `StreamDelivery.EofHonestExactlyWhen`.
  `StreamWitness.EmptyReadRun` is a run from a fresh stream in which it happens.
- After a torn frame another thread can write on, and the reader takes its bytes for the rest of the torn frame:
  bytes nobody wrote can be delivered as a stream's data. `deadlineWriter.Write` (internal/mux/mux.go:134-147) closes
  the connection only in another goroutine when a write times out part-way, the next write sets a new deadline, and
  `FrameWriter.Write` (internal/proto/frame.go:165-169) remembers no error. With a 9-byte payload that times out and a
  frame without payload behind it the reader gets the one's header with the other's header as payload:
  `FrameWriters.TornRun`. When nothing is written after the torn frame, what is read is exactly the frames that were
  finished; when something is, and the tear was in the payload, one frame more is read exactly when as many bytes
  follow as were missing: `FrameWriters.TornFrame`.
- A close can get lost. `Close` and the handler of the peer's close each load the state and swap it once
  (internal/mux/stream.go:218-228 and 363-371); when the two cross at one end, the swap that comes second fails and
  is not tried again. If that is the handler's, the end takes the stream for half-closed: its reader is never told of
  the end (`StreamWitness.LostForGood`). If it is that of `Close`, the stream stays open for writing after `Close` has
  returned and told the peer (`StreamWitness.LeftOpenForGood`). Either way the stream stays registered until a reset,
  an overflow or the end of the connection; in the second case the half-close timer is no help, as it is armed only in
  the state the swap did not reach (internal/mux/stream.go:242-246). A stream closed by both ends is forgotten if and
  only if no swap missed: `StreamClosing.ForgottenExactlyWhen`.
- A connection cut right behind a frame's 9-byte header reads as a clean end of the stream of frames (`io.EOF`), like
  a connection that ends between two frames: the payload is read from the start, and a reader that gives no byte at
  all does not count as an unexpected end (internal/proto/frame.go:104-125). Of all the places where a frame can be cut it is
  the only one: `Frames.NoPrefixParses`.
- The send window can exceed its start when a frame write fails: the refund is not clamped
  (internal/mux/stream.go:206). By how much is in `StreamBounds.BoundedAgainstAnyPeer`; a run of a fresh end in which
  it happens, in `StreamWitness.RefundRun`.
- The port scan can miss free ports when its counter runs over the end of 32 bits part of the way. With ports
  20000 to 20002, only 20001 free and the counter at 2147483646, the scan looks at 20000 and 20002 only.
  Allocation fails only when all ports are taken exactly when the scan does not cross the overflow or the
  number of ports divides 2^32: `Ports.ScanIsComplete`.
- A name's hold survives a sweep at the very instant it ends, but not a restart completed at that instant
  (`now.After` against `now.Before`), so that after the restart another account gets the name: `NameSafety.LastInstant`.
- Eviction of idle limiters goes unnoticed exactly when an idle bucket refills within the eviction age, as all of
  the server's do: `RateLimits.EvictionIsInvisible` and `RateLimits.EvictionIsVisibleOtherwise`.
- docs/SPECIFICATION.md:208 gives STREAM_WINDOW a 4-byte payload; the code sends a JSON document that also names
  the stream (internal/mux/mux.go:521-529). The model follows the code.

## Model

| member | source | states |
|---|---|---|
| StreamConservation.FlowControlConservation | internal/mux/stream.go:139-214 | In every reachable interleaved state, send window + reserved chunks + data under way + buffered + read but uncredited + credit under way equals the window while both ends keep a live stream, and never exceeds it otherwise |
| StreamConservation.ClampNeverBites | internal/mux/stream.go:335-349 | Between conforming ends a window update always adds its full delta |
| StreamConservation.OverflowNeverFires | internal/mux/stream.go:313-323 | Data from a conforming peer is never refused as an overflow |
| StreamConservation.DrainedWindowIsFull | internal/mux/stream.go:139-214 | A direction with nothing under way has its whole window back |
| StreamConservation.ActConserves | internal/mux/stream.go:151-214 | Every single operation of either end keeps the balance of both directions |
| StreamConservation.PopConserves | internal/mux/mux.go:370-417 | Taking any frame off the wire keeps the balance of both directions |
| StreamWakeups.NoLostWakeUp | internal/mux/stream.go:162-211 | With any number of writers, one asleep while there is credit is owed a wake-up by the token, the read loop or a writer that will signal or look again |
| StreamWakeups.NoLostReadWakeUp | internal/mux/stream.go:126-134 | A lone reader does not sleep on while data is buffered or the stream has ended |
| StreamProgress.ProductiveActionsAdvance | internal/mux/stream.go:162-214 | Every productive step, the handling of a CLOSE included, makes the weighted count of bytes by stage, then of steps left, strictly smaller and keeps the stream live |
| StreamProgress.NoDeadlock | internal/mux/stream.go:162-214 | While a Write is unfinished on a live stream with a willing reader, some productive step is enabled; the other direction may have been closed, or be closing |
| StreamProgress.WritesFinish | internal/mux/stream.go:162-214 | From every live state, with the stream open both ways, half-closed or with the CLOSE of one direction under way, productive steps lead to one where every Write has returned and reported its whole slice |
| StreamProgress.HalfCloses | internal/mux/stream.go:218-247 | A busy run takes a fresh stream to one that one end has closed, as the other knows |
| StreamProgress.BusyWritesFinish | internal/mux/stream.go:151-247 | However many calls of Write have been started on a fresh stream, and whether or not one end has begun to close its direction, all of them can finish, with all their bytes written |
| StreamDelivery.FaithfulDelivery | internal/mux/stream.go:99-148 | Whatever strikes, the bytes read are a prefix of the bytes written, provided no frame is written after a torn one |
| StreamDelivery.HonestEof | internal/mux/stream.go:105-117 | A Read with room that returned end of file had returned every byte the peer wrote before its Close, with the same proviso |
| StreamDelivery.EofHonestExactlyWhen | internal/mux/stream.go:105-114 | A call that saw the peer's end answers end of file if and only if it has no room or nothing is buffered, and the answer is true if and only if nothing is buffered |
| StreamDelivery.EmptyReadEndsEarly | internal/mux/stream.go:107-114 | In every reachable state with bytes buffered after the peer's end a Read with an empty slice is told end of file over them |
| StreamWitness.EmptyReadRun | internal/mux/stream.go:107-114 | On every configuration, a run from a fresh stream: one byte is written, Close, both frames arrive, and a Read with an empty slice is told end of file with the byte undelivered |
| StreamBounds.BoundedAgainstAnyPeer | internal/mux/stream.go:312-352 | For every frame sequence, buffered bytes stay within the window and the send credit within the window plus what failed writes gave back |
| StreamWitness.RefundRun | internal/mux/stream.go:205-208 | On every configuration, a run of a fresh end that leaves one byte more than the window |
| StreamClosing.ClosedByBothIsForgotten | internal/mux/stream.go:218-249 | Over every run of one end against any peer, resets included: if no swap of a close missed, a stream both ends have closed is Closed or Reset and no longer registered |
| StreamClosing.ForgottenExactlyWhen | internal/mux/stream.go:363-378 | Over every run without a reset, overflow, end of the connection or second CLOSE: a stream both ends have closed is forgotten if and only if no swap missed; after a miss it stays registered, half-closed by the side whose swap came first |
| StreamWitness.LostForGood | internal/mux/stream.go:218-249 | A run from a fresh stream in which both ends close and both CLOSE frames arrive, after which, whatever the threads do short of a reset or the end of the connection, one end stays half-closed and its reader is never answered |
| StreamWitness.LeftOpenForGood | internal/mux/stream.go:218-249 | A run from a fresh stream in which both ends close and one end's Close misses: it has returned and told the peer, and whatever the threads do short of a reset or the end of the connection the stream stays registered and open for writing |
| StreamEnds.ConnectionEnds | internal/mux/stream.go:399-417 | The connection ends anywhere in a run without resets: if the peer's close had been handled and not been missed, the state ends the stream as the peer did, ever after; if the peer had not closed, the stream stays reset and none of its readers is ever told end of file |
| StreamEnds.ReadsToTheEnd | internal/mux/stream.go:99-136 | Reading on, left alone, at a stream that has ended: every buffered byte comes out, then end of file if the peer ended it and an error if it was reset, also when nothing can be written any more |
| StreamEnds.CompleteTransferReadsOut | internal/mux/stream.go:399-417 | So a transfer the peer had completed when the connection ended reads out whole, and then as complete |
| StreamEnds.ResetEndsTheStream | internal/mux/stream.go:285-332 | A reset from either end, or by an overflow, at any point of any run: the stream is forgotten and both kinds of sleeper are woken, the frame that was too much is not stored, the peer is told unless it said so itself or nothing can be written, and the stream stays reset ever after |
| StreamEnds.WriteTooLate | internal/mux/stream.go:151-160 | A Write at a stream closed here or reset returns at once and sends nothing |
| StreamSolo.WriteAlone | internal/mux/stream.go:151-215 | A Write of the step machine that is left alone puts exactly the frames of the multiplexer's Write on the wire, debits exactly them, and then has returned or waits for credit |
| StreamSolo.ReadAlone | internal/mux/stream.go:99-148 | A Read of the step machine left alone, with room and bytes buffered, takes the front of the buffer and returns its credit |
| StreamSolo.EmptyReadAlone | internal/mux/stream.go:107-128 | Left alone without room or bytes it is told end of file when the state is HalfClosedRemote or Closed and reset when it is Reset, and falls asleep otherwise |
| StreamSolo.CutReadAlone | internal/mux/stream.go:118-134 | Asleep when the connection goes, it looks once more and is told of the truncation |
| StreamSolo.PeerCloseAlone | internal/mux/stream.go:363-378 | The steps of the close handler together move the state on and forget a stream closed by both |
| StreamSolo.CloseAlone | internal/mux/stream.go:218-249 | The steps of Close together move the state on, tell the peer while the connection lives, and forget a stream closed by both |
| StreamCore.StatesOnlyRise | internal/mux/stream.go:218-310 | Over any events a stream's state only rises and Reset is final |
| StreamCore.ClosedByBothIsNotOpen | internal/mux/stream.go:218-247 | A stream closed by both ends in either order, or reset, is no longer open |
| StreamCore.EndOfConnection | internal/mux/stream.go:399-417 | Over any events without a reset, the end of the connection among them: the state is HalfClosedRemote or Closed if the peer had closed before it, and Reset if not, ever after |
| StreamIds.ScanFinds | internal/mux/mux.go:182-195 | Pigeonhole across the wrap: with no more streams live than the limit and an even identifier free, one of the places the scan looks at is free |
| StreamIds.ReuseDistance | internal/mux/mux.go:176-181 | Between two issues of one identifier at least 8388606 less the other live streams' number of other identifiers are issued |
| StreamIds.EveryIdComes | internal/mux/mux.go:182-195 | Once round the circle every even identifier comes up |
| Muxes.ChunksCarry | internal/mux/stream.go:187-211 | The frames of one Write carry exactly the bytes there was credit for, in order, none empty or too large |
| Muxes.Stream.Store | internal/mux/stream.go:323-331 | Data that fits the window is stored whole; capacity stays below two windows and 16 MB |
| Muxes.Stream.OnWindowUpdate | internal/mux/stream.go:335-352 | The saturating update keeps the window within its start for any delta |
| Muxes.Mux.constructor | internal/mux/mux.go:96-128 | The configured window is clamped to what the receive buffer can hold |
| Muxes.Mux.AllocId | internal/mux/mux.go:182-195 | Succeeds exactly when a place it may look at is free, with the first such identifier |
| Muxes.Mux.OpenStream | internal/mux/mux.go:149-171 | Below the limit and with an even identifier free it succeeds, with an even, non-zero, 24-bit identifier no live stream has |
| Muxes.Mux.HandleStreamOpen | internal/mux/mux.go:337-367 | Refused with a RST when the identifier is zero or in use or the table is full, reset when the accept queue is full, else registered as a fresh stream with a full window and queued |
| Muxes.Mux.HandleStreamData | internal/mux/stream.go:313-332 | Data is appended whole to its stream, or resets it, or is answered with a reset when there is none |
| Muxes.Mux.HandleStreamClose | internal/mux/stream.go:363-378 | The peer's close half-closes or closes; a stream closed by both is forgotten |
| Muxes.Mux.HandleStreamRst | internal/mux/stream.go:393-397 | A reset wakes both sleepers and the stream is forgotten |
| Muxes.Mux.HandleStreamWindow | internal/mux/mux.go:404-417 | Credit reaches exactly the stream it names, clamped |
| Muxes.Mux.CloseStream | internal/mux/stream.go:218-249 | Acts once; the frame goes out while the connection lives; the stream stays registered while it is half-closed, and once it is closed whatever has its identifier is forgotten |
| Muxes.Mux.ResetStream | internal/mux/stream.go:285-302 | The stream is reset, its sleepers woken, the peer told, and the table cleared of whatever has its identifier |
| Muxes.Mux.Write | internal/mux/stream.go:151-215 | Left alone, a Write sends as much as the credit allows, in the chunks above, debits exactly that and then returns or waits; when a frame cannot be written its chunk is refunded, a writer woken and the bytes sent before it reported |
| Muxes.Mux.Read | internal/mux/stream.go:99-148 | Left alone, a Read takes the front of the buffer and returns its credit, or says why there is nothing |
| Muxes.Mux.OnMuxClosed | internal/mux/stream.go:399-417 | HalfClosedRemote and Closed stay, any other state becomes Reset; both kinds of sleeper are woken and the stream is forgotten |
| Muxes.Mux.CloseWithError | internal/mux/mux.go:213-235 | The end of the connection, the first time, leaves no stream registered: those whose peer had closed keep their state, the others are reset, and all their sleepers are woken |
| MuxRuns.HandleFrame | internal/mux/mux.go:287-300 | Any frame, conforming or not, keeps every registered stream sound: buffers apart, within the window and 16 MB, credit within the window |
| MuxRuns.Serve | internal/mux/mux.go:273-284 | After any sequence of frames from the peer and of calls by the streams' owners, the counter is the table's size and at most the configured limit, ten thousand by default, and every registered stream is open, buffers at most a window in less than two windows and 16 MB of memory, and has credit between zero and the window |
| RingBuffers.QueuePut | internal/mux/ringbuffer.go:59-77 | Overwriting cells from the write cursor on appends to the queue the ring stands for, wrapped or not |
| RingBuffers.QueueTake | internal/mux/ringbuffer.go:96-102 | Moving the read cursor on takes the front of the queue |
| RingBuffers.RingBuffer.Grow | internal/mux/ringbuffer.go:124-150 | Growth keeps the queue; all bytes growth ever copied stay below twice the current capacity |
| RingBuffers.RingBuffer.Write | internal/mux/ringbuffer.go:36-80 | Appends exactly the smaller of the data and the room left up to the maximum |
| RingBuffers.RingBuffer.Read | internal/mux/ringbuffer.go:84-105 | Takes the front of the queue into the slice and leaves the rest of the slice alone |
| RingBuffers.Replay | internal/mux/ringbuffer.go:36-121 | Through any mix of calls the ring answers as a plain queue |
| RingBuffers.Fifo | internal/mux/ringbuffer.go:36-105 | Bytes come out in the order they went in, none lost or doubled |
| Frames.DecodeEncode | internal/proto/frame.go:36-133 | Decoding an encoded frame gives it back, whatever follows on the wire |
| Frames.EncodeDecode | internal/proto/frame.go:77-141 | Bytes that are accepted re-encode to the same bytes |
| Frames.NoPrefixParses | internal/proto/frame.go:77-133 | No proper prefix of a frame is accepted; the error is that of a clean end if and only if nothing or exactly the header was there, else that of a cut |
| Frames.ParseAllWireAll | internal/proto/frame.go:77-133 | Reading the concatenation of any list of frames gives exactly that list and a clean end |
| Frames.Layout | internal/proto/frame.go:36-74 | The layout byte by byte: version 1, kind, a 24-bit and a 32-bit big-endian number, then the payload; what can be encoded, in numbers |
| Frames.Refusals | internal/proto/frame.go:77-133 | For all bytes, which are refused and over what, in the order of the checks, and what is read of the others |
| Frames.Encode | internal/proto/frame.go:36-74 | Writes exactly the frame, or nothing of one that cannot be encoded, or a proper prefix when the connection fails |
| Frames.ReadFrame | internal/proto/frame.go:77-141 | Small and large payload paths read the same frame and leave exactly the rest |
| FrameWriters.WholeFrames | internal/proto/frame.go:165-169 | However writers interleave, until a frame is torn the wire holds whole frames in the order they finished and at most the header of one more, and a reader gets exactly those frames |
| FrameWriters.TornFrame | internal/mux/mux.go:134-147 | Once a frame is torn, all frames finished before are still read; if nothing follows, exactly they are, with a clean end if and only if the tear is right behind the header; if the tear is in the payload, a frame more is read, made of the torn one and the bytes that follow, if and only if as many follow as were missing |
| FrameWriters.TornRun | internal/mux/mux.go:134-147 | A run in which a payload fails and the next thread's frame is read as that payload: the reader gets a frame no thread wrote |
| Names.IsValidSubdomain | internal/utils/utils.go:5-23 | Accepts exactly the labels RFC 1123 allows |
| Names.ItoaInjective | internal/server/server.go:1075 | Different ports have different decimal forms |
| Names.ItoaIsDecimal | internal/server/server.go:1075 | The digits are decimal, have no leading zero and stand for the number |
| Names.KeysNeverCollide | internal/server/customdomain.go:27-29 | A name, a tcp: key and a domain: key are never equal, and each kind of key tells its names apart |
| Ports.PortInRange | internal/server/server.go:1456-1461 | Every 32-bit counter value, negative ones too, leads into the range, one port further for each step |
| Ports.EachPortOnce | internal/server/server.go:1454-1466 | Range-many counter values that do not cross the overflow hit every port exactly once |
| Ports.ScanIsComplete | internal/server/server.go:1453-1468 | The scan fails only when all ports are taken if and only if it does not cross the overflow or the range divides 2^32 |
| Ports.ScanStops | internal/server/server.go:1455-1466 | A scan ends at the first step whose port is free, and fails only when no step's port is |
| Ports.ListenKeepsBooks | internal/server/server.go:1115-1134 | A bound port was free and is now taken; a failure leaks none |
| Ports.ListenFindsBindable | internal/server/server.go:1107-1134 | A bindable free port is found although other programs hold up to fifteen of the free ones, away from the overflow |
| Ports.ListenAnswers | internal/server/server.go:1107-1134 | "No ports" when all are taken and, away from the overflow, only then; a port that is bound was not another program's when it was tried; "cannot bind" only when a port was free |
| Ports.PortTable.AllocatePort | internal/server/server.go:1453-1468 | The loop finds what the scan finds and takes it |
| Ports.PortTable.ListenTunnelPort | internal/server/server.go:1115-1134 | Sixteen attempts, giving back each port that cannot be bound |
| RegistryRuns.TablesAgree | internal/server/server.go:920-1253 | In every state of every run each tunnel of a live session is what is registered under each of its keys, each entry is one live tunnel's, the ports taken are those of live TCP tunnels, and no name is both held and registered |
| RegistryRuns.NextKeepsInv | internal/server/server.go:920-1253 | Every handler keeps the agreement of sessions, keys, ports and holds |
| RegistryRuns.TcpKeepsInv | internal/server/server.go:1046-1084 | Creating a TCP tunnel keeps it, although the port's key is stored unconditionally |
| TcpRuns.NoPortLeaks | internal/server/server.go:1046-1084 | However TCP requests interleave with everything else between binding and registering, the port table holds the ports of registered tunnels and of requests under way, each once and all in range |
| TcpRuns.PendingStays | internal/server/server.go:1046-1084 | A bound port stays its request's, whatever runs, until that request registers or returns it or the server restarts; no other request is given it |
| TcpRuns.BoundPortIsSettled | internal/server/server.go:1075-1084 | Whatever runs after a port was bound, no tunnel has it until its own request goes on, which then gets a tunnel under its key if and only if account and session still have room, or else leaves the tables as they are and gives it back |
| Registry.AddKeepsInv | internal/server/server.go:972-998 | Registering a tunnel under fresh keys keeps the agreement |
| Registry.DropKeepsInv | internal/server/server.go:1149-1185 | Deleting a live tunnel's keys unconditionally keeps the agreement and frees exactly them |
| NameSafety.EntryIsKept | internal/server/server.go:1170-1185 | Only closing its own tunnel, the end of its own session, a restart or its own account's reclaim ends an entry: no teardown removes another tunnel's |
| NameSafety.ReclaimedNameStays | internal/server/server.go:1015-1043 | The end of a session a name was taken over from neither frees nor holds the name |
| NameSafety.DropGuards | internal/server/server.go:1241-1252 | A lost session's plain names are held for its account for the whole grace period |
| NameSafety.RestartGuards | internal/server/offline.go:63-123 | A connected client's plain name is held across a restart if and only if there is a file of holds and the restart is over in time |
| NameSafety.NameIsSafe | internal/server/offline.go:16-51 | Through any run within the grace period a guarded name stays its owner's unless the owner releases it, with or without a file of holds; with one, restarts may be among the run |
| NameSafety.LostNameIsSafe | internal/server/server.go:1226-1252 | A name whose client is lost, or whose server restarts, is registered to no other account until the grace period ends or the owner releases it |
| NameSafety.OwnerGetsItBack | internal/server/server.go:972-979 | At any time in the grace period after a loss, through any such run, a checked request of the owner for its name is granted unless its own tunnel has the name and may not be taken over |
| NameSafety.LastInstant | internal/server/offline.go:29-58 | At the last instant of a hold another account's request for the name fails after a sweep and succeeds after a restart |
| Requests.NameRequest | internal/server/server.go:857-998 | While the tables agree, as they do in every run, a request for a name is granted if and only if the rate, both limits, the lifetime (0 to 31536000), the label, the reserved names, the auth block, the domain, the hold and the name itself allow it; then the tunnel has the name asked for in lower case, or the spare one, the proven domain and the lifetime asked for, is in its session and under its keys, and nothing else is gone. Otherwise it is refused over the first of them, and nothing changes but that an expired hold on the name is dropped |
| Requests.PortRequest | internal/server/server.go:857-902 | The same of a request for a port, which fails beyond these checks only for want of a port; a grant takes one free port of the range and adds the tunnel under its key |
| Requests.LowerLowers | internal/server/server.go:921-926 | Lower case, letter by letter |
| Endings.GoodbyeFreesNames | internal/mux/mux.go:454-460 | Once its client has said goodbye, whatever runs until the session or the server ends, none of the names it then serves is on hold afterwards, and any account that logs in and asks for one gets it |
| Endings.LossHoldsNames | internal/server/server.go:1241-1252 | A session that ends without having said goodbye since its login leaves all its plain names on hold for the grace period, and another account that asks for one in that time does not get it |
| Endings.CloseFrees | internal/server/server.go:1149-1185 | Closing a tunnel takes it out of its session and frees its name, domain or port at once, without a hold; everything else stays |
| Endings.CloseOfNothing | internal/server/server.go:1149-1162 | A close of what is not there does nothing and says so |
| Endings.RemoveEnds | internal/server/server.go:1226-1253 | The end of a session ends its tunnels and no other, frees their ports and drops no hold |
| Endings.SweepDrops | internal/server/offline.go:43-58 | A sweep drops the holds whose time is over and nothing else |
| Endings.RestartKnows | internal/server/offline.go:60-123 | After a restart a name is on hold if and only if there is a file and it was on hold or connected without a goodbye, and still in time; nothing else is known |
| AccountLimits.NoLimitExceeded | internal/server/server.go:717-767 | In every run, no account whose limits are fixed has more sessions or tunnels than they allow, and no session more tunnels than the server does |
| AccountLimits.LoginBelowLimit | internal/server/server.go:717-736 | A login is let in if and only if the account has no limit or fewer sessions than it; the session starts without tunnels |
| Servers.Server.RegisterSession | internal/server/server.go:717-725 | Stores the session if and only if the account is below its session limit |
| Servers.Server.AccountSessionCount | internal/server/server.go:727-736 | The walk counts the account's sessions |
| Servers.Server.AccountTunnelCount | internal/server/server.go:755-767 | The walk counts the tunnels of all the account's sessions |
| Servers.Server.ReceiveGoAway | internal/mux/mux.go:454-460 | The handler takes the step that `Endings.GoodbyeFreesNames` is about: it changes nothing but what is remembered of its session and keeps the agreement of the tables |
| Servers.Server.AddTunnel | internal/server/server.go:742-752 | Refuses at the account's or the session's limit or adds, and changes nothing when it refuses |
| Servers.Server.TakeOver | internal/server/server.go:1021-1043 | Replaces exactly a plain HTTP tunnel of the same account in another session and detaches it from that session |
| Servers.Server.CreateHttpTunnel | internal/server/server.go:972-998 | Registers, takes over or refuses as specified; as one step neither late refusal happens |
| Servers.Server.RegisterTcp | internal/server/server.go:1075-1084 | Stores the key of a bound port, tests the limits again and registers the tunnel, or takes the key out and gives the port back |
| Servers.Server.CreateTcpTunnel | internal/server/server.go:1046-1084 | Binds a port and registers it, or is refused, by the limits after binding too, and keeps no port |
| Servers.Server.HandleTunnelRequest | internal/server/server.go:857-902 | Early checks in order, then creation; the reply and the whole new state are those `Requests.NameRequest` and `Requests.PortRequest` spell out |
| Servers.LateChecksPass | internal/server/server.go:980-992 | After the early checks, taking over only makes room: the limits and the custom domain still allow the tunnel |
| Servers.Server.TeardownTunnel | internal/server/server.go:1170-1185 | Removes exactly the tunnel's keys and port |
| Servers.Server.CloseTunnel | internal/server/server.go:1149-1167 | Closes one tunnel of its session if it is there |
| Servers.Server.RemoveSession | internal/server/server.go:1226-1253 | Walking its tunnels in any order, removes exactly the session's entries and ports and holds its plain names unless the client said goodbye |
| Servers.Server.HeldBy | internal/server/offline.go:29-40 | Tells the owner of a hold that has not expired and drops one that has |
| Servers.Server.SweepHeld | internal/server/offline.go:43-58 | Drops exactly the expired holds |
| Servers.Server.SaveHeld | internal/server/offline.go:63-100 | Writes each name on hold and each connected plain name, in any order and nothing else |
| Servers.Server.LoadHeld | internal/server/offline.go:104-123 | Stores the records still in time |
| Servers.SavedIsLoaded | internal/server/offline.go:63-123 | Round trip: whatever order the records have, reading them gives the names still in time |
| Servers.RestartServer | internal/server/offline.go:60-123 | Stopping and starting gives the specified state |
| Quotas.LimitsHold | internal/server/server.go:717-767 | In every interleaving of lock sections and table walks, no account exceeds its sessions or tunnels and no session its tunnels |
| Quotas.ClearedStaysEmpty | internal/server/server.go:297-305 | No tunnel is ever added to a session that was cleared |
| Quotas.LoginWithRoom | internal/server/server.go:717-736 | A login that began while its account was below the limit is let in, whatever sessions leave and tunnels close during its walk; at most that session is added |
| Quotas.AddAlone | internal/server/server.go:742-767 | Left alone, in whatever order its walk goes, a tunnel is added if and only if the account is below its limit and the session open and below its own, and then exactly one |
| Quotas.NextKeepsInv | internal/server/server.go:738-767 | What the holder of the account lock has counted is never less than what the sessions it visited hold now |
| RateLimits.Limiter.AllowN | internal/ratelimit/ratelimit.go:35-56 | Takes all or nothing of the refilled bucket: granted if and only if n is within the burst and within what was left plus rate x elapsed |
| RateLimits.Limiter.Tokens | internal/ratelimit/ratelimit.go:136-149 | Tells what a call would find and changes nothing |
| RateLimits.TokenBound | internal/ratelimit/ratelimit.go:35-56 | In any window of any run the tokens granted are at most burst + rate x length |
| RateLimits.BoundIsTight | internal/ratelimit/ratelimit.go:20-56 | A full bucket grants its whole burst at once |
| RateLimits.GrantedExactlyWhen | internal/ratelimit/ratelimit.go:35-56 | After any calls the next is granted if and only if it is within the burst and within what the last call left plus rate x elapsed; a grant takes just that and a refusal nothing |
| RateLimits.AskAnswered | internal/ratelimit/ratelimit.go:168-186 | The same through the manager, where a new key has a full burst; the other keys keep their buckets |
| RateLimits.LookAnswered | internal/ratelimit/ratelimit.go:136-178 | Looking tells the refilled level, a full burst for a new key, and changes no bucket that was there |
| RateLimits.EvictionIsInvisible | internal/ratelimit/ratelimit.go:136-225 | When maxAge x rate >= burst a manager that evicts answers every run of asking for tokens, looking at the level and evicting as one that never evicts |
| RateLimits.EvictionIsVisibleOtherwise | internal/ratelimit/ratelimit.go:213-225 | Otherwise three operations tell them apart |
| RateLimits.ServerEvictionIsInvisible | internal/server/server.go:1655-1670 | With the rates and the eviction age of the server eviction is never noticed, neither by tunnel requests nor by the login throttle, which looks at the level |
| RateLimits.ManagerBound | internal/ratelimit/ratelimit.go:168-225 | In any window of any run of a manager that evicts, the tokens granted to a key are at most burst + rate x length |
| RateLimits.Manager.Look | internal/ratelimit/ratelimit.go:136-178 | Get and then Tokens: makes a full limiter for a new key and tells the refilled level |
| RateLimits.Manager.AllowWith | internal/ratelimit/ratelimit.go:180-186 | Makes a full limiter for a new key, asks the one there is otherwise, and leaves the other keys alone |
| RateLimits.Manager.EvictIdle | internal/ratelimit/ratelimit.go:213-225 | Drops exactly the limiters idle for longer than maxAge and counts them |
| Certs.OneIssuanceAtATime | internal/tls/certs.go:206-246 | In every interleaving at most one caller is issuing for a host |
| Certs.SharedResult | internal/tls/certs.go:210-246 | Every coalesced caller of a host ends with what its leader ends with |
| Certs.EveryoneGetsWhatWasIssued | internal/tls/certs.go:232-246 | Over runs: once the leader of a call has taken Finish with an outcome, everyone who ends in that call, leader or waiter, ends with exactly that outcome; once it has taken Panic, with the abort error |
| Certs.NoWaiterIsLeftBehind | internal/tls/certs.go:226-234 | A waiter can go on if and only if its leader has woken it, so none waits for a leader that has ended |
| Certs.Cache.StoreCert | internal/tls/certs.go:97-110 | The counter is the cache's size and at most 4096; the entry just stored is there and the others are untouched or dropped, exactly half the limit when it was full |
| Certs.Cache.DropCert | internal/tls/certs.go:112-116 | Removes the entry and keeps the counter |
| Clients.NeverUnlimited | internal/client/client.go:742-749 | A time-limited tunnel never asks for zero, which would mean no limit |
| Clients.DeadlineDrifts | internal/client/client.go:738-750 | Asking again moves a deadline by no more than the request took |
| Clients.DeadlineAfterReconnects | internal/client/client.go:712-811 | After any number of reconnects the deadline is at most the original plus the sum of the request delays, and at least that less a second for each |
| Clients.GrantNames | internal/client/client.go:491-507 | A granted HTTP tunnel asked for without a name has the server's name, in its request too, and is marked; any other keeps its request unchanged; all have one, and the deadline of the lifetime asked for |
| Clients.NameAfterReconnects | internal/client/client.go:712-811 | As long as it is asked for each time, the name after any number of reconnects is the first one, and so is the rest of the request but for the lifetime |
| Clients.NewName | internal/client/client.go:775-811 | Asked for without its name, a tunnel whose name the server had picked takes the new name and stays one of those |
| Clients.Client.OpenTunnel | internal/client/client.go:442-507 | Whatever the network and server do, a tunnel appears in the map exactly when the request was granted, with the name and request `Clients.GrantNames` gives it |
| Clients.Client.Retry | internal/client/client.go:732-772 | At most five requests, all under the tunnel's own name, with waits that double from one second; each asks for what is left; it ends early only with a grant, when time is out, when stopped or when the connection is gone |
| Clients.Client.RecreateOne | internal/client/client.go:726-810 | Re-created if and only if the last request was granted; kept only after five requests in vain or with the connection gone; a name the server picked that was taken is asked for once more without it; else given up as expired |
| Clients.Client.RecreateTunnels | internal/client/client.go:712-811 | Uncancelled, every tunnel with a request is re-created, kept for the next try or dropped because it expired, and nothing else is in the map |

## Left out

- Sockets, TLS, DNS, HTTP parsing and proxying, file input and output: their outcomes are parameters or arbitrary choices.
- JSON payloads: control messages are datatypes.
- Cryptography, token checks, certificates and ACME orders: opaque results.
- Dashboard, pages, command line, PIN guards, body budgets, log ring, header capture, configuration parsing: plumbing around the core.
- Opening handshake of a stream: `StreamMachine` starts when both ends have registered the stream, and follows one stream.
- Writing one frame is one step in `StreamMachine`, and after a failed write nothing more gets onto the wire; `FrameWriters.WholeFrames` and `FrameWriters.TornFrame` say when a reader cannot tell the difference. What streams do with the bytes that follow a torn frame is not modelled.
- StreamDelivery.FaithfulDelivery: proved of wires on which no frame follows a torn one; `FrameWriters.TornRun` is a run in which one does.
- StreamDelivery.HonestEof: the same.
- Half-close timer: its reset is one of the resets that may strike at any moment.
- Idle-session cleanup, revoked tokens and expiry timers: a session may end and a tunnel may be closed at any step, whatever the reason.
- Lifecycle of streams inside the merged moves above, and the registry in steps finer than one handler (but for account limits and TCP ports): `createHTTPTunnel` asks for the hold before it stores the name, and the claims are not made for interleavings inside it.
- Servers.Server.CreateHttpTunnel: as one step its two late refusals cannot happen, so what they undo is not modelled. Interleaved with other handlers they can, and one after a takeover frees the name without holding it.
- NameSafety.NameIsSafe: what happens between saving the held file and the end of the stopping process is not modelled, nor a save that fails; both would lose names.
- Muxes.Mux.Write: a Write that has to wait returns to the caller as waiting; how it goes on among other threads is in `StreamMachine`.
- MuxRuns.Serve: calls and frames come one after the other here; their interleavings are in `StreamMachine`, for one stream. A Write whose frame fails in the middle of other threads can lift the window above its start: that is in `StreamBounds`.
- Window as a 32-bit number: it is unbounded here. Refunds of failed writes can lift it, but overflow would need more than a hundred writers to fail at once.
- Servers.Server.TakeOver: tunnels are values here; the channel that cuts a closed tunnel's visitors and its timer are not modelled.
- Normalising a custom domain and checking its TXT record: their result is part of the request.
- Session and tunnel identifiers: taken to be fresh, as random ones are.
- TcpRuns.After: the listener and the goroutine that serves it are not modelled; a step of another request is whole, as in `RegistryRuns`.
- Token buckets use real numbers where the code uses floating point; `SetRate`, negative counts and keys whose parameters change are not modelled.
- Quotas.LimitsHold: the limits of an account are fixed; the code keeps those of the login.
- Clients.DeadlineAfterReconnects: client and server read one clock.
