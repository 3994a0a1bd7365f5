# netaudio in Dafny

A model of netaudio, a program that carries stereo audio between two JACK
hosts over UDP. One instance runs as the sender: its JACK process callback
interleaves the left and right input samples into a ring buffer, and its
network thread sends the buffer's bytes as 480-byte datagrams. The other runs
as the receiver: its network thread puts each 480-byte datagram into a ring
buffer when it fits, the first 480 bytes of a longer one included. Its
process callback splits the bytes back into the left and right output ports.
Both callbacks check the cycle's buffer sizes every time. The sender drops a cycle when the buffer has no room (overrun). The receiver
plays silence when too little has arrived (underrun). Both report these
events to the network thread over a channel, and the network thread logs
them.

Layout, one module per file:

- `options.dfy` (`Options`): `Option`, `and_then`, `unwrap_or`, and `Min`.
- `samples.dfy` (`Samples`): a sample is the four bytes of its `f32`
  representation. `Encode` and `Decode` are the byte-slice casts between
  sample buffers and the ring buffer.
- `jack.dfy` (`Jack`): the JACK `RingBuffer` as a class holding a fixed
  `capacity` and the unread bytes `contents`. `WriteSpace` is
  `capacity - |contents|` and `ReadSpace` is `|contents|`. `Write` appends
  as much as fits. `Read` removes a prefix. `Control` is what a process
  callback returns.
- `io.dfy` (`Io`): standard error as a list of `LogLine`s; the `mpsc`
  channel; the UDP socket.
- `netaudio.dfy` (`NetAudio`, for `src/main.rs`): the constants,
  `parse_args` and `main`.
- `sender.dfy` (`Sender`) and `receiver.dfy` (`Receiver`): the two
  pipelines. Each module has a `Pipeline` class holding the state that
  `start` creates and shares between the callback and the network loop.

The two threads are modelled as methods on that shared state, called one
after another. The world outside the program enters as parameters:

- an address parser `parse`;
- whether the JACK client starts;
- the error a mode's `start` ends with;
- each `recv_from` result (an `Arrival`);
- the set of send attempts the operating system rejects (`UdpSocket.sendFailures`).

Three behaviours of the code are easy to miss:

- A datagram longer than 480 bytes is not dropped. `recv_from` into the
  480-byte buffer stores 480 bytes and reports 480, so the code accepts the
  datagram's first 480 bytes as a whole packet. `ReceivedLength` models the
  cut and `Receiver.LongDatagramTruncated` states the result. This follows
  POSIX `recv_from`, which discards the extra bytes without an error.
- Of the two addresses, only an unparseable bind address gives the usage
  line. An unparseable second address selects receiver mode
  (`NetAudio.UnparseableSendSelectsReceiver`).
- The receiver's callback deinterleaves its whole scratch buffer. The zip
  with each port then keeps the first samples only (`Receiver.SplitPrefix`).

## Model

| member | source | states |
|---|---|---|
| `Samples.Encode` | src/sender.rs:82-84 | the byte view of `n` samples is `4 n` bytes |
| `Samples.Decode` | src/receiver.rs:79-81 | `4 n` bytes read as samples give `n` samples |
| `Samples.DecodeEncode` | src/receiver.rs:79-81 | samples written as bytes and read back are the same samples |
| `Samples.EncodeDecode` | src/sender.rs:82-84 | whole-sample bytes read as samples and written back are the same bytes |
| `Samples.EncodeAppend` | src/sender.rs:82-84 | the byte view of a concatenation is the concatenation of the byte views |
| `Jack.RingBuffer.constructor` | src/sender.rs:41-43 | a new ring buffer is empty and has the given fixed capacity |
| `Jack.RingBuffer.Write` | src/receiver.rs:123 | appends `min(length, free space)` bytes and returns that count; occupancy never exceeds capacity |
| `Jack.RingBuffer.Read` | src/sender.rs:109 | removes and returns the oldest `min(n, readable)` bytes, in order |
| `Io.Log.Write` | src/sender.rs:98 | each `eprintln!` appends one line to standard error |
| `Io.Channel.Hangup` | src/sender.rs:107 | once the callback's sending end is dropped, the channel is closed and its queue is kept |
| `Io.Channel.Send` | src/sender.rs:87 | a message is queued after the earlier ones |
| `Io.Channel.Recv` | src/sender.rs:97 | yields the oldest message; yields closed-channel once the sender is gone and nothing is queued |
| `Io.Channel.TryRecv` | src/receiver.rs:103 | yields and removes the oldest message, or nothing when none is queued |
| `Io.UdpSocket.Send` | src/sender.rs:110-112 | a send either hands the datagram to the system or fails, as the attempt's position decides |
| `Io.ReceivedLength` | src/receiver.rs:115-118 | `recv_from` stores the datagram's length cut to the buffer's size |
| `NetAudio.ParseArgs` | src/main.rs:18-32 | program name or empty; arguments present exactly when a bind argument exists and parses; the send address is the parsed second argument, or none when it is missing or unparseable |
| `NetAudio.SelectMode` | src/main.rs:53-56 | a destination address selects sender mode; its absence selects receiver mode |
| `NetAudio.Main` | src/main.rs:37-60 | every return is FAILURE; usage line when arguments fail; client failure line when JACK fails; otherwise sample rate, then the start error |
| `NetAudio.NoBindAddressPrintsUsage` | src/main.rs:39-42 | with no bind argument, only the usage line is printed, nothing starts, exit is FAILURE |
| `NetAudio.UnparseableBindPrintsUsage` | src/main.rs:27 | an unparseable bind address is a usage failure |
| `NetAudio.UnparseableSendSelectsReceiver` | src/main.rs:28 | an unparseable second address starts receiver mode instead of failing |
| `NetAudio.ExtraArgumentsIgnored` | src/main.rs:23-30 | arguments after the second do not change the parse |
| `Sender.FlatZip` | src/sender.rs:13 | zip-and-flatten has twice the shorter length, left samples at even and right samples at odd positions |
| `Sender.Interleave` | src/sender.rs:11-14 | none exactly when the lengths differ; otherwise length `|a| + |b|` with `out[2i] = a[i]`, `out[2i+1] = b[i]` |
| `Sender.Packetize` | src/sender.rs:108-109 | a FIFO of `n` bytes holds `n / 480` whole packets |
| `Sender.PacketizeAt` | src/sender.rs:108-109 | packet `i` is FIFO bytes `480 i` up to `480 (i + 1)` |
| `Sender.PacketizeConcat` | src/sender.rs:107-114 | the packets put together are the FIFO up to its last whole packet; fewer than 480 bytes are left over |
| `Sender.ValidLengths` | src/sender.rs:56-57 | the structural check passes exactly when both channels have the same length of at most `RING_BUFFER_SIZE` samples |
| `Sender.SendsBeforeFailure` | src/sender.rs:110-112 | counts the successful sends before the first failed one |
| `Sender.Pipeline.constructor` | src/sender.rs:37-44 | the ring buffer is empty, the channel is open and empty, the scratch buffer is fresh |
| `Sender.Pipeline.Process` | src/sender.rs:49-89 | bad lengths: only `InvalidBufferLengths` and `Quit`, FIFO untouched, no `Ready`; too little room: FIFO untouched, `Overrun{(l+r)*4, free}` then `Ready`; otherwise FIFO gains the bytes of `interleave(l, r)`, then `Ready` |
| `Sender.Pipeline.Drain` | src/sender.rs:107-114 | sends the FIFO's whole packets in order as 480-byte datagrams up to the first failed send; ends with under 480 bytes left, or with the send error after removing the failed packet |
| `Sender.Pipeline.SixtyFrameCycle` | src/sender.rs:49-116 | with under a packet buffered, room for two and a working socket, a 60-frame cycle and one network turn send exactly one 480-byte packet (leftover bytes, then the cycle's front), keep the leftover length unchanged, use up exactly one send attempt and leave the channel open, so cycles compose while the following attempts succeed |
| `Sender.Pipeline.NetworkStep` | src/sender.rs:95-116 | invalid-length and overrun messages only log, leaving FIFO and socket untouched; `Ready` or a closed channel drains; an empty open channel waits |
| `Receiver.StepBy2` | src/receiver.rs:15 | `step_by(2)` keeps the elements at even positions |
| `Receiver.Deinterleave` | src/receiver.rs:11-19 | none exactly when the length is odd; otherwise two halves of length `|a|/2` with `left[i] = a[2i]`, `right[i] = a[2i+1]` |
| `Receiver.DeinterleaveInterleave` | src/receiver.rs:11-19 | `deinterleave(interleave(l, r)) == (l, r)` for equal-length channels |
| `Receiver.InterleaveDeinterleave` | src/sender.rs:11-14 | interleaving the two halves of an even-length sequence gives it back |
| `Receiver.EndToEnd` | src/receiver.rs:79-91 | the bytes the sender's callback writes, read whole by the receiver's callback, give back both channels |
| `Receiver.SameByPairs` | src/receiver.rs:13-16 | an even-length sequence is determined by its even-position and odd-position elements |
| `Receiver.SplitPrefix` | src/receiver.rs:83-91 | splitting the whole scratch buffer and zipping with the ports is the same as splitting only the samples read |
| `Receiver.ValidLengths` | src/receiver.rs:60-61 | the structural check passes exactly when both ports have the same length of at most `RING_BUFFER_SIZE` samples |
| `Receiver.ReportsAppend` | src/receiver.rs:103-112 | logging the pending messages in two turns of the loop writes the same lines, in the same order, as logging them in one |
| `Receiver.IsPacket` | src/receiver.rs:119 | `recv_from` fills the whole 480-byte buffer exactly when the datagram has at least 480 bytes |
| `Receiver.Admit` | src/receiver.rs:119-136 | a datagram changes the FIFO exactly when `recv_from` filled all 480 bytes and 480 bytes are free; then its 480 bytes are appended; occupancy stays within capacity |
| `Receiver.LoggedExactlyWhenDropped` | src/receiver.rs:119-136 | the loop logs at most one line per datagram, and logs one exactly when the datagram leaves the FIFO unchanged |
| `Receiver.AdmitAll` | src/receiver.rs:121-123 | through any run of datagrams the FIFO stays within capacity |
| `Receiver.AdmitAllExtends` | src/receiver.rs:119-124 | datagrams only ever append to the FIFO |
| `Receiver.AdmitAllWhenFull` | src/receiver.rs:121-130 | once fewer than 480 bytes are free, every further datagram is dropped |
| `Receiver.Packets` | src/receiver.rs:119 | the accepted packets are each 480 bytes and no more numerous than the datagrams |
| `Receiver.AdmitAllWithRoom` | src/receiver.rs:119-136 | with room for all, the FIFO gains exactly the packets, in order; nothing of a datagram shorter than 480 bytes gets in |
| `Receiver.AdmitLastWithRoom` | src/receiver.rs:119-124 | with room, one more datagram adds its packet, if it is one, to the end of the stream |
| `Receiver.ShortDatagramDropped` | src/receiver.rs:131-136 | a datagram under 480 bytes never reaches the FIFO |
| `Receiver.LongDatagramTruncated` | src/receiver.rs:115-123 | a datagram over 480 bytes is cut by `recv_from`, and its first 480 bytes are appended when they fit |
| `Receiver.Pipeline.constructor` | src/receiver.rs:40-48 | the ring buffer is empty, the channel is open and empty, the buffers are fresh |
| `Receiver.Pipeline.Process` | src/receiver.rs:53-95 | bad lengths: `InvalidBufferLengths` and `Quit`, ports and FIFO untouched; underrun: both ports all zero, FIFO untouched, one `Underrun{(l+r)*4, readable}`; otherwise the front `(l+r)*4` bytes leave the FIFO and deinterleave exactly into the ports |
| `Receiver.Pipeline.ReadCycle` | src/receiver.rs:77-92 | reads the cycle's bytes from the front of the FIFO, fills the scratch buffer's front, and splits them into the ports |
| `Receiver.Pipeline.ReportMessages` | src/receiver.rs:103-112 | every pending message is taken and logged, in order, as its warning |
| `Receiver.Pipeline.NetworkStep` | src/receiver.rs:101-137 | logs the pending messages; a receive error ends the loop with "unable to receive data"; otherwise the FIFO becomes `Admit` of the datagram, with an invalid-size or overrun warning when it is dropped |
| `Receiver.Pipeline.Serve` | src/receiver.rs:99-137 | over a run of datagrams the FIFO becomes `AdmitAll` of them and stays within capacity; with no datagrams the queue, the log and the datagram buffer are unchanged |

## Left out

- JACK client creation, port registration, `activate_async` and the process scope are foreign API. Ports are sequences (sender) or arrays (receiver). `main` takes the client's success and sample rate as a parameter.
- `sender::start` and `receiver::start` set up ports, the socket, the channel and the ring buffer. That setup is foreign API, and its failure messages are not modelled one by one. `NetAudio.Main` takes the error a mode's `start` ends with as a parameter. The `Pipeline` constructors model the successful setup.
- The ring buffer's lock-free layout, power-of-two sizing and actual usable size are foreign. The model uses an abstract capacity.
- Concurrency between the audio thread and the network thread is not modelled, and neither is wait-freedom or the real-time deadline. Each side's steps run one after another on the shared state.
- UDP bind, connect and the blocking of `recv_from` are I/O. A blocking receive on the channel that would wait is modelled as the outcome `Waiting`.
- `f32` values are not modelled. A sample is its four bytes, and `0.0` is four zero bytes.
- The text of log lines and the real `SocketAddr` parsing are not modelled, and neither is `env::args`. Log lines are a datatype carrying their numbers, and parsing is a parameter.
- The sender's 480-byte staging array is not modelled as an array. The packet is the value `Read` returns.
- Receiver.Pipeline.Serve: states the log only as an extension of the old log, and covers only runs of datagrams with no receive error and no audio cycle in between; each step's exact log lines are stated by `NetworkStep`.
- `usize` overflow is not modelled, because the structural check bounds every byte count at 131072.
