/**
 * The sending side. The JACK process callback interleaves this cycle's left and
 * right input samples into the ring buffer (or reports why it cannot); the
 * network loop waits for the callback's messages and, on each `Ready`, drains
 * the ring buffer into the socket in whole 480-byte packets.
 */
module Sender {
  import opened Options
  import opened Samples
  import opened Jack
  import opened Io
  import NetAudio

  /** `zip` followed by `flat_map(|(l, r)| [l, r])`: pairs up to the shorter input. */
  function FlatZip<T>(a: seq<T>, b: seq<T>): (r: seq<T>)
    ensures |r| == 2 * Min(|a|, |b|)
    ensures forall i :: 0 <= i < Min(|a|, |b|) ==> r[2 * i] == a[i] && r[2 * i + 1] == b[i]
  {
    if a == [] || b == [] then []
    else
      var rest := FlatZip(a[1..], b[1..]);
      assert forall i :: 1 <= i < Min(|a|, |b|) ==> a[1..][i - 1] == a[i] && b[1..][i - 1] == b[i];
      [a[0], b[0]] + rest
  }

  /** `interleave`: `L, R, L, R, ...` when the channels have equal length, nothing otherwise. */
  function Interleave<T>(a: seq<T>, b: seq<T>): (r: Option<seq<T>>)
    ensures r.None? <==> |a| != |b|
    ensures r.Some? ==> |r.value| == |a| + |b|
    ensures r.Some? ==> forall i :: 0 <= i < |a| ==> r.value[2 * i] == a[i] && r.value[2 * i + 1] == b[i]
  {
    if |a| == |b| then Some(FlatZip(a, b)) else None
  }

  /** What the callback tells the network thread. */
  datatype Message = Ready | InvalidBufferLengths | Overrun(expected: nat, available: nat)

  /** Room for `RING_BUFFER_SIZE * 2` samples, the most one cycle may bring. */
  const SCRATCH_LEN: nat := NetAudio.RING_BUFFER_SIZE * 2

  const SEND_ERROR: string := "unable to send data"

  /** The structural check of the callback: equal channel lengths that fit the scratch buffer. */
  predicate ValidLengths(left: nat, right: nat)
    ensures ValidLengths(left, right) <==> left == right && left <= NetAudio.RING_BUFFER_SIZE
  {
    left + right <= SCRATCH_LEN && left == right
  }

  /** The line the loop logs for a message other than `Ready`. */
  function Report(m: Message): (line: LogLine)
    requires !m.Ready?
  {
    match m
    case InvalidBufferLengths => InvalidBufferLengthsError
    case Overrun(expected, available) => OverrunWarning(expected, available)
  }

  /** The FIFO cut into whole packets, oldest first; a partial packet at the end is left out. */
  function Packetize(s: seq<byte>): (r: seq<seq<byte>>)
    ensures |r| == |s| / NetAudio.PACKET_SIZE
    decreases |s|
  {
    if |s| < NetAudio.PACKET_SIZE then []
    else [s[..NetAudio.PACKET_SIZE]] + Packetize(s[NetAudio.PACKET_SIZE..])
  }

  function Concat(ps: seq<seq<byte>>): seq<byte> {
    if ps == [] then [] else ps[0] + Concat(ps[1..])
  }

  /** Joining distributes over concatenation. */
  lemma {:induction false} ConcatAppend(a: seq<seq<byte>>, b: seq<seq<byte>>)
    ensures Concat(a + b) == Concat(a) + Concat(b)
  {
    if a != [] {
      assert (a + b)[1..] == a[1..] + b;
      ConcatAppend(a[1..], b);
    } else {
      assert a + b == b;
    }
  }

  /** Packets are 480 bytes each. */
  lemma {:induction false} ConcatLength(ps: seq<seq<byte>>)
    requires forall i :: 0 <= i < |ps| ==> |ps[i]| == NetAudio.PACKET_SIZE
    ensures |Concat(ps)| == NetAudio.PACKET_SIZE * |ps|
  {
    if ps != [] {
      ConcatLength(ps[1..]);
    }
  }

  /** Packet `i` is bytes `480 i .. 480 (i + 1)` of `s`. */
  lemma {:induction false} PacketizeAt(s: seq<byte>)
    ensures forall i :: 0 <= i < |Packetize(s)| ==>
              Packetize(s)[i] == s[NetAudio.PACKET_SIZE * i..NetAudio.PACKET_SIZE * (i + 1)]
    decreases |s|
  {
    var P := NetAudio.PACKET_SIZE;
    if |s| >= P {
      var t := s[P..];
      PacketizeAt(t);
      forall i | 1 <= i < |Packetize(s)|
        ensures Packetize(s)[i] == s[P * i..P * (i + 1)]
      {
        var j := i - 1;
        assert P * i == P * j + P && P * (i + 1) == P * i + P;
        assert Packetize(s)[i] == Packetize(t)[j];
        assert t[P * j..P * j + P] == s[P * i..P * (i + 1)];
      }
    }
  }

  /** The packets, put back together, are the FIFO up to its last whole packet. */
  lemma {:induction false} PacketizeConcat(s: seq<byte>)
    ensures Concat(Packetize(s)) == s[..NetAudio.PACKET_SIZE * (|s| / NetAudio.PACKET_SIZE)]
    ensures |s| - NetAudio.PACKET_SIZE * (|s| / NetAudio.PACKET_SIZE) < NetAudio.PACKET_SIZE
    decreases |s|
  {
    var P := NetAudio.PACKET_SIZE;
    if |s| >= P {
      var t := s[P..];
      PacketizeConcat(t);
      assert |t| / P == |s| / P - 1;
      assert Concat(Packetize(s)) == s[..P] + Concat(Packetize(t));
      assert s[..P] + t[..P * (|t| / P)] == s[..P * (|s| / P)];
    }
  }

  /** How many of `count` sends starting at attempt `from` succeed before the first failure. */
  function SendsBeforeFailure(failures: set<nat>, from: nat, count: nat): (k: nat)
    ensures k <= count
    ensures forall j :: from <= j < from + k ==> j !in failures
    ensures k < count ==> from + k in failures
    decreases count
  {
    if count == 0 || from in failures then 0
    else 1 + SendsBeforeFailure(failures, from + 1, count - 1)
  }

  /** The contract of `SendsBeforeFailure` pins its value down. */
  lemma FirstFailureAt(failures: set<nat>, from: nat, count: nat, i: nat)
    requires i <= count
    requires forall j :: from <= j < from + i ==> j !in failures
    requires i < count ==> from + i in failures
    ensures SendsBeforeFailure(failures, from, count) == i
  {
  }

  /** Reading a packet from the FIFO at packet boundary `i` yields packet `i` and leaves the rest. */
  lemma PacketStep(s: seq<byte>, i: nat)
    requires NetAudio.PACKET_SIZE * (i + 1) <= |s|
    ensures i < |Packetize(s)|
    ensures s[NetAudio.PACKET_SIZE * i..][..NetAudio.PACKET_SIZE] == Packetize(s)[i]
    ensures s[NetAudio.PACKET_SIZE * i..][NetAudio.PACKET_SIZE..] == s[NetAudio.PACKET_SIZE * (i + 1)..]
  {
    PacketizeAt(s);
  }

  /** The state `start` sets up and then shares between the callback and the network loop. */
  class Pipeline {
    const ring: RingBuffer
    const channel: Channel<Message>
    /** `interleave_channels_buffer`. */
    const scratch: array<Sample>
    const socket: UdpSocket
    const log: Log

    ghost predicate Valid()
      reads this, ring
    {
      ring.Valid() && scratch.Length == SCRATCH_LEN
    }

    constructor (capacity: nat, socket: UdpSocket, log: Log)
      ensures Valid()
      ensures fresh(ring) && fresh(channel) && fresh(scratch)
      ensures ring.capacity == capacity && ring.contents == []
      ensures channel.queue == [] && channel.connected
      ensures this.socket == socket && this.log == log
    {
      ring := new RingBuffer(capacity);
      channel := new Channel();
      scratch := new Sample[SCRATCH_LEN](_ => Zero);
      this.socket := socket;
      this.log := log;
    }

    /**
     * The process callback, given this cycle's input slices. A structural fault
     * stops the callback; too little room drops the cycle and reports an
     * overrun; otherwise the interleaved samples are appended to the FIFO
     * whole. Every cycle that goes on ends with `Ready`.
     */
    method Process(left: seq<Sample>, right: seq<Sample>) returns (c: Control)
      requires Valid()
      modifies ring, channel, scratch
      ensures Valid()
      ensures channel.connected == old(channel.connected)
      ensures !ValidLengths(|left|, |right|) ==>
                c == Quit &&
                ring.contents == old(ring.contents) &&
                scratch[..] == old(scratch[..]) &&
                channel.queue == old(channel.queue) + [InvalidBufferLengths]
      ensures ValidLengths(|left|, |right|) &&
              old(ring.WriteSpace()) < ByteLength(|left| + |right|) ==>
                c == Continue &&
                ring.contents == old(ring.contents) &&
                scratch[..] == old(scratch[..]) &&
                channel.queue == old(channel.queue) +
                  [Overrun(ByteLength(|left| + |right|), old(ring.WriteSpace())), Ready]
      ensures ValidLengths(|left|, |right|) &&
              old(ring.WriteSpace()) >= ByteLength(|left| + |right|) ==>
                c == Continue &&
                ring.contents == old(ring.contents) + Encode(Interleave(left, right).value) &&
                scratch[..] == Interleave(left, right).value + old(scratch[|left| + |right|..]) &&
                channel.queue == old(channel.queue) + [Ready]
    {
      var amount := |left| + |right|;
      if amount > scratch.Length || |left| != |right| {
        channel.Send(InvalidBufferLengths);
        return Quit;
      }
      var space := ring.WriteSpace();
      if space < ByteLength(amount) {
        channel.Send(Overrun(ByteLength(amount), space));
      } else {
        var frames := Interleave(left, right).value;
        var written := 0;
        while written < scratch.Length && written < |frames|
          invariant written <= |frames| && written <= scratch.Length
          invariant forall k :: 0 <= k < written ==> scratch[k] == frames[k]
          invariant forall k :: written <= k < scratch.Length ==> scratch[k] == old(scratch[k])
          invariant ring.contents == old(ring.contents)
          invariant channel.queue == old(channel.queue) && channel.connected == old(channel.connected)
        {
          scratch[written] := frames[written];
          written := written + 1;
        }
        assert scratch[..written] == frames;
        assert scratch[..] == scratch[..written] + scratch[written..];
        var n := ring.Write(Encode(scratch[..written]));
      }
      channel.Send(Ready);
      c := Continue;
    }

    /**
     * The drain on `Ready`: the whole packets the FIFO held are read and sent in
     * order, up to the first failed send. A failed send ends the loop with the
     * send error; the packet it carried has already left the FIFO.
     */
    twostate predicate Drained(o: Outcome)
      reads this, ring, socket
    {
      var before := old(ring.contents);
      var packets := Packetize(before);
      var k := SendsBeforeFailure(socket.sendFailures, old(socket.attempts), |packets|);
      socket.sent == old(socket.sent) + packets[..k] &&
      if k == |packets| then
        o == Running && socket.attempts == old(socket.attempts) + k &&
        ring.contents == before[NetAudio.PACKET_SIZE * k..] &&
        |ring.contents| < NetAudio.PACKET_SIZE
      else
        o == Failed(SEND_ERROR) && socket.attempts == old(socket.attempts) + k + 1 &&
        ring.contents == before[NetAudio.PACKET_SIZE * (k + 1)..]
    }

    /** The inner `while` of the network loop. */
    method Drain() returns (o: Outcome)
      requires Valid()
      modifies ring, socket
      ensures Valid()
      ensures Drained(o)
    {
      ghost var before := ring.contents;
      ghost var packets := Packetize(before);
      ghost var a0 := socket.attempts;
      ghost var s0 := socket.sent;
      ghost var i := 0;
      while ring.ReadSpace() >= NetAudio.PACKET_SIZE
        invariant ring.Valid() && i <= |packets|
        invariant ring.contents == before[NetAudio.PACKET_SIZE * i..]
        invariant socket.sent == s0 + packets[..i]
        invariant socket.attempts == a0 + i
        invariant forall j :: a0 <= j < a0 + i ==> j !in socket.sendFailures
        decreases |ring.contents|
      {
        PacketStep(before, i);
        var data := ring.Read(NetAudio.PACKET_SIZE);
        var ok := socket.Send(data);
        assert packets[..i] + [packets[i]] == packets[..i + 1];
        if !ok {
          FirstFailureAt(socket.sendFailures, a0, |packets|, i);
          return Failed(SEND_ERROR);
        }
        i := i + 1;
      }
      PacketizeConcat(before);
      assert packets[..i] == packets;
      FirstFailureAt(socket.sendFailures, a0, |packets|, i);
      return Running;
    }

    /**
     * One turn of the network loop: wait for the next message; log an invalid
     * length or an overrun and touch nothing else; on `Ready`, or once the
     * callback has hung up, drain.
     */
    method NetworkStep() returns (o: Outcome)
      requires Valid()
      modifies ring, channel, socket, log
      ensures Valid()
      ensures channel.connected == old(channel.connected)
      ensures channel.queue == if old(channel.queue) == [] then [] else old(channel.queue)[1..]
      ensures old(channel.queue) == [] && old(channel.connected) ==>
                o == Waiting &&
                ring.contents == old(ring.contents) && unchanged(socket) && log.lines == old(log.lines)
      ensures old(channel.queue) != [] && !old(channel.queue)[0].Ready? ==>
                o == Running &&
                ring.contents == old(ring.contents) && unchanged(socket) &&
                log.lines == old(log.lines) + [Report(old(channel.queue)[0])]
      ensures (old(channel.queue) != [] && old(channel.queue)[0].Ready?) ||
              (old(channel.queue) == [] && !old(channel.connected)) ==>
                log.lines == old(log.lines) && Drained(o)
    {
      var r := channel.Recv();
      match r {
        case Empty =>
          o := Waiting;
        case Message(m) =>
          if m.Ready? {
            o := Drain();
          } else {
            log.Write(Report(m));
            o := Running;
          }
        case Disconnected =>
          o := Drain();
      }
    }

    /**
     * One 60-frame cycle followed by one turn of the network loop, starting with
     * less than a packet buffered, room for two packets and a send that
     * succeeds: exactly one 480-byte packet goes out, made of the leftover
     * bytes and the front of the cycle's bytes, and the same number of bytes
     * stays buffered. The send uses up one attempt and the channel stays open,
     * so cycle after cycle of 60 frames, each sends one packet for as long as
     * the socket's next attempts succeed.
     */
    method SixtyFrameCycle(left: seq<Sample>, right: seq<Sample>) returns (c: Control, o: Outcome)
      requires Valid()
      requires |left| == |right| == 60
      requires |ring.contents| < NetAudio.PACKET_SIZE && ring.capacity >= 2 * NetAudio.PACKET_SIZE
      requires channel.queue == []
      requires socket.attempts !in socket.sendFailures
      modifies ring, channel, scratch, socket, log
      ensures Valid()
      ensures c == Continue && o == Running
      ensures var stream := old(ring.contents) + Encode(Interleave(left, right).value);
              |stream| == old(|ring.contents|) + NetAudio.PACKET_SIZE &&
              socket.sent == old(socket.sent) + [stream[..NetAudio.PACKET_SIZE]] &&
              ring.contents == stream[NetAudio.PACKET_SIZE..]
      ensures |socket.sent[|socket.sent| - 1]| == NetAudio.PACKET_SIZE
      ensures |ring.contents| == old(|ring.contents|)
      ensures channel.queue == [] && log.lines == old(log.lines)
      ensures socket.attempts == old(socket.attempts) + 1 && channel.connected == old(channel.connected)
    {
      ghost var stream := ring.contents + Encode(Interleave(left, right).value);
      c := Process(left, right);
      assert ring.contents == stream;
      PacketizeAt(stream);
      o := NetworkStep();
    }
  }
}
