/**
 * The receiving side. The network loop logs the callback's messages, then
 * receives one datagram and appends it to the ring buffer when it is a whole
 * 480-byte packet that fits. The JACK process callback reads this cycle's
 * samples from the ring buffer and deinterleaves them into the two output
 * ports, or plays silence when too little has arrived.
 */
module Receiver {
  import opened Options
  import opened Samples
  import opened Jack
  import opened Io
  import NetAudio
  import Sender

  /** `iter().step_by(2)`: the elements at even positions. */
  function StepBy2<T>(s: seq<T>): (r: seq<T>)
    ensures |r| == (|s| + 1) / 2
    ensures forall i :: 0 <= i < |r| ==> r[i] == s[2 * i]
    decreases |s|
  {
    if s == [] then []
    else if |s| == 1 then [s[0]]
    else
      var rest := StepBy2(s[2..]);
      assert forall i :: 1 <= i < |rest| + 1 ==> s[2..][2 * (i - 1)] == s[2 * i];
      [s[0]] + rest
  }

  /** `iter().skip(1)`. */
  function Skip1<T>(s: seq<T>): (r: seq<T>)
  {
    if s == [] then [] else s[1..]
  }

  /** `deinterleave`: the even-position and odd-position samples, when there is an even number of them. */
  function Deinterleave<T>(a: seq<T>): (r: Option<(seq<T>, seq<T>)>)
    ensures r.None? <==> |a| % 2 != 0
    ensures r.Some? ==> |r.value.0| == |a| / 2 && |r.value.1| == |a| / 2
    ensures r.Some? ==> forall i :: 0 <= i < |a| / 2 ==> r.value.0[i] == a[2 * i] && r.value.1[i] == a[2 * i + 1]
  {
    if |a| % 2 == 0 then
      var odd := StepBy2(Skip1(a));
      assert forall i :: 0 <= i < |odd| ==> odd[i] == a[2 * i + 1];
      Some((StepBy2(a), odd))
    else None
  }

  /** Splitting what `interleave` made gives back the two channels. */
  lemma {:induction false} DeinterleaveInterleave<T>(left: seq<T>, right: seq<T>)
    requires |left| == |right|
    ensures Deinterleave(Sender.Interleave(left, right).value) == Some((left, right))
  {
    var mixed := Sender.Interleave(left, right).value;
    var r := Deinterleave(mixed).value;
    assert r.0 == left;
    assert r.1 == right;
  }

  /** Interleaving what `deinterleave` split gives back the original sequence. */
  lemma {:induction false} InterleaveDeinterleave<T>(s: seq<T>)
    requires |s| % 2 == 0
    ensures Sender.Interleave(Deinterleave(s).value.0, Deinterleave(s).value.1) == Some(s)
  {
    var (l, r) := Deinterleave(s).value;
    var mixed := Sender.Interleave(l, r).value;
    forall j | 0 <= j < |s| / 2
      ensures mixed[2 * j] == s[2 * j] && mixed[2 * j + 1] == s[2 * j + 1]
    {
      assert mixed[2 * j] == l[j] && mixed[2 * j + 1] == r[j];
    }
    SameByPairs(mixed, s);
  }

  /** Two even-length sequences that agree pair by pair are equal. */
  lemma SameByPairs<T>(x: seq<T>, y: seq<T>)
    requires |x| == |y| && |x| % 2 == 0
    requires forall j :: 0 <= j < |x| / 2 ==> x[2 * j] == y[2 * j] && x[2 * j + 1] == y[2 * j + 1]
    ensures x == y
  {
    forall k | 0 <= k < |x|
      ensures x[k] == y[k]
    {
      var j := k / 2;
      assert k == 2 * j || k == 2 * j + 1;
    }
  }

  /**
   * End to end: the bytes the sender's callback puts into its FIFO, read back
   * whole by the receiver's callback, come out as the same two channels.
   */
  lemma EndToEnd(left: seq<Sample>, right: seq<Sample>)
    requires |left| == |right|
    ensures var bytes := Encode(Sender.Interleave(left, right).value);
            |bytes| % SAMPLE_BYTES == 0 &&
            Deinterleave(Decode(bytes)) == Some((left, right))
  {
    DecodeEncode(Sender.Interleave(left, right).value);
    DeinterleaveInterleave(left, right);
  }

  /**
   * Splitting a longer buffer whose front is `got` and keeping as many samples
   * per channel as `got` holds is splitting `got`: the callback deinterleaves its
   * whole scratch buffer and the zip with the ports drops the rest.
   */
  lemma SplitPrefix<T>(s: seq<T>, got: seq<T>)
    requires |s| % 2 == 0 && |got| % 2 == 0 && got <= s
    ensures Deinterleave(s).value.0[..|got| / 2] == Deinterleave(got).value.0
    ensures Deinterleave(s).value.1[..|got| / 2] == Deinterleave(got).value.1
  {
  }

  /** What the callback tells the network thread. */
  datatype Message = InvalidBufferLengths | Underrun(expected: nat, available: nat)

  /** Room for `RING_BUFFER_SIZE * 2` samples, the most one cycle may ask for. */
  const SCRATCH_LEN: nat := NetAudio.RING_BUFFER_SIZE * 2

  const RECV_ERROR: string := "unable to receive data"

  predicate ValidLengths(left: nat, right: nat)
    ensures ValidLengths(left, right) <==> left == right && left <= NetAudio.RING_BUFFER_SIZE
  {
    left + right <= SCRATCH_LEN && left == right
  }

  /** The warning the loop logs for a message. */
  function Report(m: Message): (line: LogLine)
  {
    match m
    case InvalidBufferLengths => InvalidBufferLengthsWarning
    case Underrun(expected, available) => UnderrunWarning(expected, available)
  }

  /** The warnings for a run of messages, one each, in order. */
  function Reports(ms: seq<Message>): seq<LogLine> {
    seq(|ms|, i requires 0 <= i < |ms| => Report(ms[i]))
  }

  /**
   * Logging two runs of messages one after the other gives the same lines as
   * logging them as one run: taking the queue in several turns of the loop
   * changes nothing in what is written.
   */
  lemma ReportsAppend(a: seq<Message>, b: seq<Message>)
    ensures Reports(a + b) == Reports(a) + Reports(b)
  {
  }

  /** A received datagram is a packet when `recv_from` filled the whole 480-byte buffer. */
  predicate IsPacket(payload: seq<byte>)
    ensures IsPacket(payload) <==> |payload| >= NetAudio.PACKET_SIZE
  {
    ReceivedLength(payload, NetAudio.PACKET_SIZE) == NetAudio.PACKET_SIZE
  }

  /** The FIFO after one datagram arrives: a packet that fits is appended, anything else is dropped. */
  function Admit(contents: seq<byte>, capacity: nat, payload: seq<byte>): (r: seq<byte>)
    requires |contents| <= capacity
    ensures |r| <= capacity
    ensures r == contents || (IsPacket(payload) && r == contents + payload[..NetAudio.PACKET_SIZE])
    ensures r != contents <==> IsPacket(payload) && capacity - |contents| >= NetAudio.PACKET_SIZE
  {
    if IsPacket(payload) && capacity - |contents| >= NetAudio.PACKET_SIZE
    then contents + payload[..NetAudio.PACKET_SIZE]
    else contents
  }

  /** The warning the loop logs for a datagram, given what `recv_from` stored and the free space. */
  function DatagramLines(received: nat, space: nat): seq<LogLine> {
    if received != NetAudio.PACKET_SIZE then [InvalidPacketSize(NetAudio.PACKET_SIZE, received)]
    else if space < NetAudio.PACKET_SIZE then [OverrunWarning(NetAudio.PACKET_SIZE, space)]
    else []
  }

  /**
   * The loop logs at most one line per datagram, and it logs one exactly when
   * the datagram is dropped: an accepted packet passes silently, and every
   * datagram that leaves the FIFO unchanged is reported.
   */
  lemma LoggedExactlyWhenDropped(contents: seq<byte>, capacity: nat, payload: seq<byte>)
    requires |contents| <= capacity
    ensures var lines := DatagramLines(ReceivedLength(payload, NetAudio.PACKET_SIZE), capacity - |contents|);
            |lines| <= 1 && (lines == [] <==> Admit(contents, capacity, payload) != contents)
  {
  }

  /** The FIFO after a run of datagrams arrives with no audio cycle in between. */
  function AdmitAll(contents: seq<byte>, capacity: nat, payloads: seq<seq<byte>>): (r: seq<byte>)
    requires |contents| <= capacity
    ensures |r| <= capacity
    decreases |payloads|
  {
    if payloads == [] then contents
    else Admit(AdmitAll(contents, capacity, payloads[..|payloads| - 1]), capacity, payloads[|payloads| - 1])
  }

  /** Arrivals only ever append to the FIFO. */
  lemma {:induction false} AdmitAllExtends(contents: seq<byte>, capacity: nat, payloads: seq<seq<byte>>)
    requires |contents| <= capacity
    ensures contents <= AdmitAll(contents, capacity, payloads)
    decreases |payloads|
  {
    if payloads != [] {
      AdmitAllExtends(contents, capacity, payloads[..|payloads| - 1]);
    }
  }

  /** Once fewer than 480 bytes are free, every further datagram is dropped. */
  lemma {:induction false} AdmitAllWhenFull(contents: seq<byte>, capacity: nat, payloads: seq<seq<byte>>)
    requires |contents| <= capacity && capacity - |contents| < NetAudio.PACKET_SIZE
    ensures AdmitAll(contents, capacity, payloads) == contents
    decreases |payloads|
  {
    if payloads != [] {
      AdmitAllWhenFull(contents, capacity, payloads[..|payloads| - 1]);
    }
  }

  /** The packets among the datagrams, in order. */
  function Packets(payloads: seq<seq<byte>>): (r: seq<seq<byte>>)
    ensures |r| <= |payloads|
    ensures forall i :: 0 <= i < |r| ==> |r[i]| == NetAudio.PACKET_SIZE
    decreases |payloads|
  {
    if payloads == [] then []
    else
      var last := payloads[|payloads| - 1];
      Packets(payloads[..|payloads| - 1]) + if IsPacket(last) then [last[..NetAudio.PACKET_SIZE]] else []
  }

  /**
   * While the FIFO has room for every datagram, the byte stream it receives is
   * exactly the packets among the datagrams: nothing of a datagram that is not a
   * packet gets in.
   */
  lemma {:induction false} AdmitAllWithRoom(contents: seq<byte>, capacity: nat, payloads: seq<seq<byte>>)
    requires |contents| + NetAudio.PACKET_SIZE * |payloads| <= capacity
    ensures AdmitAll(contents, capacity, payloads) == contents + Sender.Concat(Packets(payloads))
    decreases |payloads|
  {
    if payloads != [] {
      var init := payloads[..|payloads| - 1];
      AdmitAllWithRoom(contents, capacity, init);
      Sender.ConcatLength(Packets(init));
      AdmitLastWithRoom(contents, capacity, Packets(init), payloads[|payloads| - 1]);
    }
  }

  /** The inductive step of `AdmitAllWithRoom`: one more datagram, with room for it. */
  lemma AdmitLastWithRoom(contents: seq<byte>, capacity: nat, ps: seq<seq<byte>>, last: seq<byte>)
    requires |contents| + |Sender.Concat(ps)| + NetAudio.PACKET_SIZE <= capacity
    ensures Admit(contents + Sender.Concat(ps), capacity, last) ==
            contents + Sender.Concat(ps + if IsPacket(last) then [last[..NetAudio.PACKET_SIZE]] else [])
  {
    var added := if IsPacket(last) then [last[..NetAudio.PACKET_SIZE]] else [];
    Sender.ConcatAppend(ps, added);
    assert Sender.Concat(added) == if IsPacket(last) then last[..NetAudio.PACKET_SIZE] else [];
  }

  /** A datagram shorter than a packet never reaches the FIFO. */
  lemma ShortDatagramDropped(contents: seq<byte>, capacity: nat, payload: seq<byte>)
    requires |contents| <= capacity && |payload| < NetAudio.PACKET_SIZE
    ensures Admit(contents, capacity, payload) == contents
  {
  }

  /**
   * A datagram longer than a packet is cut to 480 bytes by `recv_from`, counts
   * as a whole packet, and its first 480 bytes are appended when they fit.
   */
  lemma LongDatagramTruncated(contents: seq<byte>, capacity: nat, payload: seq<byte>)
    requires |contents| + NetAudio.PACKET_SIZE <= capacity && |payload| > NetAudio.PACKET_SIZE
    ensures Admit(contents, capacity, payload) == contents + payload[..NetAudio.PACKET_SIZE]
  {
  }

  /** The state `start` sets up and then shares between the callback and the network loop. */
  class Pipeline {
    const ring: RingBuffer
    const channel: Channel<Message>
    /** `deinterleave_channels_buffer`. */
    const scratch: array<Sample>
    /** The network loop's datagram buffer. */
    const buffer: array<byte>
    const log: Log

    ghost predicate Valid()
      reads this, ring
    {
      ring.Valid() && scratch.Length == SCRATCH_LEN && buffer.Length == NetAudio.PACKET_SIZE
    }

    constructor (capacity: nat, log: Log)
      ensures Valid()
      ensures fresh(ring) && fresh(channel) && fresh(scratch) && fresh(buffer)
      ensures ring.capacity == capacity && ring.contents == []
      ensures channel.queue == [] && channel.connected
      ensures this.log == log
    {
      ring := new RingBuffer(capacity);
      channel := new Channel();
      scratch := new Sample[SCRATCH_LEN](_ => Zero);
      buffer := new byte[NetAudio.PACKET_SIZE](_ => 0);
      this.log := log;
    }

    /**
     * The process callback, given this cycle's output ports. A structural fault
     * stops the callback and leaves the ports alone; too little data plays
     * silence, reports an underrun and leaves the FIFO alone; otherwise the
     * cycle's bytes are taken from the front of the FIFO and split between the
     * ports.
     */
    method Process(outLeft: array<Sample>, outRight: array<Sample>) returns (c: Control)
      requires Valid()
      requires outLeft != outRight && outLeft != scratch && outRight != scratch
      modifies outLeft, outRight, scratch, ring, channel
      ensures Valid()
      ensures channel.connected == old(channel.connected)
      ensures !ValidLengths(outLeft.Length, outRight.Length) ==>
                c == Quit &&
                outLeft[..] == old(outLeft[..]) && outRight[..] == old(outRight[..]) &&
                ring.contents == old(ring.contents) && scratch[..] == old(scratch[..]) &&
                channel.queue == old(channel.queue) + [InvalidBufferLengths]
      ensures ValidLengths(outLeft.Length, outRight.Length) &&
              old(ring.ReadSpace()) < ByteLength(outLeft.Length + outRight.Length) ==>
                c == Continue &&
                (forall i :: 0 <= i < outLeft.Length ==> outLeft[i] == Zero) &&
                (forall i :: 0 <= i < outRight.Length ==> outRight[i] == Zero) &&
                ring.contents == old(ring.contents) && scratch[..] == old(scratch[..]) &&
                channel.queue == old(channel.queue) +
                  [Underrun(ByteLength(outLeft.Length + outRight.Length), old(ring.ReadSpace()))]
      ensures ValidLengths(outLeft.Length, outRight.Length) &&
              old(ring.ReadSpace()) >= ByteLength(outLeft.Length + outRight.Length) ==>
                var amount := outLeft.Length + outRight.Length;
                var got := Decode(old(ring.contents)[..ByteLength(amount)]);
                c == Continue &&
                ring.contents == old(ring.contents)[ByteLength(amount)..] &&
                Deinterleave(got) == Some((outLeft[..], outRight[..])) &&
                scratch[..] == got + old(scratch[amount..]) &&
                channel.queue == old(channel.queue)
    {
      var amount := outLeft.Length + outRight.Length;
      if amount > scratch.Length || outLeft.Length != outRight.Length {
        channel.Send(InvalidBufferLengths);
        return Quit;
      }
      var space := ring.ReadSpace();
      if space < ByteLength(amount) {
        forall i | 0 <= i < outLeft.Length {
          outLeft[i] := Zero;
        }
        forall i | 0 <= i < outRight.Length {
          outRight[i] := Zero;
        }
        channel.Send(Underrun(ByteLength(amount), space));
      } else {
        ReadCycle(outLeft, outRight);
      }
      c := Continue;
    }

    /** The callback's last branch: take the cycle's bytes from the FIFO and split them between the ports. */
    method ReadCycle(outLeft: array<Sample>, outRight: array<Sample>)
      requires Valid()
      requires outLeft != outRight && outLeft != scratch && outRight != scratch
      requires ValidLengths(outLeft.Length, outRight.Length)
      requires ring.ReadSpace() >= ByteLength(outLeft.Length + outRight.Length)
      modifies outLeft, outRight, scratch, ring
      ensures Valid()
      ensures var amount := outLeft.Length + outRight.Length;
              var got := Decode(old(ring.contents)[..ByteLength(amount)]);
              ring.contents == old(ring.contents)[ByteLength(amount)..] &&
              Deinterleave(got) == Some((outLeft[..], outRight[..])) &&
              scratch[..] == got + old(scratch[amount..])
    {
      var amount := outLeft.Length + outRight.Length;
      var bytes := ring.Read(ByteLength(amount));
      var got := Decode(bytes);
      forall i | 0 <= i < amount {
        scratch[i] := got[i];
      }
      assert scratch[..] == got + old(scratch[amount..]);
      var (l, r) := Deinterleave(scratch[..]).value;
      SplitPrefix(scratch[..], got);
      forall i | 0 <= i < outLeft.Length && i < |l| {
        outLeft[i] := l[i];
      }
      forall i | 0 <= i < outRight.Length && i < |r| {
        outRight[i] := r[i];
      }
      assert outLeft[..] == l[..outLeft.Length];
      assert outRight[..] == r[..outRight.Length];
    }

    /** `try_iter().for_each(...)`: every pending message is taken and logged, in order. */
    method ReportMessages()
      modifies channel, log
      ensures channel.queue == [] && channel.connected == old(channel.connected)
      ensures log.lines == old(log.lines) + Reports(old(channel.queue))
    {
      ghost var pending := channel.queue;
      ghost var taken := 0;
      while true
        invariant channel.connected == old(channel.connected)
        invariant taken <= |pending| && channel.queue == pending[taken..]
        invariant log.lines == old(log.lines) + Reports(pending[..taken])
        decreases |channel.queue|
      {
        var m := channel.TryRecv();
        if m.None? {
          break;
        }
        log.Write(Report(m.value));
        assert pending[..taken + 1] == pending[..taken] + [pending[taken]];
        ReportsAppend(pending[..taken], [pending[taken]]);
        taken := taken + 1;
      }
      assert pending[..taken] == pending;
    }

    /**
     * One turn of the network loop: log the pending messages, then take one
     * arrival. A socket error ends the loop; a packet that fits is appended; any
     * other datagram is logged and dropped.
     */
    method NetworkStep(arrival: Arrival) returns (o: Outcome)
      requires Valid()
      modifies ring, channel, log, buffer
      ensures Valid()
      ensures channel.queue == [] && channel.connected == old(channel.connected)
      ensures arrival.RecvError? ==>
                o == Failed(RECV_ERROR) &&
                ring.contents == old(ring.contents) && buffer[..] == old(buffer[..]) &&
                log.lines == old(log.lines) + Reports(old(channel.queue))
      ensures arrival.Datagram? ==>
                var n := ReceivedLength(arrival.payload, NetAudio.PACKET_SIZE);
                o == Running &&
                ring.contents == Admit(old(ring.contents), ring.capacity, arrival.payload) &&
                buffer[..] == arrival.payload[..n] + old(buffer[n..]) &&
                log.lines == old(log.lines) + Reports(old(channel.queue)) +
                             DatagramLines(n, old(ring.WriteSpace()))
    {
      ReportMessages();
      if arrival.RecvError? {
        return Failed(RECV_ERROR);
      }
      var received := ReceivedLength(arrival.payload, buffer.Length);
      forall i | 0 <= i < received {
        buffer[i] := arrival.payload[i];
      }
      assert buffer[..] == arrival.payload[..received] + old(buffer[received..]);
      if received == buffer.Length {
        var space := ring.WriteSpace();
        if space >= buffer.Length {
          var n := ring.Write(buffer[..]);
        } else {
          log.Write(OverrunWarning(buffer.Length, space));
        }
      } else {
        log.Write(InvalidPacketSize(NetAudio.PACKET_SIZE, received));
      }
      o := Running;
    }

    /**
     * The network loop over a run of datagrams that arrive with no audio cycle in
     * between: the FIFO ends as `AdmitAll` says and never exceeds its capacity.
     */
    method Serve(payloads: seq<seq<byte>>) returns (o: Outcome)
      requires Valid()
      modifies ring, channel, log, buffer
      ensures Valid() && o == Running
      ensures ring.contents == AdmitAll(old(ring.contents), ring.capacity, payloads)
      ensures channel.connected == old(channel.connected)
      ensures payloads != [] ==> channel.queue == []
      ensures payloads == [] ==> channel.queue == old(channel.queue) && log.lines == old(log.lines)
      ensures payloads == [] ==> buffer[..] == old(buffer[..])
      ensures old(log.lines) <= log.lines
    {
      ghost var before := ring.contents;
      o := Running;
      for i := 0 to |payloads|
        invariant Valid() && o == Running
        invariant ring.contents == AdmitAll(before, ring.capacity, payloads[..i])
        invariant channel.connected == old(channel.connected)
        invariant i > 0 ==> channel.queue == []
        invariant i == 0 ==> channel.queue == old(channel.queue) && log.lines == old(log.lines)
        invariant i == 0 ==> buffer[..] == old(buffer[..])
        invariant old(log.lines) <= log.lines
      {
        o := NetworkStep(Datagram(payloads[i]));
        assert payloads[..i + 1][..i] == payloads[..i];
      }
      assert payloads[..|payloads|] == payloads;
    }
  }
}
