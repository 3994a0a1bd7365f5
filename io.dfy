/**
 * The program's other collaborators, reduced to what the bridge observes of
 * them: standard error, the in-process message channel from the audio thread,
 * and the UDP socket.
 */
module Io {
  import opened Options
  import opened Samples

  /** One line written to standard error, with the numbers it carries. */
  datatype LogLine =
    | InvalidBufferLengthsError                          // sender: "[ERROR] invalid buffer lengths"
    | InvalidBufferLengthsWarning                        // receiver: "[WARNING] invalid buffer lengths"
    | OverrunWarning(expected: nat, available: nat)      // "[WARNING] overrun, expected to write ..."
    | UnderrunWarning(expected: nat, available: nat)     // "[WARNING] underrun, expected to read ..."
    | InvalidPacketSize(expected: nat, got: nat)         // "[WARNING] invalid packet size, ..."
    | Usage(program: string)                             // "USAGE: <program> <bind_addr> [<send_addr>]"
    | ClientStartFailed                                  // "unable to start JACK client"
    | SampleRate(hz: nat)                                // "JACK system sample rate: <hz> Hz"
    | Fatal(message: string)                             // "[ERROR] <message>"

  /** Standard error. */
  class Log {
    var lines: seq<LogLine>

    constructor ()
      ensures lines == []
    {
      lines := [];
    }

    method Write(line: LogLine)
      modifies this
      ensures lines == old(lines) + [line]
    {
      lines := lines + [line];
    }
  }

  /** What a receive on the channel yields. `Empty` stands for a blocking receive that would wait. */
  datatype Received<M> = Message(message: M) | Disconnected | Empty

  /**
   * An `mpsc` channel seen from both ends: the undelivered messages in order and
   * whether the sending end is still alive.
   */
  class Channel<M> {
    var queue: seq<M>
    var connected: bool

    constructor ()
      ensures queue == [] && connected
    {
      queue := [];
      connected := true;
    }

    /** `send`; the receiving end outlives every sender here, so it never fails. */
    method Send(m: M)
      modifies this
      ensures queue == old(queue) + [m] && connected == old(connected)
    {
      queue := queue + [m];
    }

    /** The sending end is dropped. */
    method Hangup()
      modifies this
      ensures queue == old(queue) && !connected
    {
      connected := false;
    }

    /** `recv`: the oldest message, else `Disconnected` once the sender is gone; `Empty` while it would block. */
    method Recv() returns (r: Received<M>)
      modifies this
      ensures connected == old(connected)
      ensures old(queue) != [] ==> r == Message(old(queue)[0]) && queue == old(queue)[1..]
      ensures old(queue) == [] ==> queue == [] && r == (if connected then Empty else Disconnected)
    {
      if queue != [] {
        r := Message(queue[0]);
        queue := queue[1..];
      } else if connected {
        r := Empty;
      } else {
        r := Disconnected;
      }
    }

    /** One step of `try_iter`: the oldest message if there is one. */
    method TryRecv() returns (r: Option<M>)
      modifies this
      ensures connected == old(connected)
      ensures old(queue) != [] ==> r == Some(old(queue)[0]) && queue == old(queue)[1..]
      ensures old(queue) == [] ==> r == None && queue == []
    {
      if queue != [] {
        r := Some(queue[0]);
        queue := queue[1..];
      } else {
        r := None;
      }
    }
  }

  /**
   * A bound and connected UDP socket. Which send attempts the operating system
   * rejects is not known to the program; `sendFailures` names them by the
   * attempt's position, so every failure pattern is covered.
   */
  class UdpSocket {
    const sendFailures: set<nat>
    var attempts: nat
    /** The datagrams handed to the operating system, in order. */
    var sent: seq<seq<byte>>

    constructor (sendFailures: set<nat>)
      ensures this.sendFailures == sendFailures && attempts == 0 && sent == []
    {
      this.sendFailures := sendFailures;
      attempts := 0;
      sent := [];
    }

    method Send(data: seq<byte>) returns (ok: bool)
      modifies this
      ensures ok <==> old(attempts) !in sendFailures
      ensures attempts == old(attempts) + 1
      ensures sent == if ok then old(sent) + [data] else old(sent)
    {
      ok := attempts !in sendFailures;
      if ok {
        sent := sent + [data];
      }
      attempts := attempts + 1;
    }
  }

  /** What one `recv_from` call returns: a datagram's payload, or a socket error. */
  datatype Arrival = Datagram(payload: seq<byte>) | RecvError

  /** How many bytes `recv_from` stores for a datagram: a longer one is cut to the buffer. */
  function ReceivedLength(payload: seq<byte>, bufferLength: nat): (n: nat)
    ensures n <= bufferLength && n <= |payload|
    ensures n == bufferLength || n == |payload|
  {
    Min(|payload|, bufferLength)
  }

  /** How a network loop iteration ends. `Waiting` stands for a blocking call that would not return yet. */
  datatype Outcome = Running | Waiting | Failed(error: string)
}
