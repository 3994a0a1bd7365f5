/**
 * The parts of the JACK audio API the program relies on: the value a process
 * callback returns, and the single-producer/single-consumer byte ring buffer,
 * seen here as a bounded FIFO of bytes. Its reader half and writer half are the
 * two ends of one `RingBuffer` object.
 */
module Jack {
  import opened Options
  import opened Samples

  /** What a process callback asks of the host: keep calling it, or stop. */
  datatype Control = Continue | Quit

  class RingBuffer {
    /** The usable size in bytes; fixed for the buffer's lifetime. */
    const capacity: nat
    /** The bytes written and not yet read, oldest first. */
    var contents: seq<byte>

    ghost predicate Valid()
      reads this
    {
      |contents| <= capacity
    }

    constructor (capacity: nat)
      ensures Valid()
      ensures this.capacity == capacity && contents == []
    {
      this.capacity := capacity;
      contents := [];
    }

    /** The writer half's `space()`: free bytes. */
    function WriteSpace(): nat
      reads this
      requires Valid()
    {
      capacity - |contents|
    }

    /** The reader half's `space()`: bytes available to read. */
    function ReadSpace(): nat
      reads this
    {
      |contents|
    }

    /** `write_buffer`: appends as much of `bytes` as fits and says how much that was. */
    method Write(bytes: seq<byte>) returns (n: nat)
      requires Valid()
      modifies this
      ensures Valid()
      ensures n == Min(|bytes|, old(WriteSpace()))
      ensures contents == old(contents) + bytes[..n]
    {
      n := Min(|bytes|, capacity - |contents|);
      contents := contents + bytes[..n];
    }

    /** `read_buffer` / `read_slice`: removes and returns up to `n` of the oldest bytes. */
    method Read(n: nat) returns (out: seq<byte>)
      requires Valid()
      modifies this
      ensures Valid()
      ensures out == old(contents)[..Min(n, old(|contents|))]
      ensures contents == old(contents)[Min(n, old(|contents|))..]
    {
      var k := Min(n, |contents|);
      out := contents[..k];
      contents := contents[k..];
    }
  }
}
