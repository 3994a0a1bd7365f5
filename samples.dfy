/**
 * Audio samples as the program handles them: 32-bit float PCM values that are
 * only ever copied, never computed on. A sample is kept as the four bytes of its
 * in-memory representation, which is exactly what the byte-slice casts between
 * sample buffers and the ring buffer see.
 */
module Samples {

  newtype byte = x: int | 0 <= x < 256

  /** One `f32` sample, as its four bytes in memory order. */
  datatype Sample = Sample(b0: byte, b1: byte, b2: byte, b3: byte)

  /** `0.0f32`, whose representation is four zero bytes. */
  const Zero: Sample := Sample(0, 0, 0, 0)

  /** `size_of::<f32>()`. */
  const SAMPLE_BYTES: nat := 4

  /** The number of bytes `samples` samples take up. */
  function ByteLength(samples: nat): (n: nat)
    ensures n % SAMPLE_BYTES == 0 && n / SAMPLE_BYTES == samples
  {
    SAMPLE_BYTES * samples
  }

  function Bytes(x: Sample): seq<byte> {
    [x.b0, x.b1, x.b2, x.b3]
  }

  /** The byte view of a sample slice. */
  function Encode(s: seq<Sample>): (r: seq<byte>)
    ensures |r| == SAMPLE_BYTES * |s|
  {
    if s == [] then [] else Bytes(s[0]) + Encode(s[1..])
  }

  /** The sample view of a byte slice whose length is a whole number of samples. */
  function Decode(b: seq<byte>): (r: seq<Sample>)
    requires |b| % SAMPLE_BYTES == 0
    ensures SAMPLE_BYTES * |r| == |b|
  {
    if b == [] then [] else [Sample(b[0], b[1], b[2], b[3])] + Decode(b[4..])
  }

  /** Viewing samples as bytes and back gives the same samples. */
  lemma {:induction false} DecodeEncode(s: seq<Sample>)
    ensures Decode(Encode(s)) == s
  {
    if s != [] {
      var e := Encode(s);
      assert e[4..] == Encode(s[1..]);
      DecodeEncode(s[1..]);
    }
  }

  /** Viewing whole-sample bytes as samples and back gives the same bytes. */
  lemma {:induction false} EncodeDecode(b: seq<byte>)
    requires |b| % SAMPLE_BYTES == 0
    ensures Encode(Decode(b)) == b
  {
    if b != [] {
      var d := Decode(b);
      assert d[1..] == Decode(b[4..]);
      EncodeDecode(b[4..]);
    }
  }

  /** The byte view of a concatenation is the concatenation of the byte views. */
  lemma {:induction false} EncodeAppend(a: seq<Sample>, b: seq<Sample>)
    ensures Encode(a + b) == Encode(a) + Encode(b)
  {
    if a != [] {
      assert (a + b)[1..] == a[1..] + b;
      EncodeAppend(a[1..], b);
    } else {
      assert a + b == b;
    }
  }
}
