/** Fixed-width integers, network byte order, and the growable buffer the encoders append to. */
module Bytes {

  type byte = b: int | 0 <= b < 0x100
  type u16 = n: int | 0 <= n < 0x1_0000
  type u32 = n: int | 0 <= n < 0x1_0000_0000
  type i32 = n: int | -0x8000_0000 <= n < 0x8000_0000

  const I32_MAX: int := 0x7fff_ffff

  datatype Option<+T> = None | Some(value: T)
  datatype Result<+T, +E> = Ok(value: T) | Err(error: E)

  /** The only decoding error of the protocol crate: too few bytes. */
  datatype ProtoError = ShortRead(need: nat, got: nat)

  /** A `Vec<u8>` passed by mutable reference. */
  class ByteBuf {
    var bytes: seq<byte>

    constructor ()
      ensures bytes == []
    {
      bytes := [];
    }

    method Append(more: seq<byte>)
      modifies this
      ensures bytes == old(bytes) + more
    {
      bytes := bytes + more;
    }
  }

  // ----- big-endian reads and writes -----

  function At16(b: seq<byte>, o: nat): u16
    requires o + 2 <= |b|
  {
    (b[o] as int) * 0x100 + b[o + 1]
  }

  function At32(b: seq<byte>, o: nat): u32
    requires o + 4 <= |b|
  {
    (b[o] as int) * 0x100_0000 + (b[o + 1] as int) * 0x1_0000 + (b[o + 2] as int) * 0x100 + b[o + 3]
  }

  /** Two's complement reading of the same four bytes. */
  function AtI32(b: seq<byte>, o: nat): i32
    requires o + 4 <= |b|
  {
    if At32(b, o) < 0x8000_0000 then At32(b, o) else At32(b, o) - 0x1_0000_0000
  }

  function Be16(n: u16): (b: seq<byte>)
    ensures |b| == 2 && At16(b, 0) == n
  {
    [n / 0x100, n % 0x100]
  }

  function Be32(n: u32): (b: seq<byte>)
    ensures |b| == 4 && At32(b, 0) == n
  {
    var n1 := n / 0x100;
    var n2 := n1 / 0x100;
    [n2 / 0x100, n2 % 0x100, n1 % 0x100, n % 0x100]
  }

  function BeI32(n: i32): (b: seq<byte>)
    ensures |b| == 4 && AtI32(b, 0) == n
  {
    Be32(if n < 0 then n + 0x1_0000_0000 else n)
  }

  /** Reading at an offset is reading the slice that starts there. */
  lemma AtSlice(b: seq<byte>, o: nat, part: seq<byte>)
    requires o + |part| <= |b| && b[o..o + |part|] == part
    ensures |part| == 2 ==> At16(b, o) == At16(part, 0)
    ensures |part| == 4 ==> At32(b, o) == At32(part, 0)
  {
    assert forall i | 0 <= i < |part| :: b[o + i] == part[i];
  }

  /** Four bytes are the encoding of the number they read as: `Be32` is onto. */
  lemma Be32Onto(b: seq<byte>, o: nat)
    requires o + 4 <= |b|
    ensures Be32(At32(b, o)) == b[o..o + 4]
    ensures BeI32(AtI32(b, o)) == b[o..o + 4]
  {
    var n := At32(b, o);
    var n1 := (b[o] as int) * 0x1_0000 + (b[o + 1] as int) * 0x100 + b[o + 2];
    var n2 := (b[o] as int) * 0x100 + b[o + 1];
    assert n == n1 * 0x100 + b[o + 3] && n1 == n2 * 0x100 + b[o + 2];
    assert n / 0x100 == n1 && n % 0x100 == b[o + 3];
    assert n1 / 0x100 == n2 && n1 % 0x100 == b[o + 2];
    assert Be32(n) == [b[o], b[o + 1], b[o + 2], b[o + 3]];
  }

  function Zeros(n: nat): (z: seq<byte>)
    ensures |z| == n && forall i | 0 <= i < n :: z[i] == 0
  {
    seq(n, _ => 0)
  }

  /** The most significant byte comes first, and negative numbers are in two's complement. */
  lemma NetworkOrder(n: u32, m: u16)
    ensures var b := Be32(n); n == ((b[0] as int * 0x100 + b[1]) * 0x100 + b[2]) * 0x100 + b[3]
    ensures var b := Be16(m); m == b[0] as int * 0x100 + b[1]
    ensures BeI32(-1) == [0xFF, 0xFF, 0xFF, 0xFF] && BeI32(-32) == [0xFF, 0xFF, 0xFF, 0xE0]
  {
    assert Be32(0xFFFF_FFFF) == [0xFF, 0xFF, 0xFF, 0xFF] && Be32(0xFFFF_FFE0) == [0xFF, 0xFF, 0xFF, 0xE0];
  }
}
