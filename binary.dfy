/** The part of Go's encoding/binary used by the framing: the uint32
    conversion of a length and the big-endian 4-byte encoding. */
module Binary {
  import opened Base

  const Uint32Limit: nat := 0x1_0000_0000

  /** Go's `uint32(n)` for a non-negative int: keeps the low 32 bits. */
  function ToUint32(n: nat): (u: nat)
    ensures u < Uint32Limit
    ensures n < Uint32Limit ==> u == n
    ensures (n - u) % Uint32Limit == 0
  {
    n % Uint32Limit
  }

  /** `binary.BigEndian.Uint32`: the value of four bytes, most significant first. */
  function Uint32(b: seq<byte>): (v: nat)
    requires |b| == 4
    ensures v < Uint32Limit
  {
    (b[0] as int) * 0x100_0000 + (b[1] as int) * 0x1_0000 + (b[2] as int) * 0x100 + b[3] as int
  }

  /** `binary.BigEndian.PutUint32`: the four bytes that `Uint32` reads back as `v`. */
  function PutUint32(v: nat): (b: seq<byte>)
    requires v < Uint32Limit
    ensures |b| == 4
    ensures Uint32(b) == v
  {
    DigitsRecompose(v);
    [v / 0x100_0000 % 0x100, v / 0x1_0000 % 0x100, v / 0x100 % 0x100, v % 0x100]
  }

  /** Reading the digits of a 32-bit value gives the value back. */
  lemma DigitsRecompose(v: nat)
    requires v < Uint32Limit
    ensures v / 0x100_0000 % 0x100 * 0x100_0000 + v / 0x1_0000 % 0x100 * 0x1_0000
            + v / 0x100 % 0x100 * 0x100 + v % 0x100 == v
  {
    var q1, r1 := v / 0x100, v % 0x100;
    var q2, r2 := q1 / 0x100, q1 % 0x100;
    var q3, r3 := q2 / 0x100, q2 % 0x100;
    assert v == q1 * 0x100 + r1;
    assert q1 == q2 * 0x100 + r2;
    assert q2 == q3 * 0x100 + r3;
    assert q3 < 0x100;
    assert v / 0x1_0000 == q2;
    assert v / 0x100_0000 == q3;
  }

  /** `PutUint32` is also a left inverse: four bytes come back unchanged. */
  lemma PutUint32OfUint32(b: seq<byte>)
    requires |b| == 4
    ensures PutUint32(Uint32(b)) == b
  {
    var v := Uint32(b);
    var b0, b1, b2, b3 := b[0] as int, b[1] as int, b[2] as int, b[3] as int;
    assert v / 0x100 == b0 * 0x1_0000 + b1 * 0x100 + b2;
    assert v / 0x1_0000 == b0 * 0x100 + b1;
    assert v / 0x100_0000 == b0;
  }
}
