/** Byte strings, the fixed-width integers that are written into them, and chunk lists. */
module Bytes {
  type byte = b: int | 0 <= b < 0x100
  type bytes = seq<byte>

  /** The byte of n at weight w: `(n / w) & 0xff`. */
  function Octet(n: nat, w: nat): byte
    requires 0 < w
  {
    n / w % 0x100
  }

  /** Two bytes, high byte first. The `>> 8 & 0xff` form keeps only the low 16 bits. */
  function Be16(n: nat): (r: bytes)
    ensures |r| == 2
  {
    [Octet(n, 0x100), Octet(n, 1)]
  }

  function FromBe16(high: byte, low: byte): nat {
    0x100 * high as int + low as int
  }

  function Be24(n: nat): (r: bytes)
    ensures |r| == 3
  {
    [Octet(n, 0x1_0000), Octet(n, 0x100), Octet(n, 1)]
  }

  function FromBe24(high: byte, mid: byte, low: byte): nat {
    0x1_0000 * high as int + 0x100 * mid as int + low as int
  }

  /** Four bytes, low byte first, of the low 32 bits. */
  function Le32(n: nat): (r: bytes)
    ensures |r| == 4
  {
    [Octet(n, 1), Octet(n, 0x100), Octet(n, 0x1_0000), Octet(n, 0x100_0000)]
  }

  function FromLe32(s: bytes): (n: nat)
    requires |s| == 4
    ensures n < 0x1_0000_0000
  {
    s[0] as int + 0x100 * s[1] as int + 0x1_0000 * s[2] as int + 0x100_0000 * s[3] as int
  }

  /** readInt32LE: the same four bytes as a two's-complement number. */
  function FromInt32Le(s: bytes): (n: int)
    requires |s| == 4
  {
    var u := FromLe32(s);
    if u < 0x8000_0000 then u else u - 0x1_0000_0000
  }

  /** Splitting off the octet at weight w. */
  lemma OctetStep(n: nat, w: nat)
    requires w == 1 || w == 0x100 || w == 0x1_0000 || w == 0x100_0000
    ensures n / w == Octet(n, w) as int + 0x100 * (n / (0x100 * w))
  {
    if w == 1 {
      assert n / 0x100 == n / 1 / 0x100;
    } else if w == 0x100 {
      assert n / 0x1_0000 == n / 0x100 / 0x100;
    } else if w == 0x1_0000 {
      assert n / 0x100_0000 == n / 0x1_0000 / 0x100;
    } else {
      assert n / 0x1_0000_0000 == n / 0x100_0000 / 0x100;
    }
  }

  lemma Be16RoundTrip(n: nat)
    requires n < 0x1_0000
    ensures FromBe16(Be16(n)[0], Be16(n)[1]) == n
  {
    OctetStep(n, 1);
    OctetStep(n, 0x100);
    hide Octet;
  }

  lemma Be24RoundTrip(n: nat)
    requires n < 0x100_0000
    ensures FromBe24(Be24(n)[0], Be24(n)[1], Be24(n)[2]) == n
  {
    OctetStep(n, 1);
    OctetStep(n, 0x100);
    OctetStep(n, 0x1_0000);
    hide Octet;
  }

  lemma Le32RoundTrip(n: nat)
    requires n < 0x1_0000_0000
    ensures FromLe32(Le32(n)) == n
  {
    OctetStep(n, 1);
    OctetStep(n, 0x100);
    OctetStep(n, 0x1_0000);
    OctetStep(n, 0x100_0000);
    assert n / 1 == n && n / 0x1_0000_0000 == 0;
    hide Octet;
  }

  /** Two bytes and the number they spell, the other way round. */
  lemma Be16Unique(high: byte, low: byte)
    ensures Be16(FromBe16(high, low)) == [high, low]
  {
    assert FromBe16(high, low) / 0x100 == high as int;
  }

  lemma Assoc(a: bytes, b: bytes, c: bytes)
    ensures (a + b) + c == a + (b + c)
  {
  }

  /** The bytes of a list of chunks, in order. */
  function Flat(chunks: seq<bytes>): bytes {
    if chunks == [] then [] else chunks[0] + Flat(chunks[1..])
  }

  lemma {:induction false} FlatAppend(a: seq<bytes>, b: seq<bytes>)
    ensures Flat(a + b) == Flat(a) + Flat(b)
  {
    if a == [] {
      assert a + b == b;
    } else {
      assert (a + b)[1..] == a[1..] + b;
      FlatAppend(a[1..], b);
    }
  }
}
