/**
 * Fixed-width unsigned integers and their big-endian byte encodings, as
 * produced by Rust's `to_be_bytes`, `write_u16`/`write_u32` and read back by
 * `from_be_bytes`, `read_u16`/`read_u32`.
 */
module Bytes {

  type Byte = b: int | 0 <= b < 0x100
  type U16 = n: int | 0 <= n < 0x1_0000
  type U32 = n: int | 0 <= n < 0x1_0000_0000

  /** `n as u16`: Rust keeps the low 16 bits. */
  function TruncateU16(n: nat): (r: U16)
    ensures n < 0x1_0000 ==> r == n
    ensures (n - r) % 0x1_0000 == 0
  {
    n % 0x1_0000
  }

  /** `n as u32`: Rust keeps the low 32 bits. */
  function TruncateU32(n: nat): (r: U32)
    ensures n < 0x1_0000_0000 ==> r == n
    ensures (n - r) % 0x1_0000_0000 == 0
  {
    n % 0x1_0000_0000
  }

  function BeU16(n: U16): (r: seq<Byte>)
  {
    [n / 0x100, n % 0x100]
  }

  function FromBeU16(s: seq<Byte>): U16
    requires |s| >= 2
  {
    (s[0] as int) * 0x100 + s[1]
  }

  function BeU32(n: U32): (r: seq<Byte>)
  {
    [n / 0x100_0000, (n / 0x1_0000) % 0x100, (n / 0x100) % 0x100, n % 0x100]
  }

  function FromBeU32(s: seq<Byte>): U32
    requires |s| >= 4
  {
    (s[0] as int) * 0x100_0000 + (s[1] as int) * 0x1_0000 + (s[2] as int) * 0x100 + s[3]
  }

  lemma BeU16RoundTrip(n: U16)
    ensures |BeU16(n)| == 2
    ensures FromBeU16(BeU16(n)) == n
  {
  }

  lemma FromBeU16RoundTrip(s: seq<Byte>)
    requires |s| == 2
    ensures BeU16(FromBeU16(s)) == s
  {
  }

  lemma BeU32RoundTrip(n: U32)
    ensures |BeU32(n)| == 4
    ensures FromBeU32(BeU32(n)) == n
  {
    var q1, b3 := n / 0x100, n % 0x100;
    var q2, b2 := q1 / 0x100, q1 % 0x100;
    var q3, b1 := q2 / 0x100, q2 % 0x100;
    assert n == q1 * 0x100 + b3;
    assert q1 == q2 * 0x100 + b2;
    assert q2 == q3 * 0x100 + b1;
    assert n / 0x1_0000 == q2 by {
      assert n == q2 * 0x1_0000 + (b2 * 0x100 + b3);
    }
    assert n / 0x100_0000 == q3 by {
      assert n == q3 * 0x100_0000 + (b1 * 0x1_0000 + b2 * 0x100 + b3);
    }
    assert BeU32(n) == [q3, b1, b2, b3];
  }

  /** Splitting `q * 256 + r` back into its quotient and remainder. */
  lemma DivModByte(q: nat, r: Byte)
    ensures (q * 0x100 + r) / 0x100 == q && (q * 0x100 + r) % 0x100 == r
  {
  }

  lemma FromBeU32RoundTrip(s: seq<Byte>)
    requires |s| == 4
    ensures BeU32(FromBeU32(s)) == s
  {
    var n := FromBeU32(s);
    var hi2 := (s[0] as int) * 0x100 + s[1];
    var hi3 := hi2 * 0x100 + s[2];
    assert n == hi3 * 0x100 + s[3];
    DivModByte(hi3, s[3]);
    DivModByte(hi2, s[2]);
    DivModByte(s[0], s[1]);
    assert n / 0x100 == hi3;
    assert n / 0x1_0000 == hi2 by {
      assert n / 0x1_0000 == (n / 0x100) / 0x100;
    }
    assert n / 0x100_0000 == s[0] by {
      assert n / 0x100_0000 == (n / 0x1_0000) / 0x100;
    }
  }

  /** A big-endian prefix is read from the front, whatever follows it. */
  lemma FromBeU32Prefix(s: seq<Byte>, t: seq<Byte>)
    requires |s| >= 4
    ensures FromBeU32(s + t) == FromBeU32(s)
  {
  }

  lemma FromBeU16Prefix(s: seq<Byte>, t: seq<Byte>)
    requires |s| >= 2
    ensures FromBeU16(s + t) == FromBeU16(s)
  {
  }
}
