/** Bytes and the little-endian layout that `memcpy` of a fixed-width value produces: every width is read back from what
    was written, and written back from what was read. */
module Bytes {
  import opened Sequences

  type byte = x: int | 0 <= x < 256
  type u16 = x: int | 0 <= x < 0x1_0000
  type u32 = x: int | 0 <= x < 0x1_0000_0000
  type u64 = x: int | 0 <= x < 0x1_0000_0000_0000_0000

  /** std::string is a string of bytes. */
  type text = seq<byte>

  function Pow256(n: nat): (p: nat)
    ensures p > 0
  {
    if n == 0 then 1 else 256 * Pow256(n - 1)
  }

  /** The low `n` bytes of `x`, least significant first: a cast to an n-byte integer truncates. */
  function ToLE(n: nat, x: nat): (s: seq<byte>)
    ensures |s| == n
  {
    if n == 0 then [] else [x % 256] + ToLE(n - 1, x / 256)
  }

  function FromLE(s: seq<byte>): (x: nat)
    ensures x < Pow256(|s|)
  {
    if s == [] then 0 else s[0] + 256 * FromLE(s[1..])
  }

  /** Reading back n bytes gives the value if it fits. */
  lemma {:induction false} ReadBack(n: nat, x: nat)
    requires x < Pow256(n)
    ensures FromLE(ToLE(n, x)) == x
  {
    if n > 0 {
      ReadBack(n - 1, x / 256);
      assert ToLE(n, x)[1..] == ToLE(n - 1, x / 256);
    }
  }

  /** Writing back the value read gives the same bytes. */
  lemma {:induction false} WriteBack(s: seq<byte>)
    ensures ToLE(|s|, FromLE(s)) == s
  {
    if s != [] {
      WriteBack(s[1..]);
      assert FromLE(s) % 256 == s[0] && FromLE(s) / 256 == FromLE(s[1..]);
    }
  }

  lemma Digit(n: nat, d: byte, x: nat)
    ensures ToLE(n + 1, d + 0x100 * x) == [d] + ToLE(n, x)
  {
  }

  /** The lowest byte comes first, digit by digit. */
  lemma LowByteFirst(a: byte, b: byte, c: byte, d: byte)
    ensures ToLE(2, a + 0x100 * b) == [a, b]
    ensures ToLE(4, a + 0x100 * (b + 0x100 * (c + 0x100 * d))) == [a, b, c, d]
  {
    hide ToLE;
    Digit(3, a, b + 0x100 * (c + 0x100 * d));
    Digit(2, b, c + 0x100 * d);
    Digit(1, c, d);
    Digit(1, a, b);
    OneByte(b);
    OneByte(d);
  }

  lemma OneByte(d: byte)
    ensures ToLE(1, d) == [d]
  {
    Digit(0, d, 0);
    assert ToLE(0, 0) == [];
  }

  /** So the low half of a wide value comes before its high half. */
  lemma {:induction false} LowHalfFirst(n: nat, low: nat, high: nat, m: nat)
    requires low < Pow256(n)
    ensures ToLE(n + m, low + Pow256(n) * high) == ToLE(n, low) + ToLE(m, high)
  {
    if n > 0 {
      var d: byte, p := low % 256, Pow256(n - 1);
      LowHalfFirst(n - 1, low / 256, high, m);
      Digit(n - 1, d, low / 256);
      Digit(n - 1 + m, d, low / 256 + p * high);
      Distribute(p, high);
      hide ToLE;
      Associative([d], ToLE(n - 1, low / 256), ToLE(m, high));
    }
  }

  lemma Distribute(p: nat, x: nat)
    ensures (256 * p) * x == 256 * (p * x)
  {
  }

  lemma Widths()
    ensures Pow256(1) == 0x100 && Pow256(2) == 0x1_0000 && Pow256(4) == 0x1_0000_0000
    ensures Pow256(8) == 0x1_0000_0000_0000_0000
  {
    assert Pow256(3) == 0x100_0000;
    assert Pow256(5) == 0x100_0000_0000;
    assert Pow256(6) == 0x1_0000_0000_0000;
    assert Pow256(7) == 0x100_0000_0000_0000;
  }

  /** Two-byte and four-byte readings of a two- or four-byte writing. */
  lemma ReadBack16(x: u16)
    ensures FromLE(ToLE(2, x)) == x
  {
    Widths();
    ReadBack(2, x);
  }

  lemma ReadBack32(x: u32)
    ensures FromLE(ToLE(4, x)) == x
  {
    Widths();
    ReadBack(4, x);
  }

  lemma ReadBack64(x: u64)
    ensures FromLE(ToLE(8, x)) == x
  {
    Widths();
    ReadBack(8, x);
  }
}
