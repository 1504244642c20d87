/** Bytes and the little-endian numbers written in them. */
module LittleEndian {
  type byte = x: int | 0 <= x < 256
  type bytes = seq<byte>

  /** The `k` little-endian bytes of a number. */
  function Le(n: nat, k: nat): (b: bytes)
    ensures |b| == k
  {
    if k == 0 then [] else [n % 256] + Le(n / 256, k - 1)
  }

  function FromLe(b: bytes): nat {
    if b == [] then 0 else b[0] + 256 * FromLe(b[1..])
  }

  function Pow256(k: nat): nat { if k == 0 then 1 else 256 * Pow256(k - 1) }

  lemma {:induction false} LeRoundTrip(n: nat, k: nat)
    requires n < Pow256(k)
    ensures FromLe(Le(n, k)) == n
  {
    if k > 0 {
      assert Le(n, k)[1..] == Le(n / 256, k - 1);
      LeRoundTrip(n / 256, k - 1);
    }
  }

  /** Four bytes, the lowest first. */
  ghost function Weigh(b0: byte, b1: byte, b2: byte, b3: byte): nat {
    b0 + 0x100 * b1 + 0x1_0000 * b2 + 0x100_0000 * b3
  }

  lemma FourWeighed(b: bytes)
    requires |b| >= 4
    ensures FromLe(b) == Weigh(b[0], b[1], b[2], b[3]) + 0x1_0000_0000 * FromLe(b[4..])
  {
    assert b[1..][1..] == b[2..] && b[2..][1..] == b[3..] && b[3..][1..] == b[4..];
    assert FromLe(b[2..]) == b[2] + 256 * FromLe(b[3..]) && FromLe(b[3..]) == b[3] + 256 * FromLe(b[4..]);
  }

  /** A number below 2 to the 32 in four bytes, the lowest first. */
  lemma LeFour(n: nat)
    requires n < 0x1_0000_0000
    ensures var b := Le(n, 4); n == Weigh(b[0], b[1], b[2], b[3])
  {
    Pow256Values();
    LeRoundTrip(n, 4);
    FourWeighed(Le(n, 4));
  }

  /** A number below 2 to the 64 in eight bytes, the lowest first. */
  lemma LeEight(n: nat)
    requires n < 0x1_0000_0000_0000_0000
    ensures var b := Le(n, 8); n == Weigh(b[0], b[1], b[2], b[3]) + 0x1_0000_0000 * Weigh(b[4], b[5], b[6], b[7])
  {
    Pow256Values();
    LeRoundTrip(n, 8);
    var b := Le(n, 8);
    FourWeighed(b);
    FourWeighed(b[4..]);
  }

  lemma DivideBack(digit: byte, rest: nat)
    ensures (digit + 256 * rest) % 256 == digit && (digit + 256 * rest) / 256 == rest
  {
  }

  lemma {:induction false} LeUnique(b: bytes)
    ensures FromLe(b) < Pow256(|b|) && Le(FromLe(b), |b|) == b
  {
    if b != [] {
      LeUnique(b[1..]);
      DivideBack(b[0], FromLe(b[1..]));
      assert b == [b[0]] + b[1..];
    }
  }

  lemma Pow256Values()
    ensures Pow256(4) == 0x1_0000_0000 && Pow256(8) == 0x1_0000_0000_0000_0000
  {
    assert Pow256(4) == 256 * Pow256(3) == 65536 * Pow256(2) == 0x1_0000_0000;
    assert Pow256(8) == 256 * Pow256(7) == 65536 * Pow256(6) == 0x1_0000_0000 * Pow256(4);
  }
}
