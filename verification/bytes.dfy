/** Bytes as the C code sees them: unsigned characters. */
module Bytes {
  type Byte = b: int | 0 <= b < 256

  predicate IsDigit(c: int) { '0' as int <= c <= '9' as int }

  /** Pieces of input or output, joined. */
  function Concat(parts: seq<seq<Byte>>): seq<Byte> {
    if parts == [] then [] else Concat(parts[..|parts| - 1]) + parts[|parts| - 1]
  }

  // ---- numbers as bytes, low byte first

  function LE(x: nat, n: nat): (b: seq<Byte>)
    ensures |b| == n
  {
    if n == 0 then [] else [x % 256] + LE(x / 256, n - 1)
  }

  function UnLE(b: seq<Byte>): nat {
    if b == [] then 0 else b[0] + 256 * UnLE(b[1..])
  }

  function Pow256(n: nat): nat { if n == 0 then 1 else 256 * Pow256(n - 1) }

  lemma {:induction false} UnLEBound(b: seq<Byte>)
    ensures UnLE(b) < Pow256(|b|)
  {
    if b != [] {
      UnLEBound(b[1..]);
    }
  }

  lemma {:induction false} LEUnLE(x: nat, n: nat)
    requires x < Pow256(n)
    ensures UnLE(LE(x, n)) == x
  {
    if n > 0 {
      LEUnLE(x / 256, n - 1);
      assert LE(x, n)[1..] == LE(x / 256, n - 1);
    }
  }

  lemma Pow256Values()
    ensures Pow256(4) == 0x1_0000_0000 && Pow256(8) == 0x1_0000_0000_0000_0000
  {
    assert Pow256(2) == 0x1_0000;
    assert Pow256(6) == 0x1_0000_0000_0000;
  }
}
