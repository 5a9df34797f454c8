/** Powers of two and of 256, and the word and value bounds they name. */
module Powers {
  function Pow2(n: nat): (r: nat)
    ensures r > 0
  {
    if n == 0 then 1 else 2 * Pow2(n - 1)
  }

  const MAX_VALUE: nat := 0x1_0000_0000_0000_0000_0000_0000_0000_0000
  const WORD: nat := 0x1_0000_0000_0000_0000_0000_0000_0000_0000_0000_0000_0000_0000_0000_0000_0000_0000

  lemma {:induction false} Pow2Add(a: nat, b: nat)
    ensures Pow2(a + b) == Pow2(a) * Pow2(b)
  {
    if a == 0 {
    } else {
      Pow2Add(a - 1, b);
    }
  }

  lemma Pow2Square(n: nat, v: nat, m: nat)
    requires Pow2(n) == v && m == 2 * n
    ensures Pow2(m) == v * v
  {
    Pow2Add(n, n);
  }

  lemma Pow2Bounds(n: nat)
    ensures n == 8 ==> Pow2(n) == 256
    ensures n == 128 ==> Pow2(n) == MAX_VALUE
    ensures n == 256 ==> Pow2(n) == WORD
  {
    Pow2Square(1, 2, 2);
    Pow2Square(2, 4, 4);
    Pow2Square(4, 16, 8);
    Pow2Square(8, 256, 16);
    Pow2Square(16, 0x1_0000, 32);
    Pow2Square(32, 0x1_0000_0000, 64);
    Pow2Square(64, 0x1_0000_0000_0000_0000, 128);
    Pow2Square(128, MAX_VALUE, 256);
  }

  function Pow256(k: nat): (r: nat)
    ensures r > 0
  {
    if k == 0 then 1 else 256 * Pow256(k - 1)
  }

  lemma {:induction false} Pow256IsPow2(k: nat)
    ensures Pow256(k) == Pow2(8 * k)
  {
    if k == 0 {
    } else {
      Pow256IsPow2(k - 1);
      Pow2Add(8, 8 * (k - 1));
      Pow2Bounds(8);
    }
  }

  const WORD64: nat := 0x1_0000_0000_0000_0000
  const ADDRESS_SPACE: nat := 0x1_0000_0000_0000_0000_0000_0000_0000_0000_0000_0000

  lemma Pow2Halves(n: nat)
    ensures n == 32 ==> Pow2(n) == 0x1_0000_0000
    ensures n == 64 ==> Pow2(n) == WORD64
  {
    Pow2Bounds(8);
    Pow2Square(8, 256, 16);
    Pow2Square(16, 0x1_0000, 32);
    Pow2Square(32, 0x1_0000_0000, 64);
  }

  lemma Pow2Sum(a: nat, x: nat, b: nat, y: nat, n: nat)
    requires (a == 128 && x == MAX_VALUE) || (a == 64 && x == WORD64)
    requires (b == 32 && y == 0x1_0000_0000) || (b == 96 && Pow2(b) == y)
    requires n == a + b
    ensures Pow2(n) == x * y
  {
    Pow2Bounds(a);
    Pow2Halves(a);
    Pow2Halves(b);
    Pow2Add(a, b);
  }

  /** The byte widths the system uses: selectors, slots, addresses, what follows a
      selector in a word, and whole words. */
  lemma Pow256Values(k: nat)
    ensures k == 4 ==> Pow256(k) == 0x1_0000_0000
    ensures k == 8 ==> Pow256(k) == WORD64
    ensures k == 20 ==> Pow256(k) == ADDRESS_SPACE
    ensures k == 28 ==> Pow256(k) == 0x1_0000_0000_0000_0000_0000_0000_0000_0000_0000_0000_0000_0000_0000_0000
    ensures k == 32 ==> Pow256(k) == WORD
  {
    Pow256IsPow2(k);
    Pow2Bounds(8 * k);
    Pow2Halves(8 * k);
    if k == 20 { Pow2Sum(128, MAX_VALUE, 32, 0x1_0000_0000, 8 * k); }
    if k == 28 {
      Pow2Sum(64, WORD64, 32, 0x1_0000_0000, 96);
      Pow2Sum(128, MAX_VALUE, 96, 0x1_0000_0000_0000_0000_0000_0000, 8 * k);
    }
  }
}
