/** Arithmetic modulo a prime, as far as the circuit needs it: inverses, hence no
    zero divisors, and the passage from congruences back to integers. */
module Field {
  ghost predicate Prime(p: nat) {
    p > 1 && forall d: nat | 1 < d < p :: p % d != 0
  }

  // ---- remainders ----

  lemma DivMod(a: int, p: nat)
    requires p > 0
    ensures a == (a / p) * p + a % p && 0 <= a % p < p
  {
  }

  lemma MultipleGrows(k: int, p: int)
    requires p > 0
    ensures k >= 1 ==> k * p >= p
    ensures k <= -1 ==> k * p <= -p
  {
  }

  lemma ModUnique(a: int, q: int, r: int, p: nat)
    requires p > 0 && 0 <= r < p && a == q * p + r
    ensures a % p == r
  {
    var d := a / p - q;
    assert d * p == r - a % p by {
      calc {
        d * p;
        (a / p) * p - q * p;
        a - a % p - q * p;
      }
    }
    MultipleGrows(d, p);
  }

  lemma SmallMod(x: int, p: nat)
    requires 0 <= x < p
    ensures x % p == x
  {
  }

  /** Adding a multiple of the modulus changes no remainder. */
  lemma ModShift(a: int, k: int, p: nat)
    requires p > 0
    ensures (a + k * p) % p == a % p
  {
    var q := a / p;
    assert a + k * p == (q + k) * p + a % p;
    ModUnique(a + k * p, q + k, a % p, p);
  }

  lemma ModMulLeft(a: int, b: int, p: nat)
    requires p > 0
    ensures (a % p * b) % p == (a * b) % p
  {
    var k := a / p;
    assert a * b == a % p * b + (k * b) * p by {
      calc {
        a * b;
        (k * p + a % p) * b;
        k * p * b + a % p * b;
        (k * b) * p + a % p * b;
      }
    }
    ModShift(a % p * b, k * b, p);
  }

  lemma ModMul(a: int, b: int, p: nat)
    requires p > 0
    ensures ((a % p) * (b % p)) % p == (a * b) % p
  {
    ModMulLeft(a, b, p);
    assert a % p * b == b * (a % p) && (b % p) * (a % p) == (a % p) * (b % p);
    ModMulLeft(b, a % p, p);
  }

  lemma ModAdd(a: int, b: int, p: nat)
    requires p > 0
    ensures (a % p + b) % p == (a + b) % p
  {
    assert a + b == a % p + b + (a / p) * p;
    ModShift(a % p + b, a / p, p);
  }

  lemma Commute(a: int, b: int)
    ensures a * b == b * a
  {
  }

  lemma ModMulRight(a: int, b: int, p: nat)
    requires p > 0
    ensures (a * (b % p)) % p == (a * b) % p
  {
    ModMulLeft(b, a, p);
    Commute(b % p, a);
    Commute(b, a);
  }

  /** Congruent factors give congruent products. */
  lemma MulCong(a: int, b: int, c: int, d: int, p: nat)
    requires p > 0 && a % p == b % p && c % p == d % p
    ensures (a * c) % p == (b * d) % p
  {
    ModMul(a, c, p);
    ModMul(b, d, p);
  }

  /** Congruent and both below the modulus: equal. */
  lemma SmallCongruent(a: nat, b: nat, p: nat)
    requires p > 0 && a < p && b < p && (a - b) % p == 0
    ensures a == b
  {
  }

  // ---- inverses ----

  lemma InverseStep(p: nat, a: int, q: int, r: int, s: int)
    requires p > 1 && p == q * a + r && (r * s) % p == 1
    ensures (a * ((-q * s) % p)) % p == 1
  {
    var k := (r * s) / p;
    assert a * (-q * s) == (k - s) * p + 1 by {
      calc {
        a * (-q * s);
        -(q * a) * s;
        -(p - r) * s;
        r * s - p * s;
        (k * p + 1) - s * p;
        (k - s) * p + 1;
      }
    }
    ModUnique(a * (-q * s), k - s, 1, p);
    ModMulLeft(-q * s, a, p);
    assert (-q * s) % p * a == a * ((-q * s) % p) && (-q * s) * a == a * (-q * s);
  }

  /** The inverse of a nonzero residue, by descent on remainders of the modulus. */
  function Inverse(p: nat, a: nat): (s: nat)
    requires Prime(p) && 0 < a < p
    ensures s < p && (a * s) % p == 1
    decreases a
  {
    if a == 1 then 1
    else
      var q: int, r: nat := p / a, p % a;
      assert p == q * a + r;
      var s := Inverse(p, r);
      var t := (-q * s) % p;
      InverseStep(p, a, q, r, s);
      t
  }

  lemma Rearrange(b: int, c: int, s: int, k: int, m: int, p: int)
    requires c * b == k * p && c * s == m * p + 1
    ensures b == (s * k - m * b) * p
  {
  }

  lemma CancelUnit(p: nat, c: int, s: int, b: int)
    requires p > 1 && (c * s) % p == 1 && (c * b) % p == 0
    ensures b % p == 0
  {
    var k, m := (c * b) / p, (c * s) / p;
    DivMod(c * b, p);
    DivMod(c * s, p);
    Rearrange(b, c, s, k, m, p);
    ModUnique(b, s * k - m * b, 0, p);
  }

  /** Euclid's lemma, from primality alone. */
  lemma NoZeroDivisors(p: nat, a: int, b: int)
    requires Prime(p) && (a * b) % p == 0
    ensures a % p == 0 || b % p == 0
  {
    if a % p != 0 {
      var c := a % p;
      var s := Inverse(p, c);
      ModMulLeft(a, b, p);
      CancelUnit(p, c, s, b);
    }
  }
}
