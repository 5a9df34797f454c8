/** The join-split circuit (`circuits/spend.circom`) as the constraint relation it
    compiles to, over residues of a prime `p`, and the integer statement it proves.
    `Exact` says the two coincide. */
module Circuit {
  import opened Merkle
  import opened Powers
  import opened Field

  /** Poseidon with two and with three inputs, as the rest of the system sees it. */
  datatype Hasher = Hasher(h2: Hash2, h3: (nat, nat, nat) -> nat)

  ghost predicate HashOk(H: Hasher, p: nat) {
    && (forall a, b :: H.h2(a, b) < p)
    && (forall a, b, c :: H.h3(a, b, c) < p)
  }

  /** The nine public signals, in the verifier's order. */
  datatype Public = Public(nf1: nat, nf2: nat, outCm1: nat, outCm2: nat, root: nat,
                           domain: nat, publicAmount: nat, fee: nat, ctx: nat)

  datatype InputNote = InputNote(spendKey: nat, rho: nat, value: nat, siblings: seq<nat>, bits: seq<nat>)

  datatype Witness = Witness(in1: InputNote, in2: InputNote, outInner1: nat, outInner2: nat,
                             outValue1: nat, outValue2: nat)

  /** Signals the prover fills in besides the inputs: six bit decompositions and the
      inverse inside the equality gadget. */
  datatype Hints = Hints(range: seq<seq<nat>>, inverse: nat)

  // ---- note cryptography ----

  function Inner(H: Hasher, spendKey: nat, rho: nat): nat {
    H.h2(H.h3(1, spendKey, 0), rho)
  }

  function Commitment(H: Hasher, inner: nat, value: nat): nat {
    H.h3(2, inner, value)
  }

  function NoteCm(H: Hasher, n: InputNote): nat {
    Commitment(H, Inner(H, n.spendKey, n.rho), n.value)
  }

  function Nullifier(H: Hasher, domain: nat, spendKey: nat, cm: nat): nat {
    H.h3(3, H.h2(domain, spendKey), cm)
  }

  function NoteNf(H: Hasher, domain: nat, n: InputNote): nat {
    Nullifier(H, domain, n.spendKey, NoteCm(H, n))
  }

  // ---- constraints ----

  ghost predicate Boolean(p: nat, b: nat)
    requires p > 0
  {
    (b * (b - 1)) % p == 0
  }

  /** A nonzero value forces the folded path to the root. */
  ghost predicate MembershipGate(p: nat, cur: nat, root: nat, value: nat)
    requires p > 0
  {
    ((cur - root) * value) % p == 0
  }

  /** The `cur` signal after `l` levels: selection by a direction bit is arithmetic. */
  ghost function Cur(H: Hasher, p: nat, n: InputNote, l: nat): nat
    requires p > 0 && l <= |n.siblings| && l <= |n.bits|
  {
    if l == 0 then NoteCm(H, n)
    else
      var cur, sib, b := Cur(H, p, n, l - 1), n.siblings[l - 1], n.bits[l - 1];
      H.h2((cur + b * (sib - cur)) % p, (sib + b * (cur - sib)) % p)
  }

  ghost predicate InputConstraints(H: Hasher, p: nat, d: nat, n: InputNote, root: nat, domain: nat, nf: nat)
    requires p > 0
  {
    && |n.siblings| == |n.bits| == d
    && (forall i: nat | i < d :: Boolean(p, n.bits[i]))
    && MembershipGate(p, Cur(H, p, n, d), root, n.value)
    && nf == NoteNf(H, domain, n)
  }

  /** `Num2Bits(128)`. */
  ghost predicate RangeConstraints(p: nat, v: nat, bits: seq<nat>)
    requires p > 0
  {
    && |bits| == 128
    && (forall i: nat | i < 128 :: bits[i] < p && Boolean(p, bits[i]))
    && BitsIndex(bits, 0) % p == v
  }

  /** `IsEqual` on the two nullifiers, constrained to answer zero. */
  ghost predicate DistinctConstraints(p: nat, nf1: nat, nf2: nat, inverse: nat)
    requires p > 0
  {
    var diff := nf2 - nf1;
    var out := (1 - diff * inverse) % p;
    (diff * out) % p == 0 && out == 0
  }

  function RangeChecked(pub: Public, w: Witness): seq<nat> {
    [w.in1.value, w.in2.value, w.outValue1, w.outValue2, pub.publicAmount, pub.fee]
  }

  /** Every signal is a residue. */
  ghost predicate CanonicalNote(p: nat, n: InputNote) {
    && n.spendKey < p && n.rho < p && n.value < p
    && (forall i: nat | i < |n.siblings| :: n.siblings[i] < p)
    && (forall i: nat | i < |n.bits| :: n.bits[i] < p)
  }

  ghost predicate Canonical(p: nat, pub: Public, w: Witness) {
    && pub.nf1 < p && pub.nf2 < p && pub.outCm1 < p && pub.outCm2 < p && pub.root < p
    && pub.domain < p && pub.publicAmount < p && pub.fee < p && pub.ctx < p
    && CanonicalNote(p, w.in1) && CanonicalNote(p, w.in2)
    && w.outInner1 < p && w.outInner2 < p && w.outValue1 < p && w.outValue2 < p
  }

  ghost predicate Satisfies(H: Hasher, p: nat, d: nat, pub: Public, w: Witness, hints: Hints)
    requires p > 0
  {
    && Canonical(p, pub, w) && hints.inverse < p
    && InputConstraints(H, p, d, w.in1, pub.root, pub.domain, pub.nf1)
    && InputConstraints(H, p, d, w.in2, pub.root, pub.domain, pub.nf2)
    && pub.outCm1 == Commitment(H, w.outInner1, w.outValue1)
    && pub.outCm2 == Commitment(H, w.outInner2, w.outValue2)
    && |hints.range| == 6
    && (forall k: nat | k < 6 :: RangeConstraints(p, RangeChecked(pub, w)[k], hints.range[k]))
    && (w.in1.value + w.in2.value) % p == (w.outValue1 + w.outValue2 + pub.publicAmount + pub.fee) % p
    && DistinctConstraints(p, pub.nf1, pub.nf2, hints.inverse)
  }

  // ---- the statement over the integers ----

  /** An input is a real note under the anchored root, or worth nothing. */
  ghost predicate InputStatement(H: Hasher, d: nat, n: InputNote, root: nat, domain: nat, nf: nat) {
    && |n.siblings| == |n.bits| == d && Bits(n.bits)
    && nf == NoteNf(H, domain, n)
    && (n.value != 0 ==> FoldTo(H.h2, NoteCm(H, n), n.siblings, n.bits, d) == root)
  }

  ghost predicate Statement(H: Hasher, d: nat, pub: Public, w: Witness) {
    && InputStatement(H, d, w.in1, pub.root, pub.domain, pub.nf1)
    && InputStatement(H, d, w.in2, pub.root, pub.domain, pub.nf2)
    && pub.outCm1 == Commitment(H, w.outInner1, w.outValue1)
    && pub.outCm2 == Commitment(H, w.outInner2, w.outValue2)
    && (forall k: nat | k < 6 :: RangeChecked(pub, w)[k] < MAX_VALUE)
    && w.in1.value + w.in2.value == w.outValue1 + w.outValue2 + pub.publicAmount + pub.fee
    && pub.nf1 != pub.nf2
  }

  // ---- soundness ----

  lemma Scale(b: nat, x: int)
    requires b <= 1
    ensures b * x == if b == 0 then 0 else x
  {
  }

  /** A bit selects its two operands in one order or the other. */
  lemma Select(p: nat, cur: nat, sib: nat, b: nat)
    requires cur < p && sib < p && b <= 1
    ensures (cur + b * (sib - cur)) % p == if b == 0 then cur else sib
    ensures (sib + b * (cur - sib)) % p == if b == 0 then sib else cur
  {
    SmallMod(cur, p);
    SmallMod(sib, p);
    Scale(b, sib - cur);
    Scale(b, cur - sib);
  }

  lemma FoldStep(h: Hash2, leaf: nat, sibs: seq<nat>, bits: seq<nat>, l: nat)
    requires l < |sibs| && l < |bits|
    ensures var cur := FoldTo(h, leaf, sibs, bits, l);
            FoldTo(h, leaf, sibs, bits, l + 1) == if bits[l] == 0 then h(cur, sibs[l]) else h(sibs[l], cur)
  {
  }

  lemma {:induction false} CurIsFold(H: Hasher, p: nat, n: InputNote, l: nat)
    requires p > 0 && HashOk(H, p) && CanonicalNote(p, n)
    requires |n.siblings| == |n.bits| && l <= |n.bits| && Bits(n.bits)
    ensures Cur(H, p, n, l) == FoldTo(H.h2, NoteCm(H, n), n.siblings, n.bits, l) < p
  {
    if l == 0 {
    } else {
      CurIsFold(H, p, n, l - 1);
      var cur, sib, b := Cur(H, p, n, l - 1), n.siblings[l - 1], n.bits[l - 1];
      Select(p, cur, sib, b);
      FoldStep(H.h2, NoteCm(H, n), n.siblings, n.bits, l - 1);
    }
  }

  lemma BooleanIsBit(p: nat, b: nat)
    requires Prime(p) && b < p && Boolean(p, b)
    ensures b <= 1
  {
    NoZeroDivisors(p, b, b - 1);
  }

  lemma BitsSound(p: nat, bits: seq<nat>)
    requires Prime(p) && forall i: nat | i < |bits| :: bits[i] < p && Boolean(p, bits[i])
    ensures Bits(bits)
  {
    forall i: nat | i < |bits| ensures bits[i] <= 1 { BooleanIsBit(p, bits[i]); }
  }

  lemma GateSound(p: nat, cur: nat, root: nat, value: nat)
    requires Prime(p) && cur < p && root < p && value < p && MembershipGate(p, cur, root, value)
    ensures value != 0 ==> cur == root
  {
    if value != 0 {
      NoZeroDivisors(p, cur - root, value);
      SmallMod(value, p);
      SmallCongruent(cur, root, p);
    }
  }

  lemma InputSound(H: Hasher, p: nat, d: nat, n: InputNote, root: nat, domain: nat, nf: nat)
    requires Prime(p) && HashOk(H, p) && CanonicalNote(p, n) && root < p
    requires InputConstraints(H, p, d, n, root, domain, nf)
    ensures InputStatement(H, d, n, root, domain, nf)
  {
    BitsSound(p, n.bits);
    CurIsFold(H, p, n, d);
    GateSound(p, Cur(H, p, n, d), root, n.value);
  }

  lemma RangeSound(p: nat, v: nat, bits: seq<nat>)
    requires Prime(p) && p >= MAX_VALUE && RangeConstraints(p, v, bits)
    ensures v < MAX_VALUE
  {
    BitsSound(p, bits);
    BitsIndexBound(bits, 0);
    Pow2Bounds(|bits|);
  }

  lemma DistinctSound(p: nat, nf1: nat, nf2: nat, inverse: nat)
    requires p > 1 && DistinctConstraints(p, nf1, nf2, inverse)
    ensures nf1 != nf2
  {
  }

  lemma NoWrap(p: nat, a: nat, b: nat)
    requires p > 0 && a < p && b < p && a % p == b % p
    ensures a == b
  {
  }

  lemma Soundness(H: Hasher, p: nat, d: nat, pub: Public, w: Witness, hints: Hints)
    requires Prime(p) && p >= 4 * MAX_VALUE && HashOk(H, p)
    requires Satisfies(H, p, d, pub, w, hints)
    ensures Statement(H, d, pub, w)
    ensures pub.nf1 == H.h3(3, H.h2(pub.domain, w.in1.spendKey),
                            H.h3(2, H.h2(H.h3(1, w.in1.spendKey, 0), w.in1.rho), w.in1.value))
    ensures pub.nf2 == H.h3(3, H.h2(pub.domain, w.in2.spendKey),
                            H.h3(2, H.h2(H.h3(1, w.in2.spendKey, 0), w.in2.rho), w.in2.value))
    ensures pub.outCm1 == H.h3(2, w.outInner1, w.outValue1) && pub.outCm2 == H.h3(2, w.outInner2, w.outValue2)
    ensures w.in1.value + w.in2.value == w.outValue1 + w.outValue2 + pub.publicAmount + pub.fee
    ensures w.in1.value < MAX_VALUE && w.in2.value < MAX_VALUE && w.outValue1 < MAX_VALUE && w.outValue2 < MAX_VALUE
    ensures pub.publicAmount < MAX_VALUE && pub.fee < MAX_VALUE
  {
    InputSound(H, p, d, w.in1, pub.root, pub.domain, pub.nf1);
    InputSound(H, p, d, w.in2, pub.root, pub.domain, pub.nf2);
    var vals := RangeChecked(pub, w);
    forall k: nat | k < 6 ensures vals[k] < MAX_VALUE { RangeSound(p, vals[k], hints.range[k]); }
    assert vals[0] < MAX_VALUE && vals[1] < MAX_VALUE && vals[2] < MAX_VALUE;
    assert vals[3] < MAX_VALUE && vals[4] < MAX_VALUE && vals[5] < MAX_VALUE;
    NoWrap(p, vals[0] + vals[1], vals[2] + vals[3] + vals[4] + vals[5]);
    DistinctSound(p, pub.nf1, pub.nf2, hints.inverse);
  }

  // ---- completeness ----

  function ToBits(v: nat, k: nat): (bits: seq<nat>)
    ensures |bits| == k
  {
    if k == 0 then [] else [v % 2] + ToBits(v / 2, k - 1)
  }

  lemma BitsComplete(p: nat, bits: seq<nat>)
    requires p > 1 && Bits(bits)
    ensures forall i: nat | i < |bits| :: bits[i] < p && Boolean(p, bits[i])
  {
  }

  lemma GateComplete(p: nat, cur: nat, root: nat, value: nat)
    requires p > 1 && (value != 0 ==> cur == root)
    ensures MembershipGate(p, cur, root, value)
  {
  }

  lemma InputComplete(H: Hasher, p: nat, d: nat, n: InputNote, root: nat, domain: nat, nf: nat)
    requires p > 1 && HashOk(H, p) && CanonicalNote(p, n)
    requires InputStatement(H, d, n, root, domain, nf)
    ensures InputConstraints(H, p, d, n, root, domain, nf)
  {
    CurIsFold(H, p, n, d);
    BitsComplete(p, n.bits);
    GateComplete(p, Cur(H, p, n, d), root, n.value);
  }

  lemma {:induction false} BitsIndexTail(b: nat, tail: seq<nat>, l: nat)
    requires l <= |tail|
    ensures BitsIndex([b] + tail, l + 1) == BitsIndex(tail, l)
    decreases |tail| - l
  {
    if l == |tail| {
    } else {
      BitsIndexTail(b, tail, l + 1);
    }
  }

  lemma {:induction false} ToBitsMeaning(v: nat, k: nat)
    requires v < Pow2(k)
    ensures BitsIndex(ToBits(v, k), 0) == v && Bits(ToBits(v, k))
  {
    if k == 0 {
    } else {
      ToBitsMeaning(v / 2, k - 1);
      var tail := ToBits(v / 2, k - 1);
      BitsIndexTail(v % 2, tail, 0);
    }
  }

  lemma RangeComplete(p: nat, v: nat)
    requires p >= MAX_VALUE && v < MAX_VALUE && p > 1
    ensures RangeConstraints(p, v, ToBits(v, 128))
  {
    var bits := ToBits(v, 128);
    Pow2Bounds(|bits|);
    ToBitsMeaning(v, |bits|);
    SmallMod(v, p);
    BitsComplete(p, bits);
  }

  lemma OneMinus(x: int, p: nat)
    requires p > 1 && x % p == 1
    ensures (1 - x) % p == 0
  {
    var k := x / p;
    assert 1 - x == (-k) * p;
    ModUnique(1 - x, -k, 0, p);
  }

  lemma UnitMeansDistinct(p: nat, diff: int, inverse: nat)
    requires p > 1 && (diff % p * inverse) % p == 1
    ensures var out := (1 - diff * inverse) % p; (diff * out) % p == 0 && out == 0
  {
    ModMulLeft(diff, inverse, p);
    OneMinus(diff * inverse, p);
    assert diff * 0 == 0;
  }

  lemma DistinctComplete(p: nat, nf1: nat, nf2: nat) returns (inverse: nat)
    requires Prime(p) && nf1 < p && nf2 < p && nf1 != nf2
    ensures inverse < p && DistinctConstraints(p, nf1, nf2, inverse)
  {
    var diff := nf2 - nf1;
    var a := diff % p;
    if a == 0 { SmallCongruent(nf2, nf1, p); }
    inverse := Inverse(p, a);
    UnitMeansDistinct(p, diff, inverse);
  }

  /** Hints an honest prover computes. */
  lemma Complete(H: Hasher, p: nat, d: nat, pub: Public, w: Witness) returns (hints: Hints)
    requires Prime(p) && p >= 4 * MAX_VALUE && HashOk(H, p)
    requires Canonical(p, pub, w) && Statement(H, d, pub, w)
    ensures Satisfies(H, p, d, pub, w, hints)
  {
    InputComplete(H, p, d, w.in1, pub.root, pub.domain, pub.nf1);
    InputComplete(H, p, d, w.in2, pub.root, pub.domain, pub.nf2);
    var vals := RangeChecked(pub, w);
    var range := seq(6, k requires 0 <= k < 6 => ToBits(vals[k], 128));
    forall k: nat | k < 6 ensures RangeConstraints(p, vals[k], range[k]) { RangeComplete(p, vals[k]); }
    var inverse := DistinctComplete(p, pub.nf1, pub.nf2);
    hints := Hints(range, inverse);
  }

  /** The circuit is exact: over a prime field with room for four 128-bit values, the
      constraints can be met with some hints precisely when the signals are residues
      and the integer statement holds. */
  lemma Exact(H: Hasher, p: nat, d: nat, pub: Public, w: Witness)
    requires Prime(p) && p >= 4 * MAX_VALUE && HashOk(H, p)
    ensures (exists hints :: Satisfies(H, p, d, pub, w, hints)) <==> Canonical(p, pub, w) && Statement(H, d, pub, w)
  {
    if hints :| Satisfies(H, p, d, pub, w, hints) {
      Soundness(H, p, d, pub, w, hints);
    }
    if Canonical(p, pub, w) && Statement(H, d, pub, w) {
      var hints := Complete(H, p, d, pub, w);
    }
  }
}
