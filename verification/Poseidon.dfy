/** Poseidon: the reduced reference of `reference/poseidon_bn254.py`, and the lazily
    reduced word arithmetic the contracts run instead. */
module Poseidon {
  import opened Powers
  import opened Field

  datatype Params = Params(p: nat, t: nat, rf: nat, rp: nat, C: seq<nat>, M: seq<seq<nat>>)

  /** Shapes and canonical constants, as the exporter writes them. */
  ghost predicate ParamsOk(P: Params) {
    && P.p > 1 && P.t >= 2
    && |P.C| == (P.rf + P.rp) * P.t
    && |P.M| == P.t && (forall i: nat | i < P.t :: |P.M[i]| == P.t)
    && (forall k: nat | k < |P.C| :: P.C[k] < P.p)
  }

  // ---- reference ----

  function Pow5(p: nat, x: nat): nat
    requires p > 0
  {
    (x * x * x * x * x) % p
  }

  function Dot(row: seq<nat>, state: seq<nat>, k: nat): nat
    requires k <= |row| && k <= |state|
  {
    if k == 0 then 0 else Dot(row, state, k - 1) + row[k - 1] * state[k - 1]
  }

  predicate FullRound(P: Params, r: nat) {
    r < P.rf / 2 || r >= P.rf / 2 + P.rp
  }

  lemma ConstantIndex(P: Params, r: nat, i: nat)
    requires ParamsOk(P) && r < P.rf + P.rp && i < P.t
    ensures r * P.t + i < |P.C|
  {
    assert (r + 1) * P.t <= (P.rf + P.rp) * P.t;
    assert (r + 1) * P.t == r * P.t + P.t;
  }

  function Constant(P: Params, r: nat, i: nat): (c: nat)
    requires ParamsOk(P) && r < P.rf + P.rp && i < P.t
    ensures c < P.p
  {
    ConstantIndex(P, r, i);
    P.C[r * P.t + i]
  }

  function AddConstants(P: Params, state: seq<nat>, r: nat): (s: seq<nat>)
    requires ParamsOk(P) && r < P.rf + P.rp && |state| == P.t
    ensures |s| == P.t
  {
    seq(P.t, i requires 0 <= i < P.t => (state[i] + Constant(P, r, i)) % P.p)
  }

  function Sbox(P: Params, state: seq<nat>, r: nat): (s: seq<nat>)
    requires ParamsOk(P) && |state| == P.t
    ensures |s| == P.t
  {
    seq(P.t, i requires 0 <= i < P.t => if i == 0 || FullRound(P, r) then Pow5(P.p, state[i]) else state[i])
  }

  function Mix(P: Params, state: seq<nat>): (s: seq<nat>)
    requires ParamsOk(P) && |state| == P.t
    ensures |s| == P.t
  {
    seq(P.t, i requires 0 <= i < P.t => Dot(P.M[i], state, P.t) % P.p)
  }

  function Round(P: Params, state: seq<nat>, r: nat): (s: seq<nat>)
    requires ParamsOk(P) && r < P.rf + P.rp && |state| == P.t
    ensures |s| == P.t
  {
    Mix(P, Sbox(P, AddConstants(P, state, r), r))
  }

  function Start(P: Params, inputs: seq<nat>): (s: seq<nat>)
    requires P.p > 0 && |inputs| == P.t - 1
    ensures |s| == P.t
  {
    [0] + seq(P.t - 1, i requires 0 <= i < P.t - 1 => inputs[i] % P.p)
  }

  /** The state after `r` rounds. */
  function State(P: Params, inputs: seq<nat>, r: nat): (s: seq<nat>)
    requires ParamsOk(P) && r <= P.rf + P.rp && |inputs| == P.t - 1
    ensures |s| == P.t
  {
    if r == 0 then Start(P, inputs) else Round(P, State(P, inputs, r - 1), r - 1)
  }

  function Hash(P: Params, inputs: seq<nat>): nat
    requires ParamsOk(P) && |inputs| == P.t - 1
  {
    State(P, inputs, P.rf + P.rp)[0]
  }

  /** The digest is always a residue. */
  lemma {:induction false} Canonical(P: Params, inputs: seq<nat>, r: nat)
    requires ParamsOk(P) && |inputs| == P.t - 1 && r <= P.rf + P.rp
    ensures forall i: nat | i < P.t :: State(P, inputs, r)[i] < P.p
  {
  }

  lemma DotStep(row: seq<nat>, state: seq<nat>, k: nat)
    requires k < |row| && k < |state|
    ensures Dot(row, state, k + 1) == Dot(row, state, k) + row[k] * state[k]
  {
  }

  /** Round `r`'s constants on every lane. */
  method WithConstants(P: Params, state: seq<nat>, r: nat) returns (added: seq<nat>)
    requires ParamsOk(P) && r < P.rf + P.rp && |state| == P.t
    ensures added == AddConstants(P, state, r)
  {
    added := [];
    for i := 0 to P.t
      invariant added == AddConstants(P, state, r)[..i]
    {
      ConstantIndex(P, r, i);
      added := added + [(state[i] + P.C[r * P.t + i]) % P.p];
    }
  }

  /** The fifth power, on every lane in a full round and on the first alone otherwise. */
  method Boxes(P: Params, state: seq<nat>, r: nat) returns (boxed: seq<nat>)
    requires ParamsOk(P) && |state| == P.t
    ensures boxed == Sbox(P, state, r)
  {
    var x := state[0];
    boxed := state[0 := (x * x * x * x * x) % P.p];
    if r < P.rf / 2 || r >= P.rf / 2 + P.rp {
      boxed := seq(P.t, i requires 0 <= i < P.t => Pow5(P.p, state[i]));
    }
  }

  /** The matrix applied to the lanes, row by row. */
  method Mixed(P: Params, state: seq<nat>) returns (mixed: seq<nat>)
    requires ParamsOk(P) && |state| == P.t
    ensures mixed == Mix(P, state)
  {
    mixed := [];
    for i := 0 to P.t
      invariant mixed == Mix(P, state)[..i]
    {
      var sum := 0;
      for j := 0 to P.t
        invariant sum == Dot(P.M[i], state, j)
      {
        DotStep(P.M[i], state, j);
        sum := sum + P.M[i][j] * state[j];
      }
      mixed := mixed + [sum % P.p];
    }
  }

  /** The reference loop: every lane is reduced at every step. */
  method Reference(P: Params, inputs: seq<nat>) returns (out: nat)
    requires ParamsOk(P) && |inputs| == P.t - 1
    ensures out == Hash(P, inputs) && out < P.p
  {
    var state := [0] + seq(|inputs|, i requires 0 <= i < |inputs| => inputs[i] % P.p);
    for r := 0 to P.rf + P.rp
      invariant state == State(P, inputs, r)
    {
      state := WithConstants(P, state, r);
      state := Boxes(P, state, r);
      state := Mixed(P, state);
    }
    Canonical(P, inputs, P.rf + P.rp);
    out := state[0];
  }

  /** A row of the mix, written out for the two widths in use. */
  lemma RowWritten(row: seq<nat>, y: seq<nat>)
    requires |row| == |y|
    ensures |row| == 3 ==> Dot(row, y, 3) == row[0] * y[0] + row[1] * y[1] + row[2] * y[2]
    ensures |row| == 4 ==> Dot(row, y, 4) == row[0] * y[0] + row[1] * y[1] + row[2] * y[2] + row[3] * y[3]
  {
    if |row| >= 3 {
      DotStep(row, y, 0);
      DotStep(row, y, 1);
      DotStep(row, y, 2);
      if |row| >= 4 { DotStep(row, y, 3); }
    }
  }

  /** One lane behind its constant and S-box: the fifth power on the first lane always, on
      the others in the first and last `rf / 2` rounds. */
  function Boxed(P: Params, x: nat, r: nat, i: nat): nat
    requires ParamsOk(P) && r < P.rf + P.rp && i < P.t
  {
    ConstantIndex(P, r, i);
    var v := (x + P.C[r * P.t + i]) % P.p;
    if i == 0 || r < P.rf / 2 || P.rf / 2 + P.rp <= r then (v * v * v * v * v) % P.p else v
  }

  /** One round, written out for the two widths in use. */
  lemma RoundWritten(P: Params, s: seq<nat>, r: nat, i: nat)
    requires ParamsOk(P) && r < P.rf + P.rp && |s| == P.t && i < P.t
    ensures var m, y := P.M[i], seq(P.t, j requires 0 <= j < P.t => Boxed(P, s[j], r, j));
            && (P.t == 3 ==> Round(P, s, r)[i] == (m[0] * y[0] + m[1] * y[1] + m[2] * y[2]) % P.p)
            && (P.t == 4 ==> Round(P, s, r)[i] == (m[0] * y[0] + m[1] * y[1] + m[2] * y[2] + m[3] * y[3]) % P.p)
  {
    var y := seq(P.t, j requires 0 <= j < P.t => Boxed(P, s[j], r, j));
    assert Sbox(P, AddConstants(P, s, r), r) == y;
    RowWritten(P.M[i], y);
  }

  /** The digest: the inputs, reduced, behind a zero; `rf + rp` rounds; the first lane. */
  lemma HashWritten(P: Params, inputs: seq<nat>, r: nat, i: nat)
    requires ParamsOk(P) && |inputs| == P.t - 1 && r < P.rf + P.rp && i < |inputs|
    ensures State(P, inputs, 0)[0] == 0 && State(P, inputs, 0)[i + 1] == inputs[i] % P.p
    ensures State(P, inputs, r + 1) == Round(P, State(P, inputs, r), r)
    ensures Hash(P, inputs) == State(P, inputs, P.rf + P.rp)[0]
  {
  }

  // ---- words ----

  function Add(a: nat, b: nat): nat { (a + b) % WORD }

  function MulMod(a: nat, b: nat, m: nat): nat { if m == 0 then 0 else (a * b) % m }

  /** `k * p` by repeated addition, which keeps the lane bounds linear. */
  ghost function Times(k: nat, p: nat): nat {
    if k == 0 then 0 else Times(k - 1, p) + p
  }

  lemma {:induction false} TimesIsProduct(k: nat, p: nat)
    ensures Times(k, p) == k * p
  {
    if k == 0 {
    } else {
      TimesIsProduct(k - 1, p);
      assert (k - 1) * p + p == k * p;
    }
  }

  lemma {:induction false} TimesMonotone(j: nat, k: nat, p: nat)
    requires j <= k
    ensures Times(j, p) <= Times(k, p)
  {
    if j == k {
    } else {
      TimesMonotone(j, k - 1, p);
    }
  }

  /** A lane holds a word below `bound * p` standing for the residue `v`. */
  ghost predicate Lane(p: nat, bound: nat, word: nat, v: nat)
    requires p > 0
  {
    word < Times(bound, p) && word % p == v
  }

  /** Adding a round constant needs no reduction while `(t + 1) * p` fits a word. */
  lemma LaneAdd(p: nat, t: nat, word: nat, v: nat, c: nat)
    requires p > 0 && Times(t + 1, p) <= WORD && Lane(p, t, word, v) && c < p
    ensures Add(word, c) == word + c
    ensures Lane(p, t + 1, Add(word, c), (v + c) % p)
  {
    SmallMod(word + c, WORD);
    ModAdd(word, c, p);
  }

  lemma Associate(v: int)
    ensures v * v * (v * v) * v == v * v * v * v * v
  {
  }

  /** `mulmod` reduces whatever it is given, so the fifth power comes out canonical. */
  lemma LanePow5(p: nat, word: nat, v: nat)
    requires p > 0 && word % p == v
    ensures var sq := MulMod(word, word, p); MulMod(MulMod(sq, sq, p), word, p) == Pow5(p, v)
  {
    var x := word;
    SmallMod(v, p);
    ModMul(x * x, x * x, p);
    MulCong(x, v, x, v, p);
    MulCong(x * x, v * v, x * x, v * v, p);
    ModMulLeft(x * x * (x * x), x, p);
    MulCong(x * x * (x * x), v * v * (v * v), x, v, p);
    Associate(v);
  }

  /** One term of a mix row. */
  lemma TermMod(p: nat, m: nat, word: nat, v: nat)
    requires p > 0 && word % p == v
    ensures MulMod(m, word, p) == (m * v) % p
  {
    ModMulRight(m, word, p);
  }

  /** A partial row sum of `k` terms stays below `k * p`, so `add` never wraps. */
  lemma RowAdd(p: nat, k: nat, acc: nat, sum: nat, m: nat, word: nat, v: nat)
    requires p > 0 && Times(k + 1, p) <= WORD && acc % p == sum % p && acc <= Times(k, p) && word % p == v
    ensures Add(acc, MulMod(m, word, p)) == acc + MulMod(m, word, p)
    ensures acc + MulMod(m, word, p) < Times(k + 1, p)
    ensures (acc + MulMod(m, word, p)) % p == (sum + m * v) % p
  {
    TermMod(p, m, word, v);
    var term := (m * v) % p;
    SmallMod(acc + term, WORD);
    ModAdd(acc, term, p);
    ModAdd(sum, term, p);
    ModAdd(m * v, sum, p);
  }
}
