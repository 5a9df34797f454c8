/** The two deployed Poseidon loops (`contracts/src/PoseidonT3.sol`, `PoseidonT4.sol`),
    lane variables and all, on wrapping words. */
module PoseidonWords {
  import opened Powers
  import opened Field
  import opened Bytes
  import opened Poseidon
  import opened PoseidonYul

  const BN254: nat := 21888242871839275222246405745257275088548364400416034343698204186575808495617

  /** Five lazy sums over this field fit a word, six do not. */
  lemma WidthFourIsTight()
    ensures 5 * BN254 <= WORD < 6 * BN254
  {
  }

  /** Over this field the lazy sums fit exactly up to width four: the two deployed loops
      are within the bound, and a wider one would not be. */
  lemma DeployedWidths(P: Params)
    requires ParamsOk(P) && P.p == BN254 && P.rf / 2 + P.rp >= 1 && P.rf + P.rp < WORD
    ensures GenOk(P) <==> P.t <= 4
  {
    WidthFourIsTight();
    if P.t <= 4 {
      TimesMonotone(P.t + 1, 5, P.p);
      TimesIsProduct(5, P.p);
    } else {
      TimesMonotone(6, P.t + 1, P.p);
      TimesIsProduct(6, P.p);
    }
  }

  /** `n := mulmod(s, s, p)  s := mulmod(mulmod(n, n, p), s, p)` */
  method Fifth(p: nat, s: nat) returns (n: nat, fifth: nat)
    requires p > 0
    ensures fifth == Pow5(p, s % p) < p
  {
    n := MulMod(s, s, p);
    fifth := MulMod(MulMod(n, n, p), s, p);
    LanePow5(p, s, s % p);
  }

  lemma WordBehind(P: Params, mem: seq<Byte>, c: nat, cp: nat, base: nat, i: nat)
    requires BlobAt(P, c, mem) && base + i < |P.C| && cp == c + 32 + 32 * base
    ensures WordAt(mem, Add(cp, 32 * i)) == P.C[base + i]
  {
    SmallMod(cp + 32 * i, WORD);
    assert cp + 32 * i == c + 32 + 32 * (base + i);
  }

  /** The word behind the constant pointer, lane by lane. */
  lemma ConstantRead(P: Params, mem: seq<Byte>, c: nat, cp: nat, r: nat, i: nat)
    requires GenOk(P) && BlobAt(P, c, mem) && r < P.rf + P.rp && i < P.t && cp == c + 32 + 32 * (r * P.t)
    ensures WordAt(mem, Add(cp, 32 * i)) == Constant(P, r, i)
  {
    ConstantIndex(P, r, i);
    WordBehind(P, mem, c, cp, r * P.t, i);
  }

  /** `s := add(s, mload(add(cp, 32 * i)))` */
  method Ark(P: Params, mem: seq<Byte>, c: nat, cp: nat, r: nat, i: nat, s: nat, ghost v: nat) returns (sum: nat)
    requires GenOk(P) && BlobAt(P, c, mem) && r < P.rf + P.rp && i < P.t
    requires cp == c + 32 + 32 * (r * P.t) && Lane(P.p, P.t, s, v)
    ensures Lane(P.p, P.t + 1, sum, (v + Constant(P, r, i)) % P.p)
  {
    ConstantRead(P, mem, c, cp, r, i);
    sum := Add(s, WordAt(mem, Add(cp, 32 * i)));
    LaneAdd(P.p, P.t, s, v, Constant(P, r, i));
  }

  /** Folding one mix row from the left with plain `add`. */
  method Row(P: Params, i: nat, s: seq<nat>, ghost state: seq<nat>) returns (n: nat)
    requires GenOk(P) && i < P.t && |s| == |state| == P.t
    requires forall j: nat | j < P.t :: s[j] % P.p == state[j]
    ensures Lane(P.p, P.t, n, Mix(P, state)[i])
  {
    n := MulMod(P.M[i][0], s[0], P.p);
    TermMod(P.p, P.M[i][0], s[0], state[0]);
    assert Dot(P.M[i], state, 1) == Dot(P.M[i], state, 0) + P.M[i][0] * state[0] == P.M[i][0] * state[0];
    assert Times(1, P.p) == P.p;
    SmallMod(n, P.p);
    for j := 1 to P.t
      invariant n < Times(j, P.p) && n % P.p == Dot(P.M[i], state, j) % P.p
    {
      TimesMonotone(j + 1, P.t + 1, P.p);
      RowAdd(P.p, j, n, Dot(P.M[i], state, j), P.M[i][j], s[j], state[j]);
      n := Add(n, MulMod(P.M[i][j], s[j], P.p));
    }
  }

  lemma NextPointer(P: Params, c: nat, r: nat)
    requires GenOk(P) && r < P.rf + P.rp && c + 32 + 32 * |P.C| < WORD
    ensures Add(c + 32 + 32 * (r * P.t), 32 * P.t) == c + 32 + 32 * ((r + 1) * P.t)
  {
    PointerStep(c, r, P.t, P.rf + P.rp);
  }

  /** The body of the four-lane loop: constants, S-boxes, mix. */
  method Body4(P: Params, mem: seq<Byte>, c: nat, cp: nat, r: nat, w0: nat, w1: nat, w2: nat, w3: nat,
               ghost state: seq<nat>)
      returns (s0: nat, s1: nat, s2: nat, s3: nat)
    requires GenOk(P) && P.t == 4 && P.rf == 8 && P.rp == 56 && BlobAt(P, c, mem)
    requires r < 64 && cp == c + 32 + 32 * (r * P.t)
    requires |state| == 4 && Lane(P.p, 4, w0, state[0]) && Lane(P.p, 4, w1, state[1])
    requires Lane(P.p, 4, w2, state[2]) && Lane(P.p, 4, w3, state[3])
    ensures var next := Round(P, state, r);
            Lane(P.p, 4, s0, next[0]) && Lane(P.p, 4, s1, next[1]) && Lane(P.p, 4, s2, next[2])
            && Lane(P.p, 4, s3, next[3])
  {
    ghost var added := AddConstants(P, state, r);
    s0 := Ark(P, mem, c, cp, r, 0, w0, w0 % P.p);
    s1 := Ark(P, mem, c, cp, r, 1, w1, w1 % P.p);
    s2 := Ark(P, mem, c, cp, r, 2, w2, w2 % P.p);
    s3 := Ark(P, mem, c, cp, r, 3, w3, w3 % P.p);
    var n0: nat, n1: nat, n2: nat, n3: nat := 0, 0, 0, 0;
    n0, s0 := Fifth(P.p, s0);
    if r < 4 || r > 59 {
      n0, s1 := Fifth(P.p, s1);
      n0, s2 := Fifth(P.p, s2);
      n0, s3 := Fifth(P.p, s3);
    }
    var lanes: seq<nat> := [s0, s1, s2, s3];
    ghost var boxed := Sbox(P, added, r);
    forall j: nat | j < 4 ensures lanes[j] % P.p == boxed[j] { Pow5Small(P.p, added[j]); }
    n0 := Row(P, 0, lanes, boxed);
    n1 := Row(P, 1, lanes, boxed);
    n2 := Row(P, 2, lanes, boxed);
    n3 := Row(P, 3, lanes, boxed);
    s0, s1, s2, s3 := n0, n1, n2, n3;
  }

  /** `hash3`: four lanes, 64 rounds, the full ones at both ends. */
  method Hash3(P: Params, mem: seq<Byte>, c: nat, x0: nat, x1: nat, x2: nat) returns (out: nat)
    requires ParamsOk(P) && P.p == BN254 && P.t == 4 && P.rf == 8 && P.rp == 56 && BlobAt(P, c, mem)
    ensures out == Hash(P, [x0, x1, x2]) < P.p
  {
    DeployedWidths(P);
    var cp := Add(c, 32);
    var s0: nat, s1: nat, s2: nat, s3: nat := 0, x0 % P.p, x1 % P.p, x2 % P.p;
    ghost var args := [x0, x1, x2];
    SmallMod(c + 32, WORD);
    StartLanes(P, args);
    var r := 0;
    while r < 64
      invariant r <= 64 && cp == c + 32 + 32 * (r * P.t)
      invariant var state := State(P, args, r);
                Lane(P.p, 4, s0, state[0]) && Lane(P.p, 4, s1, state[1]) && Lane(P.p, 4, s2, state[2])
                && Lane(P.p, 4, s3, state[3])
    {
      s0, s1, s2, s3 := Body4(P, mem, c, cp, r, s0, s1, s2, s3, State(P, args, r));
      NextPointer(P, c, r);
      cp := Add(cp, 128);
      r := r + 1;
    }
    Canonical(P, args, 64);
    out := s0 % P.p;
  }

  /** The body of the three-lane loop: constants, S-boxes, mix. */
  method Body3(P: Params, mem: seq<Byte>, c: nat, cp: nat, r: nat, w0: nat, w1: nat, w2: nat, ghost state: seq<nat>)
      returns (s0: nat, s1: nat, s2: nat)
    requires GenOk(P) && P.t == 3 && P.rf == 8 && P.rp == 57 && BlobAt(P, c, mem)
    requires r < 65 && cp == c + 32 + 32 * (r * P.t)
    requires |state| == 3 && Lane(P.p, 3, w0, state[0]) && Lane(P.p, 3, w1, state[1]) && Lane(P.p, 3, w2, state[2])
    ensures var next := Round(P, state, r);
            Lane(P.p, 3, s0, next[0]) && Lane(P.p, 3, s1, next[1]) && Lane(P.p, 3, s2, next[2])
  {
    ghost var added := AddConstants(P, state, r);
    s0 := Ark(P, mem, c, cp, r, 0, w0, w0 % P.p);
    s1 := Ark(P, mem, c, cp, r, 1, w1, w1 % P.p);
    s2 := Ark(P, mem, c, cp, r, 2, w2, w2 % P.p);
    var n0: nat, n1: nat, n2: nat := 0, 0, 0;
    n0, s0 := Fifth(P.p, s0);
    if r < 4 || r > 60 {
      n0, s1 := Fifth(P.p, s1);
      n0, s2 := Fifth(P.p, s2);
    }
    var lanes: seq<nat> := [s0, s1, s2];
    ghost var boxed := Sbox(P, added, r);
    forall j: nat | j < 3 ensures lanes[j] % P.p == boxed[j] { Pow5Small(P.p, added[j]); }
    n0 := Row(P, 0, lanes, boxed);
    n1 := Row(P, 1, lanes, boxed);
    n2 := Row(P, 2, lanes, boxed);
    s0, s1, s2 := n0, n1, n2;
  }

  /** `hash2`: three lanes, 65 rounds, the full ones at both ends. */
  method Hash2(P: Params, mem: seq<Byte>, c: nat, x0: nat, x1: nat) returns (out: nat)
    requires ParamsOk(P) && P.p == BN254 && P.t == 3 && P.rf == 8 && P.rp == 57 && BlobAt(P, c, mem)
    ensures out == Hash(P, [x0, x1]) < P.p
  {
    DeployedWidths(P);
    var cp := Add(c, 32);
    var s0: nat, s1: nat, s2: nat := 0, x0 % P.p, x1 % P.p;
    ghost var args := [x0, x1];
    SmallMod(c + 32, WORD);
    StartLanes(P, args);
    var r := 0;
    while r < 65
      invariant r <= 65 && cp == c + 32 + 32 * (r * P.t)
      invariant var state := State(P, args, r);
              Lane(P.p, 3, s0, state[0]) && Lane(P.p, 3, s1, state[1]) && Lane(P.p, 3, s2, state[2])
    {
      s0, s1, s2 := Body3(P, mem, c, cp, r, s0, s1, s2, State(P, args, r));
      NextPointer(P, c, r);
      cp := Add(cp, 96);
      r := r + 1;
    }
    Canonical(P, args, 65);
    out := s0 % P.p;
  }
}
