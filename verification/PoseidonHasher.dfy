/** Poseidon as the hash pair the rest of the system is stated for. */
module PoseidonHasher {
  import opened Circuit
  import opened Bytes
  import P = Poseidon
  import Y = PoseidonYul
  import W = PoseidonWords

  lemma DigestIsResidue(params: P.Params, inputs: seq<nat>)
    requires P.ParamsOk(params) && |inputs| == params.t - 1
    ensures P.Hash(params, inputs) < params.p
  {
  }

  ghost function OfTwo(params: P.Params, a: nat, b: nat): (r: nat)
    requires P.ParamsOk(params) && params.t == 3
    ensures r < params.p
  {
    DigestIsResidue(params, [a, b]);
    P.Hash(params, [a, b])
  }

  ghost function OfThree(params: P.Params, a: nat, b: nat, c: nat): (r: nat)
    requires P.ParamsOk(params) && params.t == 4
    ensures r < params.p
  {
    DigestIsResidue(params, [a, b, c]);
    P.Hash(params, [a, b, c])
  }

  /** `PoseidonT3.hash2` and `PoseidonT4.hash3`. */
  ghost function Deployed(two: P.Params, three: P.Params): Hasher
    requires P.ParamsOk(two) && two.t == 3 && P.ParamsOk(three) && three.t == 4
  {
    Hasher((a, b) => OfTwo(two, a, b), (a, b, c) => OfThree(three, a, b, c))
  }

  /** Both digests are residues for every argument, reduced or not. */
  lemma DeployedOk(two: P.Params, three: P.Params, p: nat)
    requires P.ParamsOk(two) && two.t == 3 && P.ParamsOk(three) && three.t == 4 && two.p == three.p == p
    ensures HashOk(Deployed(two, three), p)
  {
  }

  /** The loops deployed over BN254 compute this pair: `_hashPair` and the pool's commitment
      hash are the functions every other theorem speaks of. */
  method HashPair(two: P.Params, three: P.Params, mem: seq<Byte>, blob: nat, l: nat, r: nat) returns (out: nat)
    requires P.ParamsOk(two) && two.t == 3 && two.rf == 8 && two.rp == 57 && two.p == W.BN254
    requires Y.BlobAt(two, blob, mem)
    requires P.ParamsOk(three) && three.t == 4
    ensures out == Deployed(two, three).h2(l, r) < W.BN254
  {
    out := W.Hash2(two, mem, blob, l, r);
  }

  method HashTriple(two: P.Params, three: P.Params, mem: seq<Byte>, blob: nat, a: nat, b: nat, c: nat)
    returns (out: nat)
    requires P.ParamsOk(three) && three.t == 4 && three.rf == 8 && three.rp == 56 && three.p == W.BN254
    requires Y.BlobAt(three, blob, mem)
    requires P.ParamsOk(two) && two.t == 3
    ensures out == Deployed(two, three).h3(a, b, c) < W.BN254
  {
    out := W.Hash3(three, mem, blob, a, b, c);
  }
}
