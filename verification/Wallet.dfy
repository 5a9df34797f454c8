/** Witness building (`wallet/wallet.py`): what the wallet hands to the prover satisfies
    the circuit exactly when its inputs' paths reach the tree's root and its two
    nullifiers differ. */
module Wallet {
  import opened Wrappers
  import opened Merkle
  import opened Powers
  import opened Field
  import opened Circuit
  import opened WalletTree

  /** `idx` is `None` for a fabricated dummy.  Amounts are Python integers, of any sign. */
  datatype SpendInput = SpendInput(sk: nat, rho: nat, value: int, idx: Option<nat>)

  datatype Output = Output(inner: nat, value: int)

  /** The input map of the prover. */
  datatype WitnessMap = WitnessMap(root: nat, domain: nat, w: Witness, publicAmount: nat, fee: nat, ctx: nat)

  function Sum(vs: seq<int>): int {
    if vs == [] then 0 else Sum(vs[..|vs| - 1]) + vs[|vs| - 1]
  }

  function Values(inputs: seq<SpendInput>): seq<int> {
    seq(|inputs|, i requires 0 <= i < |inputs| => inputs[i].value)
  }

  function OutValues(outputs: seq<Output>): seq<int> {
    seq(|outputs|, i requires 0 <= i < |outputs| => outputs[i].value)
  }

  predicate InRange(v: int) { 0 <= v < MAX_VALUE }

  /** The assertions of `build_witness`. */
  ghost predicate Passes(inputs: seq<SpendInput>, outputs: seq<Output>, publicAmount: int, fee: int) {
    && |inputs| == 2 && |outputs| == 2
    && (forall i: nat | i < 2 :: inputs[i].idx == None ==> inputs[i].value == 0)
    && inputs[0].value + inputs[1].value == outputs[0].value + outputs[1].value + publicAmount + fee
    && InRange(publicAmount) && InRange(fee)
    && (forall i: nat | i < 2 :: InRange(inputs[i].value) && InRange(outputs[i].value))
  }

  function CommitmentOf(H: Hasher, i: SpendInput): nat
    requires i.value >= 0
  {
    Commitment(H, Inner(H, i.sk, i.rho), i.value)
  }

  function InputNullifiers(H: Hasher, domain: nat, inputs: seq<SpendInput>): seq<nat>
    requires forall i: nat | i < |inputs| :: inputs[i].value >= 0
  {
    seq(|inputs|, i requires 0 <= i < |inputs| => Nullifier(H, domain, inputs[i].sk, CommitmentOf(H, inputs[i])))
  }

  function OutputCommitments(H: Hasher, outputs: seq<Output>): seq<nat>
    requires forall i: nat | i < |outputs| :: outputs[i].value >= 0
  {
    seq(|outputs|, i requires 0 <= i < |outputs| => Commitment(H, outputs[i].inner, outputs[i].value))
  }

  /** A path for an input: real for an indexed one, all zero for a dummy. */
  ghost predicate PathFor(h: Hash2, depth: nat, leaves: seq<nat>, i: SpendInput, sibs: seq<nat>, bits: seq<nat>) {
    && |sibs| == |bits| == depth
    && match i.idx
       case None => forall l: nat | l < depth :: sibs[l] == 0 && bits[l] == 0
       case Some(idx) => IsAuthPath(h, leaves, idx, sibs, bits)
  }

  ghost predicate NoteFor(h: Hash2, depth: nat, leaves: seq<nat>, i: SpendInput, n: InputNote) {
    n.spendKey == i.sk && n.rho == i.rho && n.value == i.value && PathFor(h, depth, leaves, i, n.siblings, n.bits)
  }

  /** `m` is the map for these notes against the tree over `leaves`. */
  ghost predicate IsMap(h: Hash2, depth: nat, leaves: seq<nat>, inputs: seq<SpendInput>, outputs: seq<Output>,
                        domain: nat, publicAmount: int, fee: int, recipient: Option<nat>, m: WitnessMap)
    requires |inputs| == |outputs| == 2
  {
    && m.root == Root(h, depth, leaves) && m.domain == domain && m.publicAmount == publicAmount && m.fee == fee
    && m.ctx == (match recipient case Some(a) => a case None => 0)
    && NoteFor(h, depth, leaves, inputs[0], m.w.in1) && NoteFor(h, depth, leaves, inputs[1], m.w.in2)
    && m.w.outInner1 == outputs[0].inner && m.w.outInner2 == outputs[1].inner
    && m.w.outValue1 == outputs[0].value && m.w.outValue2 == outputs[1].value
  }

  lemma SumOfTwo(vs: seq<int>)
    requires |vs| == 2
    ensures Sum(vs) == vs[0] + vs[1]
  {
    assert vs[..1][..0] == [] && Sum(vs[..1]) == vs[0];
  }

  lemma RangesCover(inputs: seq<SpendInput>, outputs: seq<Output>, publicAmount: int, fee: int, vs: seq<int>)
    requires |inputs| == |outputs| == 2 && vs == [publicAmount, fee] + Values(inputs) + OutValues(outputs)
    requires forall i | 0 <= i < |inputs| :: inputs[i].idx != None || inputs[i].value == 0
    requires inputs[0].value + inputs[1].value == outputs[0].value + outputs[1].value + publicAmount + fee
    ensures (forall i | 0 <= i < |vs| :: InRange(vs[i])) <==> Passes(inputs, outputs, publicAmount, fee)
  {
    assert vs[0] == publicAmount && vs[1] == fee && vs[2] == inputs[0].value && vs[3] == inputs[1].value;
    assert vs[4] == outputs[0].value && vs[5] == outputs[1].value;
  }

  /** The assertions, written out. */
  lemma AssertionsAre(inputs: seq<SpendInput>, outputs: seq<Output>, publicAmount: int, fee: int)
    ensures Passes(inputs, outputs, publicAmount, fee) <==>
              && |inputs| == 2 && |outputs| == 2
              && (inputs[0].idx == None ==> inputs[0].value == 0) && (inputs[1].idx == None ==> inputs[1].value == 0)
              && inputs[0].value + inputs[1].value == outputs[0].value + outputs[1].value + publicAmount + fee
              && 0 <= inputs[0].value < MAX_VALUE && 0 <= inputs[1].value < MAX_VALUE
              && 0 <= outputs[0].value < MAX_VALUE && 0 <= outputs[1].value < MAX_VALUE
              && 0 <= publicAmount < MAX_VALUE && 0 <= fee < MAX_VALUE
  {
  }

  /** The builder fails exactly on its assertions. */
  method BuildWitness(tree: Tree, inputs: seq<SpendInput>, outputs: seq<Output>, domain: nat,
                      publicAmount: int, fee: int, recipient: Option<nat>) returns (r: Option<WitnessMap>)
    requires tree.Valid()
    ensures r.Some? <==> Passes(inputs, outputs, publicAmount, fee)
    ensures r.Some? ==>
              IsMap(tree.h, tree.depth, tree.leaves, inputs, outputs, domain, publicAmount, fee, recipient, r.value)
  {
    if |inputs| != 2 || |outputs| != 2 { return None; }
    var dummies := forall i | 0 <= i < |inputs| :: inputs[i].idx != None || inputs[i].value == 0;
    if !dummies { return None; }
    var totalIn := Sum(Values(inputs));
    var totalOut := Sum(OutValues(outputs)) + publicAmount + fee;
    SumOfTwo(Values(inputs));
    SumOfTwo(OutValues(outputs));
    if totalIn != totalOut { return None; }
    var vs := [publicAmount, fee] + Values(inputs) + OutValues(outputs);
    var ranged := forall i | 0 <= i < |vs| :: InRange(vs[i]);
    assert ranged <==> Passes(inputs, outputs, publicAmount, fee) by {
      RangesCover(inputs, outputs, publicAmount, fee, vs);
    }
    if !ranged { return None; }
    var ctx := match recipient case Some(a) => a case None => 0;
    var sibs: seq<seq<nat>>, bits: seq<seq<nat>> := [], [];
    for k := 0 to |inputs|
      invariant |sibs| == |bits| == k
      invariant forall j: nat | j < k :: PathFor(tree.h, tree.depth, tree.leaves, inputs[j], sibs[j], bits[j])
    {
      if inputs[k].idx == None {
        sibs, bits := sibs + [seq(tree.depth, _ => 0)], bits + [seq(tree.depth, _ => 0)];
      } else {
        var s, b := tree.AuthPath(inputs[k].idx.value);
        sibs, bits := sibs + [s], bits + [b];
      }
    }
    var root := tree.ComputeRoot();
    var in1 := InputNote(inputs[0].sk, inputs[0].rho, inputs[0].value, sibs[0], bits[0]);
    var in2 := InputNote(inputs[1].sk, inputs[1].rho, inputs[1].value, sibs[1], bits[1]);
    var w := Witness(in1, in2, outputs[0].inner, outputs[1].inner, outputs[0].value, outputs[1].value);
    r := Some(WitnessMap(root, domain, w, publicAmount, fee, ctx));
  }

  // ---- what the prover makes of it ----

  /** The public signals of a witness: the circuit computes nullifiers and commitments. */
  function PublicSignals(H: Hasher, m: WitnessMap): Public {
    Public(NoteNf(H, m.domain, m.w.in1), NoteNf(H, m.domain, m.w.in2),
           Commitment(H, m.w.outInner1, m.w.outValue1), Commitment(H, m.w.outInner2, m.w.outValue2),
           m.root, m.domain, m.publicAmount, m.fee, m.ctx)
  }

  /** The public signals are the nullifiers and commitments the wallet computes itself. */
  lemma SignalsAgree(H: Hasher, depth: nat, leaves: seq<nat>, inputs: seq<SpendInput>, outputs: seq<Output>,
                     domain: nat, publicAmount: int, fee: int, recipient: Option<nat>, m: WitnessMap)
    requires Passes(inputs, outputs, publicAmount, fee)
    requires IsMap(H.h2, depth, leaves, inputs, outputs, domain, publicAmount, fee, recipient, m)
    ensures [PublicSignals(H, m).nf1, PublicSignals(H, m).nf2] == InputNullifiers(H, domain, inputs)
    ensures [PublicSignals(H, m).outCm1, PublicSignals(H, m).outCm2] == OutputCommitments(H, outputs)
    ensures forall i: nat | i < 2 ::
              && InputNullifiers(H, domain, inputs)[i]
                 == H.h3(3, H.h2(domain, inputs[i].sk),
                         H.h3(2, H.h2(H.h3(1, inputs[i].sk, 0), inputs[i].rho), inputs[i].value))
              && OutputCommitments(H, outputs)[i] == H.h3(2, outputs[i].inner, outputs[i].value)
    ensures PublicSignals(H, m).root == Root(H.h2, depth, leaves) && PublicSignals(H, m).domain == domain
    ensures PublicSignals(H, m).publicAmount == publicAmount && PublicSignals(H, m).fee == fee
    ensures PublicSignals(H, m).ctx == match recipient case Some(a) => a case None => 0
  {
  }

  /** Secrets, leaves and names are field elements. */
  ghost predicate Residues(p: nat, leaves: seq<nat>, inputs: seq<SpendInput>, outputs: seq<Output>, domain: nat,
                           recipient: Option<nat>)
  {
    && (forall i: nat | i < |leaves| :: leaves[i] < p)
    && (forall i: nat | i < |inputs| :: inputs[i].sk < p && inputs[i].rho < p)
    && (forall i: nat | i < |outputs| :: outputs[i].inner < p)
    && domain < p && (recipient.Some? ==> recipient.value < p)
  }

  lemma {:induction false} NodeResidue(H: Hasher, p: nat, leaves: seq<nat>, l: nat, i: nat)
    requires p > 0 && HashOk(H, p) && forall k: nat | k < |leaves| :: leaves[k] < p
    ensures Node(H.h2, leaves, l, i) < p
  {
  }

  lemma MapCanonicalNote(H: Hasher, p: nat, depth: nat, leaves: seq<nat>, i: SpendInput, n: InputNote)
    requires p > 1 && HashOk(H, p) && NoteFor(H.h2, depth, leaves, i, n)
    requires i.sk < p && i.rho < p && i.value < p && forall k: nat | k < |leaves| :: leaves[k] < p
    ensures CanonicalNote(p, n) && Bits(n.bits)
  {
    if i.idx.Some? {
      forall l: nat | l < depth ensures n.siblings[l] < p && n.bits[l] <= 1 {
        assert IsAuthStep(H.h2, leaves, i.idx.value, n.siblings, n.bits, l);
        var pos := if n.bits[l] == 0 then Shr(i.idx.value, l) + 1 else Shr(i.idx.value, l) - 1;
        NodeResidue(H, p, leaves, l, pos);
      }
    }
  }

  lemma MapRanges(inputs: seq<SpendInput>, outputs: seq<Output>, publicAmount: int, fee: int, pub: Public, w: Witness)
    requires Passes(inputs, outputs, publicAmount, fee) && pub.publicAmount == publicAmount && pub.fee == fee
    requires w.in1.value == inputs[0].value && w.in2.value == inputs[1].value
    requires w.outValue1 == outputs[0].value && w.outValue2 == outputs[1].value
    ensures forall k: nat | k < 6 :: RangeChecked(pub, w)[k] < MAX_VALUE
  {
  }

  ghost predicate ReachesRoot(H: Hasher, depth: nat, leaves: seq<nat>, n: InputNote)
    requires |n.siblings| == |n.bits| == depth
  {
    n.value != 0 ==> FoldTo(H.h2, NoteCm(H, n), n.siblings, n.bits, depth) == Root(H.h2, depth, leaves)
  }

  /** The witness is accepted exactly when each input of value folds to the root along
      its path and the nullifiers differ: the assertions cover everything else. */
  lemma WitnessExact(H: Hasher, p: nat, depth: nat, leaves: seq<nat>, inputs: seq<SpendInput>, outputs: seq<Output>,
                     domain: nat, publicAmount: int, fee: int, recipient: Option<nat>, m: WitnessMap)
    requires Prime(p) && p >= 4 * MAX_VALUE && HashOk(H, p) && Residues(p, leaves, inputs, outputs, domain, recipient)
    requires Passes(inputs, outputs, publicAmount, fee)
    requires IsMap(H.h2, depth, leaves, inputs, outputs, domain, publicAmount, fee, recipient, m)
    ensures (exists hints :: Satisfies(H, p, depth, PublicSignals(H, m), m.w, hints)) <==>
            && ReachesRoot(H, depth, leaves, m.w.in1) && ReachesRoot(H, depth, leaves, m.w.in2)
            && InputNullifiers(H, domain, inputs)[0] != InputNullifiers(H, domain, inputs)[1]
  {
    var pub := PublicSignals(H, m);
    Exact(H, p, depth, pub, m.w);
    SignalsAgree(H, depth, leaves, inputs, outputs, domain, publicAmount, fee, recipient, m);
    MapCanonicalNote(H, p, depth, leaves, inputs[0], m.w.in1);
    MapCanonicalNote(H, p, depth, leaves, inputs[1], m.w.in2);
    NodeResidue(H, p, leaves, depth, 0);
    MapRanges(inputs, outputs, publicAmount, fee, pub, m.w);
  }

  /** An input of value really lies at its index. */
  ghost predicate InTree(H: Hasher, depth: nat, leaves: seq<nat>, i: SpendInput)
    requires i.value >= 0
  {
    i.value != 0 ==> i.idx.Some? && i.idx.value < Pow2(depth) && LeafAt(leaves, i.idx.value) == CommitmentOf(H, i)
  }

  /** A note really at its index reaches the root; one that is not does so only through
      two pairs with one digest, which are returned. */
  lemma PathBelongs(H: Hasher, depth: nat, leaves: seq<nat>, i: SpendInput, n: InputNote) returns (bad: nat)
    requires i.value >= 0 && NoteFor(H.h2, depth, leaves, i, n)
    requires i.value != 0 ==> i.idx.Some? && i.idx.value < Pow2(depth)
    ensures InTree(H, depth, leaves, i) ==> ReachesRoot(H, depth, leaves, n)
    ensures ReachesRoot(H, depth, leaves, n) ==>
              || InTree(H, depth, leaves, i)
              || (bad < depth && ClashAt(H.h2, leaves, NoteCm(H, n), n.siblings, n.bits, bad))
  {
    bad := 0;
    if i.value != 0 {
      var idx := i.idx.value;
      AuthPathCorrect(H.h2, depth, leaves, idx, n.siblings, n.bits);
      if ReachesRoot(H, depth, leaves, n) {
        bad := PathBinds(H.h2, leaves, NoteCm(H, n), n.siblings, n.bits);
      }
    }
  }

  /** Witness completeness: notes at their indices, conserved and in range, with distinct
      nullifiers, always satisfy the circuit. */
  lemma WitnessComplete(H: Hasher, p: nat, depth: nat, leaves: seq<nat>, inputs: seq<SpendInput>, outputs: seq<Output>,
                        domain: nat, publicAmount: int, fee: int, recipient: Option<nat>, m: WitnessMap)
    requires Prime(p) && p >= 4 * MAX_VALUE && HashOk(H, p) && Residues(p, leaves, inputs, outputs, domain, recipient)
    requires Passes(inputs, outputs, publicAmount, fee)
    requires InTree(H, depth, leaves, inputs[0]) && InTree(H, depth, leaves, inputs[1])
    requires InputNullifiers(H, domain, inputs)[0] != InputNullifiers(H, domain, inputs)[1]
    requires IsMap(H.h2, depth, leaves, inputs, outputs, domain, publicAmount, fee, recipient, m)
    ensures exists hints :: Satisfies(H, p, depth, PublicSignals(H, m), m.w, hints)
  {
    var b1 := PathBelongs(H, depth, leaves, inputs[0], m.w.in1);
    var b2 := PathBelongs(H, depth, leaves, inputs[1], m.w.in2);
    WitnessExact(H, p, depth, leaves, inputs, outputs, domain, publicAmount, fee, recipient, m);
  }
}
