/** The wallet's tree (`wallet/wallet.py`) and the vector exporter's eager
    `incrementalRoot` (`tooling/export_vectors.js`), each as the loop it is. */
module WalletTree {
  import opened Merkle
  import opened Powers

  /** Nodes the wallet keeps at level `l` for `n` leaves: an empty tree keeps one. */
  function LevelLen(n: nat, l: nat): nat {
    if n == 0 then 1 else Touched(n, l)
  }

  ghost predicate LevelOk(h: Hash2, leaves: seq<nat>, l: nat, level: seq<nat>) {
    && |level| == LevelLen(|leaves|, l)
    && (forall i: nat | i < |level| :: level[i] == Node(h, leaves, l, i))
  }

  lemma {:induction false} TouchedEmpty(l: nat)
    ensures Touched(0, l) == 0
  {
    if l == 0 {
    } else {
      TouchedEmpty(l - 1);
    }
  }

  /** A stored level answers every position, the missing ones being all-zero. */
  lemma LevelRead(h: Hash2, leaves: seq<nat>, l: nat, level: seq<nat>, i: nat)
    requires LevelOk(h, leaves, l, level)
    ensures (if i < |level| then level[i] else Zeros(h, l)) == Node(h, leaves, l, i)
  {
    if i >= |level| {
      if |leaves| == 0 { TouchedEmpty(l); }
      EmptySubtree(h, leaves, l, i);
    }
  }

  /** The all-zero subtree roots, each hashed from the one before. */
  method ZerosList(h: Hash2, depth: nat) returns (zs: seq<nat>)
    ensures |zs| == depth + 1
    ensures forall l: nat | l <= depth :: zs[l] == Zeros(h, l)
  {
    zs := [0];
    for l := 0 to depth
      invariant |zs| == l + 1
      invariant forall k: nat | k <= l :: zs[k] == Zeros(h, k)
    {
      zs := zs + [h(zs[l], zs[l])];
    }
  }

  lemma ExtendPath(h: Hash2, leaves: seq<nat>, idx: nat, sibs: seq<nat>, bits: seq<nat>, s: nat)
    requires IsAuthPath(h, leaves, idx, sibs, bits)
    requires var i := Shr(idx, |bits|); s == Node(h, leaves, |bits|, if i % 2 == 0 then i + 1 else i - 1)
    ensures IsAuthPath(h, leaves, idx, sibs + [s], bits + [Shr(idx, |bits|) % 2])
  {
    forall l: nat | l <= |bits| ensures IsAuthStep(h, leaves, idx, sibs + [s], bits + [Shr(idx, |bits|) % 2], l) {
      assert l < |bits| ==> IsAuthStep(h, leaves, idx, sibs, bits, l);
    }
  }

  class Tree {
    const h: Hash2
    const depth: nat
    const zeros: seq<nat>
    var leaves: seq<nat>

    ghost predicate Valid()
      reads this
    {
      && |zeros| == depth + 1
      && (forall l: nat | l <= depth :: zeros[l] == Zeros(h, l))
      && |leaves| <= Pow2(depth)
    }

    constructor (h: Hash2, depth: nat)
      ensures Valid() && this.h == h && this.depth == depth && leaves == []
    {
      var zs := ZerosList(h, depth);
      this.h, this.depth, zeros, leaves := h, depth, zs, [];
    }

    /** Fails, changing nothing, exactly when the tree is full. */
    method Append(cm: nat) returns (ok: bool, idx: nat)
      requires Valid()
      modifies this
      ensures Valid() && idx == old(|leaves|)
      ensures ok <==> old(|leaves|) < Pow2(depth)
      ensures leaves == if ok then old(leaves) + [cm] else old(leaves)
    {
      idx := |leaves|;
      ok := idx < Pow2(depth);
      if ok { leaves := leaves + [cm]; }
    }

    method NextLevel(l: nat, level: seq<nat>) returns (next: seq<nat>)
      requires Valid() && l < depth && LevelOk(h, leaves, l, level)
      ensures LevelOk(h, leaves, l + 1, next)
    {
      next := [];
      var i := 0;
      while i < |level|
        invariant i == 2 * |next| && i <= |level| + 1
        invariant forall k: nat | k < |next| :: next[k] == Node(h, leaves, l + 1, k)
      {
        var right := if i + 1 < |level| then level[i + 1] else zeros[l];
        LevelRead(h, leaves, l, level, i + 1);
        next := next + [h(level[i], right)];
        i := i + 2;
      }
      if |leaves| == 0 { TouchedEmpty(l); }
    }

    method Levels() returns (levels: seq<seq<nat>>)
      requires Valid()
      ensures |levels| == depth + 1
      ensures forall l: nat | l <= depth :: LevelOk(h, leaves, l, levels[l])
    {
      var level := if leaves != [] then leaves else [zeros[0]];
      levels := [level];
      for d := 0 to depth
        invariant |levels| == d + 1 && levels[d] == level
        invariant forall l: nat | l <= d :: LevelOk(h, leaves, l, levels[l])
      {
        level := NextLevel(d, level);
        levels := levels + [level];
      }
    }

    /** The recomputed root is the root of the full zero-padded tree. */
    method ComputeRoot() returns (root: nat)
      requires Valid()
      ensures root == Root(h, depth, leaves)
    {
      var levels := Levels();
      assert LevelOk(h, leaves, depth, levels[depth]);
      TouchedBounds(|leaves|, depth);
      root := levels[depth][0];
    }

    /** Siblings and direction bits for any position, occupied or not. */
    method AuthPath(idx: nat) returns (siblings: seq<nat>, bits: seq<nat>)
      requires Valid()
      ensures |siblings| == |bits| == depth
      ensures IsAuthPath(h, leaves, idx, siblings, bits)
    {
      var levels := Levels();
      siblings, bits := [], [];
      var cur := idx;
      for d := 0 to depth
        invariant |siblings| == |bits| == d && cur == Shr(idx, d)
        invariant IsAuthPath(h, leaves, idx, siblings, bits)
      {
        var level := levels[d];
        var sib := if cur % 2 == 0 then cur + 1 else cur - 1;
        assert LevelOk(h, leaves, d, level);
        LevelRead(h, leaves, d, level, sib);
        var s := if sib < |level| then level[sib] else zeros[d];
        ExtendPath(h, leaves, idx, siblings, bits, s);
        siblings, bits := siblings + [s], bits + [cur % 2];
        cur := cur / 2;
      }
    }
  }

  /** Path correctness for every position: the path folds to the root and its bits
      spell the position exactly when the position exists in the tree. */
  lemma AuthPathMeaning(h: Hash2, d: nat, leaves: seq<nat>, idx: nat, sibs: seq<nat>, bits: seq<nat>)
    requires |bits| == d && IsAuthPath(h, leaves, idx, sibs, bits)
    ensures idx < Pow2(d) ==> FoldTo(h, LeafAt(leaves, idx), sibs, bits, d) == Root(h, d, leaves)
    ensures BitsIndex(bits, 0) == idx <==> idx < Pow2(d)
  {
    if idx < Pow2(d) {
      AuthPathCorrect(h, d, leaves, idx, sibs, bits);
    } else {
      AuthBits(h, leaves, idx, sibs, bits);
      BitsIndexBound(bits, 0);
    }
  }

  /** The last node the eager variant climbs to. */
  function EagerRoot(h: Hash2, depth: nat, leaves: seq<nat>): nat {
    if leaves == [] then Zeros(h, depth) else Node(h, leaves, depth, Shr(|leaves| - 1, depth))
  }

  ghost predicate EagerSlot(h: Hash2, slot: nat, leaves: seq<nat>, l: nat) {
    BitOf(|leaves|, l) == 1 ==> slot == Node(h, leaves, l, Shr(|leaves|, l) - 1)
  }

  lemma EagerStep(h: Hash2, slot: nat, done: seq<nat>, cm: nat, l: nat)
    requires EagerSlot(h, slot, done, l)
    ensures var node, up := Node(h, done + [cm], l, Shr(|done|, l)), Node(h, done + [cm], l + 1, Shr(|done|, l + 1));
            if BitOf(|done|, l) == 0
            then up == h(node, Zeros(h, l)) && EagerSlot(h, node, done + [cm], l)
            else up == h(slot, node) && EagerSlot(h, slot, done + [cm], l)
  {
    var n := |done|;
    NextBit(n, l);
    StepUpAppended(h, map[l := slot], done, cm, l);
    if BitOf(n, l) == 1 {
      AppendKeepsComplete(h, done, [cm], l, Shr(n, l) - 1);
    }
  }

  /** One turn of the outer loop: hash the new leaf up, updating the slots on the way. */
  method Absorb(h: Hash2, depth: nat, zs: seq<nat>, filled: array<nat>, done: seq<nat>, leaf: nat) returns (node: nat)
    requires filled.Length == depth && |zs| == depth + 1
    requires forall l: nat | l <= depth :: zs[l] == Zeros(h, l)
    requires forall k: nat | k < depth :: EagerSlot(h, filled[k], done, k)
    modifies filled
    ensures forall k: nat | k < depth :: EagerSlot(h, filled[k], done + [leaf], k)
    ensures node == Node(h, done + [leaf], depth, Shr(|done|, depth))
  {
    ghost var next := done + [leaf];
    node := leaf;
    var idx := |done|;
    for l := 0 to depth
      invariant idx == Shr(|done|, l) && node == Node(h, next, l, idx)
      invariant forall k: nat | l <= k < depth :: EagerSlot(h, filled[k], done, k)
      invariant forall k: nat | k < l :: EagerSlot(h, filled[k], next, k)
    {
      EagerStep(h, filled[l], done, leaf, l);
      if idx % 2 == 0 {
        filled[l] := node;
        node := h(node, zs[l]);
      } else {
        node := h(filled[l], node);
      }
      idx := idx / 2;
    }
  }

  /** The eager variant: it carries the root along while it fills the frontier, and
      writes partial nodes into frontier slots.  For up to `2^depth` leaves its
      result is `Root` (`IncrementalRootIsRoot`). */
  method IncrementalRoot(h: Hash2, depth: nat, leaves: seq<nat>) returns (root: nat)
    ensures root == EagerRoot(h, depth, leaves)
  {
    var filled := new nat[depth](_ => 0);
    var zs := ZerosList(h, depth);
    root := zs[depth];
    forall k: nat | k < depth ensures EagerSlot(h, filled[k], leaves[..0], k) { ShrOfZero(k); }
    for index := 0 to |leaves|
      invariant forall k: nat | k < depth :: EagerSlot(h, filled[k], leaves[..index], k)
      invariant root == EagerRoot(h, depth, leaves[..index])
    {
      assert leaves[..index + 1] == leaves[..index] + [leaves[index]];
      root := Absorb(h, depth, zs, filled, leaves[..index], leaves[index]);
    }
    assert leaves[..|leaves|] == leaves;
  }

  lemma IncrementalRootIsRoot(h: Hash2, depth: nat, leaves: seq<nat>)
    requires |leaves| <= Pow2(depth)
    ensures EagerRoot(h, depth, leaves) == Root(h, depth, leaves)
  {
    if leaves == [] {
      TouchedEmpty(depth);
      EmptySubtree(h, leaves, depth, 0);
    } else {
      ShrZero(|leaves| - 1, depth);
    }
  }
}
