/** The commitment tree as plain mathematics: a complete binary tree of fixed
    depth whose unused leaves are zero.  Every tree algorithm of the system (the
    pool's frontier, the wallet's level lists, the vector exporter's eager
    variant) is proved against `Root`. */
module Merkle {
  import opened Powers

  type Hash2 = (nat, nat) -> nat

  /** `n >> l`: how many level-`l` subtrees are completely filled by `n` leaves. */
  function Shr(n: nat, l: nat): nat {
    if l == 0 then n else Shr(n, l - 1) / 2
  }

  /** Bit `l` of `n`. */
  function BitOf(n: nat, l: nat): nat {
    Shr(n, l) % 2
  }

  /** How many level-`l` subtrees hold at least one of the `n` leaves. */
  function Touched(n: nat, l: nat): nat {
    if l == 0 then n else (Touched(n, l - 1) + 1) / 2
  }

  /** Root of an all-zero subtree of height `l`. */
  function Zeros(h: Hash2, l: nat): nat {
    if l == 0 then 0 else h(Zeros(h, l - 1), Zeros(h, l - 1))
  }

  function LeafAt(leaves: seq<nat>, i: nat): nat {
    if i < |leaves| then leaves[i] else 0
  }

  /** The `i`-th node of level `l` of the zero-padded tree over `leaves`. */
  function Node(h: Hash2, leaves: seq<nat>, l: nat, i: nat): nat {
    if l == 0 then LeafAt(leaves, i)
    else h(Node(h, leaves, l - 1, 2 * i), Node(h, leaves, l - 1, 2 * i + 1))
  }

  function Root(h: Hash2, d: nat, leaves: seq<nat>): nat {
    Node(h, leaves, d, 0)
  }

  // ---- the tree from the top ----

  /** The right half of a tree is the tree over the leaves behind the left half. */
  lemma {:induction false} RightHalf(h: Hash2, leaves: seq<nat>, right: seq<nat>, d: nat, l: nat, i: nat)
    requires l <= d && right == (if |leaves| > Pow2(d) then leaves[Pow2(d)..] else [])
    ensures Node(h, leaves, l, i + Pow2(d - l)) == Node(h, right, l, i)
  {
    if l == 0 {
    } else {
      RightHalf(h, leaves, right, d, l - 1, 2 * i);
      RightHalf(h, leaves, right, d, l - 1, 2 * i + 1);
    }
  }

  /** The left half knows nothing of the leaves behind it. */
  lemma {:induction false} LeftHalf(h: Hash2, leaves: seq<nat>, left: seq<nat>, d: nat, l: nat, i: nat)
    requires l <= d && i < Pow2(d - l) && left == (if |leaves| > Pow2(d) then leaves[..Pow2(d)] else leaves)
    ensures Node(h, leaves, l, i) == Node(h, left, l, i)
  {
    if l == 0 {
    } else {
      LeftHalf(h, leaves, left, d, l - 1, 2 * i);
      LeftHalf(h, leaves, left, d, l - 1, 2 * i + 1);
    }
  }

  /** The tree read from the top: a root hashes the root over the first half of the leaves,
      on the left, with the root over the rest; a tree of depth zero is its leaf. */
  lemma RootSplits(h: Hash2, d: nat, leaves: seq<nat>)
    ensures Root(h, 0, leaves) == if leaves == [] then 0 else leaves[0]
    ensures Root(h, d + 1, leaves)
         == if |leaves| > Pow2(d) then h(Root(h, d, leaves[..Pow2(d)]), Root(h, d, leaves[Pow2(d)..]))
            else h(Root(h, d, leaves), Root(h, d, []))
  {
    var left := if |leaves| > Pow2(d) then leaves[..Pow2(d)] else leaves;
    var right := if |leaves| > Pow2(d) then leaves[Pow2(d)..] else [];
    LeftHalf(h, leaves, left, d, d, 0);
    RightHalf(h, leaves, right, d, d, 0);
  }

  // ---- index arithmetic ----

  lemma {:induction false} TouchedBounds(n: nat, l: nat)
    ensures Shr(n, l) <= Touched(n, l) <= Shr(n, l) + 1
    ensures n > 0 ==> Touched(n, l) > 0
  {
    if l == 0 {
    } else {
      TouchedBounds(n, l - 1);
    }
  }

  lemma {:induction false} ShrHalf(n: nat, l: nat)
    ensures Shr(n / 2, l) == Shr(n, l + 1)
  {
    if l == 0 {
    } else {
      ShrHalf(n, l - 1);
    }
  }

  /** An index fits in `d` bits exactly when shifting it by `d` leaves nothing. */
  lemma {:induction false} ShrZero(n: nat, d: nat)
    ensures n < Pow2(d) <==> Shr(n, d) == 0
    decreases d
  {
    if d == 0 {
    } else {
      ShrZero(n / 2, d - 1);
      ShrHalf(n, d - 1);
    }
  }

  lemma {:induction false} ShrOfZero(l: nat)
    ensures Shr(0, l) == 0
  {
    if l == 0 {
    } else {
      ShrOfZero(l - 1);
    }
  }

  lemma {:induction false} ShrFull(d: nat)
    ensures Shr(Pow2(d), d) == 1
    decreases d
  {
    if d == 0 {
    } else {
      ShrFull(d - 1);
      ShrHalf(Pow2(d), d - 1);
    }
  }

  /** The subtree holding position `n` is the last one `n + 1` leaves touch. */
  lemma {:induction false} TouchedNext(n: nat, l: nat)
    ensures Touched(n + 1, l) == Shr(n, l) + 1
  {
    if l == 0 {
    } else {
      TouchedNext(n, l - 1);
    }
  }

  /** A one bit of `n + 1` is either fresh or an untouched one bit of `n`. */
  lemma {:induction false} NextBit(n: nat, k: nat)
    ensures Shr(n + 1, k) == Shr(n, k) || Shr(n + 1, k) == Shr(n, k) + 1
    ensures BitOf(n + 1, k) == 1 && BitOf(n, k) == 1 ==> Shr(n + 1, k) == Shr(n, k)
    ensures BitOf(n + 1, k) == 1 && BitOf(n, k) == 0 ==> Shr(n + 1, k) == Shr(n, k) + 1
  {
    if k == 0 {
    } else {
      NextBit(n, k - 1);
    }
  }

  // ---- what appending a leaf leaves alone ----

  /** A subtree past the last leaf is the all-zero subtree. */
  lemma {:induction false} EmptySubtree(h: Hash2, leaves: seq<nat>, l: nat, i: nat)
    requires i >= Touched(|leaves|, l)
    ensures Node(h, leaves, l, i) == Zeros(h, l)
  {
    if l == 0 {
    } else {
      EmptySubtree(h, leaves, l - 1, 2 * i);
      EmptySubtree(h, leaves, l - 1, 2 * i + 1);
    }
  }

  /** A completed subtree never changes again. */
  lemma {:induction false} AppendKeepsComplete(h: Hash2, leaves: seq<nat>, more: seq<nat>, l: nat, i: nat)
    requires i < Shr(|leaves|, l)
    ensures Node(h, leaves + more, l, i) == Node(h, leaves, l, i)
  {
    if l == 0 {
    } else {
      AppendKeepsComplete(h, leaves, more, l - 1, 2 * i);
      AppendKeepsComplete(h, leaves, more, l - 1, 2 * i + 1);
    }
  }

  // ---- the frontier ----

  ghost predicate SlotOk(h: Hash2, filled: map<nat, nat>, leaves: seq<nat>, l: nat) {
    BitOf(|leaves|, l) == 1 ==> l in filled && filled[l] == Node(h, leaves, l, Shr(|leaves|, l) - 1)
  }

  /** Slot `l` of the frontier is meaningful exactly when bit `l` of the leaf count is
      set, and then holds the last completed level-`l` subtree.  Storage is a map so
      that reading a slot carries the obligation that it was written before. */
  ghost predicate FrontierOk(h: Hash2, d: nat, filled: map<nat, nat>, leaves: seq<nat>) {
    && (forall l :: l in filled ==> l <= d)
    && (forall l: nat | l <= d :: SlotOk(h, filled, leaves, l))
  }

  /** After the carry chain of an append has run over the `l` low one bits, the
      bits of `n + 1` are: zero below `l`, one at `l`, unchanged above. */
  lemma {:induction false} Carry(n: nat, l: nat, k: nat)
    requires forall j: nat | j < l :: BitOf(n, j) == 1
    requires BitOf(n, l) == 0
    ensures k < l ==> BitOf(n + 1, k) == 0
    ensures k <= l ==> Shr(n + 1, k) == Shr(n, k) + 1
    ensures k > l ==> Shr(n + 1, k) == Shr(n, k)
  {
    assert k < l ==> BitOf(n, k) == 1;
    if k == 0 {
    } else {
      Carry(n, l, k - 1);
      assert k - 1 < l ==> BitOf(n, k - 1) == 1;
    }
  }

  lemma SlotAfterStep(h: Hash2, filled: map<nat, nat>, leaves: seq<nat>, cm: nat, l: nat, node: nat, k: nat)
    requires SlotOk(h, filled, leaves, k)
    requires forall j: nat | j < l :: BitOf(|leaves|, j) == 1
    requires BitOf(|leaves|, l) == 0
    requires node == Node(h, leaves + [cm], l, Shr(|leaves|, l))
    ensures SlotOk(h, filled[l := node], leaves + [cm], k)
  {
    var n, more := |leaves|, leaves + [cm];
    Carry(n, l, k);
    if k > l && BitOf(n, k) == 1 {
      var i: nat := Shr(n, k) - 1;
      AppendKeepsComplete(h, leaves, [cm], k, i);
      assert filled[k] == Node(h, more, k, i);
    }
  }

  /** The slots a completed append leaves behind. */
  lemma FrontierStep(h: Hash2, d: nat, filled: map<nat, nat>, leaves: seq<nat>, cm: nat, l: nat, node: nat)
    requires FrontierOk(h, d, filled, leaves)
    requires forall j: nat | j < l :: BitOf(|leaves|, j) == 1
    requires BitOf(|leaves|, l) == 0 && l <= d
    requires node == Node(h, leaves + [cm], l, Shr(|leaves|, l))
    ensures FrontierOk(h, d, filled[l := node], leaves + [cm])
  {
    var after, more := filled[l := node], leaves + [cm];
    forall k: nat | k <= d
      ensures SlotOk(h, after, more, k)
    {
      SlotAfterStep(h, filled, leaves, cm, l, node, k);
    }
  }

  /** One step up from the node at the end of the tree: the right sibling is empty
      where the index bit is zero, the left one complete where it is one. */
  lemma StepUp(h: Hash2, leaves: seq<nat>, l: nat, i: nat)
    requires i + 1 >= Touched(|leaves|, l)
    ensures i % 2 == 0 ==> Node(h, leaves, l + 1, i / 2) == h(Node(h, leaves, l, i), Zeros(h, l))
    ensures i % 2 == 1 ==> Node(h, leaves, l + 1, i / 2) == h(Node(h, leaves, l, i - 1), Node(h, leaves, l, i))
  {
    EmptySubtree(h, leaves, l, i + 1);
    assert i % 2 == 0 ==> 2 * (i / 2) == i;
    assert i % 2 == 1 ==> 2 * (i / 2) == i - 1;
  }

  /** Climbing from a leaf just appended, past a left sibling in the frontier. */
  lemma StepUpAppended(h: Hash2, filled: map<nat, nat>, leaves: seq<nat>, cm: nat, l: nat)
    requires SlotOk(h, filled, leaves, l)
    ensures BitOf(|leaves|, l) == 1 ==>
              && l in filled
              && Node(h, leaves + [cm], l + 1, Shr(|leaves|, l + 1))
                 == h(filled[l], Node(h, leaves + [cm], l, Shr(|leaves|, l)))
    ensures BitOf(|leaves|, l) == 0 ==>
              Node(h, leaves + [cm], l + 1, Shr(|leaves|, l + 1))
                == h(Node(h, leaves + [cm], l, Shr(|leaves|, l)), Zeros(h, l))
  {
    var n := |leaves|;
    TouchedNext(n, l);
    StepUp(h, leaves + [cm], l, Shr(n, l));
    if BitOf(n, l) == 1 {
      AppendKeepsComplete(h, leaves, [cm], l, Shr(n, l) - 1);
    }
  }

  // ---- authentication paths ----

  /** The node a path reaches after `l` of its steps. */
  function FoldTo(h: Hash2, leaf: nat, sibs: seq<nat>, bits: seq<nat>, l: nat): nat
    requires l <= |sibs| && l <= |bits|
    decreases l, 0
  {
    if l == 0 then leaf
    else
      var pair := PathPair(h, leaf, sibs, bits, l - 1);
      h(pair.0, pair.1)
  }

  /** The ordered pair hashed by step `l` of a path. */
  function PathPair(h: Hash2, leaf: nat, sibs: seq<nat>, bits: seq<nat>, l: nat): (nat, nat)
    requires l < |sibs| && l < |bits|
    decreases l, 1
  {
    var cur := FoldTo(h, leaf, sibs, bits, l);
    if bits[l] == 0 then (cur, sibs[l]) else (sibs[l], cur)
  }

  /** The pair hashed by the tree for node `i` of level `l + 1`. */
  function NodePair(h: Hash2, leaves: seq<nat>, l: nat, i: nat): (nat, nat) {
    (Node(h, leaves, l, 2 * i), Node(h, leaves, l, 2 * i + 1))
  }

  /** The leaf position a bit string spells, least significant bit first. */
  function BitsIndex(bits: seq<nat>, l: nat): nat
    requires l <= |bits|
    decreases |bits| - l
  {
    if l == |bits| then 0 else bits[l] + 2 * BitsIndex(bits, l + 1)
  }

  ghost predicate Bits(bits: seq<nat>) {
    forall l: nat | l < |bits| :: bits[l] <= 1
  }

  lemma {:induction false} BitsIndexShr(bits: seq<nat>, l: nat)
    requires Bits(bits) && l <= |bits|
    ensures Shr(BitsIndex(bits, 0), l) == BitsIndex(bits, l)
  {
    if l == 0 {
    } else {
      BitsIndexShr(bits, l - 1);
    }
  }

  /** Bit and sibling of one level, for position `idx`. */
  ghost predicate IsAuthStep(h: Hash2, leaves: seq<nat>, idx: nat, sibs: seq<nat>, bits: seq<nat>, l: nat)
    requires l < |bits| == |sibs|
  {
    && bits[l] == BitOf(idx, l)
    && sibs[l] == Node(h, leaves, l, if bits[l] == 0 then Shr(idx, l) + 1 else Shr(idx, l) - 1)
  }

  ghost predicate IsAuthPath(h: Hash2, leaves: seq<nat>, idx: nat, sibs: seq<nat>, bits: seq<nat>) {
    |sibs| == |bits| && forall l: nat | l < |bits| :: IsAuthStep(h, leaves, idx, sibs, bits, l)
  }

  lemma AuthBits(h: Hash2, leaves: seq<nat>, idx: nat, sibs: seq<nat>, bits: seq<nat>)
    requires IsAuthPath(h, leaves, idx, sibs, bits)
    ensures Bits(bits) && forall l: nat | l < |bits| :: bits[l] == BitOf(idx, l)
  {
    forall l: nat | l < |bits| ensures bits[l] == BitOf(idx, l) && bits[l] <= 1 {
      assert IsAuthStep(h, leaves, idx, sibs, bits, l);
    }
  }

  /** An authentication path folds to the root, whatever the position holds. */
  lemma {:induction false} PathFolds(h: Hash2, leaves: seq<nat>, idx: nat, sibs: seq<nat>, bits: seq<nat>, l: nat)
    requires l <= |bits|
    requires IsAuthPath(h, leaves, idx, sibs, bits)
    ensures FoldTo(h, LeafAt(leaves, idx), sibs, bits, l) == Node(h, leaves, l, Shr(idx, l))
  {
    if l == 0 {
    } else {
      PathFolds(h, leaves, idx, sibs, bits, l - 1);
      var i := Shr(idx, l - 1);
      assert IsAuthStep(h, leaves, idx, sibs, bits, l - 1);
      assert Shr(idx, l) == i / 2 && bits[l - 1] == i % 2;
      assert PathPair(h, LeafAt(leaves, idx), sibs, bits, l - 1) == NodePair(h, leaves, l - 1, i / 2);
    }
  }

  lemma {:induction false} SpellsIndex(idx: nat, bits: seq<nat>, l: nat)
    requires l <= |bits|
    requires Shr(idx, |bits|) == 0
    requires forall k: nat | k < |bits| :: bits[k] == BitOf(idx, k)
    ensures BitsIndex(bits, l) == Shr(idx, l)
    decreases |bits| - l
  {
    if l == |bits| {
    } else {
      SpellsIndex(idx, bits, l + 1);
    }
  }

  /** Path completeness: folds to the root and spells the index. */
  lemma AuthPathCorrect(h: Hash2, d: nat, leaves: seq<nat>, idx: nat, sibs: seq<nat>, bits: seq<nat>)
    requires idx < Pow2(d) && |bits| == d
    requires IsAuthPath(h, leaves, idx, sibs, bits)
    ensures FoldTo(h, LeafAt(leaves, idx), sibs, bits, d) == Root(h, d, leaves)
    ensures BitsIndex(bits, 0) == idx && Bits(bits)
  {
    ShrZero(idx, d);
    PathFolds(h, leaves, idx, sibs, bits, d);
    AuthBits(h, leaves, idx, sibs, bits);
    SpellsIndex(idx, bits, 0);
  }

  /** Two different pairs with one digest: the only way a path can lie. */
  ghost predicate Clash(h: Hash2, a: (nat, nat), b: (nat, nat)) {
    a != b && h(a.0, a.1) == h(b.0, b.1)
  }

  /** Sibling `l` is the tree's own, at the position the bits spell. */
  ghost predicate OnPathAt(h: Hash2, leaves: seq<nat>, sibs: seq<nat>, bits: seq<nat>, l: nat)
    requires l < |bits| == |sibs|
  {
    var i := BitsIndex(bits, l);
    sibs[l] == Node(h, leaves, l, if bits[l] == 0 then i + 1 else i - 1)
  }

  /** Step `l` of the path and the tree's step at the position the bits spell hash
      different pairs to one digest. */
  ghost predicate ClashAt(h: Hash2, leaves: seq<nat>, leaf: nat, sibs: seq<nat>, bits: seq<nat>, l: nat)
    requires l < |bits| == |sibs|
  {
    Clash(h, PathPair(h, leaf, sibs, bits, l), NodePair(h, leaves, l, BitsIndex(bits, l + 1)))
  }

  /** One step down without a clash: from the tree's node to the tree's node, past the
      tree's sibling. */
  lemma StepFollows(h: Hash2, leaves: seq<nat>, leaf: nat, sibs: seq<nat>, bits: seq<nat>, l: nat)
    requires |sibs| == |bits| && l < |bits| && Bits(bits) && !ClashAt(h, leaves, leaf, sibs, bits, l)
    requires FoldTo(h, leaf, sibs, bits, l + 1) == Node(h, leaves, l + 1, BitsIndex(bits, l + 1))
    ensures FoldTo(h, leaf, sibs, bits, l) == Node(h, leaves, l, BitsIndex(bits, l))
    ensures OnPathAt(h, leaves, sibs, bits, l)
  {
    var mine, tree := PathPair(h, leaf, sibs, bits, l), NodePair(h, leaves, l, BitsIndex(bits, l + 1));
    assert mine == tree;
    assert BitsIndex(bits, l) == bits[l] + 2 * BitsIndex(bits, l + 1);
  }

  lemma {:induction false} PathFollows(h: Hash2, leaves: seq<nat>, leaf: nat, sibs: seq<nat>, bits: seq<nat>, l: nat)
    requires |sibs| == |bits| && l <= |bits| && Bits(bits)
    requires forall k: nat | k < l :: !ClashAt(h, leaves, leaf, sibs, bits, k)
    requires FoldTo(h, leaf, sibs, bits, l) == Node(h, leaves, l, BitsIndex(bits, l))
    ensures leaf == LeafAt(leaves, BitsIndex(bits, 0))
    ensures forall k: nat | k < l :: OnPathAt(h, leaves, sibs, bits, k)
  {
    if l == 0 {
    } else {
      StepFollows(h, leaves, leaf, sibs, bits, l - 1);
      PathFollows(h, leaves, leaf, sibs, bits, l - 1);
    }
  }

  lemma OnPathIsAuth(h: Hash2, leaves: seq<nat>, sibs: seq<nat>, bits: seq<nat>, l: nat)
    requires |sibs| == |bits| && l < |bits| && Bits(bits) && OnPathAt(h, leaves, sibs, bits, l)
    ensures IsAuthStep(h, leaves, BitsIndex(bits, 0), sibs, bits, l)
  {
    BitsIndexShr(bits, l);
    assert BitsIndex(bits, l) == bits[l] + 2 * BitsIndex(bits, l + 1);
  }

  /** Path binding: a boolean path of the tree's depth that reaches the root is the
      authentication path of the leaf its bits spell, or the clashing step is returned. */
  lemma PathBinds(h: Hash2, leaves: seq<nat>, leaf: nat, sibs: seq<nat>, bits: seq<nat>) returns (bad: nat)
    requires |sibs| == |bits| && Bits(bits)
    requires FoldTo(h, leaf, sibs, bits, |bits|) == Root(h, |bits|, leaves)
    ensures var idx := BitsIndex(bits, 0);
            || (leaf == LeafAt(leaves, idx) && IsAuthPath(h, leaves, idx, sibs, bits))
            || (bad < |bits| && ClashAt(h, leaves, leaf, sibs, bits, bad))
  {
    bad := 0;
    if k: nat :| k < |bits| && ClashAt(h, leaves, leaf, sibs, bits, k) {
      bad := k;
    } else {
      PathFollows(h, leaves, leaf, sibs, bits, |bits|);
      forall l: nat | l < |bits| ensures IsAuthStep(h, leaves, BitsIndex(bits, 0), sibs, bits, l) {
        OnPathIsAuth(h, leaves, sibs, bits, l);
      }
    }
  }

  lemma {:induction false} BitsIndexBound(bits: seq<nat>, l: nat)
    requires Bits(bits) && l <= |bits|
    ensures BitsIndex(bits, l) < Pow2(|bits| - l)
    decreases |bits| - l
  {
    if l == |bits| {
    } else {
      BitsIndexBound(bits, l + 1);
    }
  }
}
