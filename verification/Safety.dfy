/** Whole runs: the pool stays solvent, every note spent for value is a leaf the pool
    inserted, and no leaf is spent twice -- or the hashes evaluated along the run
    contain a collision or a preimage of the empty leaf. */
module Safety {
  import opened Merkle
  import opened Powers
  import opened Field
  import opened Circuit
  import opened PoolSpec
  import opened Envelope
  import opened Dispatcher
  import opened Protocol
  import opened Ledger
  import opened PoolInvariant

  // ---- assumptions about the parts outside the model ----

  /** A deployment over a prime field with canonical digests and real addresses. */
  ghost predicate SystemOk(sys: System) {
    && Prime(sys.cfg.p) && sys.cfg.p >= 4 * MAX_VALUE && HashOk(sys.cfg.H, sys.cfg.p)
    && 0 < sys.cfg.self < ADDRESS_SPACE && sys.paymaster != sys.cfg.self && 0 < sys.paymaster < ADDRESS_SPACE
  }

  /** Reads a witness out of an accepted proof. */
  type Extractor = (seq<nat>, Public) -> Witness

  /** Groth16 soundness: what the verifier accepts has a satisfying witness. */
  ghost predicate KnowledgeSound(sys: System, ex: Extractor)
    requires sys.cfg.p > 0
  {
    forall proof, pub :: sys.verify(proof, pub) ==>
      exists hints :: Satisfies(sys.cfg.H, sys.cfg.p, sys.cfg.depth, pub, ex(proof, pub), hints)
  }

  // ---- what a run has hashed ----

  /** Inputs spent for value so far, in order, and the preimages hashed by deposits and
      witnesses.  The tree's own hashes follow from its leaves. */
  datatype History = History(spent: seq<InputNote>, q2: set<(nat, nat)>, q3: set<(nat, nat, nat)>)

  /** The tree over the first `k` leaves had its root published. */
  ghost predicate Published(cfg: Config, s: PoolState, k: nat) {
    k <= |s.leaves| && exists j: nat :: j < |s.writes| && s.writes[j].root == TreeRoot(cfg, s.leaves[..k])
  }

  /** A pair hashed for some node of a tree whose root the pool published. */
  ghost predicate TreeHashed(cfg: Config, s: PoolState, a: (nat, nat)) {
    exists k: nat, l: nat, i: nat ::
      Published(cfg, s, k) && l < cfg.depth && i < Pow2(cfg.depth - l - 1)
        && a == NodePair(cfg.H.h2, s.leaves[..k], l, i)
  }

  ghost predicate Hashed2(cfg: Config, s: PoolState, hist: History, a: (nat, nat)) {
    a in hist.q2 || TreeHashed(cfg, s, a)
  }

  /** `root` is the root of a tree whose root the pool published. */
  ghost predicate PublishedRoot(cfg: Config, s: PoolState, root: nat) {
    exists k: nat :: Published(cfg, s, k) && root == TreeRoot(cfg, s.leaves[..k])
  }

  /** No two preimages hashed by the run share a digest, and none of the three-input
      ones hashes to the empty leaf. */
  ghost predicate NoBreak(cfg: Config, s: PoolState, hist: History) {
    && (forall a, b | Hashed2(cfg, s, hist, a) && Hashed2(cfg, s, hist, b) :: !Clash(cfg.H.h2, a, b))
    && (forall a, b | a in hist.q3 && b in hist.q3 && a != b ::
          cfg.H.h3(a.0, a.1, a.2) != cfg.H.h3(b.0, b.1, b.2))
    && (forall a :: a in hist.q3 ==> cfg.H.h3(a.0, a.1, a.2) != 0)
  }

  /** What a broken hash leaves behind: two preimages of one digest, or one of zero. */
  datatype Break =
    | Pairs(a: (nat, nat), b: (nat, nat))
    | Triples(x: (nat, nat, nat), y: (nat, nat, nat))
    | ZeroLeaf(z: (nat, nat, nat))

  ghost predicate IsBreak(cfg: Config, s: PoolState, hist: History, k: Break) {
    match k
    case Pairs(a, b) => Hashed2(cfg, s, hist, a) && Hashed2(cfg, s, hist, b) && Clash(cfg.H.h2, a, b)
    case Triples(x, y) => x in hist.q3 && y in hist.q3 && x != y && cfg.H.h3(x.0, x.1, x.2) == cfg.H.h3(y.0, y.1, y.2)
    case ZeroLeaf(z) => z in hist.q3 && cfg.H.h3(z.0, z.1, z.2) == 0
  }

  lemma BreakExhibited(cfg: Config, s: PoolState, hist: History) returns (k: Break)
    ensures NoBreak(cfg, s, hist) || IsBreak(cfg, s, hist, k)
  {
    k := ZeroLeaf((0, 0, 0));
    if a, b :| Hashed2(cfg, s, hist, a) && Hashed2(cfg, s, hist, b) && Clash(cfg.H.h2, a, b) {
      k := Pairs(a, b);
    } else if x, y :| x in hist.q3 && y in hist.q3 && x != y && cfg.H.h3(x.0, x.1, x.2) == cfg.H.h3(y.0, y.1, y.2) {
      k := Triples(x, y);
    } else if z :| z in hist.q3 && cfg.H.h3(z.0, z.1, z.2) == 0 {
      k := ZeroLeaf(z);
    }
  }

  function PathPairs(h: Hash2, leaf: nat, n: InputNote): set<(nat, nat)> {
    set l: nat | l < |n.bits| && l < |n.siblings| :: PathPair(h, leaf, n.siblings, n.bits, l)
  }

  function NoteQ2(H: Hasher, domain: nat, n: InputNote): set<(nat, nat)> {
    {(H.h3(1, n.spendKey, 0), n.rho), (domain, n.spendKey)} + PathPairs(H.h2, NoteCm(H, n), n)
  }

  function NoteQ3(H: Hasher, domain: nat, n: InputNote): set<(nat, nat, nat)> {
    {(1, n.spendKey, 0), (2, Inner(H, n.spendKey, n.rho), n.value), (3, H.h2(domain, n.spendKey), NoteCm(H, n))}
  }

  function ForValue(n: InputNote): seq<InputNote> { if n.value != 0 then [n] else [] }

  function HistoryTx(cfg: Config, hist: History, w: Witness): History {
    History(hist.spent + ForValue(w.in1) + ForValue(w.in2),
            hist.q2 + NoteQ2(cfg.H, cfg.domain, w.in1) + NoteQ2(cfg.H, cfg.domain, w.in2),
            hist.q3 + NoteQ3(cfg.H, cfg.domain, w.in1) + NoteQ3(cfg.H, cfg.domain, w.in2)
              + {(2, w.outInner1, w.outValue1), (2, w.outInner2, w.outValue2)})
  }

  function TxWitness(ex: Extractor, tx: Tx): Witness
    requires tx.frames != []
  {
    ex(TxSpend(tx).proof, PublicOf(TxSpend(tx)))
  }

  ghost function HistoryStep(sys: System, ex: Extractor, w: World, hist: History, a: Action): History {
    match a
    case Outside(call, _) => hist.(q3 := hist.q3 + CallQueries(call))
    case PoolTx(tx, env) => if Accepted(sys, w, tx, env) then HistoryTx(sys.cfg, hist, TxWitness(ex, tx)) else hist
    case _ => hist
  }

  ghost function RunHistory(sys: System, ex: Extractor, slot: nat, actions: seq<Action>): History {
    if actions == [] then History([], {}, {})
    else
      var before := actions[..|actions| - 1];
      HistoryStep(sys, ex, Run(sys, slot, before), RunHistory(sys, ex, slot, before), actions[|actions| - 1])
  }

  // ---- the invariant ----

  function SpentLeaves(cfg: Config, spent: seq<InputNote>): set<nat> {
    if spent == [] then {} else SpentLeaves(cfg, spent[..|spent| - 1]) + {NoteCm(cfg.H, spent[|spent| - 1])}
  }

  /** A spent input: its hashes are on record and its nullifier's lane has moved. */
  ghost predicate SpentOk(cfg: Config, lanes: map<nat, nat>, hist: History, n: InputNote) {
    && NoteQ2(cfg.H, cfg.domain, n) <= hist.q2 && NoteQ3(cfg.H, cfg.domain, n) <= hist.q3
    && Credit(lanes, NoteNf(cfg.H, cfg.domain, n)) >= 1
  }

  ghost predicate NoneTwice(cfg: Config, spent: seq<InputNote>) {
    forall i: nat, j: nat | i < j < |spent| :: NoteCm(cfg.H, spent[i]) != NoteCm(cfg.H, spent[j])
  }

  ghost predicate Inv(sys: System, w: World, hist: History, op: seq<Opening>) {
    && PoolInv(sys.cfg, w.pool, op, SpentLeaves(sys.cfg, hist.spent), hist.q3, 0)
    && (forall n :: n in hist.spent ==> SpentOk(sys.cfg, w.lanes, hist, n))
    && NoneTwice(sys.cfg, hist.spent)
    && WritesBy(w.pool.writes, w.slot)
  }

  lemma {:induction false} SpentLeavesMember(cfg: Config, spent: seq<InputNote>, x: nat)
    ensures x in SpentLeaves(cfg, spent) <==> exists n :: n in spent && NoteCm(cfg.H, n) == x
  {
    if spent == [] {
    } else {
      var init, last := spent[..|spent| - 1], spent[|spent| - 1];
      SpentLeavesMember(cfg, init, x);
      assert forall n :: n in spent <==> n in init || n == last;
    }
  }

  lemma SpentLeavesAppend(cfg: Config, spent: seq<InputNote>, n: InputNote)
    ensures SpentLeaves(cfg, spent + [n]) == SpentLeaves(cfg, spent) + {NoteCm(cfg.H, n)}
  {
  }

  // ---- one accepted spend ----

  /** Two openings of one leaf share their spending key, so a leaf has one nullifier. */
  lemma OneNullifier(cfg: Config, s: PoolState, hist: History, n: InputNote, m: InputNote)
    requires NoBreak(cfg, s, hist)
    requires NoteQ2(cfg.H, cfg.domain, n) <= hist.q2 && NoteQ3(cfg.H, cfg.domain, n) <= hist.q3
    requires NoteQ2(cfg.H, cfg.domain, m) <= hist.q2 && NoteQ3(cfg.H, cfg.domain, m) <= hist.q3
    requires NoteCm(cfg.H, n) == NoteCm(cfg.H, m)
    ensures NoteNf(cfg.H, cfg.domain, n) == NoteNf(cfg.H, cfg.domain, m) && n.value == m.value
  {
    var H := cfg.H;
    var a, b := (2, Inner(H, n.spendKey, n.rho), n.value), (2, Inner(H, m.spendKey, m.rho), m.value);
    assert a in hist.q3 && b in hist.q3 && a == b;
    var c, d := (H.h3(1, n.spendKey, 0), n.rho), (H.h3(1, m.spendKey, 0), m.rho);
    assert c in NoteQ2(H, cfg.domain, n) && d in NoteQ2(H, cfg.domain, m);
    assert Hashed2(cfg, s, hist, c) && Hashed2(cfg, s, hist, d) && !Clash(H.h2, c, d);
    assert (1, n.spendKey, 0) in hist.q3 && (1, m.spendKey, 0) in hist.q3;
  }

  lemma StepsAgree(cfg: Config, s: PoolState, hist: History, n: InputNote, k: nat, l: nat)
    requires NoBreak(cfg, s, hist) && Published(cfg, s, k) && l < cfg.depth
    requires |n.siblings| == |n.bits| == cfg.depth && Bits(n.bits)
    requires NoteQ2(cfg.H, cfg.domain, n) <= hist.q2
    ensures !ClashAt(cfg.H.h2, s.leaves[..k], NoteCm(cfg.H, n), n.siblings, n.bits, l)
  {
    var h, cm := cfg.H.h2, NoteCm(cfg.H, n);
    var mine, tree := PathPair(h, cm, n.siblings, n.bits, l), NodePair(h, s.leaves[..k], l, BitsIndex(n.bits, l + 1));
    assert mine in PathPairs(h, cm, n);
    BitsIndexBound(n.bits, l + 1);
    assert TreeHashed(cfg, s, tree);
    assert Hashed2(cfg, s, hist, mine) && Hashed2(cfg, s, hist, tree);
  }

  /** Membership binds: a path to a root the pool once had starts at one of its leaves. */
  lemma PathStartsAtLeaf(cfg: Config, s: PoolState, hist: History, n: InputNote, root: nat) returns (i: nat)
    requires NoBreak(cfg, s, hist) && PublishedRoot(cfg, s, root)
    requires |n.siblings| == |n.bits| == cfg.depth && Bits(n.bits)
    requires FoldTo(cfg.H.h2, NoteCm(cfg.H, n), n.siblings, n.bits, cfg.depth) == root
    requires NoteQ2(cfg.H, cfg.domain, n) <= hist.q2 && NoteQ3(cfg.H, cfg.domain, n) <= hist.q3
    ensures i < |s.leaves| && s.leaves[i] == NoteCm(cfg.H, n)
  {
    var cm := NoteCm(cfg.H, n);
    var k: nat :| Published(cfg, s, k) && root == TreeRoot(cfg, s.leaves[..k]);
    var bad := PathBinds(cfg.H.h2, s.leaves[..k], cm, n.siblings, n.bits);
    if bad < cfg.depth { StepsAgree(cfg, s, hist, n, k, bad); }
    i := BitsIndex(n.bits, 0);
    assert (2, Inner(cfg.H, n.spendKey, n.rho), n.value) in NoteQ3(cfg.H, cfg.domain, n);
    assert cm == LeafAt(s.leaves[..k], i) && cm != 0;
  }

  /** What an accepted transaction's proof says, read at the integers. */
  lemma ProvenStatement(sys: System, ex: Extractor, w: World, tx: Tx)
    requires SystemOk(sys) && KnowledgeSound(sys, ex) && Authorized(sys, w, tx)
    ensures tx.frames != []
    ensures var s := TxSpend(tx); Statement(sys.cfg.H, sys.cfg.depth, PublicOf(s), TxWitness(ex, tx))
    ensures TxSpend(tx).domain == sys.cfg.domain
  {
    var s := TxSpend(tx);
    assert sys.verify(s.proof, PublicOf(s));
    Exact(sys.cfg.H, sys.cfg.p, sys.cfg.depth, PublicOf(s), TxWitness(ex, tx));
  }

  /** The root an accepted spend refers to is one the pool published. */
  lemma {:induction false} LastWriteIsWrite(writes: seq<RootWrite>, cell: nat)
    ensures LastWrite(writes, cell).Some? ==>
              LastWrite(writes, cell).value in writes && LastWrite(writes, cell).value.slot % RING == cell
  {
    if writes == [] {
    } else {
      LastWriteIsWrite(writes[..|writes| - 1], cell);
    }
  }

  lemma ProvenRoot(sys: System, w: World, hist: History, op: seq<Opening>, tx: Tx)
    requires Inv(sys, w, hist, op) && Authorized(sys, w, tx)
    ensures tx.frames != [] && PublishedRoot(sys.cfg, w.pool, TxSpend(tx).root)
  {
    var r := tx.refs[0];
    assert r in tx.refs && RefValid(w, r);
    LastWriteIsWrite(w.pool.writes, r.slot % RING);
    var j: nat :| j < |w.pool.writes| && w.pool.writes[j] == RootWrite(r.slot, r.root);
  }

  /** An input of value is an unspent leaf whose recorded value it matches. */
  lemma InputIsUnspentLeaf(sys: System, w: World, hist: History, op: seq<Opening>, hist': History,
                           n: InputNote, root: nat) returns (i: nat)
    requires Inv(sys, w, hist, op) && NoBreak(sys.cfg, w.pool, hist')
    requires hist.q2 <= hist'.q2 && hist.q3 <= hist'.q3
    requires NoteQ2(sys.cfg.H, sys.cfg.domain, n) <= hist'.q2 && NoteQ3(sys.cfg.H, sys.cfg.domain, n) <= hist'.q3
    requires PublishedRoot(sys.cfg, w.pool, root) && n.value != 0
    requires InputStatement(sys.cfg.H, sys.cfg.depth, n, root, sys.cfg.domain, NoteNf(sys.cfg.H, sys.cfg.domain, n))
    requires Credit(w.lanes, NoteNf(sys.cfg.H, sys.cfg.domain, n)) == 0
    ensures i < |w.pool.leaves| == |op| && w.pool.leaves[i] == NoteCm(sys.cfg.H, n) && op[i].value == n.value
    ensures NoteCm(sys.cfg.H, n) !in SpentLeaves(sys.cfg, hist.spent)
  {
    var cfg := sys.cfg;
    i := PathStartsAtLeaf(cfg, w.pool, hist', n, root);
    assert Opens(cfg, hist.q3, w.pool.leaves[i], op[i]);
    var a, b := (2, op[i].inner, op[i].value), (2, Inner(cfg.H, n.spendKey, n.rho), n.value);
    assert b in NoteQ3(cfg.H, cfg.domain, n);
    assert a in hist'.q3 && b in hist'.q3 && cfg.H.h3(a.0, a.1, a.2) == cfg.H.h3(b.0, b.1, b.2);
    SpentLeavesMember(cfg, hist.spent, NoteCm(cfg.H, n));
    forall m | m in hist.spent && NoteCm(cfg.H, m) == NoteCm(cfg.H, n) ensures false {
      assert SpentOk(cfg, w.lanes, hist, m);
      OneNullifier(cfg, w.pool, hist', m, n);
    }
  }

  // ---- payment approval ----

  lemma {:induction false} ConsumeCredit(lanes: map<nat, nat>, keys: seq<nat>, k: nat)
    ensures Credit(Consume(lanes, keys), k) >= Credit(lanes, k) + (if k in keys then 1 else 0)
  {
    if keys == [] {
    } else {
      ConsumeCredit(lanes, keys[..|keys| - 1], k);
      assert k in keys <==> k in keys[..|keys| - 1] || k == keys[|keys| - 1];
    }
  }

  /** Marking an input spent takes exactly its value out of the unspent total. */
  lemma MarkSpent(cfg: Config, leaves: seq<nat>, op: seq<Opening>, spent: seq<InputNote>, n: InputNote, i: nat)
    requires |op| == |leaves| && Distinct(leaves)
    requires n.value != 0 ==> i < |leaves| && leaves[i] == NoteCm(cfg.H, n) && op[i].value == n.value
    requires n.value != 0 ==> NoteCm(cfg.H, n) !in SpentLeaves(cfg, spent)
    ensures Unspent(leaves, op, SpentLeaves(cfg, spent))
         == Unspent(leaves, op, SpentLeaves(cfg, spent + ForValue(n))) + n.value
    ensures forall x :: x in SpentLeaves(cfg, spent + ForValue(n)) ==>
              x in SpentLeaves(cfg, spent) || (n.value != 0 && x == NoteCm(cfg.H, n))
  {
    if n.value != 0 {
      SpentLeavesAppend(cfg, spent, n);
      UnspentSpend(leaves, op, SpentLeaves(cfg, spent), i);
    } else {
      assert spent + ForValue(n) == spent;
    }
  }

  lemma NoneTwiceAppend(cfg: Config, spent: seq<InputNote>, n: InputNote)
    requires NoneTwice(cfg, spent) && (n.value != 0 ==> NoteCm(cfg.H, n) !in SpentLeaves(cfg, spent))
    ensures NoneTwice(cfg, spent + ForValue(n))
  {
    SpentLeavesMember(cfg, spent, NoteCm(cfg.H, n));
  }

  /** Both lanes of an accepted spend stood at zero. */
  lemma LanesWereFresh(sys: System, w: World, tx: Tx)
    requires Authorized(sys, w, tx)
    ensures tx.frames != []
    ensures var s := TxSpend(tx); s.nf1 in tx.nonceKeys && s.nf2 in tx.nonceKeys
    ensures var s := TxSpend(tx); Credit(w.lanes, s.nf1) == 0 && Credit(w.lanes, s.nf2) == 0
  {
    var s := TxSpend(tx);
    assert tx.nonceKeys[0] == Low(s) && tx.nonceKeys[1] == High(s);
  }

  ghost predicate IsUnspentLeaf(cfg: Config, w: World, hist: History, op: seq<Opening>, n: InputNote, i: nat) {
    && i < |w.pool.leaves| == |op| && w.pool.leaves[i] == NoteCm(cfg.H, n) && op[i].value == n.value
    && NoteCm(cfg.H, n) !in SpentLeaves(cfg, hist.spent)
  }

  /** The inputs of an accepted spend: distinct unspent leaves where they carry value. */
  lemma ProvenInputs(sys: System, ex: Extractor, w: World, hist: History, op: seq<Opening>, tx: Tx)
      returns (i1: nat, i2: nat)
    requires SystemOk(sys) && KnowledgeSound(sys, ex) && Inv(sys, w, hist, op) && Authorized(sys, w, tx)
    requires tx.frames != [] && NoBreak(sys.cfg, w.pool, HistoryTx(sys.cfg, hist, TxWitness(ex, tx)))
    ensures var wit := TxWitness(ex, tx);
            && (wit.in1.value != 0 ==> IsUnspentLeaf(sys.cfg, w, hist, op, wit.in1, i1))
            && (wit.in2.value != 0 ==> IsUnspentLeaf(sys.cfg, w, hist, op, wit.in2, i2))
            && (wit.in1.value != 0 && wit.in2.value != 0 ==> NoteCm(sys.cfg.H, wit.in1) != NoteCm(sys.cfg.H, wit.in2))
  {
    var cfg, s, wit := sys.cfg, TxSpend(tx), TxWitness(ex, tx);
    var hist' := HistoryTx(cfg, hist, wit);
    ProvenStatement(sys, ex, w, tx);
    ProvenRoot(sys, w, hist, op, tx);
    LanesWereFresh(sys, w, tx);
    i1, i2 := 0, 0;
    if wit.in1.value != 0 { i1 := InputIsUnspentLeaf(sys, w, hist, op, hist', wit.in1, s.root); }
    if wit.in2.value != 0 { i2 := InputIsUnspentLeaf(sys, w, hist, op, hist', wit.in2, s.root); }
    if NoteCm(cfg.H, wit.in1) == NoteCm(cfg.H, wit.in2) {
      OneNullifier(cfg, w.pool, hist', wit.in1, wit.in2);
    }
  }

  lemma TwoInputsLeave(cfg: Config, w: World, hist: History, op: seq<Opening>, n: InputNote, m: InputNote, i: nat,
                       j: nat)
    requires |op| == |w.pool.leaves| && Distinct(w.pool.leaves) && NoneTwice(cfg, hist.spent)
    requires forall x :: x in SpentLeaves(cfg, hist.spent) ==> x in w.pool.leaves
    requires n.value != 0 ==> IsUnspentLeaf(cfg, w, hist, op, n, i)
    requires m.value != 0 ==> IsUnspentLeaf(cfg, w, hist, op, m, j)
    requires n.value != 0 && m.value != 0 ==> NoteCm(cfg.H, n) != NoteCm(cfg.H, m)
    ensures var spent := hist.spent + ForValue(n) + ForValue(m);
            && Unspent(w.pool.leaves, op, SpentLeaves(cfg, hist.spent))
            == Unspent(w.pool.leaves, op, SpentLeaves(cfg, spent)) + n.value + m.value
            && NoneTwice(cfg, spent)
            && (forall x :: x in SpentLeaves(cfg, spent) ==> x in w.pool.leaves)
  {
    var mid := hist.spent + ForValue(n);
    MarkSpent(cfg, w.pool.leaves, op, hist.spent, n, i);
    MarkSpent(cfg, w.pool.leaves, op, mid, m, j);
    NoneTwiceAppend(cfg, hist.spent, n);
    NoneTwiceAppend(cfg, mid, m);
  }

  /** The inputs leave the unspent total with exactly their value, and none was spent before. */
  lemma InputsLeave(sys: System, ex: Extractor, w: World, hist: History, op: seq<Opening>, tx: Tx)
    requires SystemOk(sys) && KnowledgeSound(sys, ex) && Inv(sys, w, hist, op) && Authorized(sys, w, tx)
    requires tx.frames != [] && NoBreak(sys.cfg, w.pool, HistoryTx(sys.cfg, hist, TxWitness(ex, tx)))
    ensures var wit, spent := TxWitness(ex, tx), HistoryTx(sys.cfg, hist, TxWitness(ex, tx)).spent;
            && |op| == |w.pool.leaves|
            && Unspent(w.pool.leaves, op, SpentLeaves(sys.cfg, hist.spent))
            == Unspent(w.pool.leaves, op, SpentLeaves(sys.cfg, spent)) + wit.in1.value + wit.in2.value
            && NoneTwice(sys.cfg, spent)
            && (forall x :: x in SpentLeaves(sys.cfg, spent) ==> x in w.pool.leaves)
  {
    var cfg, wit := sys.cfg, TxWitness(ex, tx);
    var i1, i2 := ProvenInputs(sys, ex, w, hist, op, tx);
    TwoInputsLeave(cfg, w, hist, op, wit.in1, wit.in2, i1, i2);
  }

  /** Payment approval only moves ether: the maximum cost, covered by the fee, when the
      pool is the payer. */
  lemma PaymentMoves(sys: System, w: World, tx: Tx, env: Environment)
    requires Accepted(sys, w, tx, env)
    ensures tx.frames != []
    ensures PayerOf(sys, tx) == sys.cfg.self ==> w.pool.balance >= tx.maxCost && TxSpend(tx).fee >= tx.maxCost
    ensures var paid := AfterPayment(sys, w, tx);
            && paid.pool == w.pool.(balance := paid.pool.balance) && paid.slot == w.slot
            && paid.lanes == Consume(w.lanes, tx.nonceKeys)
            && paid.pool.balance == w.pool.balance - (if PayerOf(sys, tx) == sys.cfg.self then tx.maxCost else 0)
  {
  }

  lemma ProvenConserves(sys: System, ex: Extractor, w: World, tx: Tx)
    requires SystemOk(sys) && KnowledgeSound(sys, ex) && Authorized(sys, w, tx)
    ensures tx.frames != []
    ensures var s, wit := TxSpend(tx), TxWitness(ex, tx);
            wit.in1.value + wit.in2.value == wit.outValue1 + wit.outValue2 + s.publicAmount + s.fee
  {
    ProvenStatement(sys, ex, w, tx);
  }

  /** The books after payment approval: the value of the outputs, the withdrawal and a
      foreign payer's fee is set aside for settlement. */
  lemma AcceptBalances(sys: System, ex: Extractor, w: World, hist: History, op: seq<Opening>, tx: Tx, env: Environment)
    requires SystemOk(sys) && KnowledgeSound(sys, ex) && Inv(sys, w, hist, op) && Accepted(sys, w, tx, env)
    requires tx.frames != [] && NoBreak(sys.cfg, w.pool, HistoryTx(sys.cfg, hist, TxWitness(ex, tx)))
    ensures PayerOf(sys, tx) == sys.cfg.self ==> w.pool.balance >= tx.maxCost
    ensures var wit := TxWitness(ex, tx);
            var paid, spent := AfterPayment(sys, w, tx).pool, SpentLeaves(sys.cfg, HistoryTx(sys.cfg, hist, wit).spent);
            && Solvent(paid, op, spent, Moved(sys.cfg, TxSpend(tx), PayerOf(sys, tx), wit.outValue1, wit.outValue2))
            && Margin(paid, op, spent)
            == Margin(w.pool, op, SpentLeaves(sys.cfg, hist.spent)) + wit.in1.value + wit.in2.value
               - (if PayerOf(sys, tx) == sys.cfg.self then tx.maxCost else 0)
  {
    var s, wit := TxSpend(tx), TxWitness(ex, tx);
    InputsLeave(sys, ex, w, hist, op, tx);
    PaymentMoves(sys, w, tx, env);
    ProvenConserves(sys, ex, w, tx);
  }

  lemma ProvenNullifiers(sys: System, ex: Extractor, w: World, tx: Tx)
    requires SystemOk(sys) && KnowledgeSound(sys, ex) && Authorized(sys, w, tx)
    ensures tx.frames != []
    ensures TxSpend(tx).nf1 == NoteNf(sys.cfg.H, sys.cfg.domain, TxWitness(ex, tx).in1)
    ensures TxSpend(tx).nf2 == NoteNf(sys.cfg.H, sys.cfg.domain, TxWitness(ex, tx).in2)
  {
    ProvenStatement(sys, ex, w, tx);
  }

  lemma LeavesOkMoreQueries(cfg: Config, s: PoolState, t: PoolState, op: seq<Opening>, spent: set<nat>,
                            spent': set<nat>, q3: set<(nat, nat, nat)>, q3': set<(nat, nat, nat)>)
    requires LeavesOk(cfg, s, op, spent, q3) && q3 <= q3' && forall x :: x in spent' ==> x in s.leaves
    requires t.leaves == s.leaves && t.writes == s.writes && t.events == s.events
    ensures LeavesOk(cfg, t, op, spent', q3')
  {
  }

  /** A record of a spent input stays good as hashes and consumed keys accumulate. */
  lemma SpentOkGrows(cfg: Config, lanes: map<nat, nat>, keys: seq<nat>, hist: History, hist': History, n: InputNote)
    requires SpentOk(cfg, lanes, hist, n) && hist.q2 <= hist'.q2 && hist.q3 <= hist'.q3
    ensures SpentOk(cfg, Consume(lanes, keys), hist', n)
  {
    ConsumeCredit(lanes, keys, NoteNf(cfg.H, cfg.domain, n));
  }

  lemma SpentRecords(sys: System, w: World, hist: History, op: seq<Opening>, tx: Tx, wit: Witness)
    requires Inv(sys, w, hist, op) && Authorized(sys, w, tx) && tx.frames != []
    requires TxSpend(tx).nf1 == NoteNf(sys.cfg.H, sys.cfg.domain, wit.in1)
    requires TxSpend(tx).nf2 == NoteNf(sys.cfg.H, sys.cfg.domain, wit.in2)
    ensures var hist' := HistoryTx(sys.cfg, hist, wit);
            forall n :: n in hist'.spent ==> SpentOk(sys.cfg, Consume(w.lanes, tx.nonceKeys), hist', n)
  {
    var cfg, hist' := sys.cfg, HistoryTx(sys.cfg, hist, wit);
    LanesWereFresh(sys, w, tx);
    forall n | n in hist'.spent ensures SpentOk(cfg, Consume(w.lanes, tx.nonceKeys), hist', n) {
      if n in hist.spent {
        SpentOkGrows(cfg, w.lanes, tx.nonceKeys, hist, hist', n);
      } else {
        assert n == wit.in1 || n == wit.in2;
        ConsumeCredit(w.lanes, tx.nonceKeys, NoteNf(cfg.H, cfg.domain, n));
      }
    }
  }

  /** Payment approval keeps the invariant, with the settlement's value in the slack. */
  lemma AcceptKeeps(sys: System, ex: Extractor, w: World, hist: History, op: seq<Opening>, tx: Tx, env: Environment)
    requires SystemOk(sys) && KnowledgeSound(sys, ex) && Inv(sys, w, hist, op) && Accepted(sys, w, tx, env)
    requires tx.frames != [] && NoBreak(sys.cfg, w.pool, HistoryTx(sys.cfg, hist, TxWitness(ex, tx)))
    ensures PayerOf(sys, tx) == sys.cfg.self ==> w.pool.balance >= tx.maxCost
    ensures var paid, wit := AfterPayment(sys, w, tx), TxWitness(ex, tx);
            var hist' := HistoryTx(sys.cfg, hist, wit);
            && PoolInv(sys.cfg, paid.pool, op, SpentLeaves(sys.cfg, hist'.spent), hist'.q3,
                       Moved(sys.cfg, TxSpend(tx), PayerOf(sys, tx), wit.outValue1, wit.outValue2))
            && (forall n :: n in hist'.spent ==> SpentOk(sys.cfg, paid.lanes, hist', n))
            && NoneTwice(sys.cfg, hist'.spent)
  {
    var cfg, wit := sys.cfg, TxWitness(ex, tx);
    var hist' := HistoryTx(cfg, hist, wit);
    AcceptBalances(sys, ex, w, hist, op, tx, env);
    InputsLeave(sys, ex, w, hist, op, tx);
    PaymentMoves(sys, w, tx, env);
    var paid := AfterPayment(sys, w, tx);
    LeavesOkMoreQueries(cfg, w.pool, paid.pool, op, SpentLeaves(cfg, hist.spent), SpentLeaves(cfg, hist'.spent),
      hist.q3, hist'.q3);
    ProvenNullifiers(sys, ex, w, tx);
    SpentRecords(sys, w, hist, op, tx, wit);
  }
}
