/** Two spends in one block: with disjoint nullifiers they execute in either order and
    end in the same place; with a shared one the second is never admitted. */
module Concurrency {
  import opened PoolSpec
  import opened Envelope
  import opened Dispatcher
  import opened Protocol
  import opened Ledger
  import opened PoolInvariant
  import opened Safety
  import opened Runs
  import opened Settlement

  ghost predicate DisjointKeys(a: Tx, b: Tx) {
    forall k :: k in a.nonceKeys ==> k !in b.nonceKeys
  }

  // ---- a shared nullifier ----

  lemma {:induction false} LaneAfterConsume(lanes: map<nat, nat>, keys: seq<nat>, k: nat)
    ensures k !in keys ==> Credit(Consume(lanes, keys), k) == Credit(lanes, k)
  {
    if keys == [] {
    } else {
      LaneAfterConsume(lanes, keys[..|keys| - 1], k);
      assert k in keys <==> k in keys[..|keys| - 1] || k == keys[|keys| - 1];
    }
  }

  lemma TxLanes(sys: System, w: World, tx: Tx, env: Environment)
    requires Accepted(sys, w, tx, env)
    ensures TxStep(sys, w, tx, env).lanes == Consume(w.lanes, tx.nonceKeys)
  {
    AcceptedCanPay(sys, w, tx, env);
  }

  lemma LanesGrow(sys: System, w: World, a: Action, k: nat)
    ensures Credit(Step(sys, w, a).lanes, k) >= Credit(w.lanes, k)
  {
    if a.PoolTx? && Accepted(sys, w, a.tx, a.env) {
      TxLanes(sys, w, a.tx, a.env);
      ConsumeCredit(w.lanes, a.tx.nonceKeys, k);
    }
  }

  lemma {:induction false} LanesGrowOver(sys: System, slot: nat, actions: seq<Action>, j: nat, k: nat)
    requires j <= |actions|
    ensures Credit(Run(sys, slot, actions).lanes, k) >= Credit(Run(sys, slot, actions[..j]).lanes, k)
    decreases |actions|
  {
    assert actions[..|actions|] == actions;
    if j == |actions| {
    } else {
      var n := |actions| - 1;
      LanesGrowOver(sys, slot, actions[..n], j, k);
      assert actions[..n][..j] == actions[..j];
      LanesGrow(sys, Run(sys, slot, actions[..n]), actions[n], k);
    }
  }

  lemma KeyConsumed(sys: System, slot: nat, actions: seq<Action>, i: nat, k: nat)
    requires i < |actions| && actions[i].PoolTx? && k in actions[i].tx.nonceKeys
    requires Accepted(sys, Run(sys, slot, actions[..i]), actions[i].tx, actions[i].env)
    ensures Credit(Run(sys, slot, actions[..i + 1]).lanes, k) >= 1
  {
    var w, a, upto := Run(sys, slot, actions[..i]), actions[i], actions[..i + 1];
    assert upto[..|upto| - 1] == actions[..i] && upto[|upto| - 1] == a;
    TxLanes(sys, w, a.tx, a.env);
    ConsumeCredit(w.lanes, a.tx.nonceKeys, k);
  }

  lemma UsedKeyNotAdmitted(sys: System, w: World, tx: Tx, k: nat)
    requires Approvable(sys, tx, 0) && k in tx.nonceKeys && Credit(w.lanes, k) >= 1
    ensures !Admitted(sys, w, tx)
  {
  }

  /** In every run, whatever the proofs and hashes are worth, two accepted spends share
      no nullifier: the later one is not admitted. */
  lemma NullifiersOnce(sys: System, slot: nat, actions: seq<Action>, i: nat, j: nat)
    requires i < j < |actions| && actions[i].PoolTx? && actions[j].PoolTx?
    requires Accepted(sys, Run(sys, slot, actions[..i]), actions[i].tx, actions[i].env)
    requires Approvable(sys, actions[j].tx, 0) && !DisjointKeys(actions[i].tx, actions[j].tx)
    ensures !Admitted(sys, Run(sys, slot, actions[..j]), actions[j].tx)
  {
    var k :| k in actions[i].tx.nonceKeys && k in actions[j].tx.nonceKeys;
    KeyConsumed(sys, slot, actions, i, k);
    LanesGrowOver(sys, slot, actions[..j], i + 1, k);
    assert actions[..j][..i + 1] == actions[..i + 1];
    UsedKeyNotAdmitted(sys, Run(sys, slot, actions[..j]), actions[j].tx, k);
  }

  /** Action `j` was an accepted spend that consumed key `k`. */
  ghost predicate ConsumedAt(sys: System, slot: nat, actions: seq<Action>, j: nat, k: nat)
    requires j < |actions|
  {
    actions[j].PoolTx? && k in actions[j].tx.nonceKeys
      && Accepted(sys, Run(sys, slot, actions[..j]), actions[j].tx, actions[j].env)
  }

  /** A step that moves a lane off zero is an accepted spend with that key. */
  lemma LaneMoves(sys: System, w: World, a: Action, k: nat)
    requires Credit(w.lanes, k) == 0 && Credit(Step(sys, w, a).lanes, k) >= 1
    ensures a.PoolTx? && k in a.tx.nonceKeys && Accepted(sys, w, a.tx, a.env)
  {
    if a.PoolTx? && Accepted(sys, w, a.tx, a.env) {
      TxLanes(sys, w, a.tx, a.env);
      LaneAfterConsume(w.lanes, a.tx.nonceKeys, k);
    }
  }

  lemma {:induction false} LaneCause(sys: System, slot: nat, actions: seq<Action>, k: nat) returns (j: nat)
    requires Credit(Run(sys, slot, actions).lanes, k) >= 1
    ensures j < |actions| && ConsumedAt(sys, slot, actions, j, k)
  {
    if actions == [] {
      assert false;
    } else {
      var n := |actions| - 1;
      var before := actions[..n];
      if Credit(Run(sys, slot, before).lanes, k) == 0 {
        LaneMoves(sys, Run(sys, slot, before), actions[n], k);
        j := n;
      } else {
        j := LaneCause(sys, slot, before, k);
        assert before[..j] == actions[..j];
      }
    }
  }

  lemma {:induction false} ConsumeExact(lanes: map<nat, nat>, keys: seq<nat>, k: nat)
    requires forall i: nat, j: nat | i < j < |keys| :: keys[i] < keys[j]
    ensures Credit(Consume(lanes, keys), k) == Credit(lanes, k) + (if k in keys then 1 else 0)
  {
    if keys == [] {
    } else {
      var init, last := keys[..|keys| - 1], keys[|keys| - 1];
      ConsumeExact(lanes, init, k);
      assert k in keys <==> k in init || k == last;
      assert last !in init;
    }
  }

  lemma {:induction false} LaneAtMostOne(sys: System, slot: nat, actions: seq<Action>, k: nat)
    ensures Credit(Run(sys, slot, actions).lanes, k) <= 1
  {
    if actions == [] {
    } else {
      var n := |actions| - 1;
      var w, a := Run(sys, slot, actions[..n]), actions[n];
      LaneAtMostOne(sys, slot, actions[..n], k);
      if a.PoolTx? && Accepted(sys, w, a.tx, a.env) {
        TxLanes(sys, w, a.tx, a.env);
        ConsumeExact(w.lanes, a.tx.nonceKeys, k);
      }
    }
  }

  /** A nullifier's lane has moved, by exactly one, when some accepted spend of the run
      consumed it, and stands at zero otherwise: nothing else reaches the lanes. */
  lemma LaneMovedIffConsumed(sys: System, slot: nat, actions: seq<Action>, k: nat)
    ensures Credit(Run(sys, slot, actions).lanes, k) >= 1
        <==> exists j: nat :: j < |actions| && ConsumedAt(sys, slot, actions, j, k)
    ensures Credit(Run(sys, slot, actions).lanes, k) <= 1
  {
    LaneAtMostOne(sys, slot, actions, k);
    if Credit(Run(sys, slot, actions).lanes, k) >= 1 {
      var j := LaneCause(sys, slot, actions, k);
    }
    forall j: nat | j < |actions| && ConsumedAt(sys, slot, actions, j, k)
      ensures Credit(Run(sys, slot, actions).lanes, k) >= 1
    {
      KeyConsumed(sys, slot, actions, j, k);
      LanesGrowOver(sys, slot, actions, j + 1, k);
    }
  }

  // ---- disjoint nullifiers: still authorized ----

  lemma OtherCell(a: nat, b: nat)
    requires a < b && b - a < RING
    ensures a % RING != b % RING
  {
  }

  /** A root published now lands in another cell than any reference still in its window. */
  lemma RefSurvives(w: World, after: World, r: RootRef)
    requires RefValid(w, r) && after.slot == w.slot
    requires after.pool.writes == w.pool.writes
          || exists root :: after.pool.writes == w.pool.writes + [RootWrite(w.slot, root)]
    ensures RefValid(after, r)
  {
    OtherCell(r.slot, w.slot);
    if after.pool.writes != w.pool.writes {
      assert after.pool.writes[..|after.pool.writes| - 1] == w.pool.writes;
    }
  }

  lemma TxWrites(sys: System, w: World, tx: Tx, env: Environment)
    requires Accepted(sys, w, tx, env)
    ensures var after := TxStep(sys, w, tx, env);
            && after.slot == w.slot
            && (after.pool.writes == w.pool.writes
                || exists root :: after.pool.writes == w.pool.writes + [RootWrite(w.slot, root)])
  {
    AcceptedCanPay(sys, w, tx, env);
    SettledBySpec(sys, AfterPayment(sys, w, tx), tx, env);
  }

  lemma StillAuthorized(sys: System, w: World, a: Tx, env: Environment, b: Tx)
    requires Accepted(sys, w, a, env) && Authorized(sys, w, b) && DisjointKeys(a, b)
    ensures Authorized(sys, TxStep(sys, w, a, env), b)
  {
    var after := TxStep(sys, w, a, env);
    TxWrites(sys, w, a, env);
    TxLanes(sys, w, a, env);
    forall k | k in b.nonceKeys ensures Credit(after.lanes, k) == b.nonceSeq {
      LaneAfterConsume(w.lanes, a.nonceKeys, k);
    }
    forall r | r in b.refs && r.source == sys.cfg.sourceId ensures RefValid(after, r) {
      RefSurvives(w, after, r);
    }
  }

  // ---- both execute ----

  /** The most the paymaster may be charged for a transaction. */
  function PaymasterShare(sys: System, tx: Tx): nat {
    if PayerOf(sys, tx) == sys.paymaster then tx.maxCost else 0
  }

  lemma StillFunded(sys: System, w: World, a: Tx, env: Environment, share: nat)
    requires SystemOk(sys) && Accepted(sys, w, a, env) && PayerBalance(sys, w) >= PaymasterShare(sys, a) + share
    ensures PayerBalance(sys, TxStep(sys, w, a, env)) >= share
  {
    AcceptedCanPay(sys, w, a, env);
    SettledBySpec(sys, AfterPayment(sys, w, a), a, env);
  }

  /** An environment in which nothing but room in the tree can stop a settlement. */
  predicate Smooth(env: Environment) { env.settleHasGas && env.predeployOk }

  function FeeAfter(sys: System, m: map<nat, nat>, tx: Tx): map<nat, nat>
    requires tx.frames != []
  {
    if PayerOf(sys, tx) == sys.cfg.self || TxSpend(tx).fee == 0 then m
    else AddCredit(m, PayerOf(sys, tx), TxSpend(tx).fee)
  }

  function WithdrawalAfter(m: map<nat, nat>, tx: Tx): map<nat, nat>
    requires tx.frames != []
  {
    if TxSpend(tx).publicAmount == 0 then m
    else AddCredit(m, RecipientOf(tx.frames[|tx.frames| - 1].data), TxSpend(tx).publicAmount)
  }

  /** Everything one settled spend does, except to the order of the logs. */
  ghost predicate ExecutedAs(sys: System, w: World, tx: Tx, env: Environment, after: World)
    requires tx.frames != []
  {
    var self, gas := sys.cfg.self, GasCost(tx, env);
    && after.pool.leaves == WithOutputs(w.pool.leaves, TxSpend(tx))
    && after.pool.feeCredit == FeeAfter(sys, w.pool.feeCredit, tx)
    && after.pool.withdrawalCredit == WithdrawalAfter(w.pool.withdrawalCredit, tx)
    && after.pool.balance == w.pool.balance - (if PayerOf(sys, tx) == self then gas else 0)
    && after.pool.sent == w.pool.sent
    && after.payerBase == w.payerBase - (if PayerOf(sys, tx) == sys.paymaster then gas else 0)
    && after.lanes == Consume(w.lanes, tx.nonceKeys) && after.slot == w.slot
  }

  lemma Executes(sys: System, ex: Extractor, w: World, hist: History, op: seq<Opening>, tx: Tx, env: Environment)
    requires SystemOk(sys) && KnowledgeSound(sys, ex) && Inv(sys, w, hist, op) && Accepted(sys, w, tx, env)
    requires Smooth(env)
    requires tx.frames != [] && NoBreak(sys.cfg, w.pool, HistoryTx(sys.cfg, hist, TxWitness(ex, tx)))
    requires |WithOutputs(w.pool.leaves, TxSpend(tx))| <= Capacity(sys.cfg)
    ensures ExecutedAs(sys, w, tx, env, TxStep(sys, w, tx, env)) && Settles(sys, w, tx, env)
  {
    AcceptedCanPay(sys, w, tx, env);
    PaymentMoves(sys, w, tx, env);
    ApprovalSettles(sys, ex, w, hist, op, tx, env);
  }

  lemma StillAccepted(sys: System, ex: Extractor, w: World, a: Tx, envA: Environment, histA: History, opA: seq<Opening>,
                      b: Tx, envB: Environment)
    requires SystemOk(sys) && KnowledgeSound(sys, ex) && Accepted(sys, w, a, envA) && Accepted(sys, w, b, envB)
    requires b.frames != [] && DisjointKeys(a, b)
    requires var mid := TxStep(sys, w, a, envA);
             Inv(sys, mid, histA, opA) && NoBreak(sys.cfg, mid.pool, HistoryTx(sys.cfg, histA, TxWitness(ex, b)))
    requires PayerBalance(sys, w) >= PaymasterShare(sys, a) + PaymasterShare(sys, b)
    ensures Accepted(sys, TxStep(sys, w, a, envA), b, envB)
  {
    StillAuthorized(sys, w, a, envA, b);
    StillFunded(sys, w, a, envA, PaymasterShare(sys, b));
    if |b.frames| == 2 { SelfPayIsFunded(sys, ex, TxStep(sys, w, a, envA), histA, opA, b, envB); }
  }

  /** One order: `b` is still accepted behind `a`, and both settle. */
  lemma BothExecute(sys: System, ex: Extractor, w: World, hist: History, op: seq<Opening>,
                    a: Tx, envA: Environment, b: Tx, envB: Environment)
    requires SystemOk(sys) && KnowledgeSound(sys, ex) && Inv(sys, w, hist, op)
    requires Accepted(sys, w, a, envA) && Accepted(sys, w, b, envB) && DisjointKeys(a, b) && Smooth(envA)
    requires Smooth(envB)
    requires a.frames != [] && b.frames != []
    requires PayerBalance(sys, w) >= PaymasterShare(sys, a) + PaymasterShare(sys, b)
    requires var both := WithOutputs(WithOutputs(w.pool.leaves, TxSpend(a)), TxSpend(b));
             && |both| <= Capacity(sys.cfg)
             && NoBreak(sys.cfg, TxStep(sys, TxStep(sys, w, a, envA), b, envB).pool,
                        HistoryTx(sys.cfg, HistoryTx(sys.cfg, hist, TxWitness(ex, a)), TxWitness(ex, b)))
    ensures var mid := TxStep(sys, w, a, envA);
            && Settles(sys, w, a, envA) && ExecutedAs(sys, w, a, envA, mid)
            && Accepted(sys, mid, b, envB) && Settles(sys, mid, b, envB)
            && ExecutedAs(sys, mid, b, envB, TxStep(sys, mid, b, envB))
  {
    var cfg, mid := sys.cfg, TxStep(sys, w, a, envA);
    var histA := HistoryTx(cfg, hist, TxWitness(ex, a));
    var histB := HistoryTx(cfg, histA, TxWitness(ex, b));
    var some := WithOutputs(w.pool.leaves, TxSpend(a));
    var both := WithOutputs(some, TxSpend(b));
    OutputsGrow(some, TxSpend(b));
    TxGrows(sys, w, a, envA);
    StepGrows(sys, mid, PoolTx(b, envB));
    var last := TxStep(sys, mid, b, envB).pool;
    NoBreakEarlier(cfg, w.pool, histA, last, histB);
    NoBreakEarlier(cfg, mid.pool, histB, last, histB);
    Executes(sys, ex, w, hist, op, a, envA);
    var opA := PoolTxKeeps(sys, ex, w, hist, op, a, envA);
    StillAccepted(sys, ex, w, a, envA, histA, opA, b, envB);
    Executes(sys, ex, mid, histA, opA, b, envB);
  }

  // ---- and end in the same place ----

  /** Worlds that differ at most in the order of leaves and logs. */
  ghost predicate SameUpToOrder(a: World, b: World) {
    && (forall x :: x in a.pool.leaves <==> x in b.pool.leaves) && |a.pool.leaves| == |b.pool.leaves|
    && a.pool.withdrawalCredit == b.pool.withdrawalCredit && a.pool.feeCredit == b.pool.feeCredit
    && a.pool.balance == b.pool.balance && a.pool.sent == b.pool.sent
    && a.lanes == b.lanes && a.payerBase == b.payerBase && a.slot == b.slot
  }

  lemma AddCreditCommutes(m: map<nat, nat>, a: nat, x: nat, b: nat, y: nat)
    ensures AddCredit(AddCredit(m, a, x), b, y) == AddCredit(AddCredit(m, b, y), a, x)
  {
  }

  lemma {:induction false} ConsumePast(lanes: map<nat, nat>, keys: seq<nat>, k: nat)
    ensures Consume(AddCredit(lanes, k, 1), keys) == AddCredit(Consume(lanes, keys), k, 1)
  {
    if keys == [] {
    } else {
      ConsumePast(lanes, keys[..|keys| - 1], k);
      AddCreditCommutes(Consume(lanes, keys[..|keys| - 1]), k, 1, keys[|keys| - 1], 1);
    }
  }

  lemma {:induction false} ConsumeCommutes(lanes: map<nat, nat>, a: seq<nat>, b: seq<nat>)
    ensures Consume(Consume(lanes, a), b) == Consume(Consume(lanes, b), a)
  {
    if a == [] {
    } else {
      var init, k := a[..|a| - 1], a[|a| - 1];
      ConsumePast(Consume(lanes, init), b, k);
      ConsumeCommutes(lanes, init, b);
    }
  }

  lemma {:induction false} DistinctCount(s: seq<nat>, xs: set<nat>)
    requires Distinct(s) && forall x :: x in xs <==> x in s
    ensures |xs| == |s|
  {
    if s == [] {
    } else {
      var init, last := s[..|s| - 1], s[|s| - 1];
      assert last !in init;
      forall x ensures x in xs - {last} <==> x in init {
        assert x in s <==> x in init || x == last;
      }
      DistinctCount(init, xs - {last});
    }
  }

  lemma OutputMembers(leaves: seq<nat>, sp: Spend, x: nat)
    ensures x in WithOutputs(leaves, sp) <==> x in leaves || x == sp.outCm1 || x == sp.outCm2
  {
  }

  lemma OutputsCommute(leaves: seq<nat>, a: Spend, b: Spend)
    requires Distinct(leaves)
    ensures var ab, ba := WithOutputs(WithOutputs(leaves, a), b), WithOutputs(WithOutputs(leaves, b), a);
            (forall x :: x in ab <==> x in ba) && |ab| == |ba|
  {
    var ab, ba := WithOutputs(WithOutputs(leaves, a), b), WithOutputs(WithOutputs(leaves, b), a);
    forall x ensures x in ab <==> x in ba {
      OutputMembers(leaves, a, x);
      OutputMembers(leaves, b, x);
      OutputMembers(WithOutputs(leaves, a), b, x);
      OutputMembers(WithOutputs(leaves, b), a, x);
    }
    OutputsGrow(leaves, a);
    OutputsGrow(leaves, b);
    OutputsGrow(WithOutputs(leaves, a), b);
    OutputsGrow(WithOutputs(leaves, b), a);
    var xs := set x | x in ab;
    DistinctCount(ab, xs);
    DistinctCount(ba, xs);
  }

  lemma ExecutionsCommute(sys: System, w: World, a: Tx, envA: Environment, b: Tx, envB: Environment,
                          wa: World, wab: World, wb: World, wba: World)
    requires a.frames != [] && b.frames != [] && Distinct(w.pool.leaves)
    requires ExecutedAs(sys, w, a, envA, wa) && ExecutedAs(sys, wa, b, envB, wab)
    requires ExecutedAs(sys, w, b, envB, wb) && ExecutedAs(sys, wb, a, envA, wba)
    ensures SameUpToOrder(wab, wba)
  {
    var whoA, whoB := RecipientOf(a.frames[|a.frames| - 1].data), RecipientOf(b.frames[|b.frames| - 1].data);
    AddCreditCommutes(w.pool.feeCredit, PayerOf(sys, a), TxSpend(a).fee, PayerOf(sys, b), TxSpend(b).fee);
    AddCreditCommutes(w.pool.withdrawalCredit, whoA, TxSpend(a).publicAmount, whoB, TxSpend(b).publicAmount);
    ConsumeCommutes(w.lanes, a.nonceKeys, b.nonceKeys);
    OutputsCommute(w.pool.leaves, TxSpend(a), TxSpend(b));
  }

  /** Disjoint spends commute: accepted side by side, they are accepted and settle in
      either order, and end with the same leaves, credits, consumed keys and ether. */
  lemma DisjointSpendsCommute(sys: System, ex: Extractor, w: World, hist: History, op: seq<Opening>,
                              a: Tx, envA: Environment, b: Tx, envB: Environment)
    requires SystemOk(sys) && KnowledgeSound(sys, ex) && Inv(sys, w, hist, op)
    requires Accepted(sys, w, a, envA) && Accepted(sys, w, b, envB) && DisjointKeys(a, b) && Smooth(envA)
    requires Smooth(envB)
    requires a.frames != [] && b.frames != []
    requires PayerBalance(sys, w) >= PaymasterShare(sys, a) + PaymasterShare(sys, b)
    requires |WithOutputs(WithOutputs(w.pool.leaves, TxSpend(a)), TxSpend(b))| <= Capacity(sys.cfg)
    requires NoBreak(sys.cfg, TxStep(sys, TxStep(sys, w, a, envA), b, envB).pool,
                     HistoryTx(sys.cfg, HistoryTx(sys.cfg, hist, TxWitness(ex, a)), TxWitness(ex, b)))
    requires NoBreak(sys.cfg, TxStep(sys, TxStep(sys, w, b, envB), a, envA).pool,
                     HistoryTx(sys.cfg, HistoryTx(sys.cfg, hist, TxWitness(ex, b)), TxWitness(ex, a)))
    ensures var wa, wb := TxStep(sys, w, a, envA), TxStep(sys, w, b, envB);
            && Settles(sys, w, a, envA) && Accepted(sys, wa, b, envB) && Settles(sys, wa, b, envB)
            && Settles(sys, w, b, envB) && Accepted(sys, wb, a, envA) && Settles(sys, wb, a, envA)
            && SameUpToOrder(TxStep(sys, wa, b, envB), TxStep(sys, wb, a, envA))
  {
    OutputsCommute(w.pool.leaves, TxSpend(a), TxSpend(b));
    BothExecute(sys, ex, w, hist, op, a, envA, b, envB);
    BothExecute(sys, ex, w, hist, op, b, envB, a, envA);
    var wa, wb := TxStep(sys, w, a, envA), TxStep(sys, w, b, envB);
    ExecutionsCommute(sys, w, a, envA, b, envB, wa, TxStep(sys, wa, b, envB), wb, TxStep(sys, wb, a, envA));
  }
}
