/** Whole runs of the pool: every step keeps the invariant of `Safety`, so every
    reachable world is solvent and never pays for one leaf twice. */
module Runs {
  import opened Merkle
  import opened Powers
  import opened Circuit
  import opened PoolSpec
  import opened Envelope
  import opened Dispatcher
  import opened Protocol
  import opened Ledger
  import opened PoolInvariant
  import opened Safety

  // ---- what only grows ----

  /** A settle frame that does not revert is the settlement, plus the withdrawal credit. */
  lemma SettledBySpec(sys: System, w: World, tx: Tx, env: Environment)
    requires tx.frames != []
    ensures var r := SettleOutcome(sys, w, tx, env);
            var settled := SettleSpec(sys.cfg, w.pool, TxSpend(tx), PayerOf(sys, tx), Block(w.slot, env.predeployOk));
            var data := tx.frames[|tx.frames| - 1].data;
            match r
            case Reverted(_) => true
            case Done(t) =>
              && settled.Done?
              && var before := settled.state.withdrawalCredit;
              var credited := AddCredit(before, RecipientOf(data), TxSpend(tx).publicAmount);
              t == if Selector(data) == TRANSFER then settled.state else settled.state.(withdrawalCredit := credited)
  {
  }

  /** Settlement appends leaves and never touches the pool's ether. */
  lemma SettleOutcomeGrows(sys: System, w: World, tx: Tx, env: Environment)
    requires tx.frames != []
    ensures var r := SettleOutcome(sys, w, tx, env);
            r.Done? ==> Grown(sys.cfg, w.pool, r.state, w.slot) && r.state.balance == w.pool.balance
  {
    var s, blk := TxSpend(tx), Block(w.slot, env.predeployOk);
    SettleGrows(sys.cfg, w.pool, s, PayerOf(sys, tx), blk);
    SettledBySpec(sys, w, tx, env);
  }

  /** Paying and refunding move ether only. */
  lemma ChargeGrows(sys: System, w: World, payer: nat, amount: int)
    requires payer == sys.cfg.self ==> w.pool.balance >= amount
    ensures var r := ChargePayer(sys, w, payer, amount);
            Grown(sys.cfg, w.pool, r.pool, w.slot) && r.slot == w.slot && r.lanes == w.lanes
  {
  }

  lemma TxGrows(sys: System, w: World, tx: Tx, env: Environment)
    requires Accepted(sys, w, tx, env)
    ensures Grown(sys.cfg, w.pool, TxStep(sys, w, tx, env).pool, w.slot)
  {
    AcceptedCanPay(sys, w, tx, env);
    var paid, payer := AfterPayment(sys, w, tx), PayerOf(sys, tx);
    ChargeGrows(sys, w, payer, tx.maxCost);
    SettleOutcomeGrows(sys, paid, tx, env);
    var r := SettleOutcome(sys, paid, tx, env);
    var settled := if r.Done? then paid.(pool := r.state) else paid;
    ChargeGrows(sys, settled, payer, GasCost(tx, env) - tx.maxCost);
  }

  lemma StepGrows(sys: System, w: World, a: Action)
    ensures Grown(sys.cfg, w.pool, Step(sys, w, a).pool, w.slot)
  {
    match a
    case Outside(call, ok) => CallGrows(sys.cfg, w.pool, call, Block(w.slot, ok));
    case PoolTx(tx, env) => if Accepted(sys, w, tx, env) { TxGrows(sys, w, tx, env); }
    case _ =>
  }

  lemma HistoryGrows(sys: System, ex: Extractor, w: World, hist: History, a: Action)
    ensures var hist' := HistoryStep(sys, ex, w, hist, a);
            hist.q2 <= hist'.q2 && hist.q3 <= hist'.q3 && hist.spent <= hist'.spent
  {
  }

  lemma TreeHashedLater(cfg: Config, s: PoolState, s': PoolState, a: (nat, nat))
    requires TreeHashed(cfg, s, a) && s.leaves <= s'.leaves && s.writes <= s'.writes
    ensures TreeHashed(cfg, s', a)
  {
    var k: nat, l: nat, i: nat :|
      Published(cfg, s, k) && l < cfg.depth && i < Pow2(cfg.depth - l - 1)
        && a == NodePair(cfg.H.h2, s.leaves[..k], l, i);
    var j: nat :| j < |s.writes| && s.writes[j].root == TreeRoot(cfg, s.leaves[..k]);
    assert s'.leaves[..k] == s.leaves[..k] && s'.writes[j] == s.writes[j];
    assert Published(cfg, s', k);
  }

  /** A run without a break had none before. */
  lemma NoBreakEarlier(cfg: Config, s: PoolState, hist: History, s': PoolState, hist': History)
    requires NoBreak(cfg, s', hist') && s.leaves <= s'.leaves && s.writes <= s'.writes
    requires hist.q2 <= hist'.q2 && hist.q3 <= hist'.q3
    ensures NoBreak(cfg, s, hist)
  {
    forall a | Hashed2(cfg, s, hist, a) ensures Hashed2(cfg, s', hist', a) {
      if TreeHashed(cfg, s, a) { TreeHashedLater(cfg, s, s', a); }
    }
  }

  // ---- one step ----

  ghost function MarginOf(sys: System, w: World, hist: History, op: seq<Opening>): int
    requires |op| == |w.pool.leaves|
  {
    Margin(w.pool, op, SpentLeaves(sys.cfg, hist.spent))
  }

  lemma OutsideKeeps(sys: System, w: World, hist: History, op: seq<Opening>, call: Call, ok: bool)
    returns (op': seq<Opening>)
    requires Inv(sys, w, hist, op)
    ensures Inv(sys, Step(sys, w, Outside(call, ok)), hist.(q3 := hist.q3 + CallQueries(call)), op')
    ensures MarginOf(sys, Step(sys, w, Outside(call, ok)), hist, op') == MarginOf(sys, w, hist, op)
  {
    var hist', spent, blk := hist.(q3 := hist.q3 + CallQueries(call)), SpentLeaves(sys.cfg, hist.spent),
      Block(w.slot, ok);
    LeavesOkMoreQueries(sys.cfg, w.pool, w.pool, op, spent, spent, hist.q3, hist'.q3);
    op' := CallKeeps(sys.cfg, w.pool, op, spent, hist'.q3, call, blk);
    forall n | n in hist'.spent ensures SpentOk(sys.cfg, w.lanes, hist', n) {
      assert SpentOk(sys.cfg, w.lanes, hist, n);
    }
    CallGrows(sys.cfg, w.pool, call, blk);
    if CallSpec(sys.cfg, w.pool, call, blk).Reverted? { op' := op; }
  }

  /** What a settled spend adds to what the pool owes. */
  function TakenOn(sys: System, leaves: seq<nat>, tx: Tx, out1: nat, out2: nat): nat
    requires tx.frames != []
  {
    var s := TxSpend(tx);
    NewValue(leaves, s, out1, out2) + ForeignFee(sys.cfg, s, PayerOf(sys, tx)) + s.publicAmount
  }

  /** Settlement after payment approval: the slack set aside pays for exactly what the
      pool takes on. */
  lemma SettledKeeps(sys: System, w: World, tx: Tx, env: Environment, op: seq<Opening>, spent: set<nat>,
                     q3: set<(nat, nat, nat)>, o1: Opening, o2: Opening) returns (op': seq<Opening>)
    requires tx.frames != []
    requires PoolInv(sys.cfg, w.pool, op, spent, q3, Moved(sys.cfg, TxSpend(tx), PayerOf(sys, tx), o1.value, o2.value))
    requires Opens(sys.cfg, q3, TxSpend(tx).outCm1, o1) && Opens(sys.cfg, q3, TxSpend(tx).outCm2, o2)
    ensures var r := SettleOutcome(sys, w, tx, env);
            var t := if r.Done? then r.state else w.pool;
            && PoolInv(sys.cfg, t, op', spent, q3, 0)
            && Margin(t, op', spent)
            == Margin(w.pool, op, spent) - (if r.Done? then TakenOn(sys, w.pool.leaves, tx, o1.value, o2.value) else 0)
  {
    op' := op;
    var r, s, blk := SettleOutcome(sys, w, tx, env), TxSpend(tx), Block(w.slot, env.predeployOk);
    if r.Done? {
      SettledBySpec(sys, w, tx, env);
      op' := SettleKeeps(sys.cfg, w.pool, op, spent, q3, s, PayerOf(sys, tx), blk, o1, o2);
      var settled := SettleSpec(sys.cfg, w.pool, s, PayerOf(sys, tx), blk).state;
      if r.state != settled {
        WithdrawKeeps(sys.cfg, settled, op', spent, q3, RecipientOf(tx.frames[|tx.frames| - 1].data), s.publicAmount);
      }
    }
  }

  lemma OutputsOpen(sys: System, ex: Extractor, w: World, hist: History, tx: Tx, env: Environment)
    requires SystemOk(sys) && KnowledgeSound(sys, ex) && Accepted(sys, w, tx, env)
    ensures tx.frames != []
    ensures var wit := TxWitness(ex, tx);
            var q3 := HistoryTx(sys.cfg, hist, wit).q3;
            && Opens(sys.cfg, q3, TxSpend(tx).outCm1, Opening(wit.outInner1, wit.outValue1))
            && Opens(sys.cfg, q3, TxSpend(tx).outCm2, Opening(wit.outInner2, wit.outValue2))
  {
    ProvenStatement(sys, ex, w, tx);
  }

  /** The settle frame keeps what payment approval established. */
  lemma AcceptedSettleKeeps(sys: System, ex: Extractor, w: World, hist: History, op: seq<Opening>, tx: Tx,
                            env: Environment)
      returns (op': seq<Opening>)
    requires SystemOk(sys) && KnowledgeSound(sys, ex) && Inv(sys, w, hist, op) && Accepted(sys, w, tx, env)
    requires tx.frames != [] && NoBreak(sys.cfg, w.pool, HistoryTx(sys.cfg, hist, TxWitness(ex, tx)))
    ensures PayerOf(sys, tx) == sys.cfg.self ==> w.pool.balance >= tx.maxCost
    ensures var paid, hist' := AfterPayment(sys, w, tx), HistoryTx(sys.cfg, hist, TxWitness(ex, tx));
            var r := SettleOutcome(sys, paid, tx, env);
            var t := if r.Done? then r.state else paid.pool;
            var spent, wit := SpentLeaves(sys.cfg, hist'.spent), TxWitness(ex, tx);
            && PoolInv(sys.cfg, t, op', spent, hist'.q3, 0)
            && Margin(t, op', spent)
            == Margin(paid.pool, op, spent)
               - (if r.Done? then TakenOn(sys, w.pool.leaves, tx, wit.outValue1, wit.outValue2) else 0)
  {
    var cfg, wit := sys.cfg, TxWitness(ex, tx);
    var hist' := HistoryTx(cfg, hist, wit);
    AcceptKeeps(sys, ex, w, hist, op, tx, env);
    OutputsOpen(sys, ex, w, hist, tx, env);
    PaymentMoves(sys, w, tx, env);
    op' := SettledKeeps(sys, AfterPayment(sys, w, tx), tx, env, op, SpentLeaves(cfg, hist'.spent), hist'.q3,
                        Opening(wit.outInner1, wit.outValue1), Opening(wit.outInner2, wit.outValue2));
  }

  /** What an accepted spend adds to the margin: the value of duplicate outputs and, when
      the pool paid, the fee above the gas -- or, if it does not settle, all its inputs
      less that gas. */
  ghost function TxGain(sys: System, w: World, tx: Tx, env: Environment, wit: Witness): int
    requires Accepted(sys, w, tx, env)
  {
    AcceptedCanPay(sys, w, tx, env);
    var s, ownGas := TxSpend(tx), if PayerOf(sys, tx) == sys.cfg.self then GasCost(tx, env) else 0;
    if Settles(sys, w, tx, env) then
      wit.outValue1 + wit.outValue2 - NewValue(w.pool.leaves, s, wit.outValue1, wit.outValue2)
      + s.fee - ForeignFee(sys.cfg, s, PayerOf(sys, tx)) - ownGas
    else wit.in1.value + wit.in2.value - ownGas
  }

  lemma AcceptRecords(sys: System, ex: Extractor, w: World, hist: History, op: seq<Opening>, tx: Tx, env: Environment)
    requires SystemOk(sys) && KnowledgeSound(sys, ex) && Inv(sys, w, hist, op) && Accepted(sys, w, tx, env)
    requires tx.frames != [] && NoBreak(sys.cfg, w.pool, HistoryTx(sys.cfg, hist, TxWitness(ex, tx)))
    ensures var hist' := HistoryTx(sys.cfg, hist, TxWitness(ex, tx));
            && (forall n :: n in hist'.spent ==> SpentOk(sys.cfg, Consume(w.lanes, tx.nonceKeys), hist', n))
            && NoneTwice(sys.cfg, hist'.spent)
  {
    AcceptKeeps(sys, ex, w, hist, op, tx, env);
    PaymentMoves(sys, w, tx, env);
  }

  /** The refund returns what gas did not use, to whoever paid. */
  lemma RefundKeeps(sys: System, w: World, before: nat, tx: Tx, env: Environment, op: seq<Opening>, spent: set<nat>,
                    q3: set<(nat, nat, nat)>)
    requires PoolInv(sys.cfg, w.pool, op, spent, q3, 0) && before < WORD
    requires PayerOf(sys, tx) == sys.cfg.self ==> w.pool.balance == before - tx.maxCost
    ensures var r := Refund(sys, w, tx, env);
            && PoolInv(sys.cfg, r.pool, op, spent, q3, 0)
            && r.lanes == w.lanes && r.slot == w.slot && r.pool.writes == w.pool.writes
            && Margin(r.pool, op, spent)
            == Margin(w.pool, op, spent)
               + (if PayerOf(sys, tx) == sys.cfg.self then tx.maxCost - GasCost(tx, env) else 0)
  {
  }

  lemma PoolTxKeeps(sys: System, ex: Extractor, w: World, hist: History, op: seq<Opening>, tx: Tx, env: Environment)
      returns (op': seq<Opening>)
    requires SystemOk(sys) && KnowledgeSound(sys, ex) && Inv(sys, w, hist, op) && Accepted(sys, w, tx, env)
    requires tx.frames != [] && NoBreak(sys.cfg, w.pool, HistoryTx(sys.cfg, hist, TxWitness(ex, tx)))
    ensures var after, hist' := TxStep(sys, w, tx, env), HistoryTx(sys.cfg, hist, TxWitness(ex, tx));
            && Inv(sys, after, hist', op')
            && MarginOf(sys, after, hist', op')
               == MarginOf(sys, w, hist, op) + TxGain(sys, w, tx, env, TxWitness(ex, tx))
  {
    var hist' := HistoryTx(sys.cfg, hist, TxWitness(ex, tx));
    op' := AcceptedSettleKeeps(sys, ex, w, hist, op, tx, env);
    PaymentMoves(sys, w, tx, env);
    var paid := AfterPayment(sys, w, tx);
    SettleOutcomeGrows(sys, paid, tx, env);
    var r := SettleOutcome(sys, paid, tx, env);
    var settled := if r.Done? then paid.(pool := r.state) else paid;
    RefundKeeps(sys, settled, w.pool.balance, tx, env, op', SpentLeaves(sys.cfg, hist'.spent), hist'.q3);
    AcceptRecords(sys, ex, w, hist, op, tx, env);
    AcceptBalances(sys, ex, w, hist, op, tx, env);
    ProvenConserves(sys, ex, w, tx);
  }

  lemma AcceptedTxKeeps(sys: System, ex: Extractor, w: World, hist: History, op: seq<Opening>, tx: Tx, env: Environment)
      returns (op': seq<Opening>)
    requires SystemOk(sys) && KnowledgeSound(sys, ex) && Inv(sys, w, hist, op) && Accepted(sys, w, tx, env)
    requires tx.frames != []
    requires NoBreak(sys.cfg, TxStep(sys, w, tx, env).pool, HistoryTx(sys.cfg, hist, TxWitness(ex, tx)))
    ensures var after, hist' := TxStep(sys, w, tx, env), HistoryTx(sys.cfg, hist, TxWitness(ex, tx));
            && Inv(sys, after, hist', op')
            && MarginOf(sys, after, hist', op')
               == MarginOf(sys, w, hist, op) + TxGain(sys, w, tx, env, TxWitness(ex, tx))
  {
    TxGrows(sys, w, tx, env);
    var hist' := HistoryTx(sys.cfg, hist, TxWitness(ex, tx));
    NoBreakEarlier(sys.cfg, w.pool, hist', TxStep(sys, w, tx, env).pool, hist');
    op' := PoolTxKeeps(sys, ex, w, hist, op, tx, env);
  }

  /** What one step adds to the margin. */
  ghost function Gain(sys: System, ex: Extractor, w: World, a: Action): int {
    match a
    case PoolTx(tx, env) =>
      if Accepted(sys, w, tx, env) then
        AcceptedCanPay(sys, w, tx, env);
        TxGain(sys, w, tx, env, TxWitness(ex, tx))
      else 0
    case ForcedEther(amount) => if w.pool.balance + amount >= WORD then 0 else amount
    case _ => 0
  }

  /** Clock ticks and ether from outside. */
  lemma QuietKeeps(sys: System, ex: Extractor, w: World, hist: History, op: seq<Opening>, a: Action)
    requires Inv(sys, w, hist, op) && (a.Tick? || a.ForcedEther? || a.FundPaymaster?)
    ensures Inv(sys, Step(sys, w, a), hist, op)
    ensures MarginOf(sys, Step(sys, w, a), hist, op) == MarginOf(sys, w, hist, op) + Gain(sys, ex, w, a)
  {
  }

  /** Every step keeps the invariant and moves the margin by exactly its gain. */
  lemma StepKeeps(sys: System, ex: Extractor, w: World, hist: History, op: seq<Opening>, a: Action)
    returns (op': seq<Opening>)
    requires SystemOk(sys) && KnowledgeSound(sys, ex) && Inv(sys, w, hist, op)
    requires NoBreak(sys.cfg, Step(sys, w, a).pool, HistoryStep(sys, ex, w, hist, a))
    ensures var after, hist' := Step(sys, w, a), HistoryStep(sys, ex, w, hist, a);
            && Inv(sys, after, hist', op')
            && MarginOf(sys, after, hist', op') == MarginOf(sys, w, hist, op) + Gain(sys, ex, w, a)
  {
    op' := op;
    match a
    case Outside(call, ok) => op' := OutsideKeeps(sys, w, hist, op, call, ok);
    case PoolTx(tx, env) =>
      if Accepted(sys, w, tx, env) {
        AcceptedCanPay(sys, w, tx, env);
        op' := AcceptedTxKeeps(sys, ex, w, hist, op, tx, env);
      }
    case _ => QuietKeeps(sys, ex, w, hist, op, a);
  }

  lemma StartOk(sys: System, slot: nat)
    ensures Inv(sys, Start(sys, slot), History([], {}, {}), [])
  {
    PresentRoot(sys.cfg, []);
  }

  // ---- every run ----

  ghost predicate Sound(sys: System, ex: Extractor, slot: nat, actions: seq<Action>) {
    && SystemOk(sys) && KnowledgeSound(sys, ex)
    && NoBreak(sys.cfg, Run(sys, slot, actions).pool, RunHistory(sys, ex, slot, actions))
  }

  lemma SoundEarlier(sys: System, ex: Extractor, slot: nat, actions: seq<Action>)
    requires Sound(sys, ex, slot, actions) && actions != []
    ensures Sound(sys, ex, slot, actions[..|actions| - 1])
  {
    var before, a := actions[..|actions| - 1], actions[|actions| - 1];
    var w, hist := Run(sys, slot, before), RunHistory(sys, ex, slot, before);
    StepGrows(sys, w, a);
    HistoryGrows(sys, ex, w, hist, a);
    NoBreakEarlier(sys.cfg, w.pool, hist, Step(sys, w, a).pool, HistoryStep(sys, ex, w, hist, a));
  }

  /** What the steps of a run have added to the margin. */
  ghost function Gains(sys: System, ex: Extractor, slot: nat, actions: seq<Action>): int {
    if actions == [] then 0
    else
      var before := actions[..|actions| - 1];
      Gains(sys, ex, slot, before) + Gain(sys, ex, Run(sys, slot, before), actions[|actions| - 1])
  }

  /** After every run whose hashes contain no break the invariant holds, and the margin is
      the sum of the steps' gains. */
  lemma {:induction false} RunKeeps(sys: System, ex: Extractor, slot: nat, actions: seq<Action>)
    returns (op: seq<Opening>)
    requires Sound(sys, ex, slot, actions)
    ensures var w, hist := Run(sys, slot, actions), RunHistory(sys, ex, slot, actions);
            Inv(sys, w, hist, op) && MarginOf(sys, w, hist, op) == Gains(sys, ex, slot, actions)
  {
    if actions == [] {
      StartOk(sys, slot);
      op := [];
    } else {
      var before := actions[..|actions| - 1];
      SoundEarlier(sys, ex, slot, actions);
      var mid := RunKeeps(sys, ex, slot, before);
      op := StepKeeps(sys, ex, Run(sys, slot, before), RunHistory(sys, ex, slot, before), mid, actions[|actions| - 1]);
    }
  }

  /** No step lowers the margin: the fee covers the pool's gas, and inputs cover the fee. */
  lemma GainNotNegative(sys: System, ex: Extractor, w: World, a: Action)
    requires SystemOk(sys) && KnowledgeSound(sys, ex)
    ensures Gain(sys, ex, w, a) >= 0
  {
    if a.PoolTx? && Accepted(sys, w, a.tx, a.env) {
      PaymentMoves(sys, w, a.tx, a.env);
      ProvenConserves(sys, ex, w, a.tx);
    }
  }

  lemma {:induction false} GainsGrow(sys: System, ex: Extractor, slot: nat, actions: seq<Action>, k: nat)
    requires SystemOk(sys) && KnowledgeSound(sys, ex) && k <= |actions|
    ensures 0 <= Gains(sys, ex, slot, actions[..k]) <= Gains(sys, ex, slot, actions)
    decreases |actions|
  {
    assert actions[..|actions|] == actions;
    if actions == [] {
    } else {
      var before := actions[..|actions| - 1];
      GainNotNegative(sys, ex, Run(sys, slot, before), actions[|actions| - 1]);
      if k == |actions| {
        GainsGrow(sys, ex, slot, before, |before|);
        assert before[..|before|] == before;
      } else {
        GainsGrow(sys, ex, slot, before, k);
        assert before[..k] == actions[..k];
      }
    }
  }

  /** Every run at all: the invariant holds, or the run's own hashes contain the collision
      or zero preimage returned here. */
  lemma SafeOrBroken(sys: System, ex: Extractor, slot: nat, actions: seq<Action>) returns (op: seq<Opening>, k: Break)
    requires SystemOk(sys) && KnowledgeSound(sys, ex)
    ensures Inv(sys, Run(sys, slot, actions), RunHistory(sys, ex, slot, actions), op)
         || IsBreak(sys.cfg, Run(sys, slot, actions).pool, RunHistory(sys, ex, slot, actions), k)
  {
    op := [];
    k := BreakExhibited(sys.cfg, Run(sys, slot, actions).pool, RunHistory(sys, ex, slot, actions));
    if Sound(sys, ex, slot, actions) { op := RunKeeps(sys, ex, slot, actions); }
  }

  lemma {:induction false} SoundPrefix(sys: System, ex: Extractor, slot: nat, actions: seq<Action>, k: nat)
    requires Sound(sys, ex, slot, actions) && k <= |actions|
    ensures Sound(sys, ex, slot, actions[..k])
    decreases |actions|
  {
    if k < |actions| {
      SoundEarlier(sys, ex, slot, actions);
      SoundPrefix(sys, ex, slot, actions[..|actions| - 1], k);
      assert actions[..|actions| - 1][..k] == actions[..k];
    } else {
      assert actions[..k] == actions;
    }
  }

  /** Openings on record are unique when no hash broke. */
  lemma OpeningsUnique(cfg: Config, s: PoolState, hist: History, op: seq<Opening>, other: seq<Opening>)
    requires NoBreak(cfg, s, hist) && |op| == |other| == |s.leaves|
    requires forall i: nat | i < |op| :: Opens(cfg, hist.q3, s.leaves[i], op[i])
    requires forall i: nat | i < |op| :: Opens(cfg, hist.q3, s.leaves[i], other[i])
    ensures op == other
  {
  }

  /** Solvency, to the wei: after every run the pool holds what it owes to every unspent
      leaf, at the value its commitment opens to, and to every withdrawal and fee credit,
      plus the gains of the run's steps, which are never negative: forced ether, duplicate
      outputs, inputs burned by a settlement that failed, and fees above the pool's gas. */
  lemma Solvency(sys: System, ex: Extractor, slot: nat, actions: seq<Action>, op: seq<Opening>)
    requires Sound(sys, ex, slot, actions)
    requires var w, hist := Run(sys, slot, actions), RunHistory(sys, ex, slot, actions);
             |op| == |w.pool.leaves| && forall i: nat | i < |op| :: Opens(sys.cfg, hist.q3, w.pool.leaves[i], op[i])
    ensures var w, hist := Run(sys, slot, actions), RunHistory(sys, ex, slot, actions);
            w.pool.balance == Unspent(w.pool.leaves, op, SpentLeaves(sys.cfg, hist.spent))
                              + Total(w.pool.withdrawalCredit) + Total(w.pool.feeCredit) + Gains(sys, ex, slot, actions)
    ensures Gains(sys, ex, slot, actions) >= 0
  {
    var w, hist := Run(sys, slot, actions), RunHistory(sys, ex, slot, actions);
    var mine := RunKeeps(sys, ex, slot, actions);
    OpeningsUnique(sys.cfg, w.pool, hist, mine, op);
  }

  /** The margin never falls along a run: at any earlier point it was at most what it is
      at the end, whatever openings the books are kept in. */
  lemma MarginNeverFalls(sys: System, ex: Extractor, slot: nat, actions: seq<Action>, k: nat,
                         early: seq<Opening>, late: seq<Opening>)
    requires Sound(sys, ex, slot, actions) && k <= |actions|
    requires var w, hist := Run(sys, slot, actions[..k]), RunHistory(sys, ex, slot, actions[..k]);
             |early| == |w.pool.leaves|
             && forall i: nat | i < |early| :: Opens(sys.cfg, hist.q3, w.pool.leaves[i], early[i])
    requires var w, hist := Run(sys, slot, actions), RunHistory(sys, ex, slot, actions);
             |late| == |w.pool.leaves|
             && forall i: nat | i < |late| :: Opens(sys.cfg, hist.q3, w.pool.leaves[i], late[i])
    ensures MarginOf(sys, Run(sys, slot, actions[..k]), RunHistory(sys, ex, slot, actions[..k]), early)
         <= MarginOf(sys, Run(sys, slot, actions), RunHistory(sys, ex, slot, actions), late)
  {
    SoundPrefix(sys, ex, slot, actions, k);
    Solvency(sys, ex, slot, actions[..k], early);
    Solvency(sys, ex, slot, actions, late);
    GainsGrow(sys, ex, slot, actions, k);
  }

  /** No leaf is ever spent for value twice, by accepted transactions whether or not
      they settled, and whatever is spent is a leaf. */
  lemma NoDoubleSpend(sys: System, ex: Extractor, slot: nat, actions: seq<Action>, i: nat, j: nat)
    requires Sound(sys, ex, slot, actions) && i < j < |RunHistory(sys, ex, slot, actions).spent|
    ensures var spent := RunHistory(sys, ex, slot, actions).spent;
            && NoteCm(sys.cfg.H, spent[i]) != NoteCm(sys.cfg.H, spent[j])
            && NoteCm(sys.cfg.H, spent[i]) in Run(sys, slot, actions).pool.leaves
  {
    var spent := RunHistory(sys, ex, slot, actions).spent;
    var op := RunKeeps(sys, ex, slot, actions);
    assert spent[i] in spent;
    SpentLeavesMember(sys.cfg, spent, NoteCm(sys.cfg.H, spent[i]));
  }

  /** Step `k` of a run. */
  lemma StepAt(sys: System, ex: Extractor, slot: nat, actions: seq<Action>, k: nat)
    requires k < |actions|
    ensures Run(sys, slot, actions[..k + 1]) == Step(sys, Run(sys, slot, actions[..k]), actions[k])
    ensures RunHistory(sys, ex, slot, actions[..k + 1])
         == HistoryStep(sys, ex, Run(sys, slot, actions[..k]), RunHistory(sys, ex, slot, actions[..k]), actions[k])
  {
    var upto := actions[..k + 1];
    assert upto[..|upto| - 1] == actions[..k] && upto[|upto| - 1] == actions[k];
  }

  /** Up to and including step `k`, no hash broke. */
  lemma NoBreakAt(sys: System, ex: Extractor, slot: nat, actions: seq<Action>, k: nat)
    requires Sound(sys, ex, slot, actions) && k < |actions|
    ensures var w, hist := Run(sys, slot, actions[..k]), RunHistory(sys, ex, slot, actions[..k]);
            Sound(sys, ex, slot, actions[..k]) && NoBreak(sys.cfg, w.pool, HistoryStep(sys, ex, w, hist, actions[k]))
  {
    SoundPrefix(sys, ex, slot, actions, k);
    SoundPrefix(sys, ex, slot, actions, k + 1);
    StepAt(sys, ex, slot, actions, k);
    StepGrows(sys, Run(sys, slot, actions[..k]), actions[k]);
    var after := RunHistory(sys, ex, slot, actions[..k + 1]);
    NoBreakEarlier(sys.cfg, Run(sys, slot, actions[..k]).pool, after, Run(sys, slot, actions[..k + 1]).pool, after);
  }

  /** The inputs of value are leaves not spent so far, and not one leaf twice. */
  ghost predicate SpendsLeaves(cfg: Config, leaves: seq<nat>, before: set<nat>, wit: Witness) {
    var cm1, cm2 := NoteCm(cfg.H, wit.in1), NoteCm(cfg.H, wit.in2);
    && (wit.in1.value != 0 ==> cm1 in leaves && cm1 !in before)
    && (wit.in2.value != 0 ==> cm2 in leaves && cm2 !in before)
    && (wit.in1.value != 0 && wit.in2.value != 0 ==> cm1 != cm2)
  }

  lemma UnspentLeavesSpend(cfg: Config, w: World, hist: History, op: seq<Opening>, wit: Witness, i: nat, j: nat)
    requires wit.in1.value != 0 ==> IsUnspentLeaf(cfg, w, hist, op, wit.in1, i)
    requires wit.in2.value != 0 ==> IsUnspentLeaf(cfg, w, hist, op, wit.in2, j)
    requires wit.in1.value != 0 && wit.in2.value != 0 ==> NoteCm(cfg.H, wit.in1) != NoteCm(cfg.H, wit.in2)
    ensures SpendsLeaves(cfg, w.pool.leaves, SpentLeaves(cfg, hist.spent), wit)
  {
  }

  lemma ProvenSpendsLeaves(sys: System, ex: Extractor, w: World, hist: History, op: seq<Opening>, tx: Tx)
    requires SystemOk(sys) && KnowledgeSound(sys, ex) && Inv(sys, w, hist, op) && Authorized(sys, w, tx)
    requires tx.frames != [] && NoBreak(sys.cfg, w.pool, HistoryTx(sys.cfg, hist, TxWitness(ex, tx)))
    ensures SpendsLeaves(sys.cfg, w.pool.leaves, SpentLeaves(sys.cfg, hist.spent), TxWitness(ex, tx))
  {
    var i, j := ProvenInputs(sys, ex, w, hist, op, tx);
    UnspentLeavesSpend(sys.cfg, w, hist, op, TxWitness(ex, tx), i, j);
  }

  /** Each input of value of an accepted spend is a leaf the pool inserted before that
      transaction, not spent by then, and the two inputs are different leaves. */
  lemma InputsWereLeaves(sys: System, ex: Extractor, slot: nat, actions: seq<Action>, k: nat)
    requires Sound(sys, ex, slot, actions) && k < |actions| && actions[k].PoolTx?
    requires Accepted(sys, Run(sys, slot, actions[..k]), actions[k].tx, actions[k].env)
    ensures actions[k].tx.frames != []
    ensures SpendsLeaves(sys.cfg, Run(sys, slot, actions[..k]).pool.leaves,
                         SpentLeaves(sys.cfg, RunHistory(sys, ex, slot, actions[..k]).spent),
                         TxWitness(ex, actions[k].tx))
  {
    var w, hist := Run(sys, slot, actions[..k]), RunHistory(sys, ex, slot, actions[..k]);
    AcceptedCanPay(sys, w, actions[k].tx, actions[k].env);
    NoBreakAt(sys, ex, slot, actions, k);
    var op := RunKeeps(sys, ex, slot, actions[..k]);
    ProvenSpendsLeaves(sys, ex, w, hist, op, actions[k].tx);
  }

  /** After every run, with no assumption on hashes or proofs: the event log lists each
      leaf index once, in order, with its leaf, and every root the pool published is the
      root of a prefix of its leaves, the last one of all of them. */
  lemma {:induction false} LogIsTree(sys: System, slot: nat, actions: seq<Action>)
    ensures var w := Run(sys, slot, actions); TreeLog(sys.cfg, w.pool) && WritesBy(w.pool.writes, w.slot)
  {
    if actions == [] {
      PresentRoot(sys.cfg, []);
    } else {
      var before := actions[..|actions| - 1];
      LogIsTree(sys, slot, before);
      StepGrows(sys, Run(sys, slot, before), actions[|actions| - 1]);
    }
  }

  /** When the current root can be referred to: after every run, the pool's last write holds
      the root of all its leaves, and a reference to it is valid from the next slot until
      the ring comes round.  A quiet pool's root ages out. */
  lemma CurrentRootReferable(sys: System, slot: nat, actions: seq<Action>)
    ensures var w := Run(sys, slot, actions);
            && w.pool.writes != []
            && var last := w.pool.writes[|w.pool.writes| - 1];
            && last.root == TreeRoot(sys.cfg, w.pool.leaves)
            && (RefValid(w, RootRef(sys.cfg.sourceId, last.slot, last.root)) <==> last.slot < w.slot < last.slot + 8192)
  {
    LogIsTree(sys, slot, actions);
  }
}
