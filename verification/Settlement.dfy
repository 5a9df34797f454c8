/** What an approval is worth: an approved spend settles, the pool can afford to pay
    for itself, and nobody pays for a spend whose fee does not cover it. */
module Settlement {
  import opened Wrappers
  import opened Powers
  import opened PoolSpec
  import opened Envelope
  import opened Dispatcher
  import opened Protocol
  import opened Ledger
  import opened PoolInvariant
  import opened Safety
  import opened Runs

  // ---- approval implies settlement ----

  /** Every check of the settle frame repeats one that frame 0 already made. */
  lemma ApprovedSpendPasses(sys: System, w: World, tx: Tx, env: Environment)
    requires SystemOk(sys) && Accepted(sys, w, tx, env)
    ensures tx.frames != []
    ensures SpendError(sys.cfg, tx.sender, TxSpend(tx), Some(ProbeOf(tx, |tx.frames| - 1, PayerOf(sys, tx)))) == None
  {
  }

  /** Why an accepted spend's settle frame reverts, if it does. */
  function SettleError(sys: System, w: World, tx: Tx, env: Environment): Option<Error>
    requires tx.frames != []
  {
    if !env.settleHasGas then Some(Panic)
    else if |WithOutputs(w.pool.leaves, TxSpend(tx))| > Capacity(sys.cfg) then Some(TreeFull)
    else if !env.predeployOk then Some(RootPublishFailed)
    else None
  }

  /** What a settled spend leaves behind, field by field. */
  ghost predicate SettledAs(sys: System, s: PoolState, tx: Tx, t: PoolState)
    requires tx.frames != []
  {
    var sp, payer, who := TxSpend(tx), PayerOf(sys, tx), RecipientOf(tx.frames[|tx.frames| - 1].data);
    && t.leaves == WithOutputs(s.leaves, sp)
    && t.balance == s.balance && t.sent == s.sent
    && t.feeCredit
       == (if payer == sys.cfg.self || sp.fee == 0 then s.feeCredit else AddCredit(s.feeCredit, payer, sp.fee))
    && t.withdrawalCredit == (if sp.publicAmount == 0 then s.withdrawalCredit
                              else AddCredit(s.withdrawalCredit, who, sp.publicAmount))
  }

  ghost predicate CreditsFit(sys: System, s: PoolState, tx: Tx)
    requires tx.frames != []
  {
    var sp, payer := TxSpend(tx), PayerOf(sys, tx);
    && (payer != sys.cfg.self ==> Credit(s.feeCredit, payer) + sp.fee < WORD)
    && Credit(s.withdrawalCredit, RecipientOf(tx.frames[|tx.frames| - 1].data)) + sp.publicAmount < WORD
  }

  /** No credit can overflow while the books balance. */
  lemma BooksFitCredits(sys: System, s: PoolState, op: seq<Opening>, spent: set<nat>, q3: set<(nat, nat, nat)>, tx: Tx,
                        out1: nat, out2: nat)
    requires tx.frames != []
    requires PoolInv(sys.cfg, s, op, spent, q3, Moved(sys.cfg, TxSpend(tx), PayerOf(sys, tx), out1, out2))
    ensures CreditsFit(sys, s, tx)
  {
    CreditWithin(s.feeCredit, PayerOf(sys, tx));
    CreditWithin(s.withdrawalCredit, RecipientOf(tx.frames[|tx.frames| - 1].data));
  }

  /** The shared part of both settlement calls. */
  lemma SettleOf(sys: System, w: World, tx: Tx, env: Environment)
    requires tx.frames != [] && CreditsFit(sys, w.pool, tx) && env.settleHasGas
    ensures var r := SettleSpec(sys.cfg, w.pool, TxSpend(tx), PayerOf(sys, tx), Block(w.slot, env.predeployOk));
            var who, amount := RecipientOf(tx.frames[|tx.frames| - 1].data), TxSpend(tx).publicAmount;
            var before := w.pool.withdrawalCredit;
            var credits := if amount == 0 then before else AddCredit(before, who, amount);
            match SettleError(sys, w, tx, env)
            case Some(e) => r == Reverted(e)
            case None =>
              r.Done? && r.state.withdrawalCredit == before
              && SettledAs(sys, w.pool, tx, r.state.(withdrawalCredit := credits))
  {
  }

  /** The settle frame's calldata in an approved envelope. */
  lemma ApprovedData(sys: System, tx: Tx)
    requires Approvable(sys, tx, 0)
    ensures tx.frames != []
    ensures var data := tx.frames[|tx.frames| - 1].data;
            TransferData(data) || (WithdrawData(data) && Selector(data) != TRANSFER)
  {
  }

  /** The settle frame of an approved spend whose credits fit: it fails for want of gas,
      room or the predeploy, and otherwise settles. */
  lemma SettleOfApproved(sys: System, w: World, tx: Tx, env: Environment)
    requires SystemOk(sys) && Approvable(sys, tx, 0) && tx.frames != [] && CreditsFit(sys, w.pool, tx)
    requires SpendError(sys.cfg, tx.sender, TxSpend(tx), Some(ProbeOf(tx, |tx.frames| - 1, PayerOf(sys, tx)))) == None
    ensures var r := SettleOutcome(sys, w, tx, env);
            match SettleError(sys, w, tx, env)
            case Some(e) => r == Reverted(e)
            case None => r.Done? && SettledAs(sys, w.pool, tx, r.state)
  {
    if env.settleHasGas {
      SettleOf(sys, w, tx, env);
      ApprovedData(sys, tx);
    }
  }

  /** Once payment is approved, no credit of the settlement can overflow. */
  lemma AcceptedCreditsFit(sys: System, ex: Extractor, w: World, hist: History, op: seq<Opening>, tx: Tx,
                           env: Environment)
    requires SystemOk(sys) && KnowledgeSound(sys, ex) && Inv(sys, w, hist, op) && Accepted(sys, w, tx, env)
    requires tx.frames != [] && NoBreak(sys.cfg, w.pool, HistoryTx(sys.cfg, hist, TxWitness(ex, tx)))
    ensures PayerOf(sys, tx) == sys.cfg.self ==> w.pool.balance >= tx.maxCost
    ensures CreditsFit(sys, AfterPayment(sys, w, tx).pool, tx)
  {
    var wit := TxWitness(ex, tx);
    var hist' := HistoryTx(sys.cfg, hist, wit);
    AcceptKeeps(sys, ex, w, hist, op, tx, env);
    BooksFitCredits(sys, AfterPayment(sys, w, tx).pool, op, SpentLeaves(sys.cfg, hist'.spent), hist'.q3, tx,
                    wit.outValue1, wit.outValue2);
  }

  /** Approval implies settlement: in a world that keeps the invariant, once payment is
      approved the settle frame succeeds unless it runs out of gas, the predeploy fails,
      or the tree has no room for the new outputs. */
  lemma ApprovalSettles(sys: System, ex: Extractor, w: World, hist: History, op: seq<Opening>, tx: Tx, env: Environment)
    requires SystemOk(sys) && KnowledgeSound(sys, ex) && Inv(sys, w, hist, op) && Accepted(sys, w, tx, env)
    requires tx.frames != [] && NoBreak(sys.cfg, w.pool, HistoryTx(sys.cfg, hist, TxWitness(ex, tx)))
    ensures PayerOf(sys, tx) == sys.cfg.self ==> w.pool.balance >= tx.maxCost
    ensures var paid := AfterPayment(sys, w, tx);
            var r := SettleOutcome(sys, paid, tx, env);
            match SettleError(sys, paid, tx, env)
            case Some(e) => r == Reverted(e)
            case None => r.Done? && SettledAs(sys, paid.pool, tx, r.state)
  {
    AcceptedCreditsFit(sys, ex, w, hist, op, tx, env);
    ApprovedSpendPasses(sys, w, tx, env);
    SettleOfApproved(sys, AfterPayment(sys, w, tx), tx, env);
  }

  lemma SameRoom(sys: System, w: World, paid: World, tx: Tx, env: Environment)
    requires tx.frames != [] && paid.pool.leaves == w.pool.leaves
    ensures SettleError(sys, paid, tx, env) == SettleError(sys, w, tx, env)
  {
  }

  /** Whether an accepted spend will settle can be told beforehand, from the leaves it
      finds and its own outputs, up to gas and the predeploy. */
  lemma SettlesIff(sys: System, ex: Extractor, w: World, hist: History, op: seq<Opening>, tx: Tx, env: Environment)
    requires SystemOk(sys) && KnowledgeSound(sys, ex) && Inv(sys, w, hist, op) && Accepted(sys, w, tx, env)
    requires tx.frames != [] && NoBreak(sys.cfg, w.pool, HistoryTx(sys.cfg, hist, TxWitness(ex, tx)))
    ensures Settles(sys, w, tx, env) <==> SettleError(sys, w, tx, env) == None
  {
    ApprovalSettles(sys, ex, w, hist, op, tx, env);
    PaymentMoves(sys, w, tx, env);
    SameRoom(sys, w, AfterPayment(sys, w, tx), tx, env);
  }

  /** The same over runs: every accepted spend of every run. */
  lemma AcceptedSpendsSettle(sys: System, ex: Extractor, slot: nat, actions: seq<Action>, k: nat)
    requires Sound(sys, ex, slot, actions) && k < |actions| && actions[k].PoolTx?
    requires Accepted(sys, Run(sys, slot, actions[..k]), actions[k].tx, actions[k].env)
    ensures var w, tx, env := Run(sys, slot, actions[..k]), actions[k].tx, actions[k].env;
            && tx.frames != [] && (PayerOf(sys, tx) == sys.cfg.self ==> w.pool.balance >= tx.maxCost)
            && var paid := AfterPayment(sys, w, tx);
            var r := SettleOutcome(sys, paid, tx, env);
            match SettleError(sys, paid, tx, env)
            case Some(e) => r == Reverted(e)
            case None => r.Done? && SettledAs(sys, paid.pool, tx, r.state)
  {
    var w := Run(sys, slot, actions[..k]);
    AcceptedCanPay(sys, w, actions[k].tx, actions[k].env);
    NoBreakAt(sys, ex, slot, actions, k);
    var op := RunKeeps(sys, ex, slot, actions[..k]);
    ApprovalSettles(sys, ex, w, RunHistory(sys, ex, slot, actions[..k]), op, actions[k].tx, actions[k].env);
  }

  // ---- claims ----

  /** Every credit of every run can be collected: the pool always has the ether, so a claim
      fails only for want of a credit, when the pool would pay itself, or when the
      recipient refuses. */
  lemma ClaimsPay(sys: System, ex: Extractor, slot: nat, actions: seq<Action>, who: nat, reentry: seq<Call>,
                  accepts: bool, ok: bool)
    requires Sound(sys, ex, slot, actions)
    ensures var w := Run(sys, slot, actions);
            && (CallSpec(sys.cfg, w.pool, ClaimWithdrawalCall(who, reentry, accepts), Block(w.slot, ok)).Done? <==>
                  Credit(w.pool.withdrawalCredit, who) != 0 && who != sys.cfg.self && accepts)
            && (CallSpec(sys.cfg, w.pool, ClaimFeeCall(who, reentry, accepts), Block(w.slot, ok)).Done? <==>
                  Credit(w.pool.feeCredit, who) != 0 && who != sys.cfg.self && accepts)
  {
    var op := RunKeeps(sys, ex, slot, actions);
    var w := Run(sys, slot, actions);
    CreditWithin(w.pool.withdrawalCredit, who);
    CreditWithin(w.pool.feeCredit, who);
  }

  // ---- the pool as payer ----

  /** The pool is resolved as payer only for its own two-frame spends whose proof-bound
      fee covers the most that can be charged: naming it as the paymaster of a
      three-frame spend gets nothing approved. */
  lemma PoolPaysOnlyCovered(sys: System, w: World, tx: Tx, env: Environment)
    requires Accepted(sys, w, tx, env)
    ensures PayerOf(sys, tx) == sys.cfg.self <==> |tx.frames| == 2
    ensures tx.frames != [] && (PayerOf(sys, tx) == sys.cfg.self ==> TxSpend(tx).fee >= tx.maxCost)
  {
  }

  /** Solvency funds self-payment: a self-paying spend that is admitted and approved can
      always be paid for, from the ether behind its own inputs. */
  lemma SelfPayIsFunded(sys: System, ex: Extractor, w: World, hist: History, op: seq<Opening>, tx: Tx, env: Environment)
    requires SystemOk(sys) && KnowledgeSound(sys, ex) && Inv(sys, w, hist, op) && Authorized(sys, w, tx)
    requires |tx.frames| == 2
    requires NoBreak(sys.cfg, w.pool, HistoryTx(sys.cfg, hist, TxWitness(ex, tx)))
    ensures w.pool.balance >= tx.maxCost && Accepted(sys, w, tx, env)
  {
    InputsLeave(sys, ex, w, hist, op, tx);
    ProvenConserves(sys, ex, w, tx);
  }

  // ---- the paymaster's books ----

  /** What the paymaster owns and is owed. */
  function PayerWealth(sys: System, w: World): int {
    PayerBalance(sys, w) + Credit(w.pool.feeCredit, sys.paymaster)
  }

  function Owed(who: nat, s: PoolState): nat { Credit(s.sent, who) + Credit(s.feeCredit, who) }

  lemma {:induction false} CallOwed(cfg: Config, s: PoolState, call: Call, blk: Block, who: nat)
    ensures var r := CallSpec(cfg, s, call, blk); r.Done? ==> Owed(who, s) <= Owed(who, r.state)
    decreases call, 1
  {
    match call
    case ShieldCall(_, _) =>
    case ClaimWithdrawalCall(to, reentry, _) =>
      if Credit(s.withdrawalCredit, to) <= s.balance { CallsOwed(cfg, PayWithdrawal(s, to), reentry, blk, who); }
    case ClaimFeeCall(to, reentry, _) =>
      if Credit(s.feeCredit, to) <= s.balance { CallsOwed(cfg, PayFee(s, to), reentry, blk, who); }
    case SpendCall(caller, sp, recipient, probe) => OutsideSpendReverts(cfg, s, caller, sp, recipient, probe, blk);
    case ReadCall(_) =>
  }

  lemma {:induction false} CallsOwed(cfg: Config, s: PoolState, calls: seq<Call>, blk: Block, who: nat)
    ensures Owed(who, s) <= Owed(who, CallsSpec(cfg, s, calls, blk))
    decreases calls, 0
  {
    if calls == [] {
    } else {
      CallOwed(cfg, s, calls[0], blk, who);
      var t := match CallSpec(cfg, s, calls[0], blk) case Done(t) => t case Reverted(_) => s;
      CallsOwed(cfg, t, calls[1..], blk, who);
    }
  }

  /** What one accepted spend does to the paymaster, to the wei: nothing unless it pays,
      and then its gas against a fee that covers any gas it could have used -- but only
      if the spend settles. */
  lemma SponsoredDelta(sys: System, w: World, tx: Tx, env: Environment)
    requires SystemOk(sys) && Accepted(sys, w, tx, env)
    ensures tx.frames != []
    ensures PayerOf(sys, tx) != sys.paymaster ==> PayerWealth(sys, TxStep(sys, w, tx, env)) == PayerWealth(sys, w)
    ensures PayerOf(sys, tx) == sys.paymaster ==>
              && GasCost(tx, env) <= tx.maxCost <= TxSpend(tx).fee
              && PayerWealth(sys, TxStep(sys, w, tx, env))
              == PayerWealth(sys, w) + (if Settles(sys, w, tx, env) then TxSpend(tx).fee else 0) - GasCost(tx, env)
  {
    AcceptedCanPay(sys, w, tx, env);
    SettledBySpec(sys, AfterPayment(sys, w, tx), tx, env);
  }

  /** The sponsor's guard, which it can check before the spend runs: with gas, room for the
      new outputs and a working predeploy it gains the fee over the gas; without any of
      them it is out its gas, and that is the only way it loses. */
  lemma SponsoredExact(sys: System, ex: Extractor, w: World, hist: History, op: seq<Opening>, tx: Tx, env: Environment)
    requires SystemOk(sys) && KnowledgeSound(sys, ex) && Inv(sys, w, hist, op) && Accepted(sys, w, tx, env)
    requires tx.frames != [] && PayerOf(sys, tx) == sys.paymaster
    requires NoBreak(sys.cfg, w.pool, HistoryTx(sys.cfg, hist, TxWitness(ex, tx)))
    ensures var gained := PayerWealth(sys, TxStep(sys, w, tx, env)) - PayerWealth(sys, w);
            && gained == (if SettleError(sys, w, tx, env) == None then TxSpend(tx).fee else 0) - GasCost(tx, env)
            && (gained < 0 <==> SettleError(sys, w, tx, env) != None && GasCost(tx, env) > 0)
  {
    SettlesIff(sys, ex, w, hist, op, tx, env);
    SponsoredDelta(sys, w, tx, env);
  }

  lemma RunLast(sys: System, slot: nat, actions: seq<Action>, w: World, tx: Tx, env: Environment)
    requires actions != [] && actions[|actions| - 1] == PoolTx(tx, env) && w == Run(sys, slot, actions[..|actions| - 1])
    ensures Run(sys, slot, actions) == TxStep(sys, w, tx, env)
  {
  }

  /** The same at the last step of every run. */
  lemma SponsoredLast(sys: System, ex: Extractor, slot: nat, actions: seq<Action>, w: World, tx: Tx, env: Environment)
    requires Sound(sys, ex, slot, actions) && actions != [] && actions[|actions| - 1] == PoolTx(tx, env)
    requires w == Run(sys, slot, actions[..|actions| - 1]) && Accepted(sys, w, tx, env) && tx.frames != []
    requires PayerOf(sys, tx) == sys.paymaster
    ensures var gained := PayerWealth(sys, Run(sys, slot, actions)) - PayerWealth(sys, w);
            && gained == (if SettleError(sys, w, tx, env) == None then TxSpend(tx).fee else 0) - GasCost(tx, env)
            && (gained < 0 <==> SettleError(sys, w, tx, env) != None && GasCost(tx, env) > 0)
  {
    var n := |actions| - 1;
    NoBreakAt(sys, ex, slot, actions, n);
    var op := RunKeeps(sys, ex, slot, actions[..n]);
    SponsoredExact(sys, ex, w, RunHistory(sys, ex, slot, actions[..n]), op, tx, env);
    RunLast(sys, slot, actions, w, tx, env);
  }

  /** Every spend the paymaster pays for passes the guard. */
  ghost predicate SponsoredGuarded(sys: System, slot: nat, actions: seq<Action>) {
    forall k: nat | k < |actions| && actions[k].PoolTx? && PayerOf(sys, actions[k].tx) == sys.paymaster ::
      Accepted(sys, Run(sys, slot, actions[..k]), actions[k].tx, actions[k].env) ==>
        actions[k].tx.frames != []
        && SettleError(sys, Run(sys, slot, actions[..k]), actions[k].tx, actions[k].env) == None
  }

  /** Every spend the paymaster pays for settles. */
  ghost predicate SponsoredSettle(sys: System, slot: nat, actions: seq<Action>) {
    forall k: nat | k < |actions| && actions[k].PoolTx? && PayerOf(sys, actions[k].tx) == sys.paymaster ::
      Accepted(sys, Run(sys, slot, actions[..k]), actions[k].tx, actions[k].env) ==>
        Settles(sys, Run(sys, slot, actions[..k]), actions[k].tx, actions[k].env)
  }

  lemma GuardedSettle(sys: System, ex: Extractor, slot: nat, actions: seq<Action>)
    requires Sound(sys, ex, slot, actions) && SponsoredGuarded(sys, slot, actions)
    ensures SponsoredSettle(sys, slot, actions)
  {
    forall k: nat | k < |actions| && actions[k].PoolTx? && PayerOf(sys, actions[k].tx) == sys.paymaster
      && Accepted(sys, Run(sys, slot, actions[..k]), actions[k].tx, actions[k].env)
      ensures Settles(sys, Run(sys, slot, actions[..k]), actions[k].tx, actions[k].env)
    {
      AcceptedSpendsSettle(sys, ex, slot, actions, k);
      PaymentMoves(sys, Run(sys, slot, actions[..k]), actions[k].tx, actions[k].env);
    }
  }

  lemma WealthStep(sys: System, w: World, a: Action)
    requires SystemOk(sys)
    requires a.PoolTx? && PayerOf(sys, a.tx) == sys.paymaster && Accepted(sys, w, a.tx, a.env)
        ==> Settles(sys, w, a.tx, a.env)
    ensures PayerWealth(sys, w) <= PayerWealth(sys, Step(sys, w, a))
  {
    match a
    case Outside(call, ok) => CallOwed(sys.cfg, w.pool, call, Block(w.slot, ok), sys.paymaster);
    case PoolTx(tx, env) => if Accepted(sys, w, tx, env) { SponsoredDelta(sys, w, tx, env); }
    case _ =>
  }

  lemma LastStepWealth(sys: System, slot: nat, actions: seq<Action>)
    requires SystemOk(sys) && SponsoredSettle(sys, slot, actions) && actions != []
    ensures PayerWealth(sys, Run(sys, slot, actions[..|actions| - 1])) <= PayerWealth(sys, Run(sys, slot, actions))
  {
    WealthStep(sys, Run(sys, slot, actions[..|actions| - 1]), actions[|actions| - 1]);
  }

  lemma SponsoredEarlier(sys: System, slot: nat, actions: seq<Action>)
    requires SponsoredSettle(sys, slot, actions) && actions != []
    ensures SponsoredSettle(sys, slot, actions[..|actions| - 1])
  {
    var before := actions[..|actions| - 1];
    forall k: nat | k < |before| && before[k].PoolTx? && PayerOf(sys, before[k].tx) == sys.paymaster
      && Accepted(sys, Run(sys, slot, before[..k]), before[k].tx, before[k].env)
      ensures Settles(sys, Run(sys, slot, before[..k]), before[k].tx, before[k].env)
    {
      assert before[..k] == actions[..k] && before[k] == actions[k];
    }
  }

  /** Over any run whose sponsored spends settle, what the paymaster owns plus what the
      pool owes it never decreases. */
  lemma {:induction false} PaymasterNeverLoses(sys: System, slot: nat, actions: seq<Action>, k: nat)
    requires SystemOk(sys) && SponsoredSettle(sys, slot, actions) && k <= |actions|
    ensures PayerWealth(sys, Run(sys, slot, actions[..k])) <= PayerWealth(sys, Run(sys, slot, actions))
    decreases |actions|
  {
    assert actions[..|actions|] == actions;
    if k == |actions| {
    } else {
      var before := actions[..|actions| - 1];
      SponsoredEarlier(sys, slot, actions);
      PaymasterNeverLoses(sys, slot, before, k);
      assert before[..k] == actions[..k];
      LastStepWealth(sys, slot, actions);
    }
  }

  /** Over any run whose sponsored spends pass the guard, what the paymaster owns plus what
      the pool owes it never decreases. */
  lemma GuardedPaymasterNeverLoses(sys: System, ex: Extractor, slot: nat, actions: seq<Action>, k: nat)
    requires Sound(sys, ex, slot, actions) && SponsoredGuarded(sys, slot, actions) && k <= |actions|
    ensures PayerWealth(sys, Run(sys, slot, actions[..k])) <= PayerWealth(sys, Run(sys, slot, actions))
  {
    GuardedSettle(sys, ex, slot, actions);
    PaymasterNeverLoses(sys, slot, actions, k);
  }
}
