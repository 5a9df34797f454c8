/** The two implementations of the pool side by side: exactly where their settlements
    differ, and that no accepted spend of any run gets there. */
module Agreement {
  import opened Wrappers
  import opened Powers
  import opened Field
  import opened PoolSpec
  import opened Envelope
  import opened Dispatcher
  import opened Protocol
  import opened Safety
  import opened Runs
  import opened Settlement
  import opened YulPool
  import opened Merkle
  import opened FrameTx
  import L = ShieldedPoolLogic

  lemma WrapFree(m: map<nat, nat>, who: nat, amount: nat)
    requires Credit(m, who) + amount < WORD
    ensures AddWrapped(m, who, amount) == AddCredit(m, who, amount)
  {
  }

  /** The strict decoder and the mask part ways exactly when a spend gets as far as the
      probe and the probe's target has dirty high bits. */
  lemma SpendChecksAgree(cfg: Config, sender: nat, sp: Spend, probe: Option<ProbeWords>)
    ensures YulSpendError(cfg, sender, sp, probe) == SpendError(cfg, sender, sp, probe) <==>
              !(sender == cfg.self && sp.nf1 != 0 && sp.nf2 != 0 && probe.Some?
                && probe.value.settleTarget >= ADDRESS_SPACE)
  {
    if probe.Some? && probe.value.settleTarget < ADDRESS_SPACE { SmallMod(probe.value.settleTarget, ADDRESS_SPACE); }
  }

  /** A settlement that reaches its credit would overflow it. */
  predicate FeeOverflows(cfg: Config, s: PoolState, sp: Spend, payer: nat, blk: Block) {
    && |WithOutputs(s.leaves, sp)| <= Capacity(cfg) && blk.predeployOk
    && sp.fee != 0 && payer != cfg.self && Credit(s.feeCredit, payer) + sp.fee >= WORD
  }

  lemma SettlesAgree(cfg: Config, s: PoolState, sp: Spend, payer: nat, blk: Block)
    ensures YulSettleSpec(cfg, s, sp, payer, blk) == SettleSpec(cfg, s, sp, payer, blk)
        <==> !FeeOverflows(cfg, s, sp, payer, blk)
  {
    if Credit(s.feeCredit, payer) + sp.fee < WORD { WrapFree(s.feeCredit, payer, sp.fee); }
  }

  /** Where the two `transfer`s differ: a dirty probe word, or a fee credit past 2^256. */
  predicate TransferDiverges(cfg: Config, s: PoolState, sender: nat, sp: Spend, probe: Option<ProbeWords>, blk: Block) {
    && sp.publicAmount == 0 && sp.ctx == 0 && sender == cfg.self && sp.nf1 != 0 && sp.nf2 != 0 && probe.Some?
    && (|| probe.value.settleTarget >= ADDRESS_SPACE
        || (SpendError(cfg, sender, sp, probe) == None && FeeOverflows(cfg, s, sp, probe.value.payer, blk)))
  }

  lemma TransfersAgree(cfg: Config, s: PoolState, sender: nat, sp: Spend, probe: Option<ProbeWords>, blk: Block)
    ensures YulTransferSpec(cfg, s, sender, sp, probe, blk) == TransferSpec(cfg, s, sender, sp, probe, blk) <==>
              !TransferDiverges(cfg, s, sender, sp, probe, blk)
  {
    SpendChecksAgree(cfg, sender, sp, probe);
    if probe.Some? { SettlesAgree(cfg, s, sp, probe.value.payer, blk); }
  }

  predicate WithdrawDiverges(cfg: Config, s: PoolState, sender: nat, sp: Spend, recipient: nat,
                             probe: Option<ProbeWords>, blk: Block)
  {
    && recipient < ADDRESS_SPACE && sp.publicAmount != 0 && sp.ctx != 0 && sp.ctx == recipient
    && sender == cfg.self && sp.nf1 != 0 && sp.nf2 != 0 && probe.Some?
    && (|| probe.value.settleTarget >= ADDRESS_SPACE
        || (&& SpendError(cfg, sender, sp, probe) == None
            && |WithOutputs(s.leaves, sp)| <= Capacity(cfg) && blk.predeployOk
            && (|| FeeOverflows(cfg, s, sp, probe.value.payer, blk)
                || Credit(s.withdrawalCredit, recipient) + sp.publicAmount >= WORD)))
  }

  lemma WithdrawsAgree(cfg: Config, s: PoolState, sender: nat, sp: Spend, recipient: nat, probe: Option<ProbeWords>,
                       blk: Block)
    ensures YulWithdrawSpec(cfg, s, sender, sp, recipient, probe, blk)
        == WithdrawSpec(cfg, s, sender, sp, recipient, probe, blk)
       <==> !WithdrawDiverges(cfg, s, sender, sp, recipient, probe, blk)
  {
    SpendChecksAgree(cfg, sender, sp, probe);
    if probe.Some? { SettlesAgree(cfg, s, sp, probe.value.payer, blk); }
    if Credit(s.withdrawalCredit, recipient) + sp.publicAmount < WORD {
      WrapFree(s.withdrawalCredit, recipient, sp.publicAmount);
    }
  }

  /** Equal states are equal storage: field by field and slot by slot, as far as any read
      of either contract goes. */
  lemma StorageAgrees(a: L.Pool, b: Pool)
    requires a.Valid() && b.Valid() && a.cfg == b.cfg && a.Abs() == b.s
    ensures Load(b.storage, NextIndex(b.cfg)) == a.nextIndex && Load(b.storage, CurrentRoot(b.cfg)) == a.currentRoot
    ensures forall x: nat :: Load(b.storage, LeafSlot(b.cfg, x)) == (if x in a.isLeaf then 1 else 0)
    ensures forall who: nat :: Load(b.storage, WithdrawalSlot(b.cfg, who)) == Credit(a.withdrawalCredit, who)
    ensures forall who: nat :: Load(b.storage, FeeSlot(b.cfg, who)) == Credit(a.feeCredit, who)
    ensures forall l: nat | l <= a.cfg.depth && BitOf(a.nextIndex, l) == 1 ::
              l in a.filledSubtrees && Load(b.storage, Fixed(l)) == a.filledSubtrees[l]
    ensures a.events == b.events && a.writes == b.writes
    ensures a.cfg.depth == 20 ==>
              && Load(b.storage, Fixed(21)) == a.nextIndex && Load(b.storage, Fixed(22)) == a.currentRoot
              && forall k: nat ::
                   && Load(b.storage, MapSlot(k, 23)) == (if k in a.isLeaf then 1 else 0)
                   && Load(b.storage, MapSlot(k, 24)) == Credit(a.withdrawalCredit, k)
                   && Load(b.storage, MapSlot(k, 25)) == Credit(a.feeCredit, k)
  {
    forall l: nat | l <= a.cfg.depth && BitOf(a.nextIndex, l) == 1
      ensures l in a.filledSubtrees && Load(b.storage, Fixed(l)) == a.filledSubtrees[l]
    {
      assert SlotOk(a.cfg.H.h2, a.filledSubtrees, a.leaves, l);
      assert SlotOk(a.cfg.H.h2, Filled(b.cfg, b.storage), b.s.leaves, l);
    }
  }

  /** The settle frame as the monolith runs it. */
  function YulSettleOutcome(sys: System, w: World, tx: Tx, env: Environment): Outcome
    requires tx.frames != []
  {
    var last := |tx.frames| - 1;
    var data := tx.frames[last].data;
    var probe := Some(ProbeOf(tx, last, PayerOf(sys, tx)));
    var blk := Block(w.slot, env.predeployOk);
    if !env.settleHasGas then Reverted(Panic)
    else if Selector(data) == TRANSFER then YulTransferSpec(sys.cfg, w.pool, tx.sender, SpendOf(data), probe, blk)
    else YulWithdrawSpec(sys.cfg, w.pool, tx.sender, SpendOf(data), RecipientOf(data), probe, blk)
  }

  lemma FittingSettlesAgree(sys: System, w: World, tx: Tx, env: Environment)
    requires SystemOk(sys) && Approvable(sys, tx, 0) && tx.frames != [] && CreditsFit(sys, w.pool, tx)
    ensures YulSettleOutcome(sys, w, tx, env) == SettleOutcome(sys, w, tx, env)
  {
    var last := |tx.frames| - 1;
    var data := tx.frames[last].data;
    var probe, blk := Some(ProbeOf(tx, last, PayerOf(sys, tx))), Block(w.slot, env.predeployOk);
    assert probe.value.settleTarget == sys.cfg.self;
    TransfersAgree(sys.cfg, w.pool, tx.sender, SpendOf(data), probe, blk);
    WithdrawsAgree(sys.cfg, w.pool, tx.sender, SpendOf(data), RecipientOf(data), probe, blk);
  }

  /** On every run, for every accepted spend, the monolith and the Solidity contract reach
      the same state or revert with the same error. */
  lemma AcceptedSettlesAgree(sys: System, ex: Extractor, slot: nat, actions: seq<Action>, k: nat)
    requires Sound(sys, ex, slot, actions) && k < |actions| && actions[k].PoolTx?
    requires Accepted(sys, Run(sys, slot, actions[..k]), actions[k].tx, actions[k].env)
    ensures var w, tx, env := Run(sys, slot, actions[..k]), actions[k].tx, actions[k].env;
            && tx.frames != [] && (PayerOf(sys, tx) == sys.cfg.self ==> w.pool.balance >= tx.maxCost)
            && YulSettleOutcome(sys, AfterPayment(sys, w, tx), tx, env)
               == SettleOutcome(sys, AfterPayment(sys, w, tx), tx, env)
  {
    var w, hist := Run(sys, slot, actions[..k]), RunHistory(sys, ex, slot, actions[..k]);
    var tx, env := actions[k].tx, actions[k].env;
    AcceptedCanPay(sys, w, tx, env);
    NoBreakAt(sys, ex, slot, actions, k);
    var op := RunKeeps(sys, ex, slot, actions[..k]);
    AcceptedCreditsFit(sys, ex, w, hist, op, tx, env);
    FittingSettlesAgree(sys, AfterPayment(sys, w, tx), tx, env);
  }

  // ---- whole runs ----

  /** One transaction of the pool, settled by the monolith. */
  ghost function YulTxStep(sys: System, w: World, tx: Tx, env: Environment): World {
    if !Accepted(sys, w, tx, env) then w
    else
      AcceptedCanPay(sys, w, tx, env);
      var paid := AfterPayment(sys, w, tx);
      var settled := match YulSettleOutcome(sys, paid, tx, env)
        case Done(s) => paid.(pool := s)
        case Reverted(_) => paid;
      Refund(sys, settled, tx, env)
  }

  /** A chain whose pool is the monolith: its calls from outside meet the same
      specification (`YulPool.Pool.Dispatch`), its settlements its own. */
  ghost function YulStep(sys: System, w: World, a: Action): World {
    match a
    case PoolTx(tx, env) => YulTxStep(sys, w, tx, env)
    case _ => Step(sys, w, a)
  }

  ghost function YulRun(sys: System, slot: nat, actions: seq<Action>): World {
    if actions == [] then Start(sys, slot)
    else YulStep(sys, YulRun(sys, slot, actions[..|actions| - 1]), actions[|actions| - 1])
  }

  /** Driven by the same actions, the two implementations go through the same worlds. */
  lemma {:induction false} RunsAgree(sys: System, ex: Extractor, slot: nat, actions: seq<Action>)
    requires Sound(sys, ex, slot, actions)
    ensures YulRun(sys, slot, actions) == Run(sys, slot, actions)
  {
    if actions == [] {
    } else {
      var n := |actions| - 1;
      var a := actions[n];
      SoundEarlier(sys, ex, slot, actions);
      RunsAgree(sys, ex, slot, actions[..n]);
      if a.PoolTx? && Accepted(sys, Run(sys, slot, actions[..n]), a.tx, a.env) {
        AcceptedSettlesAgree(sys, ex, slot, actions, n);
      }
    }
  }

  /** The differential harness: both contracts answer the same calls with the same errors
      and stay in the same state. */
  method Differential(a: L.Pool, b: Pool, calls: seq<Call>, blk: Block) returns (same: bool)
    requires a.Valid() && b.Valid() && a.cfg == b.cfg && a.Abs() == b.s
    modifies a, b
    ensures same && a.Valid() && b.Valid() && a.Abs() == b.s == CallsSpec(a.cfg, old(a.Abs()), calls, blk)
  {
    same := true;
    var i := 0;
    while i < |calls|
      invariant i <= |calls| && same && a.Valid() && b.Valid() && a.Abs() == b.s
      invariant CallsSpec(a.cfg, a.Abs(), calls[i..], blk) == CallsSpec(a.cfg, old(a.Abs()), calls, blk)
    {
      assert calls[i..][0] == calls[i] && calls[i..][1..] == calls[i + 1..];
      var e := a.Dispatch(calls[i], blk);
      var f := b.Dispatch(calls[i], blk);
      same := same && e == f;
      i := i + 1;
    }
  }

  /** No wire transaction can make the probe return a target with dirty high bits: targets
      are twenty bytes.  So the two settlement checks never part ways on a real probe. */
  lemma CleanTarget(tx: WireTx, current: nat, payer: nat)
    requires Normal(tx)
    ensures ProbeOf(Seen(tx), current, payer).settleTarget < ADDRESS_SPACE
  {
  }
}
