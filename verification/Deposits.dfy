/** Deposits and the order of the checks: exactly when a deposit is taken, on every run and
    through either contract, what it leaves behind, that its note can be spent, and which
    check a failing call names. */
module Deposits {
  import opened Wrappers
  import opened Merkle
  import opened Powers
  import opened Circuit
  import opened PoolSpec
  import opened Envelope
  import opened Dispatcher
  import opened Protocol
  import opened PoolInvariant
  import opened Safety
  import opened Accounts
  import opened Wallet
  import opened Liveness
  import L = ShieldedPoolLogic
  import Y = YulPool

  // ---- which check fails first ----

  /** A deposit's checks, in the contract's order. */
  function DepositChecks(cfg: Config, s: PoolState, value: nat, inner: nat, predeployOk: bool): seq<Check> {
    [Check(s.balance + value < WORD, Panic),
     Check(value > 0, ZeroValueShield),
     Check(value < 0x1_0000_0000_0000_0000_0000_0000_0000_0000, ValueTooLarge),
     Check(inner < cfg.p, NotCanonical),
     Check(cfg.H.h3(2, inner, value) !in s.leaves, DuplicateCommitment),
     Check(|s.leaves| < Pow2(cfg.depth), TreeFull),
     Check(predeployOk, RootPublishFailed)]
  }

  /** What a deposit leaves behind: its leaf, its ether, one log row and one publication. */
  ghost predicate Deposited(cfg: Config, s: PoolState, value: nat, inner: nat, slot: nat, t: PoolState) {
    var cm := cfg.H.h3(2, inner, value);
    var root := Root(cfg.H.h2, cfg.depth, s.leaves + [cm]);
    && t.leaves == s.leaves + [cm] && t.balance == s.balance + value
    && t.events == s.events + [LeafAppended(cm, |s.leaves|, root, slot)]
    && t.writes == s.writes + [RootWrite(slot, root)]
    && t.withdrawalCredit == s.withdrawalCredit && t.feeCredit == s.feeCredit && t.sent == s.sent
  }

  lemma DepositOutcome(cfg: Config, s: PoolState, value: nat, inner: nat, blk: Block)
    ensures var r := CallSpec(cfg, s, ShieldCall(value, inner), blk);
            var first := FirstFailing(DepositChecks(cfg, s, value, inner, blk.predeployOk));
            && (r.Done? ==> first == None && Deposited(cfg, s, value, inner, blk.slot, r.state))
            && (r.Reverted? ==> first == Some(r.error))
  {
    var checks := DepositChecks(cfg, s, value, inner, blk.predeployOk);
    if s.balance + value >= WORD { FirstFailingIs(checks, 0); }
    else if value == 0 { FirstFailingIs(checks, 1); }
    else if value >= MAX_VALUE { FirstFailingIs(checks, 2); }
    else if inner >= cfg.p { FirstFailingIs(checks, 3); }
    else if cfg.H.h3(2, inner, value) in s.leaves { FirstFailingIs(checks, 4); }
    else if |s.leaves| >= Pow2(cfg.depth) { FirstFailingIs(checks, 5); }
    else if !blk.predeployOk { FirstFailingIs(checks, 6); }
    else { NoneFailing(checks); }
  }

  /** Domain, residues, ranges, shared by frame 0 and settlement. */
  function TupleChecks(cfg: Config, sp: Spend): seq<Check> {
    [Check(sp.domain == cfg.domain, InvalidDomain),
     Check(sp.root < cfg.p && sp.nf1 < cfg.p && sp.nf2 < cfg.p && sp.outCm1 < cfg.p && sp.outCm2 < cfg.p
           && sp.domain < cfg.p && sp.ctx < cfg.p, NotCanonical),
     Check(sp.publicAmount < MAX_VALUE
           && sp.fee < MAX_VALUE, ValueTooLarge)]
  }

  /** A settlement's checks, in the contract's order.  Without a probe the words do not
      matter: that check fails first. */
  function SettlementChecks(cfg: Config, sender: nat, sp: Spend, probe: Option<ProbeWords>): seq<Check> {
    var w := if probe.Some? then probe.value else ProbeWords(0, 0, 0, 0, 0, 0, 0, 0, 0, 0, 0);
    [Check(sender == cfg.self, NotPoolSender),
     Check(sp.nf1 != 0 && sp.nf2 != 0, ZeroNullifier),
     Check(probe.Some?, NotFrameNative),
     Check(w.settleTarget < ADDRESS_SPACE, BadCalldata),
     Check((w.frames == 2 || w.frames == 3) && w.frameIndex + 1 == w.frames && w.settleTarget == cfg.self,
           NotFaithfulShape),
     Check(w.keyCount == 2 && w.nonceSeq == 0 && w.k0 <= w.k1 && multiset{w.k0, w.k1} == multiset{sp.nf1, sp.nf2},
           KeySetMismatch),
     Check(w.refCount == 1 && w.refSource == cfg.sourceId && w.refRoot == sp.root, RootNotBoundToReference),
     Check(0 < w.payer < ADDRESS_SPACE, InvalidPayer)]
    + TupleChecks(cfg, sp)
  }

  lemma TupleOutcome(cfg: Config, sp: Spend)
    ensures ValidateError(cfg, sp) == FirstFailing(TupleChecks(cfg, sp))
  {
    var checks := TupleChecks(cfg, sp);
    if !checks[0].met { FirstFailingIs(checks, 0); }
    else if !checks[1].met { FirstFailingIs(checks, 1); }
    else if !checks[2].met { FirstFailingIs(checks, 2); }
    else { NoneFailing(checks); }
  }

  /** Settlement names the first check of the list that does not hold. */
  lemma SettlementOutcome(cfg: Config, sender: nat, sp: Spend, probe: Option<ProbeWords>)
    ensures SpendError(cfg, sender, sp, probe) == FirstFailing(SettlementChecks(cfg, sender, sp, probe))
  {
    var w := if probe.Some? then probe.value else ProbeWords(0, 0, 0, 0, 0, 0, 0, 0, 0, 0, 0);
    var checks, tuple := SettlementChecks(cfg, sender, sp, probe), TupleChecks(cfg, sp);
    SortedKeys(sp, w.k0, w.k1);
    if !checks[0].met { FirstFailingIs(checks, 0); }
    else if !checks[1].met { FirstFailingIs(checks, 1); }
    else if !checks[2].met { FirstFailingIs(checks, 2); }
    else if !checks[3].met { FirstFailingIs(checks, 3); }
    else if !checks[4].met { FirstFailingIs(checks, 4); }
    else if !checks[5].met { FirstFailingIs(checks, 5); }
    else if !checks[6].met { FirstFailingIs(checks, 6); }
    else if !checks[7].met { FirstFailingIs(checks, 7); }
    else {
      NoneFailing(checks[..8]);
      FirstFailingPrefix(checks[..8], tuple);
      assert checks == checks[..8] + tuple;
      TupleOutcome(cfg, sp);
    }
  }

  /** What is left once the checks pass: room, the predeploy, and credits that fit a word. */
  function EffectChecks(cfg: Config, s: PoolState, sp: Spend, payer: nat, recipient: Option<nat>, predeployOk: bool)
    : seq<Check>
  {
    var rows := (if sp.outCm1 in s.leaves then 0 else 1)
              + (if sp.outCm2 in s.leaves || sp.outCm2 == sp.outCm1 then 0 else 1);
    [Check(|s.leaves| + rows <= Pow2(cfg.depth), TreeFull),
     Check(predeployOk, RootPublishFailed),
     Check(payer == cfg.self || sp.fee == 0 || Credit(s.feeCredit, payer) + sp.fee < WORD, Panic),
     Check(recipient.Some? ==> Credit(s.withdrawalCredit, recipient.value) + sp.publicAmount < WORD, Panic)]
  }

  /** All of a settlement call, in order: its shape, the checks, its effects. */
  function CallChecks(cfg: Config, s: PoolState, sender: nat, sp: Spend, recipient: Option<nat>,
                      probe: Option<ProbeWords>, blk: Block): seq<Check>
  {
    (match recipient
     case None => [Check(sp.publicAmount == 0 && sp.ctx == 0, TransferShape)]
     case Some(r) =>
       [Check(r < ADDRESS_SPACE, BadCalldata), Check(sp.publicAmount != 0 && sp.ctx != 0, WithdrawShape),
        Check(sp.ctx == r, CtxDoesNotNameRecipient)])
    + SettlementChecks(cfg, sender, sp, probe)
    + EffectChecks(cfg, s, sp, if probe.Some? then probe.value.payer else 0, recipient, blk.predeployOk)
  }

  lemma EffectOutcome(cfg: Config, s: PoolState, sp: Spend, payer: nat, recipient: Option<nat>, blk: Block)
    ensures FirstFailing(EffectChecks(cfg, s, sp, payer, recipient, blk.predeployOk))
         == match SettleSpec(cfg, s, sp, payer, blk)
            case Reverted(e) => Some(e)
            case Done(t) =>
              if recipient.Some? && Credit(s.withdrawalCredit, recipient.value) + sp.publicAmount >= WORD then
                Some(Panic)
              else None
  {
    var checks := EffectChecks(cfg, s, sp, payer, recipient, blk.predeployOk);
    OutputsInOrder(s.leaves, sp);
    if !checks[0].met { FirstFailingIs(checks, 0); }
    else if !checks[1].met { FirstFailingIs(checks, 1); }
    else if !checks[2].met { FirstFailingIs(checks, 2); }
    else if !checks[3].met { FirstFailingIs(checks, 3); }
    else { NoneFailing(checks); }
  }

  /** A transfer fails at the first check of its list that does not hold, and succeeds when
      all of them do. */
  lemma TransferOutcome(cfg: Config, s: PoolState, sender: nat, sp: Spend, probe: Option<ProbeWords>, blk: Block)
    ensures FirstFailing(CallChecks(cfg, s, sender, sp, None, probe, blk))
         == match TransferSpec(cfg, s, sender, sp, probe, blk) case Done(_) => None case Reverted(e) => Some(e)
  {
    var shape := [Check(sp.publicAmount == 0 && sp.ctx == 0, TransferShape)];
    var payer := if probe.Some? then probe.value.payer else 0;
    var middle := SettlementChecks(cfg, sender, sp, probe);
    var last := EffectChecks(cfg, s, sp, payer, None, blk.predeployOk);
    FirstFailingPrefix(shape + middle, last);
    FirstFailingPrefix(shape, middle);
    SettlementOutcome(cfg, sender, sp, probe);
    EffectOutcome(cfg, s, sp, payer, None, blk);
    assert shape[1..] == [];
  }

  lemma WithdrawShapeOutcome(sp: Spend, r: nat)
    ensures FirstFailing([Check(r < ADDRESS_SPACE, BadCalldata),
                          Check(sp.publicAmount != 0 && sp.ctx != 0, WithdrawShape),
                          Check(sp.ctx == r, CtxDoesNotNameRecipient)])
         == if r >= ADDRESS_SPACE then Some(BadCalldata)
            else if sp.publicAmount == 0 || sp.ctx == 0 then Some(WithdrawShape)
            else if sp.ctx != r then Some(CtxDoesNotNameRecipient) else None
  {
    var checks := [Check(r < ADDRESS_SPACE, BadCalldata), Check(sp.publicAmount != 0 && sp.ctx != 0, WithdrawShape),
                   Check(sp.ctx == r, CtxDoesNotNameRecipient)];
    if !checks[0].met { FirstFailingIs(checks, 0); }
    else if !checks[1].met { FirstFailingIs(checks, 1); }
    else if !checks[2].met { FirstFailingIs(checks, 2); }
    else { NoneFailing(checks); }
  }

  /** And a withdrawal. */
  lemma WithdrawOutcome(cfg: Config, s: PoolState, sender: nat, sp: Spend, r: nat, probe: Option<ProbeWords>,
                        blk: Block)
    ensures FirstFailing(CallChecks(cfg, s, sender, sp, Some(r), probe, blk))
         == match WithdrawSpec(cfg, s, sender, sp, r, probe, blk) case Done(_) => None case Reverted(e) => Some(e)
  {
    var shape := [Check(r < ADDRESS_SPACE, BadCalldata), Check(sp.publicAmount != 0 && sp.ctx != 0, WithdrawShape),
                  Check(sp.ctx == r, CtxDoesNotNameRecipient)];
    var payer := if probe.Some? then probe.value.payer else 0;
    var middle := SettlementChecks(cfg, sender, sp, probe);
    var last := EffectChecks(cfg, s, sp, payer, Some(r), blk.predeployOk);
    FirstFailingPrefix(shape + middle, last);
    FirstFailingPrefix(shape, middle);
    WithdrawShapeOutcome(sp, r);
    SettlementOutcome(cfg, sender, sp, probe);
    EffectOutcome(cfg, s, sp, payer, Some(r), blk);
  }

  // ---- deposits on runs ----

  /** On every run, a deposit is taken if and only if it carries between one wei and 2^128 - 1,
      its hidden part is a residue, its note is not a leaf yet, the tree has room, the
      predeploy answers and the ether fits. */
  lemma DepositIff(sys: System, slot: nat, actions: seq<Action>, value: nat, inner: nat, ok: bool)
    ensures var s, blk := Run(sys, slot, actions).pool, Block(Run(sys, slot, actions).slot, ok);
            var r := CallSpec(sys.cfg, s, ShieldCall(value, inner), blk);
            && (r.Done? <==>
                  && 0 < value < 0x1_0000_0000_0000_0000_0000_0000_0000_0000 && inner < sys.cfg.p
                  && s.balance + value < WORD
                  && sys.cfg.H.h3(2, inner, value) !in s.leaves && |s.leaves| < Pow2(sys.cfg.depth) && ok)
            && (r.Done? ==> Deposited(sys.cfg, s, value, inner, blk.slot, r.state))
  {
    DepositOutcome(sys.cfg, Run(sys, slot, actions).pool, value, inner, Block(Run(sys, slot, actions).slot, ok));
  }

  /** The same through both contracts, side by side. */
  method DepositBoth(a: L.Pool, b: Y.Pool, value: nat, inner: nat, blk: Block) returns (taken: bool)
    requires a.Valid() && b.Valid() && a.cfg == b.cfg && a.Abs() == b.s
    modifies a, b
    ensures a.Valid() && b.Valid() && a.Abs() == b.s
    ensures taken <==>
              && 0 < value < 0x1_0000_0000_0000_0000_0000_0000_0000_0000 && inner < a.cfg.p
              && a.cfg.H.h3(2, inner, value) !in old(a.leaves) && |old(a.leaves)| < Pow2(a.cfg.depth)
              && blk.predeployOk
              && old(a.balance) + value < WORD
    ensures taken ==> Deposited(a.cfg, old(a.Abs()), value, inner, blk.slot, a.Abs())
    ensures !taken ==> a.Abs() == old(a.Abs())
  {
    DepositOutcome(a.cfg, a.Abs(), value, inner, blk);
    var e := a.Dispatch(ShieldCall(value, inner), blk);
    var f := b.Dispatch(ShieldCall(value, inner), blk);
    taken := e == None && f == None;
  }

  lemma {:induction false} CallResidues(sys: System, s: PoolState, call: Call, blk: Block)
    requires SystemOk(sys) && forall x :: x in s.leaves ==> x < sys.cfg.p
    ensures var r := CallSpec(sys.cfg, s, call, blk); r.Done? ==> forall x :: x in r.state.leaves ==> x < sys.cfg.p
    decreases call, 1
  {
    match call
    case ShieldCall(value, inner) =>
    case ClaimWithdrawalCall(who, reentry, _) =>
      if Credit(s.withdrawalCredit, who) <= s.balance { CallsResidues(sys, PayWithdrawal(s, who), reentry, blk); }
    case ClaimFeeCall(who, reentry, _) =>
      if Credit(s.feeCredit, who) <= s.balance { CallsResidues(sys, PayFee(s, who), reentry, blk); }
    case SpendCall(caller, sp, recipient, probe) => OutsideSpendReverts(sys.cfg, s, caller, sp, recipient, probe, blk);
    case ReadCall(_) =>
  }

  lemma {:induction false} CallsResidues(sys: System, s: PoolState, calls: seq<Call>, blk: Block)
    requires SystemOk(sys) && forall x :: x in s.leaves ==> x < sys.cfg.p
    ensures forall x :: x in CallsSpec(sys.cfg, s, calls, blk).leaves ==> x < sys.cfg.p
    decreases calls, 0
  {
    if calls == [] {
    } else {
      CallResidues(sys, s, calls[0], blk);
      var t := match CallSpec(sys.cfg, s, calls[0], blk) case Done(t) => t case Reverted(_) => s;
      CallsResidues(sys, t, calls[1..], blk);
    }
  }

  lemma OutputsCanonical(sys: System, tx: Tx)
    requires Approvable(sys, tx, 0)
    ensures tx.frames != [] && TxSpend(tx).outCm1 < sys.cfg.p && TxSpend(tx).outCm2 < sys.cfg.p
  {
  }

  lemma TxResidues(sys: System, w: World, tx: Tx, env: Environment)
    requires SystemOk(sys) && Accepted(sys, w, tx, env) && forall x :: x in w.pool.leaves ==> x < sys.cfg.p
    ensures forall x :: x in TxStep(sys, w, tx, env).pool.leaves ==> x < sys.cfg.p
  {
    TxPool(sys, w, tx, env);
    OutputsCanonical(sys, tx);
    OutputsInOrder(w.pool.leaves, TxSpend(tx));
  }

  /** Every leaf of every run is a field element. */
  lemma {:induction false} LeavesAreResidues(sys: System, slot: nat, actions: seq<Action>)
    requires SystemOk(sys)
    ensures forall x :: x in Run(sys, slot, actions).pool.leaves ==> x < sys.cfg.p
  {
    if actions == [] {
    } else {
      var before, a := actions[..|actions| - 1], actions[|actions| - 1];
      var w := Run(sys, slot, before);
      LeavesAreResidues(sys, slot, before);
      match a
      case Outside(call, ok) => CallResidues(sys, w.pool, call, Block(w.slot, ok));
      case PoolTx(tx, env) => if Accepted(sys, w, tx, env) { TxResidues(sys, w, tx, env); }
      case _ =>
    }
  }

  /** A note of value in the tree, a dummy beside it, and a split of the value. */
  lemma NoteSpendable(cfg: Config, leaves: seq<nat>, note: SpendInput, dummy: SpendInput, outputs: seq<Output>,
                      out: nat, fee: nat, recipient: Option<nat>)
    requires cfg.domain < cfg.p && forall x :: x in leaves ==> x < cfg.p
    requires note.sk < cfg.p && note.rho < cfg.p && 0 < note.value < MAX_VALUE && note.idx.Some?
    requires note.idx.value < Pow2(cfg.depth) && LeafAt(leaves, note.idx.value) == CommitmentOf(cfg.H, note)
    requires dummy.idx == None && dummy.value == 0 && dummy.sk < cfg.p && dummy.rho < cfg.p
    requires |outputs| == 2 && (forall i: nat | i < 2 :: outputs[i].value >= 0 && outputs[i].inner < cfg.p)
    requires outputs[0].value + outputs[1].value + out + fee == note.value
    requires match recipient case None => out == 0 case Some(r) => out != 0 && 0 < r < ADDRESS_SPACE && r < cfg.p
    requires var nfs := InputNullifiers(cfg.H, cfg.domain, [note, dummy]); nfs[0] != nfs[1]
    ensures Spendable(cfg, leaves, Intent([note, dummy], outputs, out, fee, recipient))
  {
    var it := Intent([note, dummy], outputs, out, fee, recipient);
    assert it.inputs[0] == note && it.inputs[1] == dummy;
    assert Passes(it.inputs, it.outputs, it.publicAmount, it.fee);
    assert forall i: nat | i < |leaves| :: leaves[i] in leaves;
  }

  /** The secrets of a deposit's note. */
  function DepositCall(H: Hasher, value: nat, sk: nat, rho: nat): Call {
    ShieldCall(value, H.h2(H.h3(1, sk, 0), rho))
  }

  lemma DepositIsLeaf(sys: System, slot: nat, actions: seq<Action>, value: nat, sk: nat, rho: nat, ok: bool)
    requires SystemOk(sys)
    requires var w := Run(sys, slot, actions);
             CallSpec(sys.cfg, w.pool, DepositCall(sys.cfg.H, value, sk, rho), Block(w.slot, ok)).Done?
    ensures var w := Run(sys, slot, actions);
            var call := DepositCall(sys.cfg.H, value, sk, rho);
            var leaves := CallSpec(sys.cfg, w.pool, call, Block(w.slot, ok)).state.leaves;
            && 0 < value < MAX_VALUE && |w.pool.leaves| < Pow2(sys.cfg.depth)
            && (forall x :: x in leaves ==> x < sys.cfg.p)
            && LeafAt(leaves, |w.pool.leaves|) == CommitmentOf(sys.cfg.H, SpendInput(sk, rho, value, None))
  {
    var w, H := Run(sys, slot, actions), sys.cfg.H;
    DepositIff(sys, slot, actions, value, H.h2(H.h3(1, sk, 0), rho), ok);
    LeavesAreResidues(sys, slot, actions);
    CallResidues(sys, w.pool, DepositCall(H, value, sk, rho), Block(w.slot, ok));
  }

  /** Every deposit can be spent: the note of a deposit some run took, with any dummy whose
      nullifier differs beside it, is a spend the wallet can prove, for every split of its
      value into two outputs, a public amount and a fee. */
  lemma DepositSpendable(sys: System, slot: nat, actions: seq<Action>, value: nat, sk: nat, rho: nat, ok: bool,
                         dummy: SpendInput, outputs: seq<Output>, out: nat, fee: nat, recipient: Option<nat>)
    requires SystemOk(sys) && sys.cfg.domain < sys.cfg.p && sk < sys.cfg.p && rho < sys.cfg.p
    requires var w := Run(sys, slot, actions);
             CallSpec(sys.cfg, w.pool, DepositCall(sys.cfg.H, value, sk, rho), Block(w.slot, ok)).Done?
    requires dummy.idx == None && dummy.value == 0 && dummy.sk < sys.cfg.p && dummy.rho < sys.cfg.p
    requires |outputs| == 2 && (forall i: nat | i < 2 :: outputs[i].value >= 0 && outputs[i].inner < sys.cfg.p)
    requires outputs[0].value + outputs[1].value + out + fee == value
    requires match recipient case None => out == 0 case Some(r) => out != 0 && 0 < r < ADDRESS_SPACE && r < sys.cfg.p
    requires var H, domain := sys.cfg.H, sys.cfg.domain;
             H.h3(3, H.h2(domain, sk), H.h3(2, H.h2(H.h3(1, sk, 0), rho), value))
             != H.h3(3, H.h2(domain, dummy.sk), H.h3(2, H.h2(H.h3(1, dummy.sk, 0), dummy.rho), 0))
    ensures var w := Run(sys, slot, actions);
            var t := CallSpec(sys.cfg, w.pool, DepositCall(sys.cfg.H, value, sk, rho), Block(w.slot, ok)).state;
            var note := SpendInput(sk, rho, value, Some(|w.pool.leaves|));
            Spendable(sys.cfg, t.leaves, Intent([note, dummy], outputs, out, fee, recipient))
  {
    var w := Run(sys, slot, actions);
    var t := CallSpec(sys.cfg, w.pool, DepositCall(sys.cfg.H, value, sk, rho), Block(w.slot, ok)).state;
    DepositIsLeaf(sys, slot, actions, value, sk, rho, ok);
    var note := SpendInput(sk, rho, value, Some(|w.pool.leaves|));
    var nfs := InputNullifiers(sys.cfg.H, sys.cfg.domain, [note, dummy]);
    assert nfs[0] == Nullifier(sys.cfg.H, sys.cfg.domain, sk, CommitmentOf(sys.cfg.H, note));
    assert nfs[1] == Nullifier(sys.cfg.H, sys.cfg.domain, dummy.sk, CommitmentOf(sys.cfg.H, dummy));
    NoteSpendable(sys.cfg, t.leaves, note, dummy, outputs, out, fee, recipient);
  }
}
