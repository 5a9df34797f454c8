/** What each settlement entry point does to the pool, as functions on values: the
    specification that `ShieldedPoolLogic.sol` and the monolithic Yul pool are both
    proved against. */
module PoolSpec {
  import opened Wrappers
  import opened Merkle
  import opened Powers
  import opened Circuit

  /** The proof's eight words ride behind the nine public values. */
  datatype Spend = Spend(root: nat, domain: nat, nf1: nat, nf2: nat, outCm1: nat, outCm2: nat,
                         publicAmount: nat, fee: nat, ctx: nat, proof: seq<nat>)

  /** `sourceId` and `domain` are keccak digests of the pool's address and chain. */
  datatype Config = Config(H: Hasher, p: nat, depth: nat, self: nat, sourceId: nat, domain: nat)

  datatype Error =
    | ZeroValueShield | ValueTooLarge | DuplicateCommitment | NotCanonical | TreeFull
    | NotPoolSender | ZeroNullifier | NotFrameNative | NotFaithfulShape | FeeBelowMaxCost
    | RootNotBoundToReference | ProofInvalid | InvalidDomain | KeySetMismatch | TransferShape
    | WithdrawShape | CtxDoesNotNameRecipient | PayoutFailed | InvalidPayer | NoCredit
    | RootPublishFailed | Panic | BadCalldata

  datatype LeafAppended = LeafAppended(cm: nat, index: nat, newRoot: nat, slot: nat)

  /** One 64-byte write to the recent-root predeploy. */
  datatype RootWrite = RootWrite(slot: nat, root: nat)

  /** The pool's storage and logs, its ether, and the ether it has paid to each account. */
  datatype PoolState = PoolState(leaves: seq<nat>, withdrawalCredit: map<nat, nat>, feeCredit: map<nat, nat>,
                                 events: seq<LeafAppended>, writes: seq<RootWrite>,
                                 balance: nat, sent: map<nat, nat>)

  datatype Outcome = Done(state: PoolState) | Reverted(error: Error)

  datatype Block = Block(slot: nat, predeployOk: bool)

  /** The eleven words `EnvelopeProbe` returns. */
  datatype ProbeWords = ProbeWords(frames: nat, frameIndex: nat, keyCount: nat, nonceSeq: nat, k0: nat, k1: nat,
                                   refCount: nat, refSource: nat, refRoot: nat, settleTarget: nat, payer: nat)

  function Credit(m: map<nat, nat>, who: nat): nat { if who in m then m[who] else 0 }

  function TreeRoot(cfg: Config, leaves: seq<nat>): nat { Root(cfg.H.h2, cfg.depth, leaves) }

  function Capacity(cfg: Config): nat { Pow2(cfg.depth) }

  predicate Distinct(s: seq<nat>) {
    forall i: nat, j: nat | i < j < |s| :: s[i] != s[j]
  }

  // ---- checks in order ----

  /** What a check demands, and the error when it is not met. */
  datatype Check = Check(met: bool, error: Error)

  /** The error of the first check that does not hold. */
  function FirstFailing(checks: seq<Check>): Option<Error> {
    if checks == [] then None
    else if !checks[0].met then Some(checks[0].error)
    else FirstFailing(checks[1..])
  }

  lemma {:induction false} FirstFailingIs(checks: seq<Check>, k: nat)
    requires k < |checks| && !checks[k].met && forall j: nat | j < k :: checks[j].met
    ensures FirstFailing(checks) == Some(checks[k].error)
  {
    if k == 0 {
    } else {
      FirstFailingIs(checks[1..], k - 1);
    }
  }

  lemma {:induction false} NoneFailing(checks: seq<Check>)
    requires forall j: nat | j < |checks| :: checks[j].met
    ensures FirstFailing(checks) == None
  {
    if checks == [] {
    } else {
      NoneFailing(checks[1..]);
    }
  }

  lemma {:induction false} FirstFailingPrefix(a: seq<Check>, b: seq<Check>)
    ensures FirstFailing(a + b) == if FirstFailing(a) == None then FirstFailing(b) else FirstFailing(a)
  {
    if a == [] {
      assert a + b == b;
    } else {
      FirstFailingPrefix(a[1..], b);
      assert (a + b)[1..] == a[1..] + b;
    }
  }

  // ---- shield ----

  function ShieldSpec(cfg: Config, s: PoolState, value: nat, inner: nat, blk: Block): Outcome {
    var cm := Commitment(cfg.H, inner, value);
    if value == 0 then Reverted(ZeroValueShield)
    else if value >= MAX_VALUE then Reverted(ValueTooLarge)
    else if inner >= cfg.p then Reverted(NotCanonical)
    else if cm in s.leaves then Reverted(DuplicateCommitment)
    else if |s.leaves| >= Capacity(cfg) then Reverted(TreeFull)
    else if !blk.predeployOk then Reverted(RootPublishFailed)
    else
      var leaves := s.leaves + [cm];
      var root := TreeRoot(cfg, leaves);
      Done(s.(leaves := leaves, balance := s.balance + value,
              events := s.events + [LeafAppended(cm, |s.leaves|, root, blk.slot)],
              writes := s.writes + [RootWrite(blk.slot, root)]))
  }

  // ---- spend ----

  /** Domain, canonicity and ranges, in the order the code tests them. */
  function ValidateError(cfg: Config, sp: Spend): Option<Error> {
    if sp.domain != cfg.domain then Some(InvalidDomain)
    else if sp.root >= cfg.p || sp.nf1 >= cfg.p || sp.nf2 >= cfg.p || sp.outCm1 >= cfg.p || sp.outCm2 >= cfg.p
         || sp.domain >= cfg.p || sp.ctx >= cfg.p then Some(NotCanonical)
    else if sp.publicAmount >= MAX_VALUE || sp.fee >= MAX_VALUE then Some(ValueTooLarge)
    else None
  }

  /** Every public value is a residue, the domain the pool's, the amounts 128-bit. */
  predicate WellFormed(cfg: Config, sp: Spend) {
    && sp.root < cfg.p && sp.nf1 < cfg.p && sp.nf2 < cfg.p && sp.outCm1 < cfg.p && sp.outCm2 < cfg.p && sp.ctx < cfg.p
    && sp.domain == cfg.domain < cfg.p
    && sp.publicAmount < MAX_VALUE && sp.fee < MAX_VALUE
  }

  function Low(sp: Spend): nat { if sp.nf1 > sp.nf2 then sp.nf2 else sp.nf1 }

  function High(sp: Spend): nat { if sp.nf1 > sp.nf2 then sp.nf1 else sp.nf2 }

  /** The transaction around a settle frame is the one that consumed exactly this spend's
      nullifiers and referred to its root, in the unique last frame, paid for by somebody. */
  predicate Envelops(cfg: Config, sp: Spend, w: ProbeWords) {
    && (w.frames == 2 || w.frames == 3) && w.frameIndex == w.frames - 1 && w.settleTarget == cfg.self
    && w.keyCount == 2 && w.nonceSeq == 0 && w.k0 <= w.k1 && multiset{w.k0, w.k1} == multiset{sp.nf1, sp.nf2}
    && w.refCount == 1 && w.refSource == cfg.sourceId && w.refRoot == sp.root
    && 0 < w.payer < ADDRESS_SPACE
  }

  /** `_spend`: which check of the settle frame fails first, if any. */
  function SpendError(cfg: Config, sender: nat, sp: Spend, probe: Option<ProbeWords>): Option<Error> {
    if sender != cfg.self then Some(NotPoolSender)
    else if sp.nf1 == 0 || sp.nf2 == 0 then Some(ZeroNullifier)
    else if probe == None then Some(NotFrameNative)
    else
      var w := probe.value;
      var selfPay, sponsored := w.frames == 2 && w.frameIndex == 1, w.frames == 3 && w.frameIndex == 2;
      if w.settleTarget >= ADDRESS_SPACE then Some(BadCalldata)
      else if (!selfPay && !sponsored) || w.settleTarget != cfg.self then Some(NotFaithfulShape)
      else if w.keyCount != 2 || w.nonceSeq != 0 || w.k0 != Low(sp) || w.k1 != High(sp) then Some(KeySetMismatch)
      else if w.refCount != 1 || w.refSource != cfg.sourceId || w.refRoot != sp.root then Some(RootNotBoundToReference)
      else if w.payer == 0 || w.payer >= ADDRESS_SPACE then Some(InvalidPayer)
      else ValidateError(cfg, sp)
  }

  lemma SortedKeys(sp: Spend, k0: nat, k1: nat)
    ensures k0 == Low(sp) && k1 == High(sp) <==> k0 <= k1 && multiset{k0, k1} == multiset{sp.nf1, sp.nf2}
  {
    if k0 <= k1 && multiset{k0, k1} == multiset{sp.nf1, sp.nf2} {
      assert k0 in multiset{sp.nf1, sp.nf2} && k1 in multiset{sp.nf1, sp.nf2};
      assert sp.nf1 in multiset{k0, k1} && sp.nf2 in multiset{k0, k1};
    }
  }

  /** What passing every settlement check means. */
  lemma SpendChecked(cfg: Config, sender: nat, sp: Spend, probe: Option<ProbeWords>)
    ensures SpendError(cfg, sender, sp, probe) == None <==>
              && sender == cfg.self && cfg.self < ADDRESS_SPACE && sp.nf1 != 0 && sp.nf2 != 0
              && probe.Some? && Envelops(cfg, sp, probe.value) && WellFormed(cfg, sp)
  {
    if probe.Some? { SortedKeys(sp, probe.value.k0, probe.value.k1); }
  }

  /** The leaves after inserting one output: a duplicate insert is a no-op. */
  function WithOutput(leaves: seq<nat>, cm: nat): seq<nat> {
    if cm in leaves then leaves else leaves + [cm]
  }

  function WithOutputs(leaves: seq<nat>, sp: Spend): seq<nat> {
    WithOutput(WithOutput(leaves, sp.outCm1), sp.outCm2)
  }

  function SettleEvents(leaves: seq<nat>, sp: Spend, root: nat, slot: nat): seq<LeafAppended> {
    var mid := WithOutput(leaves, sp.outCm1);
    (if sp.outCm1 in leaves then [] else [LeafAppended(sp.outCm1, |leaves|, root, slot)])
    + (if sp.outCm2 in mid then [] else [LeafAppended(sp.outCm2, |mid|, root, slot)])
  }

  function AddCredit(m: map<nat, nat>, who: nat, amount: nat): map<nat, nat> {
    m[who := Credit(m, who) + amount]
  }

  /** `_settle`: outputs in, root out, fee to a payer other than the pool. */
  function SettleSpec(cfg: Config, s: PoolState, sp: Spend, payer: nat, blk: Block): Outcome {
    var leaves := WithOutputs(s.leaves, sp);
    var root := TreeRoot(cfg, leaves);
    var paid := sp.fee != 0 && payer != cfg.self;
    if |leaves| > Capacity(cfg) then Reverted(TreeFull)
    else if !blk.predeployOk then Reverted(RootPublishFailed)
    else if paid && Credit(s.feeCredit, payer) + sp.fee >= WORD then Reverted(Panic)
    else
      Done(s.(leaves := leaves,
              events := s.events + SettleEvents(s.leaves, sp, root, blk.slot),
              writes := s.writes + [RootWrite(blk.slot, root)],
              feeCredit := if paid then AddCredit(s.feeCredit, payer, sp.fee) else s.feeCredit))
  }

  function TransferSpec(cfg: Config, s: PoolState, sender: nat, sp: Spend, probe: Option<ProbeWords>,
                        blk: Block): Outcome
  {
    if sp.publicAmount != 0 || sp.ctx != 0 then Reverted(TransferShape)
    else match SpendError(cfg, sender, sp, probe)
      case Some(e) => Reverted(e)
      case None => SettleSpec(cfg, s, sp, probe.value.payer, blk)
  }

  function WithdrawSpec(cfg: Config, s: PoolState, sender: nat, sp: Spend, recipient: nat,
                        probe: Option<ProbeWords>, blk: Block): Outcome
  {
    if recipient >= ADDRESS_SPACE then Reverted(BadCalldata)
    else if sp.publicAmount == 0 || sp.ctx == 0 then Reverted(WithdrawShape)
    else if sp.ctx != recipient then Reverted(CtxDoesNotNameRecipient)
    else match SpendError(cfg, sender, sp, probe)
      case Some(e) => Reverted(e)
      case None =>
        match SettleSpec(cfg, s, sp, probe.value.payer, blk)
        case Reverted(e) => Reverted(e)
        case Done(t) =>
          if Credit(t.withdrawalCredit, recipient) + sp.publicAmount >= WORD then Reverted(Panic)
          else Done(t.(withdrawalCredit := AddCredit(t.withdrawalCredit, recipient, sp.publicAmount)))
  }

  // ---- calls from outside, with re-entry ----

  /** A call into the pool by anyone but itself.  A claim pays `who`, whose code may
      call the pool again before it accepts or rejects the payment.  A read is a view,
      `verifyProofOnly` or a stray empty call: it answers or reverts, and changes nothing. */
  datatype Call =
    | ShieldCall(value: nat, inner: nat)
    | ClaimWithdrawalCall(who: nat, reentry: seq<Call>, accepts: bool)
    | ClaimFeeCall(who: nat, reentry: seq<Call>, accepts: bool)
    | SpendCall(caller: nat, spend: Spend, recipient: Option<nat>, probe: Option<ProbeWords>)
    | ReadCall(error: Option<Error>)

  /** A claim zeroes the credit and moves the ether before the recipient's code runs. */
  function PayWithdrawal(s: PoolState, who: nat): PoolState
    requires Credit(s.withdrawalCredit, who) <= s.balance
  {
    var amount := Credit(s.withdrawalCredit, who);
    s.(withdrawalCredit := s.withdrawalCredit[who := 0], balance := s.balance - amount,
      sent := AddCredit(s.sent, who, amount))
  }

  function PayFee(s: PoolState, who: nat): PoolState
    requires Credit(s.feeCredit, who) <= s.balance
  {
    var amount := Credit(s.feeCredit, who);
    s.(feeCredit := s.feeCredit[who := 0], balance := s.balance - amount, sent := AddCredit(s.sent, who, amount))
  }

  function CallSpec(cfg: Config, s: PoolState, call: Call, blk: Block): Outcome
    decreases call
  {
    match call
    case ShieldCall(value, inner) =>
      // Ether is finite: no balance exceeds a word.
      if s.balance + value >= WORD then Reverted(Panic) else ShieldSpec(cfg, s, value, inner, blk)
    case ClaimWithdrawalCall(who, reentry, accepts) =>
      var amount := Credit(s.withdrawalCredit, who);
      if amount == 0 then Reverted(NoCredit)
      else if amount > s.balance || who == cfg.self then Reverted(PayoutFailed)
      else
        var t := CallsSpec(cfg, PayWithdrawal(s, who), reentry, blk);
        if accepts then Done(t) else Reverted(PayoutFailed)
    case ClaimFeeCall(who, reentry, accepts) =>
      var amount := Credit(s.feeCredit, who);
      if amount == 0 then Reverted(NoCredit)
      else if amount > s.balance || who == cfg.self then Reverted(PayoutFailed)
      else
        var t := CallsSpec(cfg, PayFee(s, who), reentry, blk);
        if accepts then Done(t) else Reverted(PayoutFailed)
    case SpendCall(caller, sp, recipient, probe) =>
      // The pool is its own caller only in a settle frame.
      if caller == cfg.self then Reverted(NotPoolSender)
      else (
        match recipient
        case None => TransferSpec(cfg, s, caller, sp, probe, blk)
        case Some(r) => WithdrawSpec(cfg, s, caller, sp, r, probe, blk)
      )
    case ReadCall(error) => if error == None then Done(s) else Reverted(error.value)
  }

  /** A caller that shrugs off failed calls, as re-entering code may. */
  function CallsSpec(cfg: Config, s: PoolState, calls: seq<Call>, blk: Block): PoolState
    decreases calls
  {
    if calls == [] then s
    else
      var t := match CallSpec(cfg, s, calls[0], blk) case Done(t) => t case Reverted(_) => s;
      CallsSpec(cfg, t, calls[1..], blk)
  }

  const NO_LEAVES := PoolState([], map[], map[], [], [], 0, map[])

  /** The dispatcher's constructor: the empty root, published once. */
  function Genesis(cfg: Config, slot: nat): PoolState {
    NO_LEAVES.(writes := [RootWrite(slot, TreeRoot(cfg, []))])
  }
}
