/** The frame-0 authorization of the pool (`devnet/ShieldedPoolDispatcher.yul`) and the
    optional paymaster's (`devnet/ProofPaymaster.yul`): the check cascades, and what an
    envelope that passes them looks like. */
module Dispatcher {
  import opened Wrappers
  import opened Powers
  import opened Bytes
  import opened Circuit
  import opened PoolSpec
  import opened Envelope

  /** `verify` is the Groth16 verifier bound into the dispatcher's code. */
  datatype System = System(cfg: Config, verify: (seq<nat>, Public) -> bool, paymaster: nat)

  /** APPROVE's scope: 1 payment, 2 execution, 3 both. */
  datatype Verdict = Approve(scope: nat) | Fail(error: Error)

  // ---- what an approved envelope looks like ----

  ghost predicate VerifyFrame(f: Frame, flags: nat, gas: nat) {
    f.mode == 1 && f.flags == flags && f.gasLimit == gas && f.value == 0
  }

  ghost predicate TransferData(data: seq<Byte>) {
    && |data| == 548 && Selector(data) == TRANSFER
    && SpendOf(data).publicAmount == 0 && SpendOf(data).ctx == 0
  }

  ghost predicate WithdrawData(data: seq<Byte>) {
    && |data| == 580 && Selector(data) == WITHDRAW
    && SpendOf(data).publicAmount != 0
    && 0 < RecipientOf(data) < ADDRESS_SPACE
    && SpendOf(data).ctx == RecipientOf(data)
  }

  ghost predicate SettleFrame(self: nat, f: Frame) {
    && f.target == self && f.mode == 2 && f.flags == 0 && f.gasLimit == 10_000_000 && f.value == 0
    && (TransferData(f.data) || WithdrawData(f.data))
  }

  /** `[verify + pay by the pool, settle]` */
  ghost predicate SelfPayShape(self: nat, tx: Tx) {
    && |tx.frames| == 2
    && tx.frames[0].target == self && tx.frames[0].data == [] && VerifyFrame(tx.frames[0], 3, 350_000)
    && SettleFrame(self, tx.frames[1])
  }

  /** `[verify by the pool, pay by anyone, settle]` */
  ghost predicate SponsoredShape(self: nat, tx: Tx) {
    && |tx.frames| == 3
    && tx.frames[0].target == self && tx.frames[0].data == [] && VerifyFrame(tx.frames[0], 2, 300_000)
    && VerifyFrame(tx.frames[1], 1, 100_000)
    && SettleFrame(self, tx.frames[2])
  }

  /** The spend a transaction settles: the tuple in its last frame. */
  function TxSpend(tx: Tx): Spend
    requires tx.frames != []
  {
    SpendOf(tx.frames[|tx.frames| - 1].data)
  }

  ghost predicate EnvelopeOk(sys: System, tx: Tx, current: nat) {
    && tx.sender == sys.cfg.self && current == 0
    && (SelfPayShape(sys.cfg.self, tx) || SponsoredShape(sys.cfg.self, tx))
    && tx.nonceSeq == 0 && tx.signatures == 1 && tx.blobs == 0
    && tx.nonceKeys == [Low(TxSpend(tx)), High(TxSpend(tx))]
    && |tx.refs| == 1 && tx.refs[0].source == sys.cfg.sourceId && tx.refs[0].root == TxSpend(tx).root
  }

  /** The proof check over the exact tuple, and the first thing wrong with it. */
  function ProofError(sys: System, s: Spend): Option<Error> {
    if s.nf1 == 0 || s.nf2 == 0 then Some(ZeroNullifier)
    else match ValidateError(sys.cfg, s)
      case Some(e) => Some(e)
      case None => if sys.verify(s.proof, PublicOf(s)) then None else Some(ProofInvalid)
  }

  /** What frame 0 authorizes. */
  ghost predicate Approvable(sys: System, tx: Tx, current: nat) {
    && EnvelopeOk(sys, tx, current)
    && ProofError(sys, TxSpend(tx)) == None
    && (SelfPayShape(sys.cfg.self, tx) ==> TxSpend(tx).fee >= tx.maxCost)
  }

  // ---- which check fails first ----

  /** The settle frame's calldata: transfer or withdraw by length, then its selector and shape. */
  function DataChecks(data: seq<Byte>): seq<Check> {
    if |data| == 548 then
      [Check(Selector(data) == TRANSFER, NotFaithfulShape),
       Check(WordAt(data, 196) == 0 && WordAt(data, 260) == 0, TransferShape)]
    else if |data| == 580 then
      [Check(Selector(data) == WITHDRAW, NotFaithfulShape),
       Check(WordAt(data, 196) != 0 && 0 < WordAt(data, 548) < ADDRESS_SPACE, WithdrawShape),
       Check(WordAt(data, 260) == WordAt(data, 548), CtxDoesNotNameRecipient)]
    else [Check(false, NotFaithfulShape)]
  }

  /** The frame grammar but for the settle frame's calldata. */
  ghost predicate Grammar(self: nat, tx: Tx)
    requires |tx.frames| == 2 || |tx.frames| == 3
  {
    var n := |tx.frames|;
    && tx.frames[0] == Frame(self, if n == 2 then 350_000 else 300_000, 1, if n == 2 then 3 else 2, 0, [])
    && (n == 3 ==> tx.frames[1] == Frame(tx.frames[1].target, 100_000, 1, 1, 0, tx.frames[1].data))
    && tx.frames[n - 1] == Frame(self, 10_000_000, 2, 0, 0, tx.frames[n - 1].data)
  }

  ghost function ProofChecks(sys: System, s: Spend): seq<Check> {
    [Check(s.nf1 != 0 && s.nf2 != 0, ZeroNullifier), Check(s.domain == sys.cfg.domain, InvalidDomain),
     Check(s.root < sys.cfg.p && s.nf1 < sys.cfg.p && s.nf2 < sys.cfg.p && s.outCm1 < sys.cfg.p && s.outCm2 < sys.cfg.p
           && s.domain < sys.cfg.p && s.ctx < sys.cfg.p, NotCanonical),
     Check(s.publicAmount < MAX_VALUE && s.fee < MAX_VALUE, ValueTooLarge),
     Check(sys.verify(s.proof, PublicOf(s)), ProofInvalid)]
  }

  /** What frame 0 checks before it looks at the frames. */
  ghost function HeadChecks(sys: System, tx: Tx, current: nat): seq<Check> {
    [Check(tx.sender == sys.cfg.self && (|tx.frames| == 2 || |tx.frames| == 3), NotFaithfulShape),
     Check(current == 0, KeySetMismatch), Check(tx.signatures == 1, RootNotBoundToReference),
     Check(tx.blobs == 0, NotFaithfulShape), Check(|tx.nonceKeys| == 2, KeySetMismatch),
     Check(tx.nonceSeq == 0 && |tx.refs| == 1, NotFaithfulShape)]
  }

  ghost function FrameChecks(self: nat, tx: Tx): seq<Check>
    requires |tx.frames| == 2 || |tx.frames| == 3
  {
    [Check(Grammar(self, tx), NotFaithfulShape)] + DataChecks(tx.frames[|tx.frames| - 1].data)
  }

  ghost function BindingChecks(sys: System, tx: Tx, s: Spend): seq<Check>
    requires |tx.nonceKeys| == 2 && |tx.refs| == 1
  {
    [Check(tx.nonceKeys == if s.nf1 <= s.nf2 then [s.nf1, s.nf2] else [s.nf2, s.nf1], KeySetMismatch),
     Check(tx.refs[0].source == sys.cfg.sourceId && tx.refs[0].root == s.root, RootNotBoundToReference)]
  }

  ghost function TailChecks(sys: System, tx: Tx): seq<Check>
    requires (|tx.frames| == 2 || |tx.frames| == 3) && |tx.nonceKeys| == 2 && |tx.refs| == 1
  {
    FrameChecks(sys.cfg.self, tx)
    + (BindingChecks(sys, tx, TxSpend(tx))
       + (ProofChecks(sys, TxSpend(tx))
          + [Check(|tx.frames| == 2 ==> TxSpend(tx).fee >= tx.maxCost, FeeBelowMaxCost)]))
  }

  /** All of frame 0, in the order of the code. */
  ghost function ApproveChecks(sys: System, tx: Tx, current: nat): seq<Check> {
    var head := HeadChecks(sys, tx, current);
    if (|tx.frames| == 2 || |tx.frames| == 3) && |tx.nonceKeys| == 2 && |tx.refs| == 1 then
      head + TailChecks(sys, tx)
    else head
  }

  lemma DataFirst(data: seq<Byte>)
    ensures FirstFailing(DataChecks(data))
         == if |data| == 548 then
              if Selector(data) != TRANSFER then Some(NotFaithfulShape)
              else if WordAt(data, 196) != 0 || WordAt(data, 260) != 0 then Some(TransferShape) else None
            else if |data| == 580 then
              if Selector(data) != WITHDRAW then Some(NotFaithfulShape)
              else if WordAt(data, 196) == 0 || WordAt(data, 548) == 0 || WordAt(data, 548) >= ADDRESS_SPACE then
                Some(WithdrawShape)
              else if WordAt(data, 260) != WordAt(data, 548) then Some(CtxDoesNotNameRecipient) else None
            else Some(NotFaithfulShape)
  {
    var checks := DataChecks(data);
    if !checks[0].met { FirstFailingIs(checks, 0); }
    else if !checks[1].met { FirstFailingIs(checks, 1); }
    else if |data| == 580 && !checks[2].met { FirstFailingIs(checks, 2); }
    else { NoneFailing(checks); }
  }

  lemma HeadFirst(sys: System, tx: Tx, current: nat)
    ensures FirstFailing(HeadChecks(sys, tx, current))
         == if tx.sender != sys.cfg.self || !(|tx.frames| == 2 || |tx.frames| == 3) then Some(NotFaithfulShape)
            else if current != 0 then Some(KeySetMismatch)
            else if tx.signatures != 1 then Some(RootNotBoundToReference)
            else if tx.blobs != 0 then Some(NotFaithfulShape)
            else if |tx.nonceKeys| != 2 then Some(KeySetMismatch)
            else if tx.nonceSeq != 0 || |tx.refs| != 1 then Some(NotFaithfulShape)
            else None
  {
    var checks := HeadChecks(sys, tx, current);
    if !checks[0].met { FirstFailingIs(checks, 0); }
    else if !checks[1].met { FirstFailingIs(checks, 1); }
    else if !checks[2].met { FirstFailingIs(checks, 2); }
    else if !checks[3].met { FirstFailingIs(checks, 3); }
    else if !checks[4].met { FirstFailingIs(checks, 4); }
    else if !checks[5].met { FirstFailingIs(checks, 5); }
    else { NoneFailing(checks); }
  }

  lemma HeadDecides(sys: System, tx: Tx, current: nat)
    ensures FirstFailing(HeadChecks(sys, tx, current)) != None ==>
              FirstFailing(ApproveChecks(sys, tx, current)) == FirstFailing(HeadChecks(sys, tx, current))
  {
    if (|tx.frames| == 2 || |tx.frames| == 3) && |tx.nonceKeys| == 2 && |tx.refs| == 1 {
      FirstFailingPrefix(HeadChecks(sys, tx, current), TailChecks(sys, tx));
    }
  }

  lemma ProofFirst(sys: System, s: Spend)
    ensures FirstFailing(ProofChecks(sys, s)) == ProofError(sys, s)
  {
    var checks := ProofChecks(sys, s);
    if !checks[0].met { FirstFailingIs(checks, 0); }
    else if !checks[1].met { FirstFailingIs(checks, 1); }
    else if !checks[2].met { FirstFailingIs(checks, 2); }
    else if !checks[3].met { FirstFailingIs(checks, 3); }
    else if !checks[4].met { FirstFailingIs(checks, 4); }
    else { NoneFailing(checks); }
  }

  /** The list falls into its parts: the first part that fails decides. */
  lemma ApproveFirst(sys: System, tx: Tx, current: nat)
    requires FirstFailing(HeadChecks(sys, tx, current)) == None
    ensures (|tx.frames| == 2 || |tx.frames| == 3) && |tx.nonceKeys| == 2 && |tx.refs| == 1
    ensures FirstFailing(ApproveChecks(sys, tx, current))
         == match FirstFailing(FrameChecks(sys.cfg.self, tx))
            case Some(e) => Some(e)
            case None =>
              var s := TxSpend(tx);
              if tx.nonceKeys != (if s.nf1 <= s.nf2 then [s.nf1, s.nf2] else [s.nf2, s.nf1]) then Some(KeySetMismatch)
              else if tx.refs[0].source != sys.cfg.sourceId || tx.refs[0].root != s.root then
                Some(RootNotBoundToReference)
              else match ProofError(sys, s)
                case Some(e) => Some(e)
                case None => if |tx.frames| == 2 && s.fee < tx.maxCost then Some(FeeBelowMaxCost) else None
  {
    HeadFirst(sys, tx, current);
    var s := TxSpend(tx);
    var head, frames, binding := HeadChecks(sys, tx, current), FrameChecks(sys.cfg.self, tx), BindingChecks(sys, tx, s);
    var fee := [Check(|tx.frames| == 2 ==> s.fee >= tx.maxCost, FeeBelowMaxCost)];
    FirstFailingPrefix(head, TailChecks(sys, tx));
    FirstFailingPrefix(frames, binding + (ProofChecks(sys, s) + fee));
    FirstFailingPrefix(binding, ProofChecks(sys, s) + fee);
    FirstFailingPrefix(ProofChecks(sys, s), fee);
    ProofFirst(sys, s);
    if !binding[0].met { FirstFailingIs(binding, 0); }
    else if !binding[1].met { FirstFailingIs(binding, 1); }
    else { NoneFailing(binding); }
    assert fee[1..] == [];
  }

  // ---- the dispatcher ----

  method VerifyFrameProof(sys: System, tx: Tx, settle: nat) returns (err: Option<Error>)
    requires settle < |tx.frames|
    ensures err == ProofError(sys, SpendOf(tx.frames[settle].data))
  {
    var root, dom := FrameDataLoad(tx, settle, 4), FrameDataLoad(tx, settle, 36);
    var nf1, nf2 := FrameDataLoad(tx, settle, 68), FrameDataLoad(tx, settle, 100);
    var oc1, oc2 := FrameDataLoad(tx, settle, 132), FrameDataLoad(tx, settle, 164);
    var pub, fee, ctx := FrameDataLoad(tx, settle, 196), FrameDataLoad(tx, settle, 228), FrameDataLoad(tx, settle, 260);
    if nf1 == 0 { return Some(ZeroNullifier); }
    if nf2 == 0 { return Some(ZeroNullifier); }
    if dom != sys.cfg.domain { return Some(InvalidDomain); }
    var p := sys.cfg.p;
    if !(root < p) { return Some(NotCanonical); }
    if !(nf1 < p) { return Some(NotCanonical); }
    if !(nf2 < p) { return Some(NotCanonical); }
    if !(oc1 < p) { return Some(NotCanonical); }
    if !(oc2 < p) { return Some(NotCanonical); }
    if !(dom < p) { return Some(NotCanonical); }
    if !(ctx < p) { return Some(NotCanonical); }
    if !(pub < MAX_VALUE) { return Some(ValueTooLarge); }
    if !(fee < MAX_VALUE) { return Some(ValueTooLarge); }
    var proof := new nat[8](_ => 0);
    var i := 0;
    while i < 8
      invariant i <= 8
      invariant forall k: nat | k < i :: proof[k] == FrameDataLoad(tx, settle, 292 + 32 * k)
    {
      proof[i] := FrameDataLoad(tx, settle, 292 + i * 32);
      i := i + 1;
    }
    assert proof[..] == SpendOf(tx.frames[settle].data).proof;
    if !sys.verify(proof[..], Public(nf1, nf2, oc1, oc2, root, dom, pub, fee, ctx)) { return Some(ProofInvalid); }
    err := None;
  }

  /** The settle frame's calldata: transfer or withdraw, and its own shape. */
  method CheckSettleData(tx: Tx, settle: nat) returns (err: Option<Error>)
    requires settle < |tx.frames|
    ensures var data := tx.frames[settle].data; err == None <==> TransferData(data) || WithdrawData(data)
    ensures err == FirstFailing(DataChecks(tx.frames[settle].data))
  {
    DataFirst(tx.frames[settle].data);
    var dataLen := FrameParam(tx, settle, 0x04);
    var selector := FrameDataLoad(tx, settle, 0) / SELECTOR_SHIFT;
    if dataLen == 548 {
      if selector != TRANSFER { return Some(NotFaithfulShape); }
      if FrameDataLoad(tx, settle, 196) != 0 { return Some(TransferShape); }
      if FrameDataLoad(tx, settle, 260) != 0 { return Some(TransferShape); }
    } else if dataLen == 580 {
      if selector != WITHDRAW { return Some(NotFaithfulShape); }
      if FrameDataLoad(tx, settle, 196) == 0 { return Some(WithdrawShape); }
      var recipient := FrameDataLoad(tx, settle, 548);
      if recipient == 0 || recipient / ADDRESS_SPACE != 0 { return Some(WithdrawShape); }
      if FrameDataLoad(tx, settle, 260) != recipient { return Some(CtxDoesNotNameRecipient); }
    } else {
      return Some(NotFaithfulShape);
    }
    err := None;
  }

  /** The per-frame part of the grammar, for either frame count. */
  method CheckFrames(self: nat, tx: Tx, selfPay: bool, settle: nat) returns (err: Option<Error>)
    requires settle == (if selfPay then 1 else 2) && |tx.frames| == settle + 1
    ensures err == None <==> if selfPay then SelfPayShape(self, tx) else SponsoredShape(self, tx)
    ensures err == FirstFailing(FrameChecks(self, tx))
  {
    assert FrameChecks(self, tx)[1..] == DataChecks(tx.frames[settle].data);
    if FrameParam(tx, 0, 0x00) != self { return Some(NotFaithfulShape); }
    if FrameParam(tx, 0, 0x02) != 1 { return Some(NotFaithfulShape); }
    if FrameParam(tx, 0, 0x04) != 0 { return Some(NotFaithfulShape); }
    if FrameParam(tx, 0, 0x08) != 0 { return Some(NotFaithfulShape); }
    if selfPay {
      if FrameParam(tx, 0, 0x03) != 3 { return Some(NotFaithfulShape); }
      if FrameParam(tx, 0, 0x01) != 350_000 { return Some(NotFaithfulShape); }
    } else {
      if FrameParam(tx, 0, 0x03) != 2 { return Some(NotFaithfulShape); }
      if FrameParam(tx, 0, 0x01) != 300_000 { return Some(NotFaithfulShape); }
      if FrameParam(tx, 1, 0x02) != 1 { return Some(NotFaithfulShape); }
      if FrameParam(tx, 1, 0x03) != 1 { return Some(NotFaithfulShape); }
      if FrameParam(tx, 1, 0x01) != 100_000 { return Some(NotFaithfulShape); }
      if FrameParam(tx, 1, 0x08) != 0 { return Some(NotFaithfulShape); }
    }
    if FrameParam(tx, settle, 0x00) != self { return Some(NotFaithfulShape); }
    if FrameParam(tx, settle, 0x02) != 2 { return Some(NotFaithfulShape); }
    if FrameParam(tx, settle, 0x03) != 0 { return Some(NotFaithfulShape); }
    if FrameParam(tx, settle, 0x01) != 10_000_000 { return Some(NotFaithfulShape); }
    if FrameParam(tx, settle, 0x08) != 0 { return Some(NotFaithfulShape); }
    err := CheckSettleData(tx, settle);
  }

  /** Empty calldata at the pool: the frame-0 cascade.  It approves exactly the
      approvable envelopes, and otherwise the error names the first failing check. */
  method VerifyFrameApprove(sys: System, tx: Tx, current: nat) returns (v: Verdict)
    ensures v.Approve? <==> Approvable(sys, tx, current)
    ensures v.Approve? ==> v.scope == if |tx.frames| == 2 then 3 else 2
    ensures FirstFailing(ApproveChecks(sys, tx, current)) == match v case Approve(_) => None case Fail(e) => Some(e)
  {
    HeadFirst(sys, tx, current);
    HeadDecides(sys, tx, current);
    var self := sys.cfg.self;
    if TxParam(tx, current, 0, 0x02) != self { return Fail(NotFaithfulShape); }
    var frames := TxParam(tx, current, 0, 0x09);
    var settleIndex, selfPay := 0, false;
    if frames == 2 { settleIndex, selfPay := 1, true; }
    else if frames == 3 { settleIndex := 2; }
    else { return Fail(NotFaithfulShape); }
    if TxParam(tx, current, 0, 0x0A) != 0 { return Fail(KeySetMismatch); }
    if TxParam(tx, current, 0, 0x0B) != 1 { return Fail(RootNotBoundToReference); }
    if TxParam(tx, current, 0, 0x07) != 0 { return Fail(NotFaithfulShape); }
    if TxParam(tx, current, 0, 0x0D) != 2 { return Fail(KeySetMismatch); }
    if TxParam(tx, current, 0, 0x01) != 0 { return Fail(NotFaithfulShape); }
    if TxParam(tx, current, 0, 0x0F) != 1 { return Fail(NotFaithfulShape); }
    ApproveFirst(sys, tx, current);
    var err := CheckFrames(self, tx, selfPay, settleIndex);
    if err != None { return Fail(err.value); }
    var nf1, nf2 := FrameDataLoad(tx, settleIndex, 68), FrameDataLoad(tx, settleIndex, 100);
    var lo, hi := nf1, nf2;
    if lo > hi { lo, hi := nf2, nf1; }
    if tx.nonceKeys[0] != lo { return Fail(KeySetMismatch); }
    if tx.nonceKeys[1] != hi { return Fail(KeySetMismatch); }
    if RecentRootRef(tx, 0, 0) != sys.cfg.sourceId { return Fail(RootNotBoundToReference); }
    if RecentRootRef(tx, 2, 0) != FrameDataLoad(tx, settleIndex, 4) { return Fail(RootNotBoundToReference); }
    err := VerifyFrameProof(sys, tx, settleIndex);
    if err != None { return Fail(err.value); }
    if selfPay {
      if FrameDataLoad(tx, settleIndex, 228) < TxParam(tx, current, 0, 0x06) { return Fail(FeeBelowMaxCost); }
      v := Approve(3);
    } else {
      v := Approve(2);
    }
  }

  // ---- the paymaster ----

  /** The three frames: the sender's verification, this paymaster, one call into the pool. */
  ghost predicate PaidFrames(paymaster: nat, pool: nat, poolSender: nat, tx: Tx)
    requires |tx.frames| == 3
  {
    var last := tx.frames[2];
    && tx.frames[0].target == poolSender && tx.frames[0].data == [] && VerifyFrame(tx.frames[0], 2, 300_000)
    && tx.frames[1].target == paymaster && VerifyFrame(tx.frames[1], 1, 100_000) && |tx.frames[1].data| == 548
    && last.target == pool && last.mode == 2 && last.flags == 0 && last.gasLimit == 10_000_000 && last.value == 0
    && (|| (|last.data| == 548 && Selector(last.data) == TRANSFER)
        || (|last.data| == 580 && Selector(last.data) == WITHDRAW))
  }

  /** The envelopes a paymaster bound to `pool` and `poolSender` pays for: sent by that
      sender, sponsored by itself in frame 1 with a `verifyProofOnly` tuple equal to the one
      settled in the pool, whose fee covers the most it can be charged. */
  ghost predicate PaysFor(paymaster: nat, pool: nat, poolSender: nat, sourceId: nat, tx: Tx, current: nat) {
    && current == 1 && |tx.frames| == 3 && tx.sender == poolSender
    && PaidFrames(paymaster, pool, poolSender, tx)
    && |tx.frames[1].data| == 548 && Selector(tx.frames[1].data) == VERIFY_PROOF_ONLY
    && SpendOf(tx.frames[1].data) == TxSpend(tx)
    && tx.nonceSeq == 0 && tx.signatures == 1 && tx.blobs == 0
    && tx.nonceKeys == [Low(TxSpend(tx)), High(TxSpend(tx))]
    && |tx.refs| == 1 && tx.refs[0].source == sourceId && tx.refs[0].root == TxSpend(tx).root
    && TxSpend(tx).fee >= tx.maxCost
  }

  /** The deployed paymaster: the pool is its own sender. */
  ghost predicate Payable(sys: System, tx: Tx, current: nat) {
    PaysFor(sys.paymaster, sys.cfg.self, sys.cfg.self, sys.cfg.sourceId, tx, current)
  }

  lemma TupleDiffers(a: seq<Byte>, b: seq<Byte>, k: nat)
    requires k < 17 && WordAt(a, 4 + 32 * k) != WordAt(b, 4 + 32 * k)
    ensures SpendOf(a) != SpendOf(b)
  {
    if k >= 9 {
      assert SpendOf(a).proof[k - 9] != SpendOf(b).proof[k - 9];
    }
  }

  lemma TupleAgrees(a: seq<Byte>, b: seq<Byte>)
    requires forall k: nat | 4 + 32 * k < 548 :: WordAt(b, 4 + 32 * k) == WordAt(a, 4 + 32 * k)
    ensures SpendOf(a) == SpendOf(b)
  {
    forall k: nat | k < 17 ensures WordAt(a, 4 + 32 * k) == WordAt(b, 4 + 32 * k) {}
    forall i: nat | i < 8 ensures SpendOf(a).proof[i] == SpendOf(b).proof[i] {
      assert 292 + 32 * i == 4 + 32 * (i + 9);
    }
    assert WordAt(a, 4 + 32 * 0) == WordAt(b, 4 + 32 * 0) && WordAt(a, 4 + 32 * 1) == WordAt(b, 4 + 32 * 1);
    assert WordAt(a, 4 + 32 * 2) == WordAt(b, 4 + 32 * 2) && WordAt(a, 4 + 32 * 3) == WordAt(b, 4 + 32 * 3);
    assert WordAt(a, 4 + 32 * 4) == WordAt(b, 4 + 32 * 4) && WordAt(a, 4 + 32 * 5) == WordAt(b, 4 + 32 * 5);
    assert WordAt(a, 4 + 32 * 6) == WordAt(b, 4 + 32 * 6) && WordAt(a, 4 + 32 * 7) == WordAt(b, 4 + 32 * 7);
    assert WordAt(a, 4 + 32 * 8) == WordAt(b, 4 + 32 * 8);
    assert SpendOf(a).proof == SpendOf(b).proof;
  }

  /** Word-by-word comparison of the 544-byte tuple with the settle frame's. */
  method SameTuple(tx: Tx, calldata: seq<Byte>) returns (same: bool)
    requires |tx.frames| == 3
    ensures same <==> SpendOf(calldata) == SpendOf(tx.frames[2].data)
  {
    var offset := 4;
    while offset < 548
      invariant offset % 32 == 4 && 4 <= offset <= 548
      invariant forall k: nat | 4 + 32 * k < offset :: FrameDataLoad(tx, 2, 4 + 32 * k) == WordAt(calldata, 4 + 32 * k)
      decreases 548 - offset
    {
      if FrameDataLoad(tx, 2, offset) != WordAt(calldata, offset) {
        TupleDiffers(calldata, tx.frames[2].data, (offset - 4) / 32);
        return false;
      }
      offset := offset + 32;
    }
    TupleAgrees(calldata, tx.frames[2].data);
    same := true;
  }

  method CheckPaidFrames(paymaster: nat, pool: nat, poolSender: nat, tx: Tx) returns (ok: bool)
    requires |tx.frames| == 3
    ensures ok <==> PaidFrames(paymaster, pool, poolSender, tx)
  {
    if FrameParam(tx, 0, 0x00) != poolSender { return false; }
    if FrameParam(tx, 0, 0x02) != 1 { return false; }
    if FrameParam(tx, 0, 0x03) != 2 { return false; }
    if FrameParam(tx, 0, 0x04) != 0 { return false; }
    if FrameParam(tx, 0, 0x01) != 300_000 { return false; }
    if FrameParam(tx, 0, 0x08) != 0 { return false; }
    if FrameParam(tx, 1, 0x00) != paymaster { return false; }
    if FrameParam(tx, 1, 0x02) != 1 { return false; }
    if FrameParam(tx, 1, 0x03) != 1 { return false; }
    if FrameParam(tx, 1, 0x04) != 548 { return false; }
    if FrameParam(tx, 1, 0x01) != 100_000 { return false; }
    if FrameParam(tx, 1, 0x08) != 0 { return false; }
    if FrameParam(tx, 2, 0x00) != pool { return false; }
    if FrameParam(tx, 2, 0x02) != 2 { return false; }
    if FrameParam(tx, 2, 0x03) != 0 { return false; }
    if FrameParam(tx, 2, 0x01) != 10_000_000 { return false; }
    if FrameParam(tx, 2, 0x08) != 0 { return false; }
    var dataLen := FrameParam(tx, 2, 0x04);
    var selector := FrameDataLoad(tx, 2, 0) / SELECTOR_SHIFT;
    if dataLen == 548 { ok := selector == TRANSFER; }
    else if dataLen == 580 { ok := selector == WITHDRAW; }
    else { ok := false; }
  }

  /** The pay frame, run at the paymaster as frame `current` with that frame's data.  The
      source id is the keccak digest of the pool it is bound to. */
  method PayFrame(paymaster: nat, pool: nat, poolSender: nat, sourceId: nat, tx: Tx, current: nat)
    returns (approved: bool)
    requires current < |tx.frames| && tx.frames[current].target == paymaster
    ensures approved <==> PaysFor(paymaster, pool, poolSender, sourceId, tx, current)
  {
    var calldata := tx.frames[current].data;
    if |calldata| == 0 { return false; }
    if |calldata| != 548 { return false; }
    if Selector(calldata) != VERIFY_PROOF_ONLY { return false; }
    if TxParam(tx, current, 0, 0x02) != poolSender { return false; }
    var nf1, nf2, fee := WordAt(calldata, 68), WordAt(calldata, 100), WordAt(calldata, 228);
    if fee < TxParam(tx, current, 0, 0x06) { return false; }
    var lo, hi := nf1, nf2;
    if lo > hi { lo, hi := nf2, nf1; }
    if TxParam(tx, current, 0, 0x0D) != 2 { return false; }
    if TxParam(tx, current, 0, 0x01) != 0 { return false; }
    if tx.nonceKeys[0] != lo { return false; }
    if tx.nonceKeys[1] != hi { return false; }
    if TxParam(tx, current, 0, 0x0F) != 1 { return false; }
    if RecentRootRef(tx, 0, 0) != sourceId { return false; }
    if RecentRootRef(tx, 2, 0) != WordAt(calldata, 4) { return false; }
    if TxParam(tx, current, 0, 0x09) != 3 { return false; }
    if TxParam(tx, current, 0, 0x0A) != 1 { return false; }
    if TxParam(tx, current, 0, 0x0B) != 1 { return false; }
    if TxParam(tx, current, 0, 0x07) != 0 { return false; }
    approved := CheckPaidFrames(paymaster, pool, poolSender, tx);
    if approved { approved := SameTuple(tx, calldata); }
  }
}
