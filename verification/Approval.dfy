/** What an approval admits: nothing but the builder's own envelopes.  The converse of
    `SpendBuilder.BuiltApproved` -- every envelope frame 0 approves, and every one the
    paymaster pays for, is frame by frame and byte by byte what the builder makes of the
    spend it settles. */
module Approval {
  import opened Wrappers
  import opened Powers
  import opened Bytes
  import opened PoolSpec
  import opened Envelope
  import opened Dispatcher
  import opened SpendBuilder
  import Field

  // ---- calldata is determined by what it decodes to ----

  lemma LastByte(q: nat, b: Byte)
    ensures (q * 256 + b) / 256 == q && (q * 256 + b) % 256 == b
  {
    QuotientOf(q, 256, b);
    Field.DivMod(q * 256 + b, 256);
  }

  /** Writing what was read gives the bytes back. */
  lemma {:induction false} WriteBack(data: seq<Byte>, off: nat, k: nat)
    requires off + k <= |data|
    ensures ToBE(ReadBE(data, off, k), k) == data[off..off + k]
  {
    if k == 0 {
    } else {
      WriteBack(data, off, k - 1);
      LastByte(ReadBE(data, off, k - 1), data[off + k - 1]);
      assert data[off..off + k] == data[off..off + (k - 1)] + [data[off + k - 1]];
    }
  }

  function WordsOf(data: seq<Byte>, off: nat, n: nat): seq<nat> {
    seq(n, k requires 0 <= k < n => WordAt(data, off + 32 * k))
  }

  lemma {:induction false} WordsBack(data: seq<Byte>, off: nat, n: nat)
    requires off + 32 * n <= |data|
    ensures Words(WordsOf(data, off, n)) == data[off..off + 32 * n]
  {
    if n == 0 {
    } else {
      var ws, end := WordsOf(data, off, n), off + 32 * (n - 1);
      WordsBack(data, off, n - 1);
      WriteBack(data, end, 32);
      assert ws[..n - 1] == WordsOf(data, off, n - 1) && ws[n - 1] == WordAt(data, end);
      assert data[off..off + 32 * n] == data[off..end] + data[end..end + 32];
    }
  }

  lemma SelectorIs(data: seq<Byte>, a: nat, b: nat)
    requires a == 4 && b == 28
    ensures Selector(data) == ReadBE(data, 0, a)
  {
    ReadSplit(data, 0, a, b);
    ReadBEBound(data, a, b);
    Pow256Values(b);
    QuotientOf(ReadBE(data, 0, a), SELECTOR_SHIFT, ReadBE(data, a, b));
  }

  lemma TupleWords(data: seq<Byte>)
    ensures WordsOf(data, 4, 17) == SpendWords(SpendOf(data))
  {
    var ws, tuple := WordsOf(data, 4, 17), SpendWords(SpendOf(data));
    forall k: nat | k < 17 ensures ws[k] == tuple[k] {
      if k >= 9 { assert 4 + 32 * k == 292 + 32 * (k - 9); }
    }
  }

  /** A selector, the tuple's words, and whatever words follow. */
  lemma CalldataIsCall(data: seq<Byte>, more: nat)
    requires |data| == 548 + 32 * more && more <= 1
    ensures var behind := if more == 0 then [] else [RecipientOf(data)];
            data == SpendBuilder.Call(Selector(data), SpendWords(SpendOf(data)) + behind)
  {
    SelectorIs(data, 4, 28);
    WriteBack(data, 0, 4);
    WordsBack(data, 4, 17 + more);
    TupleWords(data);
    var ws := WordsOf(data, 4, 17 + more);
    assert ws[..17] == WordsOf(data, 4, 17);
    assert ws == ws[..17] + (if more == 0 then [] else [WordAt(data, 548)]);
    assert data == data[0..4] + data[4..];
  }

  // ---- frame 0 ----

  /** The plan an envelope would have been built from. */
  function PlanOf(tx: Tx): Plan
    requires tx.frames != [] && tx.refs != []
  {
    var data := tx.frames[|tx.frames| - 1].data;
    Plan(0, tx.sender, 0, SpendOf(data), if |data| == 580 then Some(RecipientOf(data)) else None,
         if |tx.frames| == 3 then Some(tx.frames[1].target) else None, tx.refs[0].source, tx.refs[0].slot, 0, 0)
  }

  lemma SettleDataIs(data: seq<Byte>)
    requires (|data| == 548 && Selector(data) == TRANSFER) || (|data| == 580 && Selector(data) == WITHDRAW)
    ensures data == SettleCall(SpendOf(data), if |data| == 580 then Some(RecipientOf(data)) else None)
  {
    CalldataIsCall(data, if |data| == 580 then 1 else 0);
    assert SpendWords(SpendOf(data)) + [] == SpendWords(SpendOf(data));
  }

  /** The first four bytes of the three calls. */
  lemma SelectorBytes()
    ensures ToBE(TRANSFER, 4) == [0xb9, 0x94, 0x7f, 0xa0] && ToBE(WITHDRAW, 4) == [0xd6, 0x77, 0xb4, 0x6e]
    ensures ToBE(VERIFY_PROOF_ONLY, 4) == [0x8c, 0xc8, 0xfe, 0x8d]
  {
  }

  /** What every approved envelope is, field by field.  With two frames it is the builder's
      envelope exactly; with three, frame 1 is a payment frame of somebody's choosing. */
  ghost predicate IsPlanned(tx: Tx, self: nat, source: nat) {
    && (|tx.frames| == 2 || |tx.frames| == 3) && |tx.refs| == 1
    && tx.sender == self && tx.nonceSeq == 0 && tx.signatures == 1 && tx.blobs == 0
    && var plan := PlanOf(tx); var shape := SeenShape(plan);
    && tx.nonceKeys == (if plan.spend.nf1 <= plan.spend.nf2 then [plan.spend.nf1, plan.spend.nf2]
                        else [plan.spend.nf2, plan.spend.nf1])
    && tx.refs[0].source == source && tx.refs[0].root == plan.spend.root
    && |shape| == |tx.frames| && tx.frames[0] == shape[0] && tx.frames[|tx.frames| - 1] == shape[|shape| - 1]
    && (|tx.frames| == 3 ==> tx.frames[1] == shape[1].(data := tx.frames[1].data))
  }

  lemma WordBelow(data: seq<Byte>, off: nat, k: nat)
    requires k == 32
    ensures ReadBE(data, off, k) < WORD
  {
    ReadBEBound(data, off, k);
    Pow256Values(k);
  }

  lemma TupleFits(data: seq<Byte>)
    ensures WordsFit(SpendOf(data))
  {
    TupleWords(data);
    forall k: nat | k < 17 ensures SpendWords(SpendOf(data))[k] < WORD {
      WordBelow(data, 4 + 32 * k, 32);
    }
  }

  lemma ApprovedPlanned(sys: System, tx: Tx)
    requires Approvable(sys, tx, 0)
    ensures IsPlanned(tx, sys.cfg.self, sys.cfg.sourceId)
  {
    var data := tx.frames[|tx.frames| - 1].data;
    SettleDataIs(data);
  }

  lemma PlannedShape(sys: System, tx: Tx)
    requires IsPlanned(tx, sys.cfg.self, sys.cfg.sourceId)
    requires PlanOf(tx).recipient.Some? ==> PlanOf(tx).recipient.value < ADDRESS_SPACE
    ensures var data := tx.frames[|tx.frames| - 1].data;
            TransferData(data) || WithdrawData(data) <==> SpendShape(PlanOf(tx).spend, PlanOf(tx).recipient)
  {
    var plan := PlanOf(tx);
    TupleFits(tx.frames[|tx.frames| - 1].data);
    SettleCallShape(plan.spend, plan.recipient);
  }

  /** Frame 0 approves nothing but the builder's envelopes, and approves them exactly when the
      proof checks, the call has its shape and a self-paid fee covers the maximum cost. */
  lemma ApprovedIsPlanned(sys: System, tx: Tx)
    ensures Approvable(sys, tx, 0) <==>
              && IsPlanned(tx, sys.cfg.self, sys.cfg.sourceId)
              && ProofError(sys, PlanOf(tx).spend) == None && SpendShape(PlanOf(tx).spend, PlanOf(tx).recipient)
              && (PlanOf(tx).recipient.Some? ==> PlanOf(tx).recipient.value < ADDRESS_SPACE)
              && (|tx.frames| == 2 ==> PlanOf(tx).spend.fee >= tx.maxCost)
  {
    if Approvable(sys, tx, 0) { ApprovedPlanned(sys, tx); }
    if IsPlanned(tx, sys.cfg.self, sys.cfg.sourceId) {
      if PlanOf(tx).recipient.Some? ==> PlanOf(tx).recipient.value < ADDRESS_SPACE { PlannedShape(sys, tx); }
    }
  }

  // ---- the paymaster ----

  lemma CarrierIs(data: seq<Byte>)
    requires |data| == 548 && Selector(data) == VERIFY_PROOF_ONLY
    ensures data == Carrier(SpendOf(data))
  {
    CalldataIsCall(data, 0);
    assert SpendWords(SpendOf(data)) + [] == SpendWords(SpendOf(data));
  }

  lemma PayableFrames(sys: System, tx: Tx)
    requires Payable(sys, tx, 1)
    ensures |tx.frames| == 3 && |tx.refs| == 1 && PlanOf(tx).paymaster == Some(sys.paymaster)
    ensures tx.frames == SeenShape(PlanOf(tx))
  {
    SettleDataIs(tx.frames[2].data);
    CarrierIs(tx.frames[1].data);
    var shape := SeenShape(PlanOf(tx));
    assert tx.frames[0] == shape[0] && tx.frames[1] == shape[1] && tx.frames[2] == shape[2];
  }

  lemma PayablePlanned(sys: System, tx: Tx)
    requires Payable(sys, tx, 1)
    ensures IsPlanned(tx, sys.cfg.self, sys.cfg.sourceId) && tx.frames == SeenShape(PlanOf(tx))
    ensures |tx.frames| == 3 && PlanOf(tx).paymaster == Some(sys.paymaster)
  {
    PayableFrames(sys, tx);
  }

  lemma WithdrawSelector(s: Spend, recipient: nat)
    ensures Selector(WithdrawCall(s, recipient)) == WITHDRAW
  {
    Pow256Values(4);
    SelectorRead(WITHDRAW, Words(SpendWords(s) + [recipient]), 4, 28);
  }

  /** The paymaster pays for nothing but the builder's envelopes for it, carrier included, and
      for those exactly when the fee covers the maximum cost. */
  lemma PayableIsPlanned(sys: System, tx: Tx)
    ensures Payable(sys, tx, 1) <==>
              && IsPlanned(tx, sys.cfg.self, sys.cfg.sourceId) && tx.frames == SeenShape(PlanOf(tx))
              && |tx.frames| == 3 && PlanOf(tx).paymaster == Some(sys.paymaster)
              && PlanOf(tx).spend.fee >= tx.maxCost
  {
    if Payable(sys, tx, 1) { PayablePlanned(sys, tx); }
    if IsPlanned(tx, sys.cfg.self, sys.cfg.sourceId) && tx.frames == SeenShape(PlanOf(tx)) && |tx.frames| == 3 {
      TupleFits(tx.frames[2].data);
      TransferReads(PlanOf(tx).spend);
      if PlanOf(tx).recipient.Some? {
        WithdrawSelector(PlanOf(tx).spend, PlanOf(tx).recipient.value);
        CallRoundTrip(WITHDRAW, PlanOf(tx).spend, [PlanOf(tx).recipient.value]);
      }
    }
  }
}
