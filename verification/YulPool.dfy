/** The monolithic pool (`devnet/ShieldedPool.yul`): the same operations on raw storage
    slots, with a masked probe word and wrapping credit additions where the Solidity
    contract decodes strictly and adds with a check. */
module YulPool {
  import opened Wrappers
  import opened Merkle
  import opened Powers
  import opened PoolSpec
  import opened Envelope
  import opened Dispatcher

  /** Mapping slots are keccak digests of key and base, kept symbolic: no two coincide. */
  datatype Slot = Fixed(n: nat) | MapSlot(key: nat, base: nat)

  function Load(st: map<Slot, nat>, k: Slot): nat { if k in st then st[k] else 0 }

  // Slots 0..depth hold the frontier (20 levels: 0..20), the rest follow.
  function NextIndex(cfg: Config): Slot { Fixed(cfg.depth + 1) }

  function CurrentRoot(cfg: Config): Slot { Fixed(cfg.depth + 2) }

  function LeafSlot(cfg: Config, cm: nat): Slot { MapSlot(cm, cfg.depth + 3) }

  function WithdrawalSlot(cfg: Config, a: nat): Slot { MapSlot(a, cfg.depth + 4) }

  function FeeSlot(cfg: Config, a: nat): Slot { MapSlot(a, cfg.depth + 5) }

  /** The frontier part of storage, level by level. */
  function Filled(cfg: Config, st: map<Slot, nat>): map<nat, nat> {
    map l: nat | l <= cfg.depth :: Load(st, Fixed(l))
  }

  /** The tree slots stand for `leaves`. */
  ghost predicate TreeStands(cfg: Config, st: map<Slot, nat>, leaves: seq<nat>) {
    && FrontierOk(cfg.H.h2, cfg.depth, Filled(cfg, st), leaves)
    && Load(st, NextIndex(cfg)) == |leaves| <= Capacity(cfg)
    && (forall x: nat :: Load(st, LeafSlot(cfg, x)) == if x in leaves then 1 else 0)
  }

  ghost predicate CreditsStand(cfg: Config, st: map<Slot, nat>, s: PoolState) {
    && (forall a: nat :: Load(st, WithdrawalSlot(cfg, a)) == Credit(s.withdrawalCredit, a))
    && (forall a: nat :: Load(st, FeeSlot(cfg, a)) == Credit(s.feeCredit, a))
  }

  // ---- what it does, where it differs ----

  function AddWrapped(m: map<nat, nat>, who: nat, amount: nat): map<nat, nat> {
    m[who := (Credit(m, who) + amount) % WORD]
  }

  function Masked(w: ProbeWords): ProbeWords { w.(settleTarget := w.settleTarget % ADDRESS_SPACE) }

  /** `spendCheck` masks the probe's target instead of rejecting its high bits. */
  function YulSpendError(cfg: Config, sender: nat, sp: Spend, probe: Option<ProbeWords>): Option<Error> {
    if probe == None then SpendError(cfg, sender, sp, probe)
    else SpendError(cfg, sender, sp, Some(Masked(probe.value)))
  }

  /** `settle` never panics on a credit. */
  function YulSettleSpec(cfg: Config, s: PoolState, sp: Spend, payer: nat, blk: Block): Outcome {
    var leaves := WithOutputs(s.leaves, sp);
    var root := TreeRoot(cfg, leaves);
    if |leaves| > Capacity(cfg) then Reverted(TreeFull)
    else if !blk.predeployOk then Reverted(RootPublishFailed)
    else
      Done(s.(leaves := leaves,
              events := s.events + SettleEvents(s.leaves, sp, root, blk.slot),
              writes := s.writes + [RootWrite(blk.slot, root)],
              feeCredit := if sp.fee != 0 && payer != cfg.self then AddWrapped(s.feeCredit, payer, sp.fee)
                else s.feeCredit))
  }

  function YulTransferSpec(cfg: Config, s: PoolState, sender: nat, sp: Spend, probe: Option<ProbeWords>,
                           blk: Block): Outcome
  {
    if sp.publicAmount != 0 || sp.ctx != 0 then Reverted(TransferShape)
    else match YulSpendError(cfg, sender, sp, probe)
      case Some(e) => Reverted(e)
      case None => YulSettleSpec(cfg, s, sp, probe.value.payer, blk)
  }

  function YulWithdrawSpec(cfg: Config, s: PoolState, sender: nat, sp: Spend, recipient: nat,
                           probe: Option<ProbeWords>, blk: Block): Outcome
  {
    if recipient >= ADDRESS_SPACE then Reverted(BadCalldata)
    else if sp.publicAmount == 0 || sp.ctx == 0 then Reverted(WithdrawShape)
    else if sp.ctx != recipient then Reverted(CtxDoesNotNameRecipient)
    else match YulSpendError(cfg, sender, sp, probe)
      case Some(e) => Reverted(e)
      case None =>
        match YulSettleSpec(cfg, s, sp, probe.value.payer, blk)
        case Reverted(e) => Reverted(e)
        case Done(t) => Done(t.(withdrawalCredit := AddWrapped(t.withdrawalCredit, recipient, sp.publicAmount)))
  }

  // ---- the code ----

  /** Everything an EVM revert puts back. */
  datatype Account = Account(storage: map<Slot, nat>, events: seq<LeafAppended>, writes: seq<RootWrite>,
                             balance: nat, sent: map<nat, nat>)

  /** One level of `computeRoot`: the slot is the left sibling, or the right one is empty. */
  lemma RootStep(cfg: Config, st: map<Slot, nat>, leaves: seq<nat>, l: nat)
    requires TreeStands(cfg, st, leaves) && l < cfg.depth
    ensures var h, i := cfg.H.h2, Shr(|leaves|, l);
            Node(h, leaves, l + 1, i / 2) == if i % 2 == 0 then h(Node(h, leaves, l, i), Zeros(h, l))
                                             else h(Load(st, Fixed(l)), Node(h, leaves, l, i))
  {
    assert SlotOk(cfg.H.h2, Filled(cfg, st), leaves, l);
    TouchedBounds(|leaves|, l);
    StepUp(cfg.H.h2, leaves, l, Shr(|leaves|, l));
  }

  lemma FullRoot(cfg: Config, st: map<Slot, nat>, leaves: seq<nat>)
    requires TreeStands(cfg, st, leaves) && |leaves| == Pow2(cfg.depth)
    ensures Load(st, Fixed(cfg.depth)) == TreeRoot(cfg, leaves)
  {
    ShrFull(cfg.depth);
    assert SlotOk(cfg.H.h2, Filled(cfg, st), leaves, cfg.depth) && BitOf(|leaves|, cfg.depth) == 1;
  }

  ghost predicate SameCredits(cfg: Config, st: map<Slot, nat>, st': map<Slot, nat>) {
    && (forall a: nat :: Load(st', WithdrawalSlot(cfg, a)) == Load(st, WithdrawalSlot(cfg, a)))
    && (forall a: nat :: Load(st', FeeSlot(cfg, a)) == Load(st, FeeSlot(cfg, a)))
  }

  /** Nothing but tree slots changed. */
  ghost predicate SameElsewhere(cfg: Config, st: map<Slot, nat>, st': map<Slot, nat>) {
    Load(st', CurrentRoot(cfg)) == Load(st, CurrentRoot(cfg)) && SameCredits(cfg, st, st')
  }

  lemma EmptyStands(cfg: Config)
    ensures var st: map<Slot, nat> := map[CurrentRoot(cfg) := TreeRoot(cfg, [])];
            TreeStands(cfg, st, []) && CreditsStand(cfg, st, NO_LEAVES)
  {
    var st: map<Slot, nat> := map[CurrentRoot(cfg) := TreeRoot(cfg, [])];
    forall l: nat | l <= cfg.depth ensures SlotOk(cfg.H.h2, Filled(cfg, st), [], l) { ShrOfZero(l); }
  }

  class Pool {
    const cfg: Config
    var storage: map<Slot, nat>
    var events: seq<LeafAppended>
    var writes: seq<RootWrite>
    var balance: nat
    var sent: map<nat, nat>
    ghost var s: PoolState

    ghost predicate Valid()
      reads this
    {
      && TreeStands(cfg, storage, s.leaves) && CreditsStand(cfg, storage, s)
      && Load(storage, CurrentRoot(cfg)) == TreeRoot(cfg, s.leaves)
      && events == s.events && writes == s.writes && balance == s.balance && sent == s.sent
    }

    constructor (cfg: Config, slot: nat)
      ensures Valid() && this.cfg == cfg && s == Genesis(cfg, slot)
    {
      this.cfg := cfg;
      storage := map[CurrentRoot(cfg) := TreeRoot(cfg, [])];
      events, writes, balance, sent := [], [RootWrite(slot, TreeRoot(cfg, []))], 0, map[];
      s := Genesis(cfg, slot);
      new;
      EmptyStands(cfg);
    }

    /** The loop of `insert`, reading frontier slots. */
    method Climb(index: nat, cm: nat, ghost leaves: seq<nat>) returns (node: nat, l: nat)
      requires FrontierOk(cfg.H.h2, cfg.depth, Filled(cfg, storage), leaves) && index == |leaves| < Capacity(cfg)
      ensures l <= cfg.depth && BitOf(index, l) == 0 && forall j: nat | j < l :: BitOf(index, j) == 1
      ensures node == Node(cfg.H.h2, leaves + [cm], l, Shr(index, l))
    {
      var h := cfg.H.h2;
      var idx := index;
      node, l := cm, 0;
      ShrZero(index, cfg.depth);
      while idx % 2 == 1
        invariant idx == Shr(index, l) && l <= cfg.depth
        invariant forall j: nat | j < l :: BitOf(index, j) == 1
        invariant node == Node(h, leaves + [cm], l, idx)
        decreases idx
      {
        assert BitOf(index, l) == 1 && SlotOk(h, Filled(cfg, storage), leaves, l);
        StepUpAppended(h, Filled(cfg, storage), leaves, cm, l);
        node := h(Load(storage, Fixed(l)), node);
        idx := idx / 2;
        l := l + 1;
      }
    }

    method Insert(cm: nat, ghost leaves: seq<nat>) returns (index: nat, ok: bool)
      requires TreeStands(cfg, storage, leaves) && cm !in leaves
      modifies this`storage
      ensures index == |leaves| && (ok <==> |leaves| < Capacity(cfg))
      ensures !ok ==> storage == old(storage)
      ensures ok ==> TreeStands(cfg, storage, leaves + [cm])
      ensures ok ==> SameElsewhere(cfg, old(storage), storage)
    {
      index := Load(storage, NextIndex(cfg));
      ok := index < Pow2(cfg.depth);
      if !ok { return; }
      ghost var before := storage;
      storage := storage[NextIndex(cfg) := index + 1];
      storage := storage[LeafSlot(cfg, cm) := 1];
      assert Filled(cfg, storage) == Filled(cfg, before);
      var node, l := Climb(index, cm, leaves);
      storage := storage[Fixed(l) := node];
      FrontierStep(cfg.H.h2, cfg.depth, Filled(cfg, before), leaves, cm, l, node);
      assert Filled(cfg, storage) == Filled(cfg, before)[l := node];
    }

    method ComputeRoot(ghost leaves: seq<nat>) returns (node: nat)
      requires TreeStands(cfg, storage, leaves)
      ensures node == TreeRoot(cfg, leaves)
    {
      var h, idx := cfg.H.h2, Load(storage, NextIndex(cfg));
      if idx == Pow2(cfg.depth) {
        FullRoot(cfg, storage, leaves);
        return Load(storage, Fixed(cfg.depth));
      }
      node := 0;
      var l := 0;
      while l < cfg.depth
        invariant l <= cfg.depth && idx == Shr(|leaves|, l) && node == Node(h, leaves, l, idx)
      {
        RootStep(cfg, storage, leaves, l);
        node := if idx % 2 == 0 then h(node, Zeros(h, l)) else h(Load(storage, Fixed(l)), node);
        idx := idx / 2;
        l := l + 1;
      }
      ShrZero(|leaves|, cfg.depth);
    }

    function Snapshot(): Account
      reads this
    {
      Account(storage, events, writes, balance, sent)
    }

    /** What the EVM does on a revert. */
    method Restore(saved: Account, ghost was: PoolState)
      modifies this
      ensures Snapshot() == saved && s == was
    {
      storage, events, writes, balance, sent := saved.storage, saved.events, saved.writes, saved.balance, saved.sent;
      s := was;
    }

    method ValidateSpend(sp: Spend) returns (err: Option<Error>)
      ensures err == ValidateError(cfg, sp)
      ensures err == None <==> WellFormed(cfg, sp)
    {
      if sp.domain != cfg.domain { return Some(InvalidDomain); }
      if !(sp.root < cfg.p) { return Some(NotCanonical); }
      if !(sp.nf1 < cfg.p) { return Some(NotCanonical); }
      if !(sp.nf2 < cfg.p) { return Some(NotCanonical); }
      if !(sp.outCm1 < cfg.p) { return Some(NotCanonical); }
      if !(sp.outCm2 < cfg.p) { return Some(NotCanonical); }
      if !(sp.domain < cfg.p) { return Some(NotCanonical); }
      if !(sp.ctx < cfg.p) { return Some(NotCanonical); }
      if !(sp.publicAmount < MAX_VALUE) { return Some(ValueTooLarge); }
      if !(sp.fee < MAX_VALUE) { return Some(ValueTooLarge); }
      err := None;
    }

    method SpendCheck(sender: nat, sp: Spend, probe: Option<ProbeWords>) returns (err: Option<Error>, payer: nat)
      ensures err == YulSpendError(cfg, sender, sp, probe)
      ensures err == None <==>
                && sender == cfg.self && cfg.self < ADDRESS_SPACE && sp.nf1 != 0 && sp.nf2 != 0
                && probe.Some? && Envelops(cfg, sp, Masked(probe.value)) && WellFormed(cfg, sp)
      ensures err == None ==> probe.Some? && payer == probe.value.payer
    {
      if probe.Some? { SpendChecked(cfg, sender, sp, Some(Masked(probe.value))); }
      payer := 0;
      if sender != cfg.self { return Some(NotPoolSender), 0; }
      if sp.nf1 == 0 { return Some(ZeroNullifier), 0; }
      if sp.nf2 == 0 { return Some(ZeroNullifier), 0; }
      if probe == None { return Some(NotFrameNative), 0; }
      var w := probe.value;
      var settleTarget := w.settleTarget % ADDRESS_SPACE;
      var selfPayShape := w.frames == 2 && w.frameIndex == 1;
      var paymasterShape := w.frames == 3 && w.frameIndex == 2;
      if !(selfPayShape || paymasterShape) || settleTarget != cfg.self { return Some(NotFaithfulShape), 0; }
      var lo, hi := sp.nf1, sp.nf2;
      if lo > hi { lo, hi := sp.nf2, sp.nf1; }
      if w.keyCount != 2 || w.nonceSeq != 0 || w.k0 != lo || w.k1 != hi { return Some(KeySetMismatch), 0; }
      if w.refCount != 1 || w.refSource != cfg.sourceId || w.refRoot != sp.root {
        return Some(RootNotBoundToReference), 0;
      }
      if w.payer == 0 || w.payer / ADDRESS_SPACE != 0 { return Some(InvalidPayer), 0; }
      payer := w.payer;
      err := ValidateSpend(sp);
    }

    /** Both outputs, each unless it is a leaf already; a full tree reverts. */
    method InsertOutputs(sp: Spend) returns (new1: bool, i1: nat, new2: bool, i2: nat, ok: bool)
      requires TreeStands(cfg, storage, s.leaves)
      modifies this`storage
      ensures ok <==> |WithOutputs(s.leaves, sp)| <= Capacity(cfg)
      ensures ok ==> TreeStands(cfg, storage, WithOutputs(s.leaves, sp)) && SameElsewhere(cfg, old(storage), storage)
      ensures new1 <==> sp.outCm1 !in s.leaves
      ensures ok ==> (new2 <==> sp.outCm2 !in WithOutput(s.leaves, sp.outCm1))
      ensures ok && new1 ==> i1 == |s.leaves|
      ensures ok && new2 ==> i2 == |WithOutput(s.leaves, sp.outCm1)|
    {
      i1, i2, new2, ok := 0, 0, false, true;
      new1 := Load(storage, LeafSlot(cfg, sp.outCm1)) == 0;
      if new1 {
        i1, ok := Insert(sp.outCm1, s.leaves);
        if !ok { return; }
      }
      ghost var mid := WithOutput(s.leaves, sp.outCm1);
      assert TreeStands(cfg, storage, mid);
      new2 := Load(storage, LeafSlot(cfg, sp.outCm2)) == 0;
      if new2 { i2, ok := Insert(sp.outCm2, mid); }
    }

    /** `sstore(22, newRoot)` over tree slots that stand for `leaves`. */
    method PutRoot(root: nat, ghost leaves: seq<nat>)
      requires TreeStands(cfg, storage, leaves)
      modifies this`storage
      ensures TreeStands(cfg, storage, leaves) && Load(storage, CurrentRoot(cfg)) == root
      ensures SameCredits(cfg, old(storage), storage)
    {
      storage := storage[CurrentRoot(cfg) := root];
      assert Filled(cfg, storage) == Filled(cfg, old(storage));
    }

    /** The middle of `settle`: recompute and store the root once if a leaf is new, and log
        the new leaves under it. */
    method RecordOutputs(sp: Spend, new1: bool, i1: nat, new2: bool, i2: nat, slot: nat, ghost leaves: seq<nat>)
      returns (root: nat)
      requires TreeStands(cfg, storage, leaves)
      requires !new1 && !new2 ==> Load(storage, CurrentRoot(cfg)) == TreeRoot(cfg, leaves)
      modifies this`storage, this`events
      ensures root == TreeRoot(cfg, leaves) == Load(storage, CurrentRoot(cfg))
      ensures TreeStands(cfg, storage, leaves) && SameCredits(cfg, old(storage), storage)
      ensures events == old(events) + (if new1 then [LeafAppended(sp.outCm1, i1, root, slot)] else [])
                                    + (if new2 then [LeafAppended(sp.outCm2, i2, root, slot)] else [])
    {
      root := Load(storage, CurrentRoot(cfg));
      if new1 || new2 {
        root := ComputeRoot(leaves);
        PutRoot(root, leaves);
        if new1 { events := events + [LeafAppended(sp.outCm1, i1, root, slot)]; }
        if new2 { events := events + [LeafAppended(sp.outCm2, i2, root, slot)]; }
      }
    }

    /** `sstore(s, add(sload(s), amount))` on a credit slot. */
    method AddSlot(k: Slot, amount: nat)
      requires TreeStands(cfg, storage, s.leaves) && k.MapSlot? && k.base != cfg.depth + 3
      modifies this`storage
      ensures TreeStands(cfg, storage, s.leaves)
      ensures Load(storage, CurrentRoot(cfg)) == Load(old(storage), CurrentRoot(cfg))
      ensures storage == old(storage)[k := (Load(old(storage), k) + amount) % WORD]
    {
      storage := storage[k := (Load(storage, k) + amount) % WORD];
      assert Filled(cfg, storage) == Filled(cfg, old(storage));
    }

    method CreditFee(fee: nat, payer: nat)
      requires Valid()
      modifies this
      ensures Valid()
      ensures s == old(s).(feeCredit := if fee != 0 && payer != cfg.self then AddWrapped(old(s).feeCredit, payer, fee)
                                        else old(s).feeCredit)
    {
      if payer != cfg.self && fee != 0 {
        var k := FeeSlot(cfg, payer);
        AddSlot(k, fee);
        s := s.(feeCredit := AddWrapped(s.feeCredit, payer, fee));
      }
    }

    method Settle(sp: Spend, payer: nat, blk: Block) returns (err: Option<Error>)
      requires Valid()
      modifies this
      ensures err == None ==> Valid() && YulSettleSpec(cfg, old(s), sp, payer, blk) == Done(s)
      ensures err != None ==> s == old(s) && YulSettleSpec(cfg, s, sp, payer, blk) == Reverted(err.value)
    {
      ghost var leaves := WithOutputs(s.leaves, sp);
      var new1, i1, new2, i2, ok := InsertOutputs(sp);
      if !ok { return Some(TreeFull); }
      var root := RecordOutputs(sp, new1, i1, new2, i2, blk.slot, leaves);
      assert events == s.events + SettleEvents(s.leaves, sp, root, blk.slot);
      if !blk.predeployOk { return Some(RootPublishFailed); }
      writes := writes + [RootWrite(blk.slot, root)];
      s := s.(leaves := leaves, events := events, writes := writes);
      CreditFee(sp.fee, payer);
      err := None;
    }

    /** Success takes the specification's state, a revert leaves everything as it was. */
    twostate predicate Matches(new err: Option<Error>, new spec: Outcome)
      reads this
    {
      match err
      case None => spec == Done(s)
      case Some(e) => spec == Reverted(e) && s == old(s) && Snapshot() == old(Snapshot())
    }

    method Transfer(sender: nat, sp: Spend, probe: Option<ProbeWords>, blk: Block) returns (err: Option<Error>)
      requires Valid()
      modifies this
      ensures Valid()
      ensures Matches(err, YulTransferSpec(cfg, old(s), sender, sp, probe, blk))
    {
      var saved := Snapshot();
      ghost var was := s;
      if sp.publicAmount != 0 || sp.ctx != 0 { return Some(TransferShape); }
      var payer;
      err, payer := SpendCheck(sender, sp, probe);
      if err != None { return; }
      err := Settle(sp, payer, blk);
      if err != None { Restore(saved, was); }
    }

    method CreditWithdrawal(recipient: nat, amount: nat)
      requires Valid()
      modifies this
      ensures Valid() && s == old(s).(withdrawalCredit := AddWrapped(old(s).withdrawalCredit, recipient, amount))
    {
      AddSlot(WithdrawalSlot(cfg, recipient), amount);
      s := s.(withdrawalCredit := AddWrapped(s.withdrawalCredit, recipient, amount));
    }

    method Withdraw(sender: nat, sp: Spend, recipient: nat, probe: Option<ProbeWords>, blk: Block)
      returns (err: Option<Error>)
      requires Valid()
      modifies this
      ensures Valid()
      ensures Matches(err, YulWithdrawSpec(cfg, old(s), sender, sp, recipient, probe, blk))
    {
      var saved := Snapshot();
      ghost var was := s;
      if recipient / ADDRESS_SPACE != 0 { return Some(BadCalldata); }
      if sp.publicAmount == 0 || sp.ctx == 0 { return Some(WithdrawShape); }
      if sp.ctx != recipient % ADDRESS_SPACE { return Some(CtxDoesNotNameRecipient); }
      var payer;
      err, payer := SpendCheck(sender, sp, probe);
      if err != None { return; }
      err := Settle(sp, payer, blk);
      if err != None { Restore(saved, was); return; }
      CreditWithdrawal(recipient, sp.publicAmount);
    }

    method Shield(value: nat, inner: nat, blk: Block) returns (err: Option<Error>, index: nat)
      requires Valid()
      modifies this
      ensures Valid()
      ensures Matches(err, ShieldSpec(cfg, old(s), value, inner, blk))
      ensures err == None ==> index == old(|s.leaves|)
    {
      var saved := Snapshot();
      ghost var was := s;
      index := 0;
      if value == 0 { return Some(ZeroValueShield), 0; }
      if !(value < MAX_VALUE) { return Some(ValueTooLarge), 0; }
      if !(inner < cfg.p) { return Some(NotCanonical), 0; }
      var cm := cfg.H.h3(2, inner, value);
      if Load(storage, LeafSlot(cfg, cm)) != 0 { return Some(DuplicateCommitment), 0; }
      var ok;
      index, ok := Insert(cm, s.leaves);
      if !ok { return Some(TreeFull), 0; }
      var root := ComputeRoot(s.leaves + [cm]);
      PutRoot(root, s.leaves + [cm]);
      events := events + [LeafAppended(cm, index, root, blk.slot)];
      if !blk.predeployOk { Restore(saved, was); return Some(RootPublishFailed), 0; }
      writes, balance := writes + [RootWrite(blk.slot, root)], balance + value;
      s := s.(leaves := s.leaves + [cm], balance := s.balance + value, events := events, writes := writes);
      err := None;
    }

    /** `sstore(s, 0)` on a credit slot. */
    method ZeroSlot(k: Slot)
      requires TreeStands(cfg, storage, s.leaves) && k.MapSlot? && k.base != cfg.depth + 3
      modifies this`storage
      ensures TreeStands(cfg, storage, s.leaves)
      ensures Load(storage, CurrentRoot(cfg)) == Load(old(storage), CurrentRoot(cfg))
      ensures storage == old(storage)[k := 0]
    {
      storage := storage[k := 0];
      assert Filled(cfg, storage) == Filled(cfg, old(storage));
    }

    /** Read a credit slot, zero it, pay, and undo everything if the payment fails. */
    method ClaimWithdrawal(who: nat, reentry: seq<Call>, accepts: bool, blk: Block) returns (err: Option<Error>)
      requires Valid()
      modifies this
      ensures Valid()
      ensures Matches(err, CallSpec(cfg, old(s), ClaimWithdrawalCall(who, reentry, accepts), blk))
      decreases ClaimWithdrawalCall(who, reentry, accepts), 0
    {
      var saved := Snapshot();
      ghost var was := s;
      var amount := Load(storage, WithdrawalSlot(cfg, who));
      if amount == 0 { return Some(NoCredit); }
      ZeroSlot(WithdrawalSlot(cfg, who));
      s := s.(withdrawalCredit := s.withdrawalCredit[who := 0]);
      var ok := CallWithValue(who, amount, reentry, accepts, blk);
      if !ok { Restore(saved, was); return Some(PayoutFailed); }
      err := None;
    }

    method ClaimFee(who: nat, reentry: seq<Call>, accepts: bool, blk: Block) returns (err: Option<Error>)
      requires Valid()
      modifies this
      ensures Valid()
      ensures Matches(err, CallSpec(cfg, old(s), ClaimFeeCall(who, reentry, accepts), blk))
      decreases ClaimFeeCall(who, reentry, accepts), 0
    {
      var saved := Snapshot();
      ghost var was := s;
      var amount := Load(storage, FeeSlot(cfg, who));
      if amount == 0 { return Some(NoCredit); }
      ZeroSlot(FeeSlot(cfg, who));
      s := s.(feeCredit := s.feeCredit[who := 0]);
      var ok := CallWithValue(who, amount, reentry, accepts, blk);
      if !ok { Restore(saved, was); return Some(PayoutFailed); }
      err := None;
    }

    method CallWithValue(who: nat, amount: nat, reentry: seq<Call>, accepts: bool, blk: Block) returns (ok: bool)
      requires Valid()
      modifies this
      ensures Valid()
      ensures ok <==> amount <= old(balance) && who != cfg.self && accepts
      ensures ok ==>
                var paid := old(s).(balance := old(balance) - amount, sent := AddCredit(old(sent), who, amount));
                s == CallsSpec(cfg, paid, reentry, blk)
      decreases reentry, 3
    {
      if amount > balance || who == cfg.self { return false; }
      balance, sent := balance - amount, AddCredit(sent, who, amount);
      s := s.(balance := balance, sent := sent);
      Reenter(reentry, blk);
      ok := accepts;
    }

    method Reenter(calls: seq<Call>, blk: Block)
      requires Valid()
      modifies this
      ensures Valid() && s == CallsSpec(cfg, old(s), calls, blk)
      decreases calls, 2
    {
      if calls != [] {
        var err := Dispatch(calls[0], blk);
        Reenter(calls[1..], blk);
      }
    }

    /** Any call from outside: the same specification as the Solidity contract's. */
    method Dispatch(call: Call, blk: Block) returns (err: Option<Error>)
      requires Valid()
      modifies this
      ensures Valid()
      ensures Matches(err, CallSpec(cfg, old(s), call, blk))
      decreases call, 1
    {
      match call
      case ShieldCall(value, inner) =>
        if balance + value >= WORD { return Some(Panic); }
        var index;
        err, index := Shield(value, inner, blk);
      case ClaimWithdrawalCall(who, reentry, accepts) =>
        err := ClaimWithdrawal(who, reentry, accepts, blk);
      case ClaimFeeCall(who, reentry, accepts) =>
        err := ClaimFee(who, reentry, accepts, blk);
      case SpendCall(caller, sp, recipient, probe) =>
        if caller == cfg.self { return Some(NotPoolSender); }
        match recipient {
          case None => err := Transfer(caller, sp, probe, blk);
          case Some(r) => err := Withdraw(caller, sp, r, probe, blk);
        }
      case ReadCall(error) => err := error;
    }
  }

  /** Deployment: the constructor reverts, leaving no contract, if the empty root cannot be
      published. */
  method Deploy(cfg: Config, blk: Block) returns (deployed: Option<Pool>)
    ensures deployed.Some? <==> blk.predeployOk
    ensures deployed.Some? ==>
              var pool := deployed.value;
              fresh(pool) && pool.Valid() && pool.cfg == cfg && pool.s == Genesis(cfg, blk.slot)
  {
    if !blk.predeployOk { return None; }
    var pool := new Pool(cfg, blk.slot);
    deployed := Some(pool);
  }

  // ---- frame 0 ----

  function SpendFromWords(ws: seq<nat>): Spend
    requires |ws| == 17
  {
    Spend(ws[0], ws[1], ws[2], ws[3], ws[4], ws[5], ws[6], ws[7], ws[8], ws[9..17])
  }

  /** `verifyProofOnly`, called by the pool on itself. */
  method VerifyProofOnly(sys: System, words: seq<nat>) returns (ok: bool)
    requires |words| == 17
    ensures ok <==> ProofError(sys, SpendFromWords(words)) == None
  {
    var sp := SpendFromWords(words);
    if sp.nf1 == 0 { return false; }
    if sp.nf2 == 0 { return false; }
    if sp.domain != sys.cfg.domain { return false; }
    var p := sys.cfg.p;
    if !(sp.root < p && sp.nf1 < p && sp.nf2 < p && sp.outCm1 < p && sp.outCm2 < p && sp.domain < p && sp.ctx < p) {
      return false;
    }
    if !(sp.publicAmount < MAX_VALUE && sp.fee < MAX_VALUE) { return false; }
    ok := sys.verify(sp.proof, PublicOf(sp));
  }

  /** The loop that copies the settle frame's tuple into the self-call. */
  method CopyTuple(tx: Tx, settle: nat) returns (words: seq<nat>)
    requires settle < |tx.frames|
    ensures |words| == 17 && SpendFromWords(words) == SpendOf(tx.frames[settle].data)
  {
    words := [];
    var off := 4;
    while off < 548
      invariant off == 4 + 32 * |words| && |words| <= 17
      invariant forall k: nat | k < |words| :: words[k] == FrameDataLoad(tx, settle, 4 + 32 * k)
      decreases 548 - off
    {
      words := words + [FrameDataLoad(tx, settle, off)];
      off := off + 32;
    }
    ghost var proof := SpendOf(tx.frames[settle].data).proof;
    forall i: nat | i < 8 ensures words[9..17][i] == proof[i] {
      assert words[9 + i] == FrameDataLoad(tx, settle, 4 + 32 * (9 + i));
    }
    assert words[9..17] == proof;
    assert words[0] == FrameDataLoad(tx, settle, 4 + 32 * 0) && words[1] == FrameDataLoad(tx, settle, 4 + 32 * 1);
  }

  /** The monolith's frame-0 cascade: the envelope checks of the dispatcher, then the proof
      by a call to itself, so that every proof failure reads `ProofInvalid`.  It approves
      exactly the envelopes the dispatcher approves. */
  method VerifyFrameApprove(sys: System, tx: Tx, current: nat) returns (v: Verdict)
    ensures v.Approve? <==> Approvable(sys, tx, current)
    ensures v.Approve? ==> v.scope == if |tx.frames| == 2 then 3 else 2
    ensures EnvelopeOk(sys, tx, current) && v.Fail? ==>
              v.error == if ProofError(sys, TxSpend(tx)) == None then FeeBelowMaxCost else ProofInvalid
    ensures !EnvelopeOk(sys, tx, current) ==>
              v.Fail? && FirstFailing(ApproveChecks(sys, tx, current)) == Some(v.error)
  {
    HeadFirst(sys, tx, current);
    HeadDecides(sys, tx, current);
    var self := sys.cfg.self;
    if TxParam(tx, current, 0, 0x02) != self { return Fail(NotFaithfulShape); }
    var frames := TxParam(tx, current, 0, 0x09);
    var settleIndex, selfPay := 0, false;
    if frames == 2 { settleIndex, selfPay := 1, true; }
    else if frames == 3 { settleIndex := 2; }
    else { return Fail(NotFaithfulShape); }
    if TxParam(tx, current, 0, 0x0A) != 0 { return Fail(KeySetMismatch); }
    if TxParam(tx, current, 0, 0x0B) != 1 { return Fail(RootNotBoundToReference); }
    if TxParam(tx, current, 0, 0x07) != 0 { return Fail(NotFaithfulShape); }
    if TxParam(tx, current, 0, 0x0D) != 2 { return Fail(KeySetMismatch); }
    if TxParam(tx, current, 0, 0x01) != 0 { return Fail(NotFaithfulShape); }
    if TxParam(tx, current, 0, 0x0F) != 1 { return Fail(NotFaithfulShape); }
    ApproveFirst(sys, tx, current);
    var err := CheckFrames(self, tx, selfPay, settleIndex);
    if err != None { return Fail(err.value); }
    var nf1, nf2 := FrameDataLoad(tx, settleIndex, 68), FrameDataLoad(tx, settleIndex, 100);
    var lo, hi := nf1, nf2;
    if lo > hi { lo, hi := nf2, nf1; }
    if tx.nonceKeys[0] != lo { return Fail(KeySetMismatch); }
    if tx.nonceKeys[1] != hi { return Fail(KeySetMismatch); }
    if RecentRootRef(tx, 0, 0) != sys.cfg.sourceId { return Fail(RootNotBoundToReference); }
    if RecentRootRef(tx, 2, 0) != FrameDataLoad(tx, settleIndex, 4) { return Fail(RootNotBoundToReference); }
    var words := CopyTuple(tx, settleIndex);
    var ok := VerifyProofOnly(sys, words);
    if !ok { return Fail(ProofInvalid); }
    if selfPay {
      if FrameDataLoad(tx, settleIndex, 228) < TxParam(tx, current, 0, 0x06) { return Fail(FeeBelowMaxCost); }
      v := Approve(3);
    } else {
      v := Approve(2);
    }
  }
}
