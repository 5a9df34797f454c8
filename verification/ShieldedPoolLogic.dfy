/** The settlement contract (`contracts/src/ShieldedPoolLogic.sol`) with its storage
    fields, loops and reverts, proved against `PoolSpec`. */
module ShieldedPoolLogic {
  import opened Wrappers
  import opened Merkle
  import opened Powers
  import opened PoolSpec

  /** Everything an EVM revert puts back. */
  datatype Storage = Storage(filledSubtrees: map<nat, nat>, nextIndex: nat, currentRoot: nat, isLeaf: set<nat>,
                             withdrawalCredit: map<nat, nat>, feeCredit: map<nat, nat>,
                             events: seq<LeafAppended>, writes: seq<RootWrite>,
                             balance: nat, sent: map<nat, nat>)

  /** The carry chain of an insert: hash up while the index bit is one.  Every slot it
      reads was written, and it stops no later than the top level. */
  method Climb(h: Hash2, depth: nat, filled: map<nat, nat>, index: nat, cm: nat, ghost leaves: seq<nat>)
      returns (node: nat, l: nat)
    requires FrontierOk(h, depth, filled, leaves) && index == |leaves| < Pow2(depth)
    ensures l <= depth && BitOf(index, l) == 0
    ensures forall j: nat | j < l :: BitOf(index, j) == 1
    ensures node == Node(h, leaves + [cm], l, Shr(index, l))
  {
    var idx := index;
    node, l := cm, 0;
    ShrZero(index, depth);
    while idx % 2 == 1
      invariant idx == Shr(index, l) && l <= depth
      invariant forall j: nat | j < l :: BitOf(index, j) == 1
      invariant node == Node(h, leaves + [cm], l, idx)
      decreases idx
    {
      assert BitOf(index, l) == 1 && SlotOk(h, filled, leaves, l);
      StepUpAppended(h, filled, leaves, cm, l);
      node := h(filled[l], node);
      idx := idx / 2;
      l := l + 1;
    }
  }

  lemma EmptyFrontier(h: Hash2, d: nat)
    ensures FrontierOk(h, d, map[], [])
  {
    forall l: nat | l <= d ensures SlotOk(h, map[], [], l) { ShrOfZero(l); }
  }

  class Pool {
    const cfg: Config
    var filledSubtrees: map<nat, nat>
    var nextIndex: nat
    var currentRoot: nat
    var isLeaf: set<nat>
    var withdrawalCredit: map<nat, nat>
    var feeCredit: map<nat, nat>
    var events: seq<LeafAppended>
    var writes: seq<RootWrite>
    var balance: nat
    var sent: map<nat, nat>
    ghost var leaves: seq<nat>

    /** The frontier, the index and the leaf set all describe the same leaf list. */
    ghost predicate TreeOk()
      reads this
    {
      && FrontierOk(cfg.H.h2, cfg.depth, filledSubtrees, leaves)
      && nextIndex == |leaves| <= Capacity(cfg)
      && (forall x :: x in isLeaf <==> x in leaves)
      && Distinct(leaves)
    }

    ghost predicate Valid()
      reads this
    {
      TreeOk() && currentRoot == TreeRoot(cfg, leaves)
    }

    ghost function Abs(): PoolState
      reads this
    {
      PoolState(leaves, withdrawalCredit, feeCredit, events, writes, balance, sent)
    }

    constructor (cfg: Config, slot: nat)
      ensures Valid() && this.cfg == cfg && Abs() == Genesis(cfg, slot)
    {
      this.cfg := cfg;
      filledSubtrees, nextIndex, isLeaf, leaves := map[], 0, {}, [];
      withdrawalCredit, feeCredit, events, balance, sent := map[], map[], [], 0, map[];
      currentRoot := TreeRoot(cfg, []);
      writes := [RootWrite(slot, TreeRoot(cfg, []))];
      new;
      EmptyFrontier(cfg.H.h2, cfg.depth);
    }

    function Snapshot(): Storage
      reads this
    {
      Storage(filledSubtrees, nextIndex, currentRoot, isLeaf, withdrawalCredit, feeCredit, events, writes,
              balance, sent)
    }

    /** What the EVM does on a revert. */
    method Restore(saved: Storage, ghost oldLeaves: seq<nat>)
      modifies this
      ensures Snapshot() == saved && leaves == oldLeaves
    {
      filledSubtrees, nextIndex, currentRoot := saved.filledSubtrees, saved.nextIndex, saved.currentRoot;
      isLeaf, withdrawalCredit, feeCredit := saved.isLeaf, saved.withdrawalCredit, saved.feeCredit;
      events, writes, balance, sent := saved.events, saved.writes, saved.balance, saved.sent;
      leaves := oldLeaves;
    }

    /** Frontier insert: absorb filled left siblings while the index bit is one, then
        record the completed subtree once. */
    method Insert(cm: nat) returns (index: nat, ok: bool)
      requires TreeOk() && cm !in isLeaf
      modifies this`filledSubtrees, this`nextIndex, this`isLeaf, this`leaves
      ensures TreeOk() && index == old(nextIndex)
      ensures ok <==> old(nextIndex) < Capacity(cfg)
      ensures leaves == if ok then old(leaves) + [cm] else old(leaves)
      ensures !ok ==> Snapshot() == old(Snapshot())
    {
      index := nextIndex;
      ok := index < Pow2(cfg.depth);
      if ok {
        var node, l := Climb(cfg.H.h2, cfg.depth, filledSubtrees, index, cm, leaves);
        FrontierStep(cfg.H.h2, cfg.depth, filledSubtrees, leaves, cm, l, node);
        nextIndex := index + 1;
        isLeaf := isLeaf + {cm};
        filledSubtrees := filledSubtrees[l := node];
        leaves := leaves + [cm];
      }
    }

    /** The root of the tree whose next free position is all zero, read off the
        frontier; a full tree has no free position. */
    method ComputeRoot() returns (node: nat)
      requires TreeOk()
      ensures node == TreeRoot(cfg, leaves)
    {
      var h, idx := cfg.H.h2, nextIndex;
      if idx == Pow2(cfg.depth) {
        ShrFull(cfg.depth);
        assert SlotOk(h, filledSubtrees, leaves, cfg.depth) && BitOf(|leaves|, cfg.depth) == 1;
        return filledSubtrees[cfg.depth];
      }
      node := 0;
      for l := 0 to cfg.depth
        invariant idx == Shr(nextIndex, l) && node == Node(h, leaves, l, idx)
      {
        assert SlotOk(h, filledSubtrees, leaves, l);
        TouchedBounds(|leaves|, l);
        StepUp(h, leaves, l, idx);
        node := if idx % 2 == 0 then h(node, Zeros(h, l)) else h(filledSubtrees[l], node);
        idx := idx / 2;
      }
      ShrZero(nextIndex, cfg.depth);
    }

    method PublishRoot(blk: Block) returns (ok: bool)
      modifies this`writes
      ensures ok == blk.predeployOk
      ensures writes == if ok then old(writes) + [RootWrite(blk.slot, currentRoot)] else old(writes)
    {
      ok := blk.predeployOk;
      if ok { writes := writes + [RootWrite(blk.slot, currentRoot)]; }
    }

    /** The whole effect of an entry point: its specification's state on success, the
        storage untouched and the specification's error on a revert. */
    twostate predicate Matches(new err: Option<Error>, new spec: Outcome)
      reads this
    {
      match err
      case None => spec == Done(Abs())
      case Some(e) => spec == Reverted(e) && Snapshot() == old(Snapshot()) && leaves == old(leaves)
    }

    /** The body of `shield`, run with the deposit already in the balance. */
    method Deposit(value: nat, inner: nat, blk: Block) returns (err: Option<Error>, index: nat)
      requires Valid() && balance >= value
      modifies this
      ensures var spec := ShieldSpec(cfg, old(Abs()).(balance := old(balance) - value), value, inner, blk);
              match err case None => Valid() && spec == Done(Abs()) case Some(e) => spec == Reverted(e)
      ensures err == None ==> index == old(nextIndex)
    {
      index := 0;
      if value == 0 { return Some(ZeroValueShield), 0; }
      if value >= MAX_VALUE { return Some(ValueTooLarge), 0; }
      if inner >= cfg.p { return Some(NotCanonical), 0; }
      var cm := cfg.H.h3(2, inner, value);
      if cm in isLeaf { return Some(DuplicateCommitment), 0; }
      var ok;
      index, ok := Insert(cm);
      if !ok { return Some(TreeFull), 0; }
      currentRoot := ComputeRoot();
      events := events + [LeafAppended(cm, index, currentRoot, blk.slot)];
      ok := PublishRoot(blk);
      if !ok { return Some(RootPublishFailed), 0; }
      err := None;
    }

    method Shield(value: nat, inner: nat, blk: Block) returns (err: Option<Error>, index: nat)
      requires Valid()
      modifies this
      ensures Valid()
      ensures Matches(err, ShieldSpec(cfg, old(Abs()), value, inner, blk))
      ensures err == None ==> index == old(nextIndex)
    {
      var saved := Snapshot();
      ghost var was := leaves;
      balance := balance + value;
      err, index := Deposit(value, inner, blk);
      if err != None { Restore(saved, was); }
    }

    method ValidateSpend(s: Spend) returns (err: Option<Error>)
      ensures err == ValidateError(cfg, s)
      ensures err == None <==> WellFormed(cfg, s)
    {
      if s.domain != cfg.domain { return Some(InvalidDomain); }
      if s.root >= cfg.p || s.nf1 >= cfg.p || s.nf2 >= cfg.p || s.outCm1 >= cfg.p || s.outCm2 >= cfg.p
         || s.domain >= cfg.p || s.ctx >= cfg.p {
        return Some(NotCanonical);
      }
      if s.publicAmount >= MAX_VALUE || s.fee >= MAX_VALUE { return Some(ValueTooLarge); }
      err := None;
    }

    method CheckSpend(sender: nat, s: Spend, probe: Option<ProbeWords>) returns (err: Option<Error>, payer: nat)
      ensures err == SpendError(cfg, sender, s, probe)
      ensures err == None <==>
                && sender == cfg.self && cfg.self < ADDRESS_SPACE && s.nf1 != 0 && s.nf2 != 0
                && probe.Some? && Envelops(cfg, s, probe.value) && WellFormed(cfg, s)
      ensures err == None ==> payer == probe.value.payer
    {
      SpendChecked(cfg, sender, s, probe);
      payer := 0;
      if sender != cfg.self { return Some(NotPoolSender), 0; }
      if s.nf1 == 0 || s.nf2 == 0 { return Some(ZeroNullifier), 0; }
      if probe == None { return Some(NotFrameNative), 0; }
      var w := probe.value;
      if w.settleTarget >= ADDRESS_SPACE { return Some(BadCalldata), 0; }
      var selfPayShape := w.frames == 2 && w.frameIndex == 1;
      var paymasterShape := w.frames == 3 && w.frameIndex == 2;
      if (!selfPayShape && !paymasterShape) || w.settleTarget != cfg.self { return Some(NotFaithfulShape), 0; }
      var lo, hi := s.nf1, s.nf2;
      if lo > hi { lo, hi := s.nf2, s.nf1; }
      if w.keyCount != 2 || w.nonceSeq != 0 || w.k0 != lo || w.k1 != hi { return Some(KeySetMismatch), 0; }
      if w.refCount != 1 || w.refSource != cfg.sourceId || w.refRoot != s.root {
        return Some(RootNotBoundToReference), 0;
      }
      if w.payer == 0 || w.payer >= ADDRESS_SPACE { return Some(InvalidPayer), 0; }
      payer := w.payer;
      err := ValidateSpend(s);
    }

    /** Insert the outputs that are not leaves yet. */
    method InsertOutputs(s: Spend) returns (new1: bool, i1: nat, new2: bool, i2: nat, ok: bool)
      requires TreeOk()
      modifies this`filledSubtrees, this`nextIndex, this`isLeaf, this`leaves
      ensures ok <==> |WithOutputs(old(leaves), s)| <= Capacity(cfg)
      ensures ok ==> TreeOk() && leaves == WithOutputs(old(leaves), s)
      ensures new1 <==> s.outCm1 !in old(leaves)
      ensures ok ==> (new2 <==> s.outCm2 !in WithOutput(old(leaves), s.outCm1))
      ensures ok && new1 ==> i1 == old(|leaves|)
      ensures ok && new2 ==> i2 == |WithOutput(old(leaves), s.outCm1)|
    {
      i1, i2, new2, ok := 0, 0, false, true;
      new1 := s.outCm1 !in isLeaf;
      if new1 {
        i1, ok := Insert(s.outCm1);
        if !ok { return; }
      }
      assert leaves == WithOutput(old(leaves), s.outCm1);
      new2 := s.outCm2 !in isLeaf;
      if new2 {
        i2, ok := Insert(s.outCm2);
      }
    }

    /** Recompute the root once if a leaf is new, and log the new leaves under it. */
    method RecordOutputs(s: Spend, new1: bool, i1: nat, new2: bool, i2: nat, slot: nat)
      requires TreeOk() && (!new1 && !new2 ==> currentRoot == TreeRoot(cfg, leaves))
      modifies this`currentRoot, this`events
      ensures currentRoot == TreeRoot(cfg, leaves)
      ensures events == old(events) + (if new1 then [LeafAppended(s.outCm1, i1, currentRoot, slot)] else [])
                                    + (if new2 then [LeafAppended(s.outCm2, i2, currentRoot, slot)] else [])
    {
      if new1 || new2 {
        currentRoot := ComputeRoot();
        if new1 { events := events + [LeafAppended(s.outCm1, i1, currentRoot, slot)]; }
        if new2 { events := events + [LeafAppended(s.outCm2, i2, currentRoot, slot)]; }
      }
    }

    /** The fee becomes a pull credit, unless the pool paid for itself. */
    method PayFee(fee: nat, payer: nat) returns (err: Option<Error>)
      modifies this`feeCredit
      ensures var paid := fee != 0 && payer != cfg.self;
              && (err == if paid && Credit(old(feeCredit), payer) + fee >= WORD then Some(Panic) else None)
              && (err == None ==> feeCredit == if paid then AddCredit(old(feeCredit), payer, fee) else old(feeCredit))
    {
      if fee != 0 && payer != cfg.self {
        if Credit(feeCredit, payer) + fee >= WORD { return Some(Panic); }
        feeCredit := feeCredit[payer := Credit(feeCredit, payer) + fee];
      }
      err := None;
    }

    /** Insert the new outputs, recompute and publish once, credit the payer.  On an
        error the caller reverts. */
    method Settle(s: Spend, payer: nat, blk: Block) returns (err: Option<Error>)
      requires Valid()
      modifies this
      ensures err == None ==> Valid() && SettleSpec(cfg, old(Abs()), s, payer, blk) == Done(Abs())
      ensures err != None ==> SettleSpec(cfg, old(Abs()), s, payer, blk) == Reverted(err.value)
    {
      ghost var was := leaves;
      var new1, i1, new2, i2, ok := InsertOutputs(s);
      if !ok { return Some(TreeFull); }
      RecordOutputs(s, new1, i1, new2, i2, blk.slot);
      assert events == old(events) + SettleEvents(was, s, currentRoot, blk.slot);
      ok := PublishRoot(blk);
      if !ok { return Some(RootPublishFailed); }
      err := PayFee(s.fee, payer);
    }

    method Transfer(sender: nat, s: Spend, probe: Option<ProbeWords>, blk: Block) returns (err: Option<Error>)
      requires Valid()
      modifies this
      ensures Valid()
      ensures Matches(err, TransferSpec(cfg, old(Abs()), sender, s, probe, blk))
    {
      var saved := Snapshot();
      ghost var was := leaves;
      if s.publicAmount != 0 || s.ctx != 0 { return Some(TransferShape); }
      var payer;
      err, payer := CheckSpend(sender, s, probe);
      if err != None { return; }
      err := Settle(s, payer, blk);
      if err != None { Restore(saved, was); }
    }

    method Withdraw(sender: nat, s: Spend, recipient: nat, probe: Option<ProbeWords>, blk: Block)
      returns (err: Option<Error>)
      requires Valid()
      modifies this
      ensures Valid()
      ensures Matches(err, WithdrawSpec(cfg, old(Abs()), sender, s, recipient, probe, blk))
    {
      var saved := Snapshot();
      ghost var was := leaves;
      if recipient >= ADDRESS_SPACE { return Some(BadCalldata); }
      if s.publicAmount == 0 || s.ctx == 0 { return Some(WithdrawShape); }
      if s.ctx != recipient { return Some(CtxDoesNotNameRecipient); }
      var payer;
      err, payer := CheckSpend(sender, s, probe);
      if err != None { return; }
      err := Settle(s, payer, blk);
      if err != None { Restore(saved, was); return; }
      if Credit(withdrawalCredit, recipient) + s.publicAmount >= WORD {
        Restore(saved, was);
        return Some(Panic);
      }
      withdrawalCredit := withdrawalCredit[recipient := Credit(withdrawalCredit, recipient) + s.publicAmount];
    }

    /** The credit is zeroed before the recipient's code runs. */
    method ClaimWithdrawal(who: nat, reentry: seq<Call>, accepts: bool, blk: Block) returns (err: Option<Error>)
      requires Valid()
      modifies this
      ensures Valid()
      ensures Matches(err, CallSpec(cfg, old(Abs()), ClaimWithdrawalCall(who, reentry, accepts), blk))
      decreases ClaimWithdrawalCall(who, reentry, accepts), 0
    {
      var saved := Snapshot();
      ghost var was := leaves;
      var amount := Credit(withdrawalCredit, who);
      if amount == 0 { return Some(NoCredit); }
      withdrawalCredit := withdrawalCredit[who := 0];
      var ok := CallWithValue(who, amount, reentry, accepts, blk);
      if !ok { Restore(saved, was); return Some(PayoutFailed); }
      err := None;
    }

    method ClaimFee(who: nat, reentry: seq<Call>, accepts: bool, blk: Block) returns (err: Option<Error>)
      requires Valid()
      modifies this
      ensures Valid()
      ensures Matches(err, CallSpec(cfg, old(Abs()), ClaimFeeCall(who, reentry, accepts), blk))
      decreases ClaimFeeCall(who, reentry, accepts), 0
    {
      var saved := Snapshot();
      ghost var was := leaves;
      var amount := Credit(feeCredit, who);
      if amount == 0 { return Some(NoCredit); }
      feeCredit := feeCredit[who := 0];
      var ok := CallWithValue(who, amount, reentry, accepts, blk);
      if !ok { Restore(saved, was); return Some(PayoutFailed); }
      err := None;
    }

    /** `who.call{value: amount}("")`: the ether moves, then the recipient's code runs.
        The pool's own code halts on an empty call outside its frame 0. */
    method CallWithValue(who: nat, amount: nat, reentry: seq<Call>, accepts: bool, blk: Block) returns (ok: bool)
      requires Valid()
      modifies this
      ensures Valid()
      ensures ok <==> amount <= old(balance) && who != cfg.self && accepts
      ensures ok ==> Abs() == CallsSpec(cfg, old(Abs()).(balance := old(balance) - amount,
                                                         sent := AddCredit(old(sent), who, amount)), reentry, blk)
      decreases reentry, 3
    {
      if amount > balance || who == cfg.self { return false; }
      balance, sent := balance - amount, AddCredit(sent, who, amount);
      Reenter(reentry, blk);
      ok := accepts;
    }

    /** Calls made by code the pool is paying. */
    method Reenter(calls: seq<Call>, blk: Block)
      requires Valid()
      modifies this
      ensures Valid() && Abs() == CallsSpec(cfg, old(Abs()), calls, blk)
      decreases calls, 2
    {
      if calls != [] {
        var err := Dispatch(calls[0], blk);
        Reenter(calls[1..], blk);
      }
    }

    method Dispatch(call: Call, blk: Block) returns (err: Option<Error>)
      requires Valid()
      modifies this
      ensures Valid()
      ensures Matches(err, CallSpec(cfg, old(Abs()), call, blk))
      decreases call, 1
    {
      match call
      case ShieldCall(value, inner) =>
        if balance + value >= WORD { return Some(Panic); }
        var index;
        err, index := Shield(value, inner, blk);
      case ClaimWithdrawalCall(who, reentry, accepts) =>
        err := ClaimWithdrawal(who, reentry, accepts, blk);
      case ClaimFeeCall(who, reentry, accepts) =>
        err := ClaimFee(who, reentry, accepts, blk);
      case SpendCall(caller, s, recipient, probe) =>
        if caller == cfg.self { return Some(NotPoolSender); }
        match recipient {
          case None => err := Transfer(caller, s, probe, blk);
          case Some(r) => err := Withdraw(caller, s, r, probe, blk);
        }
      case ReadCall(error) => err := error;
    }
  }

  /** Deployment through the dispatcher: its constructor reverts, leaving no contract, if
      the empty root cannot be published. */
  method Deploy(cfg: Config, blk: Block) returns (deployed: Option<Pool>)
    ensures deployed.Some? <==> blk.predeployOk
    ensures deployed.Some? ==>
              var pool := deployed.value;
              fresh(pool) && pool.Valid() && pool.cfg == cfg && pool.Abs() == Genesis(cfg, blk.slot)
  {
    if !blk.predeployOk { return None; }
    var pool := new Pool(cfg, blk.slot);
    deployed := Some(pool);
  }
}
