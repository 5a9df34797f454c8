/** What every settlement operation keeps: solvency, the leaf list's shape, published
    roots and the event log, through re-entrant calls. */
module PoolInvariant {
  import opened Wrappers
  import opened Powers
  import opened Circuit
  import opened PoolSpec
  import opened Ledger

  ghost predicate Opens(cfg: Config, q3: set<(nat, nat, nat)>, cm: nat, o: Opening) {
    (2, o.inner, o.value) in q3 && Commitment(cfg.H, o.inner, o.value) == cm
  }

  /** `root` was the tree's root after some number of appends. */
  ghost predicate PastRoot(cfg: Config, leaves: seq<nat>, root: nat) {
    exists k: nat :: k <= |leaves| && root == TreeRoot(cfg, leaves[..k])
  }

  ghost predicate LogOk(leaves: seq<nat>, events: seq<LeafAppended>) {
    && |events| == |leaves|
    && forall i: nat | i < |events| :: events[i].cm == leaves[i] && events[i].index == i
  }

  /** The ether in the pool beyond what it owes to unspent notes and credits. */
  ghost function Margin(s: PoolState, op: seq<Opening>, spent: set<nat>): int
    requires |op| == |s.leaves|
  {
    s.balance - Unspent(s.leaves, op, spent) - Total(s.withdrawalCredit) - Total(s.feeCredit)
  }

  /** The books balance with `slack` to spare: every wei owed to an unspent note or a
      credit is in the pool. */
  ghost predicate Solvent(s: PoolState, op: seq<Opening>, spent: set<nat>, slack: nat) {
    |op| == |s.leaves| && Margin(s, op, spent) >= slack
  }

  /** Leaves, log and published roots, whatever the leaves commit to. */
  ghost predicate TreeLog(cfg: Config, s: PoolState) {
    && |s.leaves| <= Capacity(cfg) && Distinct(s.leaves)
    && (forall j: nat | j < |s.writes| :: PastRoot(cfg, s.leaves, s.writes[j].root))
    && s.writes != [] && s.writes[|s.writes| - 1].root == TreeRoot(cfg, s.leaves)
    && LogOk(s.leaves, s.events)
  }

  ghost predicate WritesBy(writes: seq<RootWrite>, slot: nat) {
    forall j: nat | j < |writes| :: writes[j].slot <= slot
  }

  /** The tree part of the invariant. */
  ghost predicate LeavesOk(cfg: Config, s: PoolState, op: seq<Opening>, spent: set<nat>, q3: set<(nat, nat, nat)>) {
    && TreeLog(cfg, s) && |op| == |s.leaves|
    && (forall i: nat | i < |op| :: Opens(cfg, q3, s.leaves[i], op[i]))
    && (forall x :: x in spent ==> x in s.leaves)
  }

  ghost predicate PoolInv(cfg: Config, s: PoolState, op: seq<Opening>, spent: set<nat>, q3: set<(nat, nat, nat)>,
                          slack: nat)
  {
    LeavesOk(cfg, s, op, spent, q3) && Solvent(s, op, spent, slack) && s.balance < WORD
  }

  lemma PastRootGrows(cfg: Config, leaves: seq<nat>, more: seq<nat>, root: nat)
    requires PastRoot(cfg, leaves, root)
    ensures PastRoot(cfg, leaves + more, root)
  {
    var k: nat :| k <= |leaves| && root == TreeRoot(cfg, leaves[..k]);
    assert (leaves + more)[..k] == leaves[..k];
  }

  lemma PresentRoot(cfg: Config, leaves: seq<nat>)
    ensures PastRoot(cfg, leaves, TreeRoot(cfg, leaves))
  {
    assert leaves[..|leaves|] == leaves;
  }

  lemma WritesKeep(cfg: Config, leaves: seq<nat>, more: seq<nat>, writes: seq<RootWrite>, slot: nat)
    requires forall j: nat | j < |writes| :: PastRoot(cfg, leaves, writes[j].root)
    ensures var ws := writes + [RootWrite(slot, TreeRoot(cfg, leaves + more))];
            forall j: nat | j < |ws| :: PastRoot(cfg, leaves + more, ws[j].root)
  {
    var ws := writes + [RootWrite(slot, TreeRoot(cfg, leaves + more))];
    forall j: nat | j < |ws| ensures PastRoot(cfg, leaves + more, ws[j].root) {
      if j < |writes| { PastRootGrows(cfg, leaves, more, writes[j].root); } else { PresentRoot(cfg, leaves + more); }
    }
  }

  lemma DistinctAppend(s: seq<nat>, x: nat)
    requires Distinct(s) && x !in s
    ensures Distinct(s + [x])
  {
  }

  // ---- what only grows ----

  /** Whatever one operation of the pool does in `slot`: leaves are only appended, and
      the log and the published roots keep up with them. */
  ghost predicate Grown(cfg: Config, s: PoolState, t: PoolState, slot: nat) {
    && s.leaves <= t.leaves && s.writes <= t.writes
    && (TreeLog(cfg, s) ==> TreeLog(cfg, t))
    && (WritesBy(s.writes, slot) ==> WritesBy(t.writes, slot))
  }

  lemma GrownTransitive(cfg: Config, s: PoolState, t: PoolState, u: PoolState, slot: nat)
    requires Grown(cfg, s, t, slot) && Grown(cfg, t, u, slot)
    ensures Grown(cfg, s, u, slot)
  {
  }

  lemma ShieldGrows(cfg: Config, s: PoolState, value: nat, inner: nat, blk: Block)
    ensures var r := ShieldSpec(cfg, s, value, inner, blk); r.Done? ==> Grown(cfg, s, r.state, blk.slot)
  {
    var cm := Commitment(cfg.H, inner, value);
    if ShieldSpec(cfg, s, value, inner, blk).Done? && TreeLog(cfg, s) {
      WritesKeep(cfg, s.leaves, [cm], s.writes, blk.slot);
      DistinctAppend(s.leaves, cm);
    }
  }

  lemma OutputsGrow(leaves: seq<nat>, sp: Spend)
    ensures leaves <= WithOutputs(leaves, sp)
    ensures Distinct(leaves) ==> Distinct(WithOutputs(leaves, sp))
  {
  }

  lemma LogKeeps(leaves: seq<nat>, sp: Spend, events: seq<LeafAppended>, root: nat, slot: nat)
    requires LogOk(leaves, events)
    ensures LogOk(WithOutputs(leaves, sp), events + SettleEvents(leaves, sp, root, slot))
  {
  }

  lemma SettleGrows(cfg: Config, s: PoolState, sp: Spend, payer: nat, blk: Block)
    ensures var r := SettleSpec(cfg, s, sp, payer, blk); r.Done? ==> Grown(cfg, s, r.state, blk.slot)
  {
    var after := WithOutputs(s.leaves, sp);
    OutputsGrow(s.leaves, sp);
    if SettleSpec(cfg, s, sp, payer, blk).Done? && TreeLog(cfg, s) {
      assert after == s.leaves + after[|s.leaves|..];
      WritesKeep(cfg, s.leaves, after[|s.leaves|..], s.writes, blk.slot);
      LogKeeps(s.leaves, sp, s.events, TreeRoot(cfg, after), blk.slot);
    }
  }

  /** A settlement entry point reached from outside always reverts: re-entering code is
      never the pool. */
  lemma OutsideSpendReverts(cfg: Config, s: PoolState, caller: nat, sp: Spend, recipient: Option<nat>,
                            probe: Option<ProbeWords>, blk: Block)
    ensures CallSpec(cfg, s, SpendCall(caller, sp, recipient, probe), blk).Reverted?
  {
  }

  lemma {:induction false} CallGrows(cfg: Config, s: PoolState, call: Call, blk: Block)
    ensures var r := CallSpec(cfg, s, call, blk); r.Done? ==> Grown(cfg, s, r.state, blk.slot)
    decreases call, 1
  {
    match call
    case ShieldCall(value, inner) => ShieldGrows(cfg, s, value, inner, blk);
    case ClaimWithdrawalCall(who, reentry, _) =>
      if Credit(s.withdrawalCredit, who) <= s.balance {
        CallsGrow(cfg, PayWithdrawal(s, who), reentry, blk);
        GrownTransitive(cfg, s, PayWithdrawal(s, who), CallsSpec(cfg, PayWithdrawal(s, who), reentry, blk), blk.slot);
      }
    case ClaimFeeCall(who, reentry, _) =>
      if Credit(s.feeCredit, who) <= s.balance {
        CallsGrow(cfg, PayFee(s, who), reentry, blk);
        GrownTransitive(cfg, s, PayFee(s, who), CallsSpec(cfg, PayFee(s, who), reentry, blk), blk.slot);
      }
    case SpendCall(caller, sp, recipient, probe) => OutsideSpendReverts(cfg, s, caller, sp, recipient, probe, blk);
    case ReadCall(_) =>
  }

  lemma {:induction false} CallsGrow(cfg: Config, s: PoolState, calls: seq<Call>, blk: Block)
    ensures Grown(cfg, s, CallsSpec(cfg, s, calls, blk), blk.slot)
    decreases calls, 0
  {
    if calls == [] {
    } else {
      CallGrows(cfg, s, calls[0], blk);
      var t := match CallSpec(cfg, s, calls[0], blk) case Done(t) => t case Reverted(_) => s;
      CallsGrow(cfg, t, calls[1..], blk);
      GrownTransitive(cfg, s, t, CallsSpec(cfg, s, calls, blk), blk.slot);
    }
  }

  // ---- calls from outside ----

  /** Preimages hashed by the deposits of a call tree. */
  function CallQueries(call: Call): set<(nat, nat, nat)>
    decreases call
  {
    match call
    case ShieldCall(value, inner) => {(2, inner, value)}
    case ClaimWithdrawalCall(_, reentry, _) => CallsQueries(reentry)
    case ClaimFeeCall(_, reentry, _) => CallsQueries(reentry)
    case SpendCall(_, _, _, _) => {}
    case ReadCall(_) => {}
  }

  function CallsQueries(calls: seq<Call>): set<(nat, nat, nat)>
    decreases calls
  {
    if calls == [] then {} else CallQueries(calls[0]) + CallsQueries(calls[1..])
  }

  lemma ShieldKeeps(cfg: Config, s: PoolState, op: seq<Opening>, spent: set<nat>, q3: set<(nat, nat, nat)>,
                    value: nat, inner: nat, blk: Block) returns (op': seq<Opening>)
    requires PoolInv(cfg, s, op, spent, q3, 0) && (2, inner, value) in q3 && s.balance + value < WORD
    ensures var r := ShieldSpec(cfg, s, value, inner, blk);
            match r
            case Done(t) => PoolInv(cfg, t, op', spent, q3, 0) && Margin(t, op', spent) == Margin(s, op, spent)
            case Reverted(_) => op' == op
  {
    op' := op;
    var r := ShieldSpec(cfg, s, value, inner, blk);
    if r.Done? {
      var cm := Commitment(cfg.H, inner, value);
      op' := op + [Opening(inner, value)];
      UnspentAppend(s.leaves, op, spent, cm, Opening(inner, value));
      ShieldGrows(cfg, s, value, inner, blk);
    }
  }

  /** Ether and credit leave together. */
  lemma PaidKeeps(cfg: Config, s: PoolState, paid: PoolState, op: seq<Opening>, spent: set<nat>,
                  q3: set<(nat, nat, nat)>)
    requires PoolInv(cfg, s, op, spent, q3, 0)
    requires paid.leaves == s.leaves && paid.writes == s.writes && paid.events == s.events && paid.balance <= s.balance
    requires paid.balance + Total(s.withdrawalCredit) + Total(s.feeCredit)
          == s.balance + Total(paid.withdrawalCredit) + Total(paid.feeCredit)
    ensures PoolInv(cfg, paid, op, spent, q3, 0) && Margin(paid, op, spent) == Margin(s, op, spent)
  {
  }

  /** Every call keeps the invariant, and the margin to the wei, however deeply the
      accounts it pays re-enter. */
  lemma {:induction false} CallKeeps(cfg: Config, s: PoolState, op: seq<Opening>, spent: set<nat>,
                                     q3: set<(nat, nat, nat)>, call: Call, blk: Block) returns (op': seq<Opening>)
    requires PoolInv(cfg, s, op, spent, q3, 0) && CallQueries(call) <= q3
    ensures var r := CallSpec(cfg, s, call, blk);
            match r
            case Done(t) => PoolInv(cfg, t, op', spent, q3, 0) && Margin(t, op', spent) == Margin(s, op, spent)
            case Reverted(_) => true
    decreases call, 1
  {
    op' := op;
    match call
    case ShieldCall(value, inner) =>
      if s.balance + value < WORD { op' := ShieldKeeps(cfg, s, op, spent, q3, value, inner, blk); }
    case ClaimWithdrawalCall(who, reentry, _) =>
      if Credit(s.withdrawalCredit, who) <= s.balance {
        TotalUpdate(s.withdrawalCredit, who, 0);
        PaidKeeps(cfg, s, PayWithdrawal(s, who), op, spent, q3);
        op' := CallsKeep(cfg, PayWithdrawal(s, who), op, spent, q3, reentry, blk);
      }
    case ClaimFeeCall(who, reentry, _) =>
      if Credit(s.feeCredit, who) <= s.balance {
        TotalUpdate(s.feeCredit, who, 0);
        PaidKeeps(cfg, s, PayFee(s, who), op, spent, q3);
        op' := CallsKeep(cfg, PayFee(s, who), op, spent, q3, reentry, blk);
      }
    case SpendCall(caller, sp, recipient, probe) =>
      OutsideSpendReverts(cfg, s, caller, sp, recipient, probe, blk);
    case ReadCall(_) =>
  }

  lemma {:induction false} CallsKeep(cfg: Config, s: PoolState, op: seq<Opening>, spent: set<nat>,
                                     q3: set<(nat, nat, nat)>, calls: seq<Call>, blk: Block) returns (op': seq<Opening>)
    requires PoolInv(cfg, s, op, spent, q3, 0) && CallsQueries(calls) <= q3
    ensures var t := CallsSpec(cfg, s, calls, blk);
            PoolInv(cfg, t, op', spent, q3, 0) && Margin(t, op', spent) == Margin(s, op, spent)
    decreases calls, 0
  {
    op' := op;
    if calls == [] {
    } else {
      var r := CallSpec(cfg, s, calls[0], blk);
      var mid := CallKeeps(cfg, s, op, spent, q3, calls[0], blk);
      if r.Done? {
        op' := CallsKeep(cfg, r.state, mid, spent, q3, calls[1..], blk);
      } else {
        op' := CallsKeep(cfg, s, op, spent, q3, calls[1..], blk);
      }
    }
  }

  // ---- settlement ----

  /** Inserting one output adds its value to the unspent total, unless it is a leaf already. */
  lemma OutputKeeps(cfg: Config, leaves: seq<nat>, op: seq<Opening>, spent: set<nat>, q3: set<(nat, nat, nat)>,
                    cm: nat, o: Opening) returns (op': seq<Opening>)
    requires |op| == |leaves| && Opens(cfg, q3, cm, o) && Distinct(leaves) && forall x :: x in spent ==> x in leaves
    requires forall i: nat | i < |op| :: Opens(cfg, q3, leaves[i], op[i])
    ensures var after := WithOutput(leaves, cm);
            && |op'| == |after| && Distinct(after) && leaves <= after
            && (forall i: nat | i < |op'| :: Opens(cfg, q3, after[i], op'[i]))
            && Unspent(after, op', spent) == Unspent(leaves, op, spent) + (if cm in leaves then 0 else o.value)
  {
    op' := op;
    if cm !in leaves {
      op' := op + [o];
      UnspentAppend(leaves, op, spent, cm, o);
    }
  }

  /** Value the new leaves of a settlement add: a duplicate output adds none. */
  function NewValue(leaves: seq<nat>, sp: Spend, out1: nat, out2: nat): nat {
    (if sp.outCm1 in leaves then 0 else out1) + (if sp.outCm2 in WithOutput(leaves, sp.outCm1) then 0 else out2)
  }

  /** The fee becomes a credit only when the pool did not pay for itself. */
  function ForeignFee(cfg: Config, sp: Spend, payer: nat): nat { if payer == cfg.self then 0 else sp.fee }

  /** Value a settlement moves out of the slack. */
  function Moved(cfg: Config, sp: Spend, payer: nat, out1: nat, out2: nat): nat {
    out1 + out2 + sp.publicAmount + ForeignFee(cfg, sp, payer)
  }

  /** The fee is covered by the balance, so its credit fits a word. */
  lemma NoOverflow(cfg: Config, s: PoolState, op: seq<Opening>, spent: set<nat>, sp: Spend, payer: nat, blk: Block,
                   outs: nat)
    requires Solvent(s, op, spent, Moved(cfg, sp, payer, outs, 0)) && s.balance < WORD
    ensures SettleSpec(cfg, s, sp, payer, blk).Done?
        <==> |WithOutputs(s.leaves, sp)| <= Capacity(cfg) && blk.predeployOk
  {
    CreditWithin(s.feeCredit, payer);
  }

  lemma SettleMargin(cfg: Config, s: PoolState, op: seq<Opening>, op': seq<Opening>, spent: set<nat>,
                     sp: Spend, payer: nat, blk: Block, added: nat)
    requires |op| == |s.leaves| && SettleSpec(cfg, s, sp, payer, blk).Done? && |op'| == |WithOutputs(s.leaves, sp)|
    requires Unspent(WithOutputs(s.leaves, sp), op', spent) == Unspent(s.leaves, op, spent) + added
    ensures Margin(SettleSpec(cfg, s, sp, payer, blk).state, op', spent)
         == Margin(s, op, spent) - added - ForeignFee(cfg, sp, payer)
  {
    TotalUpdate(s.feeCredit, payer, Credit(s.feeCredit, payer) + sp.fee);
  }

  lemma OutputsKeep(cfg: Config, leaves: seq<nat>, op: seq<Opening>, spent: set<nat>, q3: set<(nat, nat, nat)>,
                    sp: Spend, o1: Opening, o2: Opening) returns (op': seq<Opening>)
    requires |op| == |leaves| && Opens(cfg, q3, sp.outCm1, o1) && Opens(cfg, q3, sp.outCm2, o2) && Distinct(leaves)
    requires (forall i: nat | i < |op| :: Opens(cfg, q3, leaves[i], op[i])) && forall x :: x in spent ==> x in leaves
    ensures var after := WithOutputs(leaves, sp);
            && |op'| == |after| && Distinct(after) && leaves <= after
            && (forall i: nat | i < |op'| :: Opens(cfg, q3, after[i], op'[i]))
            && Unspent(after, op', spent) == Unspent(leaves, op, spent) + NewValue(leaves, sp, o1.value, o2.value)
  {
    var mid := OutputKeeps(cfg, leaves, op, spent, q3, sp.outCm1, o1);
    op' := OutputKeeps(cfg, WithOutput(leaves, sp.outCm1), mid, spent, q3, sp.outCm2, o2);
  }

  lemma SettleLeaves(cfg: Config, s: PoolState, op: seq<Opening>, op': seq<Opening>, spent: set<nat>,
                     q3: set<(nat, nat, nat)>, sp: Spend, payer: nat, blk: Block)
    requires LeavesOk(cfg, s, op, spent, q3)
    requires var after := WithOutputs(s.leaves, sp);
             |op'| == |after| && forall i: nat | i < |op'| :: Opens(cfg, q3, after[i], op'[i])
    requires SettleSpec(cfg, s, sp, payer, blk).Done?
    ensures LeavesOk(cfg, SettleSpec(cfg, s, sp, payer, blk).state, op', spent, q3)
  {
    SettleGrows(cfg, s, sp, payer, blk);
  }

  /** A settlement whose value was set aside keeps the invariant, and only a full tree
      or a failing predeploy can stop it: no credit overflows. */
  lemma SettleKeeps(cfg: Config, s: PoolState, op: seq<Opening>, spent: set<nat>, q3: set<(nat, nat, nat)>,
                    sp: Spend, payer: nat, blk: Block, o1: Opening, o2: Opening) returns (op': seq<Opening>)
    requires PoolInv(cfg, s, op, spent, q3, Moved(cfg, sp, payer, o1.value, o2.value))
    requires Opens(cfg, q3, sp.outCm1, o1) && Opens(cfg, q3, sp.outCm2, o2)
    ensures var r := SettleSpec(cfg, s, sp, payer, blk);
            && (r.Done? <==> |WithOutputs(s.leaves, sp)| <= Capacity(cfg) && blk.predeployOk)
            && (r.Done? ==>
                  && PoolInv(cfg, r.state, op', spent, q3, sp.publicAmount)
                  && Margin(r.state, op', spent)
                  == Margin(s, op, spent) - NewValue(s.leaves, sp, o1.value, o2.value) - ForeignFee(cfg, sp, payer))
  {
    op' := OutputsKeep(cfg, s.leaves, op, spent, q3, sp, o1, o2);
    NoOverflow(cfg, s, op, spent, sp, payer, blk, o1.value + o2.value);
    var r := SettleSpec(cfg, s, sp, payer, blk);
    if r.Done? {
      SettleLeaves(cfg, s, op, op', spent, q3, sp, payer, blk);
      SettleMargin(cfg, s, op, op', spent, sp, payer, blk, NewValue(s.leaves, sp, o1.value, o2.value));
    }
  }

  /** The withdrawal credit on top of a settlement. */
  lemma WithdrawKeeps(cfg: Config, s: PoolState, op: seq<Opening>, spent: set<nat>, q3: set<(nat, nat, nat)>,
                      who: nat, amount: nat)
    requires PoolInv(cfg, s, op, spent, q3, amount)
    ensures Credit(s.withdrawalCredit, who) + amount < WORD
    ensures var t := s.(withdrawalCredit := AddCredit(s.withdrawalCredit, who, amount));
            PoolInv(cfg, t, op, spent, q3, 0) && Margin(t, op, spent) == Margin(s, op, spent) - amount
  {
    CreditWithin(s.withdrawalCredit, who);
    TotalUpdate(s.withdrawalCredit, who, Credit(s.withdrawalCredit, who) + amount);
  }
}
