/** The accounts behind a run: what each transaction costs its payer, what each account has
    been awarded and paid, and which leaves, log rows and publications a step leaves behind --
    read off the transactions' own bytes. */
module Accounts {
  import opened Bytes
  import opened PoolSpec
  import opened Envelope
  import opened Dispatcher
  import opened Protocol
  import opened PoolInvariant
  import opened Safety
  import opened Runs
  import opened Settlement

  // ---- what a spend costs its payer ----

  /** Somebody other than the pool pays in frame 1. */
  predicate SponsoredBy(who: nat, tx: Tx) { |tx.frames| == 3 && tx.frames[1].target == who }

  /** The maximum cost is debited and what gas did not use comes back, whether or not the
      spend settles: a two-frame spend costs the pool the gas it used, a sponsored one costs
      the paymaster just that, and neither more than the maximum. */
  lemma AcceptedCharge(sys: System, w: World, tx: Tx, env: Environment)
    requires SystemOk(sys) && Accepted(sys, w, tx, env)
    ensures |tx.frames| == 2 || |tx.frames| == 3
    ensures var after := TxStep(sys, w, tx, env);
            var gas := if env.gasUsed <= tx.maxCost then env.gasUsed else tx.maxCost;
            && after.pool.balance == (if |tx.frames| == 2 then w.pool.balance - gas else w.pool.balance)
            && after.payerBase == (if SponsoredBy(sys.paymaster, tx) then w.payerBase - gas else w.payerBase)
            && after.pool.sent == w.pool.sent && after.slot == w.slot
  {
    AcceptedCanPay(sys, w, tx, env);
    PaymentMoves(sys, w, tx, env);
    SettleOutcomeGrows(sys, AfterPayment(sys, w, tx), tx, env);
    SettledBySpec(sys, AfterPayment(sys, w, tx), tx, env);
  }

  /** The same at every accepted spend of every run. */
  lemma RunCharge(sys: System, ex: Extractor, slot: nat, actions: seq<Action>, k: nat)
    requires SystemOk(sys) && k < |actions| && actions[k].PoolTx?
    requires Accepted(sys, Run(sys, slot, actions[..k]), actions[k].tx, actions[k].env)
    ensures var w, after := Run(sys, slot, actions[..k]), Run(sys, slot, actions[..k + 1]);
            var tx, used := actions[k].tx, actions[k].env.gasUsed;
            && (|tx.frames| == 2 && used <= tx.maxCost ==> after.pool.balance == w.pool.balance - used)
            && (|tx.frames| == 2 && used > tx.maxCost ==> after.pool.balance == w.pool.balance - tx.maxCost)
            && (SponsoredBy(sys.paymaster, tx) && used <= tx.maxCost ==> after.payerBase == w.payerBase - used)
            && (SponsoredBy(sys.paymaster, tx) && used > tx.maxCost ==> after.payerBase == w.payerBase - tx.maxCost)
  {
    StepAt(sys, ex, slot, actions, k);
    AcceptedCharge(sys, Run(sys, slot, actions[..k]), actions[k].tx, actions[k].env);
  }

  /** The paymaster's own ether: what it was given, less the gas of the spends it sponsored. */
  ghost function SponsorBook(sys: System, slot: nat, actions: seq<Action>): int {
    if actions == [] then 0
    else
      var before, a := actions[..|actions| - 1], actions[|actions| - 1];
      SponsorBook(sys, slot, before)
      + match a
        case FundPaymaster(amount) => amount
        case PoolTx(tx, env) =>
          if Accepted(sys, Run(sys, slot, before), tx, env) && SponsoredBy(sys.paymaster, tx) then
            -(if env.gasUsed <= tx.maxCost then env.gasUsed else tx.maxCost)
          else 0
        case _ => 0
  }

  lemma {:induction false} SponsorBooks(sys: System, slot: nat, actions: seq<Action>)
    requires SystemOk(sys)
    ensures Run(sys, slot, actions).payerBase == SponsorBook(sys, slot, actions)
  {
    if actions == [] {
    } else {
      var before, a := actions[..|actions| - 1], actions[|actions| - 1];
      SponsorBooks(sys, slot, before);
      if a.PoolTx? && Accepted(sys, Run(sys, slot, before), a.tx, a.env) {
        AcceptedCharge(sys, Run(sys, slot, before), a.tx, a.env);
      }
    }
  }

  // ---- what an account is entitled to ----

  /** Ether an account has received from the pool, and its two credits. */
  function Entitled(who: nat, s: PoolState): nat {
    Credit(s.sent, who) + Credit(s.withdrawalCredit, who) + Credit(s.feeCredit, who)
  }

  /** No outside call, however it re-enters, gives an account anything it was not already
      credited, or takes any of it away. */
  lemma {:induction false} CallConserves(cfg: Config, s: PoolState, call: Call, blk: Block, who: nat)
    ensures match CallSpec(cfg, s, call, blk)
            case Done(t) => Entitled(who, t) == Entitled(who, s) && Credit(t.sent, who) >= Credit(s.sent, who)
            case Reverted(_) => true
    decreases call, 1
  {
    match call
    case ShieldCall(_, _) =>
    case ClaimWithdrawalCall(to, reentry, _) =>
      if Credit(s.withdrawalCredit, to) <= s.balance {
        CallsConserve(cfg, PayWithdrawal(s, to), reentry, blk, who);
      }
    case ClaimFeeCall(to, reentry, _) =>
      if Credit(s.feeCredit, to) <= s.balance { CallsConserve(cfg, PayFee(s, to), reentry, blk, who); }
    case SpendCall(caller, sp, recipient, probe) => OutsideSpendReverts(cfg, s, caller, sp, recipient, probe, blk);
    case ReadCall(_) =>
  }

  lemma {:induction false} CallsConserve(cfg: Config, s: PoolState, calls: seq<Call>, blk: Block, who: nat)
    ensures var t := CallsSpec(cfg, s, calls, blk);
            Entitled(who, t) == Entitled(who, s) && Credit(t.sent, who) >= Credit(s.sent, who)
    decreases calls, 0
  {
    if calls == [] {
    } else {
      CallConserves(cfg, s, calls[0], blk, who);
      var t := match CallSpec(cfg, s, calls[0], blk) case Done(t) => t case Reverted(_) => s;
      CallsConserve(cfg, t, calls[1..], blk, who);
    }
  }

  /** Why a claim fails. */
  lemma ClaimErrors(cfg: Config, s: PoolState, who: nat, reentry: seq<Call>, accepts: bool, blk: Block)
    ensures var r := CallSpec(cfg, s, ClaimWithdrawalCall(who, reentry, accepts), blk);
            r.Reverted? ==> r.error == if Credit(s.withdrawalCredit, who) == 0 then NoCredit else PayoutFailed
    ensures var r := CallSpec(cfg, s, ClaimFeeCall(who, reentry, accepts), blk);
            r.Reverted? ==> r.error == if Credit(s.feeCredit, who) == 0 then NoCredit else PayoutFailed
  {
  }

  /** A claim that succeeds has paid the whole credit to the account it names, and to nobody
      else; without re-entry it leaves no credit and takes the same amount of ether. */
  lemma ClaimPaysWhole(cfg: Config, s: PoolState, who: nat, reentry: seq<Call>, accepts: bool, blk: Block, other: nat)
    ensures match CallSpec(cfg, s, ClaimWithdrawalCall(who, reentry, accepts), blk)
            case Reverted(_) => true
            case Done(t) =>
              && Credit(t.sent, who) >= Credit(s.sent, who) + Credit(s.withdrawalCredit, who)
              && (reentry == [] ==>
                    && Credit(t.withdrawalCredit, who) == 0 && t.balance == s.balance - Credit(s.withdrawalCredit, who)
                    && (other != who ==> Credit(t.sent, other) == Credit(s.sent, other)))
    ensures match CallSpec(cfg, s, ClaimFeeCall(who, reentry, accepts), blk)
            case Reverted(_) => true
            case Done(t) =>
              && Credit(t.sent, who) >= Credit(s.sent, who) + Credit(s.feeCredit, who)
              && (reentry == [] ==>
                    && Credit(t.feeCredit, who) == 0 && t.balance == s.balance - Credit(s.feeCredit, who)
                    && (other != who ==> Credit(t.sent, other) == Credit(s.sent, other)))
  {
    if Credit(s.withdrawalCredit, who) <= s.balance {
      CallsConserve(cfg, PayWithdrawal(s, who), reentry, blk, who);
    }
    if Credit(s.feeCredit, who) <= s.balance { CallsConserve(cfg, PayFee(s, who), reentry, blk, who); }
  }

  /** What an accepted spend awards an account, by the words of its settle frame: the public
      amount to the recipient a withdrawal names, the fee to whoever pays in frame 1, and
      nothing at all if it does not settle. */
  ghost function Award(sys: System, w: World, tx: Tx, env: Environment, who: nat): nat
    requires Accepted(sys, w, tx, env)
  {
    AcceptedCanPay(sys, w, tx, env);
    var data := tx.frames[|tx.frames| - 1].data;
    if !Settles(sys, w, tx, env) then 0
    else
      (if WordAt(data, 196) != 0 && WordAt(data, 548) == who then WordAt(data, 196) else 0)
      + (if SponsoredBy(who, tx) then WordAt(data, 228) else 0)
  }

  lemma SettledWords(sys: System, w: World, tx: Tx, env: Environment)
    requires SystemOk(sys) && Accepted(sys, w, tx, env)
    ensures tx.frames != []
    ensures var data, s := tx.frames[|tx.frames| - 1].data, TxSpend(tx);
            && s.publicAmount == WordAt(data, 196) && s.fee == WordAt(data, 228)
            && RecipientOf(data) == WordAt(data, 548)
            && s.outCm1 == WordAt(data, 132) && s.outCm2 == WordAt(data, 164)
            && (Selector(data) == TRANSFER <==> s.publicAmount == 0)
    ensures forall who: nat :: SponsoredBy(who, tx) <==> PayerOf(sys, tx) == who && who != sys.cfg.self
  {
    AcceptedCanPay(sys, w, tx, env);
    PoolPaysOnlyCovered(sys, w, tx, env);
    ApprovedData(sys, tx);
  }

  /** The pool's books, log and publications behind a spend that did or did not settle. */
  ghost predicate PoolAfter(sys: System, s: PoolState, tx: Tx, slot: nat, settled: bool, t: PoolState)
    requires tx.frames != []
  {
    var sp, payer, who := TxSpend(tx), PayerOf(sys, tx), RecipientOf(tx.frames[|tx.frames| - 1].data);
    var leaves := WithOutputs(s.leaves, sp);
    var root := TreeRoot(sys.cfg, leaves);
    && t.sent == s.sent
    && if !settled then
         && t.leaves == s.leaves && t.events == s.events && t.writes == s.writes
         && t.feeCredit == s.feeCredit && t.withdrawalCredit == s.withdrawalCredit
       else
         && t.leaves == leaves && t.events == s.events + SettleEvents(s.leaves, sp, root, slot)
         && t.writes == s.writes + [RootWrite(slot, root)]
         && t.feeCredit == (if payer == sys.cfg.self || sp.fee == 0 then s.feeCredit
                            else AddCredit(s.feeCredit, payer, sp.fee))
         && t.withdrawalCredit == (if sp.publicAmount == 0 then s.withdrawalCredit
                                   else AddCredit(s.withdrawalCredit, who, sp.publicAmount))
  }

  lemma TxPool(sys: System, w: World, tx: Tx, env: Environment)
    requires SystemOk(sys) && Accepted(sys, w, tx, env)
    ensures tx.frames != []
    ensures PoolAfter(sys, w.pool, tx, w.slot, Settles(sys, w, tx, env), TxStep(sys, w, tx, env).pool)
  {
    AcceptedCanPay(sys, w, tx, env);
    PaymentMoves(sys, w, tx, env);
    SettledWords(sys, w, tx, env);
    SettledBySpec(sys, AfterPayment(sys, w, tx), tx, env);
  }

  lemma PoolAwards(sys: System, s: PoolState, tx: Tx, slot: nat, settled: bool, t: PoolState, who: nat)
    requires tx.frames != [] && PoolAfter(sys, s, tx, slot, settled, t)
    ensures var sp := TxSpend(tx);
            var data := tx.frames[|tx.frames| - 1].data;
            var out := if sp.publicAmount != 0 && RecipientOf(data) == who then sp.publicAmount
                       else 0;
            var fee := if PayerOf(sys, tx) == who && who != sys.cfg.self then sp.fee else 0;
            Entitled(who, t) == Entitled(who, s) + (if settled then out + fee else 0)
  {
  }

  lemma TxAwards(sys: System, w: World, tx: Tx, env: Environment, who: nat)
    requires SystemOk(sys) && Accepted(sys, w, tx, env)
    ensures Entitled(who, TxStep(sys, w, tx, env).pool) == Entitled(who, w.pool) + Award(sys, w, tx, env, who)
  {
    TxPool(sys, w, tx, env);
    SettledWords(sys, w, tx, env);
    PoolAwards(sys, w.pool, tx, w.slot, Settles(sys, w, tx, env), TxStep(sys, w, tx, env).pool, who);
  }

  /** Everything awarded to an account along a run. */
  ghost function Awarded(sys: System, slot: nat, actions: seq<Action>, who: nat): nat {
    if actions == [] then 0
    else
      var before, a := actions[..|actions| - 1], actions[|actions| - 1];
      Awarded(sys, slot, before, who)
      + if a.PoolTx? && Accepted(sys, Run(sys, slot, before), a.tx, a.env)
        then Award(sys, Run(sys, slot, before), a.tx, a.env, who) else 0
  }

  /** Conservation, account by account: after every run, what an account has been paid and
      what it is still owed are together exactly what settled spends awarded it. */
  lemma {:induction false} PaidAndOwedIsAwarded(sys: System, slot: nat, actions: seq<Action>, who: nat)
    requires SystemOk(sys)
    ensures Entitled(who, Run(sys, slot, actions).pool) == Awarded(sys, slot, actions, who)
  {
    if actions == [] {
    } else {
      var before, a := actions[..|actions| - 1], actions[|actions| - 1];
      var w := Run(sys, slot, before);
      PaidAndOwedIsAwarded(sys, slot, before, who);
      match a
      case Outside(call, ok) => CallConserves(sys.cfg, w.pool, call, Block(w.slot, ok), who);
      case PoolTx(tx, env) => if Accepted(sys, w, tx, env) { TxAwards(sys, w, tx, env, who); }
      case _ =>
    }
  }

  lemma SponsorStep(sys: System, w: World, a: Action)
    requires SystemOk(sys) && w.payerBase + Credit(w.pool.sent, sys.paymaster) >= 0
    ensures var after := Step(sys, w, a); after.payerBase + Credit(after.pool.sent, sys.paymaster) >= 0
  {
    match a
    case Outside(call, ok) => CallConserves(sys.cfg, w.pool, call, Block(w.slot, ok), sys.paymaster);
    case PoolTx(tx, env) => if Accepted(sys, w, tx, env) { AcceptedCharge(sys, w, tx, env); }
    case _ =>
  }

  /** The paymaster is never overdrawn: it sponsors only what it can pay in full. */
  lemma {:induction false} SponsorNeverOverdrawn(sys: System, slot: nat, actions: seq<Action>)
    requires SystemOk(sys)
    ensures var w := Run(sys, slot, actions); w.payerBase + Credit(w.pool.sent, sys.paymaster) >= 0
  {
    if actions == [] {
    } else {
      SponsorNeverOverdrawn(sys, slot, actions[..|actions| - 1]);
      SponsorStep(sys, Run(sys, slot, actions[..|actions| - 1]), actions[|actions| - 1]);
    }
  }

  // ---- leaves, log and publications ----

  lemma OutputsInOrder(leaves: seq<nat>, sp: Spend)
    ensures WithOutputs(leaves, sp)
         == leaves + (if sp.outCm1 in leaves then [] else [sp.outCm1])
                   + (if sp.outCm2 in leaves || sp.outCm2 == sp.outCm1 then [] else [sp.outCm2])
  {
  }

  /** The leaves an accepted spend adds, by the words of its settle frame: each output that
      is not a leaf yet, once, the first one first -- or none if it does not settle. */
  lemma SettledLeaves(sys: System, w: World, tx: Tx, env: Environment)
    requires SystemOk(sys) && Accepted(sys, w, tx, env)
    ensures tx.frames != []
    ensures var data, after := tx.frames[|tx.frames| - 1].data, TxStep(sys, w, tx, env).pool.leaves;
            var cm1, cm2 := WordAt(data, 132), WordAt(data, 164);
            after == if !Settles(sys, w, tx, env) then w.pool.leaves
                     else w.pool.leaves + (if cm1 in w.pool.leaves then [] else [cm1])
                                        + (if cm2 in w.pool.leaves || cm2 == cm1 then [] else [cm2])
  {
    TxPool(sys, w, tx, env);
    SettledWords(sys, w, tx, env);
    OutputsInOrder(w.pool.leaves, TxSpend(tx));
  }

  /** From none to `n` leaves, at most two at a time. */
  ghost predicate SizesOk(sizes: seq<nat>, n: nat) {
    && sizes != [] && sizes[0] == 0 && sizes[|sizes| - 1] == n
    && (forall j: nat | 0 < j < |sizes| :: sizes[j - 1] <= sizes[j] <= sizes[j - 1] + 2)
    && (forall j: nat | j < |sizes| :: sizes[j] <= n)
  }

  /** Publication `j` is of the tree over the first `sizes[j]` leaves. */
  ghost predicate RootAt(cfg: Config, s: PoolState, sizes: seq<nat>, j: nat)
    requires j < |sizes| == |s.writes|
  {
    sizes[j] <= |s.leaves| && s.writes[j].root == TreeRoot(cfg, s.leaves[..sizes[j]])
  }

  /** Row `i` names its leaf and its index, and publication `j`'s root and slot. */
  ghost predicate RowAt(s: PoolState, j: nat, i: nat) {
    && i < |s.leaves| && i < |s.events| && j < |s.writes|
    && s.events[i] == LeafAppended(s.leaves[i], i, s.writes[j].root, s.writes[j].slot)
  }

  /** The log and the publications go together: publication `j` is of the tree over the first
      `sizes[j]` leaves, and the rows of the leaves it added -- at most two -- carry exactly
      its root and its slot. */
  ghost predicate Batched(cfg: Config, s: PoolState, sizes: seq<nat>) {
    && SizesOk(sizes, |s.leaves|) && |sizes| == |s.writes| && |s.events| == |s.leaves|
    && (forall j: nat | j < |sizes| :: RootAt(cfg, s, sizes, j))
    && (forall j: nat, i: nat | 0 < j < |sizes| && sizes[j - 1] <= i < sizes[j] :: RowAt(s, j, i))
  }

  /** Publications are only appended, and the new ones carry the current slot. */
  ghost predicate WrittenAt(before: seq<RootWrite>, after: seq<RootWrite>, slot: nat) {
    before <= after && forall j: nat | |before| <= j < |after| :: after[j].slot == slot
  }

  ghost predicate IsBatch(cfg: Config, s: PoolState, t: PoolState, more: seq<nat>, slot: nat) {
    var root := TreeRoot(cfg, t.leaves);
    && |more| <= 2 && t.leaves == s.leaves + more && t.writes == s.writes + [RootWrite(slot, root)]
    && |t.events| == |s.events| + |more| && s.events <= t.events
    && (forall i: nat | i < |more| :: t.events[|s.events| + i] == LeafAppended(more[i], |s.events| + i, root, slot))
  }

  lemma MoreSizes(sizes: seq<nat>, n: nat, m: nat)
    requires SizesOk(sizes, n) && n <= m <= n + 2
    ensures SizesOk(sizes + [m], m)
  {
  }

  lemma OldRoots(cfg: Config, s: PoolState, t: PoolState, sizes: seq<nat>, m: nat, j: nat)
    requires j < |sizes| == |s.writes| && RootAt(cfg, s, sizes, j)
    requires s.leaves <= t.leaves && s.writes <= t.writes && |t.writes| == |sizes| + 1
    ensures RootAt(cfg, t, sizes + [m], j)
  {
    assert t.leaves[..sizes[j]] == s.leaves[..sizes[j]];
  }

  lemma OldRows(s: PoolState, t: PoolState, j: nat, i: nat)
    requires RowAt(s, j, i) && s.leaves <= t.leaves && s.writes <= t.writes && s.events <= t.events
    ensures RowAt(t, j, i)
  {
  }

  lemma NewRow(cfg: Config, s: PoolState, t: PoolState, more: seq<nat>, slot: nat, i: nat)
    requires IsBatch(cfg, s, t, more, slot) && |s.leaves| == |s.events| <= i < |t.leaves|
    ensures RowAt(t, |s.writes|, i)
  {
    assert t.events[|s.events| + (i - |s.events|)] == t.events[i];
  }

  lemma BatchAdds(cfg: Config, s: PoolState, t: PoolState, sizes: seq<nat>, more: seq<nat>, slot: nat)
    requires Batched(cfg, s, sizes) && IsBatch(cfg, s, t, more, slot)
    ensures Batched(cfg, t, sizes + [|t.leaves|]) && WrittenAt(s.writes, t.writes, slot)
  {
    var after, n := sizes + [|t.leaves|], |sizes|;
    MoreSizes(sizes, |s.leaves|, |t.leaves|);
    forall j: nat | j < |after| ensures RootAt(cfg, t, after, j) {
      if j < n { OldRoots(cfg, s, t, sizes, |t.leaves|, j); } else { assert t.leaves[..|t.leaves|] == t.leaves; }
    }
    forall j: nat, i: nat | 0 < j < |after| && after[j - 1] <= i < after[j] ensures RowAt(t, j, i) {
      if j < n { OldRows(s, t, j, i); } else { NewRow(cfg, s, t, more, slot, i); }
    }
  }

  /** Ether and credits are no part of it. */
  lemma SameBatches(cfg: Config, s: PoolState, t: PoolState, sizes: seq<nat>)
    requires Batched(cfg, s, sizes) && t.leaves == s.leaves && t.events == s.events && t.writes == s.writes
    ensures Batched(cfg, t, sizes)
  {
    forall j: nat | j < |sizes| ensures RootAt(cfg, t, sizes, j) {
      assert RootAt(cfg, s, sizes, j);
    }
    forall j: nat, i: nat | 0 < j < |sizes| && sizes[j - 1] <= i < sizes[j] ensures RowAt(t, j, i) {
      assert RowAt(s, j, i);
    }
  }

  lemma ShieldBatch(cfg: Config, s: PoolState, value: nat, inner: nat, blk: Block)
    requires |s.events| == |s.leaves|
    ensures var r := ShieldSpec(cfg, s, value, inner, blk);
            r.Done? ==> IsBatch(cfg, s, r.state, [cfg.H.h3(2, inner, value)], blk.slot)
  {
  }

  lemma SettleBatch(cfg: Config, s: PoolState, t: PoolState, sp: Spend, slot: nat)
    requires |s.events| == |s.leaves| && t.leaves == WithOutputs(s.leaves, sp)
    requires var root := TreeRoot(cfg, t.leaves);
             t.events == s.events + SettleEvents(s.leaves, sp, root, slot)
             && t.writes == s.writes + [RootWrite(slot, root)]
    ensures |s.leaves| <= |t.leaves| && IsBatch(cfg, s, t, t.leaves[|s.leaves|..], slot)
  {
    OutputsGrow(s.leaves, sp);
  }

  lemma {:induction false} CallBatched(cfg: Config, s: PoolState, sizes: seq<nat>, call: Call, blk: Block)
    returns (after: seq<nat>)
    requires Batched(cfg, s, sizes)
    ensures match CallSpec(cfg, s, call, blk)
            case Done(t) => Batched(cfg, t, after) && WrittenAt(s.writes, t.writes, blk.slot)
            case Reverted(_) => true
    decreases call, 1
  {
    after := sizes;
    match call
    case ShieldCall(value, inner) =>
      var r := ShieldSpec(cfg, s, value, inner, blk);
      if r.Done? {
        ShieldBatch(cfg, s, value, inner, blk);
        BatchAdds(cfg, s, r.state, sizes, [cfg.H.h3(2, inner, value)], blk.slot);
        after := sizes + [|r.state.leaves|];
      }
    case ClaimWithdrawalCall(who, reentry, _) =>
      if Credit(s.withdrawalCredit, who) <= s.balance {
        SameBatches(cfg, s, PayWithdrawal(s, who), sizes);
        after := CallsBatched(cfg, PayWithdrawal(s, who), sizes, reentry, blk);
      }
    case ClaimFeeCall(who, reentry, _) =>
      if Credit(s.feeCredit, who) <= s.balance {
        SameBatches(cfg, s, PayFee(s, who), sizes);
        after := CallsBatched(cfg, PayFee(s, who), sizes, reentry, blk);
      }
    case SpendCall(caller, sp, recipient, probe) => OutsideSpendReverts(cfg, s, caller, sp, recipient, probe, blk);
    case ReadCall(_) =>
  }

  lemma {:induction false} CallsBatched(cfg: Config, s: PoolState, sizes: seq<nat>, calls: seq<Call>, blk: Block)
    returns (after: seq<nat>)
    requires Batched(cfg, s, sizes)
    ensures var t := CallsSpec(cfg, s, calls, blk); Batched(cfg, t, after) && WrittenAt(s.writes, t.writes, blk.slot)
    decreases calls, 0
  {
    after := sizes;
    if calls == [] {
    } else {
      var mid := CallBatched(cfg, s, sizes, calls[0], blk);
      match CallSpec(cfg, s, calls[0], blk)
      case Done(t) => after := CallsBatched(cfg, t, mid, calls[1..], blk);
      case Reverted(_) => after := CallsBatched(cfg, s, sizes, calls[1..], blk);
    }
  }

  lemma TxBatched(sys: System, w: World, sizes: seq<nat>, tx: Tx, env: Environment) returns (after: seq<nat>)
    requires SystemOk(sys) && Accepted(sys, w, tx, env) && Batched(sys.cfg, w.pool, sizes)
    ensures var t := TxStep(sys, w, tx, env).pool;
            Batched(sys.cfg, t, after) && WrittenAt(w.pool.writes, t.writes, w.slot)
  {
    var t := TxStep(sys, w, tx, env).pool;
    TxPool(sys, w, tx, env);
    after := sizes;
    if Settles(sys, w, tx, env) {
      SettleBatch(sys.cfg, w.pool, t, TxSpend(tx), w.slot);
      BatchAdds(sys.cfg, w.pool, t, sizes, t.leaves[|w.pool.leaves|..], w.slot);
      after := sizes + [|t.leaves|];
    } else {
      SameBatches(sys.cfg, w.pool, t, sizes);
    }
  }

  lemma StepBatched(sys: System, w: World, sizes: seq<nat>, a: Action) returns (after: seq<nat>)
    requires SystemOk(sys) && Batched(sys.cfg, w.pool, sizes)
    ensures var t := Step(sys, w, a).pool; Batched(sys.cfg, t, after) && WrittenAt(w.pool.writes, t.writes, w.slot)
  {
    after := sizes;
    match a
    case Outside(call, ok) =>
      var mid := CallBatched(sys.cfg, w.pool, sizes, call, Block(w.slot, ok));
      if CallSpec(sys.cfg, w.pool, call, Block(w.slot, ok)).Done? { after := mid; }
    case PoolTx(tx, env) => if Accepted(sys, w, tx, env) { after := TxBatched(sys, w, sizes, tx, env); }
    case _ => SameBatches(sys.cfg, w.pool, Step(sys, w, a).pool, sizes);
  }

  /** The whole log of every run, whatever hashes and proofs are worth: rows and publications in step,
      every row with the root of the tree its transaction left and that transaction's slot. */
  lemma {:induction false} LogIsBatched(sys: System, slot: nat, actions: seq<Action>) returns (sizes: seq<nat>)
    requires SystemOk(sys)
    ensures Batched(sys.cfg, Run(sys, slot, actions).pool, sizes)
    ensures Run(sys, slot, actions).pool.writes[0] == RootWrite(slot, TreeRoot(sys.cfg, []))
    ensures actions != [] ==>
              var w := Run(sys, slot, actions[..|actions| - 1]);
              WrittenAt(w.pool.writes, Run(sys, slot, actions).pool.writes, w.slot)
  {
    if actions == [] {
      sizes := [0];
    } else {
      var before := actions[..|actions| - 1];
      var mid := LogIsBatched(sys, slot, before);
      sizes := StepBatched(sys, Run(sys, slot, before), mid, actions[|actions| - 1]);
    }
  }
}
