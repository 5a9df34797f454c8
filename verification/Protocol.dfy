/** One chain with one pool: calls from outside and the pool's own frame transactions,
    each as a step on values.  Frame 0 and the paymaster decide by the predicates the
    dispatcher's methods are proved against, and settlement by `PoolSpec`. */
module Protocol {
  import opened Wrappers
  import opened Powers
  import opened PoolSpec
  import opened Envelope
  import opened Dispatcher

  /** `lanes` holds the pool's keyed-nonce sequence numbers, `payerBase` what the
      paymaster owns besides the ether the pool has sent it, `slot` the clock. */
  datatype World = World(pool: PoolState, lanes: map<nat, nat>, payerBase: int, slot: nat)

  /** What the model does not decide: the gas a transaction ends up using, whether a
      foreign payer approves and can pay, whether the settle frame has gas enough, and
      whether the recent-root predeploy takes the write. */
  datatype Environment = Environment(gasUsed: nat, payerApproves: bool, settleHasGas: bool, predeployOk: bool)

  const RING: nat := 8192

  // ---- recent roots ----

  /** The last write that landed in a ring cell. */
  function LastWrite(writes: seq<RootWrite>, cell: nat): Option<RootWrite> {
    if writes == [] then None
    else
      var last := writes[|writes| - 1];
      if last.slot % RING == cell then Some(last) else LastWrite(writes[..|writes| - 1], cell)
  }

  /** The protocol's check of a reference to one of the pool's roots: committed in its
      ring cell, and published before the current slot within the window. */
  ghost predicate RefValid(w: World, r: RootRef) {
    && LastWrite(w.pool.writes, r.slot % RING) == Some(RootWrite(r.slot, r.root))
    && r.slot < w.slot && w.slot - r.slot < RING
  }

  // ---- admission and approval ----

  /** Static checks before any frame runs: ordered keys whose lanes all stand at the
      transaction's sequence number, and valid references. */
  ghost predicate Admitted(sys: System, w: World, tx: Tx) {
    && (forall i: nat, j: nat | i < j < |tx.nonceKeys| :: tx.nonceKeys[i] < tx.nonceKeys[j])
    && (forall k :: k in tx.nonceKeys ==> Credit(w.lanes, k) == tx.nonceSeq)
    && (forall r :: r in tx.refs && r.source == sys.cfg.sourceId ==> RefValid(w, r))
  }

  /** The account whose APPROVE carries the payment scope. */
  function PayerOf(sys: System, tx: Tx): nat {
    if |tx.frames| == 3 then tx.frames[1].target else sys.cfg.self
  }

  function PayerBalance(sys: System, w: World): int {
    w.payerBase + Credit(w.pool.sent, sys.paymaster)
  }

  /** Payment approval with its debit: by the pool's frame 0, or by whatever runs in
      frame 1.  The pool's own code in frame 1 is its frame-0 cascade again. */
  ghost predicate PaymentApproved(sys: System, w: World, tx: Tx, env: Environment) {
    if |tx.frames| == 2 then w.pool.balance >= tx.maxCost
    else
      var target := PayerOf(sys, tx);
      if target == sys.cfg.self then Approvable(sys, tx, 1) && w.pool.balance >= tx.maxCost
      else if target == sys.paymaster then Payable(sys, tx, 1) && PayerBalance(sys, w) >= tx.maxCost
      else env.payerApproves && 0 < target < ADDRESS_SPACE
  }

  // ---- one frame transaction of the pool ----

  /** Move ether of the payer: the maximum cost out, later the refund back in. */
  function ChargePayer(sys: System, w: World, payer: nat, amount: int): (r: World)
    requires payer == sys.cfg.self ==> w.pool.balance >= amount
  {
    if payer == sys.cfg.self then w.(pool := w.pool.(balance := w.pool.balance - amount))
    else if payer == sys.paymaster then w.(payerBase := w.payerBase - amount)
    else w
  }

  /** Payment approval consumes every nonce key. */
  function Consume(lanes: map<nat, nat>, keys: seq<nat>): map<nat, nat> {
    if keys == [] then lanes
    else
      AddCredit(Consume(lanes, keys[..|keys| - 1]), keys[|keys| - 1], 1)
  }

  /** The settle frame: the proxy forwards its calldata to the settlement contract. */
  function SettleOutcome(sys: System, w: World, tx: Tx, env: Environment): Outcome
    requires tx.frames != []
  {
    var last := |tx.frames| - 1;
    var data := tx.frames[last].data;
    var probe := Some(ProbeOf(tx, last, PayerOf(sys, tx)));
    var blk := Block(w.slot, env.predeployOk);
    if !env.settleHasGas then Reverted(Panic)
    else if Selector(data) == TRANSFER then TransferSpec(sys.cfg, w.pool, tx.sender, SpendOf(data), probe, blk)
    else WithdrawSpec(sys.cfg, w.pool, tx.sender, SpendOf(data), RecipientOf(data), probe, blk)
  }

  /** Admitted, and approved by the pool's frame 0. */
  ghost predicate Authorized(sys: System, w: World, tx: Tx) {
    Admitted(sys, w, tx) && Approvable(sys, tx, 0)
  }

  ghost predicate Accepted(sys: System, w: World, tx: Tx, env: Environment) {
    Authorized(sys, w, tx) && PaymentApproved(sys, w, tx, env)
  }

  /** The world after payment approval: nullifiers consumed, maximum cost debited. */
  function AfterPayment(sys: System, w: World, tx: Tx): World
    requires PayerOf(sys, tx) == sys.cfg.self ==> w.pool.balance >= tx.maxCost
  {
    var paid := ChargePayer(sys, w, PayerOf(sys, tx), tx.maxCost);
    paid.(lanes := Consume(paid.lanes, tx.nonceKeys))
  }

  function GasCost(tx: Tx, env: Environment): nat {
    if env.gasUsed <= tx.maxCost then env.gasUsed else tx.maxCost
  }

  lemma AcceptedCanPay(sys: System, w: World, tx: Tx, env: Environment)
    requires Accepted(sys, w, tx, env)
    ensures tx.frames != [] && (PayerOf(sys, tx) == sys.cfg.self ==> |tx.frames| == 2 && w.pool.balance >= tx.maxCost)
  {
  }

  /** The settle frame of an accepted spend succeeds. */
  ghost predicate Settles(sys: System, w: World, tx: Tx, env: Environment)
    requires Accepted(sys, w, tx, env)
  {
    AcceptedCanPay(sys, w, tx, env);
    SettleOutcome(sys, AfterPayment(sys, w, tx), tx, env).Done?
  }

  function Refund(sys: System, w: World, tx: Tx, env: Environment): World {
    ChargePayer(sys, w, PayerOf(sys, tx), GasCost(tx, env) - tx.maxCost)
  }

  /** A transaction that is not accepted leaves no trace.  One that is pays and consumes
      its keys whatever the settle frame then does. */
  ghost function TxStep(sys: System, w: World, tx: Tx, env: Environment): World {
    if !Accepted(sys, w, tx, env) then w
    else
      AcceptedCanPay(sys, w, tx, env);
      var paid := AfterPayment(sys, w, tx);
      var settled := match SettleOutcome(sys, paid, tx, env)
        case Done(s) => paid.(pool := s)
        case Reverted(_) => paid;
      Refund(sys, settled, tx, env)
  }

  // ---- steps and runs ----

  datatype Action =
    | Outside(call: Call, predeployOk: bool)
    | PoolTx(tx: Tx, env: Environment)
    | Tick(slots: nat)
    | ForcedEther(amount: nat)
    | FundPaymaster(amount: nat)

  ghost function Step(sys: System, w: World, a: Action): World {
    match a
    case Outside(call, ok) =>
      (match CallSpec(sys.cfg, w.pool, call, Block(w.slot, ok))
       case Done(s) => w.(pool := s)
       case Reverted(_) => w)
    case PoolTx(tx, env) => TxStep(sys, w, tx, env)
    case Tick(n) => w.(slot := w.slot + n)
    case ForcedEther(amount) =>
      if w.pool.balance + amount >= WORD then w else w.(pool := w.pool.(balance := w.pool.balance + amount))
    case FundPaymaster(amount) => w.(payerBase := w.payerBase + amount)
  }

  ghost function Start(sys: System, slot: nat): World {
    World(Genesis(sys.cfg, slot), map[], 0, slot)
  }

  ghost function Run(sys: System, slot: nat, actions: seq<Action>): World {
    if actions == [] then Start(sys, slot)
    else Step(sys, Run(sys, slot, actions[..|actions| - 1]), actions[|actions| - 1])
  }
}
