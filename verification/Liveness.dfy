/** From notes to settlement: what the wallet proves, the builder sends; what the builder
    sends, the pool approves, can pay for and settles. */
module Liveness {
  import opened Wrappers
  import opened Powers
  import opened Bytes
  import opened Circuit
  import opened PoolSpec
  import opened Envelope
  import opened Dispatcher
  import opened Protocol
  import opened Ledger
  import opened Safety
  import opened Runs
  import opened Settlement
  import opened Concurrency
  import opened Wallet
  import opened FrameTx
  import opened SpendBuilder
  import opened Replay

  // ---- an unspent note's lane is fresh ----

  /** A moved lane is the nullifier of an input whose hashes are on record, and which is
      recorded as spent if it carried value. */
  ghost predicate Consumer(cfg: Config, hist: History, n: InputNote, k: nat) {
    NoteNf(cfg.H, cfg.domain, n) == k && NoteQ3(cfg.H, cfg.domain, n) <= hist.q3 && (n.value != 0 ==> n in hist.spent)
  }

  ghost predicate LanesExplained(cfg: Config, lanes: map<nat, nat>, hist: History) {
    forall k: nat | Credit(lanes, k) >= 1 :: exists n :: Consumer(cfg, hist, n, k)
  }

  lemma {:induction false} HistoryGrowsOver(sys: System, ex: Extractor, slot: nat, actions: seq<Action>, j: nat)
    requires j <= |actions|
    ensures var early, late := RunHistory(sys, ex, slot, actions[..j]), RunHistory(sys, ex, slot, actions);
            early.q2 <= late.q2 && early.q3 <= late.q3 && early.spent <= late.spent
    decreases |actions|
  {
    if j == |actions| {
      assert actions[..j] == actions;
    } else {
      var before := actions[..|actions| - 1];
      HistoryGrowsOver(sys, ex, slot, before, j);
      assert before[..j] == actions[..j];
      HistoryGrows(sys, ex, Run(sys, slot, before), RunHistory(sys, ex, slot, before), actions[|actions| - 1]);
    }
  }

  lemma KeysAreNullifiers(sys: System, w: World, tx: Tx, k: nat)
    requires Authorized(sys, w, tx) && tx.frames != [] && k in tx.nonceKeys
    ensures k == TxSpend(tx).nf1 || k == TxSpend(tx).nf2
  {
  }

  /** The inputs of an accepted spend explain its two keys. */
  lemma AcceptedConsumers(sys: System, ex: Extractor, w: World, hist: History, tx: Tx, env: Environment, k: nat)
    returns (n: InputNote)
    requires SystemOk(sys) && KnowledgeSound(sys, ex) && Accepted(sys, w, tx, env) && tx.frames != []
    requires k in tx.nonceKeys
    ensures Consumer(sys.cfg, HistoryTx(sys.cfg, hist, TxWitness(ex, tx)), n, k)
  {
    var wit, s := TxWitness(ex, tx), TxSpend(tx);
    ProvenNullifiers(sys, ex, w, tx);
    KeysAreNullifiers(sys, w, tx, k);
    n := if k == s.nf1 then wit.in1 else wit.in2;
  }

  /** Every run explains its lanes: no assumption on hashes is needed. */
  lemma RunExplainsLanes(sys: System, ex: Extractor, slot: nat, actions: seq<Action>)
    requires SystemOk(sys) && KnowledgeSound(sys, ex)
    ensures LanesExplained(sys.cfg, Run(sys, slot, actions).lanes, RunHistory(sys, ex, slot, actions))
  {
    forall k: nat | Credit(Run(sys, slot, actions).lanes, k) >= 1
      ensures exists n :: Consumer(sys.cfg, RunHistory(sys, ex, slot, actions), n, k)
    {
      var j := LaneCause(sys, slot, actions, k);
      var w, hist := Run(sys, slot, actions[..j]), RunHistory(sys, ex, slot, actions[..j]);
      AcceptedCanPay(sys, w, actions[j].tx, actions[j].env);
      var n := AcceptedConsumers(sys, ex, w, hist, actions[j].tx, actions[j].env, k);
      StepAt(sys, ex, slot, actions, j);
      HistoryGrowsOver(sys, ex, slot, actions, j + 1);
      assert Consumer(sys.cfg, RunHistory(sys, ex, slot, actions), n, k);
    }
  }

  /** `hist`, and the three-input hashes of one note. */
  function WithNote(cfg: Config, hist: History, m: InputNote): History {
    hist.(q3 := hist.q3 + NoteQ3(cfg.H, cfg.domain, m))
  }

  /** Nobody can have consumed the lane of an unspent note of value: whoever did used the
      note's own leaf, which would then be recorded as spent. */
  lemma ExplainedLaneFresh(cfg: Config, s: PoolState, lanes: map<nat, nat>, hist: History, m: InputNote)
    requires LanesExplained(cfg, lanes, hist) && NoBreak(cfg, s, WithNote(cfg, hist, m))
    requires m.value != 0 && NoteCm(cfg.H, m) !in SpentLeaves(cfg, hist.spent)
    ensures Credit(lanes, NoteNf(cfg.H, cfg.domain, m)) == 0
  {
    var H, k := cfg.H, NoteNf(cfg.H, cfg.domain, m);
    if Credit(lanes, k) >= 1 {
      var n :| Consumer(cfg, hist, n, k);
      var q3 := WithNote(cfg, hist, m).q3;
      var a, b := (3, H.h2(cfg.domain, n.spendKey), NoteCm(H, n)), (3, H.h2(cfg.domain, m.spendKey), NoteCm(H, m));
      assert a in NoteQ3(H, cfg.domain, n) && b in NoteQ3(H, cfg.domain, m);
      assert a in q3 && b in q3 && a == b;
      var c, d := (2, Inner(H, n.spendKey, n.rho), n.value), (2, Inner(H, m.spendKey, m.rho), m.value);
      assert c in NoteQ3(H, cfg.domain, n) && d in NoteQ3(H, cfg.domain, m);
      assert c in q3 && d in q3 && c == d;
      SpentLeavesMember(cfg, hist.spent, NoteCm(H, m));
    }
  }

  /** The same on every run: an unspent note's nullifier lane stands at zero. */
  lemma UnspentLaneFresh(sys: System, ex: Extractor, slot: nat, actions: seq<Action>, m: InputNote)
    requires SystemOk(sys) && KnowledgeSound(sys, ex) && m.value != 0
    requires NoBreak(sys.cfg, Run(sys, slot, actions).pool, WithNote(sys.cfg, RunHistory(sys, ex, slot, actions), m))
    requires NoteCm(sys.cfg.H, m) !in SpentLeaves(sys.cfg, RunHistory(sys, ex, slot, actions).spent)
    ensures Credit(Run(sys, slot, actions).lanes, NoteNf(sys.cfg.H, sys.cfg.domain, m)) == 0
  {
    RunExplainsLanes(sys, ex, slot, actions);
    ExplainedLaneFresh(sys.cfg, Run(sys, slot, actions).pool, Run(sys, slot, actions).lanes,
      RunHistory(sys, ex, slot, actions), m);
  }

  // ---- what the wallet does ----

  type Prover = (Public, Witness) -> seq<nat>

  /** Groth16 completeness: a satisfying witness has an accepted eight-word proof. */
  ghost predicate ProvesAll(sys: System, prove: Prover)
    requires sys.cfg.p > 0
  {
    forall pub, w :: (exists hints :: Satisfies(sys.cfg.H, sys.cfg.p, sys.cfg.depth, pub, w, hints)) ==>
      sys.verify(prove(pub, w), pub) && |prove(pub, w)| == 8 && forall k: nat | k < 8 :: prove(pub, w)[k] < WORD
  }

  /** What a wallet sets out to do: spend two notes of the tree it knows. */
  datatype Intent = Intent(inputs: seq<SpendInput>, outputs: seq<Output>, publicAmount: nat, fee: nat,
                           recipient: Option<nat>)

  /** A transfer releases nothing, a withdrawal something to a real address. */
  predicate IntentShape(it: Intent) {
    match it.recipient
    case None => it.publicAmount == 0
    case Some(r) => it.publicAmount != 0 && 0 < r < ADDRESS_SPACE
  }

  /** The notes are in the tree, conserved and in range, with different nullifiers. */
  ghost predicate Spendable(cfg: Config, leaves: seq<nat>, it: Intent) {
    && Passes(it.inputs, it.outputs, it.publicAmount, it.fee)
    && InTree(cfg.H, cfg.depth, leaves, it.inputs[0]) && InTree(cfg.H, cfg.depth, leaves, it.inputs[1])
    && InputNullifiers(cfg.H, cfg.domain, it.inputs)[0] != InputNullifiers(cfg.H, cfg.domain, it.inputs)[1]
    && Residues(cfg.p, leaves, it.inputs, it.outputs, cfg.domain, it.recipient)
    && IntentShape(it)
  }

  /** The tuple that goes on chain. */
  function ProvenSpend(H: Hasher, m: WitnessMap, prove: Prover): Spend {
    var pub := PublicSignals(H, m);
    Spend(pub.root, pub.domain, pub.nf1, pub.nf2, pub.outCm1, pub.outCm2, pub.publicAmount, pub.fee, pub.ctx,
      prove(pub, m.w))
  }

  ghost predicate MapOf(cfg: Config, leaves: seq<nat>, it: Intent, m: WitnessMap)
    requires |it.inputs| == |it.outputs| == 2
  {
    IsMap(cfg.H.h2, cfg.depth, leaves, it.inputs, it.outputs, cfg.domain, it.publicAmount, it.fee, it.recipient, m)
  }

  lemma ProofVerifies(sys: System, leaves: seq<nat>, it: Intent, m: WitnessMap, prove: Prover)
    requires SystemOk(sys) && ProvesAll(sys, prove) && Spendable(sys.cfg, leaves, it) && MapOf(sys.cfg, leaves, it, m)
    ensures var s := ProvenSpend(sys.cfg.H, m, prove);
            && sys.verify(s.proof, PublicOf(s)) && |s.proof| == 8 && (forall k: nat | k < 8 :: s.proof[k] < WORD)
            && Canonical(sys.cfg.p, PublicOf(s), m.w)
  {
    var cfg := sys.cfg;
    WitnessComplete(cfg.H, cfg.p, cfg.depth, leaves, it.inputs, it.outputs, cfg.domain, it.publicAmount, it.fee,
      it.recipient, m);
    assert PublicOf(ProvenSpend(cfg.H, m, prove)) == PublicSignals(cfg.H, m);
  }

  /** An accepted proof's nullifiers are not zero: zero would be a preimage of the empty
      leaf among the extracted witness's hashes. */
  lemma NullifiersNotZero(sys: System, ex: Extractor, pool: PoolState, hist: History, s: Spend)
    requires SystemOk(sys) && KnowledgeSound(sys, ex) && sys.verify(s.proof, PublicOf(s)) && s.domain == sys.cfg.domain
    requires NoBreak(sys.cfg, pool, HistoryTx(sys.cfg, hist, ex(s.proof, PublicOf(s))))
    ensures s.nf1 != 0 && s.nf2 != 0
  {
    var cfg, w := sys.cfg, ex(s.proof, PublicOf(s));
    Exact(cfg.H, cfg.p, cfg.depth, PublicOf(s), w);
    var q3 := HistoryTx(cfg, hist, w).q3;
    assert (3, cfg.H.h2(cfg.domain, w.in1.spendKey), NoteCm(cfg.H, w.in1)) in q3;
    assert (3, cfg.H.h2(cfg.domain, w.in2.spendKey), NoteCm(cfg.H, w.in2)) in q3;
  }

  lemma MapFields(cfg: Config, leaves: seq<nat>, it: Intent, m: WitnessMap)
    requires Spendable(cfg, leaves, it) && MapOf(cfg, leaves, it, m)
    ensures m.domain == cfg.domain && m.publicAmount == it.publicAmount < MAX_VALUE && m.fee == it.fee < MAX_VALUE
    ensures m.ctx == match it.recipient case Some(a) => a case None => 0
  {
  }

  lemma CanonicalPasses(sys: System, s: Spend, w: Witness)
    requires Canonical(sys.cfg.p, PublicOf(s), w) && s.domain == sys.cfg.domain && s.nf1 != 0 && s.nf2 != 0
    requires s.publicAmount < MAX_VALUE && s.fee < MAX_VALUE && sys.verify(s.proof, PublicOf(s))
    requires |s.proof| == 8 && forall k: nat | k < 8 :: s.proof[k] < WORD
    ensures ProofError(sys, s) == None
    ensures sys.cfg.p <= WORD ==> WordsFit(s)
  {
    if sys.cfg.p <= WORD {
      forall k: nat | k < |SpendWords(s)| ensures SpendWords(s)[k] < WORD {
        if k >= 9 { assert SpendWords(s)[k] == s.proof[k - 9]; }
      }
    }
  }

  lemma SpendPassesProof(sys: System, ex: Extractor, pool: PoolState, hist: History, leaves: seq<nat>, it: Intent,
                         m: WitnessMap, prove: Prover)
    requires SystemOk(sys) && KnowledgeSound(sys, ex) && ProvesAll(sys, prove)
    requires Spendable(sys.cfg, leaves, it) && MapOf(sys.cfg, leaves, it, m)
    requires var s := ProvenSpend(sys.cfg.H, m, prove);
            NoBreak(sys.cfg, pool, HistoryTx(sys.cfg, hist, ex(s.proof, PublicOf(s))))
    ensures var s := ProvenSpend(sys.cfg.H, m, prove);
            && ProofError(sys, s) == None && SpendShape(s, it.recipient)
            && (sys.cfg.p <= WORD ==> WordsFit(s))
  {
    var s := ProvenSpend(sys.cfg.H, m, prove);
    ProofVerifies(sys, leaves, it, m, prove);
    NullifiersNotZero(sys, ex, pool, hist, s);
    MapFields(sys.cfg, leaves, it, m);
    CanonicalPasses(sys, s, m.w);
  }

  /** Keys unspent and the reference still valid: the built transaction is admitted. */
  lemma PlanAdmitted(sys: System, w: World, plan: Plan, tx: Tx)
    requires Shows(plan, tx) && plan.source == sys.cfg.sourceId && plan.spend.nf1 != plan.spend.nf2
    requires Credit(w.lanes, plan.spend.nf1) == 0 && Credit(w.lanes, plan.spend.nf2) == 0
    requires RefValid(w, RootRef(plan.source, plan.rootSlot, plan.spend.root))
    ensures Admitted(sys, w, tx)
  {
  }

  ghost predicate NoteUnspent(sys: System, w: World, hist: History, n: InputNote) {
    if n.value != 0 then NoteCm(sys.cfg.H, n) !in SpentLeaves(sys.cfg, hist.spent)
    else Credit(w.lanes, NoteNf(sys.cfg.H, sys.cfg.domain, n)) == 0
  }

  /** The notes of value are not spent; a zero-value dummy's own lane has not been used. */
  ghost predicate NotesUnspent(sys: System, w: World, hist: History, m: WitnessMap) {
    NoteUnspent(sys, w, hist, m.w.in1) && NoteUnspent(sys, w, hist, m.w.in2)
  }

  /** What the run, the wallet and the extractor have hashed once the spend is proved. */
  function SpendHistory(sys: System, ex: Extractor, hist: History, m: WitnessMap, s: Spend): History {
    HistoryTx(sys.cfg, WithNote(sys.cfg, WithNote(sys.cfg, hist, m.w.in1), m.w.in2), ex(s.proof, PublicOf(s)))
  }

  /** The plan for a proved spend: its tuple, the pool paying for itself. */
  ghost predicate PlanFor(sys: System, prove: Prover, it: Intent, m: WitnessMap, plan: Plan) {
    && plan.spend == ProvenSpend(sys.cfg.H, m, prove) && plan.recipient == it.recipient
    && plan.pool == sys.cfg.self && plan.paymaster == None && plan.source == sys.cfg.sourceId
    && plan.source < WORD && plan.rootSlot < WORD64
  }

  lemma LanesFresh(sys: System, ex: Extractor, w: World, hist: History, m: WitnessMap, s: Spend)
    requires LanesExplained(sys.cfg, w.lanes, hist) && NotesUnspent(sys, w, hist, m)
    requires NoBreak(sys.cfg, w.pool, SpendHistory(sys, ex, hist, m, s))
    ensures Credit(w.lanes, NoteNf(sys.cfg.H, sys.cfg.domain, m.w.in1)) == 0
    ensures Credit(w.lanes, NoteNf(sys.cfg.H, sys.cfg.domain, m.w.in2)) == 0
  {
    var late := SpendHistory(sys, ex, hist, m, s);
    NoBreakEarlier(sys.cfg, w.pool, WithNote(sys.cfg, hist, m.w.in1), w.pool, late);
    NoBreakEarlier(sys.cfg, w.pool, WithNote(sys.cfg, hist, m.w.in2), w.pool, late);
    if m.w.in1.value != 0 { ExplainedLaneFresh(sys.cfg, w.pool, w.lanes, hist, m.w.in1); }
    if m.w.in2.value != 0 { ExplainedLaneFresh(sys.cfg, w.pool, w.lanes, hist, m.w.in2); }
  }

  /** The proved spend, planned: normal on the wire and approved by frame 0. */
  lemma PlannedApproved(sys: System, ex: Extractor, prove: Prover, pool: PoolState, hist: History, known: seq<nat>,
                        it: Intent, m: WitnessMap, plan: Plan, signature: seq<Byte>)
    requires SystemOk(sys) && sys.cfg.p <= WORD && KnowledgeSound(sys, ex) && ProvesAll(sys, prove)
    requires Spendable(sys.cfg, known, it) && MapOf(sys.cfg, known, it, m) && PlanFor(sys, prove, it, m, plan)
    requires Ordinary(plan, signature) && (Normal(Built(plan, signature)) ==> it.fee >= MaxCost(Built(plan, signature)))
    requires NoBreak(sys.cfg, pool, HistoryTx(sys.cfg, hist, ex(plan.spend.proof, PublicOf(plan.spend))))
    ensures PlanOk(plan) && Normal(Built(plan, signature)) && Approvable(sys, Seen(Built(plan, signature)), 0)
  {
    SpendPassesProof(sys, ex, pool, hist, known, it, m, prove);
    BuiltNormal(plan, signature);
    BuiltApproved(sys, plan, signature);
  }

  lemma MapNullifiers(sys: System, known: seq<nat>, it: Intent, m: WitnessMap, prove: Prover)
    requires Spendable(sys.cfg, known, it) && MapOf(sys.cfg, known, it, m)
    ensures var s := ProvenSpend(sys.cfg.H, m, prove);
            && s.nf1 == NoteNf(sys.cfg.H, sys.cfg.domain, m.w.in1)
            && s.nf2 == NoteNf(sys.cfg.H, sys.cfg.domain, m.w.in2)
            && s.nf1 != s.nf2 && s.root == m.root
  {
    var s := ProvenSpend(sys.cfg.H, m, prove);
    SignalsAgree(sys.cfg.H, sys.cfg.depth, known, it.inputs, it.outputs, sys.cfg.domain, it.publicAmount, it.fee,
      it.recipient, m);
    var nfs := InputNullifiers(sys.cfg.H, sys.cfg.domain, it.inputs);
    assert [s.nf1, s.nf2][0] == nfs[0] && [s.nf1, s.nf2][1] == nfs[1];
  }

  /** Accepted, and settled if nothing outside the pool's logic interferes. */
  ghost predicate Lives(sys: System, w: World, tx: Tx, env: Environment) {
    && Accepted(sys, w, tx, env) && |tx.frames| == 2 && w.pool.balance >= tx.maxCost
    && var paid := AfterPayment(sys, w, tx);
    var r := SettleOutcome(sys, paid, tx, env);
    && (|w.pool.leaves| + 2 <= Capacity(sys.cfg) && env.settleHasGas && env.predeployOk ==>
          r.Done? && SettledAs(sys, paid.pool, tx, r.state))
  }

  lemma RoomForTwo(sys: System, w: World, paid: World, tx: Tx, env: Environment)
    requires tx.frames != [] && paid.pool.leaves == w.pool.leaves
    ensures |w.pool.leaves| + 2 <= Capacity(sys.cfg) && env.settleHasGas && env.predeployOk ==>
              SettleError(sys, paid, tx, env) == None
  {
  }

  lemma ApprovedLives(sys: System, ex: Extractor, w: World, hist: History, op: seq<Opening>, tx: Tx, env: Environment)
    requires SystemOk(sys) && KnowledgeSound(sys, ex) && Inv(sys, w, hist, op) && Authorized(sys, w, tx)
    requires |tx.frames| == 2
    requires NoBreak(sys.cfg, w.pool, HistoryTx(sys.cfg, hist, TxWitness(ex, tx)))
    ensures Lives(sys, w, tx, env)
  {
    SelfPayIsFunded(sys, ex, w, hist, op, tx, env);
    PaymentMoves(sys, w, tx, env);
    ApprovalSettles(sys, ex, w, hist, op, tx, env);
    RoomForTwo(sys, w, AfterPayment(sys, w, tx), tx, env);
  }

  /** End to end, from any world that keeps the invariant and explains its lanes: unspent
      notes in a tree whose root is still referable, a fee that covers the transaction's
      maximum cost -- then the built transaction is accepted, and settles unless gas, the
      predeploy or room in the tree is wanting. */
  lemma SpendLives(sys: System, ex: Extractor, prove: Prover, w: World, hist: History, op: seq<Opening>,
                   known: seq<nat>, it: Intent, m: WitnessMap, plan: Plan, signature: seq<Byte>, env: Environment)
    requires SystemOk(sys) && sys.cfg.p <= WORD && KnowledgeSound(sys, ex) && ProvesAll(sys, prove)
    requires Inv(sys, w, hist, op) && LanesExplained(sys.cfg, w.lanes, hist)
    requires Spendable(sys.cfg, known, it) && MapOf(sys.cfg, known, it, m) && NotesUnspent(sys, w, hist, m)
    requires PlanFor(sys, prove, it, m, plan) && RefValid(w, RootRef(plan.source, plan.rootSlot, m.root))
    requires Ordinary(plan, signature) && (Normal(Built(plan, signature)) ==> it.fee >= MaxCost(Built(plan, signature)))
    requires NoBreak(sys.cfg, w.pool, SpendHistory(sys, ex, hist, m, plan.spend))
    ensures Normal(Built(plan, signature)) && Lives(sys, w, Seen(Built(plan, signature)), env)
  {
    var s := plan.spend;
    var mine := HistoryTx(sys.cfg, hist, ex(s.proof, PublicOf(s)));
    NoBreakEarlier(sys.cfg, w.pool, mine, w.pool, SpendHistory(sys, ex, hist, m, s));
    PlannedApproved(sys, ex, prove, w.pool, hist, known, it, m, plan, signature);
    LanesFresh(sys, ex, w, hist, m, s);
    MapNullifiers(sys, known, it, m, prove);
    SeenBuilt(plan, signature);
    var tx := Seen(Built(plan, signature));
    PlanAdmitted(sys, w, plan, tx);
    ShownShape(sys, plan, tx);
    ApprovedLives(sys, ex, w, hist, op, tx, env);
  }

  /** End-to-end liveness over runs: the same for every reachable pool and for notes that
      are simply unspent in it. */
  lemma EndToEnd(sys: System, ex: Extractor, prove: Prover, slot: nat, actions: seq<Action>, known: seq<nat>,
                 it: Intent, m: WitnessMap, plan: Plan, signature: seq<Byte>, env: Environment)
    requires Sound(sys, ex, slot, actions) && sys.cfg.p <= WORD && ProvesAll(sys, prove)
    requires Spendable(sys.cfg, known, it) && MapOf(sys.cfg, known, it, m) && PlanFor(sys, prove, it, m, plan)
    requires NotesUnspent(sys, Run(sys, slot, actions), RunHistory(sys, ex, slot, actions), m)
    requires RefValid(Run(sys, slot, actions), RootRef(plan.source, plan.rootSlot, m.root))
    requires Ordinary(plan, signature) && (Normal(Built(plan, signature)) ==> it.fee >= MaxCost(Built(plan, signature)))
    requires NoBreak(sys.cfg, Run(sys, slot, actions).pool,
                     SpendHistory(sys, ex, RunHistory(sys, ex, slot, actions), m, plan.spend))
    ensures Normal(Built(plan, signature)) && Lives(sys, Run(sys, slot, actions), Seen(Built(plan, signature)), env)
  {
    var op := RunKeeps(sys, ex, slot, actions);
    RunExplainsLanes(sys, ex, slot, actions);
    SpendLives(sys, ex, prove, Run(sys, slot, actions), RunHistory(sys, ex, slot, actions), op, known, it, m, plan,
      signature, env);
  }

  /** And from the event log alone: a wallet that rebuilds the tree from the log and refers
      to the pool's last publication, in the ring's window, needs to know nothing else. */
  lemma EndToEndFromLog(sys: System, ex: Extractor, prove: Prover, slot: nat, actions: seq<Action>,
                        it: Intent, m: WitnessMap, plan: Plan, signature: seq<Byte>, env: Environment)
    requires Sound(sys, ex, slot, actions) && sys.cfg.p <= WORD && ProvesAll(sys, prove)
    requires var s := Run(sys, slot, actions).pool;
             && Dense(LogMap(s.events))
             && Spendable(sys.cfg, Listing(LogMap(s.events)), it) && MapOf(sys.cfg, Listing(LogMap(s.events)), it, m)
             && s.writes != [] && plan.rootSlot == s.writes[|s.writes| - 1].slot
    requires PlanFor(sys, prove, it, m, plan) && plan.rootSlot < Run(sys, slot, actions).slot < plan.rootSlot + RING
    requires NotesUnspent(sys, Run(sys, slot, actions), RunHistory(sys, ex, slot, actions), m)
    requires Ordinary(plan, signature) && (Normal(Built(plan, signature)) ==> it.fee >= MaxCost(Built(plan, signature)))
    requires NoBreak(sys.cfg, Run(sys, slot, actions).pool,
                     SpendHistory(sys, ex, RunHistory(sys, ex, slot, actions), m, plan.spend))
    ensures Normal(Built(plan, signature)) && Lives(sys, Run(sys, slot, actions), Seen(Built(plan, signature)), env)
  {
    var s := Run(sys, slot, actions).pool;
    RunReplays(sys, slot, actions);
    CurrentRootReferable(sys, slot, actions);
    EndToEnd(sys, ex, prove, slot, actions, Listing(LogMap(s.events)), it, m, plan, signature, env);
  }
}
