/** A run, spelled out, in which the sponsor loses its gas: one deposit fills a tree with
    room for one leaf, and a sponsored spend of it is accepted but cannot settle.  Over any
    large enough prime field it meets every assumption the safety theorems make. */
module Burn {
  import opened Wrappers
  import opened Powers
  import opened Field
  import opened Circuit
  import opened PoolSpec
  import opened Envelope
  import opened Dispatcher
  import opened Protocol
  import opened Safety
  import opened Runs
  import opened Settlement
  import opened SpendBuilder

  // ---- hashes, notes and proof ----

  function PairHash(a: nat, b: nat): nat {
    if a == 11 && b == 5 then 101
    else if a == 12 && b == 6 then 102
    else if a == 9 && b == 1 then 201
    else if a == 9 && b == 2 then 202
    else 0
  }

  function TripleHash(a: nat, b: nat, c: nat): nat {
    if a == 1 then if b == 1 then 11 else 12
    else if a == 2 then if b == 101 then 21 else if b == 102 then 22 else if b == 7 then 23 else 24
    else if b == 201 then 31
    else 32
  }

  function Hashes(): Hasher { Hasher(PairHash, TripleHash) }

  function Settings(p: nat): Config { Config(Hashes(), p, 0, 1, 7, 9) }

  /** One wei in, one wei of fee, two worthless outputs. */
  function Notes(): Witness {
    Witness(InputNote(1, 5, 1, [], []), InputNote(2, 6, 0, [], []), 7, 8, 0, 0)
  }

  function Signals(): Public { Public(31, 32, 23, 24, 21, 9, 0, 1, 0) }

  function Tuple(): Spend { Spend(21, 9, 31, 32, 23, 24, 0, 1, 0, [0, 0, 0, 0, 0, 0, 0, 0]) }

  /** A verifier that accepts this one statement. */
  function Chain(p: nat): System {
    System(Settings(p), (proof, pub) => pub == Signals(), 2)
  }

  function Reader(): Extractor { (proof, pub) => Notes() }

  lemma HashesOk(p: nat)
    requires p >= 4 * MAX_VALUE
    ensures HashOk(Hashes(), p)
  {
  }

  lemma Digests()
    ensures NoteCm(Hashes(), Notes().in1) == 21 && NoteCm(Hashes(), Notes().in2) == 22
    ensures NoteNf(Hashes(), 9, Notes().in1) == 31 && NoteNf(Hashes(), 9, Notes().in2) == 32
  {
    assert Inner(Hashes(), 1, 5) == 101 && Inner(Hashes(), 2, 6) == 102;
  }

  lemma StatementHolds()
    ensures Statement(Hashes(), 0, Signals(), Notes())
  {
    Digests();
    var vals := RangeChecked(Signals(), Notes());
    assert vals == [1, 0, 0, 0, 0, 1];
  }

  lemma SignalsCanonical(p: nat)
    requires p >= 4 * MAX_VALUE
    ensures Canonical(p, Signals(), Notes())
  {
  }

  lemma ChainOk(p: nat)
    requires Prime(p) && p >= 4 * MAX_VALUE
    ensures SystemOk(Chain(p))
  {
    HashesOk(p);
  }

  lemma ProofsSound(p: nat)
    requires Prime(p) && p >= 4 * MAX_VALUE
    ensures KnowledgeSound(Chain(p), Reader())
  {
    HashesOk(p);
    StatementHolds();
    SignalsCanonical(p);
    Exact(Hashes(), p, 0, Signals(), Notes());
    var hints :| Satisfies(Hashes(), p, 0, Signals(), Notes(), hints);
    forall proof, pub | Chain(p).verify(proof, pub)
      ensures exists hints :: Satisfies(Chain(p).cfg.H, p, Chain(p).cfg.depth, pub, Reader()(proof, pub), hints)
    {
      assert Satisfies(Chain(p).cfg.H, p, Chain(p).cfg.depth, pub, Reader()(proof, pub), hints);
    }
  }

  // ---- the transaction ----

  function SpendPlan(): Plan { Plan(1, 1, 3, Tuple(), None, Some(2), 7, 0, 0, 0) }

  function Doomed(): Tx { Tx(1, [31, 32], 0, SeenShape(SpendPlan()), 1, 0, 1, [RootRef(7, 0, 21)]) }

  function Conditions(): Environment { Environment(1, true, true, true) }

  lemma TupleFits()
    ensures WordsFit(Tuple())
  {
    assert SpendWords(Tuple()) == [21, 9, 31, 32, 23, 24, 0, 1, 0, 0, 0, 0, 0, 0, 0, 0, 0];
  }

  lemma TupleProved(p: nat)
    requires p >= 4 * MAX_VALUE
    ensures ProofError(Chain(p), Tuple()) == None
  {
  }

  lemma DoomedApproved(p: nat)
    requires p >= 4 * MAX_VALUE
    ensures Approvable(Chain(p), Doomed(), 0) && Payable(Chain(p), Doomed(), 1)
    ensures TxSpend(Doomed()) == Tuple()
  {
    TupleFits();
    TupleProved(p);
    assert Shows(SpendPlan(), Doomed());
    ShownApproved(Chain(p), SpendPlan(), Doomed());
    ShownPayable(Chain(p), SpendPlan(), Doomed());
    ShownShape(Chain(p), SpendPlan(), Doomed());
  }

  // ---- the run ----

  /** Deposit the note, let a slot pass, give the paymaster one wei. */
  function Preparations(): seq<Action> { [Outside(ShieldCall(1, 101), true), Tick(1), FundPaymaster(1)] }

  /** And spend. */
  function Deeds(): seq<Action> { Preparations() + [PoolTx(Doomed(), Conditions())] }

  lemma DeedsSplit()
    ensures |Deeds()| == 4 && Deeds()[..3] == Preparations() && Deeds()[3] == PoolTx(Doomed(), Conditions())
  {
  }

  function FullPool(): PoolState {
    PoolState([21], map[], map[], [LeafAppended(21, 0, 21, 0)], [RootWrite(0, 0), RootWrite(0, 21)], 1, map[])
  }

  function Before(): World { World(FullPool(), map[], 1, 1) }

  lemma RunThree(sys: System, slot: nat, a: Action, b: Action, c: Action)
    ensures Run(sys, slot, [a, b, c]) == Step(sys, Step(sys, Step(sys, Start(sys, slot), a), b), c)
  {
    assert [a, b, c][..2] == [a, b] && [a, b][..1] == [a] && [a][..0] == [];
    assert Run(sys, slot, []) == Start(sys, slot);
    assert Run(sys, slot, [a]) == Step(sys, Start(sys, slot), a);
    assert Run(sys, slot, [a, b]) == Step(sys, Run(sys, slot, [a]), b);
  }

  lemma QuietSteps(p: nat)
    ensures Step(Chain(p), Step(Chain(p), World(FullPool(), map[], 0, 0), Tick(1)), FundPaymaster(1)) == Before()
  {
  }

  lemma DepositFills(p: nat)
    requires p >= 4 * MAX_VALUE
    ensures Step(Chain(p), Start(Chain(p), 0), Preparations()[0]) == World(FullPool(), map[], 0, 0)
  {
  }

  lemma BeforeSpend(p: nat)
    requires p >= 4 * MAX_VALUE
    ensures Run(Chain(p), 0, Preparations()) == Before()
  {
    DepositFills(p);
    QuietSteps(p);
    RunThree(Chain(p), 0, Outside(ShieldCall(1, 101), true), Tick(1), FundPaymaster(1));
  }

  lemma DoomedAdmitted(p: nat)
    ensures Admitted(Chain(p), Before(), Doomed())
  {
    var r := RootRef(7, 0, 21);
    assert LastWrite(FullPool().writes, 0) == Some(RootWrite(0, 21));
    assert RefValid(Before(), r) && Doomed().refs == [r];
  }

  lemma ThreeFrames(frames: seq<Frame>)
    requires frames == SeenShape(SpendPlan())
    ensures |frames| == 3 && frames[1].target == 2
  {
  }

  lemma PaidBySponsor(p: nat, tx: Tx)
    requires Payable(Chain(p), tx, 1) && |tx.frames| == 3 && tx.frames[1].target == 2 && tx.maxCost == 1
    ensures PaymentApproved(Chain(p), Before(), tx, Conditions()) && PayerOf(Chain(p), tx) == 2
  {
  }

  lemma DoomedPaid(p: nat)
    requires Payable(Chain(p), Doomed(), 1)
    ensures PaymentApproved(Chain(p), Before(), Doomed(), Conditions())
    ensures PayerOf(Chain(p), Doomed()) == 2 && Doomed().frames != []
  {
    ThreeFrames(Doomed().frames);
    PaidBySponsor(p, Doomed());
  }

  lemma DoomedAccepted(p: nat)
    requires p >= 4 * MAX_VALUE
    ensures Accepted(Chain(p), Before(), Doomed(), Conditions())
    ensures PayerOf(Chain(p), Doomed()) == 2 && Doomed().frames != [] && TxSpend(Doomed()) == Tuple()
  {
    DoomedAdmitted(p);
    DoomedApproved(p);
    DoomedPaid(p);
  }

  lemma NoRoom(p: nat, tx: Tx)
    requires tx.frames != [] && TxSpend(tx) == Tuple()
    ensures SettleError(Chain(p), Before(), tx, Conditions()) == Some(TreeFull)
  {
    assert WithOutput([21], 23) == [21, 23] && WithOutput([21, 23], 24) == [21, 23, 24];
  }

  // ---- no hash breaks ----

  lemma HistoryBefore(p: nat)
    requires p >= 4 * MAX_VALUE
    ensures RunHistory(Chain(p), Reader(), 0, Preparations()) == History([], {}, {(2, 101, 1)})
  {
    var a := Preparations();
    assert a[..2][..1] == a[..1] && a[..1][..0] == [];
    assert RunHistory(Chain(p), Reader(), 0, []) == History([], {}, {});
    assert RunHistory(Chain(p), Reader(), 0, a[..1]) == History([], {}, {(2, 101, 1)});
    assert RunHistory(Chain(p), Reader(), 0, a[..2]) == History([], {}, {(2, 101, 1)});
  }

  /** The eight triples and four pairs hashed along the run. */
  function Triples(): set<(nat, nat, nat)> {
    {(2, 101, 1), (1, 1, 0), (3, 201, 21), (1, 2, 0), (2, 102, 0), (3, 202, 22), (2, 7, 0), (2, 8, 0)}
  }

  function Pairs(): set<(nat, nat)> { {(11, 5), (9, 1), (12, 6), (9, 2)} }

  lemma HistoryAfter(p: nat)
    ensures var hist := HistoryTx(Settings(p), History([], {}, {(2, 101, 1)}), Notes());
            hist.q3 == Triples() && hist.q2 == Pairs()
  {
    Digests();
    assert PathPairs(PairHash, 21, Notes().in1) == {} && PathPairs(PairHash, 22, Notes().in2) == {};
  }

  lemma PairsApart()
    ensures forall a, b | a in Pairs() && b in Pairs() && a != b :: PairHash(a.0, a.1) != PairHash(b.0, b.1)
  {
  }

  lemma TriplesApart()
    ensures forall a, b | a in Triples() && b in Triples() && a != b ::
              TripleHash(a.0, a.1, a.2) != TripleHash(b.0, b.1, b.2)
  {
  }

  lemma NoneBreak(p: nat, s: PoolState, spent: seq<InputNote>)
    ensures NoBreak(Settings(p), s, History(spent, Pairs(), Triples()))
  {
    PairsApart();
    TriplesApart();
  }

  lemma LastDeed(p: nat)
    requires p >= 4 * MAX_VALUE
    requires Run(Chain(p), 0, Preparations()) == Before()
    ensures Run(Chain(p), 0, Deeds()) == TxStep(Chain(p), Before(), Doomed(), Conditions())
    ensures RunHistory(Chain(p), Reader(), 0, Deeds())
         == HistoryStep(Chain(p), Reader(), Before(), RunHistory(Chain(p), Reader(), 0, Preparations()),
                        PoolTx(Doomed(), Conditions()))
  {
    DeedsSplit();
  }

  lemma HistoryEnd(p: nat, hist: History, tx: Tx)
    requires Accepted(Chain(p), Before(), tx, Conditions()) && tx.frames != [] && hist == History([], {}, {(2, 101, 1)})
    ensures var after := HistoryStep(Chain(p), Reader(), Before(), hist, PoolTx(tx, Conditions()));
            after.q2 == Pairs() && after.q3 == Triples()
  {
    HistoryAfter(p);
  }

  lemma RunSound(p: nat)
    requires Prime(p) && p >= 4 * MAX_VALUE
    ensures Sound(Chain(p), Reader(), 0, Deeds())
  {
    var sys := Chain(p);
    ChainOk(p);
    ProofsSound(p);
    BeforeSpend(p);
    LastDeed(p);
    DoomedAccepted(p);
    HistoryBefore(p);
    HistoryEnd(p, History([], {}, {(2, 101, 1)}), Doomed());
    NoneBreak(p, Run(sys, 0, Deeds()).pool, RunHistory(sys, Reader(), 0, Deeds()).spent);
  }

  lemma OneWei(tx: Tx)
    requires tx.maxCost == 1
    ensures GasCost(tx, Conditions()) == 1
  {
  }

  /** The assumptions of the safety theorems, a run that meets them with an accepted
      sponsored spend, and a sponsor one wei poorer: its spend found no room to settle. */
  lemma SponsorLoses(p: nat)
    requires Prime(p) && p >= 4 * MAX_VALUE
    ensures Sound(Chain(p), Reader(), 0, Deeds())
    ensures var w := Run(Chain(p), 0, Preparations());
            && Accepted(Chain(p), w, Doomed(), Conditions()) && PayerOf(Chain(p), Doomed()) == Chain(p).paymaster
            && Doomed().frames != [] && SettleError(Chain(p), w, Doomed(), Conditions()) == Some(TreeFull)
            && PayerWealth(Chain(p), Run(Chain(p), 0, Deeds())) == PayerWealth(Chain(p), w) - 1
  {
    RunSound(p);
    BeforeSpend(p);
    DoomedAccepted(p);
    NoRoom(p, Doomed());
    DeedsSplit();
    SponsoredLast(Chain(p), Reader(), 0, Deeds(), Before(), Doomed(), Conditions());
    OneWei(Doomed());
  }
}
