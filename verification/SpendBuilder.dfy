/** Building a spend (`devnet/pool_frametx.py`): calldata, frames, keys, reference and
    signature -- and that the result is exactly what the on-chain checks accept. */
module SpendBuilder {
  import opened Wrappers
  import opened Powers
  import opened Bytes
  import opened PoolSpec
  import opened Envelope
  import opened Dispatcher
  import opened FrameTx
  import opened Rlp
  import Field

  // ---- calldata ----

  function SpendWords(s: Spend): seq<nat> {
    [s.root, s.domain, s.nf1, s.nf2, s.outCm1, s.outCm2, s.publicAmount, s.fee, s.ctx] + s.proof
  }

  function Call(selector: nat, words: seq<nat>): seq<Byte> {
    ToBE(selector, 4) + Words(words)
  }

  predicate WordsFit(s: Spend) {
    |s.proof| == 8 && forall k: nat | k < |SpendWords(s)| :: SpendWords(s)[k] < WORD
  }

  lemma OneMoreByte(x: nat, y: nat, z: nat)
    ensures (x * y + z) * 256 == x * (256 * y) + z * 256
  {
  }

  /** Reading past the first `a` bytes of a number. */
  lemma {:induction false} ReadSplit(data: seq<Byte>, off: nat, a: nat, b: nat)
    ensures ReadBE(data, off, a + b) == ReadBE(data, off, a) * Pow256(b) + ReadBE(data, off + a, b)
    decreases b
  {
    if b == 0 {
    } else {
      ReadSplit(data, off, a, b - 1);
      OneMoreByte(ReadBE(data, off, a), Pow256(b - 1), ReadBE(data, off + a, b - 1));
      assert ReadBE(data, off, a + b)
          == ReadBE(data, off, a + (b - 1)) * 256 + (if off + a + b - 1 < |data| then data[off + a + b - 1] else 0);
    }
  }

  lemma QuotientOf(q: nat, d: nat, r: nat)
    requires r < d
    ensures (q * d + r) / d == q
  {
    var a := q * d + r;
    var k := a / d - q;
    assert k * d == r - a % d by {
      Field.DivMod(a, d);
      calc { k * d; (a / d) * d - q * d; }
    }
    Field.DivMod(a, d);
    Field.MultipleGrows(k, d);
  }

  lemma SelectorRead(selector: nat, rest: seq<Byte>, a: nat, b: nat)
    requires a == 4 && b == 28 && selector < Pow256(a)
    ensures Selector(ToBE(selector, a) + rest) == selector
  {
    var data := ToBE(selector, a) + rest;
    assert data[0..a] == ToBE(selector, a);
    ReadBack(data, 0, selector, a);
    ReadSplit(data, 0, a, b);
    ReadBEBound(data, a, b);
    Pow256Values(b);
    QuotientOf(selector, SELECTOR_SHIFT, ReadBE(data, a, b));
  }

  lemma CallWord(selector: nat, s: Spend, more: seq<nat>, k: nat, off: nat)
    requires WordsFit(s) && k < 17 && off == 4 + 32 * k
    ensures WordAt(Call(selector, SpendWords(s) + more), off) == SpendWords(s)[k]
  {
    var ws := SpendWords(s) + more;
    assert ws[k] == SpendWords(s)[k];
    TableRead(ToBE(selector, 4), ws, k);
  }

  lemma CallProof(selector: nat, s: Spend, more: seq<nat>)
    requires WordsFit(s)
    ensures SpendOf(Call(selector, SpendWords(s) + more)).proof == s.proof
  {
    var got := SpendOf(Call(selector, SpendWords(s) + more)).proof;
    forall i: nat | i < 8 ensures got[i] == s.proof[i] {
      CallWord(selector, s, more, i + 9, 292 + 32 * i);
    }
  }

  /** Calldata decodes to the spend it was built from, with any words behind it. */
  lemma CallRoundTrip(selector: nat, s: Spend, more: seq<nat>)
    requires WordsFit(s)
    ensures SpendOf(Call(selector, SpendWords(s) + more)) == s
  {
    CallWord(selector, s, more, 0, 4);
    CallWord(selector, s, more, 1, 36);
    CallWord(selector, s, more, 2, 68);
    CallWord(selector, s, more, 3, 100);
    CallWord(selector, s, more, 4, 132);
    CallWord(selector, s, more, 5, 164);
    CallWord(selector, s, more, 6, 196);
    CallWord(selector, s, more, 7, 228);
    CallWord(selector, s, more, 8, 260);
    CallProof(selector, s, more);
  }

  function TransferCall(s: Spend): seq<Byte> { Call(TRANSFER, SpendWords(s)) }

  function WithdrawCall(s: Spend, recipient: nat): seq<Byte> { Call(WITHDRAW, SpendWords(s) + [recipient]) }

  function Carrier(s: Spend): seq<Byte> { Call(VERIFY_PROOF_ONLY, SpendWords(s)) }

  function SettleCall(s: Spend, recipient: Option<nat>): seq<Byte> {
    match recipient case None => TransferCall(s) case Some(r) => WithdrawCall(s, r)
  }

  lemma TransferReads(s: Spend)
    requires WordsFit(s)
    ensures var d := TransferCall(s); |d| == 548 && Selector(d) == TRANSFER && SpendOf(d) == s
    ensures var d := Carrier(s); |d| == 548 && Selector(d) == VERIFY_PROOF_ONLY && SpendOf(d) == s
  {
    assert SpendWords(s) + [] == SpendWords(s);
    CallRoundTrip(TRANSFER, s, []);
    CallRoundTrip(VERIFY_PROOF_ONLY, s, []);
    Pow256Values(4);
    SelectorRead(TRANSFER, Words(SpendWords(s)), 4, 28);
    SelectorRead(VERIFY_PROOF_ONLY, Words(SpendWords(s)), 4, 28);
  }

  lemma WithdrawReads(s: Spend, recipient: nat)
    requires WordsFit(s) && recipient < ADDRESS_SPACE
    ensures var d := WithdrawCall(s, recipient);
            |d| == 580 && Selector(d) == WITHDRAW && SpendOf(d) == s && RecipientOf(d) == recipient
  {
    var ws := SpendWords(s) + [recipient];
    CallRoundTrip(WITHDRAW, s, [recipient]);
    Pow256Values(4);
    SelectorRead(WITHDRAW, Words(ws), 4, 28);
    TableRead(ToBE(WITHDRAW, 4), ws, 17);
  }

  // ---- the builder ----

  /** What the builder is told: the spend, who receives a withdrawal, who pays (the pool
      itself unless a paymaster is named), the reference and the fee caps. */
  datatype Plan = Plan(chainId: nat, pool: nat, signer: nat, spend: Spend, recipient: Option<nat>,
                       paymaster: Option<nat>, source: nat, rootSlot: nat, maxPriorityFee: nat, maxFee: nat)

  function Shape(plan: Plan): seq<WireFrame> {
    (match plan.paymaster
     case None => [WireFrame(1, 3, Some(plan.pool), 350_000, 0, [])]
     case Some(pm) => [WireFrame(1, 2, Some(plan.pool), 300_000, 0, []),
                       WireFrame(1, 1, Some(pm), 100_000, 0, Carrier(plan.spend))])
    + [WireFrame(2, 0, Some(plan.pool), 10_000_000, 0, SettleCall(plan.spend, plan.recipient))]
  }

  predicate PlanOk(plan: Plan) {
    && WordsFit(plan.spend) && plan.source < WORD && plan.rootSlot < WORD64
    && (plan.recipient.Some? ==> plan.recipient.value < ADDRESS_SPACE)
  }

  function Built(plan: Plan, signature: seq<Byte>): WireTx
    requires plan.rootSlot < WORD64
  {
    WireTx(plan.chainId, [Low(plan.spend), High(plan.spend)], 0, plan.pool, Shape(plan),
           [FrameSig(0, plan.signer, [], signature)], plan.maxPriorityFee, plan.maxFee, 0, [],
           [EncodedRef(plan.source, plan.rootSlot, plan.spend.root)])
  }

  /** Frames are listed, the settle frame appended, the transaction made with an empty
      signature, and the real one put in its place.  `sign` signs the preimage's hash.
      Whatever the plan, the transaction is for its chain, from its pool, at its fee caps,
      with its nullifiers in order as keys, and signed by its signer over itself. */
  method Build(plan: Plan, sign: WireTx -> seq<Byte>) returns (tx: WireTx)
    requires plan.rootSlot < WORD64
    ensures tx == Built(plan, sign(Built(plan, [])))
    ensures tx.chainId == plan.chainId && tx.sender == plan.pool && tx.nonceSeq == 0
    ensures tx.maxPriorityFee == plan.maxPriorityFee && tx.maxFee == plan.maxFee
    ensures tx.maxBlobFee == 0 && tx.blobHashes == []
    ensures tx.nonceKeys == if plan.spend.nf1 <= plan.spend.nf2 then [plan.spend.nf1, plan.spend.nf2]
                            else [plan.spend.nf2, plan.spend.nf1]
    ensures tx.signatures == [FrameSig(0, plan.signer, [], sign(tx.(signatures := [FrameSig(0, plan.signer, [], [])])))]
    ensures tx.recentRootRefs == [EncodedRef(plan.source, plan.rootSlot, plan.spend.root)]
    ensures tx.frames != []
    ensures tx.frames[|tx.frames| - 1] == WireFrame(2, 0, Some(plan.pool), 10_000_000, 0,
                                                    SettleCall(plan.spend, plan.recipient))
    ensures plan.paymaster == None ==>
              |tx.frames| == 2 && tx.frames[0] == WireFrame(1, 3, Some(plan.pool), 350_000, 0, [])
    ensures plan.paymaster.Some? ==>
              && |tx.frames| == 3 && tx.frames[0] == WireFrame(1, 2, Some(plan.pool), 300_000, 0, [])
              && tx.frames[1] == WireFrame(1, 1, plan.paymaster, 100_000, 0, Carrier(plan.spend))
  {
    var s := plan.spend;
    var nonceKeys := if s.nf1 <= s.nf2 then [s.nf1, s.nf2] else [s.nf2, s.nf1];
    var frames;
    if plan.paymaster == None {
      frames := [WireFrame(1, 3, Some(plan.pool), 350_000, 0, [])];
    } else {
      frames := [WireFrame(1, 2, Some(plan.pool), 300_000, 0, []),
                 WireFrame(1, 1, Some(plan.paymaster.value), 100_000, 0, Carrier(s))];
    }
    frames := frames + [WireFrame(2, 0, Some(plan.pool), 10_000_000, 0, SettleCall(s, plan.recipient))];
    var refs := [EncodedRef(plan.source, plan.rootSlot, s.root)];
    tx := WireTx(plan.chainId, nonceKeys, 0, plan.pool, frames, [FrameSig(0, plan.signer, [], [])],
                 plan.maxPriorityFee, plan.maxFee, 0, [], refs);
    var sig := sign(tx);
    tx := tx.(signatures := [FrameSig(0, plan.signer, [], sig)]);
  }

  lemma SameElided(plan: Plan, signature: seq<Byte>)
    requires plan.rootSlot < WORD64
    ensures Elided(Built(plan, signature)) == Elided(Built(plan, []))
  {
    assert Elided(Built(plan, signature)).signatures == Elided(Built(plan, [])).signatures;
  }

  /** Putting the signature in leaves the signed bytes as they were. */
  lemma SignatureStable(plan: Plan, signature: seq<Byte>)
    requires plan.rootSlot < WORD64 && Normal(Built(plan, [])) && Normal(Built(plan, signature))
    ensures Preimage(Built(plan, signature)) == Preimage(Built(plan, []))
  {
    SameElided(plan, signature);
    PreimagesAgree(Built(plan, signature), Built(plan, []));
  }

  // ---- every plan of ordinary size is normal ----

  /** Addresses are addresses, fees and chain id are words, the signature is short. */
  predicate Ordinary(plan: Plan, signature: seq<Byte>) {
    && plan.pool < ADDRESS_SPACE && plan.signer < ADDRESS_SPACE
    && (plan.paymaster.Some? ==> plan.paymaster.value < ADDRESS_SPACE)
    && plan.chainId < WORD && plan.maxPriorityFee < WORD && plan.maxFee < WORD && |signature| <= 1000
  }

  lemma NullifierFits(s: Spend)
    requires WordsFit(s)
    ensures Low(s) < WORD && High(s) < WORD
  {
    assert SpendWords(s)[2] == s.nf1 && SpendWords(s)[3] == s.nf2;
  }

  lemma ShortHead(plan: Plan, signature: seq<Byte>)
    requires PlanOk(plan) && Ordinary(plan, signature)
    ensures forall i: nat | i < 4 :: Short(HeadItems(Built(plan, signature))[i], 20_000)
  {
    var tx := Built(plan, signature);
    ShortInt(plan.chainId);
    ShortInt(0);
    ShortStr(ToBE(plan.pool, 20), 20);
    NullifierFits(plan.spend);
    ShortInt(Low(plan.spend));
    ShortInt(High(plan.spend));
    ShortList(Ints(tx.nonceKeys), 41, 82);
  }

  /** The spend has the shape its settlement call demands. */
  predicate SpendShape(s: Spend, recipient: Option<nat>) {
    match recipient
    case None => s.publicAmount == 0 && s.ctx == 0
    case Some(r) => s.publicAmount != 0 && r != 0 && s.ctx == r
  }

  lemma SettleCallShape(s: Spend, recipient: Option<nat>)
    requires WordsFit(s) && (recipient.Some? ==> recipient.value < ADDRESS_SPACE)
    ensures var d := SettleCall(s, recipient);
            && SpendOf(d) == s && (TransferData(d) || WithdrawData(d) <==> SpendShape(s, recipient))
            && (if recipient.Some? then |d| == 580 && Selector(d) == WITHDRAW && RecipientOf(d) == recipient.value
                else |d| == 548 && Selector(d) == TRANSFER)
  {
    match recipient
    case None => TransferReads(s);
    case Some(r) => WithdrawReads(s, r);
  }

  lemma ShortFrames(plan: Plan)
    requires PlanOk(plan)
    ensures Short(List(Frames(Shape(plan))), 3 * 3663 + 9)
  {
    var frames := Shape(plan);
    SettleCallShape(plan.spend, plan.recipient);
    TransferReads(plan.spend);
    forall i: nat | i < |frames| ensures Short(Frames(frames)[i], 3663) {
      ShortFrame(frames[i], 600);
    }
    ShortList(Frames(frames), 3663, 3 * 3663);
  }

  lemma ShortSigs(sig: FrameSig, elide: bool)
    requires sig.scheme < WORD && |sig.msg| <= 1000 && |sig.signature| <= 1000
    ensures Short(List(Sigs([sig], elide)), 4054)
  {
    ShortSig(sig, elide, 1000);
    ShortList(Sigs([sig], elide), 4045, 4045);
  }

  lemma ShortMiddle(plan: Plan, signature: seq<Byte>, elide: bool)
    requires PlanOk(plan) && Ordinary(plan, signature)
    ensures forall i: nat | i < 4 :: Short(MiddleItems(Built(plan, signature), elide)[i], 20_000)
  {
    ShortFrames(plan);
    ShortSigs(FrameSig(0, plan.signer, [], signature), elide);
    ShortInt(plan.maxPriorityFee);
    ShortInt(plan.maxFee);
  }

  lemma ShortTail(plan: Plan, signature: seq<Byte>)
    requires PlanOk(plan) && Ordinary(plan, signature)
    ensures forall i: nat | i < 3 :: Short(TailItems(Built(plan, signature))[i], 20_000)
  {
    var tx := Built(plan, signature);
    ShortInt(0);
    ShortList(Strs(tx.blobHashes), 0, 0);
    ShortRef(plan.source, plan.rootSlot, plan.spend.root);
    ShortList(Refs(tx.recentRootRefs), 132, 132);
  }

  lemma ShortParts(plan: Plan, signature: seq<Byte>, elide: bool)
    requires PlanOk(plan) && Ordinary(plan, signature)
    ensures ItemOk(TxItem(Built(plan, signature), elide))
  {
    var tx := Built(plan, signature);
    var items := HeadItems(tx) + MiddleItems(tx, elide) + TailItems(tx);
    ShortHead(plan, signature);
    ShortMiddle(plan, signature, elide);
    ShortTail(plan, signature);
    forall i: nat | i < |items| ensures Short(items[i], 20_000) {
      if i < 4 { assert items[i] == HeadItems(tx)[i]; }
      else if i < 8 { assert items[i] == MiddleItems(tx, elide)[i - 4]; }
      else { assert items[i] == TailItems(tx)[i - 8]; }
    }
    ShortList(items, 20_000, 220_000);
  }

  /** What the builder makes fits the wire: no size has to be checked by hand. */
  lemma BuiltNormal(plan: Plan, signature: seq<Byte>)
    requires PlanOk(plan) && Ordinary(plan, signature)
    ensures Normal(Built(plan, signature))
  {
    var tx := Built(plan, signature);
    ShortParts(plan, signature, false);
    ShortParts(plan, signature, true);
  }

  // ---- the on-chain checks on what was built ----

  function SeenShape(plan: Plan): seq<Frame> {
    (match plan.paymaster
     case None => [Frame(plan.pool, 350_000, 1, 3, 0, [])]
     case Some(pm) => [Frame(plan.pool, 300_000, 1, 2, 0, []), Frame(pm, 100_000, 1, 1, 0, Carrier(plan.spend))])
    + [Frame(plan.pool, 10_000_000, 2, 0, 0, SettleCall(plan.spend, plan.recipient))]
  }

  /** What the opcodes show of a built transaction. */
  ghost predicate Shows(plan: Plan, tx: Tx) {
    && tx.sender == plan.pool && tx.nonceSeq == 0 && tx.signatures == 1 && tx.blobs == 0
    && tx.nonceKeys == [Low(plan.spend), High(plan.spend)]
    && tx.refs == [RootRef(plan.source, plan.rootSlot, plan.spend.root)]
    && tx.frames == SeenShape(plan)
  }

  lemma ShapeSeen(plan: Plan)
    ensures SeenFrames(Shape(plan), plan.pool) == SeenShape(plan)
  {
  }

  lemma RootFits(s: Spend)
    requires WordsFit(s)
    ensures s.root < WORD
  {
    assert SpendWords(s)[0] == s.root;
  }

  lemma SeenBuilt(plan: Plan, signature: seq<Byte>)
    requires PlanOk(plan) && Normal(Built(plan, signature))
    ensures Shows(plan, Seen(Built(plan, signature)))
  {
    var tx := Built(plan, signature);
    RootFits(plan.spend);
    RefRoundTrip(plan.source, plan.rootSlot, plan.spend.root);
    ShapeSeen(plan);
    assert Seen(tx).refs == [RefOf(tx.recentRootRefs[0])];
  }

  lemma ShownShape(sys: System, plan: Plan, tx: Tx)
    requires PlanOk(plan) && Shows(plan, tx) && plan.pool == sys.cfg.self
    ensures TxSpend(tx) == plan.spend
    ensures SelfPayShape(sys.cfg.self, tx) <==> plan.paymaster == None && SpendShape(plan.spend, plan.recipient)
    ensures SponsoredShape(sys.cfg.self, tx) <==> plan.paymaster.Some? && SpendShape(plan.spend, plan.recipient)
  {
    SettleCallShape(plan.spend, plan.recipient);
  }

  lemma ShownApproved(sys: System, plan: Plan, tx: Tx)
    requires PlanOk(plan) && Shows(plan, tx) && plan.pool == sys.cfg.self && plan.source == sys.cfg.sourceId
    ensures Approvable(sys, tx, 0) <==>
              && ProofError(sys, plan.spend) == None && SpendShape(plan.spend, plan.recipient)
              && (plan.paymaster == None ==> plan.spend.fee >= tx.maxCost)
  {
    ShownShape(sys, plan, tx);
  }

  /** The builder meets frame 0 exactly: what it builds is approved if and only if the
      proof checks out over the tuple, the spend has its call's shape, and -- when the
      pool pays for itself -- the fee covers the transaction's maximum cost. */
  lemma BuiltApproved(sys: System, plan: Plan, signature: seq<Byte>)
    requires PlanOk(plan) && Normal(Built(plan, signature)) && plan.pool == sys.cfg.self
    requires plan.source == sys.cfg.sourceId
    ensures var tx := Built(plan, signature);
            Approvable(sys, Seen(tx), 0) <==>
              && ProofError(sys, plan.spend) == None && SpendShape(plan.spend, plan.recipient)
              && (plan.paymaster == None ==> plan.spend.fee >= MaxCost(tx))
  {
    SeenBuilt(plan, signature);
    ShownApproved(sys, plan, Seen(Built(plan, signature)));
  }

  lemma ShownPayable(sys: System, plan: Plan, tx: Tx)
    requires PlanOk(plan) && Shows(plan, tx) && plan.pool == sys.cfg.self && plan.source == sys.cfg.sourceId
    requires plan.paymaster == Some(sys.paymaster)
    ensures Payable(sys, tx, 1) <==> plan.spend.fee >= tx.maxCost
  {
    SettleCallShape(plan.spend, plan.recipient);
    TransferReads(plan.spend);
  }

  /** And the paymaster: it pays for what is built for it if and only if the fee covers
      the maximum cost. */
  lemma BuiltPayable(sys: System, plan: Plan, signature: seq<Byte>)
    requires PlanOk(plan) && Normal(Built(plan, signature)) && plan.pool == sys.cfg.self
    requires plan.source == sys.cfg.sourceId
    requires plan.paymaster == Some(sys.paymaster)
    ensures Payable(sys, Seen(Built(plan, signature)), 1) <==> plan.spend.fee >= MaxCost(Built(plan, signature))
  {
    SeenBuilt(plan, signature);
    ShownPayable(sys, plan, Seen(Built(plan, signature)));
  }
}
