/** The wire format from the reader's side (`devnet/frametx.py`): what a decoder that knows
    only the documented layout finds in the bytes, and what the gas formula charges for
    them.  The layout is section "Wire layout" of that file's heading. */
module Wire {
  import opened Wrappers
  import opened Powers
  import opened Bytes
  import opened Rlp
  import opened FrameTx
  import opened Envelope
  import opened SpendBuilder

  // ---- the shortest encoding ----

  /** A length takes no more bytes than any big-endian string that reads as it. */
  lemma MinimalIsShortest(data: seq<Byte>, off: nat, k: nat)
    ensures |Minimal(ReadBE(data, off, k))| <= k
  {
    var n := ReadBE(data, off, k);
    MinimalFits(n);
    ReadBEBound(data, off, k);
    if |Minimal(n)| > k { Pow256Mono(k, |Minimal(n)| - 1); }
  }

  lemma MinimalMono(a: nat, b: nat)
    requires a <= b
    ensures |Minimal(a)| <= |Minimal(b)|
  {
    MinimalFits(a);
    MinimalFits(b);
    if |Minimal(a)| > |Minimal(b)| { Pow256Mono(|Minimal(b)|, |Minimal(a)| - 1); }
  }

  lemma HeaderLengthMono(a: nat, b: nat)
    requires a <= b
    ensures HeaderLength(a) + a <= HeaderLength(b) + b
  {
    MinimalMono(a, b);
  }

  /** A prefix that was read takes at least the bytes this encoder would write. */
  lemma HeaderShortest(data: seq<Byte>)
    requires data != []
    ensures var h := ReadHeader(data);
            (!h.0 && h.1 == 0 && h.2 == 1 && data[0] < 0x80) || HeaderLength(h.2) <= h.1
  {
    var b := data[0];
    if 0xb8 <= b < 0xc0 { MinimalIsShortest(data, 1, b - 0xb7); }
    if 0xf8 <= b { MinimalIsShortest(data, 1, b - 0xf7); }
  }

  /** No byte string decodes to an item in fewer bytes than the encoder uses. */
  lemma {:induction false} ShortestEncoding(data: seq<Byte>, i: Item, n: nat)
    requires DecodeOne(data) == Some((i, n)) && ItemOk(i)
    ensures |Encode(i)| <= n
    decreases |data|, 0
  {
    var h := ReadHeader(data);
    var end := h.1 + h.2;
    HeaderShortest(data);
    match i
    case Str(b) => assert b == data[h.1..end];
    case List(items) =>
      ShortestAll(data[h.1..end], items);
      HeaderLengthMono(LengthAll(items), h.2);
  }

  lemma {:induction false} ShortestAll(data: seq<Byte>, items: seq<Item>)
    requires DecodeAll(data) == Some(items) && ItemsOk(items)
    ensures LengthAll(items) <= |data|
    decreases |data|, 1
  {
    if data == [] {
    } else {
      var item, n := DecodeOne(data).value.0, DecodeOne(data).value.1;
      var rest := DecodeAll(data[n..]).value;
      assert items == [item] + rest && items[0] == item && items[1..] == rest;
      ShortestEncoding(data, item, n);
      ShortestAll(data[n..], rest);
    }
  }

  // ---- what the bytes say ----

  /** A big-endian integer without leading zeros. */
  ghost predicate ReadsInt(i: Item, x: nat) {
    i.Str? && ReadBE(i.bytes, 0, |i.bytes|) == x && (i.bytes != [] ==> i.bytes[0] != 0)
  }

  ghost predicate ReadsAddress(i: Item, a: nat) { i.Str? && |i.bytes| == 20 && ReadBE(i.bytes, 0, 20) == a }

  /** `[mode, flags, target_or_empty, gas_limit, value, data]` */
  ghost predicate ReadsFrame(i: Item, f: WireFrame) {
    && i.List? && |i.items| == 6
    && ReadsInt(i.items[0], f.mode) && ReadsInt(i.items[1], f.flags)
    && (match f.target case None => i.items[2] == Str([]) case Some(a) => ReadsAddress(i.items[2], a))
    && ReadsInt(i.items[3], f.gasLimit) && ReadsInt(i.items[4], f.value) && i.items[5] == Str(f.data)
  }

  /** `[scheme, signer, msg, signature_bytes]` */
  ghost predicate ReadsSig(i: Item, s: FrameSig, signature: seq<Byte>) {
    && i.List? && |i.items| == 4
    && ReadsInt(i.items[0], s.scheme) && ReadsAddress(i.items[1], s.signer)
    && i.items[2] == Str(s.msg) && i.items[3] == Str(signature)
  }

  /** `[source_id, slot, root]`, the digests thirty-two bytes each. */
  ghost predicate ReadsRef(i: Item, source: nat, slot: nat, root: nat) {
    && i.List? && |i.items| == 3
    && i.items[0].Str? && |i.items[0].bytes| == 32 && WordAt(i.items[0].bytes, 0) == source
    && ReadsInt(i.items[1], slot)
    && i.items[2].Str? && |i.items[2].bytes| == 32 && WordAt(i.items[2].bytes, 0) == root
  }

  ghost predicate ReadsList<T(!new)>(i: Item, xs: seq<T>, stands: (Item, T) -> bool) {
    i.List? && |i.items| == |xs| && forall k: nat | k < |xs| :: stands(i.items[k], xs[k])
  }

  /** `[chain_id, nonce_keys, nonce_seq, sender, frames, signatures, max_priority_fee, max_fee,
      max_blob_fee, blob_hashes, recent_root_references]` */
  ghost predicate ReadsTx(i: Item, tx: WireTx, elide: bool) {
    && i.List? && |i.items| == 11
    && ReadsInt(i.items[0], tx.chainId)
    && ReadsList(i.items[1], tx.nonceKeys, (x, k) => ReadsInt(x, k))
    && ReadsInt(i.items[2], tx.nonceSeq) && ReadsAddress(i.items[3], tx.sender)
    && ReadsList(i.items[4], tx.frames, (x, f) => ReadsFrame(x, f))
    && ReadsList(i.items[5], tx.signatures,
                 (x, s: FrameSig) => ReadsSig(x, s, if elide && s.msg == [] then [] else s.signature))
    && ReadsInt(i.items[6], tx.maxPriorityFee) && ReadsInt(i.items[7], tx.maxFee) && ReadsInt(i.items[8], tx.maxBlobFee)
    && ReadsList(i.items[9], tx.blobHashes, (x, h) => x == Str(h))
    && ReadsList(i.items[10], tx.recentRootRefs, (x, r) => ItemOk(x) && Encode(x) == r)
  }

  /** A wire frame as FRAMEPARAM and FRAMEDATALOAD show it. */
  ghost predicate FrameSays(i: Item, f: Frame, sender: nat) {
    && i.List? && |i.items| == 6
    && ReadsInt(i.items[0], f.mode) && ReadsInt(i.items[1], f.flags)
    && (if i.items[2] == Str([]) then f.target == sender else ReadsAddress(i.items[2], f.target))
    && ReadsInt(i.items[3], f.gasLimit) && ReadsInt(i.items[4], f.value) && i.items[5] == Str(f.data)
  }

  lemma LeadingByte(data: seq<Byte>, n: nat)
    requires data != [] && ReadBE(data, 0, |data|) == n && n >= Pow256(|data| - 1)
    ensures data[0] != 0
  {
    ReadSplit(data, 0, 1, |data| - 1);
    ReadBEBound(data, 1, |data| - 1);
  }

  lemma IntReads(x: nat)
    ensures ReadsInt(IntItem(x), x)
  {
    MinimalReads(x);
    MinimalFits(x);
    if Minimal(x) != [] && x > 0 { LeadingByte(Minimal(x), x); }
  }

  lemma AddressReads(a: nat, k: nat)
    requires a < ADDRESS_SPACE && k == 20
    ensures ReadsAddress(Str(ToBE(a, k)), a)
  {
    Pow256Values(k);
    ReadBack(ToBE(a, k), 0, a, k);
  }

  lemma FrameReads(f: WireFrame)
    requires f.target.Some? ==> f.target.value < ADDRESS_SPACE
    ensures ReadsFrame(FrameItem(f), f)
  {
    IntReads(f.mode);
    IntReads(f.flags);
    IntReads(f.gasLimit);
    IntReads(f.value);
    if f.target.Some? { AddressReads(f.target.value, 20); }
  }

  lemma SigReads(s: FrameSig, elide: bool)
    requires s.signer < ADDRESS_SPACE
    ensures ReadsSig(SigItem(s, elide), s, if elide && s.msg == [] then [] else s.signature)
  {
    IntReads(s.scheme);
    AddressReads(s.signer, 20);
  }

  lemma ListsRead(tx: WireTx, elide: bool)
    requires Normal(tx)
    ensures ReadsList(List(Ints(tx.nonceKeys)), tx.nonceKeys, (x, k) => ReadsInt(x, k))
    ensures ReadsList(List(Frames(tx.frames)), tx.frames, (x, f) => ReadsFrame(x, f))
    ensures ReadsList(List(Sigs(tx.signatures, elide)), tx.signatures,
                      (x, s: FrameSig) => ReadsSig(x, s, if elide && s.msg == [] then [] else s.signature))
    ensures ReadsList(List(Strs(tx.blobHashes)), tx.blobHashes, (x, h) => x == Str(h))
    ensures ReadsList(List(Refs(tx.recentRootRefs)), tx.recentRootRefs, (x, r) => ItemOk(x) && Encode(x) == r)
  {
    forall k: nat | k < |tx.nonceKeys| ensures ReadsInt(Ints(tx.nonceKeys)[k], tx.nonceKeys[k]) {
      IntReads(tx.nonceKeys[k]);
    }
    forall k: nat | k < |tx.frames| ensures ReadsFrame(Frames(tx.frames)[k], tx.frames[k]) {
      FrameReads(tx.frames[k]);
    }
    forall k: nat | k < |tx.signatures|
      ensures var s := tx.signatures[k];
              ReadsSig(Sigs(tx.signatures, elide)[k], s, if elide && s.msg == [] then [] else s.signature)
    {
      SigReads(tx.signatures[k], elide);
    }
    forall k: nat | k < |tx.recentRootRefs|
      ensures ItemOk(Refs(tx.recentRootRefs)[k]) && Encode(Refs(tx.recentRootRefs)[k]) == tx.recentRootRefs[k]
    {
      assert IsEncoding(tx.recentRootRefs[k]);
    }
  }

  lemma ItemReads(tx: WireTx, elide: bool)
    requires Normal(tx)
    ensures ReadsTx(TxItem(tx, elide), tx, elide)
  {
    IntReads(tx.chainId);
    IntReads(tx.nonceSeq);
    IntReads(tx.maxPriorityFee);
    IntReads(tx.maxFee);
    IntReads(tx.maxBlobFee);
    AddressReads(tx.sender, 20);
    ListsRead(tx, elide);
  }

  lemma EnvelopeDecodes(tx: WireTx, elide: bool)
    requires Normal(tx)
    ensures DecodeOne(EnvelopeRlp(tx, elide)) == Some((TxItem(tx, elide), |EnvelopeRlp(tx, elide)|))
  {
    assert EnvelopeRlp(tx, elide) + [] == EnvelopeRlp(tx, elide);
    DecodeEncode(TxItem(tx, elide), []);
  }

  /** The raw transaction: type byte 6, then one list of eleven items in the documented
      order, each of which reads back as its field, to the last byte. */
  lemma RawReads(tx: WireTx)
    requires Normal(tx)
    ensures Raw(tx)[0] == 0x06
    ensures match DecodeOne(Raw(tx)[1..])
            case None => false
            case Some((i, n)) => 1 + n == |Raw(tx)| && ReadsTx(i, tx, false)
  {
    assert Raw(tx)[1..] == EnvelopeRlp(tx, false);
    EnvelopeDecodes(tx, false);
    ItemReads(tx, false);
  }

  /** The signed bytes: the same, with the bytes of own-hash signatures empty. */
  lemma PreimageReads(tx: WireTx)
    requires Normal(tx)
    ensures Preimage(tx)[0] == 0x06
    ensures match DecodeOne(Preimage(tx)[1..])
            case None => false
            case Some((i, n)) => 1 + n == |Preimage(tx)| && ReadsTx(i, tx, true)
  {
    assert Preimage(tx)[1..] == EnvelopeRlp(tx, true);
    EnvelopeDecodes(tx, true);
    ItemReads(tx, true);
  }

  lemma BlobFactor(blobs: nat, fee: nat)
    ensures blobs * 131_072 * fee == 131_072 * (blobs * fee)
  {
  }

  /** The most a transaction can cost: its gas limit at the fee cap, and 131,072 blob gas for
      each blob at the blob fee cap. */
  lemma MaxCostIs(tx: WireTx)
    requires Normal(tx)
    ensures MaxCost(tx) == tx.maxFee * TotalGasLimit(tx) + 131_072 * (|tx.blobHashes| * tx.maxBlobFee)
  {
    BlobFactor(|tx.blobHashes|, tx.maxBlobFee);
  }

  /** The opcodes show what the bytes say: sender, sequence, counts, and every frame -- one
      without a target being the sender's own. */
  lemma OpcodesSee(tx: WireTx)
    requires Normal(tx)
    ensures match DecodeOne(Raw(tx)[1..])
            case None => false
            case Some((i, _)) =>
              var seen := Seen(tx);
              && i.List? && |i.items| == 11
              && ReadsInt(i.items[2], seen.nonceSeq) && ReadsAddress(i.items[3], seen.sender)
              && ReadsList(i.items[1], seen.nonceKeys, (x, k) => ReadsInt(x, k))
              && ReadsList(i.items[4], seen.frames, (x, f) => FrameSays(x, f, seen.sender))
              && i.items[5].List? && |i.items[5].items| == seen.signatures
              && i.items[9].List? && |i.items[9].items| == seen.blobs
              && i.items[10].List? && |i.items[10].items| == |seen.refs|
              && seen.maxCost == tx.maxFee * TotalGasLimit(tx) + 131_072 * (seen.blobs * tx.maxBlobFee)
  {
    RawReads(tx);
    MaxCostIs(tx);
    var i, seen := DecodeOne(Raw(tx)[1..]).value.0, Seen(tx);
    forall k: nat | k < |seen.frames| ensures FrameSays(i.items[4].items[k], seen.frames[k], seen.sender) {
      assert ReadsFrame(i.items[4].items[k], tx.frames[k]);
    }
  }

  // ---- what the builder signs ----

  lemma RefReads(i: Item, source: nat, slot: nat, root: nat)
    requires source < WORD && root < WORD && slot < WORD64 && ItemOk(i) && Encode(i) == EncodedRef(source, slot, root)
    ensures ReadsRef(i, source, slot, root)
  {
    RefPartsOk(source, slot, root);
    EncodeInjective(i, List(RefParts(source, slot, root)));
    WordBack(source, 32);
    WordBack(root, 32);
    IntReads(slot);
  }

  /** What the signed bytes of a spend must say, from the plan alone: its chain, pool, fee
      caps and signer, the two nullifiers in order, sequence zero, no blobs, the reference,
      and nothing in place of the signature. */
  ghost predicate SaysPlan(i: Item, plan: Plan) {
    && i.List? && |i.items| == 11
    && ReadsInt(i.items[0], plan.chainId)
    && i.items[1].List? && |i.items[1].items| == 2
    && (if plan.spend.nf1 <= plan.spend.nf2
        then ReadsInt(i.items[1].items[0], plan.spend.nf1) && ReadsInt(i.items[1].items[1], plan.spend.nf2)
        else ReadsInt(i.items[1].items[0], plan.spend.nf2) && ReadsInt(i.items[1].items[1], plan.spend.nf1))
    && ReadsInt(i.items[2], 0) && ReadsAddress(i.items[3], plan.pool)
    && i.items[5].List? && |i.items[5].items| == 1
    && ReadsSig(i.items[5].items[0], FrameSig(0, plan.signer, [], []), [])
    && ReadsInt(i.items[6], plan.maxPriorityFee) && ReadsInt(i.items[7], plan.maxFee)
    && ReadsInt(i.items[8], 0) && i.items[9] == List([])
    && i.items[10].List? && |i.items[10].items| == 1
    && ReadsRef(i.items[10].items[0], plan.source, plan.rootSlot, plan.spend.root)
  }

  lemma BuiltSays(plan: Plan, signature: seq<Byte>, i: Item)
    requires PlanOk(plan) && ReadsTx(i, Built(plan, signature), true)
    ensures SaysPlan(i, plan)
  {
    var tx := Built(plan, signature);
    var keys, sig, ref := i.items[1].items, i.items[5].items[0], i.items[10].items[0];
    assert ReadsInt(keys[0], tx.nonceKeys[0]) && ReadsInt(keys[1], tx.nonceKeys[1]);
    assert ReadsSig(sig, tx.signatures[0], []);
    RootFits(plan.spend);
    RefReads(ref, plan.source, plan.rootSlot, plan.spend.root);
  }

  /** The bytes a built spend's signature is over say what the plan says. */
  lemma SignedFields(plan: Plan, signature: seq<Byte>)
    requires PlanOk(plan) && Normal(Built(plan, signature))
    ensures match DecodeOne(Preimage(Built(plan, signature))[1..])
            case None => false
            case Some((i, _)) => SaysPlan(i, plan)
  {
    PreimageReads(Built(plan, signature));
    BuiltSays(plan, signature, DecodeOne(Preimage(Built(plan, signature))[1..]).value.0);
  }

  // ---- what the gas formula charges for ----

  /** Sixteen gas a byte, four for a zero one. */
  ghost function Price(b: seq<Byte>): int { 16 * |b| - 12 * multiset(b)[0] }

  lemma PriceSplit(a: seq<Byte>, b: seq<Byte>)
    ensures Price(a + b) == Price(a) + Price(b)
  {
    assert multiset(a + b) == multiset(a) + multiset(b);
  }

  function Schemes(sigs: seq<FrameSig>): seq<nat> {
    seq(|sigs|, i requires 0 <= i < |sigs| => sigs[i].scheme)
  }

  /** 2,800 gas for each secp256k1 signature, 6,700 for each P256 one. */
  lemma {:induction false} SignatureCharge(sigs: seq<FrameSig>)
    ensures SignatureGas(sigs) == 2800 * multiset(Schemes(sigs))[0] + 6700 * multiset(Schemes(sigs))[1]
  {
    if sigs == [] {
    } else {
      SignatureCharge(sigs[1..]);
      assert Schemes(sigs) == [sigs[0].scheme] + Schemes(sigs[1..]);
    }
  }

  /** The gas limits of the frames, added up from the last one. */
  function FrameGas(frames: seq<WireFrame>): nat {
    if frames == [] then 0 else FrameGas(frames[..|frames| - 1]) + frames[|frames| - 1].gasLimit
  }

  lemma {:induction false} SumGasSplit(a: seq<WireFrame>, f: WireFrame)
    ensures SumGas(a + [f]) == SumGas(a) + f.gasLimit
  {
    if a == [] {
      assert a + [f] == [f] && [f][1..] == [];
    } else {
      SumGasSplit(a[1..], f);
      assert (a + [f])[1..] == a[1..] + [f];
    }
  }

  lemma {:induction false} SumsAgree(frames: seq<WireFrame>)
    ensures SumGas(frames) == FrameGas(frames)
  {
    if frames == [] {
    } else {
      var init, last := frames[..|frames| - 1], frames[|frames| - 1];
      SumsAgree(init);
      SumGasSplit(init, last);
      assert frames == init + [last];
    }
  }

  lemma EnvelopeItems(tx: WireTx)
    requires Normal(tx)
    ensures var items := TxItem(tx, false).items;
            && |items| == 11 && ItemOk(items[4]) && ItemOk(items[5]) && ItemOk(items[10])
            && PricedBytes(tx) == Encode(items[4]) + Encode(items[5])
                                  + (if tx.recentRootRefs == [] then [] else Encode(items[10]))
  {
    assert ItemOk(TxItem(tx, false));
    TxParts(tx, false);
    var items := TxItem(tx, false).items;
    assert items[4] == List(Frames(tx.frames)) && items[5] == List(Sigs(tx.signatures, false));
    assert items[10] == List(Refs(tx.recentRootRefs));
  }

  /** The gas limit from the bytes on the wire: the base, 475 a frame and its own limit, the
      signatures, the references, and the price of items 4 and 5 of the raw transaction --
      its frames and its signatures, whole -- and of item 10, the references, if any. */
  lemma GasOfTheBytes(tx: WireTx)
    requires Normal(tx)
    ensures match DecodeOne(Raw(tx)[1..])
            case None => false
            case Some((i, _)) =>
              && i.List? && |i.items| == 11 && ItemOk(i.items[4]) && ItemOk(i.items[5]) && ItemOk(i.items[10])
              && TotalGasLimit(tx)
                 == 15_000 + 475 * |tx.frames| + FrameGas(tx.frames)
                    + 2800 * multiset(Schemes(tx.signatures))[0] + 6700 * multiset(Schemes(tx.signatures))[1]
                    + Price(Encode(i.items[4])) + Price(Encode(i.items[5]))
                    + (if tx.recentRootRefs == [] then 0
                       else 2400 + 2002 * |tx.recentRootRefs| + Price(Encode(i.items[10])))
  {
    assert Raw(tx)[1..] == EnvelopeRlp(tx, false);
    EnvelopeDecodes(tx, false);
    EnvelopeItems(tx);
    GasLimitExact(tx);
    SignatureCharge(tx.signatures);
    SumsAgree(tx.frames);
    var items := TxItem(tx, false).items;
    PriceSplit(Encode(items[4]), Encode(items[5]));
    PriceSplit(Encode(items[4]) + Encode(items[5]), if tx.recentRootRefs == [] then [] else Encode(items[10]));
  }

  lemma FrameGasAppend(frames: seq<WireFrame>, f: WireFrame)
    ensures FrameGas(frames + [f]) == FrameGas(frames) + f.gasLimit
  {
    assert (frames + [f])[..|frames|] == frames;
  }

  lemma TwoFrames(f: WireFrame, g: WireFrame)
    ensures FrameGas([f, g]) == f.gasLimit + g.gasLimit
  {
    FrameGasAppend([], f);
    FrameGasAppend([f], g);
    assert [] + [f] == [f] && [f] + [g] == [f, g];
  }

  lemma ThreeFrames(f: WireFrame, g: WireFrame, h: WireFrame)
    ensures FrameGas([f, g, h]) == f.gasLimit + g.gasLimit + h.gasLimit
  {
    TwoFrames(f, g);
    FrameGasAppend([f, g], h);
    assert [f, g] + [h] == [f, g, h];
  }

  lemma BuiltCharges(plan: Plan, signature: seq<Byte>)
    requires plan.rootSlot < WORD64
    ensures var tx := Built(plan, signature);
            && 15_000 + 475 * |tx.frames| + FrameGas(tx.frames)
               + 2800 * multiset(Schemes(tx.signatures))[0] + 6700 * multiset(Schemes(tx.signatures))[1] + 2400 + 2002
               == (if plan.paymaster == None then 10_373_152 else 10_423_627)
            && |tx.recentRootRefs| == 1 && tx.blobHashes == []
  {
    var tx := Built(plan, signature);
    assert Schemes(tx.signatures) == [0];
    if plan.paymaster == None {
      TwoFrames(tx.frames[0], tx.frames[1]);
      assert tx.frames == [tx.frames[0], tx.frames[1]];
    } else {
      ThreeFrames(tx.frames[0], tx.frames[1], tx.frames[2]);
      assert tx.frames == [tx.frames[0], tx.frames[1], tx.frames[2]];
    }
  }

  /** What the builder's transactions cost: for two frames 10,373,152 gas and for three
      10,423,627, and the price of the frames, the signature and the reference. */
  lemma BuiltGas(plan: Plan, signature: seq<Byte>)
    requires PlanOk(plan) && Normal(Built(plan, signature))
    ensures MaxCost(Built(plan, signature)) == plan.maxFee * TotalGasLimit(Built(plan, signature))
    ensures match DecodeOne(Raw(Built(plan, signature))[1..])
            case None => false
            case Some((i, _)) =>
              && i.List? && |i.items| == 11 && ItemOk(i.items[4]) && ItemOk(i.items[5]) && ItemOk(i.items[10])
              && TotalGasLimit(Built(plan, signature))
                 == (if plan.paymaster == None then 10_373_152 else 10_423_627)
                    + Price(Encode(i.items[4])) + Price(Encode(i.items[5])) + Price(Encode(i.items[10]))
  {
    GasOfTheBytes(Built(plan, signature));
    MaxCostIs(Built(plan, signature));
    BuiltCharges(plan, signature);
  }

  // ---- what one more signature byte costs ----

  ghost function PrefixPrice(short: nat, n: nat): int
    requires Writable(short, n) && (short == 0x80 || short == 0xc0)
  {
    Price(Header(short, n))
  }

  /** A string's prefix; a single small byte has none. */
  ghost function StringPrefix(b: seq<Byte>): int
    requires |b| < WORD64
  {
    ShortIsWritable(|b|);
    if |b| == 1 && b[0] < 0x80 then 0 else PrefixPrice(0x80, |b|)
  }

  ghost function ListPrefix(items: seq<Item>): int
    requires LengthAll(items) < WORD64
  {
    ShortIsWritable(LengthAll(items));
    PrefixPrice(0xc0, LengthAll(items))
  }

  lemma StringPrice(b: seq<Byte>)
    requires |b| < WORD64
    ensures Price(Encode(Str(b))) == StringPrefix(b) + Price(b)
  {
    ShortIsWritable(|b|);
    PriceSplit(Header(0x80, |b|), b);
  }

  lemma ListPrice(items: seq<Item>)
    requires ItemOk(List(items))
    ensures Price(Encode(List(items))) == ListPrefix(items) + Price(EncodeAll(items))
  {
    ShortIsWritable(LengthAll(items));
    PriceSplit(Header(0xc0, LengthAll(items)), EncodeAll(items));
  }

  lemma HeadPrice(items: seq<Item>)
    requires items != [] && ItemsOk(items)
    ensures Price(EncodeAll(items)) == Price(Encode(items[0])) + Price(EncodeAll(items[1..]))
  {
    PriceSplit(Encode(items[0]), EncodeAll(items[1..]));
  }

  lemma {:induction false} LengthReplaced(items: seq<Item>, k: nat, x: Item)
    requires k < |items|
    ensures LengthAll(items[k := x]) == LengthAll(items) - Length(items[k]) + Length(x)
  {
    var after := items[k := x];
    if k == 0 {
      assert after[1..] == items[1..];
    } else {
      LengthReplaced(items[1..], k - 1, x);
      assert after[1..] == items[1..][k - 1 := x];
    }
  }

  /** Replacing one item of a list moves the price of its payload by that item's. */
  lemma {:induction false} ItemReplaced(items: seq<Item>, k: nat, x: Item)
    requires k < |items| && ItemsOk(items) && ItemOk(x)
    ensures ItemsOk(items[k := x])
    ensures Price(EncodeAll(items[k := x])) == Price(EncodeAll(items)) - Price(Encode(items[k])) + Price(Encode(x))
  {
    var after := items[k := x];
    HeadPrice(items);
    HeadPrice(after);
    if k == 0 {
      assert after[1..] == items[1..];
    } else {
      ItemReplaced(items[1..], k - 1, x);
      assert after[1..] == items[1..][k - 1 := x];
    }
  }

  /** `tx` with one more byte at the end of signature `k`. */
  function Longer(tx: WireTx, k: nat, b: Byte): WireTx
    requires k < |tx.signatures|
  {
    var s := tx.signatures[k];
    tx.(signatures := tx.signatures[k := s.(signature := s.signature + [b])])
  }

  /** The whole list's price moves by the item's and by its own prefix's. */
  lemma ListReplaced(items: seq<Item>, k: nat, x: Item)
    requires k < |items| && ItemOk(List(items)) && ItemOk(items[k]) && ItemOk(x) && ItemOk(List(items[k := x]))
    ensures Price(Encode(List(items[k := x]))) - Price(Encode(List(items)))
         == Price(Encode(x)) - Price(Encode(items[k])) + ListPrefix(items[k := x]) - ListPrefix(items)
  {
    ItemReplaced(items, k, x);
    ListPrice(items);
    ListPrice(items[k := x]);
  }

  lemma LongerStringPrice(a: seq<Byte>, b: Byte)
    requires |a + [b]| < WORD64 && b != 0
    ensures Price(Encode(Str(a + [b]))) - Price(Encode(Str(a))) == 16 + StringPrefix(a + [b]) - StringPrefix(a)
  {
    StringPrice(a);
    StringPrice(a + [b]);
    PriceSplit(a, [b]);
  }

  lemma SigParted(s: FrameSig)
    requires ItemOk(SigItem(s, false))
    ensures var items := SigItem(s, false).items;
            |items| == 4 && items[3] == Str(s.signature) && |s.signature| < WORD64 && LengthAll(items) < WORD64
  {
    ListOk(SigItem(s, false).items);
    assert SigItem(s, false).items[3] == Str(s.signature);
  }

  lemma LongerSig(s: FrameSig, b: Byte)
    requires ItemOk(SigItem(s, false)) && ItemOk(SigItem(s.(signature := s.signature + [b]), false)) && b != 0
    ensures var t := s.(signature := s.signature + [b]);
            && |s.signature| < WORD64 && |t.signature| < WORD64
            && LengthAll(SigItem(s, false).items) < WORD64 && LengthAll(SigItem(t, false).items) < WORD64
            && Price(Encode(SigItem(t, false))) - Price(Encode(SigItem(s, false)))
               == 16 + StringPrefix(t.signature) - StringPrefix(s.signature)
                  + ListPrefix(SigItem(t, false).items) - ListPrefix(SigItem(s, false).items)
  {
    var t := s.(signature := s.signature + [b]);
    SigParted(s);
    SigParted(t);
    assert SigItem(t, false).items == SigItem(s, false).items[3 := Str(t.signature)];
    ListReplaced(SigItem(s, false).items, 3, Str(t.signature));
    LongerStringPrice(s.signature, b);
  }

  lemma LongerSigs(tx: WireTx, k: nat, b: Byte)
    requires k < |tx.signatures|
    ensures var tx' := Longer(tx, k, b);
            && Sigs(tx'.signatures, false) == Sigs(tx.signatures, false)[k := SigItem(tx'.signatures[k], false)]
            && Sigs(tx.signatures, false)[k] == SigItem(tx.signatures[k], false)
            && Schemes(tx'.signatures) == Schemes(tx.signatures)
  {
  }

  /** Only the signature list's bytes change, so only their price does. */
  lemma LongerGas(tx: WireTx, k: nat, b: Byte)
    requires k < |tx.signatures| && Normal(tx) && Normal(Longer(tx, k, b))
    ensures ItemOk(List(Sigs(tx.signatures, false))) && ItemOk(List(Sigs(Longer(tx, k, b).signatures, false)))
    ensures var before, after := List(Sigs(tx.signatures, false)), List(Sigs(Longer(tx, k, b).signatures, false));
            TotalGasLimit(Longer(tx, k, b)) - TotalGasLimit(tx) == Price(Encode(after)) - Price(Encode(before))
  {
    var tx' := Longer(tx, k, b);
    assert ItemOk(TxItem(tx, false)) && ItemOk(TxItem(tx', false));
    TxParts(tx, false);
    TxParts(tx', false);
    LongerSigs(tx, k, b);
    SignatureCharge(tx.signatures);
    SignatureCharge(tx'.signatures);
    CalldataGasExact(SigsRlp(tx.signatures, false));
    CalldataGasExact(SigsRlp(tx'.signatures, false));
  }

  /** What one more nonzero byte at the end of a signature costs, exactly: sixteen gas, and
      whatever the prefixes of the string, its signature and the signature list rise by. */
  lemma SignatureByte(tx: WireTx, k: nat, b: Byte)
    requires k < |tx.signatures| && Normal(tx) && Normal(Longer(tx, k, b)) && b != 0
    ensures var s, t := tx.signatures[k], Longer(tx, k, b).signatures[k];
            var all, after := Sigs(tx.signatures, false), Sigs(Longer(tx, k, b).signatures, false);
            && |s.signature| < WORD64 && |t.signature| < WORD64 && LengthAll(all) < WORD64 && LengthAll(after) < WORD64
            && LengthAll(SigItem(s, false).items) < WORD64 && LengthAll(SigItem(t, false).items) < WORD64
            && TotalGasLimit(Longer(tx, k, b)) - TotalGasLimit(tx)
               == 16 + StringPrefix(t.signature) - StringPrefix(s.signature)
                  + ListPrefix(SigItem(t, false).items) - ListPrefix(SigItem(s, false).items)
                  + ListPrefix(after) - ListPrefix(all)
  {
    var s, t := tx.signatures[k], Longer(tx, k, b).signatures[k];
    var all, after := Sigs(tx.signatures, false), Sigs(Longer(tx, k, b).signatures, false);
    LongerGas(tx, k, b);
    LongerSigs(tx, k, b);
    ListOk(all);
    ListOk(after);
    assert after[k] == SigItem(t, false);
    LongerSig(s, b);
    ListReplaced(all, k, SigItem(t, false));
  }

  lemma SmallMinimal(n: nat)
    requires 0 < n < 256
    ensures Minimal(n) == [n]
  {
    MinimalFits(n);
    MinimalReads(n);
    var m := Minimal(n);
    assert |m| == 1;
    assert ReadBE(m, 0, 1) == m[0];
  }

  lemma NoZeros(x: Byte, y: Byte)
    requires x != 0 && y != 0
    ensures Price([x]) == 16 && Price([x, y]) == 32
  {
  }

  lemma SmallPrefix(short: nat, n: nat)
    requires (short == 0x80 || short == 0xc0) && n < 256
    ensures Writable(short, n) && PrefixPrice(short, n) == if n < 56 then 16 else 32
  {
    ShortIsWritable(n);
    if n < 56 {
      NoZeros(short + n, 1);
    } else {
      SmallMinimal(n);
      assert Header(short, n) == [short + 56, n];
      NoZeros(short + 56, n);
    }
  }

  lemma {:induction false} PartWithin(items: seq<Item>, k: nat)
    requires k < |items|
    ensures Length(items[k]) <= LengthAll(items)
  {
    if k > 0 { PartWithin(items[1..], k - 1); }
  }

  lemma SignatureWithin(s: FrameSig)
    ensures |s.signature| <= Length(Str(s.signature)) <= LengthAll(SigItem(s, false).items) <= Length(SigItem(s, false))
  {
    PartWithin(SigItem(s, false).items, 3);
  }

  lemma PrefixesRise(s: FrameSig, t: FrameSig, all: seq<Item>, after: seq<Item>)
    requires LengthAll(SigItem(s, false).items) <= LengthAll(SigItem(t, false).items) <= LengthAll(after) < 256
    requires LengthAll(all) <= LengthAll(after) && |s.signature| < |t.signature| <= LengthAll(SigItem(t, false).items)
    ensures ListPrefix(SigItem(t, false).items) >= ListPrefix(SigItem(s, false).items)
    ensures ListPrefix(after) >= ListPrefix(all)
    ensures StringPrefix(t.signature) == (if |t.signature| == 1 && t.signature[0] < 0x80 then 0
                                          else if |t.signature| < 56 then 16 else 32)
    ensures StringPrefix(s.signature) == (if |s.signature| == 1 && s.signature[0] < 0x80 then 0
                                          else if |s.signature| < 56 then 16 else 32)
  {
    SmallPrefix(0xc0, LengthAll(SigItem(s, false).items));
    SmallPrefix(0xc0, LengthAll(SigItem(t, false).items));
    SmallPrefix(0xc0, LengthAll(all));
    SmallPrefix(0xc0, LengthAll(after));
    SmallPrefix(0x80, |s.signature|);
    SmallPrefix(0x80, |t.signature|);
  }

  lemma LongerString(a: seq<Byte>, b: Byte)
    ensures Length(Str(a)) <= Length(Str(a + [b]))
    ensures a == [] && b < 0x80 ==> Length(Str(a)) == Length(Str(a + [b]))
  {
    MinimalMono(|a|, |a + [b]|);
  }

  /** A list grows with any of its items. */
  lemma ItemGrows(items: seq<Item>, k: nat, x: Item)
    requires k < |items| && ItemsOk(items) && ItemOk(x) && Length(items[k]) <= Length(x)
    ensures LengthAll(items) <= LengthAll(items[k := x]) && Length(List(items)) <= Length(List(items[k := x]))
    ensures Length(items[k]) == Length(x) ==>
              LengthAll(items) == LengthAll(items[k := x]) && Length(List(items)) == Length(List(items[k := x]))
  {
    LengthReplaced(items, k, x);
    HeaderLengthMono(LengthAll(items), LengthAll(items[k := x]));
  }

  lemma SignatureItem(s: FrameSig, b: Byte)
    requires ItemOk(SigItem(s, false)) && ItemOk(SigItem(s.(signature := s.signature + [b]), false))
    ensures var i, j := SigItem(s, false), SigItem(s.(signature := s.signature + [b]), false);
            && LengthAll(i.items) <= LengthAll(j.items) && Length(i) <= Length(j)
            && (s.signature == [] && b < 0x80 ==> LengthAll(i.items) == LengthAll(j.items) && Length(i) == Length(j))
  {
    var i, j := SigItem(s, false), SigItem(s.(signature := s.signature + [b]), false);
    ListOk(i.items);
    ListOk(j.items);
    assert i.items[3] == Str(s.signature) && j.items[3] == Str(s.signature + [b]);
    LongerString(s.signature, b);
    ItemGrows(i.items, 3, j.items[3]);
    assert j.items == i.items[3 := j.items[3]];
  }

  /** The signature list grows with its signatures. */
  lemma SignatureLengths(tx: WireTx, k: nat, b: Byte)
    requires k < |tx.signatures|
    requires ItemOk(List(Sigs(tx.signatures, false))) && ItemOk(List(Sigs(Longer(tx, k, b).signatures, false)))
    ensures var i, j := SigItem(tx.signatures[k], false), SigItem(Longer(tx, k, b).signatures[k], false);
            var all, after := Sigs(tx.signatures, false), Sigs(Longer(tx, k, b).signatures, false);
            && LengthAll(i.items) <= LengthAll(j.items) && LengthAll(all) <= LengthAll(after)
            && (tx.signatures[k].signature == [] && b < 0x80 ==>
                  LengthAll(i.items) == LengthAll(j.items) && LengthAll(all) == LengthAll(after))
  {
    var all, after := Sigs(tx.signatures, false), Sigs(Longer(tx, k, b).signatures, false);
    LongerSigs(tx, k, b);
    ListOk(all);
    ListOk(after);
    assert all[k] == SigItem(tx.signatures[k], false) && after[k] == SigItem(Longer(tx, k, b).signatures[k], false);
    SignatureItem(tx.signatures[k], b);
    ItemGrows(all, k, after[k]);
  }

  /** While the signatures take fewer than 256 bytes, one more nonzero signature byte costs at
      least sixteen gas -- unless it is the first and below 0x80: that one is written without
      a prefix, in place of the empty string's, and costs nothing. */
  lemma SignatureByteCharge(tx: WireTx, k: nat, b: Byte)
    requires k < |tx.signatures| && Normal(tx) && Normal(Longer(tx, k, b)) && b != 0
    requires LengthAll(Sigs(Longer(tx, k, b).signatures, false)) < 256
    ensures TotalGasLimit(Longer(tx, k, b)) - TotalGasLimit(tx) >= 16 <==> tx.signatures[k].signature != [] || b >= 0x80
    ensures tx.signatures[k].signature == [] && b < 0x80 ==> TotalGasLimit(Longer(tx, k, b)) == TotalGasLimit(tx)
  {
    var s, t := tx.signatures[k], Longer(tx, k, b).signatures[k];
    var all, after := Sigs(tx.signatures, false), Sigs(Longer(tx, k, b).signatures, false);
    SignatureByte(tx, k, b);
    LongerSigs(tx, k, b);
    LongerGas(tx, k, b);
    SignatureWithin(s);
    SignatureWithin(t);
    PartWithin(after, k);
    assert after[k] == SigItem(t, false);
    SignatureLengths(tx, k, b);
    PrefixesRise(s, t, all, after);
  }
}
