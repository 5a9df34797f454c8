/** Frame transactions on the wire (`devnet/frametx.py`): the encoding, the signing
    preimage, the gas formula, and what the introspection opcodes show of them. */
module FrameTx {
  import opened Wrappers
  import opened Powers
  import opened Bytes
  import opened Rlp
  import E = Envelope

  /** `target` may be empty on the wire; addresses are integers. */
  datatype WireFrame = WireFrame(mode: nat, flags: nat, target: Option<nat>, gasLimit: nat, value: nat, data: seq<Byte>)

  datatype FrameSig = FrameSig(scheme: nat, signer: nat, msg: seq<Byte>, signature: seq<Byte>)

  /** Recent-root references arrive already encoded. */
  datatype WireTx = WireTx(chainId: nat, nonceKeys: seq<nat>, nonceSeq: nat, sender: nat, frames: seq<WireFrame>,
                           signatures: seq<FrameSig>, maxPriorityFee: nat, maxFee: nat, maxBlobFee: nat,
                           blobHashes: seq<seq<Byte>>, recentRootRefs: seq<seq<Byte>>)

  // ---- as items ----

  function IntItem(x: nat): Item { Str(Minimal(x)) }

  function AddressItem(a: nat): Item { Str(ToBE(a, 20)) }

  function FrameItem(f: WireFrame): Item {
    List([IntItem(f.mode), IntItem(f.flags), if f.target.Some? then AddressItem(f.target.value) else Str([]),
          IntItem(f.gasLimit), IntItem(f.value), Str(f.data)])
  }

  function SigItem(s: FrameSig, elide: bool): Item {
    var sig := if elide && |s.msg| == 0 then [] else s.signature;
    List([IntItem(s.scheme), AddressItem(s.signer), Str(s.msg), Str(sig)])
  }

  /** The item a pre-encoded reference stands for. */
  function RefItem(r: seq<Byte>): Item {
    match DecodeOne(r) case Some((item, _)) => item case None => Str([])
  }

  predicate IsEncoding(r: seq<Byte>) {
    ItemOk(RefItem(r)) && Encode(RefItem(r)) == r
  }

  function Ints(xs: seq<nat>): seq<Item> { seq(|xs|, i requires 0 <= i < |xs| => IntItem(xs[i])) }

  function Frames(fs: seq<WireFrame>): seq<Item> { seq(|fs|, i requires 0 <= i < |fs| => FrameItem(fs[i])) }

  function Sigs(ss: seq<FrameSig>, elide: bool): seq<Item> {
    seq(|ss|, i requires 0 <= i < |ss| => SigItem(ss[i], elide))
  }

  function Strs(bs: seq<seq<Byte>>): seq<Item> { seq(|bs|, i requires 0 <= i < |bs| => Str(bs[i])) }

  function Refs(rs: seq<seq<Byte>>): seq<Item> { seq(|rs|, i requires 0 <= i < |rs| => RefItem(rs[i])) }

  function HeadItems(tx: WireTx): seq<Item> {
    [IntItem(tx.chainId), List(Ints(tx.nonceKeys)), IntItem(tx.nonceSeq), AddressItem(tx.sender)]
  }

  function MiddleItems(tx: WireTx, elide: bool): seq<Item> {
    [List(Frames(tx.frames)), List(Sigs(tx.signatures, elide)), IntItem(tx.maxPriorityFee), IntItem(tx.maxFee)]
  }

  function TailItems(tx: WireTx): seq<Item> {
    [IntItem(tx.maxBlobFee), List(Strs(tx.blobHashes)), List(Refs(tx.recentRootRefs))]
  }

  function TxItem(tx: WireTx, elide: bool): Item {
    List(HeadItems(tx) + MiddleItems(tx, elide) + TailItems(tx))
  }

  /** A transaction the encoder takes without an overflow, whose references really are
      encodings. */
  predicate Normal(tx: WireTx) {
    && tx.sender < ADDRESS_SPACE
    && (forall i: nat | i < |tx.frames| :: tx.frames[i].target.Some? ==> tx.frames[i].target.value < ADDRESS_SPACE)
    && (forall i: nat | i < |tx.signatures| :: tx.signatures[i].signer < ADDRESS_SPACE)
    && (forall i: nat | i < |tx.recentRootRefs| :: IsEncoding(tx.recentRootRefs[i]))
    && ItemOk(TxItem(tx, false)) && ItemOk(TxItem(tx, true))
  }

  // ---- the encoder, as the source writes it ----

  function Encodings(items: seq<Item>): seq<seq<Byte>>
    requires ItemsOk(items)
  {
    seq(|items|, i requires 0 <= i < |items| => Encode(items[i]))
  }

  lemma {:induction false} JoinEncodings(items: seq<Item>)
    requires ItemsOk(items)
    ensures Join(Encodings(items)) == EncodeAll(items)
    decreases |items|
  {
    if items == [] {
    } else {
      JoinEncodings(items[1..]);
      assert Encodings(items)[1..] == Encodings(items[1..]);
    }
  }

  /** A list of encoded items is the encoding of the list. */
  lemma ListEncodes(items: seq<Item>)
    requires ItemOk(List(items))
    ensures |Join(Encodings(items))| < WORD64 && RlpList(Encodings(items)) == Encode(List(items))
  {
    JoinEncodings(items);
  }

  lemma ListOk(items: seq<Item>)
    requires ItemOk(List(items))
    ensures forall i: nat | i < |items| :: ItemOk(items[i])
  {
  }

  lemma FrameParts(f: WireFrame)
    requires ItemOk(FrameItem(f))
    ensures ItemOk(IntItem(f.mode)) && ItemOk(IntItem(f.flags)) && ItemOk(IntItem(f.gasLimit))
    ensures ItemOk(IntItem(f.value))
    ensures ItemOk(Str(f.data))
  {
    var items := FrameItem(f).items;
    ListOk(items);
    assert items[0] == IntItem(f.mode) && items[1] == IntItem(f.flags) && items[3] == IntItem(f.gasLimit);
    assert items[4] == IntItem(f.value) && items[5] == Str(f.data);
  }

  function FrameRlp(f: WireFrame): (r: seq<Byte>)
    requires ItemOk(FrameItem(f))
    ensures r == Encode(FrameItem(f))
  {
    var items := FrameItem(f).items;
    FrameParts(f);
    ListEncodes(items);
    var tgt := if f.target.Some? then RlpBytes(ToBE(f.target.value, 20)) else RlpBytes([]);
    var parts := [RlpInt(f.mode), RlpInt(f.flags), tgt, RlpInt(f.gasLimit), RlpInt(f.value), RlpBytes(f.data)];
    assert parts == Encodings(items);
    RlpList(parts)
  }

  lemma SigParts(s: FrameSig, elide: bool)
    requires ItemOk(SigItem(s, elide))
    ensures ItemOk(IntItem(s.scheme)) && ItemOk(Str(s.msg))
    ensures ItemOk(Str(if elide && |s.msg| == 0 then [] else s.signature))
  {
    var items := SigItem(s, elide).items;
    ListOk(items);
    assert items[0] == IntItem(s.scheme) && items[2] == Str(s.msg);
    assert items[3] == Str(if elide && |s.msg| == 0 then [] else s.signature);
  }

  /** Elision drops the bytes of signatures over the transaction's own hash. */
  function SigRlp(s: FrameSig, elide: bool): (r: seq<Byte>)
    requires ItemOk(SigItem(s, elide))
    ensures r == Encode(SigItem(s, elide))
  {
    var items := SigItem(s, elide).items;
    SigParts(s, elide);
    ListEncodes(items);
    var sig := if elide && |s.msg| == 0 then [] else s.signature;
    var parts := [RlpInt(s.scheme), RlpBytes(ToBE(s.signer, 20)), RlpBytes(s.msg), RlpBytes(sig)];
    assert parts == Encodings(items);
    RlpList(parts)
  }

  function IntsRlp(xs: seq<nat>): (r: seq<Byte>)
    requires ItemOk(List(Ints(xs)))
    ensures r == Encode(List(Ints(xs)))
  {
    ListEncodes(Ints(xs));
    ListOk(Ints(xs));
    assert forall i: nat | i < |xs| :: Ints(xs)[i] == IntItem(xs[i]);
    var parts := seq(|xs|, i requires 0 <= i < |xs| => RlpInt(xs[i]));
    assert parts == Encodings(Ints(xs));
    RlpList(parts)
  }

  function FramesRlp(fs: seq<WireFrame>): (r: seq<Byte>)
    requires ItemOk(List(Frames(fs)))
    ensures r == Encode(List(Frames(fs)))
  {
    ListEncodes(Frames(fs));
    ListOk(Frames(fs));
    assert forall i: nat | i < |fs| :: Frames(fs)[i] == FrameItem(fs[i]);
    var parts := seq(|fs|, i requires 0 <= i < |fs| => FrameRlp(fs[i]));
    assert parts == Encodings(Frames(fs));
    RlpList(parts)
  }

  function SigsRlp(ss: seq<FrameSig>, elide: bool): (r: seq<Byte>)
    requires ItemOk(List(Sigs(ss, elide)))
    ensures r == Encode(List(Sigs(ss, elide)))
  {
    ListEncodes(Sigs(ss, elide));
    ListOk(Sigs(ss, elide));
    assert forall i: nat | i < |ss| :: Sigs(ss, elide)[i] == SigItem(ss[i], elide);
    var parts := seq(|ss|, i requires 0 <= i < |ss| => SigRlp(ss[i], elide));
    assert parts == Encodings(Sigs(ss, elide));
    RlpList(parts)
  }

  function HashesRlp(hs: seq<seq<Byte>>): (r: seq<Byte>)
    requires ItemOk(List(Strs(hs)))
    ensures r == Encode(List(Strs(hs)))
  {
    ListEncodes(Strs(hs));
    ListOk(Strs(hs));
    assert forall i: nat | i < |hs| :: Strs(hs)[i] == Str(hs[i]);
    var parts := seq(|hs|, i requires 0 <= i < |hs| => RlpBytes(hs[i]));
    assert parts == Encodings(Strs(hs));
    RlpList(parts)
  }

  lemma RefEncodings(rs: seq<seq<Byte>>)
    requires ItemsOk(Refs(rs)) && forall i: nat | i < |rs| :: IsEncoding(rs[i])
    ensures rs == Encodings(Refs(rs))
  {
  }

  /** References are already encoded, so they are only joined. */
  function RefsRlp(rs: seq<seq<Byte>>): (r: seq<Byte>)
    requires ItemOk(List(Refs(rs))) && forall i: nat | i < |rs| :: IsEncoding(rs[i])
    ensures r == Encode(List(Refs(rs)))
  {
    ListEncodes(Refs(rs));
    RefEncodings(rs);
    RlpList(rs)
  }

  lemma TxParts(tx: WireTx, elide: bool)
    requires ItemOk(TxItem(tx, elide))
    ensures ItemOk(IntItem(tx.chainId)) && ItemOk(List(Ints(tx.nonceKeys))) && ItemOk(IntItem(tx.nonceSeq))
    ensures ItemOk(List(Frames(tx.frames))) && ItemOk(List(Sigs(tx.signatures, elide)))
    ensures ItemOk(IntItem(tx.maxPriorityFee)) && ItemOk(IntItem(tx.maxFee)) && ItemOk(IntItem(tx.maxBlobFee))
    ensures ItemOk(List(Strs(tx.blobHashes))) && ItemOk(List(Refs(tx.recentRootRefs)))
  {
    var items := TxItem(tx, elide).items;
    ListOk(items);
    assert items[0] == IntItem(tx.chainId) && items[1] == List(Ints(tx.nonceKeys)) && items[2] == IntItem(tx.nonceSeq);
    assert items[4] == List(Frames(tx.frames)) && items[5] == List(Sigs(tx.signatures, elide));
    assert items[6] == IntItem(tx.maxPriorityFee) && items[7] == IntItem(tx.maxFee)
      && items[8] == IntItem(tx.maxBlobFee);
    assert items[9] == List(Strs(tx.blobHashes)) && items[10] == List(Refs(tx.recentRootRefs));
  }

  /** `_envelope`: the integers between the lists encoded before. */
  function EnvelopeParts(tx: WireTx, keys: seq<Byte>, frames: seq<Byte>, sigs: seq<Byte>, hashes: seq<Byte>,
                         refs: seq<Byte>): seq<seq<Byte>>
    requires ItemOk(IntItem(tx.chainId)) && ItemOk(IntItem(tx.nonceSeq))
    requires ItemOk(IntItem(tx.maxPriorityFee)) && ItemOk(IntItem(tx.maxFee)) && ItemOk(IntItem(tx.maxBlobFee))
  {
    [RlpInt(tx.chainId), keys, RlpInt(tx.nonceSeq), RlpBytes(ToBE(tx.sender, 20)), frames, sigs,
     RlpInt(tx.maxPriorityFee), RlpInt(tx.maxFee), RlpInt(tx.maxBlobFee), hashes, refs]
  }

  lemma IntEncodes(x: nat)
    requires ItemOk(IntItem(x))
    ensures RlpInt(x) == Encode(IntItem(x))
  {
  }

  lemma AddressEncodes(a: nat)
    ensures ItemOk(AddressItem(a)) && RlpBytes(ToBE(a, 20)) == Encode(AddressItem(a))
  {
  }

  lemma EncodingsSplit(a: seq<Item>, b: seq<Item>)
    requires ItemsOk(a) && ItemsOk(b)
    ensures ItemsOk(a + b) && Encodings(a + b) == Encodings(a) + Encodings(b)
  {
  }

  lemma EncodingAt(items: seq<Item>, i: nat, part: seq<Byte>)
    requires i < |items| && ItemOk(items[i]) && ItemsOk(items) && part == Encode(items[i])
    ensures Encodings(items)[i] == part
  {
  }

  lemma HeadEncodes(tx: WireTx, keys: seq<Byte>)
    requires ItemOk(IntItem(tx.chainId)) && ItemOk(IntItem(tx.nonceSeq))
    requires ItemOk(List(Ints(tx.nonceKeys))) && keys == Encode(List(Ints(tx.nonceKeys)))
    ensures ItemsOk(HeadItems(tx))
    ensures [RlpInt(tx.chainId), keys, RlpInt(tx.nonceSeq), RlpBytes(ToBE(tx.sender, 20))] == Encodings(HeadItems(tx))
  {
    IntEncodes(tx.chainId);
    IntEncodes(tx.nonceSeq);
    AddressEncodes(tx.sender);
    var items := HeadItems(tx);
    EncodingAt(items, 0, RlpInt(tx.chainId));
    EncodingAt(items, 1, keys);
    EncodingAt(items, 2, RlpInt(tx.nonceSeq));
    EncodingAt(items, 3, RlpBytes(ToBE(tx.sender, 20)));
  }

  lemma MiddleEncodes(tx: WireTx, elide: bool, frames: seq<Byte>, sigs: seq<Byte>)
    requires ItemOk(IntItem(tx.maxPriorityFee)) && ItemOk(IntItem(tx.maxFee))
    requires ItemOk(List(Frames(tx.frames))) && frames == Encode(List(Frames(tx.frames)))
    requires ItemOk(List(Sigs(tx.signatures, elide))) && sigs == Encode(List(Sigs(tx.signatures, elide)))
    ensures ItemsOk(MiddleItems(tx, elide))
    ensures [frames, sigs, RlpInt(tx.maxPriorityFee), RlpInt(tx.maxFee)] == Encodings(MiddleItems(tx, elide))
  {
    IntEncodes(tx.maxPriorityFee);
    IntEncodes(tx.maxFee);
    var items := MiddleItems(tx, elide);
    EncodingAt(items, 0, frames);
    EncodingAt(items, 1, sigs);
    EncodingAt(items, 2, RlpInt(tx.maxPriorityFee));
    EncodingAt(items, 3, RlpInt(tx.maxFee));
  }

  lemma TailEncodes(tx: WireTx, hashes: seq<Byte>, refs: seq<Byte>)
    requires ItemOk(IntItem(tx.maxBlobFee))
    requires ItemOk(List(Strs(tx.blobHashes))) && hashes == Encode(List(Strs(tx.blobHashes)))
    requires ItemOk(List(Refs(tx.recentRootRefs))) && refs == Encode(List(Refs(tx.recentRootRefs)))
    ensures ItemsOk(TailItems(tx)) && [RlpInt(tx.maxBlobFee), hashes, refs] == Encodings(TailItems(tx))
  {
    IntEncodes(tx.maxBlobFee);
    var items := TailItems(tx);
    EncodingAt(items, 0, RlpInt(tx.maxBlobFee));
    EncodingAt(items, 1, hashes);
    EncodingAt(items, 2, refs);
  }

  lemma PartsEncode(tx: WireTx, elide: bool, keys: seq<Byte>, frames: seq<Byte>, sigs: seq<Byte>, hashes: seq<Byte>,
                    refs: seq<Byte>)
    requires ItemOk(IntItem(tx.chainId)) && ItemOk(IntItem(tx.nonceSeq))
    requires ItemOk(IntItem(tx.maxPriorityFee)) && ItemOk(IntItem(tx.maxFee)) && ItemOk(IntItem(tx.maxBlobFee))
    requires ItemsOk(HeadItems(tx)) && ItemsOk(MiddleItems(tx, elide)) && ItemsOk(TailItems(tx))
    requires [RlpInt(tx.chainId), keys, RlpInt(tx.nonceSeq), RlpBytes(ToBE(tx.sender, 20))] == Encodings(HeadItems(tx))
    requires [frames, sigs, RlpInt(tx.maxPriorityFee), RlpInt(tx.maxFee)] == Encodings(MiddleItems(tx, elide))
    requires [RlpInt(tx.maxBlobFee), hashes, refs] == Encodings(TailItems(tx))
    ensures var items := HeadItems(tx) + MiddleItems(tx, elide) + TailItems(tx);
            ItemsOk(items) && EnvelopeParts(tx, keys, frames, sigs, hashes, refs) == Encodings(items)
  {
    EncodingsSplit(HeadItems(tx), MiddleItems(tx, elide));
    EncodingsSplit(HeadItems(tx) + MiddleItems(tx, elide), TailItems(tx));
  }

  function EnvelopeRlp(tx: WireTx, elide: bool): (r: seq<Byte>)
    requires Normal(tx)
    ensures r == Encode(TxItem(tx, elide))
  {
    assert ItemOk(TxItem(tx, elide));
    TxParts(tx, elide);
    ListEncodes(TxItem(tx, elide).items);
    var keys, frames, sigs := IntsRlp(tx.nonceKeys), FramesRlp(tx.frames), SigsRlp(tx.signatures, elide);
    var hashes, refs := HashesRlp(tx.blobHashes), RefsRlp(tx.recentRootRefs);
    HeadEncodes(tx, keys);
    MiddleEncodes(tx, elide, frames, sigs);
    TailEncodes(tx, hashes, refs);
    PartsEncode(tx, elide, keys, frames, sigs, hashes, refs);
    RlpList(EnvelopeParts(tx, keys, frames, sigs, hashes, refs))
  }

  /** The raw transaction, and the bytes whose keccak is signed. */
  function Raw(tx: WireTx): seq<Byte>
    requires Normal(tx)
  {
    [0x06] + EnvelopeRlp(tx, false)
  }

  function Preimage(tx: WireTx): seq<Byte>
    requires Normal(tx)
  {
    [0x06] + EnvelopeRlp(tx, true)
  }

  // ---- injectivity ----

  lemma IntItemInjective(x: nat, y: nat)
    requires IntItem(x) == IntItem(y)
    ensures x == y
  {
    MinimalReads(x);
    MinimalReads(y);
  }

  lemma AddressInjective(a: nat, b: nat, k: nat)
    requires k == 20 && a < ADDRESS_SPACE && b < ADDRESS_SPACE && ToBE(a, k) == ToBE(b, k)
    ensures a == b
  {
    Pow256Values(k);
    ReadBack(ToBE(a, k), 0, a, k);
    ReadBack(ToBE(b, k), 0, b, k);
  }

  lemma FrameInjective(f: WireFrame, g: WireFrame)
    requires f.target.Some? ==> f.target.value < ADDRESS_SPACE
    requires g.target.Some? ==> g.target.value < ADDRESS_SPACE
    requires FrameItem(f) == FrameItem(g)
    ensures f == g
  {
    var a, b := FrameItem(f).items, FrameItem(g).items;
    assert a[0] == b[0] && a[1] == b[1] && a[2] == b[2] && a[3] == b[3] && a[4] == b[4] && a[5] == b[5];
    IntItemInjective(f.mode, g.mode);
    IntItemInjective(f.flags, g.flags);
    IntItemInjective(f.gasLimit, g.gasLimit);
    IntItemInjective(f.value, g.value);
    if f.target.Some? && g.target.Some? { AddressInjective(f.target.value, g.target.value, 20); }
  }

  lemma SigInjective(s: FrameSig, t: FrameSig)
    requires s.signer < ADDRESS_SPACE && t.signer < ADDRESS_SPACE && SigItem(s, false) == SigItem(t, false)
    ensures s == t
  {
    var a, b := SigItem(s, false).items, SigItem(t, false).items;
    assert a[0] == b[0] && a[1] == b[1] && a[2] == b[2] && a[3] == b[3];
    IntItemInjective(s.scheme, t.scheme);
    AddressInjective(s.signer, t.signer, 20);
  }

  /** The transaction as the signer sees it: own-hash signatures emptied. */
  function Elided(tx: WireTx): WireTx {
    tx.(signatures := seq(|tx.signatures|, i requires 0 <= i < |tx.signatures| =>
                          if |tx.signatures[i].msg| == 0 then tx.signatures[i].(signature := []) else tx.signatures[i]))
  }

  lemma ElidedItem(tx: WireTx)
    ensures TxItem(tx, true) == TxItem(Elided(tx), false)
  {
    assert Sigs(tx.signatures, true) == Sigs(Elided(tx).signatures, false);
  }

  ghost predicate Addressed(tx: WireTx) {
    && tx.sender < ADDRESS_SPACE
    && (forall i: nat | i < |tx.frames| :: tx.frames[i].target.Some? ==> tx.frames[i].target.value < ADDRESS_SPACE)
    && (forall i: nat | i < |tx.signatures| :: tx.signatures[i].signer < ADDRESS_SPACE)
    && (forall i: nat | i < |tx.recentRootRefs| :: IsEncoding(tx.recentRootRefs[i]))
  }

  lemma ListsInjective(a: WireTx, b: WireTx)
    requires Addressed(a) && Addressed(b)
    requires Ints(a.nonceKeys) == Ints(b.nonceKeys) && Frames(a.frames) == Frames(b.frames)
    requires Sigs(a.signatures, false) == Sigs(b.signatures, false)
    requires Strs(a.blobHashes) == Strs(b.blobHashes) && Refs(a.recentRootRefs) == Refs(b.recentRootRefs)
    ensures a.nonceKeys == b.nonceKeys && a.frames == b.frames && a.signatures == b.signatures
    ensures a.blobHashes == b.blobHashes && a.recentRootRefs == b.recentRootRefs
  {
    assert |Ints(a.nonceKeys)| == |Ints(b.nonceKeys)| && |Frames(a.frames)| == |Frames(b.frames)|;
    assert |Sigs(a.signatures, false)| == |Sigs(b.signatures, false)| && |Strs(a.blobHashes)| == |Strs(b.blobHashes)|;
    assert |Refs(a.recentRootRefs)| == |Refs(b.recentRootRefs)|;
    forall i: nat | i < |a.nonceKeys| ensures a.nonceKeys[i] == b.nonceKeys[i] {
      assert Ints(a.nonceKeys)[i] == Ints(b.nonceKeys)[i];
      IntItemInjective(a.nonceKeys[i], b.nonceKeys[i]);
    }
    forall i: nat | i < |a.frames| ensures a.frames[i] == b.frames[i] {
      assert Frames(a.frames)[i] == Frames(b.frames)[i];
      FrameInjective(a.frames[i], b.frames[i]);
    }
    forall i: nat | i < |a.signatures| ensures a.signatures[i] == b.signatures[i] {
      assert Sigs(a.signatures, false)[i] == Sigs(b.signatures, false)[i];
      SigInjective(a.signatures[i], b.signatures[i]);
    }
    forall i: nat | i < |a.blobHashes| ensures a.blobHashes[i] == b.blobHashes[i] {
      assert Strs(a.blobHashes)[i] == Strs(b.blobHashes)[i];
    }
    forall i: nat | i < |a.recentRootRefs| ensures a.recentRootRefs[i] == b.recentRootRefs[i] {
      assert Refs(a.recentRootRefs)[i] == Refs(b.recentRootRefs)[i];
      assert IsEncoding(a.recentRootRefs[i]) && IsEncoding(b.recentRootRefs[i]);
    }
  }

  lemma TxItemInjective(a: WireTx, b: WireTx)
    requires Addressed(a) && Addressed(b) && TxItem(a, false) == TxItem(b, false)
    ensures a == b
  {
    var s, t := TxItem(a, false).items, TxItem(b, false).items;
    assert s[0] == t[0] && s[1] == t[1] && s[2] == t[2] && s[3] == t[3] && s[4] == t[4] && s[5] == t[5];
    assert s[6] == t[6] && s[7] == t[7] && s[8] == t[8] && s[9] == t[9] && s[10] == t[10];
    IntItemInjective(a.chainId, b.chainId);
    IntItemInjective(a.nonceSeq, b.nonceSeq);
    IntItemInjective(a.maxPriorityFee, b.maxPriorityFee);
    IntItemInjective(a.maxFee, b.maxFee);
    IntItemInjective(a.maxBlobFee, b.maxBlobFee);
    AddressInjective(a.sender, b.sender, 20);
    ListsInjective(a, b);
  }

  /** The wire encoding determines the transaction. */
  lemma RawInjective(a: WireTx, b: WireTx)
    requires Normal(a) && Normal(b) && Raw(a) == Raw(b)
    ensures a == b
  {
    assert Raw(a)[1..] == EnvelopeRlp(a, false) && Raw(b)[1..] == EnvelopeRlp(b, false);
    EncodeInjective(TxItem(a, false), TxItem(b, false));
    TxItemInjective(a, b);
  }

  lemma SamePreimage(a: WireTx, b: WireTx)
    requires Normal(a) && Normal(b) && Preimage(a) == Preimage(b)
    ensures TxItem(a, true) == TxItem(b, true)
  {
    assert Preimage(a)[1..] == EnvelopeRlp(a, true) && Preimage(b)[1..] == EnvelopeRlp(b, true);
    EncodeInjective(TxItem(a, true), TxItem(b, true));
  }

  lemma ElidedAddressed(tx: WireTx)
    requires Normal(tx)
    ensures Addressed(Elided(tx))
  {
  }

  /** A signature covers everything but the elided signature bytes: two signing
      preimages agree exactly when the transactions agree once those are emptied. */
  lemma PreimagesAgree(a: WireTx, b: WireTx)
    requires Normal(a) && Normal(b)
    ensures Preimage(a) == Preimage(b) <==> Elided(a) == Elided(b)
  {
    ElidedItem(a);
    ElidedItem(b);
    ElidedAddressed(a);
    ElidedAddressed(b);
    if Preimage(a) == Preimage(b) {
      SamePreimage(a, b);
      TxItemInjective(Elided(a), Elided(b));
    }
  }

  // ---- gas ----

  function CalldataGas(encoded: seq<Byte>): nat {
    if encoded == [] then 0 else (if encoded[0] == 0 then 4 else 16) + CalldataGas(encoded[1..])
  }

  function SumGas(frames: seq<WireFrame>): nat {
    if frames == [] then 0 else frames[0].gasLimit + SumGas(frames[1..])
  }

  function SignatureGas(sigs: seq<FrameSig>): nat {
    if sigs == [] then 0
    else (if sigs[0].scheme == 0 then 2800 else if sigs[0].scheme == 1 then 6700 else 0) + SignatureGas(sigs[1..])
  }

  function TotalGasLimit(tx: WireTx): nat
    requires Normal(tx)
  {
    assert ItemOk(TxItem(tx, false));
    TxParts(tx, false);
    var refGas := if tx.recentRootRefs == [] then 0
                  else CalldataGas(RefsRlp(tx.recentRootRefs)) + 2400 + |tx.recentRootRefs| * 2002;
    15_000 + |tx.frames| * 475 + CalldataGas(FramesRlp(tx.frames)) + CalldataGas(SigsRlp(tx.signatures, false))
    + SignatureGas(tx.signatures) + SumGas(tx.frames) + refGas
  }

  function Cost(maxFee: nat, gas: nat, blobs: nat, maxBlobFee: nat): nat {
    maxFee * gas + blobs * 131_072 * maxBlobFee
  }

  function MaxCost(tx: WireTx): nat
    requires Normal(tx)
  {
    Cost(tx.maxFee, TotalGasLimit(tx), |tx.blobHashes|, tx.maxBlobFee)
  }

  /** Sixteen gas a byte, less twelve for each zero byte. */
  lemma {:induction false} CalldataGasExact(b: seq<Byte>)
    ensures CalldataGas(b) == 16 * |b| - 12 * multiset(b)[0]
  {
    if b == [] {
    } else {
      CalldataGasExact(b[1..]);
      assert b == [b[0]] + b[1..];
      assert multiset(b) == multiset{b[0]} + multiset(b[1..]);
    }
  }

  /** The bytes the gas formula prices: frames, signatures and, if any, references. */
  function PricedBytes(tx: WireTx): seq<Byte>
    requires Normal(tx)
  {
    assert ItemOk(TxItem(tx, false));
    TxParts(tx, false);
    FramesRlp(tx.frames) + SigsRlp(tx.signatures, false)
      + (if tx.recentRootRefs == [] then [] else RefsRlp(tx.recentRootRefs))
  }

  /** What does not depend on the bytes: the base, each frame, signature and reference, and
      the frames' own gas. */
  function FixedGas(tx: WireTx): nat {
    15_000 + |tx.frames| * 475 + SignatureGas(tx.signatures) + SumGas(tx.frames)
    + (if tx.recentRootRefs == [] then 0 else 2400 + |tx.recentRootRefs| * 2002)
  }

  /** The gas limit is the fixed charges, every frame's gas, and sixteen a priced byte less
      twelve for each zero one. */
  lemma GasLimitExact(tx: WireTx)
    requires Normal(tx)
    ensures var bytes := PricedBytes(tx); TotalGasLimit(tx) == FixedGas(tx) + 16 * |bytes| - 12 * multiset(bytes)[0]
  {
    assert ItemOk(TxItem(tx, false));
    TxParts(tx, false);
    CalldataGasExact(FramesRlp(tx.frames));
    CalldataGasExact(SigsRlp(tx.signatures, false));
    if tx.recentRootRefs != [] { CalldataGasExact(RefsRlp(tx.recentRootRefs)); }
  }

  // ---- references ----

  /** The last lines of `recent_root_ref`. */
  function RefParts(source: nat, slot: nat, root: nat): seq<Item> {
    [Str(ToBE(source, 32)), IntItem(slot), Str(ToBE(root, 32))]
  }

  lemma SmallTriple(a: seq<Byte>, b: seq<Byte>, c: seq<Byte>)
    requires |a| <= 32 && |b| <= 32 && |c| <= 32
    ensures ItemOk(List([Str(a), Str(b), Str(c)]))
  {
    var items := [Str(a), Str(b), Str(c)];
    assert items[1..] == [Str(b), Str(c)] && items[1..][1..] == [Str(c)] && items[1..][1..][1..] == [];
    assert Length(Str(a)) <= 33 && Length(Str(b)) <= 33 && Length(Str(c)) <= 33;
    assert LengthAll([Str(c)]) == Length(Str(c)) + LengthAll([]);
    assert LengthAll([Str(b), Str(c)]) == Length(Str(b)) + LengthAll([Str(c)]);
  }

  lemma RefPartsOk(source: nat, slot: nat, root: nat)
    requires slot < WORD64
    ensures ItemOk(List(RefParts(source, slot, root)))
  {
    EightBytes(slot);
    SmallTriple(ToBE(source, 32), Minimal(slot), ToBE(root, 32));
  }

  lemma RefEncoding(items: seq<Item>)
    requires ItemOk(List(items))
    ensures var r := Encode(List(items)); IsEncoding(r) && RefItem(r) == List(items)
  {
    assert Encode(List(items)) + [] == Encode(List(items));
    DecodeEncode(List(items), []);
  }

  function EncodedRef(source: nat, slot: nat, root: nat): (r: seq<Byte>)
    requires slot < WORD64
    ensures IsEncoding(r) && RefItem(r) == List(RefParts(source, slot, root))
  {
    RefPartsOk(source, slot, root);
    ListEncodes(RefParts(source, slot, root));
    RefEncoding(RefParts(source, slot, root));
    Encode(List(RefParts(source, slot, root)))
  }

  /** A reference as the opcode reads it out of its encoding. */
  function RefOf(r: seq<Byte>): E.RootRef {
    match RefItem(r)
    case List(items) =>
      if |items| == 3 && items[0].Str? && items[1].Str? && items[2].Str? then
        E.RootRef(ReadBE(items[0].bytes, 0, |items[0].bytes|), ReadBE(items[1].bytes, 0, |items[1].bytes|),
                  ReadBE(items[2].bytes, 0, |items[2].bytes|))
      else E.RootRef(0, 0, 0)
    case Str(_) => E.RootRef(0, 0, 0)
  }

  lemma WordBack(n: nat, k: nat)
    requires k == 32 && n < WORD
    ensures ReadBE(ToBE(n, k), 0, k) == n
  {
    Pow256Values(k);
    ReadBack(ToBE(n, k), 0, n, k);
  }

  lemma RefRoundTrip(source: nat, slot: nat, root: nat)
    requires source < WORD && root < WORD && slot < WORD64
    ensures RefOf(EncodedRef(source, slot, root)) == E.RootRef(source, slot, root)
  {
    var items := RefParts(source, slot, root);
    WordBack(source, 32);
    WordBack(root, 32);
    MinimalReads(slot);
  }

  // ---- small transactions are normal ----

  lemma ShortInt(x: nat)
    requires x < WORD
    ensures Short(IntItem(x), 41)
  {
    MinimalFits(x);
    var k := |Minimal(x)|;
    if k > 32 {
      Pow256Mono(32, k - 1);
      Pow256Values(32);
    }
    ShortStr(Minimal(x), 32);
  }

  lemma ShortFrame(f: WireFrame, n: nat)
    requires f.mode < WORD && f.flags < WORD && f.gasLimit < WORD && f.value < WORD && |f.data| <= n
    requires 32 <= n < 0x1_0000_0000
    ensures Short(FrameItem(f), 6 * (n + 9) + 9)
  {
    ShortInt(f.mode);
    ShortInt(f.flags);
    ShortInt(f.gasLimit);
    ShortInt(f.value);
    ShortStr(f.data, n);
    ShortStr(if f.target.Some? then ToBE(f.target.value, 20) else [], n);
    ShortList(FrameItem(f).items, n + 9, 6 * (n + 9));
  }

  lemma ShortSig(s: FrameSig, elide: bool, n: nat)
    requires s.scheme < WORD && |s.msg| <= n && |s.signature| <= n && 32 <= n < 0x1_0000_0000
    ensures Short(SigItem(s, elide), 4 * (n + 9) + 9)
  {
    ShortInt(s.scheme);
    ShortStr(ToBE(s.signer, 20), n);
    ShortStr(s.msg, n);
    ShortStr(if elide && |s.msg| == 0 then [] else s.signature, n);
    ShortList(SigItem(s, elide).items, n + 9, 4 * (n + 9));
  }

  lemma ShortRef(source: nat, slot: nat, root: nat)
    requires slot < WORD64
    ensures Short(List(RefParts(source, slot, root)), 132)
  {
    EightBytes(slot);
    ShortStr(ToBE(source, 32), 32);
    ShortStr(Minimal(slot), 32);
    ShortStr(ToBE(root, 32), 32);
    ShortList(RefParts(source, slot, root), 41, 123);
  }

  // ---- what the opcodes see ----

  function SeenFrames(fs: seq<WireFrame>, sender: nat): seq<E.Frame> {
    seq(|fs|, i requires 0 <= i < |fs| =>
      E.Frame(if fs[i].target.Some? then fs[i].target.value else sender, fs[i].gasLimit, fs[i].mode, fs[i].flags,
              fs[i].value, fs[i].data))
  }

  function Seen(tx: WireTx): E.Tx
    requires Normal(tx)
  {
    E.Tx(tx.sender, tx.nonceKeys, tx.nonceSeq, SeenFrames(tx.frames, tx.sender), |tx.signatures|, |tx.blobHashes|,
         MaxCost(tx), seq(|tx.recentRootRefs|, i requires 0 <= i < |tx.recentRootRefs| => RefOf(tx.recentRootRefs[i])))
  }
}
