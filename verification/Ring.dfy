/** The recent-root ring (`devnet/pool_frametx.py`): storage keys and entries are keccak
    digests of byte strings, so the byte strings must not run into each other.  Digests
    are symbolic: equal exactly when their preimages are. */
module Ring {
  import opened Wrappers
  import opened Powers
  import opened Bytes
  import opened PoolSpec
  import opened Envelope
  import opened Dispatcher
  import opened Protocol

  datatype Digest = Keccak(preimage: seq<Byte>)

  /** The two tag digests, as bytes. */
  datatype Tags = Tags(entry: seq<Byte>, storage: seq<Byte>)

  function EntryHash(t: Tags, source: nat, slot: nat, root: nat): Digest {
    Keccak(t.entry + ToBE(source, 32) + ToBE(slot, 8) + ToBE(root, 32))
  }

  function StorageKey(t: Tags, source: nat, slot: nat): Digest {
    Keccak(t.storage + ToBE(source, 32) + ToBE(slot % RING, 8))
  }

  /** A write of some source, in publication order among all sources. */
  datatype RingWrite = RingWrite(source: nat, slot: nat, root: nat)

  predicate Fits(w: RingWrite) { w.source < WORD && w.slot < WORD64 && w.root < WORD }

  /** The predeploy's storage after the writes. */
  function Storage(t: Tags, writes: seq<RingWrite>): map<Digest, Digest> {
    if writes == [] then map[]
    else
      var w := writes[|writes| - 1];
      Storage(t, writes[..|writes| - 1])[StorageKey(t, w.source, w.slot) := EntryHash(t, w.source, w.slot, w.root)]
  }

  /** The committed-entry check of a reference. */
  predicate Committed(t: Tags, writes: seq<RingWrite>, r: RingWrite) {
    var key := StorageKey(t, r.source, r.slot);
    key in Storage(t, writes) && Storage(t, writes)[key] == EntryHash(t, r.source, r.slot, r.root)
  }

  // ---- the byte strings determine their parts ----

  lemma ToBEInjective(a: nat, b: nat, k: nat)
    requires a < Pow256(k) && b < Pow256(k) && ToBE(a, k) == ToBE(b, k)
    ensures a == b
  {
    ReadBack(ToBE(a, k), 0, a, k);
    ReadBack(ToBE(b, k), 0, b, k);
  }

  lemma PartsSplit(a: seq<Byte>, b: seq<Byte>, c: seq<Byte>, d: seq<Byte>)
    requires |a| == |b| && a + c == b + d
    ensures a == b && c == d
  {
    assert (a + c)[..|a|] == a && (b + d)[..|b|] == b;
    assert (a + c)[|a|..] == c && (b + d)[|b|..] == d;
  }

  lemma SourceAndSlot(tag: seq<Byte>, source: nat, slot: nat, source': nat, slot': nat, j: nat, k: nat)
    requires j == 32 && k == 8 && source < WORD && source' < WORD && slot < WORD64 && slot' < WORD64
    requires tag + ToBE(source, j) + ToBE(slot, k) == tag + ToBE(source', j) + ToBE(slot', k)
    ensures source == source' && slot == slot'
  {
    PartsSplit(tag + ToBE(source, j), tag + ToBE(source', j), ToBE(slot, k), ToBE(slot', k));
    PartsSplit(tag, tag, ToBE(source, j), ToBE(source', j));
    Pow256Values(j);
    Pow256Values(k);
    ToBEInjective(source, source', j);
    ToBEInjective(slot, slot', k);
  }

  lemma KeysAgree(t: Tags, a: RingWrite, b: RingWrite)
    requires Fits(a) && Fits(b)
    ensures StorageKey(t, a.source, a.slot) == StorageKey(t, b.source, b.slot) <==>
              a.source == b.source && a.slot % 8192 == b.slot % 8192
  {
    if StorageKey(t, a.source, a.slot) == StorageKey(t, b.source, b.slot) {
      SourceAndSlot(t.storage, a.source, a.slot % RING, b.source, b.slot % RING, 32, 8);
    }
  }

  lemma PartReads(pre: seq<Byte>, n: nat, k: nat, post: seq<Byte>, j: nat)
    requires j == |pre| && n < Pow256(k)
    ensures ReadBE(pre + ToBE(n, k) + post, j, k) == n
  {
    assert (pre + ToBE(n, k) + post)[j..j + k] == ToBE(n, k);
    ReadBack(pre + ToBE(n, k) + post, j, n, k);
  }

  lemma EntryParts(tag: seq<Byte>, w: RingWrite, j: nat, k: nat)
    requires |tag| == 32 && Fits(w) && j == 32 && k == 8
    ensures var b := tag + ToBE(w.source, j) + ToBE(w.slot, k) + ToBE(w.root, j);
            && |b| == 104 && b[..32] == tag
            && ReadBE(b, 32, j) == w.source && ReadBE(b, 64, k) == w.slot && ReadBE(b, 72, j) == w.root
  {
    var s, l, r := ToBE(w.source, j), ToBE(w.slot, k), ToBE(w.root, j);
    Pow256Values(j);
    Pow256Values(k);
    PartReads(tag, w.source, j, l + r, 32);
    PartReads(tag + s, w.slot, k, r, 64);
    PartReads(tag + s + l, w.root, j, [], 72);
    assert tag + s + l + r == tag + s + (l + r) && tag + s + l + r == tag + s + l + r + [];
  }

  lemma KeyParts(tag: seq<Byte>, w: RingWrite, j: nat, k: nat, cell: nat)
    requires |tag| == 32 && Fits(w) && j == 32 && k == 8 && cell < 8192
    ensures var b := tag + ToBE(w.source, j) + ToBE(cell, k);
            |b| == 72 && b[..32] == tag && ReadBE(b, 32, j) == w.source && ReadBE(b, 64, k) == cell
  {
    var s, l := ToBE(w.source, j), ToBE(cell, k);
    Pow256Values(j);
    Pow256Values(k);
    PartReads(tag, w.source, j, l, 32);
    PartReads(tag + s, cell, k, [], 64);
    assert tag + s + l == tag + s + l + [];
  }

  /** Where each part lies in the hashed bytes: the tag's digest, the source in thirty-two
      bytes, the slot -- for the key, modulo 8192 -- in eight, and the root in thirty-two. */
  lemma RingLayout(t: Tags, w: RingWrite)
    requires |t.entry| == |t.storage| == 32 && Fits(w)
    ensures var b := EntryHash(t, w.source, w.slot, w.root).preimage;
            && |b| == 104 && b[..32] == t.entry
            && ReadBE(b, 32, 32) == w.source && ReadBE(b, 64, 8) == w.slot && ReadBE(b, 72, 32) == w.root
    ensures var b := StorageKey(t, w.source, w.slot).preimage;
            && |b| == 72 && b[..32] == t.storage
            && ReadBE(b, 32, 32) == w.source && ReadBE(b, 64, 8) == w.slot % 8192
  {
    EntryParts(t.entry, w, 32, 8);
    KeyParts(t.storage, w, 32, 8, w.slot % RING);
  }

  lemma WholeEntry(tag: seq<Byte>, a: RingWrite, b: RingWrite, j: nat, k: nat)
    requires j == 32 && k == 8 && Fits(a) && Fits(b)
    requires tag + ToBE(a.source, j) + ToBE(a.slot, k) + ToBE(a.root, j)
          == tag + ToBE(b.source, j) + ToBE(b.slot, k) + ToBE(b.root, j)
    ensures a == b
  {
    PartsSplit(tag + ToBE(a.source, j) + ToBE(a.slot, k), tag + ToBE(b.source, j) + ToBE(b.slot, k),
               ToBE(a.root, j), ToBE(b.root, j));
    SourceAndSlot(tag, a.source, a.slot, b.source, b.slot, j, k);
    Pow256Values(j);
    ToBEInjective(a.root, b.root, j);
  }

  lemma EntriesAgree(t: Tags, a: RingWrite, b: RingWrite)
    requires Fits(a) && Fits(b)
    ensures EntryHash(t, a.source, a.slot, a.root) == EntryHash(t, b.source, b.slot, b.root) <==> a == b
  {
    if EntryHash(t, a.source, a.slot, a.root) == EntryHash(t, b.source, b.slot, b.root) {
      WholeEntry(t.entry, a, b, 32, 8);
    }
  }

  // ---- what a committed reference means ----

  /** The last write of one source to one cell. */
  function LastTo(writes: seq<RingWrite>, source: nat, cell: nat): Option<RingWrite> {
    if writes == [] then None
    else
      var w := writes[|writes| - 1];
      if w.source == source && w.slot % RING == cell then Some(w) else LastTo(writes[..|writes| - 1], source, cell)
  }

  /** A reference is committed exactly when the last write to its cell under its source is
      that very source, slot and root: not another slot of the same cell, not an older root. */
  lemma {:induction false} CommittedIsLast(t: Tags, writes: seq<RingWrite>, r: RingWrite)
    requires Fits(r) && forall i: nat | i < |writes| :: Fits(writes[i])
    ensures Committed(t, writes, r) <==> LastTo(writes, r.source, r.slot % RING) == Some(r)
  {
    if writes == [] {
    } else {
      var init, w := writes[..|writes| - 1], writes[|writes| - 1];
      CommittedIsLast(t, init, r);
      KeysAgree(t, w, r);
      EntriesAgree(t, w, r);
    }
  }

  /** A root overwritten in its cell is stale for good: only writing the same slot and root
      again could bring it back. */
  lemma {:induction false} AliasedIsStale(t: Tags, before: seq<RingWrite>, w: RingWrite, after: seq<RingWrite>,
                                          r: RingWrite)
    requires Fits(r) && Fits(w)
    requires (forall i: nat | i < |before| :: Fits(before[i])) && (forall i: nat | i < |after| :: Fits(after[i]))
    requires w.source == r.source && w.slot % RING == r.slot % RING && w != r && r !in after
    ensures !Committed(t, before + [w] + after, r)
  {
    var writes := before + [w] + after;
    if after == [] {
      assert writes[..|writes| - 1] == before;
    } else {
      var init := after[..|after| - 1];
      assert writes[..|writes| - 1] == before + [w] + init;
      AliasedIsStale(t, before, w, init, r);
      CommittedIsLast(t, before + [w] + init, r);
    }
    CommittedIsLast(t, writes, r);
  }

  // ---- the pool's own view ----

  /** The pool's writes, as they appear among everyone's. */
  function OwnWrites(writes: seq<RingWrite>, source: nat): seq<RootWrite> {
    if writes == [] then []
    else
      var w := writes[|writes| - 1];
      OwnWrites(writes[..|writes| - 1], source) + (if w.source == source then [RootWrite(w.slot, w.root)] else [])
  }

  lemma LastOfAppended(own: seq<RootWrite>, w: RootWrite, cell: nat)
    ensures LastWrite(own + [w], cell) == if w.slot % RING == cell then Some(w) else LastWrite(own, cell)
  {
  }

  /** A ring write as the pool remembers it. */
  function AsOwn(w: Option<RingWrite>): Option<RootWrite> {
    match w case None => None case Some(r) => Some(RootWrite(r.slot, r.root))
  }

  lemma {:induction false} OwnLast(writes: seq<RingWrite>, source: nat, cell: nat)
    ensures LastWrite(OwnWrites(writes, source), cell) == AsOwn(LastTo(writes, source, cell))
    ensures LastTo(writes, source, cell).Some? ==> LastTo(writes, source, cell).value.source == source
  {
    if writes == [] {
    } else {
      var init, w := writes[..|writes| - 1], writes[|writes| - 1];
      OwnLast(init, source, cell);
      if w.source == source {
        LastOfAppended(OwnWrites(init, source), RootWrite(w.slot, w.root), cell);
      } else {
        assert OwnWrites(writes, source) == OwnWrites(init, source);
      }
    }
  }

  /** However other sources' writes interleave with the pool's, the protocol's committed
      check of a reference to the pool is the last-write check the admission rule of
      `Protocol` uses; so an accepted reference names a root this pool published. */
  lemma AdmissionIsCommitted(t: Tags, sys: System, w: World, writes: seq<RingWrite>, r: RootRef)
    requires OwnWrites(writes, sys.cfg.sourceId) == w.pool.writes && forall i: nat | i < |writes| :: Fits(writes[i])
    requires r.source == sys.cfg.sourceId && Fits(RingWrite(r.source, r.slot, r.root))
    ensures RefValid(w, r) <==>
              Committed(t, writes, RingWrite(r.source, r.slot, r.root)) && r.slot < w.slot && w.slot - r.slot < 8192
  {
    CommittedIsLast(t, writes, RingWrite(r.source, r.slot, r.root));
    OwnLast(writes, sys.cfg.sourceId, r.slot % RING);
  }
}
