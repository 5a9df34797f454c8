/** The frame-transaction envelope as the introspection opcodes show it.  Selectors
    are the numbers of `devnet/EnvelopeProbe.yul`'s table; a load out of range halts,
    which the preconditions below rule out. */
module Envelope {
  import opened Bytes
  import opened Circuit
  import opened PoolSpec

  datatype Frame = Frame(target: nat, gasLimit: nat, mode: nat, flags: nat, value: nat, data: seq<Byte>)

  datatype RootRef = RootRef(source: nat, slot: nat, root: nat)

  datatype Tx = Tx(sender: nat, nonceKeys: seq<nat>, nonceSeq: nat, frames: seq<Frame>, signatures: nat,
                   blobs: nat, maxCost: nat, refs: seq<RootRef>)

  /** TXPARAM (0xB0), in frame `current` with the payer resolved so far (0 if none). */
  function TxParam(tx: Tx, current: nat, payer: nat, selector: nat): nat {
    match selector
    case 0x01 => tx.nonceSeq
    case 0x02 => tx.sender
    case 0x06 => tx.maxCost
    case 0x07 => tx.blobs
    case 0x09 => |tx.frames|
    case 0x0A => current
    case 0x0B => tx.signatures
    case 0x0D => |tx.nonceKeys|
    case 0x0F => |tx.refs|
    case 0x11 => payer
    case _ => 0
  }

  /** FRAMEPARAM (0xB3). */
  function FrameParam(tx: Tx, frame: nat, selector: nat): nat
    requires frame < |tx.frames|
  {
    var f := tx.frames[frame];
    match selector
    case 0x00 => f.target
    case 0x01 => f.gasLimit
    case 0x02 => f.mode
    case 0x03 => f.flags
    case 0x04 => |f.data|
    case 0x08 => f.value
    case _ => 0
  }

  /** FRAMEDATALOAD (0xB1). */
  function FrameDataLoad(tx: Tx, frame: nat, offset: nat): nat
    requires frame < |tx.frames|
  {
    WordAt(tx.frames[frame].data, offset)
  }

  /** RECENTROOTREFLOAD (0xB5): field 0 is the source, 1 the slot, 2 the root. */
  function RecentRootRef(tx: Tx, field: nat, index: nat): nat
    requires index < |tx.refs|
  {
    var r := tx.refs[index];
    if field == 0 then r.source else if field == 1 then r.slot else r.root
  }

  // ---- calldata ----

  const TRANSFER: nat := 0xb9947fa0
  const WITHDRAW: nat := 0xd677b46e
  const VERIFY_PROOF_ONLY: nat := 0x8cc8fe8d
  const SELECTOR_SHIFT: nat := 0x1_0000_0000_0000_0000_0000_0000_0000_0000_0000_0000_0000_0000_0000_0000

  function Selector(data: seq<Byte>): nat { WordAt(data, 0) / SELECTOR_SHIFT }

  /** The static 544-byte tuple behind the selector. */
  function SpendOf(data: seq<Byte>): Spend {
    Spend(WordAt(data, 4), WordAt(data, 36), WordAt(data, 68), WordAt(data, 100), WordAt(data, 132), WordAt(data, 164),
          WordAt(data, 196), WordAt(data, 228), WordAt(data, 260),
          seq(8, i requires 0 <= i < 8 => WordAt(data, 292 + 32 * i)))
  }

  function RecipientOf(data: seq<Byte>): nat { WordAt(data, 548) }

  function PublicOf(s: Spend): Public {
    Public(s.nf1, s.nf2, s.outCm1, s.outCm2, s.root, s.domain, s.publicAmount, s.fee, s.ctx)
  }

  // ---- the probe ----

  /** What the probe answers in frame `current` after payment was approved by `payer`. */
  function ProbeOf(tx: Tx, current: nat, payer: nat): ProbeWords {
    ProbeWords(|tx.frames|, current, |tx.nonceKeys|, tx.nonceSeq,
               if |tx.nonceKeys| > 0 then tx.nonceKeys[0] else 0,
               if |tx.nonceKeys| > 1 then tx.nonceKeys[1] else 0,
               |tx.refs|,
               if tx.refs != [] then tx.refs[0].source else 0,
               if tx.refs != [] then tx.refs[0].root else 0,
               if current < |tx.frames| then tx.frames[current].target else 0,
               payer)
  }

  /** `EnvelopeProbe.yul`: every load is guarded by the count that covers it. */
  method Probe(tx: Tx, current: nat, payer: nat) returns (buffer: array<nat>)
    ensures fresh(buffer) && buffer.Length == 11
    ensures ProbeOf(tx, current, payer) ==
            ProbeWords(buffer[0], buffer[1], buffer[2], buffer[3], buffer[4], buffer[5],
                       buffer[6], buffer[7], buffer[8], buffer[9], buffer[10])
  {
    buffer := new nat[11](_ => 0);
    var frames := TxParam(tx, current, payer, 0x09);
    buffer[0] := frames;
    var frameIndex := TxParam(tx, current, payer, 0x0A);
    buffer[1] := frameIndex;
    var keyCount := TxParam(tx, current, payer, 0x0D);
    buffer[2] := keyCount;
    buffer[3] := TxParam(tx, current, payer, 0x01);
    if keyCount > 0 { buffer[4] := tx.nonceKeys[0]; }
    if keyCount > 1 { buffer[5] := tx.nonceKeys[1]; }
    var refCount := TxParam(tx, current, payer, 0x0F);
    buffer[6] := refCount;
    if refCount > 0 {
      buffer[7] := RecentRootRef(tx, 0, 0);
      buffer[8] := RecentRootRef(tx, 2, 0);
    }
    if frameIndex < frames { buffer[9] := FrameParam(tx, frameIndex, 0x00); }
    buffer[10] := TxParam(tx, current, payer, 0x11);
  }
}
