/** Big-endian words in byte strings: EVM memory, calldata and frame data. */
module Bytes {
  import opened Powers

  type Byte = b: nat | b < 256

  /** `n` as `k` big-endian bytes. */
  function ToBE(n: nat, k: nat): (b: seq<Byte>)
    ensures |b| == k
    decreases k, n
  {
    if k == 0 then [] else ToBE(n / 256, k - 1) + [n % 256]
  }

  /** The `k`-byte big-endian number at `off`; bytes past the end read as zero. */
  function ReadBE(data: seq<Byte>, off: nat, k: nat): nat
    decreases k, data, off
  {
    if k == 0 then 0
    else ReadBE(data, off, k - 1) * 256 + (if off + k - 1 < |data| then data[off + k - 1] else 0)
  }

  /** The 32-byte word at `off` (`calldataload`, `mload`, `FRAMEDATALOAD`). */
  function WordAt(data: seq<Byte>, off: nat): nat {
    ReadBE(data, off, 32)
  }

  lemma {:induction false} ReadBEBound(data: seq<Byte>, off: nat, k: nat)
    ensures ReadBE(data, off, k) < Pow256(k)
  {
    if k == 0 {
    } else {
      ReadBEBound(data, off, k - 1);
    }
  }

  /** Reading back what was written. */
  lemma {:induction false} ReadBack(data: seq<Byte>, off: nat, n: nat, k: nat)
    requires n < Pow256(k) && off + k <= |data| && data[off..off + k] == ToBE(n, k)
    ensures ReadBE(data, off, k) == n
  {
    if k == 0 {
    } else {
      var bytes := ToBE(n, k);
      assert data[off..off + (k - 1)] == bytes[..k - 1] == ToBE(n / 256, k - 1);
      assert data[off + (k - 1)] == bytes[k - 1] == n % 256;
      ReadBack(data, off, n / 256, k - 1);
    }
  }

  /** Words laid out one after the other. */
  function Words(ws: seq<nat>): (b: seq<Byte>)
    ensures |b| == 32 * |ws|
  {
    if ws == [] then [] else Words(ws[..|ws| - 1]) + ToBE(ws[|ws| - 1], 32)
  }

  lemma {:induction false} WordsSlice(ws: seq<nat>, k: nat)
    requires k < |ws|
    ensures Words(ws)[32 * k..32 * k + 32] == ToBE(ws[k], 32)
  {
    var init := ws[..|ws| - 1];
    if k == |init| {
    } else {
      WordsSlice(init, k);
      assert Words(ws)[32 * k..32 * k + 32] == Words(init)[32 * k..32 * k + 32];
    }
  }

  lemma SliceBehind(pre: seq<Byte>, b: seq<Byte>, lo: nat, hi: nat)
    requires lo <= hi <= |b|
    ensures (pre + b)[|pre| + lo..|pre| + hi] == b[lo..hi]
  {
  }

  lemma TableReadBytes(pre: seq<Byte>, ws: seq<nat>, k: nat, w: nat)
    requires k < |ws| && ws[k] < WORD && w == 32
    ensures ReadBE(pre + Words(ws), |pre| + 32 * k, w) == ws[k]
  {
    WordsSlice(ws, k);
    SliceBehind(pre, Words(ws), 32 * k, 32 * k + w);
    Pow256Values(w);
    ReadBack(pre + Words(ws), |pre| + 32 * k, ws[k], w);
  }

  /** Word `k` of a laid-out table sits at byte `32 * k` of it. */
  lemma TableRead(pre: seq<Byte>, ws: seq<nat>, k: nat)
    requires k < |ws| && ws[k] < WORD
    ensures WordAt(pre + Words(ws), |pre| + 32 * k) == ws[k]
  {
    TableReadBytes(pre, ws, k, 32);
  }
}
