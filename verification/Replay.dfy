/** Rebuilding the tree from the event log (`wallet/gen_nonce_race.py`): after every run
    it succeeds, and both wallet-side root computations agree with the pool's. */
module Replay {
  import opened Merkle
  import opened Powers
  import opened PoolSpec
  import opened Protocol
  import opened Dispatcher
  import opened PoolInvariant
  import opened Runs
  import opened WalletTree

  /** The dictionary the logs fill, later entries over earlier ones. */
  function LogMap(logs: seq<LeafAppended>): map<nat, nat> {
    if logs == [] then map[]
    else var last := logs[|logs| - 1]; LogMap(logs[..|logs| - 1])[last.index := last.cm]
  }

  /** Every index below the number of entries is present. */
  predicate Dense(m: map<nat, nat>) {
    forall i: nat | i < |m| :: i in m
  }

  function Listing(m: map<nat, nat>): seq<nat>
    requires Dense(m)
  {
    seq(|m|, i requires 0 <= i < |m| => m[i])
  }

  /** The rebuild works exactly on logs whose indices are dense, fit the tree, and hash to
      the root read on chain. */
  ghost predicate Rebuilds(h: Hash2, depth: nat, logs: seq<LeafAppended>, onchain: nat) {
    var m := LogMap(logs);
    Dense(m) && |m| <= Pow2(depth) && Root(h, depth, Listing(m)) == onchain
  }

  /** A missing index, a full tree and a root mismatch all abort. */
  method SeededTree(h: Hash2, depth: nat, logs: seq<LeafAppended>, onchain: nat) returns (ok: bool, tree: Tree)
    ensures fresh(tree) && tree.Valid() && tree.h == h && tree.depth == depth
    ensures ok <==> Rebuilds(h, depth, logs, onchain)
    ensures ok ==> tree.leaves == Listing(LogMap(logs))
    ensures ok ==> Root(h, depth, tree.leaves) == onchain && |tree.leaves| <= Pow2(depth)
  {
    var leaves: map<nat, nat> := map[];
    for k := 0 to |logs|
      invariant leaves == LogMap(logs[..k])
    {
      assert logs[..k + 1][..k] == logs[..k];
      leaves := leaves[logs[k].index := logs[k].cm];
    }
    assert logs[..|logs|] == logs;
    tree := new Tree(h, depth);
    for i := 0 to |leaves|
      invariant fresh(tree) && tree.Valid() && tree.h == h && tree.depth == depth
      invariant |tree.leaves| == i
      invariant forall j: nat | j < i :: j in leaves && tree.leaves[j] == leaves[j]
    {
      if i !in leaves { return false, tree; }
      var appended, idx := tree.Append(leaves[i]);
      if !appended { return false, tree; }
    }
    assert tree.leaves == Listing(leaves);
    var recon := tree.ComputeRoot();
    ok := recon == onchain;
  }

  lemma {:induction false} LogListing(leaves: seq<nat>, events: seq<LeafAppended>)
    requires LogOk(leaves, events)
    ensures var m := LogMap(events);
            |m| == |leaves| && (forall i: nat :: i in m <==> i < |leaves|)
            && forall i: nat | i < |leaves| :: m[i] == leaves[i]
  {
    if events == [] {
    } else {
      var n := |events| - 1;
      LogListing(leaves[..n], events[..n]);
      assert events[n].index == n && events[n].cm == leaves[n];
      assert n !in LogMap(events[..n]);
      forall i: nat ensures i in LogMap(events) <==> i < |leaves| {
        assert i in LogMap(events[..n]) <==> i < |leaves[..n]|;
      }
    }
  }

  lemma LogReplays(cfg: Config, s: PoolState)
    requires TreeLog(cfg, s)
    ensures Dense(LogMap(s.events)) && Rebuilds(cfg.H.h2, cfg.depth, s.events, TreeRoot(cfg, s.leaves))
    ensures Listing(LogMap(s.events)) == s.leaves
    ensures EagerRoot(cfg.H.h2, cfg.depth, s.leaves) == TreeRoot(cfg, s.leaves)
  {
    LogListing(s.leaves, s.events);
    assert Listing(LogMap(s.events)) == s.leaves;
    IncrementalRootIsRoot(cfg.H.h2, cfg.depth, s.leaves);
  }

  /** After every run, whatever was spent, duplicated or re-entered: replaying the log
      rebuilds the pool's leaves in order, under the root the pool published last; the
      eager root computation gives that root too. */
  lemma RunReplays(sys: System, slot: nat, actions: seq<Action>)
    ensures var s, cfg := Run(sys, slot, actions).pool, sys.cfg;
            && s.writes != [] && var root := s.writes[|s.writes| - 1].root;
            && Rebuilds(cfg.H.h2, cfg.depth, s.events, root)
            && Listing(LogMap(s.events)) == s.leaves
            && EagerRoot(cfg.H.h2, cfg.depth, s.leaves) == root
  {
    var s := Run(sys, slot, actions).pool;
    LogIsTree(sys, slot, actions);
    LogReplays(sys.cfg, s);
  }
}
