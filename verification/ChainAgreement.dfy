/** Agreement carried over from certificates to chains and ledgers. */
module ChainAgreement {
  import opened Messages
  import opened Ledger
  import opened Runtime
  import opened Safety
  import opened History
  import opened Agreement

  lemma {:induction false} RunHistory(n: NetConfig, run: seq<Net>, i: nat, id: Id)
    requires Assumptions(n) && IsRun(n, run) && i < |run| && id in n.nodes
    ensures id in run[i] && HistoryInv(n.nodes[id], GenesisOf(n), run[i][id])
  {
    var cfg, g := n.nodes[id], GenesisOf(n);
    if i == 0 {
      assert StartState(n, id, run[0][id]);
      assert run[0][id].chain == g && g.blocks[1..] == [];
    } else {
      RunHistory(n, run, i - 1, id);
      assert NetStep(n, run[i - 1], run[i]);
      var mover, input, now :| NodeMoves(n, run[i - 1], run[i], mover, input, now);
      if mover == id {
        MovesToStep(cfg, run[i - 1][id], input, now, run[i][id]);
        StepHistory(cfg, g, run[i - 1][id], input, now);
      }
    }
  }

  lemma StoredCertificate(n: NetConfig, run: seq<Net>, i: nat, id: Id, h: nat)
    requires Assumptions(n) && IsRun(n, run) && i < |run| && id in run[i]
    requires 0 < h < |run[i][id].chain.blocks|
    ensures h - 1 < |run[i][id].finalized|
    ensures var cert := run[i][id].finalized[h - 1];
      && CertificateGenuine(n.crypto, n.validators, JournalsOf(run[i]), cert)
      && cert.block == run[i][id].chain.blocks[h] && cert.block.height == h
  {
    RunInv(n, run, i);
    RunHistory(n, run, i, id);
    var s := run[i][id];
    AcceptedHeights(n.nodes[id], GenesisOf(n), s.chain, h);
    assert NodeInv(n.nodes[id], JournalsOf(run[i]), s);
    assert s.finalized[h - 1] in s.finalized;
  }

  /** In every state of every run any two honest chains carry the same block hash at every
      height they both have. */
  lemma ChainsAgree(n: NetConfig, run: seq<Net>, i: nat, a: Id, b: Id, h: nat)
    requires Assumptions(n) && IsRun(n, run) && i < |run| && a in run[i] && b in run[i]
    requires h < |run[i][a].chain.blocks| && h < |run[i][b].chain.blocks|
    ensures run[i][a].chain.blocks[h].hash == run[i][b].chain.blocks[h].hash
  {
    RunInv(n, run, i);
    if h == 0 {
      RunHistory(n, run, i, a);
      RunHistory(n, run, i, b);
    } else {
      StoredCertificate(n, run, i, a, h);
      StoredCertificate(n, run, i, b, h);
      GenuineAgreement(n, run[i], run[i][a].finalized[h - 1], run[i][b].finalized[h - 1]);
    }
  }

  /** No two different blocks of the two lists share a hash. */
  ghost predicate CollisionFree(c: Crypto, xs: seq<Block>, ys: seq<Block>) {
    forall x, y :: x in xs && y in ys && CalculateHash(c, x) == CalculateHash(c, y) ==> x.(hash := "") == y.(hash := "")
  }

  lemma SameHashSameBlock(a: NodeConfig, b: NodeConfig, g: ChainState, x: ChainState, y: ChainState, h: nat)
    requires a.crypto == b.crypto && CollisionFree(a.crypto, x.blocks, y.blocks) && Accepted(a, g, x)
      && Accepted(b, g, y)
    requires h < |x.blocks| && h < |y.blocks| && x.blocks[h].hash == y.blocks[h].hash
    ensures x.blocks[h] == y.blocks[h]
  {
    AcceptedHeights(a, g, x, h);
    AcceptedHeights(b, g, y, h);
  }

  /** Chains with the same hashes are the same chain, down to the last balance. */
  lemma SameHashesSameLedger(a: NodeConfig, b: NodeConfig, g: ChainState, x: ChainState, y: ChainState)
    requires a.crypto == b.crypto && CollisionFree(a.crypto, x.blocks, y.blocks) && Accepted(a, g, x)
      && Accepted(b, g, y)
    requires |x.blocks| == |y.blocks| && forall h :: 0 <= h < |x.blocks| ==> x.blocks[h].hash == y.blocks[h].hash
    ensures x == y
  {
    forall h | 0 <= h < |x.blocks| ensures x.blocks[h] == y.blocks[h] {
      SameHashSameBlock(a, b, g, x, y, h);
    }
    assert x.blocks == y.blocks;
    AcceptIsReplay(a, g, x.blocks[1..]);
    AcceptIsReplay(b, g, y.blocks[1..]);
  }

  /** Unless their blocks collide, honest nodes at the same height hold the same ledger:
      blocks, balances, nonces and executed events. */
  lemma SameHeightSameLedger(n: NetConfig, run: seq<Net>, i: nat, a: Id, b: Id)
    requires Assumptions(n) && IsRun(n, run) && i < |run| && a in run[i] && b in run[i]
    requires CollisionFree(n.crypto, run[i][a].chain.blocks, run[i][b].chain.blocks)
    requires |run[i][a].chain.blocks| == |run[i][b].chain.blocks|
    ensures run[i][a].chain == run[i][b].chain
  {
    var x, y := run[i][a].chain, run[i][b].chain;
    assert NetInv(n, run[i]) by { RunInv(n, run, i); }
    assert Accepted(n.nodes[a], GenesisOf(n), x) by { RunHistory(n, run, i, a); }
    assert Accepted(n.nodes[b], GenesisOf(n), y) by { RunHistory(n, run, i, b); }
    forall h | 0 <= h < |x.blocks| ensures x.blocks[h].hash == y.blocks[h].hash {
      ChainsAgree(n, run, i, a, b, h);
    }
    SameHashesSameLedger(n.nodes[a], n.nodes[b], GenesisOf(n), x, y);
  }
}
