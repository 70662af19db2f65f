/** Sync between two honest nodes of one run: what `Sync` asks of server and client is what
    every run provides. */
module SyncRuns {
  import opened Basics
  import opened Messages
  import opened Ledger
  import opened Runtime
  import opened Safety
  import opened Agreement
  import opened History
  import opened ChainAgreement
  import opened Sync

  lemma CommonBlock(n: NetConfig, run: seq<Net>, i: nat, a: Id, b: Id, h: nat)
    requires Assumptions(n) && IsRun(n, run) && i < |run| && a in run[i] && b in run[i]
    requires CollisionFree(n.crypto, run[i][a].chain.blocks, run[i][b].chain.blocks)
    requires h < |run[i][a].chain.blocks| && h < |run[i][b].chain.blocks|
    ensures run[i][a].chain.blocks[h] == run[i][b].chain.blocks[h]
  {
    RunInv(n, run, i);
    RunHistory(n, run, i, a);
    RunHistory(n, run, i, b);
    ChainsAgree(n, run, i, a, b, h);
    SameHashSameBlock(n.nodes[a], n.nodes[b], GenesisOf(n), run[i][a].chain, run[i][b].chain, h);
  }

  /** The shorter of two honest chains is a prefix of the longer one. */
  lemma HonestPrefix(n: NetConfig, run: seq<Net>, i: nat, a: Id, b: Id)
    requires Assumptions(n) && IsRun(n, run) && i < |run| && a in run[i] && b in run[i]
    requires CollisionFree(n.crypto, run[i][a].chain.blocks, run[i][b].chain.blocks)
    requires |run[i][a].chain.blocks| <= |run[i][b].chain.blocks|
    ensures run[i][a].chain.blocks == run[i][b].chain.blocks[..|run[i][a].chain.blocks|]
  {
    var x, y := run[i][a].chain.blocks, run[i][b].chain.blocks;
    forall h | 0 <= h < |x| ensures x[h] == y[h] {
      CommonBlock(n, run, i, a, b, h);
    }
  }

  lemma SameNet(n: NetConfig, a: Id, b: Id)
    requires Honest(n) && a in n.nodes && b in n.nodes && n.nodes[a].schedule == n.nodes[b].schedule
    ensures SameRules(n.nodes[a], n.nodes[b])
  {
  }

  lemma ClientReady(n: NetConfig, run: seq<Net>, i: nat, id: Id)
    requires Assumptions(n) && IsRun(n, run) && i < |run| && id in run[i]
    ensures id in n.nodes && ClientInv(n.nodes[id], GenesisOf(n), run[i][id])
  {
    RunInv(n, run, i);
    RunHistory(n, run, i, id);
    assert NodeInv(n.nodes[id], JournalsOf(run[i]), run[i][id]);
  }

  /** Two honest nodes with the same schedule are linked as soon as the client is not ahead and
      its clock is not behind the server's blocks. */
  lemma HonestNodesLinked(n: NetConfig, run: seq<Net>, i: nat, server: Id, client: Id, now: nat)
    requires Assumptions(n) && IsRun(n, run) && i < |run| && server in run[i] && client in run[i]
    requires CollisionFree(n.crypto, run[i][client].chain.blocks, run[i][server].chain.blocks)
    requires |run[i][client].chain.blocks| <= |run[i][server].chain.blocks|
    requires forall b :: b in run[i][server].chain.blocks ==> InTime(b, now)
    requires server in n.nodes && client in n.nodes && n.nodes[server].schedule == n.nodes[client].schedule
    ensures Linked(n.nodes[server], n.nodes[client], GenesisOf(n), run[i][server], run[i][client], now)
  {
    SameNet(n, server, client);
    ClientReady(n, run, i, server);
    ClientReady(n, run, i, client);
    HonestPrefix(n, run, i, client, server);
  }

  /** So on every run repeated requests bring the client to the server's complete ledger. */
  lemma SyncReachesTipOnRuns(n: NetConfig, run: seq<Net>, i: nat, server: Id, client: Id,
                             size: FinalityCertificate -> nat, now: nat, rounds: nat)
    requires Assumptions(n) && IsRun(n, run) && i < |run| && server in run[i] && client in run[i]
    requires CollisionFree(n.crypto, run[i][client].chain.blocks, run[i][server].chain.blocks)
    requires |run[i][client].chain.blocks| <= |run[i][server].chain.blocks|
    requires forall b :: b in run[i][server].chain.blocks ==> InTime(b, now)
    requires server in n.nodes && client in n.nodes && n.nodes[server].schedule == n.nodes[client].schedule
    requires rounds >= |run[i][server].chain.blocks| - |run[i][client].chain.blocks|
    ensures Iterate(RoundAgainst(n.nodes[client], run[i][server], size, now), run[i][client], rounds).chain
         == run[i][server].chain
  {
    HonestNodesLinked(n, run, i, server, client, now);
    SyncReachesTip(n.nodes[server], n.nodes[client], GenesisOf(n), run[i][server], run[i][client], size, now, rounds);
  }
}
