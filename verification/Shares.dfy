/** How a settlement divides its pool (src/node_emission.rs): everybody but the last peer gets
    the floored share of its weight, and the last one the rest, which is its share too up to
    the rounding of the others. */
module Shares {
  import opened Basics
  import opened Sorting
  import opened Arithmetic
  import opened Emission

  // ---------- Weights ----------

  /** Points, at least one, count one and a half times for a main node. */
  function FairWeight(mains: seq<string>, node: EligibleNode): (w: nat)
    ensures w > 0
  {
    (if node.points == 0 then 1 else node.points)
    * (if node.peerId != "" && node.peerId in mains then 15_000 else 10_000)
  }

  function FairTotal(mains: seq<string>, nodes: seq<EligibleNode>): (w: nat)
    ensures nodes != [] ==> w > 0
  {
    if nodes == [] then 0 else FairWeight(mains, nodes[0]) + FairTotal(mains, nodes[1..])
  }

  lemma {:induction false} TotalIsFair(mains: seq<string>, nodes: seq<EligibleNode>)
    ensures TotalWeight(mains, nodes) == FairTotal(mains, nodes)
  {
    if nodes != [] {
      TotalIsFair(mains, nodes[1..]);
    }
  }

  lemma {:induction false} InsertTotal(mains: seq<string>, node: EligibleNode, nodes: seq<EligibleNode>)
    ensures FairTotal(mains, Insert(PeerLe, node, nodes)) == FairWeight(mains, node) + FairTotal(mains, nodes)
  {
    if nodes == [] || PeerLe(node, nodes[0]) {
      assert ([node] + nodes)[1..] == nodes;
    } else {
      InsertTotal(mains, node, nodes[1..]);
      var r := Insert(PeerLe, node, nodes[1..]);
      assert ([nodes[0]] + r)[1..] == r;
    }
  }

  /** The total does not depend on the order of the list. */
  lemma {:induction false} SortTotal(mains: seq<string>, nodes: seq<EligibleNode>)
    ensures FairTotal(mains, Sort(PeerLe, nodes)) == FairTotal(mains, nodes)
  {
    if nodes != [] {
      SortTotal(mains, nodes[1..]);
      InsertTotal(mains, nodes[0], Sort(PeerLe, nodes[1..]));
    }
  }

  // ---------- Amounts ----------

  /** The amount for each node, zero included. */
  function Division(mains: seq<string>, pool: nat, total: nat, paid: nat, nodes: seq<EligibleNode>): (r: seq<nat>)
    requires Covered(mains, pool, total, paid, nodes)
    ensures |r| == |nodes|
    decreases |nodes|
  {
    if nodes == [] then []
    else
      var amount := NextAmount(mains, pool, total, paid, nodes);
      [amount] + Division(mains, pool, total, paid + amount, nodes[1..])
  }

  /** One payment per node with a positive amount, in order. */
  function Listed(nodes: seq<EligibleNode>, amounts: seq<nat>): seq<LotteryPayment>
    requires |nodes| == |amounts|
  {
    if nodes == [] then []
    else
      (if amounts[0] == 0 then [] else [LotteryPayment(nodes[0].peerId, nodes[0].rewardAddress, amounts[0])])
      + Listed(nodes[1..], amounts[1..])
  }

  lemma {:induction false} PayoutsListed(mains: seq<string>, pool: nat, total: nat, paid: nat,
                                         nodes: seq<EligibleNode>)
    requires Covered(mains, pool, total, paid, nodes)
    ensures Payouts(mains, pool, total, paid, nodes) == Listed(nodes, Division(mains, pool, total, paid, nodes))
    decreases |nodes|
  {
    if nodes != [] {
      var amount := NextAmount(mains, pool, total, paid, nodes);
      PayoutsListed(mains, pool, total, paid + amount, nodes[1..]);
      var rest := Division(mains, pool, total, paid + amount, nodes[1..]);
      assert ([amount] + rest)[1..] == rest;
    }
  }

  /** The floored share; a product beyond u128 is cut off there. */
  ghost predicate FairShare(pool: nat, weight: nat, total: nat, x: nat) {
    if pool * weight <= U128_MAX then x * total <= pool * weight < (x + 1) * total
    else x * total <= U128_MAX < (x + 1) * total
  }

  lemma ShareIsFair(pool: nat, weight: nat, total: nat)
    requires total > 0
    ensures FairShare(pool, weight, total, Share(pool, weight, total))
  {
    AddTimes(Share(pool, weight, total), 1, total);
  }

  lemma {:induction false} DivisionShares(mains: seq<string>, pool: nat, total: nat, paid: nat,
                                          nodes: seq<EligibleNode>, i: nat)
    requires Covered(mains, pool, total, paid, nodes) && i + 1 < |nodes|
    ensures FairShare(pool, FairWeight(mains, nodes[i]), total, Division(mains, pool, total, paid, nodes)[i])
    decreases |nodes|
  {
    var amount := NextAmount(mains, pool, total, paid, nodes);
    if i == 0 {
      ShareIsFair(pool, FairWeight(mains, nodes[0]), total);
    } else {
      DivisionShares(mains, pool, total, paid + amount, nodes[1..], i - 1);
    }
  }

  // ---------- The last peer ----------

  ghost predicate Unsaturated(mains: seq<string>, pool: nat, nodes: seq<EligibleNode>) {
    forall node :: node in nodes ==> pool * FairWeight(mains, node) <= U128_MAX
  }

  /** What has been paid falls short of the exact shares by at most one unit for each of the
      nodes served. */
  predicate Close(mains: seq<string>, pool: nat, total: nat, paid: nat, nodes: seq<EligibleNode>, served: nat) {
    pool * total <= paid * total + pool * FairTotal(mains, nodes) + served * total
  }

  lemma CloseStep(mains: seq<string>, pool: nat, total: nat, paid: nat, nodes: seq<EligibleNode>, served: nat)
    requires nodes != [] && total > 0 && Close(mains, pool, total, paid, nodes, served)
    requires pool * FairWeight(mains, nodes[0]) <= U128_MAX
    ensures Close(mains, pool, total, paid + Share(pool, FairWeight(mains, nodes[0]), total), nodes[1..], served + 1)
  {
    var w := FairWeight(mains, nodes[0]);
    var share := Share(pool, w, total);
    AddTimes(paid, share, total);
    AddTimes(served, 1, total);
    TimesAdd(pool, w, FairTotal(mains, nodes[1..]));
  }

  /** The rest that the last peer takes is never below its exact share, and above it by no
      more than one unit per other peer. */
  ghost predicate FairRest(pool: nat, weight: nat, total: nat, others: nat, x: nat) {
    pool * weight <= x * total <= pool * weight + others * total
  }

  lemma {:induction false} DivisionRest(mains: seq<string>, pool: nat, total: nat, paid: nat,
                                        nodes: seq<EligibleNode>, served: nat)
    requires nodes != [] && Covered(mains, pool, total, paid, nodes)
    ensures var last := |nodes| - 1;
      var x, w := Division(mains, pool, total, paid, nodes)[last], FairWeight(mains, nodes[last]);
      && pool * w <= x * total
      && (Unsaturated(mains, pool, nodes) && Close(mains, pool, total, paid, nodes, served) ==>
            FairRest(pool, w, total, served + last, x))
    decreases |nodes|
  {
    var amount := NextAmount(mains, pool, total, paid, nodes);
    if |nodes| == 1 {
      TotalIsFair(mains, nodes);
      assert nodes[1..] == [];
      AddTimes(pool - paid, paid, total);
    } else {
      DivisionRest(mains, pool, total, paid + amount, nodes[1..], served + 1);
      if Unsaturated(mains, pool, nodes) && Close(mains, pool, total, paid, nodes, served) {
        assert nodes[0] in nodes;
        CloseStep(mains, pool, total, paid, nodes, served);
        assert Unsaturated(mains, pool, nodes[1..]);
      }
    }
  }

  // ---------- The settlement ----------

  /** How a pool is divided among peers in text order. */
  ghost predicate FairlyDivided(mains: seq<string>, pool: nat, total: nat, nodes: seq<EligibleNode>,
                                amounts: seq<nat>)
    requires |amounts| == |nodes| > 0
  {
    var last := |nodes| - 1;
    && (forall i :: 0 <= i < last ==> FairShare(pool, FairWeight(mains, nodes[i]), total, amounts[i]))
    && pool * FairWeight(mains, nodes[last]) <= amounts[last] * total
    && (Unsaturated(mains, pool, nodes) ==>
          FairRest(pool, FairWeight(mains, nodes[last]), total, last, amounts[last]))
  }

  lemma DivisionIsFair(mains: seq<string>, pool: nat, total: nat, nodes: seq<EligibleNode>)
    requires nodes != [] && total == FairTotal(mains, nodes) && Covered(mains, pool, total, 0, nodes)
    ensures FairlyDivided(mains, pool, total, nodes, Division(mains, pool, total, 0, nodes))
  {
    forall i | 0 <= i < |nodes| - 1
      ensures FairShare(pool, FairWeight(mains, nodes[i]), total, Division(mains, pool, total, 0, nodes)[i])
    {
      DivisionShares(mains, pool, total, 0, nodes, i);
    }
    DivisionRest(mains, pool, total, 0, nodes, 0);
  }

  /** A settlement lists the peers in text order, leaves out exactly those whose amount is
      zero, and divides the pool fairly by weight. */
  lemma SettlementIsFair(mains: seq<string>, height: nat, timestamp: nat, distributed: nat,
                         eligible: seq<EligibleNode>) returns (nodes: seq<EligibleNode>, amounts: seq<nat>)
    requires RewardActive(height, timestamp) && eligible != [] && Pool(timestamp, distributed) > 0
    ensures multiset(nodes) == multiset(eligible) && |amounts| == |nodes| == |eligible|
    ensures forall i, j :: 0 <= i < j < |nodes| ==> TextLe(nodes[i].peerId, nodes[j].peerId)
    ensures Settlement(mains, height, timestamp, distributed, eligible) == Listed(nodes, amounts)
    ensures FairlyDivided(mains, Pool(timestamp, distributed), FairTotal(mains, eligible), nodes, amounts)
  {
    nodes := SortedNodes(eligible);
    PeerOrder();
    SortFacts(PeerLe, eligible);
    SortTotal(mains, eligible);
    TotalIsFair(mains, nodes);
    var pool, total := Pool(timestamp, distributed), TotalWeight(mains, nodes);
    amounts := Division(mains, pool, total, 0, nodes);
    PayoutsListed(mains, pool, total, 0, nodes);
    DivisionIsFair(mains, pool, total, nodes);
  }

  /** Something is paid exactly from height 100 on, within the reward period, while there are
      nodes and budget. */
  lemma SettlementPaysIff(mains: seq<string>, height: nat, timestamp: nat, distributed: nat,
                          eligible: seq<EligibleNode>)
    ensures Settlement(mains, height, timestamp, distributed, eligible) != [] <==>
      && height >= 100 && 1_786_287_600 <= timestamp <= 2_240_611_199
      && eligible != [] && Pool(timestamp, distributed) > 0
  {
    SettlementPaysThePool(mains, height, timestamp, distributed, eligible);
  }

  /** Of two peers before the last the heavier is never paid less. */
  lemma HeavierGetsMore(mains: seq<string>, pool: nat, total: nat, nodes: seq<EligibleNode>, amounts: seq<nat>,
                        i: nat, j: nat)
    requires |amounts| == |nodes| > 0 && total > 0 && FairlyDivided(mains, pool, total, nodes, amounts)
    requires i + 1 < |nodes| && j + 1 < |nodes| && FairWeight(mains, nodes[i]) <= FairWeight(mains, nodes[j])
    ensures amounts[i] <= amounts[j]
  {
    var x, y := amounts[i], amounts[j];
    assert FairShare(pool, FairWeight(mains, nodes[i]), total, x);
    assert FairShare(pool, FairWeight(mains, nodes[j]), total, y);
    ScaleUp(FairWeight(mains, nodes[i]), FairWeight(mains, nodes[j]), pool);
    AddTimes(y, 1, total);
    CancelFactor(x, y, total);
  }
}
