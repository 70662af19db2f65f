/** The weighted reward lottery (src/traffic_rewards.rs, `draw_lottery`). The hash of seed
    and round is an input: `hash(round)` stands for its first eight bytes. */
module Lottery {
  import opened Basics
  import opened Sorting
  import opened Arithmetic
  import opened Emission

  // ---------- Integer square root ----------

  function Root(value: nat): (r: nat)
    ensures r * r <= value < (r + 1) * (r + 1)
  {
    if value == 0 then 0
    else
      var r := Root(value - 1);
      SquareStep(r);
      if (r + 1) * (r + 1) <= value then r + 1 else r
  }

  lemma SquareStep(r: nat)
    ensures (r + 1) * (r + 1) == r * r + 2 * r + 1
    ensures (r + 2) * (r + 2) == (r + 1) * (r + 1) + 2 * r + 3
  {
  }

  lemma SquareGrows(a: nat, b: nat)
    requires a <= b
    ensures a * a <= b * b
  {
    ScaleUp(a, b, a);
    ScaleUp(a, b, b);
  }

  /** There is only one floor root. */
  lemma RootUnique(value: nat, r: nat)
    requires r * r <= value < (r + 1) * (r + 1)
    ensures r == Root(value)
  {
    var q := Root(value);
    if r < q {
      SquareGrows(r + 1, q);
    } else if q < r {
      SquareGrows(q + 1, r);
    }
  }

  /** The comparison by division is the comparison of the square. */
  lemma DivisionTest(middle: nat, value: nat)
    requires middle > 0
    ensures middle <= value / middle <==> middle * middle <= value
  {
    QuotientBounds(value, middle);
    if middle <= value / middle {
      ScaleUp(middle, value / middle, middle);
    }
    if middle * middle <= value {
      CancelFactor(middle, value / middle, middle);
    }
  }

  /** Binary search for the floor root, without ever squaring in 64 bits. */
  method IntegerSqrt(value: u64) returns (r: u64)
    ensures r * r <= value < (r + 1) * (r + 1)
    ensures r == Root(value)
  {
    if value < 2 {
      RootUnique(value, value);
      return value;
    }
    var left: nat, right: nat := 1, Min(value, U32_MAX);
    Beyond(value, right);
    while left <= right
      invariant 1 <= left <= right + 1 <= U32_MAX + 1
      invariant (left - 1) * (left - 1) <= value < (right + 1) * (right + 1)
      decreases right + 1 - left
    {
      var middle := left + (right - left) / 2;
      DivisionTest(middle, value);
      if middle <= value / middle {
        left := middle + 1;
      } else {
        right := middle - 1;
      }
    }
    RootUnique(value, right);
    r := right;
  }

  lemma Beyond(value: u64, right: nat)
    requires right == Min(value, U32_MAX)
    ensures value < (right + 1) * (right + 1)
  {
    if right == value {
      ScaleUp(1, value + 1, value + 1);
    }
  }

  // ---------- One weighted draw ----------

  function SumOf(weights: seq<nat>): nat {
    if weights == [] then 0 else weights[0] + SumOf(weights[1..])
  }

  /** The interval of index i is [Start(i), Start(i) + weights[i]). */
  function Start(weights: seq<nat>, i: nat): nat
    requires i <= |weights|
  {
    SumOf(weights[..i])
  }

  function Pick(weights: seq<nat>, cursor: nat): (i: nat)
    requires cursor < SumOf(weights)
    ensures i < |weights|
  {
    if cursor < weights[0] then 0 else 1 + Pick(weights[1..], cursor - weights[0])
  }

  lemma StartStep(weights: seq<nat>, i: nat)
    requires 0 < i <= |weights|
    ensures Start(weights, i) == weights[0] + Start(weights[1..], i - 1)
  {
    assert weights[..i][1..] == weights[1..][..i - 1];
  }

  /** The draw selects index i exactly when the cursor lies in its interval, so each index is
      hit by as many cursors as its weight. */
  lemma {:induction false} PickIffInterval(weights: seq<nat>, cursor: nat, i: nat)
    requires cursor < SumOf(weights) && i < |weights|
    ensures Pick(weights, cursor) == i <==> Start(weights, i) <= cursor < Start(weights, i) + weights[i]
  {
    assert Start(weights, 0) == 0;
    if i > 0 {
      StartStep(weights, i);
      if cursor >= weights[0] {
        PickIffInterval(weights[1..], cursor - weights[0], i - 1);
      }
    }
  }

  method PickIndex(weights: seq<nat>, cursor: nat) returns (selected: nat)
    requires cursor < SumOf(weights)
    ensures selected == Pick(weights, cursor)
  {
    selected := 0;
    var c, index := cursor, 0;
    assert weights[0..] == weights;
    while index < |weights|
      invariant 0 <= index <= |weights| && 0 <= c < SumOf(weights[index..])
      invariant Pick(weights, cursor) == index + Pick(weights[index..], c)
    {
      assert weights[index..][1..] == weights[index + 1..];
      if c < weights[index] {
        return index;
      }
      c := c - weights[index];
      index := index + 1;
    }
  }

  // ---------- The lottery ----------

  function NodeRoot(node: EligibleNode): (w: nat)
    ensures w >= 1
  {
    Root(Max(node.points, 1))
  }

  function NodeRoots(nodes: seq<EligibleNode>): seq<nat> {
    seq(|nodes|, i requires 0 <= i < |nodes| => NodeRoot(nodes[i]))
  }

  lemma {:induction false} RootsPositive(nodes: seq<EligibleNode>)
    ensures SumOf(NodeRoots(nodes)) >= |nodes|
  {
    if nodes != [] {
      assert NodeRoots(nodes)[1..] == NodeRoots(nodes[1..]);
      RootsPositive(nodes[1..]);
    }
  }

  function Without(nodes: seq<EligibleNode>, i: nat): seq<EligibleNode>
    requires i < |nodes|
  {
    nodes[..i] + nodes[i + 1..]
  }

  function WinnerAt(hash: nat -> u64, nodes: seq<EligibleNode>, round: nat): (i: nat)
    requires nodes != []
    ensures i < |nodes|
  {
    RootsPositive(nodes);
    Pick(NodeRoots(nodes), hash(round) % SumOf(NodeRoots(nodes)))
  }

  /** The nodes drawn in rounds `round` to `draws - 1`. */
  function Winners(hash: nat -> u64, nodes: seq<EligibleNode>, round: nat, draws: nat): seq<EligibleNode>
    requires round <= draws <= round + |nodes|
    decreases |nodes|
  {
    if round == draws then []
    else
      var i := WinnerAt(hash, nodes, round);
      [nodes[i]] + Winners(hash, Without(nodes, i), round + 1, draws)
  }

  function Prizes(winners: seq<EligibleNode>, amount: nat): seq<LotteryPayment> {
    seq(|winners|, i requires 0 <= i < |winners| => LotteryPayment(winners[i].peerId, winners[i].rewardAddress, amount))
  }

  function Draws(winnerCount: nat, nodes: seq<EligibleNode>): nat {
    Min(winnerCount, |nodes|)
  }

  function Lottery(hash: nat -> u64, pool: u128, winnerCount: nat, nodes: seq<EligibleNode>): seq<LotteryPayment> {
    if pool == 0 || winnerCount == 0 || nodes == [] then []
    else
      var draws := Draws(winnerCount, nodes);
      var amount := Quotient(pool, draws);
      if amount == 0 then [] else Prizes(Winners(hash, SortedNodes(nodes), 0, draws), amount)
  }

  method DrawLottery(hash: nat -> u64, pool: u128, winnerCount: nat, nodes: seq<EligibleNode>)
    returns (payments: seq<LotteryPayment>)
    ensures payments == Lottery(hash, pool, winnerCount, nodes)
  {
    if pool == 0 || winnerCount == 0 || nodes == [] {
      return [];
    }
    var remaining := SortedNodes(nodes);
    var draws := Min(winnerCount, |remaining|);
    var amount := Quotient(pool, draws);
    if amount == 0 {
      return [];
    }
    ghost var all := Winners(hash, remaining, 0, draws);
    ghost var drawn: seq<EligibleNode> := [];
    payments := [];
    var round := 0;
    while round < draws
      invariant 0 <= round <= draws && |remaining| == |nodes| - round
      invariant payments == Prizes(drawn, amount)
      invariant all == drawn + Winners(hash, remaining, round, draws)
    {
      RootsPositive(remaining);
      var weights := RootsOf(remaining);
      var selected := PickIndex(weights, hash(round) % SumOf(weights));
      var node := remaining[selected];
      PrizesSnoc(drawn, node, amount);
      payments := payments + [LotteryPayment(node.peerId, node.rewardAddress, amount)];
      MoveOver(drawn, Winners(hash, remaining, round, draws));
      assert Winners(hash, remaining, round, draws)[1..]
        == Winners(hash, Without(remaining, selected), round + 1, draws);
      drawn := drawn + [node];
      remaining := Without(remaining, selected);
      round := round + 1;
    }
    assert all == drawn;
  }

  lemma PrizesSnoc(winners: seq<EligibleNode>, node: EligibleNode, amount: nat)
    ensures Prizes(winners + [node], amount)
      == Prizes(winners, amount) + [LotteryPayment(node.peerId, node.rewardAddress, amount)]
  {
  }

  method RootsOf(nodes: seq<EligibleNode>) returns (weights: seq<nat>)
    ensures weights == NodeRoots(nodes)
  {
    weights := [];
    var i := 0;
    while i < |nodes|
      invariant 0 <= i <= |nodes| && weights == NodeRoots(nodes)[..i]
    {
      var root := IntegerSqrt(Max(nodes[i].points, 1));
      weights := weights + [root];
      i := i + 1;
    }
  }

  // ---------- What a lottery does ----------

  lemma {:induction false} WinnersFromNodes(hash: nat -> u64, nodes: seq<EligibleNode>, round: nat, draws: nat)
    requires round <= draws <= round + |nodes|
    ensures |Winners(hash, nodes, round, draws)| == draws - round
    ensures multiset(Winners(hash, nodes, round, draws)) <= multiset(nodes)
    decreases |nodes|
  {
    if round < draws {
      var i := WinnerAt(hash, nodes, round);
      WinnersFromNodes(hash, Without(nodes, i), round + 1, draws);
      DrawOne(nodes, i, Winners(hash, Without(nodes, i), round + 1, draws));
    }
  }

  lemma DrawOne(nodes: seq<EligibleNode>, i: nat, later: seq<EligibleNode>)
    requires i < |nodes| && multiset(later) <= multiset(Without(nodes, i))
    ensures multiset([nodes[i]] + later) <= multiset(nodes)
  {
    assert nodes == nodes[..i] + ([nodes[i]] + nodes[i + 1..]);
    assert multiset(nodes) == multiset(Without(nodes, i)) + multiset{nodes[i]};
    assert multiset([nodes[i]] + later) == multiset{nodes[i]} + multiset(later);
  }

  lemma {:induction false} PrizesPaid(winners: seq<EligibleNode>, amount: nat)
    ensures Paid(Prizes(winners, amount)) == |winners| * amount
  {
    if winners != [] {
      assert Prizes(winners, amount)[1..] == Prizes(winners[1..], amount);
      PrizesPaid(winners[1..], amount);
      AddTimes(|winners| - 1, 1, amount);
    }
  }

  /** The lottery never pays more than the pool, and what stays unpaid is less than one unit
      per draw. */
  lemma UnpaidBelowDraws(hash: nat -> u64, pool: u128, winnerCount: nat, nodes: seq<EligibleNode>)
    requires winnerCount > 0 && nodes != []
    ensures var paid := Paid(Lottery(hash, pool, winnerCount, nodes));
      paid <= pool < paid + Draws(winnerCount, nodes)
  {
    LotteryPays(hash, pool, winnerCount, nodes);
    QuotientWithin(pool, Draws(winnerCount, nodes));
  }

  lemma LotteryPays(hash: nat -> u64, pool: u128, winnerCount: nat, nodes: seq<EligibleNode>)
    requires winnerCount > 0 && nodes != []
    ensures var draws := Draws(winnerCount, nodes);
      Paid(Lottery(hash, pool, winnerCount, nodes)) == draws * Quotient(pool, draws)
  {
    var draws := Draws(winnerCount, nodes);
    var amount := Quotient(pool, draws);
    if amount == 0 {
      assert draws * amount == 0;
    } else {
      AllPrizesPaid(hash, SortedNodes(nodes), draws, amount);
    }
  }

  lemma AllPrizesPaid(hash: nat -> u64, nodes: seq<EligibleNode>, draws: nat, amount: nat)
    requires draws <= |nodes|
    ensures Paid(Prizes(Winners(hash, nodes, 0, draws), amount)) == draws * amount
  {
    WinnersFromNodes(hash, nodes, 0, draws);
    PrizesPaid(Winners(hash, nodes, 0, draws), amount);
  }

  ghost predicate EachOnce(nodes: seq<EligibleNode>) {
    DistinctPeers(nodes) && forall n :: multiset(nodes)[n] <= 1
  }

  lemma SameTwice(s: seq<EligibleNode>, i: nat, j: nat)
    requires i < j < |s| && s[i] == s[j]
    ensures multiset(s)[s[i]] >= 2
  {
    assert s[..j][i] == s[i];
    assert s == s[..j] + ([s[j]] + s[j + 1..]);
    assert multiset(s) == multiset(s[..j]) + multiset{s[j]} + multiset(s[j + 1..]);
  }

  /** The payment goes to the reward address of one of the nodes. */
  ghost predicate Eligible(nodes: seq<EligibleNode>, p: LotteryPayment) {
    exists n :: n in nodes && p.peerId == n.peerId && p.rewardAddress == n.rewardAddress
  }

  /** No peer wins twice, and every winner is an eligible node with its own address. */
  lemma WinnersDistinct(hash: nat -> u64, pool: u128, winnerCount: nat, nodes: seq<EligibleNode>)
    requires EachOnce(nodes)
    ensures var payments := Lottery(hash, pool, winnerCount, nodes);
      && (forall i, j :: 0 <= i < j < |payments| ==> payments[i].peerId != payments[j].peerId)
      && (forall p :: p in payments ==> Eligible(nodes, p))
  {
    var payments := Lottery(hash, pool, winnerCount, nodes);
    if payments != [] {
      var draws := Draws(winnerCount, nodes);
      var winners := Winners(hash, SortedNodes(nodes), 0, draws);
      WinnersFromNodes(hash, SortedNodes(nodes), 0, draws);
      forall n | n in winners ensures n in nodes {
        assert n in multiset(winners) && n in multiset(nodes);
      }
      forall i, j | 0 <= i < j < |winners| ensures winners[i].peerId != winners[j].peerId {
        if winners[i].peerId == winners[j].peerId {
          assert winners[i] in nodes && winners[j] in nodes;
          SameTwice(winners, i, j);
        }
      }
      forall p | p in payments ensures Eligible(nodes, p) {
        var i :| 0 <= i < |payments| && payments[i] == p;
        assert winners[i] in nodes;
      }
    }
  }

  // ---------- Who wins ----------

  /** The weights are the floored roots of the points, of one point for a node without any. */
  ghost predicate AreRoots(nodes: seq<EligibleNode>, roots: seq<nat>) {
    && |roots| == |nodes|
    && (forall i :: 0 <= i < |nodes| ==>
          roots[i] * roots[i] <= Max(nodes[i].points, 1) < (roots[i] + 1) * (roots[i] + 1))
  }

  lemma OneListOfRoots(nodes: seq<EligibleNode>, roots: seq<nat>)
    requires AreRoots(nodes, roots)
    ensures roots == NodeRoots(nodes)
  {
    forall i | 0 <= i < |nodes| ensures roots[i] == NodeRoots(nodes)[i] {
      RootUnique(Max(nodes[i].points, 1), roots[i]);
    }
  }

  /** Who is still in the draw after so many rounds. */
  function LeftAfter(hash: nat -> u64, nodes: seq<EligibleNode>, round: nat, k: nat): (left: seq<EligibleNode>)
    requires k <= |nodes|
    ensures |left| == |nodes| - k
    decreases k
  {
    if k == 0 then nodes else LeftAfter(hash, Without(nodes, WinnerAt(hash, nodes, round)), round + 1, k - 1)
  }

  lemma {:induction false} WinnerOfRound(hash: nat -> u64, nodes: seq<EligibleNode>, round: nat, draws: nat, k: nat)
    requires round + k < draws <= round + |nodes|
    ensures k < |Winners(hash, nodes, round, draws)|
    ensures WinsRound(hash, LeftAfter(hash, nodes, round, k), round + k, Winners(hash, nodes, round, draws)[k])
    decreases k
  {
    var i := WinnerAt(hash, nodes, round);
    var later := Winners(hash, Without(nodes, i), round + 1, draws);
    assert Winners(hash, nodes, round, draws) == [nodes[i]] + later;
    if k > 0 {
      WinnerOfRound(hash, Without(nodes, i), round + 1, draws, k - 1);
    }
  }

  predicate WinsRound(hash: nat -> u64, left: seq<EligibleNode>, round: nat, winner: EligibleNode) {
    left != [] && winner == left[WinnerAt(hash, left, round)]
  }

  lemma RootsDecide(hash: nat -> u64, left: seq<EligibleNode>, round: nat, roots: seq<nat>, i: nat)
    requires AreRoots(left, roots) && i < |roots| && SumOf(roots) > 0
    requires Start(roots, i) <= hash(round) % SumOf(roots) < Start(roots, i) + roots[i]
    ensures WinnerAt(hash, left, round) == i
  {
    OneListOfRoots(left, roots);
    PickIffInterval(roots, hash(round) % SumOf(roots), i);
  }

  lemma PrizeOf(hash: nat -> u64, pool: u128, winnerCount: nat, nodes: seq<EligibleNode>, k: nat)
    requires k < |Lottery(hash, pool, winnerCount, nodes)|
    ensures nodes != [] && winnerCount > 0 && k < Draws(winnerCount, nodes)
    ensures var winners := Winners(hash, SortedNodes(nodes), 0, Draws(winnerCount, nodes));
      k < |winners| && Lottery(hash, pool, winnerCount, nodes)[k]
        == LotteryPayment(winners[k].peerId, winners[k].rewardAddress, pool / Draws(winnerCount, nodes))
  {
    WinnersFromNodes(hash, SortedNodes(nodes), 0, Draws(winnerCount, nodes));
  }

  /** There are as many winners as asked for, or all nodes if there are fewer, unless the pool
      has not a unit for each. */
  lemma WinnerCount(hash: nat -> u64, pool: u128, winnerCount: nat, nodes: seq<EligibleNode>)
    ensures var places := if winnerCount <= |nodes| then winnerCount else |nodes|;
      |Lottery(hash, pool, winnerCount, nodes)| == if pool >= places then places else 0
  {
    if winnerCount > 0 && nodes != [] {
      var places := Draws(winnerCount, nodes);
      WinnersFromNodes(hash, SortedNodes(nodes), 0, places);
      UnitForEach(pool, places);
    }
  }

  lemma UnitForEach(pool: nat, places: nat)
    requires places > 0
    ensures Quotient(pool, places) > 0 <==> pool >= places
  {
    if pool >= places {
      CancelFactor(1, Quotient(pool, places), places);
    } else {
      QuotientUnique(pool, places, 0);
    }
  }

  /** The hash of the round decides: payment k goes to the node, among those still in the draw,
      into whose interval of roots the hash falls modulo the sum of the roots, and it is an
      equal part of the pool. */
  lemma HashDecides(hash: nat -> u64, pool: u128, winnerCount: nat, nodes: seq<EligibleNode>, k: nat,
                    roots: seq<nat>, i: nat)
    requires k < |Lottery(hash, pool, winnerCount, nodes)| && k <= |nodes|
    requires AreRoots(LeftAfter(hash, SortedNodes(nodes), 0, k), roots) && i < |roots| && SumOf(roots) > 0
    requires Start(roots, i) <= hash(k) % SumOf(roots) < Start(roots, i) + roots[i]
    ensures var winner := LeftAfter(hash, SortedNodes(nodes), 0, k)[i];
      Lottery(hash, pool, winnerCount, nodes)[k]
        == LotteryPayment(winner.peerId, winner.rewardAddress, pool / Draws(winnerCount, nodes))
  {
    var sorted := SortedNodes(nodes);
    PrizeOf(hash, pool, winnerCount, nodes, k);
    WinnerOfRound(hash, sorted, 0, Draws(winnerCount, nodes), k);
    RootsDecide(hash, LeftAfter(hash, sorted, 0, k), k, roots, i);
  }

  /** Validators that list the same distinct peers in different orders draw alike. */
  lemma LotteryIgnoresOrder(hash: nat -> u64, pool: u128, winnerCount: nat, a: seq<EligibleNode>, b: seq<EligibleNode>)
    requires multiset(a) == multiset(b) && DistinctPeers(a)
    ensures Lottery(hash, pool, winnerCount, a) == Lottery(hash, pool, winnerCount, b)
  {
    assert |a| == |multiset(a)| == |multiset(b)| == |b|;
    TextOrder();
    PeerOrder();
    SortIgnoresOrder(PeerLe, a, b);
  }

  /** The 64-bit sum of the roots fits for up to 2^32 nodes. */
  lemma {:induction false} RootsFit(nodes: seq<EligibleNode>)
    ensures SumOf(NodeRoots(nodes)) <= |nodes| * U32_MAX
    ensures |nodes| <= 0x1_0000_0000 ==> SumOf(NodeRoots(nodes)) <= U64_MAX
  {
    if nodes != [] {
      assert NodeRoots(nodes)[1..] == NodeRoots(nodes[1..]);
      RootsFit(nodes[1..]);
      RootFits(Max(nodes[0].points, 1));
    }
  }

  lemma RootFits(value: u64)
    ensures Root(value) <= U32_MAX
  {
    if Root(value) > U32_MAX {
      SquareGrows(U32_MAX + 1, Root(value));
    }
  }
}
