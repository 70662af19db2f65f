/** Automatic node rewards (src/node_emission.rs): the halving budget, the daily pool and
    its settlement among the eligible nodes. */
module Emission {
  import opened Basics
  import opened Sorting
  import opened Arithmetic

  const IEUM: nat := 1_000_000_000_000_000_000
  const TOTAL_NODE_EMISSION: nat := 210_000_000 * IEUM
  const REWARD_ACTIVATION_HEIGHT: nat := 100
  const REWARD_ACTIVATION_UNIX: nat := 1_786_287_600
  const REWARD_END_UNIX: nat := 2_240_611_199
  const REWARD_EPOCH_SECONDS: nat := 86_400
  const HALVING_SECONDS: nat := 365 * REWARD_EPOCH_SECONDS
  const NORMAL_NODE_WEIGHT_BPS: nat := 10_000
  const MAIN_NODE_WEIGHT_BPS: nat := 15_000

  // ---------- Budgets ----------

  function Pow2(n: nat): (r: nat)
    ensures r >= 1
  {
    if n == 0 then 1 else 2 * Pow2(n - 1)
  }

  function YearCount(): nat { (REWARD_END_UNIX - REWARD_ACTIVATION_UNIX) / HALVING_SECONDS + 1 }

  /** The floored share of a year among `years` years, each half of the one before. */
  function YearShare(total: nat, years: nat, year: nat): nat
    requires year < years
  {
    Quotient(total * Pow2(years - year - 1), YearWeights(years))
  }

  /** The weights 2^(years - 1), ..., 2, 1 together. */
  function YearWeights(years: nat): (w: nat)
    ensures years > 0 ==> w > 0
  {
    Pow2(years) - 1
  }

  function SharesBefore(total: nat, years: nat, year: nat): nat
    requires year <= years
  {
    if year == 0 then 0 else SharesBefore(total, years, year - 1) + YearShare(total, years, year - 1)
  }

  /** `annual_budget` for any total and number of years; the last year takes what is left. */
  function AnnualBudget(total: nat, years: nat, year: nat): int {
    if year >= years then 0
    else if year + 1 == years then total - SharesBefore(total, years, year)
    else YearShare(total, years, year)
  }

  function BudgetsBefore(total: nat, years: nat, year: nat): int {
    if year == 0 then 0 else BudgetsBefore(total, years, year - 1) + AnnualBudget(total, years, year - 1)
  }

  /** The shares handed out before a year, scaled by the denominator, stay below the total
      times the weights of those years. */
  lemma {:induction false} SharesBound(total: nat, years: nat, year: nat)
    requires year <= years && years > 0
    ensures SharesBefore(total, years, year) * YearWeights(years) + total * YearWeights(years - year)
      <= total * YearWeights(years)
    decreases year
  {
    if year > 0 {
      SharesBound(total, years, year - 1);
      var d, w := YearWeights(years), Pow2(years - year);
      assert YearWeights(years - (year - 1)) == YearWeights(years - year) + w;
      TimesAdd(total, YearWeights(years - year), w);
      AddTimes(SharesBefore(total, years, year - 1), YearShare(total, years, year - 1), d);
    } else {
      assert SharesBefore(total, years, 0) * YearWeights(years) == 0;
    }
  }

  /** The subtraction in the last year never underflows. */
  lemma SharesWithinTotal(total: nat, years: nat, year: nat)
    requires year < years
    ensures SharesBefore(total, years, year) <= total
  {
    SharesBound(total, years, year);
    ScaleUp(0, YearWeights(years - year), total);
    CancelFactor(SharesBefore(total, years, year), total, YearWeights(years));
  }

  lemma {:induction false} BudgetsAreShares(total: nat, years: nat, year: nat)
    requires year < years
    ensures BudgetsBefore(total, years, year) == SharesBefore(total, years, year)
    decreases year
  {
    if year > 0 {
      BudgetsAreShares(total, years, year - 1);
    }
  }

  /** For any number of years the yearly budgets are natural numbers that add up to the total,
      to the last unit. */
  lemma BudgetsSumToTotal(total: nat, years: nat)
    requires years > 0
    ensures BudgetsBefore(total, years, years) == total
    ensures forall year: nat :: AnnualBudget(total, years, year) >= 0
  {
    BudgetsAreShares(total, years, years - 1);
    forall year: nat ensures AnnualBudget(total, years, year) >= 0 {
      if year < years {
        SharesWithinTotal(total, years, year);
      }
    }
  }

  /** Before the last year each budget is twice the next one, up to one unit of rounding. */
  lemma BudgetHalves(total: nat, years: nat, year: nat)
    requires year + 2 < years
    ensures 2 * AnnualBudget(total, years, year + 1) <= AnnualBudget(total, years, year)
      <= 2 * AnnualBudget(total, years, year + 1) + 1
  {
    var d, a := YearWeights(years), total * Pow2(years - year - 2);
    assert Pow2(years - year - 1) == Pow2(years - year - 2) + Pow2(years - year - 2);
    TimesAdd(total, Pow2(years - year - 2), Pow2(years - year - 2));
    DoubleQuotient(a, d);
  }

  lemma DoubleQuotient(a: nat, d: nat)
    requires d > 0
    ensures 2 * Quotient(a, d) <= Quotient(a + a, d) <= 2 * Quotient(a, d) + 1
  {
    var q, p := Quotient(a, d), Quotient(a + a, d);
    AddTimes(q, q, d);
    AddTimes(2 * q, 1, d);
    CancelFactor(2 * q, p, d);
    CancelFactor(p, 2 * q + 1, d);
  }

  function HalvingIndex(timestamp: nat): Option<nat> {
    if REWARD_ACTIVATION_UNIX <= timestamp <= REWARD_END_UNIX
      then Some((timestamp - REWARD_ACTIVATION_UNIX) / HALVING_SECONDS) else None
  }

  /** The days of a reward year, the last one cut short by the end of the programme. */
  function YearDays(year: nat): nat
    requires year < YearCount()
  {
    var start := REWARD_ACTIVATION_UNIX + year * HALVING_SECONDS;
    var end := Min(start + HALVING_SECONDS - 1, REWARD_END_UNIX);
    (end - start + 1 + REWARD_EPOCH_SECONDS - 1) / REWARD_EPOCH_SECONDS
  }

  lemma YearsAreReal(timestamp: nat)
    ensures YearCount() == 15
    ensures HalvingIndex(timestamp).Some? ==> HalvingIndex(timestamp).value < YearCount()
    ensures forall year: nat :: year < YearCount() ==> 1 <= YearDays(year) <= 365
  {
  }

  function DailyBudget(timestamp: nat): (budget: nat)
  {
    YearsAreReal(timestamp);
    BudgetsSumToTotal(TOTAL_NODE_EMISSION, YearCount());
    match HalvingIndex(timestamp)
    case None => 0
    case Some(year) => Quotient(AnnualBudget(TOTAL_NODE_EMISSION, YearCount(), year), YearDays(year))
  }

  /** The reward year of a moment contains it, and its days cover it without a day to spare. */
  lemma YearContains(timestamp: nat)
    requires HalvingIndex(timestamp).Some?
    ensures var year := HalvingIndex(timestamp).value;
      var start := REWARD_ACTIVATION_UNIX + year * HALVING_SECONDS;
      var end := Min(start + HALVING_SECONDS, REWARD_END_UNIX + 1);
      && year < YearCount() && start <= timestamp < end
      && (YearDays(year) - 1) * REWARD_EPOCH_SECONDS < end - start <= YearDays(year) * REWARD_EPOCH_SECONDS
  {
    YearsAreReal(timestamp);
  }

  /** Paying the daily budget on every day of a year never exceeds the budget of that year and
      leaves less than one unit per day. */
  lemma DailyWithinYear(timestamp: nat)
    requires HalvingIndex(timestamp).Some?
    ensures var year := HalvingIndex(timestamp).value;
      var budget := AnnualBudget(TOTAL_NODE_EMISSION, YearCount(), year);
      YearDays(year) * DailyBudget(timestamp) <= budget < YearDays(year) * DailyBudget(timestamp) + YearDays(year)
  {
    YearsAreReal(timestamp);
    BudgetsSumToTotal(TOTAL_NODE_EMISSION, YearCount());
    var year := HalvingIndex(timestamp).value;
    QuotientWithin(AnnualBudget(TOTAL_NODE_EMISSION, YearCount(), year), YearDays(year));
  }

  lemma {:induction false} SharesFitU128(year: nat)
    requires year < YearCount()
    ensures TOTAL_NODE_EMISSION * Pow2(YearCount() - year - 1) <= U128_MAX
  {
    YearsAreReal(0);
    assert Pow2(4) == 16 && Pow2(8) == 256 && Pow2(12) == 4_096 && Pow2(14) == 16_384;
    Pow2Grows(YearCount() - year - 1, 14);
    assert TOTAL_NODE_EMISSION * Pow2(YearCount() - year - 1) <= TOTAL_NODE_EMISSION * 16_384;
  }

  lemma {:induction false} Pow2Grows(a: nat, b: nat)
    requires a <= b
    ensures Pow2(a) <= Pow2(b)
    decreases b
  {
    if a < b {
      Pow2Grows(a, b - 1);
    }
  }

  function RemainingBudget(distributed: nat): (r: nat)
    ensures r <= TOTAL_NODE_EMISSION
    ensures distributed <= TOTAL_NODE_EMISSION ==> distributed + r == TOTAL_NODE_EMISSION
  {
    TOTAL_NODE_EMISSION - Min(distributed, TOTAL_NODE_EMISSION)
  }

  // ---------- Settlement ----------

  datatype EligibleNode = EligibleNode(peerId: string, rewardAddress: string, points: u64, distinctVerifiers: nat)
  datatype LotteryPayment = LotteryPayment(peerId: string, rewardAddress: string, amount: nat)

  /** `mains` lists the main nodes; blank entries name nobody. */
  predicate IsMainNode(mains: seq<string>, peer: string) {
    peer != "" && peer in mains
  }

  function NodeWeight(mains: seq<string>, node: EligibleNode): (w: nat)
    ensures w > 0
  {
    Max(node.points, 1) * (if IsMainNode(mains, node.peerId) then MAIN_NODE_WEIGHT_BPS else NORMAL_NODE_WEIGHT_BPS)
  }

  function TotalWeight(mains: seq<string>, nodes: seq<EligibleNode>): nat {
    if nodes == [] then 0 else NodeWeight(mains, nodes[0]) + TotalWeight(mains, nodes[1..])
  }

  function Share(pool: nat, weight: nat, total: nat): nat
    requires total > 0
  {
    Quotient(Min(pool * weight, U128_MAX), total)
  }

  /** What has been assigned is no more than the weights of the nodes already served allow. */
  predicate Covered(mains: seq<string>, pool: nat, total: nat, paid: nat, nodes: seq<EligibleNode>) {
    total > 0 && paid * total + pool * TotalWeight(mains, nodes) <= pool * total
  }

  lemma CoveredStep(mains: seq<string>, pool: nat, total: nat, paid: nat, nodes: seq<EligibleNode>)
    requires nodes != [] && Covered(mains, pool, total, paid, nodes)
    ensures Covered(mains, pool, total, paid + Share(pool, NodeWeight(mains, nodes[0]), total), nodes[1..])
  {
    var w := NodeWeight(mains, nodes[0]);
    var share, rest := Share(pool, w, total), TotalWeight(mains, nodes[1..]);
    AddTimes(paid, share, total);
    TimesAdd(pool, w, rest);
  }

  lemma CoveredBound(mains: seq<string>, pool: nat, total: nat, paid: nat, nodes: seq<EligibleNode>)
    requires Covered(mains, pool, total, paid, nodes)
    ensures paid <= pool
  {
    ScaleUp(0, TotalWeight(mains, nodes), pool);
    CancelFactor(paid, pool, total);
  }

  function Payment(node: EligibleNode, amount: nat): seq<LotteryPayment> {
    if amount > 0 then [LotteryPayment(node.peerId, node.rewardAddress, amount)] else []
  }

  /** The floored share of the first node, or the whole rest when it is also the last. */
  function NextAmount(mains: seq<string>, pool: nat, total: nat, paid: nat, nodes: seq<EligibleNode>): (amount: nat)
    requires nodes != [] && Covered(mains, pool, total, paid, nodes)
    ensures Covered(mains, pool, total, paid + amount, nodes[1..])
    ensures |nodes| == 1 ==> paid + amount == pool
  {
    CoveredBound(mains, pool, total, paid, nodes);
    CoveredStep(mains, pool, total, paid, nodes);
    CoveredEnd(mains, pool, total);
    if |nodes| == 1 then pool - paid else Share(pool, NodeWeight(mains, nodes[0]), total)
  }

  lemma CoveredEnd(mains: seq<string>, pool: nat, total: nat)
    ensures total > 0 ==> Covered(mains, pool, total, pool, [])
  {
    assert pool * TotalWeight(mains, []) == 0;
  }

  /** Nobody is paid zero. */
  function Payouts(mains: seq<string>, pool: nat, total: nat, paid: nat, nodes: seq<EligibleNode>): seq<LotteryPayment>
    requires Covered(mains, pool, total, paid, nodes)
    decreases |nodes|
  {
    if nodes == [] then []
    else
      var amount := NextAmount(mains, pool, total, paid, nodes);
      Payment(nodes[0], amount) + Payouts(mains, pool, total, paid + amount, nodes[1..])
  }

  function Paid(payments: seq<LotteryPayment>): nat {
    if payments == [] then 0 else payments[0].amount + Paid(payments[1..])
  }

  lemma {:induction false} PaidConcat(a: seq<LotteryPayment>, b: seq<LotteryPayment>)
    ensures Paid(a + b) == Paid(a) + Paid(b)
  {
    if a == [] {
      assert a + b == b;
    } else {
      assert (a + b)[1..] == a[1..] + b;
      PaidConcat(a[1..], b);
    }
  }

  /** Despite flooring and saturation the payouts add up to exactly what was left of the pool. */
  lemma {:induction false} PayoutsPayThePool(mains: seq<string>, pool: nat, total: nat, paid: nat,
                                             nodes: seq<EligibleNode>)
    requires nodes != [] && Covered(mains, pool, total, paid, nodes)
    ensures paid + Paid(Payouts(mains, pool, total, paid, nodes)) == pool
    decreases |nodes|
  {
    var amount := NextAmount(mains, pool, total, paid, nodes);
    PaymentPays(nodes[0], amount);
    PaidConcat(Payment(nodes[0], amount), Payouts(mains, pool, total, paid + amount, nodes[1..]));
    if |nodes| > 1 {
      PayoutsPayThePool(mains, pool, total, paid + amount, nodes[1..]);
    }
  }

  lemma PaymentPays(node: EligibleNode, amount: nat)
    ensures Paid(Payment(node, amount)) == amount
  {
    var p := Payment(node, amount);
    assert p != [] ==> p[1..] == [];
  }

  predicate PeerLe(a: EligibleNode, b: EligibleNode) { TextLe(a.peerId, b.peerId) }

  predicate RewardActive(height: nat, timestamp: nat) {
    height >= REWARD_ACTIVATION_HEIGHT && REWARD_ACTIVATION_UNIX <= timestamp <= REWARD_END_UNIX
  }

  function Pool(timestamp: nat, distributed: nat): nat {
    Min(DailyBudget(timestamp), RemainingBudget(distributed))
  }

  /** The pool is the daily budget, or all that is left of the programme when that is less. */
  lemma PoolSpends(timestamp: nat, distributed: nat)
    requires distributed <= TOTAL_NODE_EMISSION
    ensures var pool := Pool(timestamp, distributed);
      && pool <= DailyBudget(timestamp) && distributed + pool <= TOTAL_NODE_EMISSION
      && (pool == DailyBudget(timestamp) || distributed + pool == TOTAL_NODE_EMISSION)
  {
  }

  lemma {:induction false} WeightsPositive(mains: seq<string>, nodes: seq<EligibleNode>)
    ensures nodes != [] ==> TotalWeight(mains, nodes) > 0
  {
  }

  function Settlement(mains: seq<string>, height: nat, timestamp: nat, distributed: nat,
                      eligible: seq<EligibleNode>): seq<LotteryPayment> {
    if !RewardActive(height, timestamp) || eligible == [] || Pool(timestamp, distributed) == 0 then []
    else
      var nodes := SortedNodes(eligible);
      var total := TotalWeight(mains, nodes);
      Payouts(mains, Pool(timestamp, distributed), total, 0, nodes)
  }

  function SortedNodes(eligible: seq<EligibleNode>): (nodes: seq<EligibleNode>)
    ensures |nodes| == |eligible| && multiset(nodes) == multiset(eligible)
  {
    PeerOrder();
    SortFacts(PeerLe, eligible);
    Sort(PeerLe, eligible)
  }

  lemma PeerOrder()
    ensures TotalPreorder(PeerLe)
  {
    TextOrder();
  }

  lemma PayoutsStep(done: seq<LotteryPayment>, mains: seq<string>, pool: nat, total: nat, paid: nat,
                    nodes: seq<EligibleNode>, index: nat)
    requires index < |nodes| && Covered(mains, pool, total, paid, nodes[index..])
    ensures var amount := NextAmount(mains, pool, total, paid, nodes[index..]);
      && Covered(mains, pool, total, paid + amount, nodes[index + 1..])
      && done + Payouts(mains, pool, total, paid, nodes[index..])
           == (done + Payment(nodes[index], amount)) + Payouts(mains, pool, total, paid + amount, nodes[index + 1..])
  {
    assert nodes[index..][1..] == nodes[index + 1..];
  }

  /** `settle_daily_rewards` with its loop over the sorted nodes. */
  method SettleDailyRewards(mains: seq<string>, height: nat, timestamp: nat, distributed: nat,
                            eligible: seq<EligibleNode>) returns (payments: seq<LotteryPayment>)
    ensures payments == Settlement(mains, height, timestamp, distributed, eligible)
  {
    if !RewardActive(height, timestamp) || eligible == [] {
      return [];
    }
    var pool := Min(DailyBudget(timestamp), RemainingBudget(distributed));
    if pool == 0 {
      return [];
    }
    var nodes := SortedNodes(eligible);
    var total := TotalWeight(mains, nodes);
    payments := [];
    var paid: nat, index := 0, 0;
    assert nodes[0..] == nodes && [] + Payouts(mains, pool, total, 0, nodes) == Payouts(mains, pool, total, 0, nodes);
    while index < |nodes|
      invariant 0 <= index <= |nodes|
      invariant Covered(mains, pool, total, paid, nodes[index..])
      invariant payments + Payouts(mains, pool, total, paid, nodes[index..]) == Payouts(mains, pool, total, 0, nodes)
    {
      var node := nodes[index];
      assert nodes[index..][0] == node && nodes[index..][1..] == nodes[index + 1..];
      CoveredBound(mains, pool, total, paid, nodes[index..]);
      var amount := if index + 1 == |nodes| then pool - paid else Share(pool, NodeWeight(mains, node), total);
      assert amount == NextAmount(mains, pool, total, paid, nodes[index..]);
      PayoutsStep(payments, mains, pool, total, paid, nodes, index);
      paid := paid + amount;
      payments := payments + Payment(node, amount);
      index := index + 1;
    }
  }

  /** A settlement pays exactly the pool, and nothing when there is no pool or nobody to pay. */
  lemma SettlementPaysThePool(mains: seq<string>, height: nat, timestamp: nat, distributed: nat,
                              eligible: seq<EligibleNode>)
    ensures Paid(Settlement(mains, height, timestamp, distributed, eligible)) ==
      if RewardActive(height, timestamp) && eligible != [] then Pool(timestamp, distributed) else 0
  {
    if RewardActive(height, timestamp) && eligible != [] && Pool(timestamp, distributed) > 0 {
      var nodes := SortedNodes(eligible);
      WeightsPositive(mains, nodes);
      PayoutsPayThePool(mains, Pool(timestamp, distributed), TotalWeight(mains, nodes), 0, nodes);
    }
  }

  predicate DistinctPeers(nodes: seq<EligibleNode>) {
    forall a, b :: a in nodes && b in nodes && a.peerId == b.peerId ==> a == b
  }

  /** Validators that list the same distinct peers in different orders settle alike. */
  lemma SettlementIgnoresOrder(mains: seq<string>, height: nat, timestamp: nat, distributed: nat,
                               a: seq<EligibleNode>, b: seq<EligibleNode>)
    requires multiset(a) == multiset(b) && DistinctPeers(a)
    ensures Settlement(mains, height, timestamp, distributed, a) == Settlement(mains, height, timestamp, distributed, b)
  {
    assert |a| == |multiset(a)| == |multiset(b)| == |b|;
    TextOrder();
    PeerOrder();
    SortIgnoresOrder(PeerLe, a, b);
  }

  // ---------- The whole programme ----------

  datatype Day = Day(height: nat, timestamp: nat, eligible: seq<EligibleNode>)

  function Distributed(mains: seq<string>, start: nat, days: seq<Day>): nat {
    if days == [] then start
    else
      var d := days[|days| - 1];
      var before := Distributed(mains, start, days[..|days| - 1]);
      before + Paid(Settlement(mains, d.height, d.timestamp, before, d.eligible))
  }

  /** No sequence of settlements, however many and in whatever order, exceeds the cap. */
  lemma {:induction false} CapHolds(mains: seq<string>, start: nat, days: seq<Day>)
    requires start <= TOTAL_NODE_EMISSION
    ensures start <= Distributed(mains, start, days) <= TOTAL_NODE_EMISSION
    decreases |days|
  {
    if days != [] {
      var d := days[|days| - 1];
      var before := Distributed(mains, start, days[..|days| - 1]);
      CapHolds(mains, start, days[..|days| - 1]);
      SettlementPaysThePool(mains, d.height, d.timestamp, before, d.eligible);
    }
  }

  /** The sum of the weights fits u128 for fewer than 2^50 nodes. */
  lemma {:induction false} WeightsFit(mains: seq<string>, nodes: seq<EligibleNode>)
    ensures TotalWeight(mains, nodes) <= |nodes| * (U64_MAX * MAIN_NODE_WEIGHT_BPS)
    ensures |nodes| <= 0x4_0000_0000_0000 ==> TotalWeight(mains, nodes) <= U128_MAX
  {
    if nodes != [] {
      WeightsFit(mains, nodes[1..]);
    }
  }
}
