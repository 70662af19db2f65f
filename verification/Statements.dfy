/** Account statements (src/chain.rs): for every address, what each accepted transfer, system
    event, block and run of blocks does to its balance and its nonce. */
module Statements {
  import opened Basics
  import opened Weights
  import opened Arithmetic
  import opened Messages
  import opened Events
  import opened Ledger
  import opened Chain

  const NONCES: nat := U64_MAX + 1

  /** The nonce after so many transfers; the counter wraps around. */
  function CountUp(nonce: u64, transfers: nat): u64
    decreases transfers
  {
    if transfers == 0 then nonce else CountUp(if nonce == U64_MAX then 0 else nonce + 1, transfers - 1)
  }

  // ---------- Transfers ----------

  /** What an accepted transfer adds to the balance of an address; whoever plays several
      parts gets the sum. */
  function TransferEffect(producer: Address, tx: Transaction, a: Address): int {
    (if a == tx.from then -(tx.amount + tx.fee) else 0)
    + (if a == tx.to then tx.amount else 0)
    + (if a == producer then tx.fee - tx.fee / 5 else 0)
    + (if a == FOUNDATION then tx.fee / 5 else 0)
  }

  lemma CreditBalance(b: Balances, to: Address, amount: u128, overflow: LedgerError, a: Address)
    requires Credit(b, to, amount, overflow).Ok?
    ensures BalanceOf(Credit(b, to, amount, overflow).value, a) == BalanceOf(b, a) + if a == to then amount else 0
  {
  }

  lemma ShareIsFifth(fee: nat)
    ensures FoundationShare(fee) == fee / 5
  {
  }

  lemma SplitFeeBalance(b: Balances, producer: Address, fee: u128, a: Address)
    requires SplitFee(b, producer, fee).Ok?
    ensures BalanceOf(SplitFee(b, producer, fee).value, a) == BalanceOf(b, a)
      + (if a == producer then fee - fee / 5 else 0) + (if a == FOUNDATION then fee / 5 else 0)
  {
    ShareIsFifth(fee);
    CreditBalance(b, producer, fee - fee / 5, ProducerOverflow, a);
    CreditBalance(Credit(b, producer, fee - fee / 5, ProducerOverflow).value, FOUNDATION, fee / 5,
                  FoundationOverflow, a);
  }

  lemma MoveFundsBalance(b: Balances, producer: Address, tx: Transaction, a: Address)
    requires tx.amount + tx.fee <= BalanceOf(b, tx.from) && MoveFunds(b, producer, tx).Ok?
    ensures BalanceOf(MoveFunds(b, producer, tx).value, a) == BalanceOf(b, a) + TransferEffect(producer, tx, a)
  {
    var b1 := b[tx.from := BalanceOf(b, tx.from) - (tx.amount + tx.fee)];
    var b2 := b1[tx.to := BalanceOf(b1, tx.to) + tx.amount];
    SplitFeeBalance(b2, producer, tx.fee, a);
    assert MoveFunds(b, producer, tx) == SplitFee(b2, producer, tx.fee);
    DebitCredit(b, tx.from, tx.amount + tx.fee, tx.to, tx.amount, a);
  }

  lemma DebitCredit(b: Balances, from: Address, cost: nat, to: Address, amount: nat, a: Address)
    requires cost <= BalanceOf(b, from)
    requires BalanceOf(b[from := BalanceOf(b, from) - cost], to) + amount <= U128_MAX
    ensures var b1 := b[from := BalanceOf(b, from) - cost];
      BalanceOf(b1[to := BalanceOf(b1, to) + amount], a)
        == BalanceOf(b, a) - (if a == from then cost else 0) + (if a == to then amount else 0)
  {
  }

  /** An accepted transfer carries the sender's nonce and a signature, moves exactly these
      amounts, and counts up the sender's nonce alone. */
  lemma TransferMoves(c: Crypto, chainId: u64, producer: Address, s: Accounts, tx: Transaction, a: Address)
    requires ApplyTransfer(c, chainId, producer, s, tx).Ok?
    ensures var t := ApplyTransfer(c, chainId, producer, s, tx).value;
      && BalanceOf(t.balances, a) == BalanceOf(s.balances, a) + TransferEffect(producer, tx, a)
      && NonceOf(t.nonces, a) == CountUp(NonceOf(s.nonces, a), if a == tx.from then 1 else 0)
      && tx.nonce == NonceOf(s.nonces, tx.from) && c.transferSigned(chainId, tx) && tx.amount > 0
  {
    MoveFundsBalance(s.balances, producer, tx, a);
  }

  /** With a supply within u128, a transfer is accepted exactly when it is signed, positive, in
      turn and covered, and its fee can be split. */
  lemma TransferAcceptedIff(c: Crypto, chainId: u64, producer: Address, s: Accounts, tx: Transaction)
    requires Total(s.balances) <= U128_MAX
    ensures ApplyTransfer(c, chainId, producer, s, tx).Ok? <==>
      && c.transferSigned(chainId, tx) && tx.amount > 0 && tx.nonce == NonceOf(s.nonces, tx.from)
      && tx.amount + tx.fee <= BalanceOf(s.balances, tx.from) && tx.fee * 2_000 <= U128_MAX
  {
    if tx.amount + tx.fee <= BalanceOf(s.balances, tx.from) {
      MoveFundsTotal(s.balances, producer, tx);
      FeeFits(s.balances, producer, tx);
    }
  }

  lemma FeeFits(b: Balances, producer: Address, tx: Transaction)
    requires tx.amount + tx.fee <= BalanceOf(b, tx.from)
    ensures MoveFunds(b, producer, tx).Ok? ==> tx.fee * 2_000 <= U128_MAX
  {
  }

  function TransfersEffect(producer: Address, txs: seq<Transaction>, a: Address): int {
    if txs == [] then 0 else TransferEffect(producer, txs[0], a) + TransfersEffect(producer, txs[1..], a)
  }

  /** How many of the transfers an address has sent. */
  function Sent(txs: seq<Transaction>, a: Address): nat {
    if txs == [] then 0 else (if txs[0].from == a then 1 else 0) + Sent(txs[1..], a)
  }

  lemma {:induction false} SentConcat(x: seq<Transaction>, y: seq<Transaction>, a: Address)
    ensures Sent(x + y, a) == Sent(x, a) + Sent(y, a)
  {
    if x == [] {
      assert x + y == y;
    } else {
      assert (x + y)[1..] == x[1..] + y;
      SentConcat(x[1..], y, a);
    }
  }

  lemma {:induction false} CountOn(nonce: u64, first: nat, more: nat)
    ensures CountUp(CountUp(nonce, first), more) == CountUp(nonce, first + more)
    decreases first
  {
    if first > 0 {
      CountOn(if nonce == U64_MAX then 0 else nonce + 1, first - 1, more);
    }
  }

  lemma SentOn(nonce: u64, first: seq<Transaction>, more: seq<Transaction>, a: Address)
    ensures CountUp(CountUp(nonce, Sent(first, a)), Sent(more, a)) == CountUp(nonce, Sent(first + more, a))
  {
    SentConcat(first, more, a);
    CountOn(nonce, Sent(first, a), Sent(more, a));
  }

  lemma {:induction false} CountUpWraps(nonce: u64, transfers: nat)
    ensures CountUp(nonce, transfers) == (nonce + transfers) % NONCES
    decreases transfers
  {
    if transfers > 0 {
      CountUpWraps(if nonce == U64_MAX then 0 else nonce + 1, transfers - 1);
    }
  }

  lemma {:induction false} TransfersMove(c: Crypto, chainId: u64, producer: Address, s: Accounts,
                                         txs: seq<Transaction>, a: Address)
    requires ApplyTransfers(c, chainId, producer, s, txs).Ok?
    ensures BalanceOf(ApplyTransfers(c, chainId, producer, s, txs).value.balances, a)
      == BalanceOf(s.balances, a) + TransfersEffect(producer, txs, a)
    decreases |txs|
  {
    if txs != [] {
      TransferMoves(c, chainId, producer, s, txs[0], a);
      TransfersMove(c, chainId, producer, ApplyTransfer(c, chainId, producer, s, txs[0]).value, txs[1..], a);
    }
  }

  lemma {:induction false} TransfersCount(c: Crypto, chainId: u64, producer: Address, s: Accounts,
                                          txs: seq<Transaction>, a: Address)
    requires ApplyTransfers(c, chainId, producer, s, txs).Ok?
    ensures NonceOf(ApplyTransfers(c, chainId, producer, s, txs).value.nonces, a)
      == CountUp(NonceOf(s.nonces, a), Sent(txs, a))
    decreases |txs|
  {
    if txs != [] {
      var m := ApplyTransfer(c, chainId, producer, s, txs[0]).value;
      TransferMoves(c, chainId, producer, s, txs[0], a);
      TransfersCount(c, chainId, producer, m, txs[1..], a);
      SentFirst(NonceOf(s.nonces, a), txs, a);
    }
  }

  lemma SentFirst(nonce: u64, txs: seq<Transaction>, a: Address)
    requires txs != []
    ensures CountUp(CountUp(nonce, if a == txs[0].from then 1 else 0), Sent(txs[1..], a))
      == CountUp(nonce, Sent(txs, a))
  {
    CountOn(nonce, if a == txs[0].from then 1 else 0, Sent(txs[1..], a));
  }

  // ---------- System events ----------

  /** The amounts that a list of payments names for an address, in whatever spelling. */
  function Named(payments: seq<EventPayment>, a: Address): nat {
    if payments == [] then 0
    else (if Normalize(payments[0].address) == a then payments[0].amount else 0) + Named(payments[1..], a)
  }

  function Amounts(payments: seq<EventPayment>): nat {
    if payments == [] then 0 else payments[0].amount + Amounts(payments[1..])
  }

  function ValidatorsAt(regs: seq<ValidatorRegistration>, a: Address): nat {
    if regs == [] then 0 else (if Normalize(regs[0].validatorId) == a then 1 else 0) + ValidatorsAt(regs[1..], a)
  }

  function NodesAt(regs: seq<NodeRewardRegistration>, a: Address): nat {
    if regs == [] then 0 else (if Normalize(regs[0].rewardAddress) == a then 1 else 0) + NodesAt(regs[1..], a)
  }

  /** What an action names for an address: the distributed amounts, the reward of the
      producer, the compensation of the victim, one reward per registered validator or node;
      a checkpoint names nobody. */
  function Owed(action: EventAction, a: Address): nat {
    match action
    case TreasuryDistribution(recipients) => Named(recipients, a)
    case PeriodicProducerReward(producer, reward) => if Normalize(producer) == a then reward else 0
    case IncidentCompensation(_, victim, compensation) => if Normalize(victim) == a then compensation else 0
    case ProtocolCheckpoint(_) => 0
    case BootstrapValidatorReward(regs, amount) => ValidatorsAt(regs, a) * amount
    case NodeMilestoneReward(regs, amount) => NodesAt(regs, a) * amount
  }

  function OwedInAll(action: EventAction): nat {
    match action
    case TreasuryDistribution(recipients) => Amounts(recipients)
    case PeriodicProducerReward(_, reward) => reward
    case IncidentCompensation(_, _, compensation) => compensation
    case ProtocolCheckpoint(_) => 0
    case BootstrapValidatorReward(regs, amount) => |regs| * amount
    case NodeMilestoneReward(regs, amount) => |regs| * amount
  }

  /** The foundation pays everything, also what it pays to itself. */
  function ActionEffect(action: EventAction, a: Address): int {
    Owed(action, a) - if a == FOUNDATION then OwedInAll(action) else 0
  }

  /** How many of the payments go to an address. */
  function PaymentsAt(payments: seq<EventPayment>, a: Address): nat {
    if payments == [] then 0 else (if Normalize(payments[0].address) == a then 1 else 0) + PaymentsAt(payments[1..], a)
  }

  lemma {:induction false} EqualPayments(payments: seq<EventPayment>, amount: u128, a: Address)
    requires forall i :: 0 <= i < |payments| ==> payments[i].amount == amount
    ensures Named(payments, a) == PaymentsAt(payments, a) * amount && Amounts(payments) == |payments| * amount
    decreases |payments|
  {
    if payments != [] {
      EqualPayments(payments[1..], amount, a);
      OneMore(|payments| - 1, amount);
      OneMore(PaymentsAt(payments[1..], a), amount);
    }
  }

  lemma {:induction false} ValidatorPayments(regs: seq<ValidatorRegistration>, amount: u128, a: Address)
    ensures PaymentsAt(Payments(BootstrapValidatorReward(regs, amount)), a) == ValidatorsAt(regs, a)
    decreases |regs|
  {
    if regs != [] {
      ValidatorPayments(regs[1..], amount, a);
      assert Payments(BootstrapValidatorReward(regs, amount))[1..]
        == Payments(BootstrapValidatorReward(regs[1..], amount));
    }
  }

  lemma {:induction false} NodePayments(regs: seq<NodeRewardRegistration>, amount: u128, a: Address)
    ensures PaymentsAt(Payments(NodeMilestoneReward(regs, amount)), a) == NodesAt(regs, a)
    decreases |regs|
  {
    if regs != [] {
      NodePayments(regs[1..], amount, a);
      assert Payments(NodeMilestoneReward(regs, amount))[1..] == Payments(NodeMilestoneReward(regs[1..], amount));
    }
  }

  lemma OneMore(n: nat, amount: nat)
    ensures (n + 1) * amount == n * amount + amount
  {
  }

  lemma PaymentsAreOwed(action: EventAction, a: Address)
    ensures Named(Payments(action), a) == Owed(action, a) && Amounts(Payments(action)) == OwedInAll(action)
  {
    match action
    case BootstrapValidatorReward(regs, amount) =>
      ValidatorPayments(regs, amount, a);
      EqualPayments(Payments(action), amount, a);
    case NodeMilestoneReward(regs, amount) =>
      NodePayments(regs, amount, a);
      EqualPayments(Payments(action), amount, a);
    case _ =>
  }

  /** A valid event names a positive amount for each of at most 10,000 payees, and only a
      checkpoint names none. */
  lemma ValidEventPays(c: Crypto, e: ScheduledEvent)
    requires ValidEvent(c, e)
    ensures var ps := Payments(e.action);
      && |ps| <= 10_000 && (ps == [] <==> e.action.ProtocolCheckpoint?)
      && (forall i :: 0 <= i < |ps| ==> ps[i].amount > 0)
      && (e.action.BootstrapValidatorReward? ==> |ps| == 4) && (e.action.NodeMilestoneReward? ==> |ps| == 100)
  {
  }

  lemma PaymentMoves(b: Balances, p: EventPayment, a: Address)
    requires PayFromFoundation(b, p).Ok?
    ensures BalanceOf(PayFromFoundation(b, p).value, a) == BalanceOf(b, a)
      + (if Normalize(p.address) == a then p.amount else 0) - (if a == FOUNDATION then p.amount else 0)
  {
    CreditBalance(b[FOUNDATION := BalanceOf(b, FOUNDATION) - p.amount], Normalize(p.address), p.amount,
                  EventOverflow, a);
  }

  lemma {:induction false} PaymentsMove(b: Balances, payments: seq<EventPayment>, a: Address)
    requires PayAll(b, payments).Ok?
    ensures BalanceOf(PayAll(b, payments).value, a) == BalanceOf(b, a)
      + Named(payments, a) - (if a == FOUNDATION then Amounts(payments) else 0)
    decreases |payments|
  {
    if payments != [] {
      PaymentMoves(b, payments[0], a);
      PaymentsMove(PayFromFoundation(b, payments[0]).value, payments[1..], a);
    }
  }

  /** An accepted event pays every address other than the foundation exactly what its action
      names for it, and the foundation loses exactly what others gain. */
  lemma EventMoves(c: Crypto, timestamp: u64, s: Treasury, e: ScheduledEvent, a: Address)
    requires ApplyEvent(c, timestamp, s, e).Ok?
    ensures var t := ApplyEvent(c, timestamp, s, e).value;
      BalanceOf(t.balances, a) == BalanceOf(s.balances, a) + ActionEffect(e.action, a)
  {
    PaymentsMove(s.balances, Payments(e.action), a);
    PaymentsAreOwed(e.action, a);
  }

  /** When the k-th payment comes up, the foundation holds less than its amount: it has paid
      the earlier ones and got back those to itself. */
  predicate ShortAt(funds: nat, payments: seq<EventPayment>, k: nat)
    requires k < |payments|
  {
    funds + Named(payments[..k], FOUNDATION) < Amounts(payments[..k]) + payments[k].amount
  }

  ghost predicate Short(funds: nat, payments: seq<EventPayment>) {
    exists k :: 0 <= k < |payments| && ShortAt(funds, payments, k)
  }

  lemma TakeFirst(payments: seq<EventPayment>, k: nat)
    requires 0 < k <= |payments|
    ensures Named(payments[..k], FOUNDATION) ==
      (if Normalize(payments[0].address) == FOUNDATION then payments[0].amount else 0)
      + Named(payments[1..][..k - 1], FOUNDATION)
    ensures Amounts(payments[..k]) == payments[0].amount + Amounts(payments[1..][..k - 1])
  {
    assert payments[..k][1..] == payments[1..][..k - 1];
  }

  lemma ShortLater(funds: nat, payments: seq<EventPayment>)
    requires payments != [] && payments[0].amount <= funds
    ensures var left := funds - if Normalize(payments[0].address) == FOUNDATION then 0 else payments[0].amount;
      Short(funds, payments) <==> Short(left, payments[1..])
  {
    var rest := payments[1..];
    var left := funds - if Normalize(payments[0].address) == FOUNDATION then 0 else payments[0].amount;
    if k :| 0 <= k < |payments| && ShortAt(funds, payments, k) {
      if k > 0 {
        TakeFirst(payments, k);
        assert ShortAt(left, rest, k - 1);
      }
    }
    if k :| 0 <= k < |rest| && ShortAt(left, rest, k) {
      TakeFirst(payments, k + 1);
      assert ShortAt(funds, payments, k + 1);
    }
  }

  lemma {:induction false} PaidUnlessShort(b: Balances, payments: seq<EventPayment>)
    requires Total(b) <= U128_MAX
    ensures PayAll(b, payments).Err? <==> Short(BalanceOf(b, FOUNDATION), payments)
    decreases |payments|
  {
    if payments != [] {
      if BalanceOf(b, FOUNDATION) < payments[0].amount {
        ShortAtOnce(b, payments);
      } else {
        var m := FirstPaid(b, payments);
        ShortLater(BalanceOf(b, FOUNDATION), payments);
        PaidUnlessShort(m, payments[1..]);
      }
    }
  }

  lemma ShortAtOnce(b: Balances, payments: seq<EventPayment>)
    requires payments != [] && BalanceOf(b, FOUNDATION) < payments[0].amount
    ensures PayAll(b, payments).Err? && Short(BalanceOf(b, FOUNDATION), payments)
  {
    assert payments[..0] == [];
    assert ShortAt(BalanceOf(b, FOUNDATION), payments, 0);
  }

  lemma FirstPaid(b: Balances, payments: seq<EventPayment>) returns (m: Balances)
    requires Total(b) <= U128_MAX && payments != [] && payments[0].amount <= BalanceOf(b, FOUNDATION)
    ensures PayAll(b, payments) == PayAll(m, payments[1..]) && Total(m) == Total(b)
    ensures BalanceOf(m, FOUNDATION) ==
      BalanceOf(b, FOUNDATION) - if Normalize(payments[0].address) == FOUNDATION then 0 else payments[0].amount
  {
    PayFromFoundationTotal(b, payments[0]);
    PaymentMoves(b, payments[0], FOUNDATION);
    m := PayFromFoundation(b, payments[0]).value;
  }

  /** With a supply within u128, an event is executed exactly when it is valid, due, not yet
      executed, and no payment, taken in order, exceeds what the foundation then holds. */
  lemma EventAcceptedIff(c: Crypto, timestamp: u64, s: Treasury, e: ScheduledEvent)
    requires Total(s.balances) <= U128_MAX
    ensures ApplyEvent(c, timestamp, s, e).Ok? <==>
      && ValidEvent(c, e) && e.executeAt <= timestamp && e.id !in s.executed
      && !Short(BalanceOf(s.balances, FOUNDATION), Payments(e.action))
    ensures ValidEvent(c, e) && e.executeAt <= timestamp && e.id !in s.executed ==>
      ApplyEvent(c, timestamp, s, e).Ok? || ApplyEvent(c, timestamp, s, e).error == FoundationShort
  {
    PaidUnlessShort(s.balances, Payments(e.action));
    PayAllTotal(s.balances, Payments(e.action));
  }

  function EventsEffect(events: seq<ScheduledEvent>, a: Address): int {
    if events == [] then 0 else ActionEffect(events[0].action, a) + EventsEffect(events[1..], a)
  }

  lemma {:induction false} EventsMove(c: Crypto, timestamp: u64, s: Treasury, events: seq<ScheduledEvent>, a: Address)
    requires ApplyEvents(c, timestamp, s, events).Ok?
    ensures var t := ApplyEvents(c, timestamp, s, events).value;
      BalanceOf(t.balances, a) == BalanceOf(s.balances, a) + EventsEffect(events, a)
    decreases |events|
  {
    if events != [] {
      EventMoves(c, timestamp, s, events[0], a);
      EventsMove(c, timestamp, ApplyEvent(c, timestamp, s, events[0]).value, events[1..], a);
    }
  }

  // ---------- Blocks and runs ----------

  function BlockEffect(b: Block, a: Address): int {
    TransfersEffect(b.producer, b.transactions, a) + EventsEffect(b.systemEvents, a)
  }

  function ChainEffect(blocks: seq<Block>, a: Address): int {
    if blocks == [] then 0 else BlockEffect(blocks[0], a) + ChainEffect(blocks[1..], a)
  }

  /** Every transfer of the blocks, in order. */
  function AllTransfers(blocks: seq<Block>): seq<Transaction> {
    if blocks == [] then [] else blocks[0].transactions + AllTransfers(blocks[1..])
  }

  lemma BlockMoves(c: Crypto, s: ChainState, b: Block, a: Address)
    requires s.HasTip() && ApplyBlock(c, s, b).Ok?
    ensures var t := ApplyBlock(c, s, b).value;
      && t.chainId == s.chainId
      && BalanceOf(t.balances, a) == BalanceOf(s.balances, a) + BlockEffect(b, a)
      && NonceOf(t.nonces, a) == CountUp(NonceOf(s.nonces, a), Sent(b.transactions, a))
  {
    TransfersMove(c, s.chainId, b.producer, Accounts(s.balances, s.nonces), b.transactions, a);
    TransfersCount(c, s.chainId, b.producer, Accounts(s.balances, s.nonces), b.transactions, a);
    var m := ApplyTransfers(c, s.chainId, b.producer, Accounts(s.balances, s.nonces), b.transactions).value;
    EventsMove(c, b.timestamp, Treasury(m.balances, s.executed), b.systemEvents, a);
  }

  /** The statement of an account: after any blocks its balance is the balance before plus
      what each transfer and event in them says, and its nonce has counted its transfers. */
  lemma {:induction false} Statement(c: Crypto, s: ChainState, blocks: seq<Block>, a: Address)
    requires s.HasTip() && Replay(c, s, blocks).Ok?
    ensures var t := Replay(c, s, blocks).value;
      && BalanceOf(t.balances, a) == BalanceOf(s.balances, a) + ChainEffect(blocks, a)
      && NonceOf(t.nonces, a) == CountUp(NonceOf(s.nonces, a), Sent(AllTransfers(blocks), a))
    decreases |blocks|
  {
    if blocks != [] {
      BlockMoves(c, s, blocks[0], a);
      Statement(c, ApplyBlock(c, s, blocks[0]).value, blocks[1..], a);
      SentOn(NonceOf(s.nonces, a), blocks[0].transactions, AllTransfers(blocks[1..]), a);
    }
  }

  // ---------- Nonces ----------

  /** The k-th transfer is signed and its nonce is the number of transfers its sender made
      before it, counted from where the account stood. */
  predicate InTurn(c: Crypto, chainId: u64, nonces: Nonces, txs: seq<Transaction>, k: nat)
    requires k < |txs|
  {
    && c.transferSigned(chainId, txs[k])
    && txs[k].nonce == CountUp(NonceOf(nonces, txs[k].from), Sent(txs[..k], txs[k].from))
  }

  lemma {:induction false} TransfersInTurn(c: Crypto, chainId: u64, producer: Address, s: Accounts,
                                           txs: seq<Transaction>, k: nat)
    requires ApplyTransfers(c, chainId, producer, s, txs).Ok? && k < |txs|
    ensures InTurn(c, chainId, s.nonces, txs, k)
    decreases |txs|
  {
    var m := ApplyTransfer(c, chainId, producer, s, txs[0]).value;
    assert [txs[0]] + txs[1..] == txs;
    if k > 0 {
      TransfersInTurn(c, chainId, producer, m, txs[1..], k - 1);
    }
    OneInTurn(c, chainId, producer, s, txs[0], m, txs[1..], k);
  }

  lemma OneInTurn(c: Crypto, chainId: u64, producer: Address, s: Accounts, tx: Transaction, m: Accounts,
                  rest: seq<Transaction>, k: nat)
    requires ApplyTransfer(c, chainId, producer, s, tx) == Ok(m) && k <= |rest|
    requires k > 0 ==> InTurn(c, chainId, m.nonces, rest, k - 1)
    ensures InTurn(c, chainId, s.nonces, [tx] + rest, k)
  {
    if k == 0 {
      TransferMoves(c, chainId, producer, s, tx, tx.from);
      assert ([tx] + rest)[..0] == [];
    } else {
      TransferMoves(c, chainId, producer, s, tx, rest[k - 1].from);
      SentOne(tx, rest[k - 1].from);
      InTurnLater(c, chainId, s.nonces, m.nonces, [tx], rest, k - 1);
    }
  }

  lemma SentOne(tx: Transaction, a: Address)
    ensures Sent([tx], a) == if tx.from == a then 1 else 0
  {
    assert [tx][1..] == [];
  }

  /** The transfers of a chain are in turn across its blocks. */
  lemma {:induction false} ChainInTurn(c: Crypto, s: ChainState, blocks: seq<Block>, k: nat)
    requires s.HasTip() && Replay(c, s, blocks).Ok? && k < |AllTransfers(blocks)|
    ensures InTurn(c, s.chainId, s.nonces, AllTransfers(blocks), k)
    decreases |blocks|
  {
    var first, t := |blocks[0].transactions|, ApplyBlock(c, s, blocks[0]).value;
    if k >= first {
      ChainInTurn(c, t, blocks[1..], k - first);
    }
    BlockInTurn(c, s, blocks[0], t, AllTransfers(blocks[1..]), k);
  }

  lemma BlockInTurn(c: Crypto, s: ChainState, b: Block, t: ChainState, rest: seq<Transaction>, k: nat)
    requires s.HasTip() && ApplyBlock(c, s, b) == Ok(t) && k < |b.transactions + rest|
    requires k >= |b.transactions| ==> InTurn(c, s.chainId, t.nonces, rest, k - |b.transactions|)
    ensures InTurn(c, s.chainId, s.nonces, b.transactions + rest, k)
  {
    if k < |b.transactions| {
      TransfersInTurn(c, s.chainId, b.producer, Accounts(s.balances, s.nonces), b.transactions, k);
      InTurnSooner(c, s.chainId, s.nonces, b.transactions, rest, k);
    } else {
      BlockMoves(c, s, b, rest[k - |b.transactions|].from);
      InTurnLater(c, s.chainId, s.nonces, t.nonces, b.transactions, rest, k - |b.transactions|);
    }
  }

  lemma InTurnSooner(c: Crypto, chainId: u64, nonces: Nonces, first: seq<Transaction>, rest: seq<Transaction>, k: nat)
    requires k < |first| && InTurn(c, chainId, nonces, first, k)
    ensures InTurn(c, chainId, nonces, first + rest, k)
  {
    assert (first + rest)[..k] == first[..k];
  }

  lemma InTurnLater(c: Crypto, chainId: u64, before: Nonces, after: Nonces, first: seq<Transaction>,
                    rest: seq<Transaction>, j: nat)
    requires j < |rest| && InTurn(c, chainId, after, rest, j)
    requires NonceOf(after, rest[j].from) == CountUp(NonceOf(before, rest[j].from), Sent(first, rest[j].from))
    ensures InTurn(c, chainId, before, first + rest, |first| + j)
  {
    var a, all := rest[j].from, first + rest;
    assert all[|first| + j] == rest[j];
    assert all[..|first| + j] == first + rest[..j];
    SentOn(NonceOf(before, a), first, rest[..j], a);
  }

  lemma CountReturnsIff(nonce: u64, more: nat)
    ensures CountUp(nonce, more) == nonce <==> more % NONCES == 0
  {
    CountUpWraps(nonce, more);
    var q, r := Quotient(more, NONCES), more % NONCES;
    assert more == q * NONCES + r;
    if nonce + r < NONCES {
      RemainderIs(nonce + more, NONCES, q, nonce + r);
    } else {
      AddTimes(q, 1, NONCES);
      RemainderIs(nonce + more, NONCES, q + 1, nonce + r - NONCES);
    }
  }

  /** Two transfers of one sender on one chain share a nonce exactly when a multiple of 2^64
      transfers lies between them, so never within 2^64 transfers. */
  lemma NonceSharedIff(c: Crypto, s: ChainState, blocks: seq<Block>, i: nat, j: nat)
    requires s.HasTip() && Replay(c, s, blocks).Ok?
    requires i < j < |AllTransfers(blocks)| && AllTransfers(blocks)[i].from == AllTransfers(blocks)[j].from
    ensures var txs := AllTransfers(blocks);
      var between := Sent(txs[i..j], txs[i].from);
      && (txs[i].nonce == txs[j].nonce <==> between % NONCES == 0)
      && (j - i < NONCES ==> txs[i].nonce != txs[j].nonce)
  {
    ChainInTurn(c, s, blocks, i);
    ChainInTurn(c, s, blocks, j);
    var txs := AllTransfers(blocks);
    SharedIff(c, s.chainId, s.nonces, txs, i, j);
    SentBounds(txs[i..j], txs[i].from);
    NoMultiple(Sent(txs[i..j], txs[i].from));
  }

  lemma NoMultiple(n: nat)
    ensures 0 < n < NONCES ==> n % NONCES != 0
  {
  }

  lemma SharedIff(c: Crypto, chainId: u64, nonces: Nonces, txs: seq<Transaction>, i: nat, j: nat)
    requires i < j < |txs| && txs[i].from == txs[j].from
    requires InTurn(c, chainId, nonces, txs, i) && InTurn(c, chainId, nonces, txs, j)
    ensures txs[i].nonce == txs[j].nonce <==> Sent(txs[i..j], txs[i].from) % NONCES == 0
  {
    var a := txs[i].from;
    assert txs[..j] == txs[..i] + txs[i..j];
    SentConcat(txs[..i], txs[i..j], a);
    CountOn(NonceOf(nonces, a), Sent(txs[..i], a), Sent(txs[i..j], a));
    CountReturnsIff(txs[i].nonce, Sent(txs[i..j], a));
  }

  lemma {:induction false} SentBounds(txs: seq<Transaction>, a: Address)
    ensures Sent(txs, a) <= |txs|
    ensures txs != [] && txs[0].from == a ==> Sent(txs, a) > 0
  {
    if txs != [] {
      SentBounds(txs[1..], a);
    }
  }

  // ---------- Nobody else can spend ----------

  lemma {:induction false} TransfersSpend(producer: Address, txs: seq<Transaction>, a: Address)
    requires Sent(txs, a) == 0
    ensures TransfersEffect(producer, txs, a) >= 0
  {
    if txs != [] {
      TransfersSpend(producer, txs[1..], a);
    }
  }

  lemma {:induction false} EventsSpend(events: seq<ScheduledEvent>, a: Address)
    requires a != FOUNDATION
    ensures EventsEffect(events, a) >= 0
  {
    if events != [] {
      EventsSpend(events[1..], a);
    }
  }

  /** The balance of an address other than the foundation falls only with a transfer that is
      signed for it. */
  lemma {:induction false} OnlyOwnerSpends(c: Crypto, s: ChainState, blocks: seq<Block>, a: Address)
    requires s.HasTip() && Replay(c, s, blocks).Ok? && a != FOUNDATION && Sent(AllTransfers(blocks), a) == 0
    ensures BalanceOf(Replay(c, s, blocks).value.balances, a) >= BalanceOf(s.balances, a)
    decreases |blocks|
  {
    if blocks != [] {
      SentConcat(blocks[0].transactions, AllTransfers(blocks[1..]), a);
      BlockMoves(c, s, blocks[0], a);
      TransfersSpend(blocks[0].producer, blocks[0].transactions, a);
      EventsSpend(blocks[0].systemEvents, a);
      OnlyOwnerSpends(c, ApplyBlock(c, s, blocks[0]).value, blocks[1..], a);
    }
  }

  // ---------- Spelling of addresses ----------

  /** Reading an address ignores the case of letters after the prefix and nothing else: the
      foundation's own address is in normal form, and two valid prefixed addresses are the
      same account exactly when they agree up to case. */
  lemma SameAccountIff(a: Address, b: Address)
    requires ValidAddress(a) && ValidAddress(b) && a[..2] == "0x" && b[..2] == "0x"
    ensures Normalize(a) == Normalize(b) <==> forall i :: 0 <= i < 42 ==> Lower(a[i]) == Lower(b[i])
    ensures |Normalize(a)| == 42 && forall i :: 0 <= i < 42 ==> !('A' <= Normalize(a)[i] <= 'Z')
    ensures Normalize(Normalize(a)) == Normalize(a)
  {
    Prefixed(a);
    Prefixed(b);
    Prefixed(Normalize(a));
    if Normalize(a) == Normalize(b) {
      forall i | 0 <= i < 42 ensures Lower(a[i]) == Lower(b[i]) {
        assert Normalize(a)[i] == Normalize(b)[i];
      }
    }
  }

  lemma Prefixed(a: Address)
    requires |a| == 42 && a[..2] == "0x" && forall i :: 2 <= i < 42 ==> HexDigit(a[i])
    ensures |Normalize(a)| == 42 && Normalize(a)[..2] == "0x"
    ensures forall i :: 0 <= i < 42 ==> Normalize(a)[i] == Lower(a[i])
  {
    var digits := a[2..];
    assert digits[1] == a[3] && HexDigit(a[3]);
    assert TrimHexPrefix(digits) == digits;
    assert TrimHexPrefix(a) == digits;
  }
}
