/** The ledger (src/chain.rs): transfers with the 80/20 fee split, foundation payments by
    system events, replay and snapshots. */
module Ledger {
  import opened Basics
  import opened Weights
  import opened Messages
  import opened Events

  const FOUNDATION: Address := "0x356456ff1216b57a6f8891b195b42d296789b67d"
  const FOUNDATION_FEE_BPS: nat := 2_000
  const FEE_BPS_DENOMINATOR: nat := 10_000

  type Balances = map<Address, u128>
  type Nonces = map<Address, u64>

  datatype LedgerError =
    | NotNext | BadHash | BadSignature | ZeroAmount | BadNonce | TotalOverflow | Insufficient
    | ReceiverOverflow | FeeOverflow | ProducerOverflow | FoundationOverflow
    | InvalidEvent | TooEarly | AlreadyExecuted | FoundationShort | EventOverflow
    | GenesisDiffers | BadSnapshot

  datatype Accounts = Accounts(balances: Balances, nonces: Nonces)
  datatype Treasury = Treasury(balances: Balances, executed: set<string>)

  datatype ChainState = ChainState(
    chainId: u64, commitment: string, blocks: seq<Block>, initial: Balances,
    balances: Balances, nonces: Nonces, executed: set<string>)
  {
    /** The constructors and `apply_block` always leave a block to build on. */
    predicate HasTip() { blocks != [] }

    function Tip(): Block
      requires HasTip()
    {
      blocks[|blocks| - 1]
    }
  }

  function BalanceOf(b: Balances, a: Address): u128 {
    if a in b then b[a] else 0
  }

  function NonceOf(n: Nonces, a: Address): u64 {
    if a in n then n[a] else 0
  }

  // ---------- Transfers ----------

  function Credit(b: Balances, a: Address, amount: u128, overflow: LedgerError): Result<Balances, LedgerError> {
    if amount == 0 then Ok(b)
    else if BalanceOf(b, a) + amount > U128_MAX then Err(overflow)
    else Ok(b[a := BalanceOf(b, a) + amount])
  }

  function FoundationShare(fee: nat): (r: nat)
    ensures r <= fee
  {
    fee * FOUNDATION_FEE_BPS / FEE_BPS_DENOMINATOR
  }

  /** Foundation share first, the whole rest to the producer. */
  function SplitFee(b: Balances, producer: Address, fee: u128): Result<Balances, LedgerError> {
    if fee * FOUNDATION_FEE_BPS > U128_MAX then Err(FeeOverflow)
    else
      match Credit(b, producer, fee - FoundationShare(fee), ProducerOverflow)
      case Err(e) => Err(e)
      case Ok(b1) => Credit(b1, FOUNDATION, FoundationShare(fee), FoundationOverflow)
  }

  function MoveFunds(b: Balances, producer: Address, tx: Transaction): Result<Balances, LedgerError>
    requires tx.amount + tx.fee <= BalanceOf(b, tx.from)
  {
    var b1 := b[tx.from := BalanceOf(b, tx.from) - (tx.amount + tx.fee)];
    if BalanceOf(b1, tx.to) + tx.amount > U128_MAX then Err(ReceiverOverflow)
    else SplitFee(b1[tx.to := BalanceOf(b1, tx.to) + tx.amount], producer, tx.fee)
  }

  function ApplyTransfer(c: Crypto, chainId: u64, producer: Address, s: Accounts, tx: Transaction):
      Result<Accounts, LedgerError> {
    if !c.transferSigned(chainId, tx) then Err(BadSignature)
    else if tx.amount == 0 then Err(ZeroAmount)
    else if tx.nonce != NonceOf(s.nonces, tx.from) then Err(BadNonce)
    else if tx.amount + tx.fee > U128_MAX then Err(TotalOverflow)
    else if BalanceOf(s.balances, tx.from) < tx.amount + tx.fee then Err(Insufficient)
    else
      match MoveFunds(s.balances, producer, tx)
      case Err(e) => Err(e)
      case Ok(b) => Ok(Accounts(b, s.nonces[tx.from := (tx.nonce + 1) % (U64_MAX + 1)]))
  }

  function ApplyTransfers(c: Crypto, chainId: u64, producer: Address, s: Accounts,
                          txs: seq<Transaction>): Result<Accounts, LedgerError>
    decreases |txs|
  {
    if txs == [] then Ok(s)
    else
      match ApplyTransfer(c, chainId, producer, s, txs[0])
      case Err(e) => Err(e)
      case Ok(t) => ApplyTransfers(c, chainId, producer, t, txs[1..])
  }

  // ---------- System events ----------

  function Lower(c: char): char {
    if 'A' <= c <= 'Z' then (c as int + 32) as char else c
  }

  function TrimHexPrefix(a: string): string {
    if |a| >= 2 && a[..2] == "0x" then TrimHexPrefix(a[2..]) else a
  }

  /** Addresses with a `0x` prefix are compared in lower case. */
  function Normalize(a: Address): Address {
    if |a| >= 2 && a[..2] == "0x" then
      var digits := TrimHexPrefix(a);
      "0x" + seq(|digits|, i requires 0 <= i < |digits| => Lower(digits[i]))
    else a
  }

  function PayFromFoundation(b: Balances, payment: EventPayment): Result<Balances, LedgerError> {
    if BalanceOf(b, FOUNDATION) < payment.amount then Err(FoundationShort)
    else Credit(b[FOUNDATION := BalanceOf(b, FOUNDATION) - payment.amount],
                Normalize(payment.address), payment.amount, EventOverflow)
  }

  function PayAll(b: Balances, payments: seq<EventPayment>): Result<Balances, LedgerError>
    decreases |payments|
  {
    if payments == [] then Ok(b)
    else
      match PayFromFoundation(b, payments[0])
      case Err(e) => Err(e)
      case Ok(b1) => PayAll(b1, payments[1..])
  }

  function ApplyEvent(c: Crypto, timestamp: u64, s: Treasury, e: ScheduledEvent): Result<Treasury, LedgerError> {
    if !ValidEvent(c, e) then Err(InvalidEvent)
    else if e.executeAt > timestamp then Err(TooEarly)
    else if e.id in s.executed then Err(AlreadyExecuted)
    else
      match PayAll(s.balances, Payments(e.action))
      case Err(err) => Err(err)
      case Ok(b) => Ok(Treasury(b, s.executed + {e.id}))
  }

  function ApplyEvents(c: Crypto, timestamp: u64, s: Treasury, events: seq<ScheduledEvent>):
      Result<Treasury, LedgerError>
    decreases |events|
  {
    if events == [] then Ok(s)
    else
      match ApplyEvent(c, timestamp, s, events[0])
      case Err(e) => Err(e)
      case Ok(t) => ApplyEvents(c, timestamp, t, events[1..])
  }

  // ---------- Blocks ----------

  datatype Effects = Effects(balances: Balances, nonces: Nonces, executed: set<string>)

  /** What a block does to the accounts: its transfers, then its system events. */
  function Execute(c: Crypto, chainId: u64, s: Effects, b: Block): Result<Effects, LedgerError> {
    match ApplyTransfers(c, chainId, b.producer, Accounts(s.balances, s.nonces), b.transactions)
    case Err(e) => Err(e)
    case Ok(a) =>
      match ApplyEvents(c, b.timestamp, Treasury(a.balances, s.executed), b.systemEvents)
      case Err(e) => Err(e)
      case Ok(t) => Ok(Effects(t.balances, a.nonces, t.executed))
  }

  predicate Extends(previous: Block, b: Block) {
    b.height == previous.height + 1 && b.previousHash == previous.hash
  }

  function ApplyBlock(c: Crypto, s: ChainState, b: Block): Result<ChainState, LedgerError>
    requires s.HasTip()
  {
    if !Extends(s.Tip(), b) then Err(NotNext)
    else if b.hash != CalculateHash(c, b) then Err(BadHash)
    else
      match Execute(c, s.chainId, Effects(s.balances, s.nonces, s.executed), b)
      case Err(e) => Err(e)
      case Ok(t) => Ok(s.(blocks := s.blocks + [b], balances := t.balances, nonces := t.nonces, executed := t.executed))
  }

  /** What a node is left with after trying a block: a refused block changes nothing. */
  function TryBlock(c: Crypto, s: ChainState, b: Block): (t: ChainState)
    requires s.HasTip()
    ensures t.HasTip()
  {
    if ApplyBlock(c, s, b).Ok? then ApplyBlock(c, s, b).value else s
  }

  function TryBlocks(c: Crypto, s: ChainState, blocks: seq<Block>): (t: ChainState)
    requires s.HasTip()
    ensures t.HasTip()
    decreases |blocks|
  {
    if blocks == [] then s else TryBlocks(c, TryBlock(c, s, blocks[0]), blocks[1..])
  }

  function GenesisBlock(c: Crypto): Block {
    var zeros := seq(64, i => '0');
    var draft := Block(0, zeros, 0, "genesis", [], [], "");
    draft.(hash := CalculateHash(c, draft))
  }

  function Genesis(c: Crypto, chainId: u64, commitment: string, initial: Balances): (s: ChainState)
    ensures s.HasTip()
  {
    ChainState(chainId, commitment, [GenesisBlock(c)], initial, initial, map[], {})
  }

  // ---------- Conservation ----------

  lemma CreditTotal(b: Balances, a: Address, amount: u128, overflow: LedgerError)
    ensures var r := Credit(b, a, amount, overflow);
      && (r.Ok? ==> Total(r.value) == Total(b) + amount)
      && (r.Err? ==> Total(b) + amount > U128_MAX)
  {
    if BalanceOf(b, a) + amount > U128_MAX {
      EntryWithinTotal(b, a);
    } else {
      TotalUpdate(b, a, BalanceOf(b, a) + amount);
    }
  }

  /** The two shares are the fee, to the last unit. */
  lemma SplitFeeTotal(b: Balances, producer: Address, fee: u128)
    ensures var r := SplitFee(b, producer, fee);
      && (r.Ok? ==> Total(r.value) == Total(b) + fee)
      && (r.Err? && r.error != FeeOverflow ==> Total(b) + fee > U128_MAX)
      && (r == Err(FeeOverflow) <==> fee * FOUNDATION_FEE_BPS > U128_MAX)
  {
    CreditTotal(b, producer, fee - FoundationShare(fee), ProducerOverflow);
    var r := Credit(b, producer, fee - FoundationShare(fee), ProducerOverflow);
    if r.Ok? {
      CreditTotal(r.value, FOUNDATION, FoundationShare(fee), FoundationOverflow);
    }
  }

  /** Whoever sends, receives and produces, a transfer moves money without making any;
      with a supply of at most 2^128 - 1 it can only fail on the fee multiplication. */
  lemma MoveFundsTotal(b: Balances, producer: Address, tx: Transaction)
    requires tx.amount + tx.fee <= BalanceOf(b, tx.from)
    ensures var r := MoveFunds(b, producer, tx);
      && (r.Ok? ==> Total(r.value) == Total(b))
      && (r.Err? && Total(b) <= U128_MAX ==> r.error == FeeOverflow)
      && (r == Err(FeeOverflow) ==> tx.fee * FOUNDATION_FEE_BPS > U128_MAX)
  {
    var paid := BalanceOf(b, tx.from) - (tx.amount + tx.fee);
    var b1 := b[tx.from := paid];
    TotalUpdate(b, tx.from, paid);
    assert Total(b1) + tx.amount + tx.fee == Total(b);
    EntryWithinTotal(b1, tx.to);
    if BalanceOf(b1, tx.to) + tx.amount <= U128_MAX {
      var got := BalanceOf(b1, tx.to) + tx.amount;
      TotalUpdate(b1, tx.to, got);
      SplitFeeTotal(b1[tx.to := got], producer, tx.fee);
    }
  }

  predicate CreditFailure(e: LedgerError) {
    e in {ReceiverOverflow, ProducerOverflow, FoundationOverflow, EventOverflow}
  }

  lemma ApplyTransferTotal(c: Crypto, chainId: u64, producer: Address, s: Accounts, tx: Transaction)
    ensures var r := ApplyTransfer(c, chainId, producer, s, tx);
      && (r.Ok? ==> Total(r.value.balances) == Total(s.balances))
      && (r.Err? && Total(s.balances) <= U128_MAX ==> !CreditFailure(r.error))
      && (r == Err(FeeOverflow) ==> (Total(s.balances) - 1) * FOUNDATION_FEE_BPS > U128_MAX)
  {
    if tx.amount + tx.fee <= BalanceOf(s.balances, tx.from) {
      MoveFundsTotal(s.balances, producer, tx);
      EntryWithinTotal(s.balances, tx.from);
    }
  }

  ghost predicate CanSignOrder(c: Crypto, chainId: u64, a: Address, to: Address, amount: u128, fee: u128, nonce: u64) {
    exists signature :: c.transferSigned(chainId, Transaction(a, to, amount, fee, nonce, signature))
  }

  /** The owner of the account can sign its transfers. */
  ghost predicate CanSign(c: Crypto, chainId: u64, a: Address) {
    forall to, amount, fee, nonce :: CanSignOrder(c, chainId, a, to, amount, fee, nonce)
  }

  /** The fee multiplication can overflow in some block on some distribution of the supply
      if and only if 2000 times the supply less one unit exceeds u128. */
  lemma FeeOverflowIff(c: Crypto, chainId: u64, supply: u128, a: Address)
    requires CanSign(c, chainId, a)
    ensures (exists producer, s: Accounts, tx ::
               Total(s.balances) == supply && ApplyTransfer(c, chainId, producer, s, tx) == Err(FeeOverflow))
       <==> (supply - 1) * FOUNDATION_FEE_BPS > U128_MAX
  {
    if producer, s: Accounts, tx :|
      Total(s.balances) == supply && ApplyTransfer(c, chainId, producer, s, tx) == Err(FeeOverflow)
    {
      ApplyTransferTotal(c, chainId, producer, s, tx);
    }
    if (supply - 1) * FOUNDATION_FEE_BPS > U128_MAX {
      var none: Balances := map[];
      var s := Accounts(none[a := supply], map[]);
      TotalUpdate(none, a, supply);
      assert CanSignOrder(c, chainId, a, "b", 1, supply - 1, 0);
      var signature :| c.transferSigned(chainId, Transaction(a, "b", 1, supply - 1, 0, signature));
      var tx := Transaction(a, "b", 1, supply - 1, 0, signature);
      assert ApplyTransfer(c, chainId, "p", s, tx) == Err(FeeOverflow);
    }
  }

  lemma {:induction false} ApplyTransfersTotal(c: Crypto, chainId: u64, producer: Address, s: Accounts,
                                               txs: seq<Transaction>)
    ensures var r := ApplyTransfers(c, chainId, producer, s, txs);
      && (r.Ok? ==> Total(r.value.balances) == Total(s.balances))
      && (r.Err? && Total(s.balances) <= U128_MAX ==> !CreditFailure(r.error))
      && (r == Err(FeeOverflow) ==> (Total(s.balances) - 1) * FOUNDATION_FEE_BPS > U128_MAX)
    decreases |txs|
  {
    if txs != [] {
      ApplyTransferTotal(c, chainId, producer, s, txs[0]);
      var r := ApplyTransfer(c, chainId, producer, s, txs[0]);
      if r.Ok? {
        ApplyTransfersTotal(c, chainId, producer, r.value, txs[1..]);
      }
    }
  }

  /** Also when the foundation pays itself. */
  lemma PayFromFoundationTotal(b: Balances, payment: EventPayment)
    ensures var r := PayFromFoundation(b, payment);
      && (r.Ok? ==> Total(r.value) == Total(b))
      && (r.Err? ==> r.error != FeeOverflow)
      && (r.Err? && Total(b) <= U128_MAX ==> r.error == FoundationShort)
  {
    if BalanceOf(b, FOUNDATION) >= payment.amount {
      var left := BalanceOf(b, FOUNDATION) - payment.amount;
      TotalUpdate(b, FOUNDATION, left);
      CreditTotal(b[FOUNDATION := left], Normalize(payment.address), payment.amount, EventOverflow);
    }
  }

  lemma {:induction false} PayAllTotal(b: Balances, payments: seq<EventPayment>)
    ensures var r := PayAll(b, payments);
      && (r.Ok? ==> Total(r.value) == Total(b))
      && (r.Err? ==> r.error != FeeOverflow)
      && (r.Err? && Total(b) <= U128_MAX ==> r.error == FoundationShort)
    decreases |payments|
  {
    if payments != [] {
      PayFromFoundationTotal(b, payments[0]);
      var r := PayFromFoundation(b, payments[0]);
      if r.Ok? {
        PayAllTotal(r.value, payments[1..]);
      }
    }
  }

  lemma {:induction false} ApplyEventsTotal(c: Crypto, timestamp: u64, s: Treasury, events: seq<ScheduledEvent>)
    ensures var r := ApplyEvents(c, timestamp, s, events);
      && (r.Ok? ==> Total(r.value.balances) == Total(s.balances))
      && (r.Err? ==> r.error != FeeOverflow)
      && (r.Err? && Total(s.balances) <= U128_MAX ==> !CreditFailure(r.error))
    decreases |events|
  {
    if events != [] {
      PayAllTotal(s.balances, Payments(events[0].action));
      var r := ApplyEvent(c, timestamp, s, events[0]);
      if r.Ok? {
        ApplyEventsTotal(c, timestamp, r.value, events[1..]);
      }
    }
  }

  lemma ApplyBlockTotal(c: Crypto, s: ChainState, b: Block)
    requires s.HasTip()
    ensures var r := ApplyBlock(c, s, b);
      && (r.Ok? ==> Total(r.value.balances) == Total(s.balances))
      && (r.Err? && Total(s.balances) <= U128_MAX ==> !CreditFailure(r.error))
      && (r == Err(FeeOverflow) ==> (Total(s.balances) - 1) * FOUNDATION_FEE_BPS > U128_MAX)
  {
    ApplyTransfersTotal(c, s.chainId, b.producer, Accounts(s.balances, s.nonces), b.transactions);
    var a := ApplyTransfers(c, s.chainId, b.producer, Accounts(s.balances, s.nonces), b.transactions);
    if a.Ok? {
      ApplyEventsTotal(c, b.timestamp, Treasury(a.value.balances, s.executed), b.systemEvents);
    }
  }

  /** Conservation: whatever blocks arrive after genesis, accepted or refused, the balances
      add up to the genesis supply. */
  lemma {:induction false} SupplyConserved(c: Crypto, s: ChainState, blocks: seq<Block>)
    requires s.HasTip()
    ensures Total(TryBlocks(c, s, blocks).balances) == Total(s.balances)
    decreases |blocks|
  {
    if blocks != [] {
      ApplyBlockTotal(c, s, blocks[0]);
      SupplyConserved(c, TryBlock(c, s, blocks[0]), blocks[1..]);
    }
  }

  /** No block on any run from genesis is refused for a balance overflow, and if 2000 times
      the supply fits u128 none is refused for the fee multiplication either. */
  lemma OverflowUnreachable(c: Crypto, chainId: u64, commitment: string, initial: Balances, blocks: seq<Block>,
                            b: Block)
    requires Total(initial) <= U128_MAX
    ensures var r := ApplyBlock(c, TryBlocks(c, Genesis(c, chainId, commitment, initial), blocks), b);
      r.Err? ==> (
        && !CreditFailure(r.error)
        && (Total(initial) * FOUNDATION_FEE_BPS <= U128_MAX ==> r.error != FeeOverflow))
  {
    var g := Genesis(c, chainId, commitment, initial);
    SupplyConserved(c, g, blocks);
    ApplyBlockTotal(c, TryBlocks(c, g, blocks), b);
  }
}
