/** Replay from genesis, snapshots, and the mutable `Blockchain` object proved against
    the ledger functions. */
module Chain {
  import opened Basics
  import opened Messages
  import opened Events
  import opened Ledger

  // ---------- Replay ----------

  function Replay(c: Crypto, s: ChainState, blocks: seq<Block>): (r: Result<ChainState, LedgerError>)
    requires s.HasTip()
    ensures r.Ok? ==> r.value.HasTip()
    decreases |blocks|
  {
    if blocks == [] then Ok(s)
    else
      match ApplyBlock(c, s, blocks[0])
      case Err(e) => Err(e)
      case Ok(t) => Replay(c, t, blocks[1..])
  }

  /** The chain that the stored blocks produce from genesis, ignoring stored balances. */
  function ReplayFromGenesis(c: Crypto, s: ChainState): Result<ChainState, LedgerError> {
    if s.blocks == [] || s.blocks[0] != GenesisBlock(c) then Err(GenesisDiffers)
    else Replay(c, Genesis(c, s.chainId, s.commitment, s.initial), s.blocks[1..])
  }

  lemma {:induction false} ReplaySnoc(c: Crypto, s: ChainState, blocks: seq<Block>, b: Block)
    requires s.HasTip()
    ensures Replay(c, s, blocks + [b]) ==
      match Replay(c, s, blocks)
      case Err(e) => Err(e)
      case Ok(t) => ApplyBlock(c, t, b)
    decreases |blocks|
  {
    if blocks == [] {
      assert (blocks + [b])[1..] == [];
    } else {
      assert (blocks + [b])[1..] == blocks[1..] + [b];
      var r := ApplyBlock(c, s, blocks[0]);
      if r.Ok? {
        ReplaySnoc(c, r.value, blocks[1..], b);
      }
    }
  }

  /** The chain state is exactly what its own blocks replay to. */
  ghost predicate SelfReplaying(c: Crypto, s: ChainState) {
    ReplayFromGenesis(c, s) == Ok(s)
  }

  lemma GenesisSelfReplaying(c: Crypto, chainId: u64, commitment: string, initial: Balances)
    ensures SelfReplaying(c, Genesis(c, chainId, commitment, initial))
  {
  }

  lemma ApplyBlockSelfReplaying(c: Crypto, s: ChainState, b: Block)
    requires SelfReplaying(c, s) && s.HasTip() && ApplyBlock(c, s, b).Ok?
    ensures SelfReplaying(c, ApplyBlock(c, s, b).value)
  {
    var t := ApplyBlock(c, s, b).value;
    assert t.blocks[1..] == s.blocks[1..] + [b];
    ReplaySnoc(c, Genesis(c, s.chainId, s.commitment, s.initial), s.blocks[1..], b);
  }

  /** Rebuilding changes nothing on any chain grown by `apply_block` from genesis. */
  lemma {:induction false} RebuildIsIdentity(c: Crypto, s: ChainState, attempts: seq<Block>)
    requires SelfReplaying(c, s) && s.HasTip()
    ensures SelfReplaying(c, TryBlocks(c, s, attempts))
    decreases |attempts|
  {
    if attempts != [] {
      if ApplyBlock(c, s, attempts[0]).Ok? {
        ApplyBlockSelfReplaying(c, s, attempts[0]);
      }
      RebuildIsIdentity(c, TryBlock(c, s, attempts[0]), attempts[1..]);
    }
  }

  /** A replayed chain holds exactly the blocks it was given. */
  lemma {:induction false} ReplayBlocks(c: Crypto, s: ChainState, blocks: seq<Block>)
    requires s.HasTip() && Replay(c, s, blocks).Ok?
    ensures Replay(c, s, blocks).value.blocks == s.blocks + blocks
    decreases |blocks|
  {
    if blocks != [] {
      var m := ApplyBlock(c, s, blocks[0]).value;
      ReplayBlocks(c, m, blocks[1..]);
      MoveOver(s.blocks, blocks);
    }
  }

  lemma {:induction false} ReplayLinked(c: Crypto, s: ChainState, blocks: seq<Block>, i: nat)
    requires s.HasTip() && i < |blocks| && Replay(c, s, blocks).Ok?
    ensures Extends((s.blocks + blocks)[|s.blocks| + i - 1], blocks[i])
    ensures blocks[i].hash == CalculateHash(c, blocks[i])
    decreases i
  {
    var m := ApplyBlock(c, s, blocks[0]).value;
    MoveOver(s.blocks, blocks);
    if i > 0 {
      ReplayLinked(c, m, blocks[1..], i - 1);
    }
  }

  /** In a chain replayed from genesis the block at position i has height i, links to its
      predecessor and hashes correctly. */
  lemma {:induction false} HeightIsIndex(c: Crypto, s: ChainState, i: nat)
    requires SelfReplaying(c, s) && i < |s.blocks|
    ensures s.blocks[i].height == i
    ensures i > 0 ==> Extends(s.blocks[i - 1], s.blocks[i]) && s.blocks[i].hash == CalculateHash(c, s.blocks[i])
    decreases i
  {
    if i > 0 {
      var g := Genesis(c, s.chainId, s.commitment, s.initial);
      ReplayLinked(c, g, s.blocks[1..], i - 1);
      assert s.blocks == g.blocks + s.blocks[1..];
      HeightIsIndex(c, s, i - 1);
    }
  }

  // ---------- Snapshots ----------

  datatype StateSnapshot = StateSnapshot(
    chainId: u64, height: u64, blockHash: Hash, balances: Balances, nonces: Nonces, executed: set<string>)

  function TakeSnapshot(s: ChainState): StateSnapshot
    requires s.HasTip()
  {
    StateSnapshot(s.chainId, s.Tip().height, s.Tip().hash, s.balances, s.nonces, s.executed)
  }

  /** `from_snapshot_with_events`: a chain whose only block is an anchor for the tip. */
  function Restore(commitment: string, snap: StateSnapshot): (r: Result<ChainState, LedgerError>)
    ensures r.Ok? ==> r.value.HasTip()
  {
    var hash := TrimHexPrefix(snap.blockHash);
    if |hash| != 64 then Err(BadSnapshot)
    else
      var anchor := Block(snap.height, "", 0, "checkpoint", [], [], hash);
      Ok(ChainState(snap.chainId, commitment, [anchor], snap.balances, snap.balances, snap.nonces, snap.executed))
  }

  /** Block hashes are 64 hex digits, so none starts with `0x`. */
  ghost predicate HexHashes(c: Crypto) {
    forall b :: |c.blockHash(b)| == 64 && forall i :: 0 <= i < 64 ==> HexDigit(c.blockHash(b)[i])
  }

  /** Two chains that no later block can tell apart. */
  ghost predicate Alike(s: ChainState, t: ChainState) {
    && s.HasTip() && t.HasTip()
    && s.chainId == t.chainId && s.balances == t.balances && s.nonces == t.nonces && s.executed == t.executed
    && s.Tip().height == t.Tip().height && s.Tip().hash == t.Tip().hash
  }

  /** `state_hash` for any digest of balances, nonces and executed events. */
  function StateHash(digest: (Balances, Nonces, set<string>) -> Hash, s: ChainState): Hash {
    digest(s.balances, s.nonces, s.executed)
  }

  lemma RestoreAlike(c: Crypto, s: ChainState, commitment: string)
    requires HexHashes(c) && s.HasTip() && s.Tip().hash == CalculateHash(c, s.Tip())
    ensures Restore(commitment, TakeSnapshot(s)).Ok?
    ensures Alike(s, Restore(commitment, TakeSnapshot(s)).value)
    ensures forall digest :: StateHash(digest, s) == StateHash(digest, Restore(commitment, TakeSnapshot(s)).value)
  {
    var h := s.Tip().hash;
    assert |h| == 64 && HexDigit(h[1]);
    assert h[..2][1] == h[1];
    assert TrimHexPrefix(h) == h;
  }

  lemma AlikeStep(c: Crypto, s: ChainState, t: ChainState, b: Block)
    requires Alike(s, t)
    ensures var r, q := ApplyBlock(c, s, b), ApplyBlock(c, t, b);
      && (r.Ok? <==> q.Ok?)
      && (r.Ok? ==> Alike(r.value, q.value))
      && (r.Err? ==> r.error == q.error)
  {
  }

  /** Snapshot simulation: a restored chain accepts exactly the blocks the original accepts,
      refuses the others for the same reason, and stays indistinguishable. */
  lemma {:induction false} SnapshotSimulates(c: Crypto, s: ChainState, t: ChainState, later: seq<Block>)
    requires Alike(s, t)
    ensures Alike(TryBlocks(c, s, later), TryBlocks(c, t, later))
    ensures Replay(c, s, later).Ok? <==> Replay(c, t, later).Ok?
    ensures Replay(c, s, later).Ok? ==> Alike(Replay(c, s, later).value, Replay(c, t, later).value)
    ensures Replay(c, s, later).Err? ==> Replay(c, s, later).error == Replay(c, t, later).error
    decreases |later|
  {
    if later != [] {
      AlikeStep(c, s, t, later[0]);
      SnapshotSimulates(c, TryBlock(c, s, later[0]), TryBlock(c, t, later[0]), later[1..]);
    }
  }

  // ---------- The chain object ----------

  method ApplyTransactions(c: Crypto, chainId: u64, txs: seq<Transaction>, producer: Address, balances: Balances,
                           nonces: Nonces)
    returns (r: Result<Accounts, LedgerError>)
    ensures r == ApplyTransfers(c, chainId, producer, Accounts(balances, nonces), txs)
  {
    var b: Balances, n: Nonces := balances, nonces;
    var i := 0;
    while i < |txs|
      invariant 0 <= i <= |txs|
      invariant ApplyTransfers(c, chainId, producer, Accounts(balances, nonces), txs)
             == ApplyTransfers(c, chainId, producer, Accounts(b, n), txs[i..])
    {
      var tx := txs[i];
      TakeNext(txs, i);
      if !c.transferSigned(chainId, tx) { return Err(BadSignature); }
      if tx.amount == 0 { return Err(ZeroAmount); }
      var expected := NonceOf(n, tx.from);
      if tx.nonce != expected { return Err(BadNonce); }
      var total := tx.amount + tx.fee;
      if total > U128_MAX { return Err(TotalOverflow); }
      var sender := BalanceOf(b, tx.from);
      if sender < total { return Err(Insufficient); }
      var moved := Transfer(b, producer, tx);
      if moved.Err? { return Err(moved.error); }
      b := moved.value;
      n := n[tx.from := (expected + 1) % (U64_MAX + 1)];
      i := i + 1;
    }
    r := Ok(Accounts(b, n));
  }

  method Transfer(balances: Balances, producer: Address, tx: Transaction) returns (r: Result<Balances, LedgerError>)
    requires tx.amount + tx.fee <= BalanceOf(balances, tx.from)
    ensures r == MoveFunds(balances, producer, tx)
  {
    var b := balances[tx.from := BalanceOf(balances, tx.from) - (tx.amount + tx.fee)];
    var receiver := BalanceOf(b, tx.to);
    if receiver + tx.amount > U128_MAX { return Err(ReceiverOverflow); }
    b := b[tx.to := receiver + tx.amount];
    if tx.fee * FOUNDATION_FEE_BPS > U128_MAX { return Err(FeeOverflow); }
    var foundationFee := tx.fee * FOUNDATION_FEE_BPS / FEE_BPS_DENOMINATOR;
    var producerFee := tx.fee - foundationFee;
    var credited := Credit(b, producer, producerFee, ProducerOverflow);
    if credited.Err? { return Err(credited.error); }
    r := Credit(credited.value, FOUNDATION, foundationFee, FoundationOverflow);
  }

  method ApplySystemEvents(c: Crypto, events: seq<ScheduledEvent>, timestamp: u64, balances: Balances,
                           executed: set<string>)
    returns (r: Result<Treasury, LedgerError>)
    ensures r == ApplyEvents(c, timestamp, Treasury(balances, executed), events)
  {
    var b: Balances, done := balances, executed;
    var i := 0;
    while i < |events|
      invariant 0 <= i <= |events|
      invariant ApplyEvents(c, timestamp, Treasury(balances, executed), events)
             == ApplyEvents(c, timestamp, Treasury(b, done), events[i..])
    {
      var event := events[i];
      assert events[i..][1..] == events[i + 1..];
      if !ValidEvent(c, event) { return Err(InvalidEvent); }
      if event.executeAt > timestamp { return Err(TooEarly); }
      if event.id in done { return Err(AlreadyExecuted); }
      var paid := PayEvent(b, Payments(event.action));
      if paid.Err? { return Err(paid.error); }
      b := paid.value;
      done := done + {event.id};
      i := i + 1;
    }
    r := Ok(Treasury(b, done));
  }

  method PayEvent(balances: Balances, payments: seq<EventPayment>) returns (r: Result<Balances, LedgerError>)
    ensures r == PayAll(balances, payments)
  {
    var b: Balances := balances;
    var i := 0;
    while i < |payments|
      invariant 0 <= i <= |payments|
      invariant PayAll(balances, payments) == PayAll(b, payments[i..])
    {
      assert payments[i..][1..] == payments[i + 1..];
      var paid := PayFromFoundation(b, payments[i]);
      if paid.Err? { return Err(paid.error); }
      b := paid.value;
      i := i + 1;
    }
    r := Ok(b);
  }

  function WithEffects(g: ChainState, blocks: seq<Block>, s: Effects): ChainState {
    g.(blocks := blocks, balances := s.balances, nonces := s.nonces, executed := s.executed)
  }

  function NextEffects(c: Crypto, chainId: u64, s: Effects, previous: Block, b: Block): Option<Effects> {
    if b.hash != CalculateHash(c, b) || !Extends(previous, b) then None
    else
      match Execute(c, chainId, s, b)
      case Err(_) => None
      case Ok(t) => Some(t)
  }

  method RebuildStep(c: Crypto, chainId: u64, s: Effects, previous: Block, b: Block) returns (r: Option<Effects>)
    ensures r == NextEffects(c, chainId, s, previous, b)
  {
    if b.hash != CalculateHash(c, b) || b.height != previous.height + 1 || b.previousHash != previous.hash {
      return None;
    }
    var accounts := ApplyTransactions(c, chainId, b.transactions, b.producer, s.balances, s.nonces);
    if accounts.Err? { return None; }
    var treasury := ApplySystemEvents(c, b.systemEvents, b.timestamp, accounts.value.balances, s.executed);
    if treasury.Err? { return None; }
    r := Some(Effects(treasury.value.balances, accounts.value.nonces, treasury.value.executed));
  }

  function RebuildEffects(c: Crypto, chainId: u64, s: Effects, blocks: seq<Block>, i: nat): Option<Effects>
    requires 1 <= i <= |blocks|
    decreases |blocks| - i
  {
    if i == |blocks| then Some(s)
    else
      match NextEffects(c, chainId, s, blocks[i - 1], blocks[i])
      case None => None
      case Some(t) => RebuildEffects(c, chainId, t, blocks, i + 1)
  }

  method Rebuild(c: Crypto, chainId: u64, initial: Balances, blocks: seq<Block>) returns (r: Option<Effects>)
    requires blocks != []
    ensures r == RebuildEffects(c, chainId, Effects(initial, map[], {}), blocks, 1)
  {
    var s := Effects(initial, map[], {});
    var i := 1;
    while i < |blocks|
      invariant 1 <= i <= |blocks|
      invariant RebuildEffects(c, chainId, Effects(initial, map[], {}), blocks, 1)
        == RebuildEffects(c, chainId, s, blocks, i)
    {
      var next := RebuildStep(c, chainId, s, blocks[i - 1], blocks[i]);
      if next.None? {
        return None;
      }
      s := next.value;
      i := i + 1;
    }
    r := Some(s);
  }

  /** Rebuilding by index is replaying block after block. */
  lemma {:induction false} RebuildIsReplay(c: Crypto, g: ChainState, blocks: seq<Block>, i: nat, s: Effects)
    requires 1 <= i <= |blocks|
    ensures match RebuildEffects(c, g.chainId, s, blocks, i)
      case Some(t) => Replay(c, WithEffects(g, blocks[..i], s), blocks[i..]) == Ok(WithEffects(g, blocks, t))
      case None => Replay(c, WithEffects(g, blocks[..i], s), blocks[i..]).Err?
    decreases |blocks| - i
  {
    if i == |blocks| {
      WholeOf(blocks);
    } else {
      var next := NextEffects(c, g.chainId, s, blocks[i - 1], blocks[i]);
      ReplayNext(c, g, blocks, i, s);
      if next.Some? {
        RebuildIsReplay(c, g, blocks, i + 1, next.value);
      }
    }
  }

  lemma ReplayNext(c: Crypto, g: ChainState, blocks: seq<Block>, i: nat, s: Effects)
    requires 1 <= i < |blocks|
    ensures match NextEffects(c, g.chainId, s, blocks[i - 1], blocks[i])
      case None => Replay(c, WithEffects(g, blocks[..i], s), blocks[i..]).Err?
      case Some(t) =>
        Replay(c, WithEffects(g, blocks[..i], s), blocks[i..])
          == Replay(c, WithEffects(g, blocks[..i + 1], t), blocks[i + 1..])
  {
    TakeNext(blocks, i);
    var from := WithEffects(g, blocks[..i], s);
    assert from.Tip() == blocks[i - 1];
  }

  lemma RebuildFromGenesis(c: Crypto, s: ChainState)
    requires s.blocks != [] && s.blocks[0] == GenesisBlock(c)
    ensures var r := RebuildEffects(c, s.chainId, Effects(s.initial, map[], {}), s.blocks, 1);
      && (r.Some? <==> ReplayFromGenesis(c, s).Ok?)
      && (r.Some? ==> ReplayFromGenesis(c, s).value == WithEffects(s, s.blocks, r.value))
  {
    RebuildIsReplay(c, s, s.blocks, 1, Effects(s.initial, map[], {}));
    assert s.blocks[..1] == [GenesisBlock(c)];
  }

  class Blockchain {
    const crypto: Crypto
    const chainId: u64
    const commitment: string
    var blocks: seq<Block>
    var initial: Balances
    var balances: Balances
    var nonces: Nonces
    var executed: set<string>

    ghost function View(): ChainState
      reads this
    {
      ChainState(chainId, commitment, blocks, initial, balances, nonces, executed)
    }

    constructor WithChainId(crypto: Crypto, chainId: u64, commitment: string, initial: Balances)
      ensures this.crypto == crypto
      ensures View() == Genesis(crypto, chainId, commitment, initial)
    {
      this.crypto := crypto;
      this.chainId := chainId;
      this.commitment := commitment;
      this.blocks := [GenesisBlock(crypto)];
      this.initial := initial;
      this.balances := initial;
      this.nonces := map[];
      this.executed := {};
    }

    /** Works on copies and swaps them in only when everything succeeded. */
    method ApplyBlock(b: Block) returns (r: Result<(), LedgerError>)
      requires blocks != []
      modifies this
      ensures match Ledger.ApplyBlock(crypto, old(View()), b)
        case Ok(t) => r == Ok(()) && View() == t
        case Err(e) => r == Err(e) && View() == old(View())
    {
      var previous := blocks[|blocks| - 1];
      if b.height != previous.height + 1 || b.previousHash != previous.hash {
        return Err(NotNext);
      }
      if b.hash != CalculateHash(crypto, b) {
        return Err(BadHash);
      }
      var accounts := ApplyTransactions(crypto, chainId, b.transactions, b.producer, balances, nonces);
      if accounts.Err? { return Err(accounts.error); }
      var treasury := ApplySystemEvents(crypto, b.systemEvents, b.timestamp, accounts.value.balances, executed);
      if treasury.Err? { return Err(treasury.error); }
      blocks := blocks + [b];
      balances := treasury.value.balances;
      nonces := accounts.value.nonces;
      executed := treasury.value.executed;
      r := Ok(());
    }

    /** Recomputes every balance from the stored blocks. It succeeds exactly when the blocks
        replay from genesis, and then installs the replayed state. */
    method VerifyAndRebuild() returns (ok: bool)
      modifies this
      ensures ok <==> ReplayFromGenesis(crypto, old(View())).Ok?
      ensures ok ==> View() == ReplayFromGenesis(crypto, old(View())).value
      ensures !ok ==> View() == old(View())
    {
      if blocks == [] || blocks[0] != GenesisBlock(crypto) {
        return false;
      }
      RebuildFromGenesis(crypto, View());
      var rebuilt := Rebuild(crypto, chainId, initial, blocks);
      if rebuilt.None? {
        return false;
      }
      balances := rebuilt.value.balances;
      nonces := rebuilt.value.nonces;
      executed := rebuilt.value.executed;
      ok := true;
    }
  }
}
