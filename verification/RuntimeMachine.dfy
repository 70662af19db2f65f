/** The mutable runtime object of the source, proved call by call against `Runtime`. */
module RuntimeMachine {
  import opened Basics
  import opened Weights
  import opened Messages
  import opened Quorum
  import opened Ledger
  import opened Chain
  import opened Bft
  import opened BftMachine
  import opened Runtime

  class ConsensusRuntime {
    const cfg: NodeConfig
    const chain: Blockchain
    const consensus: BftConsensus
    var pending: Option<Block>
    var validBlock: Option<Block>
    var deadline: nat
    var precommits: seq<Vote>
    var deferred: seq<Vote>
    var finalized: seq<FinalityCertificate>
    var unreported: seq<FinalityCertificate>
    ghost var signed: set<Vote>

    ghost predicate Valid()
      reads this, chain, consensus
    {
      && chain.crypto == cfg.crypto && consensus.crypto == cfg.crypto
      && chain.blocks != [] && consensus.validators != map[]
    }

    ghost function View(): RuntimeState
      reads this, chain, consensus
    {
      RuntimeState(chain.View(), consensus.View(), pending, validBlock, deadline, precommits, deferred, finalized,
                   unreported, signed)
    }

    /** Takes over a chain and a consensus object already started at the height after its tip. */
    constructor (cfg: NodeConfig, chain: Blockchain, consensus: BftConsensus, now: nat)
      requires chain.crypto == cfg.crypto && consensus.crypto == cfg.crypto
      requires chain.blocks != [] && consensus.validators == PowerMap(cfg.validators) != map[]
      requires Bft.StartRound(InitialState(PowerMap(cfg.validators), consensus.totalPower),
                              chain.View().Tip().height + 1, 0) == Ok(consensus.View())
      ensures Valid() && this.cfg == cfg && this.chain == chain && this.consensus == consensus
      ensures Ok(View()) == InitialRuntime(cfg, chain.View(), consensus.totalPower, now)
    {
      this.cfg := cfg;
      this.chain := chain;
      this.consensus := consensus;
      pending, validBlock, deadline := None, None, now + cfg.timeouts.propose;
      precommits, deferred, finalized, unreported := [], [], [], [];
      signed := {};
    }

    /** `with_signer`: fails only where the validator list is refused. */
    static method WithSigner(cfg: NodeConfig, chain: Blockchain, now: nat)
      returns (r: Result<ConsensusRuntime, RuntimeError>)
      requires chain.crypto == cfg.crypto && chain.blocks != []
      ensures r.Ok? <==>
        cfg.validators != [] && DistinctIds(cfg.validators) && forall v :: v in cfg.validators ==> v.votingPower > 0
      ensures r.Err? ==> r.error == ConsensusFault(InvalidValidators)
      ensures r.Ok? ==> fresh(r.value) && fresh(r.value.consensus) && r.value.chain == chain && r.value.Valid()
      ensures r.Ok? ==>
        Ok(r.value.View()) == InitialRuntime(cfg, chain.View(), Total(PowerMap(cfg.validators)) % (U64_MAX + 1), now)
    {
      var made := BftConsensus.New(cfg.crypto, cfg.validators);
      if made.Err? {
        return Err(ConsensusFault(made.error));
      }
      var consensus := made.value;
      PowerMapKeys(cfg.validators, cfg.validators[0].id);
      var started := consensus.StartRound(chain.blocks[|chain.blocks| - 1].height + 1, 0);
      assert started.Ok?;
      var runtime := new ConsensusRuntime(cfg, chain, consensus, now);
      r := Ok(runtime);
    }

    method MakeProposal(block: Block, now: nat) returns (r: Result<SignedProposal, RuntimeError>)
      requires Valid()
      ensures r == Runtime.MakeProposal(cfg, View(), block, now)
    {
      if consensus.phase != Propose { return Err(NotProposing); }
      var expected := consensus.ExpectedProposer();
      if cfg.me != expected { return Err(NotMyTurn); }
      var chosen, validRound := block, None;
      if validBlock.Some? && consensus.validValue.Some? && consensus.validRound.Some?
        && validBlock.value.hash == consensus.validValue.value
      {
        chosen, validRound := validBlock.value, consensus.validRound;
      }
      var draft := SignedProposal(chosen.height, consensus.round, cfg.me, validRound, chosen, "");
      var signature := cfg.signProposal(now, draft);
      if signature.None? { return Err(SignerFailed); }
      var p := draft.(signature := signature.value);
      r := if ProposalVerified(cfg.crypto, p) then Ok(p) else Err(SignerFailed);
    }

    method ReceiveProposal(p: SignedProposal, now: nat) returns (r: Result<Vote, RuntimeError>)
      requires Valid()
      modifies this, consensus
      ensures Valid()
      ensures (View(), r) == Runtime.ReceiveProposal(cfg, old(View()), p, now)
    {
      var previous := chain.blocks[|chain.blocks| - 1];
      if p.block.previousHash != previous.hash || p.block.height != previous.height + 1 { return Err(NotNextBlock); }
      var state := ChainState(chain.chainId, chain.commitment, chain.blocks, chain.initial, chain.balances,
                              chain.nonces, chain.executed);
      if !ScheduledBlockOk(cfg, state, p.block, now) { return Err(ScheduleMismatch); }
      var handled := consensus.HandleProposal(p);
      if handled.Err? { return Err(ConsensusFault(handled.error)); }
      pending := Some(p.block);
      deadline := now + cfg.timeouts.For(consensus.phase);
      var vote := SignVote(cfg, now, p.height, p.round, VoteType.Prevote, p.block.hash);
      if vote.None? { return Err(SignerFailed); }
      signed := signed + {vote.value};
      r := Ok(vote.value);
    }

    method ReceiveVote(v: Vote, now: nat) returns (r: Result<Option<Vote>, RuntimeError>)
      requires Valid()
      modifies this, consensus, chain
      ensures Valid() && deferred == old(deferred)
      ensures (View(), r) == Runtime.ReceiveVote(cfg, old(View()), v, now)
    {
      var previousPhase := consensus.phase;
      var handled := consensus.Handle(v);
      if handled.Err? { return Err(ConsensusFault(handled.error)); }
      Record(v, previousPhase, now);
      if consensus.phase == Phase.Precommit {
        r := Precommit(now);
      } else if consensus.phase == Finalized {
        r := Finalize();
      } else {
        r := Ok(None);
      }
    }

    method Record(v: Vote, previousPhase: Phase, now: nat)
      modifies this
      ensures forall s: RuntimeState :: s.bft.phase == previousPhase && s.(bft := consensus.View()) == old(View()) ==>
        View() == AfterVote(cfg, s, consensus.View(), v, now)
      ensures deferred == old(deferred)
    {
      if v.kind == VoteType.Precommit && !KnownPrecommit(precommits, v) {
        precommits := precommits + [v];
      }
      if previousPhase != consensus.phase {
        if previousPhase == Phase.Prevote && consensus.phase == Phase.Precommit {
          validBlock := pending;
        }
        deadline := now + cfg.timeouts.For(consensus.phase);
      }
    }

    method Precommit(now: nat) returns (r: Result<Option<Vote>, RuntimeError>)
      modifies this`signed
      ensures (View(), r) == PrecommitNow(cfg, old(View()), now)
    {
      if pending.None? { return Err(NoCandidate); }
      var vote := SignVote(cfg, now, pending.value.height, consensus.round, VoteType.Precommit, pending.value.hash);
      if vote.None? { return Err(SignerFailed); }
      signed := signed + {vote.value};
      r := Ok(Some(vote.value));
    }

    method Finalize() returns (r: Result<Option<Vote>, RuntimeError>)
      requires Valid()
      modifies this, chain
      ensures Valid() && deferred == old(deferred)
      ensures (View(), r) == FinalizeNow(cfg, old(View()))
    {
      if pending.None? { return Ok(None); }
      var block := pending.value;
      pending := None;
      if consensus.finalized != Some(block.hash) { return Err(HashMismatch); }
      var certificate := FinalityCertificate(block, consensus.round, precommits);
      var valid := VerifyCertificate(cfg.crypto, cfg.validators, certificate);
      if !valid { return Err(BadCertificate); }
      var applied := chain.ApplyBlock(block);
      if applied.Err? { return Err(LedgerFault(applied.error)); }
      finalized := finalized + [certificate];
      unreported := unreported + [certificate];
      r := Ok(None);
    }

    method DeferVote(v: Vote)
      modifies this`deferred
      ensures View() == Runtime.DeferVote(old(View()), v)
      ensures |old(deferred)| <= MAX_DEFERRED_VOTES ==> |deferred| <= MAX_DEFERRED_VOTES
    {
      if KnownDeferred(deferred, v) { return; }
      if |deferred| >= MAX_DEFERRED_VOTES {
        deferred := deferred[1..];
      }
      deferred := deferred + [v];
    }

    /** Sweeps over the deferred votes until a sweep moves nothing. */
    method ReplayDeferredVotes(now: nat) returns (r: Result<seq<Vote>, RuntimeError>)
      requires Valid()
      modifies this, consensus, chain
      ensures Valid()
      ensures (View(), r) == ReplayDeferred(cfg, old(View()), [], now)
    {
      var outbound: seq<Vote> := [];
      var again := true;
      while again
        invariant Valid()
        invariant if again then ReplayDeferred(cfg, old(View()), [], now) == ReplayDeferred(cfg, View(), outbound, now)
                  else ReplayDeferred(cfg, old(View()), [], now) == (View(), Ok(outbound))
        decreases again, |deferred|
      {
        var progressed, sent, error := SweepOnce(outbound, now);
        if error.Some? {
          return Err(error.value);
        }
        outbound := sent;
        again := progressed;
      }
      r := Ok(outbound);
    }

    /** One sweep: plays every deferred vote once and keeps those that are still too early. */
    method SweepOnce(outbound: seq<Vote>, now: nat)
      returns (progressed: bool, sent: seq<Vote>, error: Option<RuntimeError>)
      requires Valid()
      modifies this, consensus, chain
      ensures Valid()
      ensures var w := SweepVotes(cfg, Sweep(old(View()).(deferred := []), [], outbound, false), old(deferred), now);
        match w
        case Aborted(t, e) => error == Some(e) && View() == t
        case Sweep(t, remaining, out, moved) =>
          error == None && View() == t.(deferred := remaining) && sent == out && progressed == moved
      ensures error == None && progressed ==> |deferred| < |old(deferred)|
    {
      progressed, sent, error := false, outbound, None;
      var votes, remaining: seq<Vote> := deferred, [];
      deferred := [];
      ghost var goal := SweepVotes(cfg, Sweep(View(), [], outbound, false), votes, now);
      var i := 0;
      while i < |votes|
        invariant 0 <= i <= |votes| && Valid() && deferred == [] && error == None
        invariant goal == SweepVotes(cfg, Sweep(View(), remaining, sent, progressed), votes[i..], now)
        invariant |remaining| + (if progressed then 1 else 0) <= i
      {
        assert votes[i..][0] == votes[i] && votes[i..][1..] == votes[i + 1..];
        ghost var w := Sweep(View(), remaining, sent, progressed);
        var kept, moved, out, failed := SweepVote(w, votes[i], now);
        error := failed;
        assert goal == SweepVotes(cfg, w, votes[i..], now);
        if error.Some? {
          return;
        }
        remaining := remaining + kept;
        progressed := progressed || moved;
        sent := sent + out;
        assert Runtime.SweepVote(cfg, w, votes[i], now) == Sweep(View(), remaining, sent, progressed);
        i := i + 1;
      }
      assert votes[i..] == [];
      assert goal == Sweep(View(), remaining, sent, progressed);
      deferred := remaining;
    }

    /** Plays one deferred vote; `w` is where the sweep stands. */
    method SweepVote(ghost w: Sweep, v: Vote, now: nat)
      returns (kept: seq<Vote>, moved: bool, sent: seq<Vote>, error: Option<RuntimeError>)
      requires Valid() && deferred == [] && w.Sweep? && w.state == View()
      modifies this, consensus, chain
      ensures Valid() && deferred == []
      ensures Runtime.SweepVote(cfg, w, v, now) ==
        if error.Some? then Aborted(View(), error.value)
        else Sweep(View(), w.remaining + kept, w.outbound + sent, w.progressed || moved)
      ensures error == None ==> |kept| + (if moved then 1 else 0) <= 1
    {
      kept, moved, sent, error := [], false, [], None;
      var r := ReceiveVote(v, now);
      match r
      case Ok(Some(precommit)) =>
        var q := ReceiveVote(precommit, now);
        if q.Err? {
          error := Some(q.error);
          return;
        }
        sent, moved := [precommit], true;
      case Ok(None) =>
        moved := true;
      case Err(e) =>
        if Deferable(e) {
          kept := [v];
        }
    }

    method TimeoutIfDue(now: nat) returns (r: Result<bool, RuntimeError>)
      requires Valid()
      modifies this, consensus
      ensures Valid()
      ensures (View(), r) == Runtime.TimeoutIfDue(cfg, old(View()), now)
    {
      if now < deadline || consensus.phase == Finalized { return Ok(false); }
      var next := consensus.OnTimeout();
      if next.Err? { return Err(ConsensusFault(next.error)); }
      pending := None;
      precommits := [];
      deadline := now + cfg.timeouts.propose;
      r := Ok(true);
    }

    method RestartPhaseTimeout(now: nat)
      requires Valid()
      modifies this`deadline
      ensures Valid()
      ensures View() == Runtime.RestartPhaseTimeout(cfg, old(View()), now)
    {
      deadline := now + cfg.timeouts.For(consensus.phase);
    }

    /** Hands out the certificates finalized since the last time. */
    method TakeFinalized() returns (taken: seq<FinalityCertificate>)
      requires Valid()
      modifies this`unreported
      ensures Valid()
      ensures taken == old(View()).unreported && View() == old(View()).(unreported := [])
    {
      taken := unreported;
      unreported := [];
    }

    method EnterNextHeight(now: nat) returns (r: Result<(), RuntimeError>)
      requires Valid()
      modifies this, consensus
      ensures Valid()
      ensures (View(), r) == Runtime.EnterNextHeight(cfg, old(View()), now)
    {
      var started := consensus.StartRound(chain.blocks[|chain.blocks| - 1].height + 1, 0);
      if started.Err? { return Err(ConsensusFault(started.error)); }
      pending, validBlock := None, None;
      precommits := [];
      deadline := now + cfg.timeouts.For(consensus.phase);
      r := Ok(());
    }

    method AdvanceAfterFinalization(now: nat) returns (r: Result<(), RuntimeError>)
      requires Valid()
      modifies this, consensus
      ensures Valid()
      ensures (View(), r) == Runtime.AdvanceAfterFinalization(cfg, old(View()), now)
    {
      if consensus.phase != Finalized { return Err(NotFinalized); }
      r := EnterNextHeight(now);
    }

    /** `block_by_height`: the first block of that height. */
    method FindBlock(height: nat) returns (b: Option<Block>)
      ensures b == BlockAtHeight(chain.blocks, height)
    {
      var i := 0;
      while i < |chain.blocks|
        invariant 0 <= i <= |chain.blocks|
        invariant BlockAtHeight(chain.blocks, height) == BlockAtHeight(chain.blocks[i..], height)
      {
        assert chain.blocks[i..][1..] == chain.blocks[i + 1..];
        if chain.blocks[i].height == height { return Some(chain.blocks[i]); }
        i := i + 1;
      }
      b := None;
    }

    method SyncOne(cert: FinalityCertificate, now: nat) returns (r: Result<bool, RuntimeError>)
      requires Valid()
      modifies this, chain
      ensures Valid()
      ensures (View(), r) == Runtime.SyncOne(cfg, old(View()), cert, now)
    {
      var valid := VerifyCertificate(cfg.crypto, cfg.validators, cert);
      if !valid { return Err(BadCertificate); }
      var next := chain.blocks[|chain.blocks| - 1].height + 1;
      if cert.block.height < next {
        var canonical := FindBlock(cert.block.height);
        if canonical.None? || canonical.value.hash != cert.block.hash { return Err(FinalityViolation); }
        return Ok(false);
      }
      if cert.block.height != next { return Err(HeightGap); }
      var state := ChainState(chain.chainId, chain.commitment, chain.blocks, chain.initial, chain.balances,
                              chain.nonces, chain.executed);
      if !ScheduledBlockOk(cfg, state, cert.block, now) { return Err(ScheduleMismatch); }
      var applied := chain.ApplyBlock(cert.block);
      if applied.Err? { return Err(LedgerFault(applied.error)); }
      finalized := finalized + [cert];
      r := Ok(true);
    }

    method ApplySyncCertificates(certs: seq<FinalityCertificate>, now: nat) returns (r: Result<nat, RuntimeError>)
      requires Valid()
      modifies this, chain, consensus
      ensures Valid()
      ensures (View(), r) == Runtime.ApplySyncCertificates(cfg, old(View()), certs, now)
    {
      var loaded := SyncLoop(certs, now);
      if loaded.Err? || loaded.value == 0 { return loaded; }
      var entered := EnterNextHeight(now);
      r := if entered.Err? then Err(entered.error) else loaded;
    }

    method SyncLoop(certs: seq<FinalityCertificate>, now: nat) returns (r: Result<nat, RuntimeError>)
      requires Valid()
      modifies this, chain
      ensures Valid()
      ensures (View(), r) == SyncAll(cfg, old(View()), certs, 0, now)
    {
      var applied := 0;
      var i := 0;
      while i < |certs|
        invariant 0 <= i <= |certs| && Valid()
        invariant SyncAll(cfg, old(View()), certs, 0, now) == SyncAll(cfg, View(), certs[i..], applied, now)
      {
        assert certs[i..][0] == certs[i] && certs[i..][1..] == certs[i + 1..];
        var grew := SyncOne(certs[i], now);
        if grew.Err? { return Err(grew.error); }
        if grew.value {
          applied := applied + 1;
        }
        i := i + 1;
      }
      assert certs[i..] == [];
      r := Ok(applied);
    }

    /** Filters by height, then takes up to 128 certificates within the byte limit. */
    method CertificatesFrom(size: FinalityCertificate -> nat, fromHeight: nat)
      returns (selected: seq<FinalityCertificate>)
      ensures selected == Runtime.CertificatesFrom(finalized, size, fromHeight, 0, 0, false)
    {
      selected := [];
      var bytes: nat, i := 0, 0;
      while i < |finalized| && |selected| < MAX_SYNC_COUNT
        invariant 0 <= i <= |finalized| && |selected| <= MAX_SYNC_COUNT
        invariant Runtime.CertificatesFrom(finalized, size, fromHeight, 0, 0, false)
               == selected + Runtime.CertificatesFrom(finalized[i..], size, fromHeight, |selected|, bytes,
                                                      selected != [])
      {
        var certificate := finalized[i];
        assert finalized[i..][0] == certificate && finalized[i..][1..] == finalized[i + 1..];
        if certificate.block.height >= fromHeight {
          if selected != [] && bytes + size(certificate) > MAX_SYNC_BYTES {
            return;
          }
          bytes := bytes + size(certificate);
          selected := selected + [certificate];
        }
        i := i + 1;
      }
    }
  }
}
