/** Where blocks in a node's chain come from: every block after genesis was on schedule for
    the chain it extended, executed on it, and is stored with its certificate. */
module History {
  import opened Basics
  import opened Messages
  import opened Quorum
  import opened Ledger
  import opened Chain
  import opened Bft
  import opened Runtime

  /** A block as the runtime takes it over: on schedule and executable. */
  function AcceptBlock(cfg: NodeConfig, s: ChainState, b: Block): (r: Result<ChainState, RuntimeError>)
    requires s.HasTip()
    ensures r.Ok? ==> r.value.HasTip()
  {
    if !OnSchedule(cfg, s, b) then Err(ScheduleMismatch)
    else
      match ApplyBlock(cfg.crypto, s, b)
      case Err(e) => Err(LedgerFault(e))
      case Ok(t) => Ok(t)
  }

  function AcceptAll(cfg: NodeConfig, s: ChainState, blocks: seq<Block>): (r: Result<ChainState, RuntimeError>)
    requires s.HasTip()
    ensures r.Ok? ==> r.value.HasTip()
    decreases |blocks|
  {
    if blocks == [] then Ok(s)
    else
      match AcceptBlock(cfg, s, blocks[0])
      case Err(e) => Err(e)
      case Ok(t) => AcceptAll(cfg, t, blocks[1..])
  }

  lemma {:induction false} AcceptAppend(cfg: NodeConfig, s: ChainState, blocks: seq<Block>, more: seq<Block>)
    requires s.HasTip()
    ensures AcceptAll(cfg, s, blocks + more) ==
      match AcceptAll(cfg, s, blocks)
      case Err(e) => Err(e)
      case Ok(t) => AcceptAll(cfg, t, more)
    decreases |blocks|
  {
    if blocks == [] {
      assert blocks + more == more;
    } else {
      assert (blocks + more)[1..] == blocks[1..] + more;
      var r := AcceptBlock(cfg, s, blocks[0]);
      if r.Ok? {
        AcceptAppend(cfg, r.value, blocks[1..], more);
      }
    }
  }

  lemma AcceptSnoc(cfg: NodeConfig, s: ChainState, blocks: seq<Block>, b: Block)
    requires s.HasTip() && AcceptAll(cfg, s, blocks).Ok?
    ensures AcceptAll(cfg, s, blocks + [b]) == AcceptBlock(cfg, AcceptAll(cfg, s, blocks).value, b)
  {
    AcceptAppend(cfg, s, blocks, [b]);
  }

  lemma {:induction false} AcceptIsReplay(cfg: NodeConfig, s: ChainState, blocks: seq<Block>)
    requires s.HasTip() && AcceptAll(cfg, s, blocks).Ok?
    ensures Replay(cfg.crypto, s, blocks) == Ok(AcceptAll(cfg, s, blocks).value)
    decreases |blocks|
  {
    if blocks != [] {
      AcceptIsReplay(cfg, AcceptBlock(cfg, s, blocks[0]).value, blocks[1..]);
    }
  }

  ghost predicate IsGenesis(cfg: NodeConfig, g: ChainState) {
    g == Genesis(cfg.crypto, g.chainId, g.commitment, g.initial)
  }

  /** The chain is what accepting its own blocks one by one from genesis gives. */
  ghost predicate Accepted(cfg: NodeConfig, g: ChainState, s: ChainState) {
    && IsGenesis(cfg, g)
    && s.HasTip()
    && AcceptAll(cfg, g, s.blocks[1..]) == Ok(s)
    && s.blocks[0] == g.blocks[0]
  }

  lemma AcceptedSelfReplaying(cfg: NodeConfig, g: ChainState, s: ChainState)
    requires Accepted(cfg, g, s)
    ensures SelfReplaying(cfg.crypto, s)
    ensures s.chainId == g.chainId && s.commitment == g.commitment && s.initial == g.initial
  {
    AcceptIsReplay(cfg, g, s.blocks[1..]);
    ReplayConfig(cfg.crypto, g, s.blocks[1..]);
  }

  lemma {:induction false} ReplayConfig(c: Crypto, s: ChainState, blocks: seq<Block>)
    requires s.HasTip() && Replay(c, s, blocks).Ok?
    ensures var t := Replay(c, s, blocks).value;
      t.chainId == s.chainId && t.commitment == s.commitment && t.initial == s.initial
    decreases |blocks|
  {
    if blocks != [] {
      ReplayConfig(c, ApplyBlock(c, s, blocks[0]).value, blocks[1..]);
    }
  }

  lemma AcceptedHeights(cfg: NodeConfig, g: ChainState, s: ChainState, i: nat)
    requires Accepted(cfg, g, s) && i < |s.blocks|
    ensures s.blocks[i].height == i
    ensures i > 0 ==> s.blocks[i].hash == CalculateHash(cfg.crypto, s.blocks[i])
  {
    AcceptedSelfReplaying(cfg, g, s);
    HeightIsIndex(cfg.crypto, s, i);
  }

  lemma AcceptedGrows(cfg: NodeConfig, g: ChainState, s: ChainState, b: Block)
    requires Accepted(cfg, g, s) && OnSchedule(cfg, s, b) && ApplyBlock(cfg.crypto, s, b).Ok?
    ensures Accepted(cfg, g, ApplyBlock(cfg.crypto, s, b).value)
  {
    var t := ApplyBlock(cfg.crypto, s, b).value;
    AcceptSnoc(cfg, g, s.blocks[1..], b);
    assert t.blocks[1..] == s.blocks[1..] + [b];
  }

  /** One stored certificate per block after genesis, in order. */
  ghost predicate Certified(blocks: seq<Block>, certs: seq<FinalityCertificate>) {
    && |certs| + 1 == |blocks|
    && (forall i :: 0 <= i < |certs| ==> certs[i].block == blocks[i + 1])
  }

  /** The candidate block was on schedule for the tip it extends. */
  ghost predicate PendingOnSchedule(cfg: NodeConfig, chain: ChainState, pending: Option<Block>)
    requires chain.HasTip()
  {
    pending.Some? ==>
      && pending.value.height <= chain.Tip().height + 1
      && (Extends(chain.Tip(), pending.value) ==> OnSchedule(cfg, chain, pending.value))
  }

  ghost predicate AllValid(cfg: NodeConfig, certs: seq<FinalityCertificate>) {
    forall cert {:trigger cert in certs} :: cert in certs ==> CertificateValid(cfg.crypto, cfg.validators, cert)
  }

  ghost predicate HistoryInv(cfg: NodeConfig, g: ChainState, s: RuntimeState) {
    && Accepted(cfg, g, s.chain)
    && Certified(s.chain.blocks, s.finalized)
    && AllValid(cfg, s.finalized)
    && PendingOnSchedule(cfg, s.chain, s.pending)
  }

  // ---------- Restored chains ----------

  /** The anchor of a restored chain has timestamp 0, so the schedule check on it and on the
      original differ exactly for blocks that go back in time but fit otherwise. */
  lemma RestoredScheduleDiffersIff(cfg: NodeConfig, s: ChainState, commitment: string, b: Block)
    requires s.HasTip() && Restore(commitment, TakeSnapshot(s)).Ok?
    ensures (OnSchedule(cfg, Restore(commitment, TakeSnapshot(s)).value, b) != OnSchedule(cfg, s, b))
       <==> b.timestamp < s.Tip().timestamp && EventsFit(cfg, s.executed, b)
  {
  }

  // ---------- Every input keeps the history ----------

  lemma StoreBlock(cfg: NodeConfig, g: ChainState, chain: ChainState, certs: seq<FinalityCertificate>,
                   cert: FinalityCertificate)
    requires Accepted(cfg, g, chain) && Certified(chain.blocks, certs) && AllValid(cfg, certs)
    requires OnSchedule(cfg, chain, cert.block) && ApplyBlock(cfg.crypto, chain, cert.block).Ok?
    requires CertificateValid(cfg.crypto, cfg.validators, cert)
    ensures var t := ApplyBlock(cfg.crypto, chain, cert.block).value;
      Accepted(cfg, g, t) && Certified(t.blocks, certs + [cert]) && AllValid(cfg, certs + [cert])
  {
    AcceptedGrows(cfg, g, chain, cert.block);
  }

  lemma ReceiveProposalHistory(cfg: NodeConfig, g: ChainState, s: RuntimeState, p: SignedProposal, now: nat)
    requires HistoryInv(cfg, g, s)
    ensures HistoryInv(cfg, g, ReceiveProposal(cfg, s, p, now).0)
  {
  }

  lemma FinalizeHistory(cfg: NodeConfig, g: ChainState, s: RuntimeState)
    requires HistoryInv(cfg, g, s)
    ensures HistoryInv(cfg, g, FinalizeNow(cfg, s).0)
  {
    if s.pending.Some? {
      var cert := FinalityCertificate(s.pending.value, s.bft.round, s.precommits);
      if CertificateValid(cfg.crypto, cfg.validators, cert) && ApplyBlock(cfg.crypto, s.chain, s.pending.value).Ok? {
        StoreBlock(cfg, g, s.chain, s.finalized, cert);
      }
    }
  }

  lemma RespondHistory(cfg: NodeConfig, g: ChainState, s: RuntimeState, b: BftState, handled: Result<(), BftError>,
                       v: Vote, now: nat)
    requires HistoryInv(cfg, g, s)
    ensures HistoryInv(cfg, g, Respond(cfg, s, b, handled, v, now).0)
  {
    var t := AfterVote(cfg, s, b, v, now);
    assert t.chain == s.chain && t.finalized == s.finalized && t.pending == s.pending;
    if handled.Ok? && b.phase == Finalized {
      FinalizeHistory(cfg, g, t);
    }
  }

  lemma ReceiveVoteHistory(cfg: NodeConfig, g: ChainState, s: RuntimeState, v: Vote, now: nat)
    requires HistoryInv(cfg, g, s)
    ensures HistoryInv(cfg, g, ReceiveVote(cfg, s, v, now).0)
  {
    var (b, handled) := Handle(cfg.crypto, s.bft, v);
    RespondHistory(cfg, g, s, b, handled, v, now);
  }

  lemma SweepVoteHistory(cfg: NodeConfig, g: ChainState, w: Sweep, v: Vote, now: nat)
    requires w.Sweep? && HistoryInv(cfg, g, w.state)
    ensures HistoryInv(cfg, g, SweepVote(cfg, w, v, now).state)
  {
    ReceiveVoteHistory(cfg, g, w.state, v, now);
    var (t, r) := ReceiveVote(cfg, w.state, v, now);
    if r.Ok? && r.value.Some? {
      ReceiveVoteHistory(cfg, g, t, r.value.value, now);
    }
  }

  lemma {:induction false} SweepVotesHistory(cfg: NodeConfig, g: ChainState, w: Sweep, votes: seq<Vote>, now: nat)
    requires w.Sweep? && HistoryInv(cfg, g, w.state)
    ensures HistoryInv(cfg, g, SweepVotes(cfg, w, votes, now).state)
    decreases |votes|
  {
    if votes != [] {
      SweepVoteHistory(cfg, g, w, votes[0], now);
      var next := SweepVote(cfg, w, votes[0], now);
      if next.Sweep? {
        SweepVotesHistory(cfg, g, next, votes[1..], now);
      }
    }
  }

  lemma {:induction false} ReplayHistory(cfg: NodeConfig, g: ChainState, s: RuntimeState, outbound: seq<Vote>, now: nat)
    requires HistoryInv(cfg, g, s)
    ensures HistoryInv(cfg, g, ReplayDeferred(cfg, s, outbound, now).0)
    decreases |s.deferred|
  {
    var start := Sweep(s.(deferred := []), [], outbound, false);
    SweepVotesHistory(cfg, g, start, s.deferred, now);
    var w := SweepVotes(cfg, start, s.deferred, now);
    if w.Sweep? && w.progressed {
      ReplayHistory(cfg, g, w.state.(deferred := w.remaining), w.outbound, now);
    }
  }

  lemma SyncOneHistory(cfg: NodeConfig, g: ChainState, s: RuntimeState, cert: FinalityCertificate, now: nat)
    requires HistoryInv(cfg, g, s)
    ensures HistoryInv(cfg, g, SyncOne(cfg, s, cert, now).0)
  {
    var applied := ApplyBlock(cfg.crypto, s.chain, cert.block);
    if CertificateValid(cfg.crypto, cfg.validators, cert) && OnSchedule(cfg, s.chain, cert.block) && applied.Ok? {
      TakenHistory(cfg, g, s, cert, applied.value);
    }
  }

  lemma TakenHistory(cfg: NodeConfig, g: ChainState, s: RuntimeState, cert: FinalityCertificate, chain: ChainState)
    requires HistoryInv(cfg, g, s) && CertificateValid(cfg.crypto, cfg.validators, cert)
    requires OnSchedule(cfg, s.chain, cert.block) && ApplyBlock(cfg.crypto, s.chain, cert.block) == Ok(chain)
    ensures HistoryInv(cfg, g, s.(chain := chain, finalized := s.finalized + [cert]))
  {
    StoreBlock(cfg, g, s.chain, s.finalized, cert);
  }

  lemma {:induction false} SyncAllHistory(cfg: NodeConfig, g: ChainState, s: RuntimeState,
                                          certs: seq<FinalityCertificate>, applied: nat, now: nat)
    requires HistoryInv(cfg, g, s)
    ensures HistoryInv(cfg, g, SyncAll(cfg, s, certs, applied, now).0)
    decreases |certs|
  {
    if certs != [] {
      SyncOneHistory(cfg, g, s, certs[0], now);
      var (t, r) := SyncOne(cfg, s, certs[0], now);
      if r.Ok? {
        SyncAllHistory(cfg, g, t, certs[1..], if r.value then applied + 1 else applied, now);
      }
    }
  }

  lemma EnterHistory(cfg: NodeConfig, g: ChainState, s: RuntimeState, now: nat)
    requires HistoryInv(cfg, g, s)
    ensures HistoryInv(cfg, g, EnterNextHeight(cfg, s, now).0)
  {
  }

  lemma SyncHistory(cfg: NodeConfig, g: ChainState, s: RuntimeState, certs: seq<FinalityCertificate>, now: nat)
    requires HistoryInv(cfg, g, s)
    ensures HistoryInv(cfg, g, ApplySyncCertificates(cfg, s, certs, now).0)
  {
    SyncAllHistory(cfg, g, s, certs, 0, now);
    EnterHistory(cfg, g, SyncAll(cfg, s, certs, 0, now).0, now);
  }

  lemma TickHistory(cfg: NodeConfig, g: ChainState, s: RuntimeState, now: nat)
    requires HistoryInv(cfg, g, s)
    ensures HistoryInv(cfg, g, TimeoutIfDue(cfg, s, now).0)
  {
  }

  /** The inductive step: no input of any kind, honest or not, spoils the history. */
  lemma StepHistory(cfg: NodeConfig, g: ChainState, s: RuntimeState, input: Input, now: nat)
    requires HistoryInv(cfg, g, s)
    ensures HistoryInv(cfg, g, Step(cfg, s, input, now))
  {
    match input
    case Proposal(p) => ReceiveProposalHistory(cfg, g, s, p, now);
    case IncomingVote(v) => ReceiveVoteHistory(cfg, g, s, v, now);
    case Defer(v) =>
    case ReplayVotes => ReplayHistory(cfg, g, s, [], now);
    case Tick => TickHistory(cfg, g, s, now);
    case RestartTimeout =>
    case SyncCertificates(certs) => SyncHistory(cfg, g, s, certs, now);
    case AdvanceHeight => EnterHistory(cfg, g, s, now);
    case TakeFinalized =>
    case TakeEvidence =>
  }
}
