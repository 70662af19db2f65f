/** The consensus runtime of one node (src/consensus_runtime.rs) as a transition system:
    proposals, votes, deferred votes, timeouts, finalization and certificate sync. The
    clock, the signer and the wire size of a certificate are inputs. */
module Runtime {
  import opened Basics
  import opened Sorting
  import opened Messages
  import opened Events
  import opened Quorum
  import opened Ledger
  import opened Bft

  datatype Timeouts = Timeouts(propose: nat, prevote: nat, precommit: nat) {
    function For(phase: Phase): nat {
      match phase
      case Waiting => propose
      case Propose => propose
      case Prevote => prevote
      case Precommit => precommit
      case Finalized => precommit
    }
  }

  /** What stays fixed while a node runs. The two signing functions answer for the local
      signer at a given time and may refuse. */
  datatype NodeConfig = NodeConfig(
    crypto: Crypto, me: Id,
    signVote: (nat, Vote) -> Option<string>,
    signProposal: (nat, SignedProposal) -> Option<string>,
    validators: seq<Validator>, schedule: Schedule, timeouts: Timeouts)

  datatype RuntimeError =
    | ConsensusFault(bft: BftError) | LedgerFault(ledger: LedgerError)
    | NotNextBlock | ScheduleMismatch | SignerFailed | NotProposing | NotMyTurn
    | NoCandidate | HashMismatch | BadCertificate | FinalityViolation | HeightGap | NotFinalized

  /** `signed` is the journal of every vote the node's signer has produced. */
  datatype RuntimeState = RuntimeState(
    chain: ChainState, bft: BftState, pending: Option<Block>, validBlock: Option<Block>, deadline: nat,
    precommits: seq<Vote>, deferred: seq<Vote>, finalized: seq<FinalityCertificate>,
    unreported: seq<FinalityCertificate>, signed: set<Vote>)

  // ---------- Scheduled blocks ----------

  const BOOTSTRAP_REWARD_ID: string := "ieum-bootstrap-validator-reward-v1"
  const MILESTONE_REWARD_ID: string := "ieum-node-100-reward-v1"

  predicate BuiltIn(action: EventAction) {
    action.BootstrapValidatorReward? || action.NodeMilestoneReward?
  }

  function Configured(events: seq<ScheduledEvent>): seq<ScheduledEvent> {
    if events == [] then []
    else if BuiltIn(events[0].action) then Configured(events[1..])
    else [events[0]] + Configured(events[1..])
  }

  function RegisteredIds(regs: seq<ValidatorRegistration>): seq<Id> {
    seq(|regs|, i requires 0 <= i < |regs| => regs[i].validatorId)
  }

  function ValidatorIds(validators: seq<Validator>): seq<Id> {
    seq(|validators|, i requires 0 <= i < |validators| => validators[i].id)
  }

  predicate BuiltInOk(c: Crypto, validators: seq<Validator>, executed: set<string>, e: ScheduledEvent)
    requires BuiltIn(e.action)
  {
    && (match e.action
        case BootstrapValidatorReward(regs, _) =>
          && e.id == BOOTSTRAP_REWARD_ID
          && Sort(TextLe, RegisteredIds(regs)) == Sort(TextLe, ValidatorIds(validators))
        case NodeMilestoneReward(_, _) => e.id == MILESTONE_REWARD_ID)
    && ValidEvent(c, e)
    && e.id !in executed
  }

  /** The block carries the events that are due and acceptable built-in rewards. */
  predicate EventsFit(cfg: NodeConfig, executed: set<string>, b: Block) {
    && Configured(b.systemEvents) == Due(cfg.schedule, b.timestamp, executed)
    && (forall i :: 0 <= i < |b.systemEvents| && BuiltIn(b.systemEvents[i].action) ==>
          BuiltInOk(cfg.crypto, cfg.validators, executed, b.systemEvents[i]))
  }

  /** `validate_scheduled_block` without its clock test. */
  predicate OnSchedule(cfg: NodeConfig, chain: ChainState, b: Block)
    requires chain.HasTip()
  {
    b.timestamp >= chain.Tip().timestamp && EventsFit(cfg, chain.executed, b)
  }

  predicate InTime(b: Block, now: nat) {
    b.timestamp <= Min(now + MAX_CLOCK_DRIFT_SECONDS, U64_MAX)
  }

  predicate ScheduledBlockOk(cfg: NodeConfig, chain: ChainState, b: Block, now: nat)
    requires chain.HasTip()
  {
    InTime(b, now) && OnSchedule(cfg, chain, b)
  }

  // ---------- Signing ----------

  function SignVote(cfg: NodeConfig, now: nat, height: u64, round: u32, kind: VoteType, hash: Hash): (r: Option<Vote>)
    ensures r.Some? ==> r.value == Vote(height, round, cfg.me, kind, hash, r.value.signature)
    ensures r.Some? ==> cfg.crypto.voteSigned(r.value)
  {
    var draft := Vote(height, round, cfg.me, kind, hash, "");
    match cfg.signVote(now, draft)
    case None => None
    case Some(signature) =>
      var vote := draft.(signature := signature);
      if cfg.crypto.voteSigned(vote) then Some(vote) else None
  }

  // ---------- Proposals ----------

  function MakeProposal(cfg: NodeConfig, s: RuntimeState, block: Block, now: nat):
      Result<SignedProposal, RuntimeError> {
    if s.bft.phase != Propose then Err(NotProposing)
    else if !IsProposer(s.bft, cfg.me) then Err(NotMyTurn)
    else
      var reuse := s.validBlock.Some? && s.bft.validValue.Some? && s.bft.validRound.Some?
                && s.validBlock.value.hash == s.bft.validValue.value;
      var chosen := if reuse then s.validBlock.value else block;
      var validRound := if reuse then s.bft.validRound else None;
      var draft := SignedProposal(chosen.height, s.bft.round, cfg.me, validRound, chosen, "");
      match cfg.signProposal(now, draft)
      case None => Err(SignerFailed)
      case Some(signature) =>
        var p := draft.(signature := signature);
        if ProposalVerified(cfg.crypto, p) then Ok(p) else Err(SignerFailed)
  }

  function ReceiveProposal(cfg: NodeConfig, s: RuntimeState, p: SignedProposal, now: nat):
      (RuntimeState, Result<Vote, RuntimeError>)
    requires s.chain.HasTip()
  {
    if !Extends(s.chain.Tip(), p.block) then (s, Err(NotNextBlock))
    else if !ScheduledBlockOk(cfg, s.chain, p.block, now) then (s, Err(ScheduleMismatch))
    else
      match HandleProposal(cfg.crypto, s.bft, p)
      case Err(e) => (s, Err(ConsensusFault(e)))
      case Ok(b) =>
        var t := s.(bft := b, pending := Some(p.block), deadline := now + cfg.timeouts.For(b.phase));
        match SignVote(cfg, now, p.height, p.round, VoteType.Prevote, p.block.hash)
        case None => (t, Err(SignerFailed))
        case Some(v) => (t.(signed := t.signed + {v}), Ok(v))
  }

  // ---------- Votes ----------

  predicate KnownPrecommit(precommits: seq<Vote>, v: Vote) {
    exists w :: w in precommits && w.height == v.height && w.round == v.round && w.validator == v.validator
  }

  function KeepPrecommit(precommits: seq<Vote>, v: Vote): seq<Vote> {
    if v.kind == VoteType.Precommit && !KnownPrecommit(precommits, v) then precommits + [v] else precommits
  }

  /** Bookkeeping after an accepted vote, before anything is signed or finalized. */
  function AfterVote(cfg: NodeConfig, s: RuntimeState, b: BftState, v: Vote, now: nat): RuntimeState {
    var t := s.(bft := b, precommits := KeepPrecommit(s.precommits, v));
    if b.phase == s.bft.phase then t
    else
      var block := if s.bft.phase == Phase.Prevote && b.phase == Phase.Precommit then s.pending else s.validBlock;
      t.(validBlock := block, deadline := now + cfg.timeouts.For(b.phase))
  }

  function PrecommitNow(cfg: NodeConfig, s: RuntimeState, now: nat):
      (RuntimeState, Result<Option<Vote>, RuntimeError>) {
    match s.pending
    case None => (s, Err(NoCandidate))
    case Some(block) =>
      match SignVote(cfg, now, block.height, s.bft.round, VoteType.Precommit, block.hash)
      case None => (s, Err(SignerFailed))
      case Some(v) => (s.(signed := s.signed + {v}), Ok(Some(v)))
  }

  ghost function FinalizeNow(cfg: NodeConfig, s: RuntimeState): (RuntimeState, Result<Option<Vote>, RuntimeError>)
    requires s.chain.HasTip()
  {
    match s.pending
    case None => (s, Ok(None))
    case Some(block) =>
      var t := s.(pending := None);
      if s.bft.finalized != Some(block.hash) then (t, Err(HashMismatch))
      else
        var certificate := FinalityCertificate(block, s.bft.round, s.precommits);
        if !CertificateValid(cfg.crypto, cfg.validators, certificate) then (t, Err(BadCertificate))
        else
          match ApplyBlock(cfg.crypto, s.chain, block)
          case Err(e) => (t, Err(LedgerFault(e)))
          case Ok(chain) =>
            (t.(chain := chain, finalized := t.finalized + [certificate], unreported := t.unreported + [certificate]),
             Ok(None))
  }

  /** What the runtime does once the state machine has judged a vote. */
  ghost function Respond(cfg: NodeConfig, s: RuntimeState, b: BftState, handled: Result<(), BftError>, v: Vote,
                         now: nat): (r: (RuntimeState, Result<Option<Vote>, RuntimeError>))
    requires s.chain.HasTip()
    ensures r.0.chain.HasTip() && r.0.deferred == s.deferred
  {
    if handled.Err? then (s.(bft := b), Err(ConsensusFault(handled.error)))
    else
      var t := AfterVote(cfg, s, b, v, now);
      if b.phase == Phase.Precommit then PrecommitNow(cfg, t, now)
      else if b.phase == Finalized then FinalizeNow(cfg, t)
      else (t, Ok(None))
  }

  ghost function ReceiveVote(cfg: NodeConfig, s: RuntimeState, v: Vote,
                             now: nat): (r: (RuntimeState, Result<Option<Vote>, RuntimeError>))
    requires s.chain.HasTip()
    ensures r.0.chain.HasTip() && r.0.deferred == s.deferred
  {
    var (b, handled) := Handle(cfg.crypto, s.bft, v);
    Respond(cfg, s, b, handled, v, now)
  }

  // ---------- Deferred votes ----------

  const MAX_DEFERRED_VOTES: nat := 1_024

  predicate Deferable(e: RuntimeError) {
    e == ConsensusFault(PhaseMismatch)
  }

  predicate KnownDeferred(deferred: seq<Vote>, v: Vote) {
    exists w :: w in deferred && SameStatement(w, v)
  }

  function DeferVote(s: RuntimeState, v: Vote): RuntimeState {
    if KnownDeferred(s.deferred, v) then s
    else
      var kept := if |s.deferred| >= MAX_DEFERRED_VOTES then s.deferred[1..] else s.deferred;
      s.(deferred := kept + [v])
  }

  /** The state of one sweep over the deferred votes. */
  datatype Sweep =
    | Sweep(state: RuntimeState, remaining: seq<Vote>, outbound: seq<Vote>, progressed: bool)
    | Aborted(state: RuntimeState, error: RuntimeError)

  /** One deferred vote: played, kept for later, or dropped. */
  ghost function SweepVote(cfg: NodeConfig, w: Sweep, v: Vote, now: nat): (r: Sweep)
    requires w.Sweep? && w.state.chain.HasTip()
    ensures r.state.chain.HasTip()
    ensures r.Sweep? ==> |r.remaining| + (if r.progressed && !w.progressed then 1 else 0) <= |w.remaining| + 1
    ensures r.Sweep? && w.progressed ==> r.progressed
  {
    var (t, r) := ReceiveVote(cfg, w.state, v, now);
    match r
    case Ok(Some(precommit)) =>
      var (u, q) := ReceiveVote(cfg, t, precommit, now);
      if q.Err? then Aborted(u, q.error) else Sweep(u, w.remaining, w.outbound + [precommit], true)
    case Ok(None) => Sweep(t, w.remaining, w.outbound, true)
    case Err(e) => if Deferable(e) then Sweep(t, w.remaining + [v], w.outbound, w.progressed)
      else Sweep(t, w.remaining, w.outbound, w.progressed)
  }

  ghost function SweepVotes(cfg: NodeConfig, w: Sweep, votes: seq<Vote>, now: nat): (r: Sweep)
    requires w.Sweep? && w.state.chain.HasTip()
    ensures r.state.chain.HasTip()
    ensures r.Sweep? ==> |r.remaining| + (if r.progressed && !w.progressed then 1 else 0) <= |w.remaining| + |votes|
    ensures r.Sweep? && w.progressed ==> r.progressed
    decreases |votes|
  {
    if votes == [] then w
    else
      var next := SweepVote(cfg, w, votes[0], now);
      if next.Aborted? then next else SweepVotes(cfg, next, votes[1..], now)
  }

  /** Sweeps until nothing moves; every sweep that moves something leaves fewer votes. */
  ghost function ReplayDeferred(cfg: NodeConfig, s: RuntimeState, outbound: seq<Vote>,
                                now: nat): (r: (RuntimeState, Result<seq<Vote>, RuntimeError>))
    requires s.chain.HasTip()
    ensures r.0.chain.HasTip()
    decreases |s.deferred|
  {
    var w := SweepVotes(cfg, Sweep(s.(deferred := []), [], outbound, false), s.deferred, now);
    match w
    case Aborted(t, e) => (t, Err(e))
    case Sweep(t, remaining, out, progressed) =>
      var u := t.(deferred := remaining);
      if progressed then ReplayDeferred(cfg, u, out, now) else (u, Ok(out))
  }

  // ---------- Rounds ----------

  function TimeoutIfDue(cfg: NodeConfig, s: RuntimeState, now: nat): (RuntimeState, Result<bool, RuntimeError>) {
    if now < s.deadline || s.bft.phase == Finalized then (s, Ok(false))
    else
      match OnTimeout(s.bft)
      case Err(e) => (s, Err(ConsensusFault(e)))
      case Ok(b) => (s.(bft := b, pending := None, precommits := [], deadline := now + cfg.timeouts.propose), Ok(true))
  }

  /** A node that wakes up gives its current phase its full time again. */
  function RestartPhaseTimeout(cfg: NodeConfig, s: RuntimeState, now: nat): RuntimeState {
    s.(deadline := now + cfg.timeouts.For(s.bft.phase))
  }

  function EnterNextHeight(cfg: NodeConfig, s: RuntimeState, now: nat): (RuntimeState, Result<(), RuntimeError>)
    requires s.chain.HasTip()
  {
    match StartRound(s.bft, s.chain.Tip().height + 1, 0)
    case Err(e) => (s, Err(ConsensusFault(e)))
    case Ok(b) =>
      (s.(bft := b, pending := None, validBlock := None, precommits := [],
          deadline := now + cfg.timeouts.For(b.phase)), Ok(()))
  }

  function AdvanceAfterFinalization(cfg: NodeConfig, s: RuntimeState, now: nat):
      (RuntimeState, Result<(), RuntimeError>)
    requires s.chain.HasTip()
  {
    if s.bft.phase != Finalized then (s, Err(NotFinalized)) else EnterNextHeight(cfg, s, now)
  }

  // ---------- Sync ----------

  function BlockAtHeight(blocks: seq<Block>, height: nat): Option<Block> {
    if blocks == [] then None
    else if blocks[0].height == height then Some(blocks[0])
    else BlockAtHeight(blocks[1..], height)
  }

  /** One certificate: already known, applied on top of the tip, or refused. */
  ghost function SyncOne(cfg: NodeConfig, s: RuntimeState, cert: FinalityCertificate,
                         now: nat): (r: (RuntimeState, Result<bool, RuntimeError>))
    requires s.chain.HasTip()
    ensures r.0.chain.HasTip()
  {
    if !CertificateValid(cfg.crypto, cfg.validators, cert) then (s, Err(BadCertificate))
    else if cert.block.height < s.chain.Tip().height + 1 then
      match BlockAtHeight(s.chain.blocks, cert.block.height)
      case None => (s, Err(FinalityViolation))
      case Some(b) => if b.hash != cert.block.hash then (s, Err(FinalityViolation)) else (s, Ok(false))
    else if cert.block.height != s.chain.Tip().height + 1 then (s, Err(HeightGap))
    else if !ScheduledBlockOk(cfg, s.chain, cert.block, now) then (s, Err(ScheduleMismatch))
    else
      match ApplyBlock(cfg.crypto, s.chain, cert.block)
      case Err(e) => (s, Err(LedgerFault(e)))
      case Ok(chain) => (s.(chain := chain, finalized := s.finalized + [cert]), Ok(true))
  }

  ghost function SyncAll(cfg: NodeConfig, s: RuntimeState, certs: seq<FinalityCertificate>, applied: nat,
                         now: nat): (r: (RuntimeState, Result<nat, RuntimeError>))
    requires s.chain.HasTip()
    ensures r.0.chain.HasTip()
    decreases |certs|
  {
    if certs == [] then (s, Ok(applied))
    else
      var (t, r) := SyncOne(cfg, s, certs[0], now);
      match r
      case Err(e) => (t, Err(e))
      case Ok(grew) => SyncAll(cfg, t, certs[1..], if grew then applied + 1 else applied, now)
  }

  ghost function ApplySyncCertificates(cfg: NodeConfig, s: RuntimeState, certs: seq<FinalityCertificate>,
                                       now: nat): (r: (RuntimeState, Result<nat, RuntimeError>))
    requires s.chain.HasTip()
    ensures r.0.chain.HasTip()
  {
    var (t, r) := SyncAll(cfg, s, certs, 0, now);
    if r.Err? || r.value == 0 then (t, r)
    else
      var (u, entered) := EnterNextHeight(cfg, t, now);
      (u, if entered.Err? then Err(entered.error) else r)
  }

  const MAX_SYNC_BYTES: nat := 1_500_000
  const MAX_SYNC_COUNT: nat := 128

  /** Stored certificates from a height on, at most 128 and about 1.5 MB, but at least one. */
  function CertificatesFrom(certs: seq<FinalityCertificate>, size: FinalityCertificate -> nat, fromHeight: nat,
                            seen: nat, bytes: nat, some: bool): seq<FinalityCertificate>
    decreases |certs|
  {
    if certs == [] || seen == MAX_SYNC_COUNT then []
    else if certs[0].block.height < fromHeight then CertificatesFrom(certs[1..], size, fromHeight, seen, bytes, some)
    else if some && bytes + size(certs[0]) > MAX_SYNC_BYTES then []
    else [certs[0]] + CertificatesFrom(certs[1..], size, fromHeight, seen + 1, bytes + size(certs[0]), true)
  }

  // ---------- The node as a whole ----------

  function InitialRuntime(cfg: NodeConfig, chain: ChainState, total: nat, now: nat):
      (r: Result<RuntimeState, RuntimeError>)
    requires chain.HasTip()
    ensures r.Ok? ==> r.value.chain.HasTip()
  {
    match StartRound(InitialState(PowerMap(cfg.validators), total), chain.Tip().height + 1, 0)
    case Err(e) => Err(ConsensusFault(e))
    case Ok(b) => Ok(RuntimeState(chain, b, None, None, now + cfg.timeouts.propose, [], [], [], [], {}))
  }

  datatype Input =
    | Proposal(proposal: SignedProposal)
    | IncomingVote(vote: Vote)
    | Defer(deferredVote: Vote)
    | ReplayVotes
    | Tick
    | RestartTimeout
    | SyncCertificates(certificates: seq<FinalityCertificate>)
    | AdvanceHeight
    | TakeFinalized
    | TakeEvidence

  /** One call into the runtime. */
  ghost function Step(cfg: NodeConfig, s: RuntimeState, input: Input, now: nat): (t: RuntimeState)
    requires s.chain.HasTip()
    ensures t.chain.HasTip()
  {
    match input
    case Proposal(p) => ReceiveProposal(cfg, s, p, now).0
    case IncomingVote(v) => ReceiveVote(cfg, s, v, now).0
    case Defer(v) => DeferVote(s, v)
    case ReplayVotes => ReplayDeferred(cfg, s, [], now).0
    case Tick => TimeoutIfDue(cfg, s, now).0
    case RestartTimeout => RestartPhaseTimeout(cfg, s, now)
    case SyncCertificates(certs) => ApplySyncCertificates(cfg, s, certs, now).0
    case AdvanceHeight => AdvanceAfterFinalization(cfg, s, now).0
    case TakeFinalized => s.(unreported := [])
    case TakeEvidence => s.(bft := s.bft.(evidence := []))
  }
}
