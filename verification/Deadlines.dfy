/** When a round times out (src/consensus_runtime.rs): along every run of a node, a tick does
    nothing until the configured time of the current phase has passed since the phase began,
    and from then on it starts the next round. */
module Deadlines {
  import opened Basics
  import opened Weights
  import opened Messages
  import opened Quorum
  import opened Ledger
  import opened Bft
  import opened Runtime
  import opened Agreement

  // ---------- What a call does to the deadline ----------

  /** Consensus stands where it stood. */
  predicate SamePlace(a: BftState, b: BftState) {
    a.height == b.height && a.round == b.round && a.phase == b.phase
  }

  function PhaseRank(phase: Phase): nat {
    match phase
    case Waiting => 0
    case Propose => 1
    case Prevote => 2
    case Precommit => 3
    case Finalized => 4
  }

  /** Consensus is not ahead of the chain. */
  predicate InStep(s: RuntimeState) {
    s.chain.HasTip() && s.bft.height <= s.chain.Tip().height + 1
  }

  /** A vote leaves the deadline alone or moves the phase on and gives it its time. */
  predicate VoteTimed(cfg: NodeConfig, s: RuntimeState, t: RuntimeState, now: nat) {
    && InStep(t) && t.bft.height == s.bft.height && t.bft.round == s.bft.round
    && PhaseRank(s.bft.phase) <= PhaseRank(t.bft.phase)
    && t.deadline == (if t.bft.phase == s.bft.phase then s.deadline else now + cfg.timeouts.For(t.bft.phase))
  }

  lemma HandlePlace(c: Crypto, b: BftState, m: Vote)
    ensures var (t, r) := Handle(c, b, m);
      && t.height == b.height && t.round == b.round && PhaseRank(b.phase) <= PhaseRank(t.phase)
      && (r.Err? ==> t.phase == b.phase)
  {
  }

  lemma FinalizeTimed(cfg: NodeConfig, s: RuntimeState)
    requires InStep(s)
    ensures var t := FinalizeNow(cfg, s).0; InStep(t) && t.bft == s.bft && t.deadline == s.deadline
  {
  }

  lemma RespondTimed(cfg: NodeConfig, s: RuntimeState, b: BftState, handled: Result<(), BftError>, v: Vote, now: nat)
    requires InStep(s) && b.height == s.bft.height && b.round == s.bft.round
    requires PhaseRank(s.bft.phase) <= PhaseRank(b.phase) && (handled.Err? ==> b.phase == s.bft.phase)
    ensures VoteTimed(cfg, s, Respond(cfg, s, b, handled, v, now).0, now)
  {
    if handled.Ok? && b.phase == Finalized {
      FinalizeTimed(cfg, AfterVote(cfg, s, b, v, now));
    }
  }

  lemma ReceiveVoteTimed(cfg: NodeConfig, s: RuntimeState, v: Vote, now: nat)
    requires InStep(s)
    ensures VoteTimed(cfg, s, ReceiveVote(cfg, s, v, now).0, now)
  {
    HandlePlace(cfg.crypto, s.bft, v);
    var (b, handled) := Handle(cfg.crypto, s.bft, v);
    RespondTimed(cfg, s, b, handled, v, now);
  }

  lemma VoteTimedTransitive(cfg: NodeConfig, s: RuntimeState, t: RuntimeState, u: RuntimeState, now: nat)
    requires VoteTimed(cfg, s, t, now) && VoteTimed(cfg, t, u, now)
    ensures VoteTimed(cfg, s, u, now)
  {
  }

  lemma SweepVoteTimed(cfg: NodeConfig, w: Sweep, v: Vote, now: nat)
    requires w.Sweep? && InStep(w.state)
    ensures VoteTimed(cfg, w.state, SweepVote(cfg, w, v, now).state, now)
  {
    ReceiveVoteTimed(cfg, w.state, v, now);
    var (t, r) := ReceiveVote(cfg, w.state, v, now);
    if r.Ok? && r.value.Some? {
      ReceiveVoteTimed(cfg, t, r.value.value, now);
      VoteTimedTransitive(cfg, w.state, t, ReceiveVote(cfg, t, r.value.value, now).0, now);
    }
  }

  lemma {:induction false} SweepVotesTimed(cfg: NodeConfig, w: Sweep, votes: seq<Vote>, now: nat)
    requires w.Sweep? && InStep(w.state)
    ensures VoteTimed(cfg, w.state, SweepVotes(cfg, w, votes, now).state, now)
    decreases |votes|
  {
    if votes != [] {
      SweepVoteTimed(cfg, w, votes[0], now);
      var next := SweepVote(cfg, w, votes[0], now);
      if next.Sweep? {
        SweepVotesTimed(cfg, next, votes[1..], now);
        VoteTimedTransitive(cfg, w.state, next.state, SweepVotes(cfg, next, votes[1..], now).state, now);
      }
    }
  }

  /** However many phases a replay runs through, only the last one counts. */
  lemma {:induction false} ReplayTimed(cfg: NodeConfig, s: RuntimeState, outbound: seq<Vote>, now: nat)
    requires InStep(s)
    ensures VoteTimed(cfg, s, ReplayDeferred(cfg, s, outbound, now).0, now)
    decreases |s.deferred|
  {
    var start := Sweep(s.(deferred := []), [], outbound, false);
    SweepVotesTimed(cfg, start, s.deferred, now);
    var w := SweepVotes(cfg, start, s.deferred, now);
    if w.Sweep? && w.progressed {
      var u := w.state.(deferred := w.remaining);
      ReplayTimed(cfg, u, w.outbound, now);
      VoteTimedTransitive(cfg, s, u, ReplayDeferred(cfg, u, w.outbound, now).0, now);
    }
  }

  lemma SyncOneTimed(cfg: NodeConfig, s: RuntimeState, cert: FinalityCertificate, now: nat)
    requires s.chain.HasTip()
    ensures var (t, r) := SyncOne(cfg, s, cert, now);
      && t.bft == s.bft && t.deadline == s.deadline && t.chain.HasTip()
      && t.chain.Tip().height == s.chain.Tip().height + (if r.Ok? && r.value then 1 else 0)
  {
  }

  lemma {:induction false} SyncAllTimed(cfg: NodeConfig, s: RuntimeState, certs: seq<FinalityCertificate>,
                                        applied: nat, now: nat)
    requires s.chain.HasTip()
    ensures var (t, r) := SyncAll(cfg, s, certs, applied, now);
      && t.bft == s.bft && t.deadline == s.deadline && t.chain.HasTip()
      && s.chain.Tip().height <= t.chain.Tip().height
      && (r.Ok? ==> t.chain.Tip().height + applied == s.chain.Tip().height + r.value)
    decreases |certs|
  {
    if certs != [] {
      SyncOneTimed(cfg, s, certs[0], now);
      var (t, r) := SyncOne(cfg, s, certs[0], now);
      if r.Ok? {
        SyncAllTimed(cfg, t, certs[1..], if r.value then applied + 1 else applied, now);
      }
    }
  }

  /** The clock of the phase starts anew: consensus has moved, or the node was woken up. */
  predicate Renewed(s: RuntimeState, t: RuntimeState, input: Input) {
    !SamePlace(s.bft, t.bft) || input.RestartTimeout?
  }

  predicate Timed(cfg: NodeConfig, s: RuntimeState, t: RuntimeState, input: Input, now: nat) {
    && InStep(t)
    && t.deadline == (if Renewed(s, t, input) then now + cfg.timeouts.For(t.bft.phase) else s.deadline)
  }

  lemma EnterTimed(cfg: NodeConfig, s: RuntimeState, now: nat)
    requires InStep(s) && (s.bft.phase == Finalized || s.bft.height <= s.chain.Tip().height)
    ensures Timed(cfg, s, EnterNextHeight(cfg, s, now).0, AdvanceHeight, now)
  {
  }

  /** Consensus stands at the beginning of the height after the tip. */
  predicate FreshHeight(s: RuntimeState) {
    && s.chain.HasTip() && s.bft.height == s.chain.Tip().height + 1 && s.bft.round == 0 && s.bft.phase == Propose
    && s.bft.lockedValue == None && s.bft.votes == map[] && s.pending == None && s.validBlock == None
    && s.precommits == []
  }

  /** Every sync that takes over a block leaves the node at the start of the next height, and
      so does advancing after a block has been stored. */
  lemma EntersNextHeight(cfg: NodeConfig, s: RuntimeState, certs: seq<FinalityCertificate>, now: nat)
    requires InStep(s)
    ensures var (t, r) := ApplySyncCertificates(cfg, s, certs, now); r.Ok? && r.value > 0 ==> FreshHeight(t)
    ensures var (t, r) := AdvanceAfterFinalization(cfg, s, now);
      s.bft.phase == Finalized && s.bft.height <= s.chain.Tip().height ==> r.Ok? && FreshHeight(t)
  {
    SyncAllTimed(cfg, s, certs, 0, now);
  }

  lemma SyncTimed(cfg: NodeConfig, s: RuntimeState, certs: seq<FinalityCertificate>, now: nat)
    requires InStep(s)
    ensures Timed(cfg, s, ApplySyncCertificates(cfg, s, certs, now).0, SyncCertificates(certs), now)
  {
    SyncAllTimed(cfg, s, certs, 0, now);
    var (t, r) := SyncAll(cfg, s, certs, 0, now);
    if r.Ok? && r.value > 0 {
      EnterTimed(cfg, t, now);
    }
  }

  /** Whatever the call: the deadline is the time of the call plus the time of the new phase
      if consensus has moved, and untouched otherwise. */
  lemma StepTimed(cfg: NodeConfig, s: RuntimeState, input: Input, now: nat)
    requires InStep(s)
    ensures Timed(cfg, s, Step(cfg, s, input, now), input, now)
  {
    match input
    case Proposal(p) =>
    case IncomingVote(v) => ReceiveVoteTimed(cfg, s, v, now);
    case Defer(v) =>
    case ReplayVotes => ReplayTimed(cfg, s, [], now);
    case Tick =>
    case RestartTimeout =>
    case SyncCertificates(certs) => SyncTimed(cfg, s, certs, now);
    case AdvanceHeight => if s.bft.phase == Finalized { EnterTimed(cfg, s, now); }
    case TakeFinalized =>
    case TakeEvidence =>
  }

  // ---------- Along the run of a node ----------

  datatype Call = Call(input: Input, now: nat)

  /** The states of one node from its start, and the calls between them. */
  ghost predicate IsTrace(cfg: NodeConfig, start: nat, states: seq<RuntimeState>, calls: seq<Call>) {
    && |states| == |calls| + 1
    && (exists chain: ChainState, total: nat ::
          chain.HasTip() && InitialRuntime(cfg, chain, total, start) == Ok(states[0]))
    && (forall i :: 0 <= i < |calls| ==> MovesTo(cfg, states[i], calls[i].input, calls[i].now, states[i + 1]))
  }

  /** When the phase the node is in after i calls began. */
  function PhaseBegan(start: nat, states: seq<RuntimeState>, calls: seq<Call>, i: nat): nat
    requires i <= |calls| < |states|
  {
    if i == 0 then start
    else if Renewed(states[i - 1], states[i], calls[i - 1].input) then calls[i - 1].now
    else PhaseBegan(start, states, calls, i - 1)
  }

  lemma MovedTimed(cfg: NodeConfig, s: RuntimeState, call: Call, t: RuntimeState)
    requires InStep(s) && MovesTo(cfg, s, call.input, call.now, t)
    ensures Timed(cfg, s, t, call.input, call.now)
  {
    MovesToStep(cfg, s, call.input, call.now, t);
    StepTimed(cfg, s, call.input, call.now);
  }

  lemma StartTimed(cfg: NodeConfig, chain: ChainState, total: nat, start: nat, s: RuntimeState)
    requires chain.HasTip() && InitialRuntime(cfg, chain, total, start) == Ok(s)
    ensures InStep(s) && s.bft.phase == Propose && s.deadline == start + cfg.timeouts.For(s.bft.phase)
    ensures s.bft.height == chain.Tip().height + 1 && s.bft.round == 0 && s.chain == chain && s.pending == None
  {
  }

  /** The deadline is the configured time of the phase after the phase began. */
  lemma {:induction false} DeadlineMeaning(cfg: NodeConfig, start: nat, states: seq<RuntimeState>, calls: seq<Call>,
                                           i: nat)
    requires IsTrace(cfg, start, states, calls) && i <= |calls|
    ensures InStep(states[i])
    ensures states[i].deadline == PhaseBegan(start, states, calls, i) + cfg.timeouts.For(states[i].bft.phase)
  {
    if i == 0 {
      var chain: ChainState, total: nat :|
        chain.HasTip() && InitialRuntime(cfg, chain, total, start) == Ok(states[0]);
      StartTimed(cfg, chain, total, start, states[0]);
    } else {
      DeadlineMeaning(cfg, start, states, calls, i - 1);
      MovedTimed(cfg, states[i - 1], calls[i - 1], states[i]);
    }
  }

  /** The phase has used up its time; a finalized round has no limit. */
  predicate TimeIsUp(cfg: NodeConfig, phase: Phase, began: nat, now: nat) {
    || (phase == Propose && now >= began + cfg.timeouts.propose)
    || (phase == Phase.Prevote && now >= began + cfg.timeouts.prevote)
    || (phase == Phase.Precommit && now >= began + cfg.timeouts.precommit)
  }

  /** The next round of the same height: no candidate and no votes, everything else kept. */
  predicate NextRoundOf(s: RuntimeState, t: RuntimeState) {
    && t.bft == s.bft.(round := t.bft.round, phase := Propose, proposal := None, votes := map[], finalized := None)
    && t.bft.round == s.bft.round + 1
    && t == s.(bft := t.bft, pending := None, precommits := [], deadline := t.deadline)
  }

  lemma {:induction false} NeverWaiting(cfg: NodeConfig, start: nat, states: seq<RuntimeState>, calls: seq<Call>,
                                        i: nat)
    requires IsTrace(cfg, start, states, calls) && i <= |calls|
    ensures states[i].bft.phase != Waiting
  {
    if i == 0 {
      var chain: ChainState, total: nat :|
        chain.HasTip() && InitialRuntime(cfg, chain, total, start) == Ok(states[0]);
      StartTimed(cfg, chain, total, start, states[0]);
    } else {
      NeverWaiting(cfg, start, states, calls, i - 1);
      DeadlineMeaning(cfg, start, states, calls, i - 1);
      MovedAwake(cfg, states[i - 1], calls[i - 1], states[i]);
    }
  }

  lemma MovedAwake(cfg: NodeConfig, s: RuntimeState, call: Call, t: RuntimeState)
    requires InStep(s) && s.bft.phase != Waiting && MovesTo(cfg, s, call.input, call.now, t)
    ensures t.bft.phase != Waiting
  {
    MovesToStep(cfg, s, call.input, call.now, t);
    match call.input
    case IncomingVote(v) => ReceiveVoteTimed(cfg, s, v, call.now);
    case ReplayVotes => ReplayTimed(cfg, s, [], call.now);
    case SyncCertificates(certs) => SyncAllTimed(cfg, s, certs, 0, call.now);
    case _ =>
  }

  /** Timeouts on runs: a tick answers yes exactly when the time of the phase is up and there
      is a next round, and then starts precisely that round; every other tick changes
      nothing. The phase time is the configured one of propose, prevote or precommit, counted
      from the call that brought the node into the phase. */
  lemma TickOnRuns(cfg: NodeConfig, start: nat, states: seq<RuntimeState>, calls: seq<Call>, i: nat, now: nat)
    requires IsTrace(cfg, start, states, calls) && i <= |calls|
    ensures var s, began := states[i], PhaseBegan(start, states, calls, i);
      var (t, r) := TimeoutIfDue(cfg, s, now);
      if !TimeIsUp(cfg, s.bft.phase, began, now) then t == s && r == Ok(false)
      else if s.bft.round == U32_MAX then t == s && r == Err(ConsensusFault(RoundOverflow))
      else r == Ok(true) && NextRoundOf(s, t) && t.deadline == now + cfg.timeouts.propose
  {
    DeadlineMeaning(cfg, start, states, calls, i);
    NeverWaiting(cfg, start, states, calls, i);
  }

  /** Every honest node of every network run has such a trace behind it. */
  lemma {:induction false} NodeTrace(n: NetConfig, run: seq<Net>, i: nat, id: Id)
    returns (start: nat, states: seq<RuntimeState>, calls: seq<Call>)
    requires IsRun(n, run) && i < |run| && id in n.nodes
    ensures id in run[i] && IsTrace(n.nodes[id], start, states, calls) && states[|calls|] == run[i][id]
  {
    if i == 0 {
      assert StartState(n, id, run[0][id]);
      start :| InitialRuntime(n.nodes[id], GenesisOf(n), Total(PowerMap(n.validators)), start) == Ok(run[0][id]);
      states, calls := [run[0][id]], [];
    } else {
      start, states, calls := NodeTrace(n, run, i - 1, id);
      assert NetStep(n, run[i - 1], run[i]);
      var mover, input, now :| NodeMoves(n, run[i - 1], run[i], mover, input, now);
      if mover == id {
        states, calls := Extended(n.nodes[id], start, states, calls, Call(input, now), run[i][id]);
      }
    }
  }

  lemma Extended(cfg: NodeConfig, start: nat, states: seq<RuntimeState>, calls: seq<Call>, call: Call, t: RuntimeState)
    returns (more: seq<RuntimeState>, later: seq<Call>)
    requires IsTrace(cfg, start, states, calls) && MovesTo(cfg, states[|calls|], call.input, call.now, t)
    ensures IsTrace(cfg, start, more, later) && more[|later|] == t
  {
    more, later := states + [t], calls + [call];
    assert more[0] == states[0];
    forall i | 0 <= i < |later| ensures MovesTo(cfg, more[i], later[i].input, later[i].now, more[i + 1]) {
      if i < |calls| {
        assert MovesTo(cfg, states[i], calls[i].input, calls[i].now, states[i + 1]);
      }
    }
  }
}
