/** Locks are permanent within a height: what a locked node signs, accepts and proposes. */
module Locks {
  import opened Basics
  import opened Messages
  import opened Bft
  import opened Runtime
  import opened Safety
  import opened NodeSteps
  import opened Agreement

  /** From s to t: heights never fall, a lock stays while the height stays, and everything
      newly signed is at or above the old height and respects the old lock. */
  ghost predicate KeepsLock(s: RuntimeState, t: RuntimeState) {
    && s.bft.height <= t.bft.height
    && (s.bft.height == t.bft.height && s.bft.lockedValue.Some? ==> t.bft.lockedValue == s.bft.lockedValue)
    && (forall v :: v in t.signed && v !in s.signed ==> RespectsLock(s, v))
  }

  ghost predicate RespectsLock(s: RuntimeState, v: Vote) {
    && s.bft.height <= v.height
    && (v.height == s.bft.height && s.bft.lockedValue.Some? ==> s.bft.lockedValue == Some(v.hash))
  }

  lemma KeepsLockTransitive(s: RuntimeState, m: RuntimeState, t: RuntimeState)
    requires KeepsLock(s, m) && KeepsLock(m, t)
    ensures KeepsLock(s, t)
  {
    forall v | v in t.signed && v !in s.signed ensures RespectsLock(s, v) {
      if v !in m.signed {
        assert RespectsLock(m, v);
      }
    }
  }

  /** A locked node still has the block it is locked on and would propose it again. */
  ghost predicate Ready(s: RuntimeState) {
    s.bft.lockedValue.Some? ==> s.validBlock.Some? && s.bft.lockedValue == Some(s.validBlock.value.hash)
  }

  ghost predicate Keeps(s: RuntimeState, t: RuntimeState) {
    KeepsLock(s, t) && (Ready(s) ==> Ready(t))
  }

  lemma KeepsTransitive(s: RuntimeState, m: RuntimeState, t: RuntimeState)
    requires Keeps(s, m) && Keeps(m, t)
    ensures Keeps(s, t)
  {
    KeepsLockTransitive(s, m, t);
  }

  // ---------- Proposals ----------

  lemma ProposalKeepsLock(cfg: NodeConfig, J: Journals, s: RuntimeState, p: SignedProposal, now: nat)
    requires NodeInv(cfg, J, s)
    ensures Keeps(s, ReceiveProposal(cfg, s, p, now).0)
    ensures ReceiveProposal(cfg, s, p, now).1.Ok? && s.bft.lockedValue.Some? ==> s.bft.lockedValue == Some(p.block.hash)
  {
    UnlockUnreachable(cfg.crypto, s.bft, p);
  }

  /** The proposal of a locked node carries the locked block and the round it was locked in. */
  lemma ProposesLock(cfg: NodeConfig, J: Journals, s: RuntimeState, block: Block, now: nat)
    requires NodeInv(cfg, J, s) && Ready(s) && s.bft.lockedValue.Some?
    ensures var r := MakeProposal(cfg, s, block, now);
      r.Ok? ==> Some(r.value.block.hash) == s.bft.lockedValue && r.value.validRound == s.bft.lockedRound
  {
  }

  // ---------- Votes ----------

  lemma RespondKeepsLock(cfg: NodeConfig, J: Journals, s: RuntimeState, m: Vote, b: BftState,
                         handled: Result<(), BftError>, now: nat)
    requires NodeInv(cfg, J, s) && Judged(cfg, J, s, m, b, handled.Ok?)
    ensures Keeps(s, Respond(cfg, s, b, handled, m, now).0)
  {
    if handled.Ok? {
      var u := AfterVote(cfg, s, b, m, now);
      AcceptedVote(cfg, J, s, m, b, now);
      AfterVoteKeeps(cfg, s, b, m, now);
      if b.phase == Phase.Precommit {
        PrecommitKeeps(cfg, u, now);
        KeepsTransitive(s, u, PrecommitNow(cfg, u, now).0);
      } else if b.phase == Finalized {
        FinalizeKeeps(cfg, u);
        KeepsTransitive(s, u, FinalizeNow(cfg, u).0);
      }
    }
  }

  lemma AfterVoteKeeps(cfg: NodeConfig, s: RuntimeState, b: BftState, m: Vote, now: nat)
    requires SamePosition(s.bft, b) && Counted(cfg.crypto, s.bft, m, b) && PhaseMoves(s.bft.phase, b.phase)
    requires LockIsValid(s.bft) && PhaseMeaning(s.bft) && PhaseMeaning(b)
    requires Candidate(cfg, s)
    ensures Keeps(s, AfterVote(cfg, s, b, m, now))
  {
  }

  lemma PrecommitKeeps(cfg: NodeConfig, s: RuntimeState, now: nat)
    requires CandidateIs(cfg, s) && s.bft.lockedValue == s.bft.proposal
    ensures Keeps(s, PrecommitNow(cfg, s, now).0)
  {
  }

  lemma FinalizeKeeps(cfg: NodeConfig, s: RuntimeState)
    requires s.chain.HasTip()
    ensures Keeps(s, FinalizeNow(cfg, s).0)
  {
  }

  lemma VoteKeepsLock(cfg: NodeConfig, J: Journals, s: RuntimeState, m: Vote, now: nat)
    requires NodeInv(cfg, J, s) && Credible(cfg.crypto, J, m)
    ensures Keeps(s, ReceiveVote(cfg, s, m, now).0)
  {
    HandleJudges(cfg, J, s, m);
    var (b, handled) := Handle(cfg.crypto, s.bft, m);
    RespondKeepsLock(cfg, J, s, m, b, handled, now);
  }

  lemma SweepVoteKeepsLock(cfg: NodeConfig, J: Journals, w: Sweep, v: Vote, rest: seq<Vote>, now: nat)
    requires w.Sweep? && SweepInv(cfg, J, w, [v] + rest)
    ensures Keeps(w.state, SweepVote(cfg, w, v, now).state)
  {
    var s := w.state;
    assert v in [v] + rest;
    VoteKeepsLock(cfg, At(cfg, J, s), s, v, now);
    PlayVote(cfg, J, s, v, now);
    var (t, r) := ReceiveVote(cfg, s, v, now);
    if r.Ok? && r.value.Some? {
      VoteKeepsLock(cfg, At(cfg, J, t), t, r.value.value, now);
      KeepsTransitive(s, t, ReceiveVote(cfg, t, r.value.value, now).0);
    }
  }

  lemma {:induction false} SweepVotesKeepsLock(cfg: NodeConfig, J: Journals, w: Sweep, votes: seq<Vote>, now: nat)
    requires w.Sweep? && SweepInv(cfg, J, w, votes)
    ensures Keeps(w.state, SweepVotes(cfg, w, votes, now).state)
    decreases |votes|
  {
    if votes != [] {
      assert [votes[0]] + votes[1..] == votes;
      SweepVoteKeepsLock(cfg, J, w, votes[0], votes[1..], now);
      SweepVoteKeeps(cfg, J, w, votes[0], votes[1..], now);
      var next := SweepVote(cfg, w, votes[0], now);
      if next.Sweep? {
        SweepVotesKeepsLock(cfg, J, next, votes[1..], now);
        KeepsTransitive(w.state, next.state, SweepVotes(cfg, next, votes[1..], now).state);
      }
    }
  }

  lemma {:induction false} ReplayKeepsLock(cfg: NodeConfig, J: Journals, s: RuntimeState, outbound: seq<Vote>, now: nat)
    requires cfg.me in J && NodeInv(cfg, At(cfg, J, s), s)
    ensures Keeps(s, ReplayDeferred(cfg, s, outbound, now).0)
    decreases |s.deferred|
  {
    var start := Sweep(s.(deferred := []), [], outbound, false);
    WithDeferred(cfg, At(cfg, J, s), s, []);
    assert At(cfg, J, start.state) == At(cfg, J, s);
    SweepVotesKeepsLock(cfg, J, start, s.deferred, now);
    SweepVotesKeeps(cfg, J, start, s.deferred, now);
    var w := SweepVotes(cfg, start, s.deferred, now);
    KeepsTransitive(s, start.state, w.state);
    if w.Sweep? {
      var u := w.state.(deferred := w.remaining);
      Redeferred(cfg, J, s, w.state, w.remaining);
      if w.progressed {
        ReplayKeepsLock(cfg, J, u, w.outbound, now);
        KeepsTransitive(s, u, ReplayDeferred(cfg, u, w.outbound, now).0);
      }
    }
  }

  lemma Redeferred(cfg: NodeConfig, J: Journals, s: RuntimeState, t: RuntimeState, remaining: seq<Vote>)
    requires cfg.me in J && NodeInv(cfg, At(cfg, J, t), t) && Keeps(s, t)
      && AllCredible(cfg.crypto, At(cfg, J, t), remaining)
    ensures var u := t.(deferred := remaining); NodeInv(cfg, At(cfg, J, u), u) && Keeps(s, u)
  {
    var u := t.(deferred := remaining);
    WithDeferred(cfg, At(cfg, J, t), t, remaining);
    assert At(cfg, J, u) == At(cfg, J, t) && Keeps(t, u);
    KeepsTransitive(s, t, u);
  }

  // ---------- Rounds and heights ----------

  lemma EnterKeepsLock(cfg: NodeConfig, s: RuntimeState, now: nat)
    requires s.chain.HasTip() && s.bft.height <= s.chain.Tip().height + 1
    ensures var t := EnterNextHeight(cfg, s, now).0;
      && KeepsLock(s, t)
      && (s.bft.height <= s.chain.Tip().height ==> Ready(t))
  {
  }

  /** The one call that can lose the locked block: advancing although the finalized block
      could not be executed. It happens exactly when the tip has not reached the current
      height and the round is still 0, and it never loses the lock itself. */
  lemma AdvanceLosesBlockIff(cfg: NodeConfig, J: Journals, s: RuntimeState, now: nat)
    requires NodeInv(cfg, J, s) && Ready(s) && s.bft.phase == Finalized
    ensures var t := AdvanceAfterFinalization(cfg, s, now).0;
      && KeepsLock(s, t)
      && (!Ready(t) <==> s.chain.Tip().height < s.bft.height && s.bft.round == 0)
  {
    EnterKeepsLock(cfg, s, now);
  }

  lemma {:induction false} SyncAllSameBft(cfg: NodeConfig, s: RuntimeState, certs: seq<FinalityCertificate>,
                                          applied: nat, now: nat)
    requires s.chain.HasTip()
    ensures var t := SyncAll(cfg, s, certs, applied, now).0;
      t.bft == s.bft && t.validBlock == s.validBlock && t.signed == s.signed
    decreases |certs|
  {
    if certs != [] {
      var (t, r) := SyncOne(cfg, s, certs[0], now);
      assert t.bft == s.bft && t.validBlock == s.validBlock && t.signed == s.signed;
      if r.Ok? {
        SyncAllSameBft(cfg, t, certs[1..], if r.value then applied + 1 else applied, now);
      }
    }
  }

  lemma SyncKeepsLock(cfg: NodeConfig, J: Journals, s: RuntimeState, certs: seq<FinalityCertificate>, now: nat)
    requires NodeInv(cfg, J, s) && CertificatesCredible(cfg.crypto, J, certs)
    ensures Keeps(s, ApplySyncCertificates(cfg, s, certs, now).0)
  {
    SyncAllSameBft(cfg, s, certs, 0, now);
    SyncAllKeeps(cfg, J, s, certs, 0, now);
    var (t, r) := SyncAll(cfg, s, certs, 0, now);
    assert Keeps(s, t);
    if r.Ok? && r.value > 0 {
      EnterKeepsLock(cfg, t, now);
      KeepsLockTransitive(s, t, EnterNextHeight(cfg, t, now).0);
    }
  }

  /** Advancing as the driver does, after the finalized block has been stored. */
  predicate Driven(s: RuntimeState, input: Input)
    requires s.chain.HasTip()
  {
    input.AdvanceHeight? ==> s.chain.Tip().height >= s.bft.height
  }

  /** Every input keeps the lock; every input of the driver also keeps the locked block. */
  lemma StepKeepsLock(cfg: NodeConfig, J: Journals, s: RuntimeState, input: Input, now: nat)
    requires NodeInv(cfg, J, s) && Admissible(cfg.crypto, J, input)
    ensures KeepsLock(s, Step(cfg, s, input, now))
    ensures Driven(s, input) ==> Keeps(s, Step(cfg, s, input, now))
  {
    assert At(cfg, J, s) == J;
    match input
    case Proposal(p) => ProposalKeepsLock(cfg, J, s, p, now);
    case IncomingVote(v) => VoteKeepsLock(cfg, J, s, v, now);
    case Defer(v) =>
    case ReplayVotes => ReplayKeepsLock(cfg, J, s, [], now);
    case Tick => TickKeepsLock(cfg, s, now);
    case RestartTimeout =>
    case SyncCertificates(certs) => SyncKeepsLock(cfg, J, s, certs, now);
    case AdvanceHeight => EnterKeepsLock(cfg, s, now);
    case TakeFinalized =>
    case TakeEvidence =>
  }

  lemma TickKeepsLock(cfg: NodeConfig, s: RuntimeState, now: nat)
    ensures Keeps(s, TimeoutIfDue(cfg, s, now).0)
  {
  }

  // ---------- Along runs ----------

  /** Locked and valid value are one and the same in every reachable state. */
  lemma LockedIsValidOnRuns(n: NetConfig, run: seq<Net>, i: nat, id: Id)
    requires Assumptions(n) && IsRun(n, run) && i < |run| && id in run[i]
    ensures run[i][id].bft.lockedValue == run[i][id].bft.validValue
    ensures run[i][id].bft.lockedRound == run[i][id].bft.validRound
  {
    RunInv(n, run, i);
    assert NodeInv(n.nodes[id], JournalsOf(run[i]), run[i][id]);
  }

  lemma MovedKeepsLock(cfg: NodeConfig, J: Journals, s: RuntimeState, input: Input, now: nat, t: RuntimeState)
    requires NodeInv(cfg, J, s) && Admissible(cfg.crypto, J, input) && MovesTo(cfg, s, input, now, t)
    ensures KeepsLock(s, t)
  {
    MovesToStep(cfg, s, input, now, t);
    StepKeepsLock(cfg, J, s, input, now);
  }

  lemma StepOnNet(n: NetConfig, a: Net, b: Net, id: Id)
    requires Assumptions(n) && NetInv(n, a) && NetStep(n, a, b) && id in a
    ensures id in b && KeepsLock(a[id], b[id])
  {
    var mover, input, now :| NodeMoves(n, a, b, mover, input, now);
    if mover == id {
      DeliverableIsAdmissible(n, a, input);
      assert NodeInv(n.nodes[id], JournalsOf(a), a[id]);
      MovedKeepsLock(n.nodes[id], JournalsOf(a), a[id], input, now, b[id]);
    }
  }

  /** Lock permanence: from the moment an honest node is locked, as long as it stays at that
      height it stays locked on the same hash, and every vote it signs at that height is for
      that hash. */
  lemma {:induction false} LockPermanent(n: NetConfig, run: seq<Net>, i: nat, j: nat, id: Id)
    requires Assumptions(n) && IsRun(n, run) && i <= j < |run| && id in run[i]
    ensures id in run[j] && KeepsLock(run[i][id], run[j][id])
    decreases j - i
  {
    if i < j {
      LockPermanent(n, run, i, j - 1, id);
      LockStep(n, run, j, id);
      KeepsLockTransitive(run[i][id], run[j - 1][id], run[j][id]);
    }
  }

  lemma LockStep(n: NetConfig, run: seq<Net>, j: nat, id: Id)
    requires Assumptions(n) && IsRun(n, run) && 0 < j < |run| && id in run[j - 1]
    ensures id in run[j] && KeepsLock(run[j - 1][id], run[j][id])
  {
    RunStep(n, run, j);
    StepOnNet(n, run[j - 1], run[j], id);
  }

  // ---------- Along runs of the driver ----------

  ghost predicate DrivenMove(n: NetConfig, a: Net, b: Net, id: Id, input: Input, now: nat) {
    && NodeMoves(n, a, b, id, input, now)
    && a[id].chain.HasTip() && Driven(a[id], input)
  }

  ghost predicate DrivenStep(n: NetConfig, a: Net, b: Net) {
    exists id, input, now :: DrivenMove(n, a, b, id, input, now)
  }

  /** A run in which nodes advance only after the finalized block has been stored. */
  ghost predicate IsDrivenRun(n: NetConfig, run: seq<Net>) {
    && run != [] && InitNet(n, run[0])
    && (forall i :: 0 < i < |run| ==> DrivenStep(n, run[i - 1], run[i]))
  }

  lemma DrivenIsRun(n: NetConfig, run: seq<Net>)
    requires IsDrivenRun(n, run)
    ensures IsRun(n, run)
  {
    forall i | 0 < i < |run| ensures NetStep(n, run[i - 1], run[i]) {
      assert DrivenStep(n, run[i - 1], run[i]);
      var id, input, now :| DrivenMove(n, run[i - 1], run[i], id, input, now);
      assert NodeMoves(n, run[i - 1], run[i], id, input, now);
    }
  }

  lemma MovedKeepsReady(cfg: NodeConfig, J: Journals, s: RuntimeState, input: Input, now: nat, t: RuntimeState)
    requires NodeInv(cfg, J, s) && Admissible(cfg.crypto, J, input) && MovesTo(cfg, s, input, now, t)
    requires Driven(s, input) && Ready(s)
    ensures Ready(t)
  {
    MovesToStep(cfg, s, input, now, t);
    StepKeepsLock(cfg, J, s, input, now);
  }

  lemma DrivenStepReady(n: NetConfig, a: Net, b: Net, id: Id)
    requires Assumptions(n) && NetInv(n, a) && DrivenStep(n, a, b) && id in a && Ready(a[id])
    ensures id in b && Ready(b[id])
  {
    var mover, input, now :| DrivenMove(n, a, b, mover, input, now);
    if mover == id {
      DeliverableIsAdmissible(n, a, input);
      assert NodeInv(n.nodes[id], JournalsOf(a), a[id]);
      MovedKeepsReady(n.nodes[id], JournalsOf(a), a[id], input, now, b[id]);
    }
  }

  /** Along every run of the driver a locked node still has the block it is locked on. */
  lemma {:induction false} AlwaysReady(n: NetConfig, run: seq<Net>, i: nat, id: Id)
    requires Assumptions(n) && IsDrivenRun(n, run) && i < |run| && id in run[i]
    ensures Ready(run[i][id])
  {
    if i == 0 {
      StartReady(n, id, run[0][id]);
    } else {
      DrivenBefore(n, run, i);
      AlwaysReady(n, run, i - 1, id);
      DrivenStepReady(n, run[i - 1], run[i], id);
    }
  }

  lemma StartReady(n: NetConfig, id: Id, s: RuntimeState)
    requires id in n.nodes && StartState(n, id, s)
    ensures Ready(s)
  {
  }

  lemma DrivenBefore(n: NetConfig, run: seq<Net>, i: nat)
    requires Assumptions(n) && IsDrivenRun(n, run) && 0 < i < |run|
    ensures NetInv(n, run[i - 1]) && DrivenStep(n, run[i - 1], run[i]) && run[i].Keys == run[i - 1].Keys
  {
    DrivenIsRun(n, run);
    RunStep(n, run, i);
    RunInv(n, run, i);
  }

  /** So its own next proposal is always the locked block, with the round it was locked in. */
  lemma AlwaysProposesLock(n: NetConfig, run: seq<Net>, i: nat, id: Id, block: Block, now: nat)
    requires Assumptions(n) && IsDrivenRun(n, run) && i < |run| && id in run[i]
    requires run[i][id].bft.lockedValue.Some?
    ensures id in n.nodes
    ensures var s := run[i][id];
      var r := MakeProposal(n.nodes[id], s, block, now);
      r.Ok? ==> Some(r.value.block.hash) == s.bft.lockedValue && r.value.validRound == s.bft.lockedRound
  {
    DrivenIsRun(n, run);
    RunInv(n, run, i);
    AlwaysReady(n, run, i, id);
    assert NodeInv(n.nodes[id], JournalsOf(run[i]), run[i][id]);
    ProposesLock(n.nodes[id], JournalsOf(run[i]), run[i][id], block, now);
  }
}
