/** How finalized blocks leave the runtime (src/consensus_runtime.rs): every certificate that
    the node's own votes completed is handed out once, in order of height; certificates that
    came by sync are not. */
module Finality {
  import opened Basics
  import opened Messages
  import opened Quorum
  import opened Ledger
  import opened Bft
  import opened Runtime
  import opened Safety
  import opened Agreement
  import opened Deadlines

  /** Certificates of ever higher blocks, above one height and up to another. */
  ghost predicate Climb(low: nat, certs: seq<FinalityCertificate>, high: nat) {
    && low <= high
    && (forall i :: 0 <= i < |certs| ==> low < certs[i].block.height <= high)
    && (forall i, j :: 0 <= i < j < |certs| ==> certs[i].block.height < certs[j].block.height)
  }

  lemma ClimbOn(low: nat, a: seq<FinalityCertificate>, middle: nat, b: seq<FinalityCertificate>, high: nat)
    requires Climb(low, a, middle) && Climb(middle, b, high)
    ensures Climb(low, a + b, high)
  {
  }

  function TipHeight(s: RuntimeState): nat
    requires s.chain.HasTip()
  {
    s.chain.Tip().height
  }

  /** The stored certificates have grown by these. */
  ghost predicate Stored(s: RuntimeState, t: RuntimeState, certs: seq<FinalityCertificate>) {
    && s.chain.HasTip() && t.chain.HasTip()
    && t.finalized == s.finalized + certs
    && Climb(TipHeight(s), certs, TipHeight(t))
  }

  ghost predicate Announced(s: RuntimeState, t: RuntimeState, certs: seq<FinalityCertificate>) {
    Stored(s, t, certs) && t.unreported == s.unreported + certs
  }

  lemma StoredOn(s: RuntimeState, a: seq<FinalityCertificate>, m: RuntimeState, b: seq<FinalityCertificate>,
                 t: RuntimeState)
    requires Stored(s, m, a) && Stored(m, t, b)
    ensures Stored(s, t, a + b)
  {
    ClimbOn(TipHeight(s), a, TipHeight(m), b, TipHeight(t));
  }

  lemma AnnouncedOn(s: RuntimeState, a: seq<FinalityCertificate>, m: RuntimeState, b: seq<FinalityCertificate>,
                    t: RuntimeState)
    requires Announced(s, m, a) && Announced(m, t, b)
    ensures Announced(s, t, a + b)
  {
    StoredOn(s, a, m, b, t);
  }

  // ---------- The finalizing vote ----------

  /** The candidate of s has been finalized in t: executed and stored with a certificate that
      verifies, or refused by the ledger with nothing stored. */
  ghost predicate Concluded(cfg: NodeConfig, s: RuntimeState, t: RuntimeState, r: Result<Option<Vote>, RuntimeError>)
    requires s.chain.HasTip() && s.pending.Some?
  {
    var block := s.pending.value;
    && t.pending == None && t.bft.finalized == Some(block.hash)
    && match ApplyBlock(cfg.crypto, s.chain, block)
       case Err(e) => r == Err(LedgerFault(e)) && t.chain == s.chain && t.finalized == s.finalized
       case Ok(chain) =>
         && r == Ok(None) && t.chain == chain && |t.finalized| == |s.finalized| + 1
         && var cert := t.finalized[|s.finalized|];
            && t.finalized == s.finalized + [cert] && cert.block == block && cert.round == s.bft.round
            && CertificateValid(cfg.crypto, cfg.validators, cert)
  }

  lemma FinalizeConcludes(cfg: NodeConfig, s: RuntimeState)
    requires LocalInv(cfg, s) && CandidateIs(cfg, s) && s.bft.phase == Finalized
    ensures var (t, r) := FinalizeNow(cfg, s); Concluded(cfg, s, t, r)
  {
    OwnCertificateValid(cfg, s);
  }

  /** The vote that completes the precommits puts the candidate block on the chain, unless the
      ledger refuses it. */
  lemma QuorumFinalizes(cfg: NodeConfig, J: Journals, s: RuntimeState, v: Vote, now: nat)
    requires NodeInv(cfg, J, s) && Credible(cfg.crypto, J, v) && s.bft.phase == Phase.Precommit
    requires Handle(cfg.crypto, s.bft, v).1.Ok? && Handle(cfg.crypto, s.bft, v).0.phase == Finalized
    ensures s.pending.Some?
    ensures var (t, r) := ReceiveVote(cfg, s, v, now); Concluded(cfg, s, t, r)
  {
    HandleJudges(cfg, J, s, v);
    var b := Handle(cfg.crypto, s.bft, v).0;
    AcceptedVote(cfg, J, s, v, b, now);
    CandidateStays(cfg, J, s, v, b, now);
    RespondConcludes(cfg, s, v, b, now);
  }

  lemma RespondConcludes(cfg: NodeConfig, s: RuntimeState, v: Vote, b: BftState, now: nat)
    requires s.chain.HasTip() && s.pending.Some? && b.phase == Finalized && SamePosition(s.bft, b)
    requires var u := AfterVote(cfg, s, b, v, now); LocalInv(cfg, u) && CandidateIs(cfg, u)
    ensures var (t, r) := Respond(cfg, s, b, Ok(()), v, now); Concluded(cfg, s, t, r)
  {
    var u := AfterVote(cfg, s, b, v, now);
    assert u.bft == b && u.chain == s.chain && u.pending == s.pending && u.finalized == s.finalized;
    FinalizeConcludes(cfg, u);
  }

  lemma CandidateStays(cfg: NodeConfig, J: Journals, s: RuntimeState, v: Vote, b: BftState, now: nat)
    requires NodeInv(cfg, J, s) && s.bft.phase == Phase.Precommit && SamePosition(s.bft, b)
    ensures s.pending.Some? && CandidateIs(cfg, AfterVote(cfg, s, b, v, now))
  {
  }

  // ---------- Votes ----------

  lemma FinalizeAnnounces(cfg: NodeConfig, s: RuntimeState) returns (certs: seq<FinalityCertificate>)
    requires s.chain.HasTip()
    ensures Announced(s, FinalizeNow(cfg, s).0, certs)
  {
    var t := FinalizeNow(cfg, s).0;
    certs := t.finalized[|s.finalized|..];
  }

  lemma VoteAnnounces(cfg: NodeConfig, s: RuntimeState, v: Vote, now: nat) returns (certs: seq<FinalityCertificate>)
    requires s.chain.HasTip()
    ensures Announced(s, ReceiveVote(cfg, s, v, now).0, certs)
  {
    var (b, handled) := Handle(cfg.crypto, s.bft, v);
    certs := RespondAnnounces(cfg, s, b, handled, v, now);
  }

  lemma RespondAnnounces(cfg: NodeConfig, s: RuntimeState, b: BftState, handled: Result<(), BftError>, v: Vote,
                         now: nat)
    returns (certs: seq<FinalityCertificate>)
    requires s.chain.HasTip()
    ensures Announced(s, Respond(cfg, s, b, handled, v, now).0, certs)
  {
    certs := [];
    if handled.Ok? && b.phase == Finalized {
      certs := FinalizeAnnounces(cfg, AfterVote(cfg, s, b, v, now));
    }
  }

  lemma SweepVoteAnnounces(cfg: NodeConfig, w: Sweep, v: Vote, now: nat) returns (certs: seq<FinalityCertificate>)
    requires w.Sweep? && w.state.chain.HasTip()
    ensures Announced(w.state, SweepVote(cfg, w, v, now).state, certs)
  {
    certs := VoteAnnounces(cfg, w.state, v, now);
    var (t, r) := ReceiveVote(cfg, w.state, v, now);
    if r.Ok? && r.value.Some? {
      var more := VoteAnnounces(cfg, t, r.value.value, now);
      AnnouncedOn(w.state, certs, t, more, ReceiveVote(cfg, t, r.value.value, now).0);
      certs := certs + more;
    }
  }

  lemma {:induction false} SweepVotesAnnounce(cfg: NodeConfig, w: Sweep, votes: seq<Vote>, now: nat)
    returns (certs: seq<FinalityCertificate>)
    requires w.Sweep? && w.state.chain.HasTip()
    ensures Announced(w.state, SweepVotes(cfg, w, votes, now).state, certs)
    decreases |votes|
  {
    if votes == [] {
      certs := [];
    } else {
      certs := SweepVoteAnnounces(cfg, w, votes[0], now);
      var next := SweepVote(cfg, w, votes[0], now);
      if next.Sweep? {
        var more := SweepVotesAnnounce(cfg, next, votes[1..], now);
        AnnouncedOn(w.state, certs, next.state, more, SweepVotes(cfg, next, votes[1..], now).state);
        certs := certs + more;
      }
    }
  }

  lemma {:induction false} ReplayAnnounces(cfg: NodeConfig, s: RuntimeState, outbound: seq<Vote>, now: nat)
    returns (certs: seq<FinalityCertificate>)
    requires s.chain.HasTip()
    ensures Announced(s, ReplayDeferred(cfg, s, outbound, now).0, certs)
    decreases |s.deferred|
  {
    var start := Sweep(s.(deferred := []), [], outbound, false);
    certs := SweepVotesAnnounce(cfg, start, s.deferred, now);
    var w := SweepVotes(cfg, start, s.deferred, now);
    if w.Sweep? && w.progressed {
      var u := w.state.(deferred := w.remaining);
      var more := ReplayAnnounces(cfg, u, w.outbound, now);
      AnnouncedOn(s, certs, u, more, ReplayDeferred(cfg, u, w.outbound, now).0);
      certs := certs + more;
    }
  }

  // ---------- Sync ----------

  lemma SyncOneStores(cfg: NodeConfig, s: RuntimeState, cert: FinalityCertificate, now: nat)
    requires s.chain.HasTip()
    ensures var (t, r) := SyncOne(cfg, s, cert, now);
      Stored(s, t, if r.Ok? && r.value then [cert] else []) && t.unreported == s.unreported
  {
  }

  lemma {:induction false} SyncAllStores(cfg: NodeConfig, s: RuntimeState, certs: seq<FinalityCertificate>,
                                         applied: nat, now: nat) returns (taken: seq<FinalityCertificate>)
    requires s.chain.HasTip()
    ensures var t := SyncAll(cfg, s, certs, applied, now).0; Stored(s, t, taken) && t.unreported == s.unreported
    decreases |certs|
  {
    taken := [];
    if certs != [] {
      SyncOneStores(cfg, s, certs[0], now);
      var (t, r) := SyncOne(cfg, s, certs[0], now);
      if r.Ok? {
        var count := if r.value then applied + 1 else applied;
        taken := SyncAllStores(cfg, t, certs[1..], count, now);
        var first := if r.value then [certs[0]] else [];
        StoredOn(s, first, t, taken, SyncAll(cfg, t, certs[1..], count, now).0);
        taken := first + taken;
      }
    }
  }

  // ---------- Every call ----------

  ghost predicate Reported(s: RuntimeState, input: Input, t: RuntimeState, certs: seq<FinalityCertificate>) {
    && Stored(s, t, certs)
    && t.unreported == (match input
                        case SyncCertificates(_) => s.unreported
                        case TakeFinalized => []
                        case _ => s.unreported + certs)
    && (input.TakeFinalized? ==> certs == [])
  }

  lemma StepReports(cfg: NodeConfig, s: RuntimeState, input: Input, now: nat) returns (certs: seq<FinalityCertificate>)
    requires s.chain.HasTip()
    ensures Reported(s, input, Step(cfg, s, input, now), certs)
  {
    certs := [];
    match input
    case IncomingVote(v) => certs := VoteAnnounces(cfg, s, v, now);
    case ReplayVotes => certs := ReplayAnnounces(cfg, s, [], now);
    case SyncCertificates(list) => certs := SyncAllStores(cfg, s, list, 0, now);
    case _ =>
  }

  lemma MovedReports(cfg: NodeConfig, s: RuntimeState, call: Call, t: RuntimeState)
    returns (certs: seq<FinalityCertificate>)
    requires MovesTo(cfg, s, call.input, call.now, t)
    ensures Reported(s, call.input, t, certs)
  {
    MovesToStep(cfg, s, call.input, call.now, t);
    certs := StepReports(cfg, s, call.input, call.now);
  }

  // ---------- Along runs ----------

  /** What `take_finalized` has answered in the first i calls. */
  function HandedOut(states: seq<RuntimeState>, calls: seq<Call>, i: nat): seq<FinalityCertificate>
    requires i <= |calls| < |states|
  {
    if i == 0 then []
    else HandedOut(states, calls, i - 1) + if calls[i - 1].input.TakeFinalized? then states[i - 1].unreported else []
  }

  /** The certificates a call has added to the stored ones. */
  function NewlyStored(s: RuntimeState, t: RuntimeState): seq<FinalityCertificate> {
    if |s.finalized| <= |t.finalized| then t.finalized[|s.finalized|..] else []
  }

  /** The certificates that were stored by the first i calls, those from sync left out. */
  function OwnCertificates(states: seq<RuntimeState>, calls: seq<Call>, i: nat): seq<FinalityCertificate>
    requires i <= |calls| < |states|
  {
    if i == 0 then []
    else OwnCertificates(states, calls, i - 1) +
         if calls[i - 1].input.SyncCertificates? then [] else NewlyStored(states[i - 1], states[i])
  }

  lemma StoredIsNew(s: RuntimeState, t: RuntimeState, certs: seq<FinalityCertificate>)
    requires Stored(s, t, certs)
    ensures NewlyStored(s, t) == certs
  {
  }

  /** What was handed out and what still waits is, in order, what the node finalized itself,
      each block higher than the one before. */
  ghost predicate Settled(handed: seq<FinalityCertificate>, s: RuntimeState, own: seq<FinalityCertificate>) {
    s.chain.HasTip() && handed + s.unreported == own && Climb(0, own, TipHeight(s))
  }

  lemma SettledStep(s: RuntimeState, input: Input, t: RuntimeState, handed: seq<FinalityCertificate>,
                    own: seq<FinalityCertificate>, certs: seq<FinalityCertificate>)
    requires Reported(s, input, t, certs) && Settled(handed, s, own)
    ensures Settled(handed + if input.TakeFinalized? then s.unreported else [], t,
                    own + if input.SyncCertificates? then [] else certs)
  {
    ClimbOn(0, own, TipHeight(s), if input.SyncCertificates? then [] else certs, TipHeight(t));
  }

  lemma SettledStart(cfg: NodeConfig, start: nat, states: seq<RuntimeState>, calls: seq<Call>)
    requires IsTrace(cfg, start, states, calls)
    ensures Settled([], states[0], [])
  {
  }

  lemma SettledMove(cfg: NodeConfig, s: RuntimeState, call: Call, t: RuntimeState, handed: seq<FinalityCertificate>,
                    own: seq<FinalityCertificate>)
    requires MovesTo(cfg, s, call.input, call.now, t) && Settled(handed, s, own)
    ensures Settled(handed + if call.input.TakeFinalized? then s.unreported else [], t,
                    own + if call.input.SyncCertificates? then [] else NewlyStored(s, t))
  {
    var certs := MovedReports(cfg, s, call, t);
    StoredIsNew(s, t, certs);
    SettledStep(s, call.input, t, handed, own, certs);
  }

  /** Handed out once, at any moment of any run. */
  lemma {:induction false} HandedOutOnce(cfg: NodeConfig, start: nat, states: seq<RuntimeState>, calls: seq<Call>,
                                         i: nat)
    requires IsTrace(cfg, start, states, calls) && i <= |calls|
    ensures Settled(HandedOut(states, calls, i), states[i], OwnCertificates(states, calls, i))
  {
    if i == 0 {
      SettledStart(cfg, start, states, calls);
    } else {
      HandedOutOnce(cfg, start, states, calls, i - 1);
      SettledMove(cfg, states[i - 1], calls[i - 1], states[i], HandedOut(states, calls, i - 1),
                  OwnCertificates(states, calls, i - 1));
    }
  }
}
