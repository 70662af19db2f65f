/** Every input of the runtime keeps the safety invariant of its node. */
module NodeSteps {
  import opened Basics
  import opened Messages
  import opened Quorum
  import opened Bft
  import opened Runtime
  import opened Safety

  // ---------- Deferred votes ----------

  lemma CredibleGrows(c: Crypto, J: Journals, J': Journals, v: Vote)
    requires Grows(J, J') && Credible(c, J, v)
    ensures Credible(c, J', v)
  {
  }

  ghost predicate AllCredible(c: Crypto, J: Journals, votes: seq<Vote>) {
    forall v :: v in votes ==> Credible(c, J, v)
  }

  lemma DeferKeeps(cfg: NodeConfig, J: Journals, s: RuntimeState, v: Vote)
    requires NodeInv(cfg, J, s) && Credible(cfg.crypto, J, v)
    ensures NodeInv(cfg, J, DeferVote(s, v)) && DeferVote(s, v).signed == s.signed
  {
    var t := DeferVote(s, v);
    forall w | w in t.deferred ensures Credible(cfg.crypto, J, w) {
      assert w in s.deferred || w == v;
    }
  }

  /** The invariant of a sweep: the node is fine and all votes still to play are credible. */
  ghost predicate SweepInv(cfg: NodeConfig, J: Journals, w: Sweep, todo: seq<Vote>) {
    && cfg.me in J
    && NodeInv(cfg, At(cfg, J, w.state), w.state)
    && (w.Sweep? ==> AllCredible(cfg.crypto, At(cfg, J, w.state), w.remaining))
    && AllCredible(cfg.crypto, At(cfg, J, w.state), todo)
  }

  /** The node's own fresh vote is credible to itself. */
  lemma OwnVoteCredible(cfg: NodeConfig, J: Journals, s: RuntimeState, v: Vote)
    requires NodeInv(cfg, J, s) && v in s.signed
    ensures Credible(cfg.crypto, J, v)
  {
    assert Voted(J, cfg.me, v.height, v.round, v.kind, v.hash);
  }

  /** Playing one vote from any journals that agree with the node. */
  lemma PlayVote(cfg: NodeConfig, J: Journals, s: RuntimeState, v: Vote, now: nat)
    requires cfg.me in J && NodeInv(cfg, At(cfg, J, s), s) && Credible(cfg.crypto, At(cfg, J, s), v)
    ensures var (t, r) := ReceiveVote(cfg, s, v, now);
      && NodeInv(cfg, At(cfg, J, t), t)
      && Grows(At(cfg, J, s), At(cfg, J, t)) && s.signed <= t.signed
      && (r.Ok? && r.value.Some? ==> Credible(cfg.crypto, At(cfg, J, t), r.value.value))
  {
    ReceiveVoteKeeps(cfg, At(cfg, J, s), s, v, now);
    var (t, r) := ReceiveVote(cfg, s, v, now);
    PlayedFrom(cfg, J, s, t);
    if r.Ok? && r.value.Some? {
      OwnVoteCredible(cfg, At(cfg, J, t), t, r.value.value);
    }
  }

  lemma PlayedFrom(cfg: NodeConfig, J: Journals, s: RuntimeState, t: RuntimeState)
    requires cfg.me in J && s.signed <= t.signed
    ensures At(cfg, At(cfg, J, s), t) == At(cfg, J, t)
    ensures Grows(At(cfg, J, s), At(cfg, J, t))
  {
  }

  lemma AllCredibleGrows(c: Crypto, J: Journals, J': Journals, votes: seq<Vote>)
    requires Grows(J, J') && AllCredible(c, J, votes)
    ensures AllCredible(c, J', votes)
  {
    forall v | v in votes ensures Credible(c, J', v) {
      CredibleGrows(c, J, J', v);
    }
  }

  lemma SweepVoteKeeps(cfg: NodeConfig, J: Journals, w: Sweep, v: Vote, rest: seq<Vote>, now: nat)
    requires w.Sweep? && SweepInv(cfg, J, w, [v] + rest)
    ensures var x := SweepVote(cfg, w, v, now); SweepInv(cfg, J, x, rest) && w.state.signed <= x.state.signed
  {
    var s := w.state;
    assert v in [v] + rest;
    PlayVote(cfg, J, s, v, now);
    var (t, r) := ReceiveVote(cfg, s, v, now);
    assert AllCredible(cfg.crypto, At(cfg, J, s), rest);
    AllCredibleGrows(cfg.crypto, At(cfg, J, s), At(cfg, J, t), rest);
    AllCredibleGrows(cfg.crypto, At(cfg, J, s), At(cfg, J, t), w.remaining + [v]);
    if r.Ok? && r.value.Some? {
      PlayVote(cfg, J, t, r.value.value, now);
      var u := ReceiveVote(cfg, t, r.value.value, now).0;
      AllCredibleGrows(cfg.crypto, At(cfg, J, t), At(cfg, J, u), rest);
      AllCredibleGrows(cfg.crypto, At(cfg, J, t), At(cfg, J, u), w.remaining + [v]);
      assert AllCredible(cfg.crypto, At(cfg, J, u), w.remaining);
    }
    assert AllCredible(cfg.crypto, At(cfg, J, t), w.remaining);
  }

  lemma {:induction false} SweepVotesKeeps(cfg: NodeConfig, J: Journals, w: Sweep, votes: seq<Vote>, now: nat)
    requires w.Sweep? && SweepInv(cfg, J, w, votes)
    ensures var x := SweepVotes(cfg, w, votes, now); SweepInv(cfg, J, x, []) && w.state.signed <= x.state.signed
    decreases |votes|
  {
    if votes != [] {
      assert [votes[0]] + votes[1..] == votes;
      SweepVoteKeeps(cfg, J, w, votes[0], votes[1..], now);
      var next := SweepVote(cfg, w, votes[0], now);
      if next.Sweep? {
        SweepVotesKeeps(cfg, J, next, votes[1..], now);
      }
    }
  }

  lemma WithDeferred(cfg: NodeConfig, J: Journals, s: RuntimeState, votes: seq<Vote>)
    requires NodeInv(cfg, J, s) && AllCredible(cfg.crypto, J, votes)
    ensures NodeInv(cfg, J, s.(deferred := votes))
  {
  }

  lemma {:induction false} ReplayKeeps(cfg: NodeConfig, J: Journals, s: RuntimeState, outbound: seq<Vote>, now: nat)
    requires cfg.me in J && NodeInv(cfg, At(cfg, J, s), s)
    ensures var t := ReplayDeferred(cfg, s, outbound, now).0;
      NodeInv(cfg, At(cfg, J, t), t) && s.signed <= t.signed
    decreases |s.deferred|
  {
    var start := Sweep(s.(deferred := []), [], outbound, false);
    WithDeferred(cfg, At(cfg, J, s), s, []);
    assert At(cfg, J, start.state) == At(cfg, J, s);
    SweepVotesKeeps(cfg, J, start, s.deferred, now);
    var w := SweepVotes(cfg, start, s.deferred, now);
    if w.Sweep? {
      var u := w.state.(deferred := w.remaining);
      WithDeferred(cfg, At(cfg, J, w.state), w.state, w.remaining);
      assert At(cfg, J, u) == At(cfg, J, w.state);
      if w.progressed {
        ReplayKeeps(cfg, J, u, w.outbound, now);
      }
    }
  }

  // ---------- Rounds and heights ----------

  lemma TimeoutKeeps(cfg: NodeConfig, J: Journals, s: RuntimeState, now: nat)
    requires NodeInv(cfg, J, s)
    ensures var t := TimeoutIfDue(cfg, s, now).0; NodeInv(cfg, J, t) && t.signed == s.signed
  {
    var r := OnTimeout(s.bft);
    if now >= s.deadline && s.bft.phase != Finalized && r.Ok? {
      StartRoundInv(cfg.crypto, s.bft, s.bft.height, s.bft.round + 1);
      LaterRoundJournal(cfg, s.signed, s.bft.height, s.bft.round, s.bft.lockedValue, Expected(s.bft),
                        r.value.height, r.value.round, r.value.lockedValue, Expected(r.value));
    }
  }

  /** Moving on to the height after the tip is safe from a lower height, and also from a
      finalized round whose block could not be executed: the lock survives that restart. */
  lemma EnterNextHeightKeeps(cfg: NodeConfig, J: Journals, s: RuntimeState, now: nat)
    requires cfg.me in J && J[cfg.me] == s.signed && LocalInv(cfg, s) && Backing(cfg, J, s)
    requires s.bft.height <= s.chain.Tip().height || s.bft.phase == Finalized
    ensures var (t, r) := EnterNextHeight(cfg, s, now);
      && (r.Ok? ==> NodeInv(cfg, J, t))
      && (r.Err? ==> t == s && s.bft.height == s.chain.Tip().height + 1)
      && t.signed == s.signed
  {
    var next := s.chain.Tip().height + 1;
    var r := StartRound(s.bft, next, 0);
    if r.Ok? {
      StartRoundInv(cfg.crypto, s.bft, next, 0);
      if next > s.bft.height {
        LaterRoundJournal(cfg, s.signed, s.bft.height, s.bft.round, s.bft.lockedValue, Expected(s.bft),
                          next, 0, r.value.lockedValue, Expected(r.value));
      } else {
        assert s.bft.round == 0 && Expected(s.bft) == s.bft.lockedValue == Expected(r.value);
      }
    }
  }

  lemma AdvanceKeeps(cfg: NodeConfig, J: Journals, s: RuntimeState, now: nat)
    requires NodeInv(cfg, J, s)
    ensures var t := AdvanceAfterFinalization(cfg, s, now).0; NodeInv(cfg, J, t) && t.signed == s.signed
  {
    if s.bft.phase == Finalized {
      EnterNextHeightKeeps(cfg, J, s, now);
    }
  }

  // ---------- Sync ----------

  ghost predicate CertificateCredible(c: Crypto, J: Journals, cert: FinalityCertificate) {
    AllCredible(c, J, cert.precommits)
  }

  ghost predicate CertificatesCredible(c: Crypto, J: Journals, certs: seq<FinalityCertificate>) {
    forall cert :: cert in certs ==> CertificateCredible(c, J, cert)
  }

  lemma ValidIsGenuine(c: Crypto, validators: seq<Validator>, J: Journals, cert: FinalityCertificate)
    requires CertificateCredible(c, J, cert) && CertificateValid(c, validators, cert)
    ensures CertificateGenuine(c, validators, J, cert)
  {
    forall v | v in cert.precommits ensures Genuine(J, v) {
      assert CertificateVote(c, PowerMap(validators), cert, v);
    }
  }

  lemma SyncOneKeeps(cfg: NodeConfig, J: Journals, s: RuntimeState, cert: FinalityCertificate, now: nat)
    requires NodeInv(cfg, J, s) && CertificateCredible(cfg.crypto, J, cert)
    ensures var (t, r) := SyncOne(cfg, s, cert, now);
      && NodeInv(cfg, J, t) && t.signed == s.signed && t.bft == s.bft
      && s.chain.Tip().height <= t.chain.Tip().height
      && (r == Ok(true) ==> t.chain.Tip().height == s.chain.Tip().height + 1)
  {
    var t := SyncOne(cfg, s, cert, now).0;
    if CertificateValid(cfg.crypto, cfg.validators, cert) {
      ValidIsGenuine(cfg.crypto, cfg.validators, J, cert);
    }
    if t != s {
      forall x | x in t.finalized ensures CertificateGenuine(cfg.crypto, cfg.validators, J, x) {
        assert x in s.finalized || x == cert;
      }
    }
  }

  lemma {:induction false} SyncAllKeeps(cfg: NodeConfig, J: Journals, s: RuntimeState,
                                        certs: seq<FinalityCertificate>, applied: nat, now: nat)
    requires NodeInv(cfg, J, s) && CertificatesCredible(cfg.crypto, J, certs)
    requires applied > 0 ==> s.bft.height <= s.chain.Tip().height
    ensures var (t, r) := SyncAll(cfg, s, certs, applied, now);
      && NodeInv(cfg, J, t) && t.signed == s.signed
      && (r.Ok? && r.value > 0 ==> t.bft.height <= t.chain.Tip().height)
    decreases |certs|
  {
    if certs != [] {
      SyncOneKeeps(cfg, J, s, certs[0], now);
      var (t, r) := SyncOne(cfg, s, certs[0], now);
      if r.Ok? {
        SyncAllKeeps(cfg, J, t, certs[1..], if r.value then applied + 1 else applied, now);
      }
    }
  }

  lemma SyncKeeps(cfg: NodeConfig, J: Journals, s: RuntimeState, certs: seq<FinalityCertificate>, now: nat)
    requires NodeInv(cfg, J, s) && CertificatesCredible(cfg.crypto, J, certs)
    ensures var t := ApplySyncCertificates(cfg, s, certs, now).0; NodeInv(cfg, J, t) && t.signed == s.signed
  {
    SyncAllKeeps(cfg, J, s, certs, 0, now);
    var (t, r) := SyncAll(cfg, s, certs, 0, now);
    if r.Ok? && r.value > 0 {
      EnterNextHeightKeeps(cfg, J, t, now);
    }
  }

  // ---------- All inputs ----------

  /** What may reach a node: any message whose verified signatures are genuine. */
  ghost predicate Admissible(c: Crypto, J: Journals, input: Input) {
    match input
    case IncomingVote(v) => Credible(c, J, v)
    case Defer(v) => Credible(c, J, v)
    case SyncCertificates(certs) => CertificatesCredible(c, J, certs)
    case _ => true
  }

  /** The inductive step of safety: no call into the runtime breaks the invariant, and no
      signature is ever taken back. */
  lemma StepKeeps(cfg: NodeConfig, J: Journals, s: RuntimeState, input: Input, now: nat)
    requires NodeInv(cfg, J, s) && Admissible(cfg.crypto, J, input)
    ensures var t := Step(cfg, s, input, now); NodeInv(cfg, At(cfg, J, t), t) && s.signed <= t.signed
  {
    assert At(cfg, J, s) == J;
    match input
    case Proposal(p) => ReceiveProposalKeeps(cfg, J, s, p, now);
    case IncomingVote(v) => ReceiveVoteKeeps(cfg, J, s, v, now);
    case Defer(v) => DeferKeeps(cfg, J, s, v); UnsignedStep(cfg, J, s, DeferVote(s, v));
    case ReplayVotes => ReplayKeeps(cfg, J, s, [], now);
    case Tick => TimeoutKeeps(cfg, J, s, now); UnsignedStep(cfg, J, s, TimeoutIfDue(cfg, s, now).0);
    case RestartTimeout => UnsignedStep(cfg, J, s, RestartPhaseTimeout(cfg, s, now));
    case SyncCertificates(certs) =>
      SyncKeeps(cfg, J, s, certs, now);
      UnsignedStep(cfg, J, s, ApplySyncCertificates(cfg, s, certs, now).0);
    case AdvanceHeight => AdvanceKeeps(cfg, J, s, now);
      UnsignedStep(cfg, J, s, AdvanceAfterFinalization(cfg, s, now).0);
    case TakeFinalized => UnsignedStep(cfg, J, s, s.(unreported := []));
    case TakeEvidence => TakeEvidenceKeeps(cfg, J, s); UnsignedStep(cfg, J, s, s.(bft := s.bft.(evidence := [])));
  }

  lemma UnsignedStep(cfg: NodeConfig, J: Journals, s: RuntimeState, t: RuntimeState)
    requires NodeInv(cfg, J, s) && t.signed == s.signed
    ensures At(cfg, J, t) == J
  {
  }

  lemma TakeEvidenceKeeps(cfg: NodeConfig, J: Journals, s: RuntimeState)
    requires NodeInv(cfg, J, s)
    ensures NodeInv(cfg, J, s.(bft := s.bft.(evidence := [])))
  {
    var b := s.bft.(evidence := []);
    forall v | v in s.precommits ensures KeptPrecommit(cfg.crypto, b, v) {
      assert KeptPrecommit(cfg.crypto, s.bft, v);
    }
    assert VotesBacked(b.validators, b.height, b.round, b.proposal, b.votes, b.history);
    assert HasQuorum(b, VoteType.Prevote, "") == HasQuorum(s.bft, VoteType.Prevote, "");
  }
}
