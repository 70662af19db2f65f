/** The invariant of one honest node, relative to what every honest node has signed, and
    the proof that every call into the runtime keeps it. */
module Safety {
  import opened Basics
  import opened Weights
  import opened Messages
  import opened Quorum
  import opened Ledger
  import opened Bft
  import opened Runtime

  /** The votes signed so far by each honest node. */
  type Journals = map<Id, set<Vote>>

  // ---------- A node's own journal ----------

  ghost predicate Mine(cfg: NodeConfig, signed: set<Vote>) {
    forall v :: v in signed ==> v.validator == cfg.me && cfg.crypto.voteSigned(v)
  }

  predicate UpTo(v: Vote, height: nat, round: nat) {
    v.height < height || (v.height == height && v.round <= round)
  }

  ghost predicate NotAhead(signed: set<Vote>, height: nat, round: nat) {
    forall v :: v in signed ==> UpTo(v, height, round)
  }

  /** At most one hash per height, round and vote type. */
  ghost predicate OneHash(signed: set<Vote>) {
    forall v, w :: v in signed && w in signed && v.height == w.height && v.round == w.round && v.kind == w.kind
      ==> v.hash == w.hash
  }

  /** A precommit and a prevote of the same height that is not earlier. */
  predicate Outlasts(v: Vote, w: Vote) {
    v.kind == VoteType.Precommit && w.kind == VoteType.Prevote && v.height == w.height && v.round <= w.round
  }

  /** After precommitting a hash the node prevotes nothing else at that height. */
  ghost predicate NeverSwitches(signed: set<Vote>) {
    forall v, w :: v in signed && w in signed && Outlasts(v, w) ==> v.hash == w.hash
  }

  /** Whatever was precommitted at this height is the current lock. */
  ghost predicate LockHeld(signed: set<Vote>, height: nat, locked: Option<Hash>) {
    forall v :: v in signed && v.kind == VoteType.Precommit && v.height == height ==> locked == Some(v.hash)
  }

  /** Whatever was signed in the current round is for the expected hash. */
  ghost predicate CurrentVotes(signed: set<Vote>, height: nat, round: nat, expected: Option<Hash>) {
    forall v :: v in signed && v.height == height && v.round == round ==> expected == Some(v.hash)
  }

  ghost predicate Journal(cfg: NodeConfig, signed: set<Vote>, height: nat, round: nat, locked: Option<Hash>,
                          expected: Option<Hash>) {
    && Mine(cfg, signed)
    && NotAhead(signed, height, round)
    && OneHash(signed)
    && NeverSwitches(signed)
    && LockHeld(signed, height, locked)
    && CurrentVotes(signed, height, round, expected)
  }

  /** In the propose phase only the lock can have been signed for already. */
  function Expected(b: BftState): Option<Hash> {
    if b.phase == Propose then b.lockedValue else b.proposal
  }

  lemma SignKeepsJournal(cfg: NodeConfig, signed: set<Vote>, height: nat, round: nat, locked: Option<Hash>, v: Vote)
    requires Journal(cfg, signed, height, round, locked, Some(v.hash))
    requires v.height == height && v.round == round && v.validator == cfg.me && cfg.crypto.voteSigned(v)
    requires if v.kind == VoteType.Prevote then locked == None || locked == Some(v.hash) else locked == Some(v.hash)
    ensures Journal(cfg, signed + {v}, height, round, locked, Some(v.hash))
  {
  }

  lemma LaterRoundJournal(cfg: NodeConfig, signed: set<Vote>, height: nat, round: nat, locked: Option<Hash>,
                          expected: Option<Hash>,
                          height': nat, round': nat, locked': Option<Hash>, expected': Option<Hash>)
    requires Journal(cfg, signed, height, round, locked, expected)
    requires height' > height || (height' == height && round' > round && locked' == locked)
    ensures Journal(cfg, signed, height', round', locked', expected')
  {
  }

  // ---------- What others have signed ----------

  ghost predicate Voted(J: Journals, id: Id, height: nat, round: nat, kind: VoteType, hash: Hash)
    requires id in J
  {
    exists w :: w in J[id] && w.height == height && w.round == round && w.kind == kind && w.hash == hash
  }

  /** A vote that names an honest node was signed by that node. */
  ghost predicate Genuine(J: Journals, v: Vote) {
    v.validator in J ==> Voted(J, v.validator, v.height, v.round, v.kind, v.hash)
  }

  ghost predicate AllGenuine(J: Journals, messages: map<HistoryKey, Vote>) {
    forall k :: k in messages ==> Genuine(J, messages[k])
  }

  /** A quorum whose honest members all prevoted the hash in that round. */
  ghost predicate PrevoteQuorum(validators: map<Id, nat>, J: Journals, voters: set<Id>, height: nat, round: nat,
                                hash: Hash) {
    && IsQuorum(validators, voters)
    && (forall id :: id in voters && id in J ==> Voted(J, id, height, round, VoteType.Prevote, hash))
  }

  ghost predicate Justifiable(validators: map<Id, nat>, J: Journals, v: Vote) {
    exists voters :: PrevoteQuorum(validators, J, voters, v.height, v.round, v.hash)
  }

  /** Every precommit of the node rests on a prevote quorum. */
  ghost predicate PrecommitsJustified(validators: map<Id, nat>, J: Journals, signed: set<Vote>) {
    forall v :: v in signed && v.kind == VoteType.Precommit ==> Justifiable(validators, J, v)
  }

  ghost predicate Grows(J: Journals, J': Journals) {
    J.Keys == J'.Keys && forall id :: id in J ==> J[id] <= J'[id]
  }

  lemma GenuineGrows(J: Journals, J': Journals, v: Vote)
    requires Grows(J, J') && Genuine(J, v)
    ensures Genuine(J', v)
  {
  }

  lemma JustifiableGrows(validators: map<Id, nat>, J: Journals, J': Journals, v: Vote)
    requires Grows(J, J') && Justifiable(validators, J, v)
    ensures Justifiable(validators, J', v)
  {
    var voters :| PrevoteQuorum(validators, J, voters, v.height, v.round, v.hash);
    forall id | id in voters && id in J' ensures Voted(J', id, v.height, v.round, VoteType.Prevote, v.hash) {
      assert Voted(J, id, v.height, v.round, VoteType.Prevote, v.hash);
    }
    assert PrevoteQuorum(validators, J', voters, v.height, v.round, v.hash);
  }

  // ---------- Candidate block and certificate material ----------

  /** While votes are being collected the candidate is the proposed block. */
  ghost predicate Candidate(cfg: NodeConfig, s: RuntimeState) {
    match s.bft.phase
    case Prevote => CandidateIs(cfg, s)
    case Precommit => CandidateIs(cfg, s)
    case _ => s.pending == None
  }

  ghost predicate CandidateIs(cfg: NodeConfig, s: RuntimeState) {
    && s.pending.Some?
    && s.bft.proposal == Some(s.pending.value.hash)
    && s.pending.value.height == s.bft.height
    && s.pending.value.hash == CalculateHash(cfg.crypto, s.pending.value)
  }

  ghost predicate KeptPrecommit(c: Crypto, b: BftState, v: Vote) {
    && v.height == b.height && v.round == b.round && v.kind == VoteType.Precommit
    && b.proposal == Some(v.hash) && c.voteSigned(v) && v.validator in b.validators
  }

  /** The separately kept precommits are exactly one message per counted precommit voter. */
  ghost predicate PrecommitsKept(c: Crypto, b: BftState, precommits: seq<Vote>) {
    && (forall v :: v in precommits ==> KeptPrecommit(c, b, v))
    && (if b.proposal.Some? then Voters(precommits) == VotersFor(b, VoteType.Precommit, b.proposal.value)
        else precommits == [])
  }

  ghost predicate CertificatesGenuine(cfg: NodeConfig, J: Journals, certs: seq<FinalityCertificate>) {
    forall cert :: cert in certs ==> CertificateGenuine(cfg.crypto, cfg.validators, J, cert)
  }

  ghost predicate CertificateGenuine(c: Crypto, validators: seq<Validator>, J: Journals, cert: FinalityCertificate) {
    CertificateValid(c, validators, cert) && forall v :: v in cert.precommits ==> Genuine(J, v)
  }

  // ---------- The invariant ----------

  ghost predicate ConfigOk(cfg: NodeConfig) {
    && cfg.validators != []
    && DistinctIds(cfg.validators)
    && PowerTable(PowerMap(cfg.validators))
  }

  /** A vote as it may arrive: if its signature verifies, it is genuine. */
  ghost predicate Credible(c: Crypto, J: Journals, v: Vote) {
    c.voteSigned(v) ==> Genuine(J, v)
  }

  /** Everything the node holds on to, measured against the journals. */
  ghost predicate Backing(cfg: NodeConfig, J: Journals, s: RuntimeState) {
    && PrecommitsJustified(s.bft.validators, J, s.signed)
    && AllGenuine(J, s.bft.messages)
    && (forall v :: v in s.deferred ==> Credible(cfg.crypto, J, v))
    && (forall v :: v in s.precommits ==> Genuine(J, v))
    && CertificatesGenuine(cfg, J, s.finalized)
  }

  ghost predicate LocalInv(cfg: NodeConfig, s: RuntimeState) {
    && ConfigOk(cfg)
    && s.chain.HasTip()
    && Inv(cfg.crypto, s.bft)
    && s.bft.validators == PowerMap(cfg.validators)
    && s.bft.phase != Waiting
    && s.bft.height <= s.chain.Tip().height + 1
    && Journal(cfg, s.signed, s.bft.height, s.bft.round, s.bft.lockedValue, Expected(s.bft))
    && PrecommitsKept(cfg.crypto, s.bft, s.precommits)
  }

  ghost predicate NodeInv(cfg: NodeConfig, J: Journals, s: RuntimeState) {
    && cfg.me in J && J[cfg.me] == s.signed
    && LocalInv(cfg, s)
    && Backing(cfg, J, s)
    && Candidate(cfg, s)
  }

  /** What a node holds stays backed whatever honest nodes sign later. */
  lemma BackingGrows(cfg: NodeConfig, J: Journals, J': Journals, s: RuntimeState)
    requires Backing(cfg, J, s) && Grows(J, J')
    ensures Backing(cfg, J', s)
  {
    forall v | v in s.signed && v.kind == VoteType.Precommit ensures Justifiable(s.bft.validators, J', v) {
      JustifiableGrows(s.bft.validators, J, J', v);
    }
    forall v | Genuine(J, v) ensures Genuine(J', v) {
      GenuineGrows(J, J', v);
    }
  }

  /** The invariant survives whatever other honest nodes sign. */
  lemma NodeInvGrows(cfg: NodeConfig, J: Journals, J': Journals, s: RuntimeState)
    requires NodeInv(cfg, J, s) && Grows(J, J') && J'[cfg.me] == s.signed
    ensures NodeInv(cfg, J', s)
  {
    BackingGrows(cfg, J, J', s);
  }

  /** The journals after the node itself reached state s. */
  function At(cfg: NodeConfig, J: Journals, s: RuntimeState): Journals {
    J[cfg.me := s.signed]
  }

  /** Signing one more vote keeps everything backed, once that vote is justified. */
  lemma SignKeepsBacking(cfg: NodeConfig, J: Journals, s: RuntimeState, v: Vote)
    requires cfg.me in J && J[cfg.me] == s.signed && Backing(cfg, J, s)
    requires v.kind == VoteType.Precommit ==> Justifiable(s.bft.validators, J, v)
    ensures var t := s.(signed := s.signed + {v}); Grows(J, At(cfg, J, t)) && Backing(cfg, At(cfg, J, t), t)
  {
    var t := s.(signed := s.signed + {v});
    var J' := At(cfg, J, t);
    BackingGrows(cfg, J, J', s);
    if v.kind == VoteType.Precommit {
      JustifiableGrows(s.bft.validators, J, J', v);
    }
  }

  // ---------- Proposals ----------

  lemma AcceptedProposal(cfg: NodeConfig, J: Journals, s: RuntimeState, p: SignedProposal, b: BftState, deadline: nat)
    requires NodeInv(cfg, J, s) && HandleProposal(cfg.crypto, s.bft, p) == Ok(b)
    ensures var t := s.(bft := b, pending := Some(p.block), deadline := deadline);
      && NodeInv(cfg, J, t)
      && Expected(t.bft) == Some(p.block.hash)
      && (t.bft.lockedValue == None || t.bft.lockedValue == Some(p.block.hash))
      && t.bft.height == p.height && t.bft.round == p.round
  {
    HandleProposalInv(cfg.crypto, s.bft, p);
    UnlockUnreachable(cfg.crypto, s.bft, p);
    assert VotersFor(b, VoteType.Precommit, p.block.hash) == {};
  }

  lemma ReceiveProposalKeeps(cfg: NodeConfig, J: Journals, s: RuntimeState, p: SignedProposal, now: nat)
    requires NodeInv(cfg, J, s)
    ensures var t := ReceiveProposal(cfg, s, p, now).0;
      NodeInv(cfg, At(cfg, J, t), t) && s.signed <= t.signed
  {
    var t := ReceiveProposal(cfg, s, p, now).0;
    var r := HandleProposal(cfg.crypto, s.bft, p);
    if Extends(s.chain.Tip(), p.block) && ScheduledBlockOk(cfg, s.chain, p.block, now) && r.Ok? {
      var deadline := now + cfg.timeouts.For(r.value.phase);
      AcceptedProposal(cfg, J, s, p, r.value, deadline);
      var u := s.(bft := r.value, pending := Some(p.block), deadline := deadline);
      var signed := SignVote(cfg, now, p.height, p.round, VoteType.Prevote, p.block.hash);
      if signed.Some? {
        SignKeepsJournal(cfg, s.signed, u.bft.height, u.bft.round, u.bft.lockedValue, signed.value);
        SignKeepsBacking(cfg, J, u, signed.value);
      } else {
        assert t == u && At(cfg, J, t) == J;
      }
    } else {
      assert t == s && At(cfg, J, t) == J;
    }
  }

  // ---------- Votes ----------

  /** A vote adds at most its own message to the remembered ones. */
  lemma HandleMessages(c: Crypto, s: BftState, m: Vote, k: HistoryKey)
    requires k in Handle(c, s, m).0.messages
    ensures (k in s.messages && Handle(c, s, m).0.messages[k] == s.messages[k])
         || (Handle(c, s, m).0.messages[k] == m && c.voteSigned(m))
  {
    HandleFrame(c, s, m);
  }

  lemma HandleKeepsGenuine(c: Crypto, J: Journals, s: BftState, m: Vote)
    requires AllGenuine(J, s.messages) && Credible(c, J, m)
    ensures AllGenuine(J, Handle(c, s, m).0.messages)
  {
    var t := Handle(c, s, m).0;
    forall k | k in t.messages ensures Genuine(J, t.messages[k]) {
      HandleMessages(c, s, m, k);
    }
  }

  /** How the state machine may have judged a vote. */
  ghost predicate Judged(cfg: NodeConfig, J: Journals, s: RuntimeState, m: Vote, b: BftState, accepted: bool) {
    && Inv(cfg.crypto, b)
    && SamePosition(s.bft, b)
    && AllGenuine(J, b.messages)
    && (if accepted then Counted(cfg.crypto, s.bft, m, b) && Genuine(J, m) && PhaseMoves(s.bft.phase, b.phase)
        else Untallied(s.bft, b))
  }

  ghost predicate PhaseMoves(before: Phase, after: Phase) {
    match before
    case Prevote => after == Phase.Prevote || after == Phase.Precommit
    case Precommit => after == Phase.Precommit || after == Finalized
    case Finalized => after == Finalized
    case _ => false
  }

  lemma HandleJudges(cfg: NodeConfig, J: Journals, s: RuntimeState, m: Vote)
    requires Inv(cfg.crypto, s.bft) && AllGenuine(J, s.bft.messages) && Credible(cfg.crypto, J, m)
    ensures var (b, r) := Handle(cfg.crypto, s.bft, m); Judged(cfg, J, s, m, b, r.Ok?)
  {
    HandleFrame(cfg.crypto, s.bft, m);
    HandleInv(cfg.crypto, s.bft, m);
    HandleKeepsGenuine(cfg.crypto, J, s.bft, m);
  }

  /** Locking happens only on the proposal, so nothing signed before contradicts it. */
  lemma JudgedKeepsJournal(cfg: NodeConfig, J: Journals, s: RuntimeState, m: Vote, b: BftState, accepted: bool)
    requires LocalInv(cfg, s) && Judged(cfg, J, s, m, b, accepted)
    ensures Expected(b) == Expected(s.bft)
    ensures Journal(cfg, s.signed, b.height, b.round, b.lockedValue, Expected(b))
  {
  }

  lemma KeepPrecommitKeeps(c: Crypto, s: BftState, b: BftState, precommits: seq<Vote>, m: Vote)
    requires PrecommitsKept(c, s, precommits) && SamePosition(s, b) && Counted(c, s, m, b)
    ensures PrecommitsKept(c, b, KeepPrecommit(precommits, m))
  {
    var kept := KeepPrecommit(precommits, m);
    if m.kind == VoteType.Precommit {
      if KnownPrecommit(precommits, m) {
        VotersMembers(precommits, m.validator);
        assert m.validator in VotersFor(s, VoteType.Precommit, m.hash);
      } else {
        assert kept[..|precommits|] == precommits;
      }
    } else {
      assert (VoteType.Precommit, m.hash) != (m.kind, m.hash);
    }
    forall v | v in kept ensures KeptPrecommit(c, b, v) {
      if v in precommits {
        assert KeptPrecommit(c, s, v);
      }
    }
  }

  lemma KeepPrecommitGenuine(J: Journals, precommits: seq<Vote>, m: Vote)
    requires (forall v :: v in precommits ==> Genuine(J, v)) && Genuine(J, m)
    ensures forall v :: v in KeepPrecommit(precommits, m) ==> Genuine(J, v)
  {
  }

  /** A rejected vote leaves the invariant and the journal as they are. */
  lemma RejectedVote(cfg: NodeConfig, J: Journals, s: RuntimeState, m: Vote, b: BftState)
    requires NodeInv(cfg, J, s) && Judged(cfg, J, s, m, b, false)
    ensures NodeInv(cfg, J, s.(bft := b))
  {
    JudgedKeepsJournal(cfg, J, s, m, b, false);
    forall v | v in s.precommits ensures KeptPrecommit(cfg.crypto, b, v) {
      assert KeptPrecommit(cfg.crypto, s.bft, v);
    }
  }

  /** After an accepted vote everything but the candidate clause is in place again. */
  lemma AcceptedVote(cfg: NodeConfig, J: Journals, s: RuntimeState, m: Vote, b: BftState, now: nat)
    requires NodeInv(cfg, J, s) && Judged(cfg, J, s, m, b, true)
    ensures var t := AfterVote(cfg, s, b, m, now);
      && LocalInv(cfg, t) && Backing(cfg, J, t) && t.signed == s.signed
      && (t.bft.phase != Finalized ==> CandidateIs(cfg, t))
      && (t.pending == None || CandidateIs(cfg, t))
  {
    JudgedKeepsJournal(cfg, J, s, m, b, true);
    KeepPrecommitKeeps(cfg.crypto, s.bft, b, s.precommits, m);
    KeepPrecommitGenuine(J, s.precommits, m);
    var t := AfterVote(cfg, s, b, m, now);
    assert t.bft == b && t.precommits == KeepPrecommit(s.precommits, m) && t.pending == s.pending;
  }

  /** A node in the precommit phase has seen a prevote quorum for its candidate. */
  lemma PrecommitIsJustified(cfg: NodeConfig, J: Journals, s: RuntimeState, v: Vote)
    requires LocalInv(cfg, s) && Backing(cfg, J, s) && s.bft.phase == Phase.Precommit
    requires v.height == s.bft.height && v.round == s.bft.round && s.bft.proposal == Some(v.hash)
    ensures Justifiable(s.bft.validators, J, v)
  {
    var voters := VotersFor(s.bft, VoteType.Prevote, v.hash);
    SaturatingImpliesExact(Sum(s.bft.validators, voters), s.bft.totalPower);
    forall id | id in voters && id in J ensures Voted(J, id, v.height, v.round, VoteType.Prevote, v.hash) {
      assert Justified(s.bft.validators, s.bft.height, s.bft.round, s.bft.proposal, s.bft.history, VoteType.Prevote,
                       v.hash, id);
      var key := HistoryKey(s.bft.height, s.bft.round, VoteType.Prevote, id);
      assert key in s.bft.messages && Genuine(J, s.bft.messages[key]);
    }
    assert PrevoteQuorum(s.bft.validators, J, voters, v.height, v.round, v.hash);
  }

  lemma PrecommitNowKeeps(cfg: NodeConfig, J: Journals, s: RuntimeState, now: nat)
    requires cfg.me in J && J[cfg.me] == s.signed
    requires LocalInv(cfg, s) && Backing(cfg, J, s) && CandidateIs(cfg, s) && s.bft.phase == Phase.Precommit
    ensures var t := PrecommitNow(cfg, s, now).0;
      NodeInv(cfg, At(cfg, J, t), t) && s.signed <= t.signed
  {
    var t := PrecommitNow(cfg, s, now).0;
    var block := s.pending.value;
    var signed := SignVote(cfg, now, block.height, s.bft.round, VoteType.Precommit, block.hash);
    if signed.Some? {
      PrecommitIsJustified(cfg, J, s, signed.value);
      SignKeepsJournal(cfg, s.signed, s.bft.height, s.bft.round, s.bft.lockedValue, signed.value);
      SignKeepsBacking(cfg, J, s, signed.value);
    } else {
      assert t == s && At(cfg, J, t) == J;
    }
  }

  /** Whenever votes drive a node to finality, the certificate built from its separately
      kept precommit list verifies. */
  lemma OwnCertificateValid(cfg: NodeConfig, s: RuntimeState)
    requires LocalInv(cfg, s) && CandidateIs(cfg, s) && s.bft.phase == Finalized
    ensures s.bft.finalized == Some(s.pending.value.hash)
    ensures CertificateValid(cfg.crypto, cfg.validators,
                             FinalityCertificate(s.pending.value, s.bft.round, s.precommits))
  {
    var cert := FinalityCertificate(s.pending.value, s.bft.round, s.precommits);
    var v := PowerMap(cfg.validators);
    ListPowerIsTotal(cfg.validators);
    SaturatingImpliesExact(Sum(v, VotersFor(s.bft, VoteType.Precommit, s.pending.value.hash)), s.bft.totalPower);
    forall vote | vote in cert.precommits ensures CertificateVote(cfg.crypto, v, cert, vote) {
      assert KeptPrecommit(cfg.crypto, s.bft, vote);
    }
    assert Total(v) > 0 by {
      var id :| id in v;
      EntryWithinTotal(v, id);
    }
  }

  lemma FinalizeNowKeeps(cfg: NodeConfig, J: Journals, s: RuntimeState)
    requires cfg.me in J && J[cfg.me] == s.signed
    requires LocalInv(cfg, s) && Backing(cfg, J, s) && s.bft.phase == Finalized
    requires s.pending.Some? ==> CandidateIs(cfg, s)
    ensures var t := FinalizeNow(cfg, s).0;
      NodeInv(cfg, J, t) && t.signed == s.signed
  {
    if s.pending.Some? {
      OwnCertificateValid(cfg, s);
      var t := FinalizeNow(cfg, s).0;
      var cert := FinalityCertificate(s.pending.value, s.bft.round, s.precommits);
      assert CertificateGenuine(cfg.crypto, cfg.validators, J, cert);
      forall x | x in t.finalized ensures CertificateGenuine(cfg.crypto, cfg.validators, J, x) {
        if x != cert {
          assert x in s.finalized;
        }
      }
    }
  }

  lemma RespondKeeps(cfg: NodeConfig, J: Journals, s: RuntimeState, m: Vote, b: BftState,
                     handled: Result<(), BftError>, now: nat)
    requires NodeInv(cfg, J, s) && Judged(cfg, J, s, m, b, handled.Ok?)
    ensures var t := Respond(cfg, s, b, handled, m, now).0; NodeInv(cfg, At(cfg, J, t), t) && s.signed <= t.signed
  {
    var t := Respond(cfg, s, b, handled, m, now).0;
    if handled.Err? {
      RejectedVote(cfg, J, s, m, b);
      assert At(cfg, J, t) == J;
    } else {
      AcceptedKeeps(cfg, J, s, m, b, now);
    }
  }

  lemma AcceptedKeeps(cfg: NodeConfig, J: Journals, s: RuntimeState, m: Vote, b: BftState, now: nat)
    requires NodeInv(cfg, J, s) && Judged(cfg, J, s, m, b, true)
    ensures var t := Respond(cfg, s, b, Ok(()), m, now).0; NodeInv(cfg, At(cfg, J, t), t) && s.signed <= t.signed
  {
    AcceptedVote(cfg, J, s, m, b, now);
    AnswerKeeps(cfg, J, AfterVote(cfg, s, b, m, now), now);
  }

  lemma AtSame(cfg: NodeConfig, J: Journals, s: RuntimeState)
    requires cfg.me in J && J[cfg.me] == s.signed
    ensures At(cfg, J, s) == J
  {
  }

  /** Signing the precommit, finalizing or waiting restores the candidate clause. */
  lemma AnswerKeeps(cfg: NodeConfig, J: Journals, u: RuntimeState, now: nat)
    requires cfg.me in J && J[cfg.me] == u.signed && LocalInv(cfg, u) && Backing(cfg, J, u)
    requires (u.bft.phase != Finalized ==> CandidateIs(cfg, u)) && (u.pending == None || CandidateIs(cfg, u))
    ensures var t :=
        if u.bft.phase == Phase.Precommit then PrecommitNow(cfg, u, now).0
        else if u.bft.phase == Finalized then FinalizeNow(cfg, u).0
        else u;
      NodeInv(cfg, At(cfg, J, t), t) && u.signed <= t.signed
  {
    if u.bft.phase == Phase.Precommit {
      PrecommitNowKeeps(cfg, J, u, now);
    } else if u.bft.phase == Finalized {
      FinalizeNowKeeps(cfg, J, u);
      AtSame(cfg, J, FinalizeNow(cfg, u).0);
    } else {
      AtSame(cfg, J, u);
    }
  }

  lemma PrecommitOutcome(cfg: NodeConfig, s: RuntimeState, now: nat)
    requires s.pending.Some?
    ensures var (t, r) := PrecommitNow(cfg, s, now);
      if r.Err? then r.error == SignerFailed else r.value.Some? && r.value.value in t.signed
  {
  }

  lemma FinalizeOutcome(cfg: NodeConfig, s: RuntimeState)
    requires LocalInv(cfg, s) && s.bft.phase == Finalized
    requires s.pending.Some? ==> CandidateIs(cfg, s)
    ensures var r := FinalizeNow(cfg, s).1; if r.Err? then r.error.LedgerFault? else r.value == None
  {
    if s.pending.Some? {
      OwnCertificateValid(cfg, s);
    }
  }

  /** Besides a rejected vote, only the signer and the execution of the finalized block can
      fail: a missing candidate, a hash mismatch and a bad own certificate never occur. */
  lemma RespondOutcome(cfg: NodeConfig, J: Journals, s: RuntimeState, m: Vote, b: BftState,
                       handled: Result<(), BftError>, now: nat)
    requires NodeInv(cfg, J, s) && Judged(cfg, J, s, m, b, handled.Ok?)
    ensures var (t, r) := Respond(cfg, s, b, handled, m, now);
      && (r.Err? ==> r.error.ConsensusFault? || r.error.LedgerFault? || r.error.SignerFailed?)
      && (r.Ok? && r.value.Some? ==> r.value.value in t.signed)
  {
    if handled.Ok? {
      AcceptedVote(cfg, J, s, m, b, now);
      var u := AfterVote(cfg, s, b, m, now);
      if b.phase == Phase.Precommit {
        PrecommitOutcome(cfg, u, now);
      } else if b.phase == Finalized {
        FinalizeOutcome(cfg, u);
      }
    }
  }

  /** Every vote keeps the invariant; the only failures besides a rejected vote are the
      signer and the execution of the finalized block. */
  lemma ReceiveVoteKeeps(cfg: NodeConfig, J: Journals, s: RuntimeState, m: Vote, now: nat)
    requires NodeInv(cfg, J, s) && Credible(cfg.crypto, J, m)
    ensures var (t, r) := ReceiveVote(cfg, s, m, now);
      && NodeInv(cfg, At(cfg, J, t), t) && s.signed <= t.signed
      && (r.Err? ==> r.error.ConsensusFault? || r.error.LedgerFault? || r.error.SignerFailed?)
      && (r.Ok? && r.value.Some? ==> r.value.value in t.signed)
  {
    HandleJudges(cfg, J, s, m);
    var (b, handled) := Handle(cfg.crypto, s.bft, m);
    RespondKeeps(cfg, J, s, m, b, handled, now);
    RespondOutcome(cfg, J, s, m, b, handled, now);
  }
}
