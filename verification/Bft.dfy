/** The propose, prevote, precommit state machine of one validator (src/consensus.rs).
    `BftState` and the functions over it are the specification; the class `BftConsensus`
    is the machine that updates its fields in place. */
module Bft {
  import opened Basics
  import opened Weights
  import opened Sorting
  import opened Messages
  import opened Quorum

  datatype Phase = Waiting | Propose | Prevote | Precommit | Finalized

  datatype BftError =
    | InvalidValidators | PastRound | NotProposePhase | WrongProposer | EmptyHash
    | WrongRound | NotRegistered | BadMessage | Locked | PhaseMismatch | DoubleVote
    | NotProposed | RoundOverflow

  datatype VoteKey = VoteKey(kind: VoteType, hash: Hash)
  datatype HistoryKey = HistoryKey(height: nat, round: u32, kind: VoteType, validator: Id)

  datatype BftState = BftState(
    validators: map<Id, nat>, totalPower: nat, height: nat, round: u32, phase: Phase,
    proposal: Option<Hash>, votes: map<VoteKey, set<Id>>,
    history: map<HistoryKey, Hash>, messages: map<HistoryKey, Vote>,
    lockedValue: Option<Hash>, lockedRound: Option<u32>,
    validValue: Option<Hash>, validRound: Option<u32>,
    evidence: seq<DoubleVoteEvidence>, finalized: Option<Hash>)

  function InitialState(validators: map<Id, nat>, totalPower: nat): BftState {
    BftState(validators, totalPower, 0, 0, Waiting, None, map[], map[], map[], None, None, None, None, [], None)
  }

  // ---------- Transitions ----------

  function StartRound(s: BftState, height: nat, round: u32): Result<BftState, BftError> {
    if height < s.height || (height == s.height && round < s.round) then Err(PastRound)
    else
      var t := if height > s.height
               then s.(lockedValue := None, lockedRound := None, validValue := None, validRound := None)
               else s;
      Ok(t.(height := height, round := round, phase := Propose, proposal := None, votes := map[], finalized := None))
  }

  function OnTimeout(s: BftState): Result<BftState, BftError> {
    if s.round == U32_MAX then Err(RoundOverflow) else StartRound(s, s.height, s.round + 1)
  }

  /** How many validators come before an id in text order. */
  function Rank(ids: set<Id>, id: Id): nat {
    |set q | q in ids && q != id && TextLe(q, id)|
  }

  /** The proposer rotates through the validators in text order, one step per round,
      starting one step further at every height. */
  predicate IsProposer(s: BftState, id: Id) {
    && id in s.validators
    && Rank(s.validators.Keys, id) == (Max(s.height - 1, 0) + s.round) % |s.validators|
  }

  function ProposeHash(s: BftState, proposer: Id, hash: Hash): Result<BftState, BftError> {
    if s.phase != Propose then Err(NotProposePhase)
    else if !IsProposer(s, proposer) then Err(WrongProposer)
    else if hash == "" then Err(EmptyHash)
    else Ok(s.(proposal := Some(hash), phase := Phase.Prevote))
  }

  /** The test that lets a locked node accept another value. */
  predicate UnlockAllowed(s: BftState, p: SignedProposal) {
    && p.validRound.Some?
    && s.lockedRound.Some? && p.validRound.value >= s.lockedRound.value
    && s.validRound == p.validRound
    && s.validValue == Some(p.block.hash)
  }

  function HandleProposal(c: Crypto, s: BftState, p: SignedProposal): Result<BftState, BftError> {
    if p.height != s.height || p.round != s.round then Err(WrongRound)
    else if p.proposer !in s.validators then Err(NotRegistered)
    else if !ProposalVerified(c, p) then Err(BadMessage)
    else if s.lockedValue.Some? && s.lockedValue.value != p.block.hash && !UnlockAllowed(s, p) then Err(Locked)
    else ProposeHash(s, p.proposer, p.block.hash)
  }

  function VotersIn(votes: map<VoteKey, set<Id>>, kind: VoteType, hash: Hash): set<Id> {
    if VoteKey(kind, hash) in votes then votes[VoteKey(kind, hash)] else {}
  }

  function VotersFor(s: BftState, kind: VoteType, hash: Hash): set<Id> {
    VotersIn(s.votes, kind, hash)
  }

  ghost predicate QuorumIn(validators: map<Id, nat>, total: nat, voters: set<Id>) {
    SaturatingQuorum(Sum(validators, voters), total)
  }

  ghost predicate HasQuorum(s: BftState, kind: VoteType, hash: Hash) {
    QuorumIn(s.validators, s.totalPower, VotersFor(s, kind, hash))
  }

  function KeyOf(m: Vote): HistoryKey {
    HistoryKey(m.height, m.round, m.kind, m.validator)
  }

  predicate PhaseAccepts(phase: Phase, kind: VoteType) {
    phase == Phase.Precommit || phase == Finalized || (phase == Phase.Prevote && kind == VoteType.Prevote)
  }

  predicate KnownEvidence(evidence: seq<DoubleVoteEvidence>, key: HistoryKey) {
    exists e :: e in evidence && KeyOf(e.first) == key
  }

  /** Bookkeeping of a conflicting vote: remembered once, and only if it verifies. */
  function RecordConflict(c: Crypto, s: BftState, m: Vote): BftState {
    var key := KeyOf(m);
    if key in s.messages && EvidenceVerified(c, DoubleVoteEvidence(s.messages[key], m))
      && !KnownEvidence(s.evidence, key)
    then s.(evidence := s.evidence + [DoubleVoteEvidence(s.messages[key], m)])
    else s
  }

  function Remember(s: BftState, m: Vote): BftState {
    if KeyOf(m) in s.history then s
    else s.(history := s.history[KeyOf(m) := m.hash], messages := s.messages[KeyOf(m) := m])
  }

  function AddVote(s: BftState, m: Vote): BftState {
    s.(votes := s.votes[VoteKey(m.kind, m.hash) := VotersFor(s, m.kind, m.hash) + {m.validator}])
  }

  /** Phase change after a vote was counted. */
  ghost function Advance(s: BftState, m: Vote): BftState {
    if !HasQuorum(s, m.kind, m.hash) || s.phase == Finalized then s
    else if m.kind == VoteType.Precommit then s.(phase := Finalized, finalized := Some(m.hash))
    else if s.phase == Phase.Prevote then
      s.(validValue := Some(m.hash), validRound := Some(s.round),
         lockedValue := Some(m.hash), lockedRound := Some(s.round), phase := Phase.Precommit)
    else s
  }

  ghost function Handle(c: Crypto, s: BftState, m: Vote): (BftState, Result<(), BftError>) {
    if m.height != s.height || m.round != s.round then (s, Err(WrongRound))
    else if m.validator !in s.validators then (s, Err(NotRegistered))
    else if !c.voteSigned(m) then (s, Err(BadMessage))
    else if !PhaseAccepts(s.phase, m.kind) then (s, Err(PhaseMismatch))
    else if KeyOf(m) in s.history && s.history[KeyOf(m)] != m.hash then (RecordConflict(c, s, m), Err(DoubleVote))
    else if s.proposal != Some(m.hash) then (Remember(s, m), Err(NotProposed))
    else (Advance(AddVote(Remember(s, m), m), m), Ok(()))
  }

  // ---------- Invariant ----------

  /** Lock and valid value are written together, so they are always the same pair. */
  ghost predicate LockIsValid(s: BftState) {
    && s.lockedValue == s.validValue
    && s.lockedRound == s.validRound
    && (s.lockedValue.Some? <==> s.lockedRound.Some?)
    && (s.lockedRound.Some? ==> s.lockedRound.value <= s.round)
  }

  ghost predicate Registered(s: BftState) {
    && PowerTable(s.validators)
    && s.totalPower == Total(s.validators)
  }

  /** First votes are kept with the signed message that carried them. */
  ghost predicate HistoryBacked(c: Crypto, history: map<HistoryKey, Hash>, messages: map<HistoryKey, Vote>) {
    && history.Keys == messages.Keys
    && (forall k :: k in messages ==>
          KeyOf(messages[k]) == k && messages[k].hash == history[k] && c.voteSigned(messages[k]))
  }

  ghost predicate Backed(history: map<HistoryKey, Hash>, key: HistoryKey, hash: Hash) {
    key in history && history[key] == hash
  }

  /** A counted voter is registered, voted for the proposal, and its vote of this round
      is remembered. */
  ghost predicate Justified(
    validators: map<Id, nat>, height: nat, round: u32, proposal: Option<Hash>,
    history: map<HistoryKey, Hash>, kind: VoteType, hash: Hash, id: Id)
  {
    && id in validators
    && proposal == Some(hash)
    && Backed(history, HistoryKey(height, round, kind, id), hash)
  }

  ghost predicate VotesBacked(
    validators: map<Id, nat>, height: nat, round: u32, proposal: Option<Hash>,
    votes: map<VoteKey, set<Id>>, history: map<HistoryKey, Hash>)
  {
    forall kind, hash, id :: id in VotersIn(votes, kind, hash) ==>
      Justified(validators, height, round, proposal, history, kind, hash, id)
  }

  /** Recorded evidence verifies, and there is one item per conflicting vote. */
  ghost predicate EvidenceSound(c: Crypto, evidence: seq<DoubleVoteEvidence>) {
    && (forall e :: e in evidence ==> EvidenceVerified(c, e))
    && (forall i, j :: 0 <= i < j < |evidence| ==> KeyOf(evidence[i].first) != KeyOf(evidence[j].first))
  }

  /** What each phase means. */
  ghost predicate PhaseMeaning(s: BftState) {
    match s.phase
    case Waiting => s.proposal == None && s.votes == map[] && s.lockedValue == None && s.finalized == None
    case Propose => s.proposal == None && s.votes == map[] && s.finalized == None
    case Prevote =>
      && s.proposal.Some? && s.finalized == None
      && (s.lockedValue == None || s.lockedValue == s.proposal)
      && !HasQuorum(s, VoteType.Prevote, s.proposal.value)
      && VotersFor(s, VoteType.Precommit, s.proposal.value) == {}
    case Precommit =>
      && s.proposal.Some? && s.finalized == None
      && s.lockedValue == s.proposal && s.lockedRound == Some(s.round)
      && HasQuorum(s, VoteType.Prevote, s.proposal.value)
      && !HasQuorum(s, VoteType.Precommit, s.proposal.value)
    case Finalized =>
      && s.proposal.Some? && s.finalized == s.proposal
      && s.lockedValue == s.proposal && s.lockedRound == Some(s.round)
      && HasQuorum(s, VoteType.Prevote, s.proposal.value)
      && HasQuorum(s, VoteType.Precommit, s.proposal.value)
  }

  ghost predicate Inv(c: Crypto, s: BftState) {
    && Registered(s)
    && LockIsValid(s)
    && HistoryBacked(c, s.history, s.messages)
    && VotesBacked(s.validators, s.height, s.round, s.proposal, s.votes, s.history)
    && EvidenceSound(c, s.evidence)
    && PhaseMeaning(s)
  }

  lemma NoVotersNoQuorum(s: BftState, kind: VoteType, hash: Hash)
    requires VotersFor(s, kind, hash) == {}
    ensures !HasQuorum(s, kind, hash)
  {
  }

  lemma InitialInv(c: Crypto, validators: map<Id, nat>)
    requires PowerTable(validators)
    ensures Inv(c, InitialState(validators, Total(validators)))
  {
  }

  /** Starting a round keeps the invariant and, within a height, keeps the lock. */
  lemma StartRoundInv(c: Crypto, s: BftState, height: nat, round: u32)
    requires Inv(c, s) && StartRound(s, height, round).Ok?
    ensures var t := StartRound(s, height, round).value;
      && Inv(c, t)
      && (height == s.height ==> t.lockedValue == s.lockedValue)
      && (height > s.height ==> t.lockedValue == None)
  {
  }

  /** In every reachable state the unlock test fails: a locked node accepts only its
      locked value, and it does so exactly when the message is otherwise acceptable. */
  lemma UnlockUnreachable(c: Crypto, s: BftState, p: SignedProposal)
    requires LockIsValid(s)
    ensures s.lockedValue.Some? && s.lockedValue.value != p.block.hash ==> !UnlockAllowed(s, p)
    ensures HandleProposal(c, s, p).Ok? <==>
      (&& p.height == s.height && p.round == s.round && s.phase == Propose
       && IsProposer(s, p.proposer) && p.block.hash != "" && ProposalVerified(c, p)
       && (s.lockedValue == None || s.lockedValue == Some(p.block.hash)))
  {
  }

  lemma HandleProposalInv(c: Crypto, s: BftState, p: SignedProposal)
    requires Inv(c, s) && HandleProposal(c, s, p).Ok?
    ensures Inv(c, HandleProposal(c, s, p).value)
  {
    var t := HandleProposal(c, s, p).value;
    NoVotersNoQuorum(t, VoteType.Prevote, p.block.hash);
  }

  lemma EvidenceGrows(c: Crypto, evidence: seq<DoubleVoteEvidence>, e: DoubleVoteEvidence)
    requires EvidenceSound(c, evidence) && EvidenceVerified(c, e) && !KnownEvidence(evidence, KeyOf(e.first))
    ensures EvidenceSound(c, evidence + [e])
  {
    assert forall i :: 0 <= i < |evidence| ==> evidence[i] in evidence;
  }

  lemma RecordConflictInv(c: Crypto, s: BftState, m: Vote)
    requires Inv(c, s) && KeyOf(m) in s.history && s.history[KeyOf(m)] != m.hash && c.voteSigned(m)
    ensures Inv(c, RecordConflict(c, s, m))
    ensures KnownEvidence(RecordConflict(c, s, m).evidence, KeyOf(m))
  {
    var e := DoubleVoteEvidence(s.messages[KeyOf(m)], m);
    assert KeyOf(e.first) == KeyOf(m) && c.voteSigned(e.first);
    if !KnownEvidence(s.evidence, KeyOf(m)) {
      EvidenceGrows(c, s.evidence, e);
      assert e in s.evidence + [e];
    }
  }

  /** A vote of this round that only its hash can still spoil. */
  predicate Countable(c: Crypto, s: BftState, m: Vote) {
    && m.height == s.height && m.round == s.round && m.validator in s.validators
    && c.voteSigned(m) && PhaseAccepts(s.phase, m.kind)
  }

  lemma CountableNoted(c: Crypto, s: BftState, m: Vote)
    requires Inv(c, s) && Countable(c, s, m)
    ensures var t := Handle(c, s, m).0;
      && (Backed(t.history, KeyOf(m), m.hash) || KnownEvidence(t.evidence, KeyOf(m)))
      && (forall e :: e in s.evidence ==> e in t.evidence)
  {
    if KeyOf(m) in s.history && s.history[KeyOf(m)] != m.hash {
      ConflictNoted(c, s, m);
    }
  }

  lemma ConflictNoted(c: Crypto, s: BftState, m: Vote)
    requires Inv(c, s) && Countable(c, s, m) && KeyOf(m) in s.history && s.history[KeyOf(m)] != m.hash
    ensures var t := Handle(c, s, m).0;
      KnownEvidence(t.evidence, KeyOf(m)) && forall e :: e in s.evidence ==> e in t.evidence
  {
    RecordConflictInv(c, s, m);
  }

  lemma StillCountable(c: Crypto, s: BftState, v: Vote, w: Vote)
    requires Countable(c, s, v) && Countable(c, s, w)
    ensures Countable(c, Handle(c, s, v).0, w)
  {
  }

  /** Whoever votes for two hashes in one round and type is caught, in whichever order the
      votes arrive and whatever they are for. */
  lemma EquivocationCaught(c: Crypto, s: BftState, v: Vote, w: Vote)
    requires Inv(c, s) && Countable(c, s, v) && Countable(c, s, w) && KeyOf(v) == KeyOf(w) && v.hash != w.hash
    ensures KnownEvidence(Handle(c, Handle(c, s, v).0, w).0.evidence, KeyOf(v))
  {
    var t := Handle(c, s, v).0;
    CountableNoted(c, s, v);
    HandleInv(c, s, v);
    StillCountable(c, s, v, w);
    CountableNoted(c, t, w);
    if Backed(t.history, KeyOf(v), v.hash) {
      RecordConflictInv(c, t, w);
    }
  }

  lemma RememberInv(c: Crypto, s: BftState, m: Vote)
    requires Inv(c, s) && c.voteSigned(m)
    ensures Inv(c, Remember(s, m)) && KeyOf(m) in Remember(s, m).history
  {
    var t := Remember(s, m);
    forall kind, hash, id | id in VotersIn(t.votes, kind, hash)
      ensures Justified(t.validators, t.height, t.round, t.proposal, t.history, kind, hash, id)
    {
      assert Justified(s.validators, s.height, s.round, s.proposal, s.history, kind, hash, id);
    }
  }

  lemma AddVoteBacked(s: BftState, m: Vote)
    requires VotesBacked(s.validators, s.height, s.round, s.proposal, s.votes, s.history)
    requires m.height == s.height && m.round == s.round && m.validator in s.validators
    requires s.proposal == Some(m.hash)
    requires Backed(s.history, KeyOf(m), m.hash)
    ensures VotesBacked(s.validators, s.height, s.round, s.proposal, AddVote(s, m).votes, s.history)
  {
    var votes := AddVote(s, m).votes;
    forall kind, hash, id | id in VotersIn(votes, kind, hash)
      ensures Justified(s.validators, s.height, s.round, s.proposal, s.history, kind, hash, id)
    {
      if id !in VotersIn(s.votes, kind, hash) {
        assert KeyOf(m) == HistoryKey(s.height, s.round, kind, id);
      }
    }
  }

  lemma QuorumGrows(validators: map<Id, nat>, total: nat, a: set<Id>, b: set<Id>)
    requires QuorumIn(validators, total, a) && a <= b
    ensures QuorumIn(validators, total, b)
  {
    SumMonotone(validators, a, b);
  }

  /** Counting a vote keeps the meaning of the phase. */
  lemma CountVotePhase(s: BftState, m: Vote)
    requires PhaseMeaning(s) && s.proposal == Some(m.hash) && PhaseAccepts(s.phase, m.kind)
    ensures PhaseMeaning(Advance(AddVote(s, m), m))
  {
    var a := AddVote(s, m);
    var other := if m.kind == VoteType.Prevote then VoteType.Precommit else VoteType.Prevote;
    assert VotersFor(a, m.kind, m.hash) == VotersFor(s, m.kind, m.hash) + {m.validator};
    assert VotersFor(a, other, m.hash) == VotersFor(s, other, m.hash);
    if HasQuorum(s, m.kind, m.hash) {
      QuorumGrows(s.validators, s.totalPower, VotersFor(s, m.kind, m.hash), VotersFor(a, m.kind, m.hash));
    }
    if s.phase == Phase.Prevote {
      NoVotersNoQuorum(a, VoteType.Precommit, m.hash);
    }
  }

  /** A counted vote keeps the invariant. */
  lemma CountVoteInv(c: Crypto, s: BftState, m: Vote)
    requires Inv(c, s)
    requires m.height == s.height && m.round == s.round && m.validator in s.validators
    requires s.proposal == Some(m.hash) && PhaseAccepts(s.phase, m.kind)
    requires Backed(s.history, KeyOf(m), m.hash)
    ensures Inv(c, Advance(AddVote(s, m), m))
  {
    AddVoteBacked(s, m);
    CountVotePhase(s, m);
  }

  /** Every vote, accepted or not, keeps the invariant. */
  lemma HandleInv(c: Crypto, s: BftState, m: Vote)
    requires Inv(c, s)
    ensures Inv(c, Handle(c, s, m).0)
  {
    if m.height != s.height || m.round != s.round || m.validator !in s.validators || !c.voteSigned(m)
      || !PhaseAccepts(s.phase, m.kind)
    {
    } else if KeyOf(m) in s.history && s.history[KeyOf(m)] != m.hash {
      RecordConflictInv(c, s, m);
    } else {
      RememberInv(c, s, m);
      if s.proposal == Some(m.hash) {
        CountVoteInv(c, Remember(s, m), m);
      }
    }
  }

  /** No vote moves the node to another height or round or changes its proposal; a
      rejected vote leaves phase, tally and lock alone, and a counted one only ever locks
      the proposal itself. */
  lemma HandleFrame(c: Crypto, s: BftState, m: Vote)
    ensures var (t, r) := Handle(c, s, m);
      && SamePosition(s, t)
      && (if r.Ok? then Counted(c, s, m, t) else Untallied(s, t))
  {
    if m.height != s.height || m.round != s.round || m.validator !in s.validators || !c.voteSigned(m)
      || !PhaseAccepts(s.phase, m.kind)
    {
    } else if KeyOf(m) in s.history && s.history[KeyOf(m)] != m.hash {
      var t := RecordConflict(c, s, m);
      assert SamePosition(s, t) && Untallied(s, t);
    } else {
      var u := Remember(s, m);
      assert SamePosition(s, u) && Untallied(s, u);
      if s.proposal == Some(m.hash) {
        var a := AddVote(u, m);
        assert VotersFor(a, m.kind, m.hash) == VotersFor(s, m.kind, m.hash) + {m.validator};
        assert SamePosition(u, a);
      }
    }
  }

  ghost predicate SamePosition(s: BftState, t: BftState) {
    && t.height == s.height && t.round == s.round && t.proposal == s.proposal
    && t.validators == s.validators && t.totalPower == s.totalPower
  }

  ghost predicate Untallied(s: BftState, t: BftState) {
    && t.phase == s.phase && t.votes == s.votes && t.finalized == s.finalized
    && t.lockedValue == s.lockedValue && t.validValue == s.validValue
    && t.lockedRound == s.lockedRound && t.validRound == s.validRound
  }

  ghost predicate Counted(c: Crypto, s: BftState, m: Vote, t: BftState) {
    && s.proposal == Some(m.hash) && PhaseAccepts(s.phase, m.kind) && c.voteSigned(m)
    && m.height == s.height && m.round == s.round && m.validator in s.validators
    && VotersFor(t, m.kind, m.hash) == VotersFor(s, m.kind, m.hash) + {m.validator}
    && (forall kind, hash :: (kind, hash) != (m.kind, m.hash) ==> VotersFor(t, kind, hash) == VotersFor(s, kind, hash))
    && (t.lockedValue == s.lockedValue || t.lockedValue == s.proposal)
    && (t.lockedValue != s.lockedValue ==> s.phase == Phase.Prevote && t.phase == Phase.Precommit)
  }
}
