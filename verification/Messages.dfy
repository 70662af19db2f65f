/** Transactions, blocks and signed consensus messages, with the byte strings that are
    signed. Hashing, signature checks and text encoding are calls into foreign code, so
    they are functions carried by a `Crypto` value. */
module Messages {
  import opened Basics
  import opened Bytes

  type Id = string
  type Hash = string
  type Address = string

  datatype Transaction = Transaction(
    from: Address, to: Address, amount: u128, fee: u128, nonce: u64, signature: string)

  datatype EventPayment = EventPayment(address: Address, amount: u128)

  datatype ValidatorRegistration = ValidatorRegistration(
    validatorId: Id, peerId: string, signatureHex: string)

  datatype NodeRewardRegistration = NodeRewardRegistration(
    rewardAddress: Address, peerId: string, signatureHex: string, registrationSigner: string,
    nodePublicKeyHex: string, nodeSignatureHex: string)

  datatype EventAction =
    | TreasuryDistribution(recipients: seq<EventPayment>)
    | PeriodicProducerReward(producer: Address, reward: u128)
    | IncidentCompensation(incidentId: string, victim: Address, compensation: u128)
    | ProtocolCheckpoint(protocolVersion: u32)
    | BootstrapValidatorReward(validators: seq<ValidatorRegistration>, perValidator: u128)
    | NodeMilestoneReward(nodes: seq<NodeRewardRegistration>, perNode: u128)

  datatype ScheduledEvent = ScheduledEvent(id: string, executeAt: u64, action: EventAction)

  datatype Block = Block(
    height: u64, previousHash: Hash, timestamp: u64, producer: Address,
    transactions: seq<Transaction>, systemEvents: seq<ScheduledEvent>, hash: Hash)

  datatype Validator = Validator(id: Id, votingPower: u64)

  datatype VoteType = Prevote | Precommit

  /** `ConsensusMessage` of the source. */
  datatype Vote = Vote(
    height: u64, round: u32, validator: Id, kind: VoteType, hash: Hash, signature: string)

  datatype SignedProposal = SignedProposal(
    height: u64, round: u32, proposer: Id, validRound: Option<u32>, block: Block, signature: string)

  datatype DoubleVoteEvidence = DoubleVoteEvidence(first: Vote, second: Vote)

  datatype FinalityCertificate = FinalityCertificate(block: Block, round: u32, precommits: seq<Vote>)

  /** The foreign functions. `voteSigned` and `proposalSigned` are the signature checks of
      `ConsensusMessage::verify` and `SignedProposal::verify`; `Sound` ties them to the
      bytes that are signed. */
  datatype Crypto = Crypto(
    utf8: string -> seq<byte>,
    verify: (string, seq<byte>, string) -> bool,
    voteSigned: Vote -> bool,
    proposalSigned: SignedProposal -> bool,
    blockHash: Block -> Hash,
    transferSigned: (u64, Transaction) -> bool,
    validatorRegistered: ValidatorRegistration -> bool,
    nodeRegistered: NodeRewardRegistration -> bool)
  {
    /** Text encoding loses nothing, and both checks verify the sender's signature over the
        message payload. */
    ghost predicate Sound() {
      && (forall s, t :: utf8(s) == utf8(t) ==> s == t)
      && (forall v :: voteSigned(v) <==> verify(v.validator, VotePayload(this, v), v.signature))
      && (forall p :: proposalSigned(p) <==> verify(p.proposer, ProposalPayload(this, p), p.signature))
    }
  }

  const VOTE_TAG: seq<byte> :=
    [73, 69, 85, 77, 45, 67, 79, 78, 83, 69, 78, 83, 85, 83, 45, 86, 49] // IEUM-CONSENSUS-V1
  const PROPOSAL_TAG: seq<byte> :=
    [73, 69, 85, 77, 45, 80, 82, 79, 80, 79, 83, 65, 76, 45, 86, 50] // IEUM-PROPOSAL-V2

  function PushText(c: Crypto, text: string): seq<byte> {
    BigEndian(|c.utf8(text)|, 8) + c.utf8(text)
  }

  /** The length of the text fits its 64-bit prefix, as that of every text in memory does. */
  predicate Prefixable(c: Crypto, text: string) {
    |c.utf8(text)| <= U64_MAX
  }

  function KindByte(kind: VoteType): byte {
    if kind == Prevote then 1 else 2
  }

  function VoteBytes(c: Crypto, height: u64, round: u32, validator: Id, kind: VoteType, hash: Hash): seq<byte> {
    VOTE_TAG + (BigEndian(height, 8) + (BigEndian(round, 4) + ([KindByte(kind)]
      + (PushText(c, validator) + PushText(c, hash)))))
  }

  function WireRound(validRound: Option<u32>): u32 {
    if validRound.Some? then validRound.value else U32_MAX
  }

  function ProposalBytes(c: Crypto, height: u64, round: u32, proposer: Id, hash: Hash,
                         validRound: Option<u32>): seq<byte> {
    PROPOSAL_TAG + (BigEndian(height, 8) + (BigEndian(round, 4)
      + (PushText(c, proposer) + (PushText(c, hash) + BigEndian(WireRound(validRound), 4)))))
  }

  function VotePayload(c: Crypto, v: Vote): seq<byte> {
    VoteBytes(c, v.height, v.round, v.validator, v.kind, v.hash)
  }

  function ProposalPayload(c: Crypto, p: SignedProposal): seq<byte> {
    ProposalBytes(c, p.height, p.round, p.proposer, p.block.hash, p.validRound)
  }

  /** `Block::calculate_hash`, which reads every field but the stored hash. */
  function CalculateHash(c: Crypto, b: Block): Hash {
    c.blockHash(b.(hash := ""))
  }

  predicate ProposalVerified(c: Crypto, p: SignedProposal) {
    && p.height == p.block.height
    && p.block.hash == CalculateHash(c, p.block)
    && c.proposalSigned(p)
  }

  /** The two votes say the same thing; only their signatures may differ. */
  predicate SameStatement(v: Vote, w: Vote) {
    v.height == w.height && v.round == w.round && v.validator == w.validator && v.kind == w.kind && v.hash == w.hash
  }

  predicate EvidenceVerified(c: Crypto, e: DoubleVoteEvidence) {
    && c.voteSigned(e.first)
    && c.voteSigned(e.second)
    && e.first.height == e.second.height
    && e.first.round == e.second.round
    && e.first.kind == e.second.kind
    && e.first.validator == e.second.validator
    && e.first.hash != e.second.hash
  }

  // ---------- What a signed byte string pins down ----------

  lemma SplitFixed(a: seq<byte>, x: seq<byte>, b: seq<byte>, y: seq<byte>)
    requires |a| == |b| && a + x == b + y
    ensures a == b && x == y
  {
    assert a == (a + x)[..|a|] && b == (b + y)[..|b|];
    assert x == (a + x)[|a|..] && y == (b + y)[|b|..];
  }

  /** A length-prefixed text can be read off the front of a byte string in one way only. */
  lemma SplitText(c: Crypto, s: string, x: seq<byte>, t: string, y: seq<byte>)
    requires c.Sound() && Prefixable(c, s) && Prefixable(c, t)
    requires PushText(c, s) + x == PushText(c, t) + y
    ensures s == t && x == y
  {
    var ls, lt := BigEndian(|c.utf8(s)|, 8), BigEndian(|c.utf8(t)|, 8);
    assert PushText(c, s) + x == ls + (c.utf8(s) + x);
    assert PushText(c, t) + y == lt + (c.utf8(t) + y);
    SplitFixed(ls, c.utf8(s) + x, lt, c.utf8(t) + y);
    Spans();
    BigEndianInjective(|c.utf8(s)|, |c.utf8(t)|, 8);
    SplitFixed(c.utf8(s), x, c.utf8(t), y);
  }

  lemma SplitNumber(a: nat, x: seq<byte>, b: nat, y: seq<byte>, width: nat)
    requires a < Span(width) && b < Span(width)
    requires BigEndian(a, width) + x == BigEndian(b, width) + y
    ensures a == b && x == y
  {
    SplitFixed(BigEndian(a, width), x, BigEndian(b, width), y);
    BigEndianInjective(a, b, width);
  }

  /** A text at the very end needs no length to be read. */
  lemma LastText(c: Crypto, s: string, t: string)
    requires c.Sound() && PushText(c, s) == PushText(c, t)
    ensures s == t
  {
    SplitFixed(BigEndian(|c.utf8(s)|, 8), c.utf8(s), BigEndian(|c.utf8(t)|, 8), c.utf8(t));
  }

  lemma VoteHeaders(c: Crypto, v: Vote, w: Vote)
    requires VotePayload(c, v) == VotePayload(c, w)
    ensures v.height == w.height && v.round == w.round && v.kind == w.kind
    ensures PushText(c, v.validator) + PushText(c, v.hash) == PushText(c, w.validator) + PushText(c, w.hash)
  {
    Spans();
    var tv, tw := PushText(c, v.validator) + PushText(c, v.hash), PushText(c, w.validator) + PushText(c, w.hash);
    var kv, kw := [KindByte(v.kind)] + tv, [KindByte(w.kind)] + tw;
    var rv, rw := BigEndian(v.round, 4) + kv, BigEndian(w.round, 4) + kw;
    SplitFixed(VOTE_TAG, BigEndian(v.height, 8) + rv, VOTE_TAG, BigEndian(w.height, 8) + rw);
    SplitNumber(v.height, rv, w.height, rw, 8);
    SplitNumber(v.round, kv, w.round, kw, 4);
    SplitFixed([KindByte(v.kind)], tv, [KindByte(w.kind)], tw);
    assert [KindByte(v.kind)][0] == [KindByte(w.kind)][0];
  }

  /** The bytes of a vote determine height, round, voter, kind and hash. */
  lemma VoteBytesInjective(c: Crypto, v: Vote, w: Vote)
    requires c.Sound() && Prefixable(c, v.validator) && Prefixable(c, w.validator)
    ensures VotePayload(c, v) == VotePayload(c, w) <==> SameStatement(v, w)
  {
    if VotePayload(c, v) == VotePayload(c, w) {
      VoteHeaders(c, v, w);
      SplitText(c, v.validator, PushText(c, v.hash), w.validator, PushText(c, w.hash));
      LastText(c, v.hash, w.hash);
    }
  }

  /** For votes of one validator this needs no bound on any text. */
  lemma OwnVoteBytesInjective(c: Crypto, v: Vote, w: Vote)
    requires c.Sound() && v.validator == w.validator
    ensures VotePayload(c, v) == VotePayload(c, w) <==> SameStatement(v, w)
  {
    if VotePayload(c, v) == VotePayload(c, w) {
      VoteHeaders(c, v, w);
      SplitFixed(PushText(c, v.validator), PushText(c, v.hash), PushText(c, w.validator), PushText(c, w.hash));
      LastText(c, v.hash, w.hash);
    }
  }

  /** The bytes of a proposal determine every field except that an absent valid round
      and round 2^32 - 1 are indistinguishable. */
  lemma ProposalBytesInjective(c: Crypto, p: SignedProposal, q: SignedProposal)
    requires c.Sound()
    requires Prefixable(c, p.proposer) && Prefixable(c, q.proposer)
    requires Prefixable(c, p.block.hash) && Prefixable(c, q.block.hash)
    ensures ProposalPayload(c, p) == ProposalPayload(c, q)
       <==> (&& p.height == q.height && p.round == q.round && p.proposer == q.proposer
             && p.block.hash == q.block.hash
             && (p.validRound == q.validRound || {p.validRound, q.validRound} == {None, Some(U32_MAX)}))
  {
    if ProposalPayload(c, p) == ProposalPayload(c, q) {
      Spans();
      var wp, wq := BigEndian(WireRound(p.validRound), 4), BigEndian(WireRound(q.validRound), 4);
      var hp, hq := PushText(c, p.block.hash) + wp, PushText(c, q.block.hash) + wq;
      var ip, iq := PushText(c, p.proposer) + hp, PushText(c, q.proposer) + hq;
      var rp, rq := BigEndian(p.round, 4) + ip, BigEndian(q.round, 4) + iq;
      SplitFixed(PROPOSAL_TAG, BigEndian(p.height, 8) + rp, PROPOSAL_TAG, BigEndian(q.height, 8) + rq);
      SplitNumber(p.height, rp, q.height, rq, 8);
      SplitNumber(p.round, ip, q.round, iq, 4);
      SplitText(c, p.proposer, hp, q.proposer, hq);
      SplitText(c, p.block.hash, wp, q.block.hash, wq);
      BigEndianInjective(WireRound(p.validRound), WireRound(q.validRound), 4);
    } else if {p.validRound, q.validRound} == {None, Some(U32_MAX)} {
      assert p.validRound in {None, Some(U32_MAX)} && q.validRound in {None, Some(U32_MAX)};
    }
  }

  predicate HasTag(bytes: seq<byte>, tag: seq<byte>) {
    |bytes| >= |tag| && bytes[..|tag|] == tag
  }

  /** A proposal signature can never be replayed as a vote. */
  lemma ProposalIsNoVote(c: Crypto, p: SignedProposal)
    ensures !HasTag(ProposalPayload(c, p), VOTE_TAG)
  {
    var bytes := ProposalPayload(c, p);
    assert |bytes| >= |VOTE_TAG| ==> bytes[..|VOTE_TAG|][5] == bytes[5] == PROPOSAL_TAG[5] == 80;
    assert VOTE_TAG[5] == 67;
  }
}
