/** The network: honest nodes running the runtime, everything else controlled by the
    adversary. In every run, no two finality certificates for one height name different
    blocks. */
module Agreement {
  import opened Basics
  import opened Weights
  import opened Bytes
  import opened Messages
  import opened Quorum
  import opened Ledger
  import opened Bft
  import opened Runtime
  import opened Safety
  import opened NodeSteps

  /** `nodes` are the honest nodes. Validators without an entry are Byzantine. */
  datatype NetConfig = NetConfig(
    crypto: Crypto, validators: seq<Validator>, nodes: map<Id, NodeConfig>,
    chainId: u64, commitment: string, initial: Balances)

  type Net = map<Id, RuntimeState>

  ghost predicate Honest(n: NetConfig) {
    forall id :: id in n.nodes ==>
      && n.nodes[id].me == id
      && n.nodes[id].crypto == n.crypto
      && n.nodes[id].validators == n.validators
      && ConfigOk(n.nodes[id])
  }

  /** At most a third of the voting power is Byzantine. */
  ghost predicate Assumptions(n: NetConfig) {
    && n.crypto.Sound()
    && Honest(n)
    && n.validators != [] && DistinctIds(n.validators) && PowerTable(PowerMap(n.validators))
    && 3 * Sum(PowerMap(n.validators), PowerMap(n.validators).Keys - n.nodes.Keys) <= Total(PowerMap(n.validators))
  }

  function JournalsOf(net: Net): Journals {
    map id | id in net :: net[id].signed
  }

  // ---------- The adversary ----------

  /** Nobody else can sign for an honest node: a verified payload that starts with the vote
      tag is the payload of a vote the node itself has signed. */
  ghost predicate Unforged(n: NetConfig, net: Net, id: Id, bytes: seq<byte>, signature: string) {
    id in net && n.crypto.verify(id, bytes, signature) && HasTag(bytes, VOTE_TAG) ==>
      exists w :: w in net[id].signed && w.validator == id && VotePayload(n.crypto, w) == bytes
  }

  ghost predicate UnforgedVote(n: NetConfig, net: Net, v: Vote) {
    Unforged(n, net, v.validator, VotePayload(n.crypto, v), v.signature)
  }

  ghost predicate UnforgedCertificate(n: NetConfig, net: Net, cert: FinalityCertificate) {
    forall v :: v in cert.precommits ==> UnforgedVote(n, net, v)
  }

  /** The adversary may deliver anything it can write down without forging. */
  ghost predicate Deliverable(n: NetConfig, net: Net, input: Input) {
    match input
    case IncomingVote(v) => UnforgedVote(n, net, v)
    case Defer(v) => UnforgedVote(n, net, v)
    case SyncCertificates(certs) => forall cert :: cert in certs ==> UnforgedCertificate(n, net, cert)
    case _ => true
  }

  lemma VoteHasTag(c: Crypto, v: Vote)
    ensures HasTag(VotePayload(c, v), VOTE_TAG)
  {
  }

  /** Payload injectivity turns byte-level unforgeability into genuine votes. */
  lemma UnforgedIsCredible(n: NetConfig, net: Net, v: Vote)
    requires n.crypto.Sound() && UnforgedVote(n, net, v)
    ensures Credible(n.crypto, JournalsOf(net), v)
  {
    if n.crypto.voteSigned(v) && v.validator in net {
      VoteHasTag(n.crypto, v);
      var w :| w in net[v.validator].signed && w.validator == v.validator
        && VotePayload(n.crypto, w) == VotePayload(n.crypto, v);
      OwnVoteBytesInjective(n.crypto, w, v);
      assert Voted(JournalsOf(net), v.validator, v.height, v.round, v.kind, v.hash);
    }
  }

  lemma UnforgedCertificateIsCredible(n: NetConfig, net: Net, cert: FinalityCertificate)
    requires n.crypto.Sound() && UnforgedCertificate(n, net, cert)
    ensures CertificateCredible(n.crypto, JournalsOf(net), cert)
  {
    forall v | v in cert.precommits ensures Credible(n.crypto, JournalsOf(net), v) {
      UnforgedIsCredible(n, net, v);
    }
  }

  lemma DeliverableIsAdmissible(n: NetConfig, net: Net, input: Input)
    requires n.crypto.Sound() && Deliverable(n, net, input)
    ensures Admissible(n.crypto, JournalsOf(net), input)
  {
    match input
    case IncomingVote(v) => UnforgedIsCredible(n, net, v);
    case Defer(v) => UnforgedIsCredible(n, net, v);
    case SyncCertificates(certs) =>
      forall cert | cert in certs ensures CertificateCredible(n.crypto, JournalsOf(net), cert) {
        UnforgedCertificateIsCredible(n, net, cert);
      }
    case _ =>
  }

  // ---------- Runs ----------

  function GenesisOf(n: NetConfig): (g: ChainState)
    ensures g.HasTip()
  {
    Genesis(n.crypto, n.chainId, n.commitment, n.initial)
  }

  /** Every honest node starts from genesis, each at its own time. */
  ghost predicate InitNet(n: NetConfig, net: Net) {
    && net.Keys == n.nodes.Keys
    && (forall id :: id in net ==> StartState(n, id, net[id]))
  }

  ghost predicate StartState(n: NetConfig, id: Id, s: RuntimeState)
    requires id in n.nodes
  {
    exists now :: InitialRuntime(n.nodes[id], GenesisOf(n), Total(PowerMap(n.validators)), now) == Ok(s)
  }

  /** Says nothing; it is the name under which a proof asks for the equation in `MovesTo`. */
  ghost predicate IsOutcome(u: RuntimeState) {
    true
  }

  /** The node's next state is the outcome of the call, t == Step(...). Written like that, the
      equation would make the verifier unfold the whole runtime in every proof that mentions a
      run. Under a quantifier that only fires on `IsOutcome` it stays closed until
      `MovesToStep` asks for it, and it says the same. */
  ghost predicate MovesTo(cfg: NodeConfig, s: RuntimeState, input: Input, now: nat, t: RuntimeState) {
    && s.chain.HasTip()
    && (forall u {:trigger IsOutcome(u)} :: IsOutcome(u) && u == Step(cfg, s, input, now) ==> t == u)
  }

  lemma MovesToStep(cfg: NodeConfig, s: RuntimeState, input: Input, now: nat, t: RuntimeState)
    requires MovesTo(cfg, s, input, now, t)
    ensures t == Step(cfg, s, input, now)
  {
    assert IsOutcome(Step(cfg, s, input, now));
  }

  ghost predicate NodeMoves(n: NetConfig, a: Net, b: Net, id: Id, input: Input, now: nat) {
    && id in a && id in b && id in n.nodes
    && Deliverable(n, a, input)
    && MovesTo(n.nodes[id], a[id], input, now, b[id])
    && b == a[id := b[id]]
  }

  ghost predicate NetStep(n: NetConfig, a: Net, b: Net) {
    exists id, input, now :: NodeMoves(n, a, b, id, input, now)
  }

  ghost predicate IsRun(n: NetConfig, run: seq<Net>) {
    && run != []
    && InitNet(n, run[0])
    && (forall i :: 0 < i < |run| ==> NetStep(n, run[i - 1], run[i]))
  }

  // ---------- The invariant along every run ----------

  ghost predicate NetInv(n: NetConfig, net: Net) {
    && net.Keys == n.nodes.Keys
    && (forall id {:trigger NodeInv(n.nodes[id], JournalsOf(net), net[id])} ::
          id in net ==> NodeInv(n.nodes[id], JournalsOf(net), net[id]))
  }

  lemma StartInv(n: NetConfig, net: Net, id: Id)
    requires Assumptions(n) && InitNet(n, net) && id in net
    ensures NodeInv(n.nodes[id], JournalsOf(net), net[id])
  {
    var cfg := n.nodes[id];
    assert StartState(n, id, net[id]);
    var v := PowerMap(n.validators);
    InitialInv(cfg.crypto, v);
    StartRoundInv(cfg.crypto, InitialState(v, Total(v)), 1, 0);
    assert net[id].signed == {} && JournalsOf(net)[id] == {};
  }

  lemma JournalsMove(cfg: NodeConfig, a: Net, t: RuntimeState)
    requires cfg.me in a && a[cfg.me].signed <= t.signed
    ensures JournalsOf(a[cfg.me := t]) == At(cfg, JournalsOf(a), t)
    ensures Grows(JournalsOf(a), JournalsOf(a[cfg.me := t]))
  {
  }

  /** Replacing one node by a later state of itself keeps every node's invariant. */
  lemma MovedTo(n: NetConfig, a: Net, id: Id, t: RuntimeState)
    requires Honest(n) && NetInv(n, a) && id in a && a[id].signed <= t.signed
    requires NodeInv(n.nodes[id], At(n.nodes[id], JournalsOf(a), t), t)
    ensures NetInv(n, a[id := t]) && Grows(JournalsOf(a), JournalsOf(a[id := t]))
  {
    JournalsMove(n.nodes[id], a, t);
    AllKeep(n, a, a[id := t], id);
  }

  lemma AllKeep(n: NetConfig, a: Net, b: Net, id: Id)
    requires Honest(n) && NetInv(n, a) && id in a && b.Keys == a.Keys && Grows(JournalsOf(a), JournalsOf(b))
    requires forall other :: other in a && other != id ==> a[other] == b[other]
    requires NodeInv(n.nodes[id], JournalsOf(b), b[id])
    ensures NetInv(n, b)
  {
    forall other | other in b ensures NodeInv(n.nodes[other], JournalsOf(b), b[other]) {
      if other != id {
        OtherKeeps(n, a, b, other);
      }
    }
  }

  lemma OtherKeeps(n: NetConfig, a: Net, b: Net, other: Id)
    requires Honest(n) && NetInv(n, a) && other in a && other in b && a[other] == b[other]
    requires Grows(JournalsOf(a), JournalsOf(b))
    ensures NodeInv(n.nodes[other], JournalsOf(b), b[other])
  {
    assert NodeInv(n.nodes[other], JournalsOf(a), a[other]);
    BystanderKeeps(n.nodes[other], a, b);
  }

  lemma BystanderKeeps(cfg: NodeConfig, a: Net, b: Net)
    requires cfg.me in a && cfg.me in b && a[cfg.me] == b[cfg.me]
    requires NodeInv(cfg, JournalsOf(a), a[cfg.me]) && Grows(JournalsOf(a), JournalsOf(b))
    ensures NodeInv(cfg, JournalsOf(b), b[cfg.me])
  {
    NodeInvGrows(cfg, JournalsOf(a), JournalsOf(b), a[cfg.me]);
  }

  lemma MovedKeeps(cfg: NodeConfig, J: Journals, s: RuntimeState, input: Input, now: nat, t: RuntimeState)
    requires NodeInv(cfg, J, s) && Admissible(cfg.crypto, J, input) && MovesTo(cfg, s, input, now, t)
    ensures NodeInv(cfg, At(cfg, J, t), t) && s.signed <= t.signed
  {
    MovesToStep(cfg, s, input, now, t);
    StepKeeps(cfg, J, s, input, now);
  }

  lemma StepInv(n: NetConfig, a: Net, b: Net)
    requires Assumptions(n) && NetInv(n, a) && NetStep(n, a, b)
    ensures NetInv(n, b)
    ensures Grows(JournalsOf(a), JournalsOf(b))
  {
    var id, input, now :| NodeMoves(n, a, b, id, input, now);
    DeliverableIsAdmissible(n, a, input);
    assert NodeInv(n.nodes[id], JournalsOf(a), a[id]);
    MovedKeeps(n.nodes[id], JournalsOf(a), a[id], input, now, b[id]);
    MovedTo(n, a, id, b[id]);
  }

  lemma {:induction false} RunInv(n: NetConfig, run: seq<Net>, i: nat)
    requires Assumptions(n) && IsRun(n, run) && i < |run|
    ensures NetInv(n, run[i])
  {
    if i == 0 {
      forall id | id in run[0] ensures NodeInv(n.nodes[id], JournalsOf(run[0]), run[0][id]) {
        StartInv(n, run[0], id);
      }
    } else {
      RunInv(n, run, i - 1);
      assert NetStep(n, run[i - 1], run[i]);
      StepInv(n, run[i - 1], run[i]);
    }
  }

  lemma RunStep(n: NetConfig, run: seq<Net>, j: nat)
    requires Assumptions(n) && IsRun(n, run) && 0 < j < |run|
    ensures NetInv(n, run[j - 1]) && NetStep(n, run[j - 1], run[j])
  {
    RunInv(n, run, j - 1);
  }

  // ---------- Agreement ----------

  /** An honest member of a certificate has precommitted the certified block. */
  lemma CertifiedVote(n: NetConfig, net: Net, cert: FinalityCertificate, id: Id)
    requires CertificateGenuine(n.crypto, n.validators, JournalsOf(net), cert)
    requires id in Voters(cert.precommits) && id in net
    ensures Voted(JournalsOf(net), id, cert.block.height, cert.round, VoteType.Precommit, cert.block.hash)
  {
    VotersMembers(cert.precommits, id);
    var v :| v in cert.precommits && v.validator == id;
    assert CertificateVote(n.crypto, PowerMap(n.validators), cert, v);
    assert Genuine(JournalsOf(net), v);
  }

  lemma CertificateQuorum(n: NetConfig, J: Journals, cert: FinalityCertificate)
    requires Assumptions(n) && CertificateGenuine(n.crypto, n.validators, J, cert)
    ensures IsQuorum(PowerMap(n.validators), Voters(cert.precommits))
  {
    ListPowerIsTotal(n.validators);
  }

  /** What the invariant says about the votes of one honest node. */
  lemma NodeFacts(n: NetConfig, net: Net, id: Id)
    requires NetInv(n, net) && id in net
    ensures OneHash(net[id].signed) && NeverSwitches(net[id].signed)
    ensures PrecommitsJustified(PowerMap(n.nodes[id].validators), JournalsOf(net), net[id].signed)
    ensures EvidenceSound(n.nodes[id].crypto, net[id].bft.evidence)
  {
    assert NodeInv(n.nodes[id], JournalsOf(net), net[id]);
  }

  /** Behind every certificate stands a quorum of prevotes for its block in its round. */
  lemma CertificatePrevotes(n: NetConfig, net: Net, cert: FinalityCertificate) returns (prevoters: set<Id>)
    requires Assumptions(n) && NetInv(n, net)
    requires CertificateGenuine(n.crypto, n.validators, JournalsOf(net), cert)
    ensures PrevoteQuorum(PowerMap(n.validators), JournalsOf(net), prevoters, cert.block.height, cert.round,
                          cert.block.hash)
  {
    var v, J := PowerMap(n.validators), JournalsOf(net);
    CertificateQuorum(n, J, cert);
    var id := QuorumsShareHonest(v, Voters(cert.precommits), Voters(cert.precommits), n.nodes.Keys);
    CertifiedVote(n, net, cert, id);
    NodeFacts(n, net, id);
    var w: Vote :| w in J[id] && w.height == cert.block.height && w.round == cert.round
      && w.kind == VoteType.Precommit && w.hash == cert.block.hash;
    assert Justifiable(v, J, w);
    prevoters :| PrevoteQuorum(v, J, prevoters, w.height, w.round, w.hash);
  }

  /** Certificates of the same round agree: a common honest voter signs one hash only. */
  lemma SameRoundAgreement(n: NetConfig, net: Net, a: FinalityCertificate, b: FinalityCertificate)
    requires Assumptions(n) && NetInv(n, net)
    requires CertificateGenuine(n.crypto, n.validators, JournalsOf(net), a)
    requires CertificateGenuine(n.crypto, n.validators, JournalsOf(net), b)
    requires a.block.height == b.block.height && a.round == b.round
    ensures a.block.hash == b.block.hash
  {
    CertificateQuorum(n, JournalsOf(net), a);
    CertificateQuorum(n, JournalsOf(net), b);
    var id := QuorumsShareHonest(PowerMap(n.validators), Voters(a.precommits), Voters(b.precommits), n.nodes.Keys);
    CertifiedVote(n, net, a, id);
    CertifiedVote(n, net, b, id);
    NodeFacts(n, net, id);
  }

  /** Certificates of different rounds agree: the later one rests on a prevote quorum, and an
      honest validator that precommitted the earlier block never prevotes another. */
  lemma LaterRoundAgreement(n: NetConfig, net: Net, a: FinalityCertificate, b: FinalityCertificate)
    requires Assumptions(n) && NetInv(n, net)
    requires CertificateGenuine(n.crypto, n.validators, JournalsOf(net), a)
    requires CertificateGenuine(n.crypto, n.validators, JournalsOf(net), b)
    requires a.block.height == b.block.height && a.round < b.round
    ensures a.block.hash == b.block.hash
  {
    var v, J := PowerMap(n.validators), JournalsOf(net);
    CertificateQuorum(n, J, a);
    var prevoters := CertificatePrevotes(n, net, b);
    var both := QuorumsShareHonest(v, Voters(a.precommits), prevoters, n.nodes.Keys);
    CertifiedVote(n, net, a, both);
    assert Voted(J, both, b.block.height, b.round, VoteType.Prevote, b.block.hash);
    NodeFacts(n, net, both);
    var x: Vote :| x in J[both] && x.height == a.block.height && x.round == a.round && x.kind == VoteType.Precommit
      && x.hash == a.block.hash;
    var y: Vote :| y in J[both] && y.height == b.block.height && y.round == b.round && y.kind == VoteType.Prevote
      && y.hash == b.block.hash;
    assert Outlasts(x, y);
  }

  /** Agreement. In any state of any run, any two certificates that verify and contain no
      forged honest vote name the same block when they name the same height, whatever their
      rounds and whoever assembled them. */
  lemma Agreement(n: NetConfig, run: seq<Net>, i: nat, a: FinalityCertificate, b: FinalityCertificate)
    requires Assumptions(n) && IsRun(n, run) && i < |run|
    requires CertificateValid(n.crypto, n.validators, a) && UnforgedCertificate(n, run[i], a)
    requires CertificateValid(n.crypto, n.validators, b) && UnforgedCertificate(n, run[i], b)
    requires a.block.height == b.block.height
    ensures a.block.hash == b.block.hash
  {
    var net := run[i];
    RunInv(n, run, i);
    UnforgedCertificateIsCredible(n, net, a);
    UnforgedCertificateIsCredible(n, net, b);
    ValidIsGenuine(n.crypto, n.validators, JournalsOf(net), a);
    ValidIsGenuine(n.crypto, n.validators, JournalsOf(net), b);
    GenuineAgreement(n, net, a, b);
  }

  lemma UnforgedGrows(n: NetConfig, a: Net, b: Net, v: Vote)
    requires a.Keys == b.Keys && Grows(JournalsOf(a), JournalsOf(b)) && UnforgedVote(n, a, v)
    ensures UnforgedVote(n, b, v)
  {
    var id, bytes := v.validator, VotePayload(n.crypto, v);
    if id in b && n.crypto.verify(id, bytes, v.signature) && HasTag(bytes, VOTE_TAG) {
      var w: Vote :| w in a[id].signed && w.validator == id && VotePayload(n.crypto, w) == bytes;
      assert JournalsOf(a)[id] <= JournalsOf(b)[id] && w in JournalsOf(b)[id];
    }
  }

  /** What is no forgery now is none later. */
  lemma {:induction false} UnforgedLater(n: NetConfig, run: seq<Net>, i: nat, j: nat, cert: FinalityCertificate)
    requires Assumptions(n) && IsRun(n, run) && i <= j < |run| && UnforgedCertificate(n, run[i], cert)
    ensures UnforgedCertificate(n, run[j], cert)
    decreases j - i
  {
    if i < j {
      UnforgedLater(n, run, i, j - 1, cert);
      RunStep(n, run, j);
      UnforgedStep(n, run[j - 1], run[j], cert);
    }
  }

  lemma UnforgedStep(n: NetConfig, a: Net, b: Net, cert: FinalityCertificate)
    requires Assumptions(n) && NetInv(n, a) && NetStep(n, a, b) && UnforgedCertificate(n, a, cert)
    ensures UnforgedCertificate(n, b, cert)
  {
    StepInv(n, a, b);
    forall v | v in cert.precommits ensures UnforgedVote(n, b, v) {
      UnforgedGrows(n, a, b, v);
    }
  }

  /** Agreement over time: certificates that appear at different moments of a run agree, too. */
  lemma AgreementOverTime(n: NetConfig, run: seq<Net>, i: nat, a: FinalityCertificate, j: nat, b: FinalityCertificate)
    requires Assumptions(n) && IsRun(n, run) && i <= j < |run|
    requires CertificateValid(n.crypto, n.validators, a) && UnforgedCertificate(n, run[i], a)
    requires CertificateValid(n.crypto, n.validators, b) && UnforgedCertificate(n, run[j], b)
    requires a.block.height == b.block.height
    ensures a.block.hash == b.block.hash
  {
    UnforgedLater(n, run, i, j, a);
    Agreement(n, run, j, a, b);
  }

  lemma GenuineAgreement(n: NetConfig, net: Net, a: FinalityCertificate, b: FinalityCertificate)
    requires Assumptions(n) && NetInv(n, net)
    requires CertificateGenuine(n.crypto, n.validators, JournalsOf(net), a)
    requires CertificateGenuine(n.crypto, n.validators, JournalsOf(net), b)
    requires a.block.height == b.block.height
    ensures a.block.hash == b.block.hash
  {
    if a.round == b.round {
      SameRoundAgreement(n, net, a, b);
    } else if a.round < b.round {
      LaterRoundAgreement(n, net, a, b);
    } else {
      LaterRoundAgreement(n, net, b, a);
    }
  }

  // ---------- Accountability ----------

  /** Over its whole run an honest node signs at most one hash per height, round and type. */
  lemma HonestSignsOnce(n: NetConfig, run: seq<Net>, i: nat, id: Id, v: Vote, w: Vote)
    requires Assumptions(n) && IsRun(n, run) && i < |run| && id in run[i]
    requires v in run[i][id].signed && w in run[i][id].signed
    requires v.height == w.height && v.round == w.round && v.kind == w.kind
    ensures v.hash == w.hash
  {
    RunInv(n, run, i);
    NodeFacts(n, run[i], id);
  }

  /** No double-vote evidence that verifies, wherever it comes from, names an honest node. */
  lemma EvidenceNeverNamesHonest(n: NetConfig, run: seq<Net>, i: nat, e: DoubleVoteEvidence)
    requires Assumptions(n) && IsRun(n, run) && i < |run|
    requires EvidenceVerified(n.crypto, e) && UnforgedVote(n, run[i], e.first) && UnforgedVote(n, run[i], e.second)
    ensures e.first.validator !in run[i]
  {
    var id, J := e.first.validator, JournalsOf(run[i]);
    RunInv(n, run, i);
    UnforgedIsCredible(n, run[i], e.first);
    UnforgedIsCredible(n, run[i], e.second);
    if id in run[i] {
      NodeFacts(n, run[i], id);
    }
  }

  /** Whatever evidence an honest node records verifies. */
  lemma RecordedEvidenceVerifies(n: NetConfig, run: seq<Net>, i: nat, id: Id, e: DoubleVoteEvidence)
    requires Assumptions(n) && IsRun(n, run) && i < |run| && id in run[i]
    requires e in run[i][id].bft.evidence
    ensures EvidenceVerified(n.crypto, e)
  {
    RunInv(n, run, i);
    NodeFacts(n, run[i], id);
  }
}
