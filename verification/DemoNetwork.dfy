/** The assumptions of the safety theorems can be met: a network with a Byzantine validator
    and a run in which the honest node finalizes a block and stores its certificate. */
module DemoNetwork {
  import opened Basics
  import opened Weights
  import opened Sorting
  import opened Bytes
  import opened Messages
  import opened Quorum
  import opened Ledger
  import opened Bft
  import opened Runtime
  import opened Agreement
  import opened Deferral
  import opened Locks

  // ---------- A sound text encoding and signature check ----------

  /** Three bytes per character. */
  function Wide(text: string): seq<byte> {
    if text == "" then [] else BigEndian(text[0] as int, 3) + Wide(text[1..])
  }

  lemma {:induction false} WideInjective(s: string, t: string)
    requires Wide(s) == Wide(t)
    ensures s == t
  {
    if s != "" && t != "" {
      SplitFixed(BigEndian(s[0] as int, 3), Wide(s[1..]), BigEndian(t[0] as int, 3), Wide(t[1..]));
      assert Span(3) == 256 * Span(2) == 256 * 256 * Span(1) == 0x100_0000;
      BigEndianInjective(s[0] as int, t[0] as int, 3);
      WideInjective(s[1..], t[1..]);
      assert s == [s[0]] + s[1..] && t == [t[0]] + t[1..];
    }
  }

  const SEAL: string := "sealed"

  function DemoCrypto(): Crypto {
    Crypto(
      Wide,
      (id: string, bytes: seq<byte>, signature: string) => signature == SEAL,
      (v: Vote) => v.signature == SEAL,
      (p: SignedProposal) => p.signature == SEAL,
      (b: Block) => if b.height == 0 then "genesis" else "first",
      (chainId: u64, tx: Transaction) => tx.signature == SEAL,
      (r: ValidatorRegistration) => true,
      (r: NodeRewardRegistration) => true)
  }

  lemma DemoSound()
    ensures DemoCrypto().Sound()
  {
    var c := DemoCrypto();
    forall s, t | c.utf8(s) == c.utf8(t) ensures s == t {
      WideInjective(s, t);
    }
  }

  // ---------- The network ----------

  const VALIDATORS: seq<Validator> := [Validator("a", 3), Validator("b", 1)]

  function DemoNode(): NodeConfig {
    NodeConfig(DemoCrypto(), "a", (now: nat, v: Vote) => Some(SEAL), (now: nat, p: SignedProposal) => Some(SEAL),
               VALIDATORS, [], Timeouts(1, 1, 1))
  }

  /** The honest node `a` holds three quarters of the power, `b` is Byzantine. */
  function DemoNet(): NetConfig {
    NetConfig(DemoCrypto(), VALIDATORS, map["a" := DemoNode()], 1, "", map[])
  }

  lemma DemoPower()
    ensures PowerMap(VALIDATORS) == map["a" := 3, "b" := 1]
    ensures Total(PowerMap(VALIDATORS)) == 4
    ensures forall keys: set<Id> :: "a" in keys ==> Sum(PowerMap(VALIDATORS), keys) >= 3
    ensures Sum(PowerMap(VALIDATORS), {"b"}) == 1
  {
    var none: map<Id, nat> := map[];
    assert VALIDATORS[..1] == [Validator("a", 3)] && VALIDATORS[..1][..0] == [];
    assert PowerMap(VALIDATORS[..1]) == none["a" := 3];
    var v := PowerMap(VALIDATORS);
    TotalUpdate(none, "a", 3);
    TotalUpdate(none["a" := 3], "b", 1);
    forall keys: set<Id> | "a" in keys ensures Sum(v, keys) >= 3 {
      SumRemove(v, keys, "a");
    }
    SumRemove(v, {"b"}, "b");
    assert {"b"} - {"b"} == {};
  }

  lemma DemoAssumptions()
    ensures Assumptions(DemoNet())
  {
    DemoSound();
    DemoHonest();
    DemoThird();
  }

  lemma DemoHonest()
    ensures PowerTable(PowerMap(VALIDATORS)) && DistinctIds(VALIDATORS) && Honest(DemoNet())
  {
    DemoPower();
  }

  lemma DemoThird()
    ensures var v := PowerMap(VALIDATORS); 3 * Sum(v, v.Keys - DemoNet().nodes.Keys) <= Total(v)
  {
    DemoPower();
    assert PowerMap(VALIDATORS).Keys - DemoNet().nodes.Keys == {"b"};
  }

  // ---------- The run ----------

  function FirstBlock(): Block { Block(1, "genesis", 0, "a", [], [], "first") }

  function FirstProposal(): SignedProposal { SignedProposal(1, 0, "a", None, FirstBlock(), SEAL) }

  function DemoVote(kind: VoteType): Vote { Vote(1, 0, "a", kind, "first", SEAL) }

  function Started(): BftState {
    BftState(map["a" := 3, "b" := 1], 4, 1, 0, Propose, None, map[], map[], map[], None, None, None, None, [], None)
  }

  function DemoStart(): RuntimeState {
    RuntimeState(GenesisOf(DemoNet()), Started(), None, None, 1, [], [], [], [], {})
  }

  lemma StartsThere()
    ensures InitialRuntime(DemoNode(), GenesisOf(DemoNet()), Total(PowerMap(VALIDATORS)), 0) == Ok(DemoStart())
  {
    DemoPower();
  }

  lemma FirstProposer()
    ensures IsProposer(Started(), "a")
  {
    var keys := Started().validators.Keys;
    assert !TextLe("b", "a");
    assert (set q | q in keys && q != "a" && TextLe(q, "a")) == {};
  }

  function Proposed(): RuntimeState {
    var s := DemoStart();
    s.(bft := s.bft.(proposal := Some("first"), phase := Phase.Prevote), pending := Some(FirstBlock()),
       signed := {DemoVote(VoteType.Prevote)})
  }

  lemma TakesProposal()
    ensures Step(DemoNode(), DemoStart(), Proposal(FirstProposal()), 0) == Proposed()
  {
    FirstProposer();
    assert ReceiveProposal(DemoNode(), DemoStart(), FirstProposal(), 0) == (Proposed(), Ok(DemoVote(VoteType.Prevote)));
  }

  function Seen(kind: VoteType): HistoryKey { HistoryKey(1, 0, kind, "a") }

  /** Locked after its own prevote. */
  function LockedBft(): BftState {
    Proposed().bft.(
      phase := Phase.Precommit, votes := map[VoteKey(VoteType.Prevote, "first") := {"a"}],
      history := map[Seen(VoteType.Prevote) := "first"],
        messages := map[Seen(VoteType.Prevote) := DemoVote(VoteType.Prevote)],
      lockedValue := Some("first"), lockedRound := Some(0), validValue := Some("first"), validRound := Some(0))
  }

  function FinalBft(): BftState {
    var b := LockedBft();
    b.(phase := Finalized, finalized := Some("first"),
       votes := b.votes[VoteKey(VoteType.Precommit, "first") := {"a"}],
       history := b.history[Seen(VoteType.Precommit) := "first"],
       messages := b.messages[Seen(VoteType.Precommit) := DemoVote(VoteType.Precommit)])
  }

  lemma OwnQuorum(kind: VoteType, b: BftState)
    requires b.validators == map["a" := 3, "b" := 1] && b.totalPower == 4 && VotersFor(b, kind, "first") == {"a"}
    ensures HasQuorum(b, kind, "first")
  {
    DemoPower();
  }

  lemma PrevoteLocks()
    ensures Handle(DemoCrypto(), Proposed().bft, DemoVote(VoteType.Prevote)) == (LockedBft(), Ok(()))
  {
    var v := DemoVote(VoteType.Prevote);
    var b := AddVote(Remember(Proposed().bft, v), v);
    OwnQuorum(VoteType.Prevote, b);
  }

  lemma PrecommitFinalizes()
    ensures Handle(DemoCrypto(), LockedBft(), DemoVote(VoteType.Precommit)) == (FinalBft(), Ok(()))
  {
    var v := DemoVote(VoteType.Precommit);
    var b := AddVote(Remember(LockedBft(), v), v);
    OwnQuorum(VoteType.Precommit, b);
  }

  function Locked(): RuntimeState {
    var s := Proposed();
    s.(bft := LockedBft(), validBlock := Some(FirstBlock()), signed := s.signed + {DemoVote(VoteType.Precommit)})
  }

  lemma TakesPrevote()
    ensures Step(DemoNode(), Proposed(), IncomingVote(DemoVote(VoteType.Prevote)), 0) == Locked()
  {
    PrevoteLocks();
  }

  function FirstCertificate(): FinalityCertificate {
    FinalityCertificate(FirstBlock(), 0, [DemoVote(VoteType.Precommit)])
  }

  lemma FirstCertificateValid()
    ensures CertificateValid(DemoCrypto(), VALIDATORS, FirstCertificate())
  {
    DemoPower();
    ListPowerIsTotal(VALIDATORS);
    VotersMembers(FirstCertificate().precommits, "a");
  }

  function Done(): RuntimeState {
    var s := Locked();
    s.(bft := FinalBft(), pending := None, precommits := [DemoVote(VoteType.Precommit)],
       chain := s.chain.(blocks := s.chain.blocks + [FirstBlock()]),
       finalized := [FirstCertificate()], unreported := [FirstCertificate()])
  }

  lemma TakesPrecommit()
    ensures Step(DemoNode(), Locked(), IncomingVote(DemoVote(VoteType.Precommit)), 0) == Done()
  {
    PrecommitFinalizes();
    FirstCertificateValid();
    assert ApplyBlock(DemoCrypto(), Locked().chain, FirstBlock()) == Ok(Done().chain);
  }

  function DemoRun(): seq<Net> {
    [map["a" := DemoStart()], map["a" := Proposed()], map["a" := Locked()], map["a" := Done()]]
  }

  lemma Moves(s: RuntimeState, input: Input, t: RuntimeState)
    requires s.chain.HasTip() && Step(DemoNode(), s, input, 0) == t
    requires Deliverable(DemoNet(), map["a" := s], input)
    requires !input.AdvanceHeight?
    ensures NetStep(DemoNet(), map["a" := s], map["a" := t])
    ensures DrivenStep(DemoNet(), map["a" := s], map["a" := t])
  {
    var a: Net, b: Net := map["a" := s], map["a" := t];
    assert b == a["a" := t];
    assert MovesTo(DemoNode(), s, input, 0, t);
    assert NodeMoves(DemoNet(), a, b, "a", input, 0);
    assert DrivenMove(DemoNet(), a, b, "a", input, 0);
  }

  lemma OwnVoteUnforged(s: RuntimeState, kind: VoteType)
    requires DemoVote(kind) in s.signed
    ensures UnforgedVote(DemoNet(), map["a" := s], DemoVote(kind))
  {
  }

  lemma ProposalMove()
    ensures NetStep(DemoNet(), map["a" := DemoStart()], map["a" := Proposed()])
    ensures DrivenStep(DemoNet(), map["a" := DemoStart()], map["a" := Proposed()])
  {
    TakesProposal();
    Moves(DemoStart(), Proposal(FirstProposal()), Proposed());
  }

  lemma PrevoteMove()
    ensures NetStep(DemoNet(), map["a" := Proposed()], map["a" := Locked()])
    ensures DrivenStep(DemoNet(), map["a" := Proposed()], map["a" := Locked()])
  {
    TakesPrevote();
    OwnVoteUnforged(Proposed(), VoteType.Prevote);
    Moves(Proposed(), IncomingVote(DemoVote(VoteType.Prevote)), Locked());
  }

  lemma PrecommitMove()
    ensures NetStep(DemoNet(), map["a" := Locked()], map["a" := Done()])
    ensures DrivenStep(DemoNet(), map["a" := Locked()], map["a" := Done()])
  {
    TakesPrecommit();
    OwnVoteUnforged(Locked(), VoteType.Precommit);
    Moves(Locked(), IncomingVote(DemoVote(VoteType.Precommit)), Done());
  }

  lemma DemoInit()
    ensures InitNet(DemoNet(), map["a" := DemoStart()])
  {
    StartsThere();
    assert StartState(DemoNet(), "a", DemoStart());
  }

  lemma FourStates(n: NetConfig, a: Net, b: Net, c: Net, d: Net)
    requires InitNet(n, a) && NetStep(n, a, b) && NetStep(n, b, c) && NetStep(n, c, d)
    ensures IsRun(n, [a, b, c, d])
  {
    var run := [a, b, c, d];
    forall i | 0 < i < |run| ensures NetStep(n, run[i - 1], run[i]) {
      assert i == 1 || i == 2 || i == 3;
    }
  }

  lemma DemoIsRun()
    ensures IsRun(DemoNet(), DemoRun()) && IsDrivenRun(DemoNet(), DemoRun())
  {
    DemoInit();
    ProposalMove();
    PrevoteMove();
    PrecommitMove();
    FourStates(DemoNet(), map["a" := DemoStart()], map["a" := Proposed()], map["a" := Locked()], map["a" := Done()]);
    DrivenFour(DemoNet(), map["a" := DemoStart()], map["a" := Proposed()], map["a" := Locked()], map["a" := Done()]);
  }

  lemma DoneStores()
    ensures Done().bft.lockedValue.Some? && |Done().chain.blocks| == 2 && Done().finalized == [FirstCertificate()]
    ensures UnforgedCertificate(DemoNet(), map["a" := Done()], FirstCertificate())
  {
    OwnVoteUnforged(Done(), VoteType.Precommit);
  }

  lemma ByzantineExists()
    ensures PowerMap(DemoNet().validators).Keys - DemoNet().nodes.Keys != {}
  {
    DemoPower();
    assert "b" in PowerMap(DemoNet().validators).Keys - DemoNet().nodes.Keys;
  }

  ghost predicate StoresCertificate(n: NetConfig, net: Net, id: Id)
    requires id in net
  {
    && net[id].bft.lockedValue.Some? && |net[id].chain.blocks| == 2 && |net[id].finalized| == 1
    && CertificateValid(n.crypto, n.validators, net[id].finalized[0])
    && UnforgedCertificate(n, net, net[id].finalized[0])
  }

  lemma DoneStoresCertificate()
    ensures StoresCertificate(DemoNet(), map["a" := Done()], "a")
  {
    DoneStores();
    FirstCertificateValid();
  }

  /** A network that meets every assumption with a Byzantine validator in it, and a run in
      which an honest node stores a certificate. */
  ghost predicate Exhibits(n: NetConfig, run: seq<Net>, i: nat, id: Id) {
    && Assumptions(n) && PowerMap(n.validators).Keys - n.nodes.Keys != {}
    && IsRun(n, run) && IsDrivenRun(n, run) && i < |run| && id in run[i] && StoresCertificate(n, run[i], id)
  }

  lemma Exhibited(n: NetConfig, a: Net, b: Net, c: Net, d: Net, id: Id)
    requires Assumptions(n) && PowerMap(n.validators).Keys - n.nodes.Keys != {}
    requires IsRun(n, [a, b, c, d]) && IsDrivenRun(n, [a, b, c, d]) && id in d && StoresCertificate(n, d, id)
    ensures Exhibits(n, [a, b, c, d], 3, id)
  {
  }

  /** The safety theorems are not about nothing: their assumptions hold of some network and
      some run of it in which an honest node locks, finalizes a block and stores a
      certificate that verifies and contains no forged vote. */
  lemma SafetyIsInhabited()
    ensures exists n, run, i, id :: Exhibits(n, run, i, id)
  {
    DemoAssumptions();
    ByzantineExists();
    DemoIsRun();
    DoneStoresCertificate();
    Exhibited(DemoNet(), map["a" := DemoStart()], map["a" := Proposed()], map["a" := Locked()], map["a" := Done()],
              "a");
  }

  // ---------- Deferral and the driver ----------

  function DemoOpinions(): Opinions {
    (kind: VoteType, id: Id) => if id == "a" then Some("first") else None
  }

  lemma DemoWaits()
    ensures Waits(DemoNode(), DemoOpinions(), DemoStart(), FirstProposal(), 0)
  {
    FirstProposer();
    DemoStartInv();
    assert ReceiveProposal(DemoNode(), DemoStart(), FirstProposal(), 0).1 == Ok(DemoVote(VoteType.Prevote));
  }

  lemma DemoStartInv()
    ensures Inv(DemoCrypto(), Started())
  {
    DemoPower();
    var v := PowerMap(VALIDATORS);
    InitialInv(DemoCrypto(), v);
    StartRoundInv(DemoCrypto(), InitialState(v, Total(v)), 1, 0);
  }

  /** The confluence theorem has cases as well: a node may wait for a proposal while its votes
      arrive in any order. */
  lemma DeferralIsInhabited(arrivals: seq<Arrival>)
    requires Proposals(arrivals) == 1 && |VotesIn(arrivals)| <= MAX_DEFERRED_VOTES
    requires forall a :: a in arrivals && a.AVote? ==>
      a.vote == DemoVote(VoteType.Prevote) || a.vote == DemoVote(VoteType.Precommit)
    ensures Waits(DemoNode(), DemoOpinions(), DemoStart(), FirstProposal(), 0) && DemoStart().deferred == []
    ensures RoundArrivals(DemoNode(), DemoOpinions(), DemoStart().bft, arrivals, 0)
  {
    DemoWaits();
  }

  lemma DrivenFour(n: NetConfig, a: Net, b: Net, c: Net, d: Net)
    requires InitNet(n, a) && DrivenStep(n, a, b) && DrivenStep(n, b, c) && DrivenStep(n, c, d)
    ensures IsDrivenRun(n, [a, b, c, d])
  {
    var run := [a, b, c, d];
    forall i | 0 < i < |run| ensures DrivenStep(n, run[i - 1], run[i]) {
      assert i == 1 || i == 2 || i == 3;
    }
  }
}
