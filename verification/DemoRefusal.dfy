/** Why a replay needs a working signer: a node whose signer refuses at the wrong moment is
    left with a deferred vote that its phase accepts. */
module DemoRefusal {
  import opened Basics
  import opened Weights
  import opened Sorting
  import opened Messages
  import opened Quorum
  import opened Ledger
  import opened Bft
  import opened Runtime
  import opened Safety
  import opened NodeSteps
  import opened DemoNetwork
  import opened DeferredVotes

  const PAIR: seq<Validator> := [Validator("a", 1), Validator("b", 3)]

  /** The signer of `a` answers at time 0 only. */
  function Refusing(): NodeConfig {
    NodeConfig(DemoCrypto(), "a", (now: nat, v: Vote) => if now == 0 then Some(SEAL) else None,
               (now: nat, p: SignedProposal) => Some(SEAL), PAIR, [], Timeouts(1, 1, 1))
  }

  function FromB(kind: VoteType): Vote { Vote(1, 0, "b", kind, "first", SEAL) }

  lemma PairPower()
    ensures PowerMap(PAIR) == map["a" := 1, "b" := 3]
    ensures Total(PowerMap(PAIR)) == 4 && Sum(PowerMap(PAIR), {"b"}) == 3
    ensures ConfigOk(Refusing())
  {
    var none: map<Id, nat> := map[];
    assert PAIR[..1] == [Validator("a", 1)] && PAIR[..1][..0] == [];
    assert PowerMap(PAIR[..1]) == none["a" := 1];
    TotalUpdate(none, "a", 1);
    TotalUpdate(none["a" := 1], "b", 3);
    SumRemove(PowerMap(PAIR), {"b"}, "b");
    assert {"b"} - {"b"} == {};
  }

  function Fresh(): BftState {
    BftState(map["a" := 1, "b" := 3], 4, 1, 0, Propose, None, map[], map[], map[], None, None, None, None, [], None)
  }

  function Before(): RuntimeState {
    RuntimeState(Genesis(DemoCrypto(), 1, "", map[]), Fresh(), None, None, 1, [], [], [], [], {})
  }

  lemma BeforeInv()
    ensures NodeInv(Refusing(), map["a" := {}], Before())
  {
    PairPower();
    var v := PowerMap(PAIR);
    InitialInv(DemoCrypto(), v);
    StartRoundInv(DemoCrypto(), InitialState(v, Total(v)), 1, 0);
  }

  function Voting(): RuntimeState {
    var s := Before();
    s.(bft := s.bft.(proposal := Some("first"), phase := Phase.Prevote), pending := Some(FirstBlock()),
       signed := {DemoVote(VoteType.Prevote)})
  }

  lemma TurnOfA()
    ensures IsProposer(Fresh(), "a")
  {
    var keys := Fresh().validators.Keys;
    assert !TextLe("b", "a");
    assert (set q | q in keys && q != "a" && TextLe(q, "a")) == {};
  }

  lemma VotingInv()
    ensures NodeInv(Refusing(), map["a" := {DemoVote(VoteType.Prevote)}], Voting())
  {
    BeforeInv();
    StartsVoting();
    ReceiveProposalKeeps(Refusing(), map["a" := {}], Before(), FirstProposal(), 0);
    JournalAt();
  }

  lemma StartsVoting()
    ensures ReceiveProposal(Refusing(), Before(), FirstProposal(), 0) == (Voting(), Ok(DemoVote(VoteType.Prevote)))
  {
    TurnOfA();
  }

  lemma JournalAt()
    ensures At(Refusing(), map["a" := {}], Voting()) == map["a" := {DemoVote(VoteType.Prevote)}]
  {
  }

  /** The votes of `b` arrive in the wrong order and are deferred. */
  function Deferring(): RuntimeState {
    Voting().(deferred := [FromB(VoteType.Precommit), FromB(VoteType.Prevote)])
  }

  lemma DeferringInv()
    ensures NodeInv(Refusing(), map["a" := {DemoVote(VoteType.Prevote)}], Deferring())
  {
    VotingInv();
    WithDeferred(Refusing(), map["a" := {DemoVote(VoteType.Prevote)}], Voting(), Deferring().deferred);
  }

  function Stuck(): BftState {
    var key := HistoryKey(1, 0, VoteType.Prevote, "b");
    Voting().bft.(
      phase := Phase.Precommit, votes := map[VoteKey(VoteType.Prevote, "first") := {"b"}],
      history := map[key := "first"], messages := map[key := FromB(VoteType.Prevote)],
      lockedValue := Some("first"), lockedRound := Some(0), validValue := Some("first"), validRound := Some(0))
  }

  lemma QuorumOfB()
    ensures Handle(DemoCrypto(), Voting().bft, FromB(VoteType.Prevote)) == (Stuck(), Ok(()))
  {
    var v := FromB(VoteType.Prevote);
    QuorumByB(AddVote(Remember(Voting().bft, v), v));
  }

  lemma QuorumByB(b: BftState)
    requires b.validators == map["a" := 1, "b" := 3] && b.totalPower == 4
      && VotersFor(b, VoteType.Prevote, "first") == {"b"}
    ensures HasQuorum(b, VoteType.Prevote, "first")
  {
    PairPower();
  }

  /** The prevote completes the quorum, the signer refuses, and the vote is dropped. */
  function After(): RuntimeState {
    Voting().(bft := Stuck(), validBlock := Some(FirstBlock()), deadline := 2, deferred := [])
  }

  lemma PrevoteRefused()
    ensures ReceiveVote(Refusing(), Voting(), FromB(VoteType.Prevote), 1) == (After(), Err(SignerFailed))
  {
    QuorumOfB();
  }

  lemma PrecommitTooEarly()
    ensures ReceiveVote(Refusing(), Voting(), FromB(VoteType.Precommit), 1)
      == (Voting(), Err(ConsensusFault(PhaseMismatch)))
  {
  }

  lemma ReplayRefused()
    ensures ReplayDeferred(Refusing(), Deferring(), [], 1)
      == (After().(deferred := [FromB(VoteType.Precommit)]), Ok([]))
  {
    var votes := Deferring().deferred;
    var start := Sweep(Voting(), [], [], false);
    PrecommitTooEarly();
    PrevoteRefused();
    var once := SweepVote(Refusing(), start, votes[0], 1);
    assert once == Sweep(Voting(), [FromB(VoteType.Precommit)], [], false);
    var twice := SweepVote(Refusing(), once, votes[1], 1);
    assert twice == Sweep(After(), [FromB(VoteType.Precommit)], [], false);
    assert votes[1..][1..] == [];
    assert SweepVotes(Refusing(), once, votes[1..], 1) == twice;
    assert SweepVotes(Refusing(), start, votes, 1) == twice;
    assert Deferring().(deferred := []) == Voting();
  }

  ghost predicate LeavesPlayable(cfg: NodeConfig, J: Journals, s: RuntimeState, now: nat) {
    && cfg.me in J && NodeInv(cfg, J, s)
    && var (t, r) := ReplayDeferred(cfg, s, [], now);
    && r.Ok? && exists v :: v in t.deferred && PhaseAccepts(t.bft.phase, v.kind)
  }

  /** Without a working signer a replay that succeeds can leave a vote that the node's phase
      accepts. */
  lemma RefusalLeavesPlayable()
    ensures exists cfg, J, s, now :: !SignsPrecommit(cfg, s, now) && LeavesPlayable(cfg, J, s, now)
  {
    assert !SignsPrecommit(Refusing(), Deferring(), 1);
    Exhibit();
  }

  lemma Exhibit()
    ensures LeavesPlayable(Refusing(), map["a" := {DemoVote(VoteType.Prevote)}], Deferring(), 1)
  {
    DeferringInv();
    ReplayRefused();
    LeftPlayable(Refusing(), map["a" := {DemoVote(VoteType.Prevote)}], Deferring(),
                 After().(deferred := [FromB(VoteType.Precommit)]), FromB(VoteType.Precommit));
  }

  lemma LeftPlayable(cfg: NodeConfig, J: Journals, s: RuntimeState, t: RuntimeState, v: Vote)
    requires cfg.me in J && NodeInv(cfg, J, s) && ReplayDeferred(cfg, s, [], 1) == (t, Ok([]))
    requires v in t.deferred && PhaseAccepts(t.bft.phase, v.kind)
    ensures LeavesPlayable(cfg, J, s, 1)
  {
  }
}
