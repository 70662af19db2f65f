/** Votes may arrive before the proposal or ahead of their phase; the driver defers and
    replays them. For votes of one round that do not equivocate, every arrival order leads
    to the same phase and the same finalized hash. */
module Deferral {
  import opened Basics
  import opened Messages
  import opened Bft
  import opened Runtime
  import opened Safety

  /** The local signer always answers with a signature that verifies. */
  ghost predicate SignerOk(cfg: NodeConfig) {
    forall now: nat, v: Vote :: v.validator == cfg.me ==>
      cfg.signVote(now, v).Some? && cfg.crypto.voteSigned(v.(signature := cfg.signVote(now, v).value))
  }

  /** What each validator says in this round; a function, so nobody says two things. */
  type Opinions = (VoteType, Id) -> Option<Hash>

  /** A signed vote of a registered validator for the current round, in line with the opinions. */
  ghost predicate Fit(cfg: NodeConfig, b: BftState, says: Opinions, v: Vote) {
    && v.height == b.height && v.round == b.round && v.validator in b.validators
    && cfg.crypto.voteSigned(v)
    && says(v.kind, v.validator) == Some(v.hash)
  }

  ghost predicate AllFit(cfg: NodeConfig, b: BftState, says: Opinions, votes: seq<Vote>) {
    forall v :: v in votes ==> Fit(cfg, b, says, v)
  }

  ghost predicate HistoryAgrees(b: BftState, says: Opinions) {
    forall k :: k in b.history && k.height == b.height && k.round == b.round ==>
      says(k.kind, k.validator) == Some(b.history[k])
  }

  /** The validators among the votes that back a hash. */
  ghost function Backers(votes: seq<Vote>, kind: VoteType, x: Hash): set<Id> {
    set v | v in votes && v.kind == kind && v.hash == x :: v.validator
  }

  ghost predicate OwnOpinion(cfg: NodeConfig, b: BftState, says: Opinions, x: Hash) {
    && cfg.me in b.validators
    && says(VoteType.Prevote, cfg.me) == Some(x) && says(VoteType.Precommit, cfg.me) == Some(x)
  }

  // ---------- One vote ----------

  ghost predicate Core(cfg: NodeConfig, says: Opinions, x: Hash, s: RuntimeState) {
    && SignerOk(cfg)
    && s.chain.HasTip()
    && Inv(cfg.crypto, s.bft)
    && s.bft.proposal == Some(x)
    && s.bft.phase in {Phase.Prevote, Phase.Precommit, Finalized}
    && OwnOpinion(cfg, s.bft, says, x)
    && HistoryAgrees(s.bft, says)
    && Candidate(cfg, s)
  }

  lemma HandleFit(cfg: NodeConfig, says: Opinions, b: BftState, v: Vote)
    requires Fit(cfg, b, says, v) && HistoryAgrees(b, says)
    ensures var (t, r) := Handle(cfg.crypto, b, v);
      && (r.Ok? <==> PhaseAccepts(b.phase, v.kind) && b.proposal == Some(v.hash))
      && (r == Err(PhaseMismatch) <==> !PhaseAccepts(b.phase, v.kind))
      && (!PhaseAccepts(b.phase, v.kind) ==> t == b)
      && HistoryAgrees(t, says)
  {
    HandleFrame(cfg.crypto, b, v);
    var t := Handle(cfg.crypto, b, v).0;
    if PhaseAccepts(b.phase, v.kind) {
      assert KeyOf(v) in b.history ==> b.history[KeyOf(v)] == v.hash;
      assert t.history == Remember(b, v).history;
    }
  }

  ghost predicate Tallies(s: RuntimeState, t: RuntimeState, kind: VoteType, x: Hash, id: Id) {
    && VotersFor(t.bft, kind, x) == VotersFor(s.bft, kind, x) + {id}
    && (forall k :: k != kind ==> VotersFor(t.bft, k, x) == VotersFor(s.bft, k, x))
  }

  lemma RespondShape(cfg: NodeConfig, s: RuntimeState, b: BftState, v: Vote, now: nat)
    requires s.chain.HasTip() && SignerOk(cfg) && b.phase in {Phase.Prevote, Phase.Precommit, Finalized}
    requires b.phase != Finalized ==> CandidateIs(cfg, s) && s.bft.proposal == b.proposal && s.bft.height == b.height
    ensures var (t, r) := Respond(cfg, s, b, Ok(()), v, now);
      && t.bft == b && t.chain.HasTip()
      && Candidate(cfg, t)
      && (b.phase == Phase.Prevote ==> r == Ok(None))
      && (b.phase == Phase.Precommit ==> r.Ok? && r.value.Some? && OwnPrecommit(cfg, b, r.value.value))
      && (b.phase == Finalized ==> (r.Ok? ==> r.value == None) && (r.Err? ==> !Deferable(r.error)))
  {
    var u := AfterVote(cfg, s, b, v, now);
    assert u.bft == b && u.pending == s.pending && u.chain == s.chain;
  }

  ghost predicate OwnPrecommit(cfg: NodeConfig, b: BftState, v: Vote) {
    && v.height == b.height && v.round == b.round && v.validator == cfg.me && v.kind == VoteType.Precommit
    && b.proposal == Some(v.hash) && cfg.crypto.voteSigned(v)
  }

  /** A fitting vote is either left for later, ignored as being for another block, or counted. */
  lemma VoteEffect(cfg: NodeConfig, says: Opinions, x: Hash, s: RuntimeState, v: Vote, now: nat)
    requires Core(cfg, says, x, s) && Fit(cfg, s.bft, says, v)
    ensures var (t, r) := ReceiveVote(cfg, s, v, now);
      && Core(cfg, says, x, t) && SamePosition(s.bft, t.bft)
      && (r.Err? && Deferable(r.error) <==> !PhaseAccepts(s.bft.phase, v.kind))
      && (!PhaseAccepts(s.bft.phase, v.kind) || v.hash != x ==>
            t.bft.votes == s.bft.votes && t.bft.phase == s.bft.phase && r.Err?)
      && (PhaseAccepts(s.bft.phase, v.kind) && v.hash == x ==>
            && Tallies(s, t, v.kind, x, v.validator) && PhaseMoves(s.bft.phase, t.bft.phase)
            && (t.bft.phase == Phase.Precommit ==> r.Ok? && r.value.Some? && OwnPrecommit(cfg, t.bft, r.value.value))
            && (t.bft.phase != Phase.Precommit && r.Ok? ==> r.value == None)
            && (r.Err? ==> t.bft.phase == Finalized))
  {
    if PhaseAccepts(s.bft.phase, v.kind) && v.hash == x {
      VoteCounted(cfg, says, x, s, v, now);
    } else {
      VotePassedOver(cfg, says, x, s, v, now);
    }
  }

  lemma VotePassedOver(cfg: NodeConfig, says: Opinions, x: Hash, s: RuntimeState, v: Vote, now: nat)
    requires Core(cfg, says, x, s) && Fit(cfg, s.bft, says, v)
    requires !PhaseAccepts(s.bft.phase, v.kind) || v.hash != x
    ensures var (t, r) := ReceiveVote(cfg, s, v, now);
      && Core(cfg, says, x, t) && SamePosition(s.bft, t.bft)
      && (r.Err? && Deferable(r.error) <==> !PhaseAccepts(s.bft.phase, v.kind))
      && t.bft.votes == s.bft.votes && t.bft.phase == s.bft.phase && r.Err?
  {
    HandleFit(cfg, says, s.bft, v);
    HandleFrame(cfg.crypto, s.bft, v);
    HandleInv(cfg.crypto, s.bft, v);
  }

  lemma VoteCounted(cfg: NodeConfig, says: Opinions, x: Hash, s: RuntimeState, v: Vote, now: nat)
    requires Core(cfg, says, x, s) && Fit(cfg, s.bft, says, v)
    requires PhaseAccepts(s.bft.phase, v.kind) && v.hash == x
    ensures var (t, r) := ReceiveVote(cfg, s, v, now);
      && Core(cfg, says, x, t) && SamePosition(s.bft, t.bft)
      && (r.Err? ==> !Deferable(r.error))
      && Tallies(s, t, v.kind, x, v.validator) && PhaseMoves(s.bft.phase, t.bft.phase)
      && (t.bft.phase == Phase.Precommit ==> r.Ok? && r.value.Some? && OwnPrecommit(cfg, t.bft, r.value.value))
      && (t.bft.phase != Phase.Precommit && r.Ok? ==> r.value == None)
      && (r.Err? ==> t.bft.phase == Finalized)
  {
    HandleFit(cfg, says, s.bft, v);
    HandleFrame(cfg.crypto, s.bft, v);
    HandleInv(cfg.crypto, s.bft, v);
    RespondShape(cfg, s, Handle(cfg.crypto, s.bft, v).0, v, now);
  }

  // ---------- The invariant of deferral ----------

  /** Votes counted so far were cast. */
  ghost predicate OnlyCast(cfg: NodeConfig, x: Hash, s: RuntimeState, cast: seq<Vote>) {
    && VotersFor(s.bft, VoteType.Prevote, x) <= Backers(cast, VoteType.Prevote, x) + {cfg.me}
    && VotersFor(s.bft, VoteType.Precommit, x) <= Backers(cast, VoteType.Precommit, x) + {cfg.me}
  }

  /** Votes cast are counted or still in the pool. */
  ghost predicate AllCast(cfg: NodeConfig, x: Hash, s: RuntimeState, cast: seq<Vote>, pool: seq<Vote>) {
    && (s.bft.phase != Finalized ==>
          Backers(cast, VoteType.Prevote, x) + {cfg.me}
            <= VotersFor(s.bft, VoteType.Prevote, x) + Backers(pool, VoteType.Prevote, x))
    && (s.bft.phase == Phase.Prevote ==>
          Backers(cast, VoteType.Precommit, x) <= Backers(pool, VoteType.Precommit, x))
    && (s.bft.phase == Phase.Precommit ==>
          Backers(cast, VoteType.Precommit, x) + {cfg.me}
            <= VotersFor(s.bft, VoteType.Precommit, x) + Backers(pool, VoteType.Precommit, x))
  }

  ghost predicate Progress(cfg: NodeConfig, says: Opinions, x: Hash, s: RuntimeState, cast: seq<Vote>,
                           pool: seq<Vote>) {
    Core(cfg, says, x, s) && OnlyCast(cfg, x, s, cast) && AllCast(cfg, x, s, cast, pool)
  }

  /** The phase the cast votes lead to, whatever their order. */
  ghost function SettledPhase(cfg: NodeConfig, b: BftState, x: Hash, cast: seq<Vote>): Phase {
    if !QuorumIn(b.validators, b.totalPower, Backers(cast, VoteType.Prevote, x) + {cfg.me}) then Phase.Prevote
    else if !QuorumIn(b.validators, b.totalPower, Backers(cast, VoteType.Precommit, x) + {cfg.me}) then Phase.Precommit
    else Finalized
  }

  ghost predicate Blocked(s: RuntimeState, votes: seq<Vote>) {
    forall v :: v in votes ==> !PhaseAccepts(s.bft.phase, v.kind)
  }

  /** Once only blocked votes are left, the phase is the settled one. */
  lemma SettledWhenBlocked(cfg: NodeConfig, says: Opinions, x: Hash, s: RuntimeState, cast: seq<Vote>, pool: seq<Vote>)
    requires Progress(cfg, says, x, s, cast, pool) && Blocked(s, pool)
    ensures s.bft.phase == SettledPhase(cfg, s.bft, x, cast)
    ensures s.bft.finalized == if s.bft.phase == Finalized then Some(x) else None
  {
    var prevoters, precommitters := Backers(cast, VoteType.Prevote, x) + {cfg.me},
      Backers(cast, VoteType.Precommit, x) + {cfg.me};
    assert Backers(pool, VoteType.Prevote, x) == {};
    match s.bft.phase
    case Prevote =>
      assert VotersFor(s.bft, VoteType.Prevote, x) == prevoters;
    case Precommit =>
      assert Backers(pool, VoteType.Precommit, x) == {};
      assert VotersFor(s.bft, VoteType.Prevote, x) == prevoters;
      assert VotersFor(s.bft, VoteType.Precommit, x) == precommitters;
    case Finalized =>
      QuorumGrows(s.bft.validators, s.bft.totalPower, VotersFor(s.bft, VoteType.Prevote, x), prevoters);
      QuorumGrows(s.bft.validators, s.bft.totalPower, VotersFor(s.bft, VoteType.Precommit, x), precommitters);
  }

  lemma BackersCons(v: Vote, pool: seq<Vote>, kind: VoteType, x: Hash)
    ensures Backers([v] + pool, kind, x)
      == Backers(pool, kind, x) + (if v.kind == kind && v.hash == x then {v.validator} else {})
  {
    var b := Backers(pool, kind, x) + (if v.kind == kind && v.hash == x then {v.validator} else {});
    forall id ensures id in Backers([v] + pool, kind, x) <==> id in b {
      if id in Backers([v] + pool, kind, x) {
        var w :| w in [v] + pool && w.kind == kind && w.hash == x && w.validator == id;
        assert w == v || w in pool;
      }
      if v.kind == kind && v.hash == x && id == v.validator {
        assert v in [v] + pool;
      }
      if id in Backers(pool, kind, x) {
        var w :| w in pool && w.kind == kind && w.hash == x && w.validator == id;
        assert w in [v] + pool;
      }
    }
  }

  lemma BackersIn(votes: seq<Vote>, v: Vote)
    requires v in votes
    ensures v.validator in Backers(votes, v.kind, v.hash)
  {
  }

  /** A vote followed by the node's own precommit if it produced one. */
  ghost function PlayThrough(cfg: NodeConfig, s: RuntimeState, v: Vote, now: nat): (t: RuntimeState)
    requires s.chain.HasTip()
    ensures t.chain.HasTip() && t.deferred == s.deferred
  {
    var (t, r) := ReceiveVote(cfg, s, v, now);
    if r.Ok? && r.value.Some? then ReceiveVote(cfg, t, r.value.value, now).0 else t
  }

  lemma OwnFits(cfg: NodeConfig, says: Opinions, x: Hash, s: RuntimeState, v: Vote)
    requires Core(cfg, says, x, s) && OwnPrecommit(cfg, s.bft, v)
    ensures Fit(cfg, s.bft, says, v) && v.hash == x
      && PhaseAccepts(s.bft.phase, v.kind) == (s.bft.phase != Phase.Prevote)
  {
  }

  /** Playing a counted vote removes it from the pool without losing anything. */
  lemma PlayCounted(cfg: NodeConfig, says: Opinions, x: Hash, s: RuntimeState, cast: seq<Vote>, v: Vote,
                    pool: seq<Vote>, now: nat)
    requires Progress(cfg, says, x, s, cast, [v] + pool)
    requires Fit(cfg, s.bft, says, v) && PhaseAccepts(s.bft.phase, v.kind) && v.hash == x
    requires v in cast || v.validator == cfg.me
    ensures Progress(cfg, says, x, PlayThrough(cfg, s, v, now), cast, pool)
    ensures SamePosition(s.bft, PlayThrough(cfg, s, v, now).bft)
  {
    VoteEffect(cfg, says, x, s, v, now);
    if v in cast {
      BackersIn(cast, v);
    }
    BackersCons(v, pool, VoteType.Prevote, x);
    BackersCons(v, pool, VoteType.Precommit, x);
    var (t, r) := ReceiveVote(cfg, s, v, now);
    if r.Ok? && r.value.Some? {
      OwnFits(cfg, says, x, t, r.value.value);
      VoteEffect(cfg, says, x, t, r.value.value, now);
    }
  }

  /** Playing a vote for another block changes no tally. */
  lemma PlayIgnored(cfg: NodeConfig, says: Opinions, x: Hash, s: RuntimeState, cast: seq<Vote>, v: Vote,
                    pool: seq<Vote>, now: nat)
    requires Progress(cfg, says, x, s, cast, [v] + pool)
    requires Fit(cfg, s.bft, says, v) && PhaseAccepts(s.bft.phase, v.kind) && v.hash != x
    ensures Progress(cfg, says, x, PlayThrough(cfg, s, v, now), cast, pool)
    ensures SamePosition(s.bft, PlayThrough(cfg, s, v, now).bft)
  {
    VoteEffect(cfg, says, x, s, v, now);
    BackersCons(v, pool, VoteType.Prevote, x);
    BackersCons(v, pool, VoteType.Precommit, x);
  }

  // ---------- Replay ----------

  /** The votes a sweep still has to account for. */
  function PoolOf(w: Sweep, todo: seq<Vote>): seq<Vote>
    requires w.Sweep?
  {
    todo + w.remaining
  }

  ghost predicate SweepProgress(cfg: NodeConfig, says: Opinions, x: Hash, w: Sweep, cast: seq<Vote>, todo: seq<Vote>) {
    && w.Sweep?
    && Progress(cfg, says, x, w.state, cast, PoolOf(w, todo))
    && AllFit(cfg, w.state.bft, says, PoolOf(w, todo))
    && (forall v :: v in PoolOf(w, todo) ==> v in cast)
    && (!w.progressed ==> Blocked(w.state, w.remaining))
    && w.state.deferred == []
  }

  /** Where a sweep may stop early: finalized, with nothing deferred. */
  ghost predicate Stopped(cfg: NodeConfig, says: Opinions, x: Hash, s: RuntimeState, cast: seq<Vote>) {
    Progress(cfg, says, x, s, cast, []) && s.bft.phase == Finalized && s.deferred == []
  }

  lemma FitMoves(cfg: NodeConfig, says: Opinions, b: BftState, c: BftState, votes: seq<Vote>)
    requires AllFit(cfg, b, says, votes) && SamePosition(b, c)
    ensures AllFit(cfg, c, says, votes)
  {
    forall v | v in votes ensures Fit(cfg, c, says, v) {
      assert Fit(cfg, b, says, v);
    }
  }

  /** Taking a vote from the front and putting it at the back keeps the pool. */
  lemma PoolRotates(cfg: NodeConfig, x: Hash, s: RuntimeState, cast: seq<Vote>, v: Vote, rest: seq<Vote>,
                    remaining: seq<Vote>)
    requires AllCast(cfg, x, s, cast, [v] + rest + remaining)
    ensures AllCast(cfg, x, s, cast, rest + (remaining + [v]))
  {
    forall kind ensures Backers([v] + rest + remaining, kind, x) == Backers(rest + (remaining + [v]), kind, x) {
      assert forall w :: w in [v] + rest + remaining <==> w in rest + (remaining + [v]);
    }
  }

  lemma SweepVoteDefers(cfg: NodeConfig, says: Opinions, x: Hash, w: Sweep, cast: seq<Vote>, v: Vote, rest: seq<Vote>,
                        now: nat)
    requires SweepProgress(cfg, says, x, w, cast, [v] + rest) && !PhaseAccepts(w.state.bft.phase, v.kind)
    ensures SweepProgress(cfg, says, x, SweepVote(cfg, w, v, now), cast, rest)
    ensures SamePosition(w.state.bft, SweepVote(cfg, w, v, now).state.bft)
  {
    var s := w.state;
    assert v in PoolOf(w, [v] + rest);
    HandleFit(cfg, says, s.bft, v);
    assert ReceiveVote(cfg, s, v, now) == (s, Err(ConsensusFault(PhaseMismatch)));
    var next := SweepVote(cfg, w, v, now);
    assert next == Sweep(s, w.remaining + [v], w.outbound, w.progressed);
    PoolRotates(cfg, x, s, cast, v, rest, w.remaining);
    forall u | u in PoolOf(next, rest) ensures Fit(cfg, s.bft, says, u) && u in cast {
      assert u in PoolOf(w, [v] + rest);
    }
  }

  lemma SweepVotePlays(cfg: NodeConfig, says: Opinions, x: Hash, w: Sweep, cast: seq<Vote>, v: Vote, rest: seq<Vote>,
                       now: nat)
    requires SweepProgress(cfg, says, x, w, cast, [v] + rest) && PhaseAccepts(w.state.bft.phase, v.kind)
    ensures var next := SweepVote(cfg, w, v, now);
      && SamePosition(w.state.bft, next.state.bft)
      && (if next.Sweep? then SweepProgress(cfg, says, x, next, cast, rest)
          else Stopped(cfg, says, x, next.state, cast))
  {
    var s, pool := w.state, rest + w.remaining;
    assert PoolOf(w, [v] + rest) == [v] + pool;
    assert v in PoolOf(w, [v] + rest);
    PlayedSweep(cfg, says, x, w, cast, v, rest, now);
    if v.hash == x {
      PlayCounted(cfg, says, x, s, cast, v, pool, now);
    } else {
      PlayIgnored(cfg, says, x, s, cast, v, pool, now);
    }
    var next := SweepVote(cfg, w, v, now);
    FitMoves(cfg, says, s.bft, next.state.bft, pool);
  }

  /** How a sweep treats a vote that its phase accepts. */
  lemma PlayedSweep(cfg: NodeConfig, says: Opinions, x: Hash, w: Sweep, cast: seq<Vote>, v: Vote, rest: seq<Vote>,
                    now: nat)
    requires w.Sweep? && Core(cfg, says, x, w.state) && Fit(cfg, w.state.bft, says, v)
      && PhaseAccepts(w.state.bft.phase, v.kind)
    requires !w.progressed ==> Blocked(w.state, w.remaining)
    ensures var next := SweepVote(cfg, w, v, now);
      && next.state == PlayThrough(cfg, w.state, v, now)
      && (next.Aborted? ==> next.state.bft.phase == Finalized)
      && (next.Sweep? ==> next.remaining == w.remaining && (!next.progressed ==> Blocked(next.state, next.remaining)))
  {
    var s := w.state;
    VoteEffect(cfg, says, x, s, v, now);
    var (t, r) := ReceiveVote(cfg, s, v, now);
    if r.Ok? && r.value.Some? {
      OwnFits(cfg, says, x, t, r.value.value);
      VoteEffect(cfg, says, x, t, r.value.value, now);
    } else if r.Err? && s.bft.phase == Phase.Precommit && w.remaining != [] && !w.progressed {
      assert w.remaining[0] in w.remaining;
    }
  }

  lemma {:induction false} SweepVotesProgress(cfg: NodeConfig, says: Opinions, x: Hash, w: Sweep, cast: seq<Vote>,
                                              todo: seq<Vote>, now: nat)
    requires SweepProgress(cfg, says, x, w, cast, todo)
    ensures var next := SweepVotes(cfg, w, todo, now);
      && SamePosition(w.state.bft, next.state.bft)
      && (if next.Sweep? then SweepProgress(cfg, says, x, next, cast, []) else Stopped(cfg, says, x, next.state, cast))
    decreases |todo|
  {
    if todo != [] {
      assert [todo[0]] + todo[1..] == todo;
      if PhaseAccepts(w.state.bft.phase, todo[0].kind) {
        SweepVotePlays(cfg, says, x, w, cast, todo[0], todo[1..], now);
      } else {
        SweepVoteDefers(cfg, says, x, w, cast, todo[0], todo[1..], now);
      }
      var next := SweepVote(cfg, w, todo[0], now);
      if next.Sweep? {
        SweepVotesProgress(cfg, says, x, next, cast, todo[1..], now);
      }
    }
  }

  /** A node between driver calls: everything cast is counted or deferred, and whatever is
      deferred is a fitting vote of the round. */
  ghost predicate Resting(cfg: NodeConfig, says: Opinions, x: Hash, s: RuntimeState, cast: seq<Vote>) {
    && Progress(cfg, says, x, s, cast, s.deferred)
    && AllFit(cfg, s.bft, says, s.deferred)
    && (forall v :: v in s.deferred ==> v in cast)
  }

  /** Replay ends with nothing left but votes of the current round that the phase blocks. */
  lemma {:induction false} ReplaySettles(cfg: NodeConfig, says: Opinions, x: Hash, s: RuntimeState, cast: seq<Vote>,
                                         outbound: seq<Vote>, now: nat)
    requires Resting(cfg, says, x, s, cast)
    ensures var t := ReplayDeferred(cfg, s, outbound, now).0;
      && Resting(cfg, says, x, t, cast) && Blocked(t, t.deferred)
      && SamePosition(s.bft, t.bft) && |t.deferred| <= |s.deferred|
    decreases |s.deferred|
  {
    SweepSettles(cfg, says, x, s, cast, outbound, now);
    var w := SweepVotes(cfg, Sweep(s.(deferred := []), [], outbound, false), s.deferred, now);
    if w.Sweep? && w.progressed {
      ReplaySettles(cfg, says, x, w.state.(deferred := w.remaining), cast, w.outbound, now);
    }
  }

  lemma SweepSettles(cfg: NodeConfig, says: Opinions, x: Hash, s: RuntimeState, cast: seq<Vote>, outbound: seq<Vote>,
                     now: nat)
    requires Resting(cfg, says, x, s, cast)
    ensures var w := SweepVotes(cfg, Sweep(s.(deferred := []), [], outbound, false), s.deferred, now);
      var u := if w.Sweep? then w.state.(deferred := w.remaining) else w.state;
      && Resting(cfg, says, x, u, cast) && SamePosition(s.bft, u.bft) && |u.deferred| <= |s.deferred|
      && (w.Aborted? || !w.progressed ==> Blocked(u, u.deferred))
  {
    var start := Sweep(s.(deferred := []), [], outbound, false);
    assert PoolOf(start, s.deferred) == s.deferred;
    assert SweepProgress(cfg, says, x, start, cast, s.deferred);
    SweepVotesProgress(cfg, says, x, start, cast, s.deferred, now);
    var w := SweepVotes(cfg, start, s.deferred, now);
    if w.Sweep? {
      assert PoolOf(w, []) == w.remaining;
    }
  }

  // ---------- The driver ----------

  /** The network hands the node one proposal of the round and votes, in some order and each at
      its own time. */
  datatype Arrival = TheProposal(at: nat) | AVote(vote: Vote, at: nat)

  /** src/main.rs:1075-1107 without the step to the next height. */
  ghost function OnProposal(cfg: NodeConfig, s: RuntimeState, p: SignedProposal, now: nat): (t: RuntimeState)
    requires s.chain.HasTip()
    ensures t.chain.HasTip()
  {
    var (t, r) := ReceiveProposal(cfg, s, p, now);
    if r.Err? then t else ReplayDeferred(cfg, PlayThrough(cfg, t, r.value, now), [], now).0
  }

  ghost function OnVote(cfg: NodeConfig, s: RuntimeState, v: Vote, now: nat): (t: RuntimeState)
    requires s.chain.HasTip()
    ensures t.chain.HasTip()
  {
    var (t, r) := ReceiveVote(cfg, s, v, now);
    var u := if r.Err? && Deferable(r.error) then DeferVote(t, v) else PlayThrough(cfg, s, v, now);
    ReplayDeferred(cfg, u, [], now).0
  }

  ghost function Fold<S, E>(f: (S, E) -> S, s: S, events: seq<E>): S
    decreases |events|
  {
    if events == [] then s else Fold(f, f(s, events[0]), events[1..])
  }

  ghost function Driver(cfg: NodeConfig, p: SignedProposal): (RuntimeState, Arrival) -> RuntimeState {
    (s: RuntimeState, a: Arrival) =>
      if !s.chain.HasTip() then s
      else match a case TheProposal(at) => OnProposal(cfg, s, p, at) case AVote(v, at) => OnVote(cfg, s, v, at)
  }

  ghost function Drive(cfg: NodeConfig, s: RuntimeState, p: SignedProposal, arrivals: seq<Arrival>): RuntimeState {
    Fold(Driver(cfg, p), s, arrivals)
  }

  function VotesIn(arrivals: seq<Arrival>): seq<Vote> {
    if arrivals == [] then []
    else (match arrivals[0] case TheProposal(_) => [] case AVote(v, _) => [v]) + VotesIn(arrivals[1..])
  }

  function Proposals(arrivals: seq<Arrival>): nat {
    if arrivals == [] then 0 else (if arrivals[0].TheProposal? then 1 else 0) + Proposals(arrivals[1..])
  }

  // ---------- After the proposal ----------

  lemma CastOneMore(cfg: NodeConfig, says: Opinions, x: Hash, s: RuntimeState, cast: seq<Vote>, pool: seq<Vote>,
                    v: Vote)
    requires Progress(cfg, says, x, s, cast, pool)
    ensures Progress(cfg, says, x, s, cast + [v], [v] + pool)
  {
    forall kind ensures Backers(cast + [v], kind, x) == Backers([v] + cast, kind, x) {
      assert forall w :: w in cast + [v] <==> w in [v] + cast;
    }
    BackersCons(v, cast, VoteType.Prevote, x);
    BackersCons(v, cast, VoteType.Precommit, x);
    BackersCons(v, pool, VoteType.Prevote, x);
    BackersCons(v, pool, VoteType.Precommit, x);
  }

  lemma DeferredPool(cfg: NodeConfig, x: Hash, s: RuntimeState, cast: seq<Vote>, v: Vote)
    requires AllCast(cfg, x, s, cast, [v] + s.deferred) && |s.deferred| < MAX_DEFERRED_VOTES
    ensures AllCast(cfg, x, s, cast, DeferVote(s, v).deferred)
  {
    var d := DeferVote(s, v).deferred;
    forall kind ensures Backers([v] + s.deferred, kind, x) <= Backers(d, kind, x) {
      BackersCons(v, s.deferred, kind, x);
      forall w | w in s.deferred ensures w in d {
      }
      if v.kind == kind && v.hash == x {
        if KnownDeferred(s.deferred, v) {
          var w :| w in s.deferred && SameStatement(w, v);
          BackersIn(d, w);
        } else {
          assert v in d;
          BackersIn(d, v);
        }
      }
    }
  }

  lemma OnVoteRests(cfg: NodeConfig, says: Opinions, x: Hash, s: RuntimeState, cast: seq<Vote>, v: Vote, now: nat)
    requires Resting(cfg, says, x, s, cast) && Fit(cfg, s.bft, says, v) && |s.deferred| <= |cast| < MAX_DEFERRED_VOTES
    ensures var t := OnVote(cfg, s, v, now);
      && Resting(cfg, says, x, t, cast + [v]) && Blocked(t, t.deferred)
      && SamePosition(s.bft, t.bft) && |t.deferred| <= |cast| + 1
  {
    CastOneMore(cfg, says, x, s, cast, s.deferred, v);
    VoteEffect(cfg, says, x, s, v, now);
    if PhaseAccepts(s.bft.phase, v.kind) {
      var u := PlayThrough(cfg, s, v, now);
      if v.hash == x {
        PlayCounted(cfg, says, x, s, cast + [v], v, s.deferred, now);
      } else {
        PlayIgnored(cfg, says, x, s, cast + [v], v, s.deferred, now);
      }
      FitMoves(cfg, says, s.bft, u.bft, s.deferred);
      ReplaySettles(cfg, says, x, u, cast + [v], [], now);
    } else {
      HandleFit(cfg, says, s.bft, v);
      assert ReceiveVote(cfg, s, v, now).0 == s;
      var u := DeferVote(s, v);
      DeferredPool(cfg, x, s, cast + [v], v);
      assert u.bft == s.bft && Core(cfg, says, x, u);
      assert forall w :: w in u.deferred ==> w in s.deferred || w == v;
      assert Resting(cfg, says, x, u, cast + [v]);
      ReplaySettles(cfg, says, x, u, cast + [v], [], now);
    }
  }

  // ---------- Two-stage folds ----------

  lemma VotesInFirst(arrivals: seq<Arrival>, cast: seq<Vote>)
    requires arrivals != [] && arrivals[0].AVote?
    ensures var v, rest := arrivals[0].vote, VotesIn(arrivals[1..]);
      && v in VotesIn(arrivals) && (forall w :: w in rest ==> w in VotesIn(arrivals))
      && |VotesIn(arrivals)| == 1 + |rest| && cast + [v] + rest == cast + VotesIn(arrivals)
  {
    assert VotesIn(arrivals) == [arrivals[0].vote] + VotesIn(arrivals[1..]);
  }

  /** If each vote keeps `after`, any tail of votes does. */
  lemma {:induction false} FoldVotes<S(!new)>(f: (S, Arrival) -> S, after: (S, seq<Vote>) -> bool, ok: Arrival -> bool,
                                              limit: nat, s: S, cast: seq<Vote>, arrivals: seq<Arrival>)
    requires after(s, cast) && Proposals(arrivals) == 0 && |cast| + |VotesIn(arrivals)| <= limit
    requires forall a :: a in arrivals ==> ok(a)
    requires forall t, c, a: Arrival :: a.AVote? && after(t, c) && ok(a) && |c| < limit ==> after(f(t, a), c + [a.vote])
    ensures after(Fold(f, s, arrivals), cast + VotesIn(arrivals))
    decreases |arrivals|
  {
    if arrivals == [] {
      assert cast + VotesIn(arrivals) == cast;
    } else {
      VotesInFirst(arrivals, cast);
      assert arrivals[0] in arrivals;
      FoldVotes(f, after, ok, limit, f(s, arrivals[0]), cast + [arrivals[0].vote], arrivals[1..]);
    }
  }

  /** `before` up to the proposal, `after` from then on. */
  lemma {:induction false} FoldArrivals<S(!new)>(f: (S, Arrival) -> S, before: (S, seq<Vote>) -> bool,
                                                 after: (S, seq<Vote>) -> bool, ok: Arrival -> bool, limit: nat, s: S,
                                                 cast: seq<Vote>, arrivals: seq<Arrival>)
    requires before(s, cast) && Proposals(arrivals) == 1 && |cast| + |VotesIn(arrivals)| <= limit
    requires forall a :: a in arrivals ==> ok(a)
    requires forall t, c, a: Arrival ::
      a.AVote? && before(t, c) && ok(a) && |c| < limit ==> before(f(t, a), c + [a.vote])
    requires forall t, c, a: Arrival :: a.TheProposal? && before(t, c) && ok(a) ==> after(f(t, a), c)
    requires forall t, c, a: Arrival :: a.AVote? && after(t, c) && ok(a) && |c| < limit ==> after(f(t, a), c + [a.vote])
    ensures after(Fold(f, s, arrivals), cast + VotesIn(arrivals))
    decreases |arrivals|
  {
    var a := arrivals[0];
    assert a in arrivals;
    if a.TheProposal? {
      assert VotesIn(arrivals) == VotesIn(arrivals[1..]);
      FoldVotes(f, after, ok, limit, f(s, a), cast, arrivals[1..]);
    } else {
      VotesInFirst(arrivals, cast);
      FoldArrivals(f, before, after, ok, limit, f(s, a), cast + [a.vote], arrivals[1..]);
    }
  }

  // ---------- Before the proposal ----------

  /** A node waiting for the proposal, which it would accept now, in a round it has not voted in. */
  ghost predicate Waits(cfg: NodeConfig, says: Opinions, s: RuntimeState, p: SignedProposal, now: nat) {
    && SignerOk(cfg)
    && s.chain.HasTip()
    && Inv(cfg.crypto, s.bft)
    && s.bft.phase == Propose && s.pending == None
    && OwnOpinion(cfg, s.bft, says, p.block.hash)
    && HistoryAgrees(s.bft, says)
    && ReceiveProposal(cfg, s, p, now).1.Ok?
  }

  /** A proposal that is acceptable now stays acceptable. */
  lemma WaitsLater(cfg: NodeConfig, says: Opinions, s: RuntimeState, p: SignedProposal, now: nat, at: nat)
    requires Waits(cfg, says, s, p, now) && now <= at
    ensures Waits(cfg, says, s, p, at)
  {
  }

  /** Every early vote is deferred, once. */
  ghost predicate Held(cfg: NodeConfig, says: Opinions, s: RuntimeState, cast: seq<Vote>) {
    && AllFit(cfg, s.bft, says, s.deferred)
    && (forall v :: v in s.deferred ==> v in cast)
    && (forall v :: v in cast ==> KnownDeferred(s.deferred, v))
    && |s.deferred| <= |cast|
  }

  lemma EarlyVote(cfg: NodeConfig, says: Opinions, s: RuntimeState, v: Vote, now: nat)
    requires s.chain.HasTip() && s.bft.phase == Propose && Fit(cfg, s.bft, says, v) && HistoryAgrees(s.bft, says)
    ensures ReceiveVote(cfg, s, v, now) == (s, Err(ConsensusFault(PhaseMismatch)))
  {
    HandleFit(cfg, says, s.bft, v);
  }

  lemma {:induction false} EarlySweep(cfg: NodeConfig, says: Opinions, w: Sweep, todo: seq<Vote>, now: nat)
    requires w.Sweep? && w.state.chain.HasTip() && w.state.bft.phase == Propose
    requires AllFit(cfg, w.state.bft, says, todo) && HistoryAgrees(w.state.bft, says)
    ensures SweepVotes(cfg, w, todo, now) == Sweep(w.state, w.remaining + todo, w.outbound, w.progressed)
    decreases |todo|
  {
    if todo == [] {
      assert w.remaining + todo == w.remaining;
    } else {
      EarlySweepVote(cfg, says, w, todo[0], now);
      EarlySweep(cfg, says, Sweep(w.state, w.remaining + [todo[0]], w.outbound, w.progressed), todo[1..], now);
      MoveOver(w.remaining, todo);
    }
  }

  lemma EarlySweepVote(cfg: NodeConfig, says: Opinions, w: Sweep, v: Vote, now: nat)
    requires w.Sweep? && w.state.chain.HasTip() && w.state.bft.phase == Propose
    requires Fit(cfg, w.state.bft, says, v) && HistoryAgrees(w.state.bft, says)
    ensures SweepVote(cfg, w, v, now) == Sweep(w.state, w.remaining + [v], w.outbound, w.progressed)
  {
    EarlyVote(cfg, says, w.state, v, now);
  }

  /** Replay before the proposal leaves everything where it is. */
  lemma EarlyReplay(cfg: NodeConfig, says: Opinions, s: RuntimeState, now: nat)
    requires s.chain.HasTip() && s.bft.phase == Propose && AllFit(cfg, s.bft, says, s.deferred)
      && HistoryAgrees(s.bft, says)
    ensures ReplayDeferred(cfg, s, [], now) == (s, Ok([]))
  {
    EarlySweep(cfg, says, Sweep(s.(deferred := []), [], [], false), s.deferred, now);
    assert [] + s.deferred == s.deferred;
  }

  lemma EarlyOnVote(cfg: NodeConfig, says: Opinions, s: RuntimeState, p: SignedProposal, cast: seq<Vote>, v: Vote,
                    now: nat, at: nat)
    requires Waits(cfg, says, s, p, now) && Held(cfg, says, s, cast) && Fit(cfg, s.bft, says, v)
      && |cast| < MAX_DEFERRED_VOTES
    ensures var t := OnVote(cfg, s, v, at);
      Waits(cfg, says, t, p, now) && Held(cfg, says, t, cast + [v]) && t == s.(deferred := t.deferred)
  {
    EarlyVote(cfg, says, s, v, at);
    var u := DeferVote(s, v);
    forall w | w in cast + [v] ensures KnownDeferred(u.deferred, w) {
      if w in cast {
        var k :| k in s.deferred && SameStatement(k, w);
        assert k in u.deferred;
      } else {
        assert v in u.deferred || KnownDeferred(s.deferred, v);
      }
    }
    EarlyReplay(cfg, says, u, at);
  }

  lemma HeldBackers(votes: seq<Vote>, cast: seq<Vote>, kind: VoteType, x: Hash)
    requires forall v :: v in cast ==> KnownDeferred(votes, v)
    ensures Backers(cast, kind, x) <= Backers(votes, kind, x)
  {
    forall id | id in Backers(cast, kind, x) ensures id in Backers(votes, kind, x) {
      var v :| v in cast && v.kind == kind && v.hash == x && v.validator == id;
      var w :| w in votes && SameStatement(w, v);
      BackersIn(votes, w);
    }
  }

  /** The proposal arrives: with the node's own prevote in the pool nothing is missing. */
  lemma ProposalArrives(cfg: NodeConfig, says: Opinions, s: RuntimeState, p: SignedProposal, cast: seq<Vote>, now: nat)
    requires Waits(cfg, says, s, p, now) && Held(cfg, says, s, cast)
    ensures var (t, r) := ReceiveProposal(cfg, s, p, now);
      && Progress(cfg, says, p.block.hash, t, cast, [r.value] + t.deferred)
      && Fit(cfg, t.bft, says, r.value) && r.value.kind == VoteType.Prevote && r.value.hash == p.block.hash
        && r.value.validator == cfg.me
      && t.bft.phase == Phase.Prevote && t.deferred == s.deferred
      && t.bft.height == s.bft.height && t.bft.round == s.bft.round && t.bft.validators == s.bft.validators
        && t.bft.totalPower == s.bft.totalPower
  {
    var x := p.block.hash;
    var (t, r) := ReceiveProposal(cfg, s, p, now);
    HandleProposalInv(cfg.crypto, s.bft, p);
    UnlockUnreachable(cfg.crypto, s.bft, p);
    assert t.bft.votes == map[];
    BackersCons(r.value, t.deferred, VoteType.Prevote, x);
    BackersCons(r.value, t.deferred, VoteType.Precommit, x);
    HeldBackers(s.deferred, cast, VoteType.Prevote, x);
    HeldBackers(s.deferred, cast, VoteType.Precommit, x);
  }

  ghost predicate SameRound(b: BftState, c: BftState) {
    b.height == c.height && b.round == c.round && b.validators == c.validators && b.totalPower == c.totalPower
  }

  lemma FitSameRound(cfg: NodeConfig, says: Opinions, b: BftState, c: BftState, votes: seq<Vote>)
    requires AllFit(cfg, b, says, votes) && SameRound(b, c)
    ensures AllFit(cfg, c, says, votes)
  {
    forall v | v in votes ensures Fit(cfg, c, says, v) {
      assert Fit(cfg, b, says, v);
    }
  }

  lemma OnProposalRests(cfg: NodeConfig, says: Opinions, s: RuntimeState, p: SignedProposal, cast: seq<Vote>, now: nat)
    requires Waits(cfg, says, s, p, now) && Held(cfg, says, s, cast)
    ensures var t := OnProposal(cfg, s, p, now);
      && Resting(cfg, says, p.block.hash, t, cast) && Blocked(t, t.deferred)
      && SameRound(s.bft, t.bft) && |t.deferred| <= |s.deferred|
  {
    ProposalPlayed(cfg, says, s, p, cast, now);
    var (t, r) := ReceiveProposal(cfg, s, p, now);
    ReplaySettles(cfg, says, p.block.hash, PlayThrough(cfg, t, r.value, now), cast, [], now);
  }

  /** The proposal and the node's own prevote for it. */
  lemma ProposalPlayed(cfg: NodeConfig, says: Opinions, s: RuntimeState, p: SignedProposal, cast: seq<Vote>, now: nat)
    requires Waits(cfg, says, s, p, now) && Held(cfg, says, s, cast)
    ensures var (t, r) := ReceiveProposal(cfg, s, p, now);
      && r.Ok? && t.chain.HasTip()
      && var u := PlayThrough(cfg, t, r.value, now);
      && Resting(cfg, says, p.block.hash, u, cast) && SameRound(s.bft, u.bft) && u.deferred == s.deferred
  {
    ProposalArrives(cfg, says, s, p, cast, now);
    var (t, r) := ReceiveProposal(cfg, s, p, now);
    PlayCounted(cfg, says, p.block.hash, t, cast, r.value, t.deferred, now);
    var u := PlayThrough(cfg, t, r.value, now);
    FitSameRound(cfg, says, s.bft, u.bft, s.deferred);
  }

  // ---------- Confluence ----------

  ghost function Early(cfg: NodeConfig, says: Opinions, p: SignedProposal, now: nat, round: BftState):
      (RuntimeState, seq<Vote>) -> bool {
    (t: RuntimeState, cast: seq<Vote>) => Waits(cfg, says, t, p, now) && Held(cfg, says, t, cast)
      && SameRound(round, t.bft)
  }

  ghost function Late(cfg: NodeConfig, says: Opinions, x: Hash, round: BftState): (RuntimeState, seq<Vote>) -> bool {
    (t: RuntimeState, cast: seq<Vote>) =>
      Resting(cfg, says, x, t, cast) && Blocked(t, t.deferred) && SameRound(round, t.bft) && |t.deferred| <= |cast|
  }

  /** The proposal does not come before the given time, and votes fit. */
  ghost predicate Timely(cfg: NodeConfig, says: Opinions, now: nat, round: BftState, a: Arrival) {
    match a
    case TheProposal(at) => now <= at
    case AVote(v, _) => Fit(cfg, round, says, v)
  }

  ghost function TimelyFor(cfg: NodeConfig, says: Opinions, now: nat, round: BftState): Arrival -> bool {
    (a: Arrival) => Timely(cfg, says, now, round, a)
  }

  lemma FitsToo(cfg: NodeConfig, says: Opinions, b: BftState, c: BftState, v: Vote)
    requires SameRound(b, c)
    ensures Fit(cfg, b, says, v) <==> Fit(cfg, c, says, v)
  {
  }

  lemma EarlyStep(cfg: NodeConfig, says: Opinions, p: SignedProposal, now: nat, round: BftState, t: RuntimeState,
                  cast: seq<Vote>, v: Vote, at: nat)
    requires Early(cfg, says, p, now, round)(t, cast) && Fit(cfg, round, says, v) && |cast| < MAX_DEFERRED_VOTES
    ensures Early(cfg, says, p, now, round)(Driver(cfg, p)(t, AVote(v, at)), cast + [v])
  {
    FitsToo(cfg, says, round, t.bft, v);
    EarlyOnVote(cfg, says, t, p, cast, v, now, at);
  }

  lemma TurnStep(cfg: NodeConfig, says: Opinions, p: SignedProposal, now: nat, round: BftState, t: RuntimeState,
                 cast: seq<Vote>, at: nat)
    requires Early(cfg, says, p, now, round)(t, cast) && now <= at
    ensures Late(cfg, says, p.block.hash, round)(Driver(cfg, p)(t, TheProposal(at)), cast)
  {
    WaitsLater(cfg, says, t, p, now, at);
    OnProposalRests(cfg, says, t, p, cast, at);
  }

  lemma LateStep(cfg: NodeConfig, says: Opinions, p: SignedProposal, round: BftState, t: RuntimeState,
                 cast: seq<Vote>, v: Vote, at: nat)
    requires Late(cfg, says, p.block.hash, round)(t, cast) && Fit(cfg, round, says, v) && |cast| < MAX_DEFERRED_VOTES
    ensures Late(cfg, says, p.block.hash, round)(Driver(cfg, p)(t, AVote(v, at)), cast + [v])
  {
    FitsToo(cfg, says, round, t.bft, v);
    OnVoteRests(cfg, says, p.block.hash, t, cast, v, at);
  }

  lemma DriverStages(cfg: NodeConfig, says: Opinions, p: SignedProposal, now: nat, round: BftState)
    ensures var f, before, after, ok := Driver(cfg, p), Early(cfg, says, p, now, round),
      Late(cfg, says, p.block.hash, round), TimelyFor(cfg, says, now, round);
      && (forall t, c, a: Arrival ::
            a.AVote? && before(t, c) && ok(a) && |c| < MAX_DEFERRED_VOTES ==> before(f(t, a), c + [a.vote]))
      && (forall t, c, a: Arrival :: a.TheProposal? && before(t, c) && ok(a) ==> after(f(t, a), c))
      && (forall t, c, a: Arrival ::
            a.AVote? && after(t, c) && ok(a) && |c| < MAX_DEFERRED_VOTES ==> after(f(t, a), c + [a.vote]))
  {
    var f, before, after, ok := Driver(cfg, p), Early(cfg, says, p, now, round),
      Late(cfg, says, p.block.hash, round), TimelyFor(cfg, says, now, round);
    forall t, c, a: Arrival | a.AVote? && before(t, c) && ok(a) && |c| < MAX_DEFERRED_VOTES
      ensures before(f(t, a), c + [a.vote])
    {
      EarlyStep(cfg, says, p, now, round, t, c, a.vote, a.at);
    }
    forall t, c, a: Arrival | a.TheProposal? && before(t, c) && ok(a) ensures after(f(t, a), c) {
      TurnStep(cfg, says, p, now, round, t, c, a.at);
    }
    forall t, c, a: Arrival | a.AVote? && after(t, c) && ok(a) && |c| < MAX_DEFERRED_VOTES
      ensures after(f(t, a), c + [a.vote])
    {
      LateStep(cfg, says, p, round, t, c, a.vote, a.at);
    }
  }

  /** One proposal, not before the given time, and at most 1,024 fitting votes. */
  ghost predicate RoundArrivals(cfg: NodeConfig, says: Opinions, b: BftState, arrivals: seq<Arrival>, now: nat) {
    && Proposals(arrivals) == 1 && |VotesIn(arrivals)| <= MAX_DEFERRED_VOTES
    && (forall a :: a in arrivals ==> Timely(cfg, says, now, b, a))
  }

  /** Whatever the arrival order and the times, the node ends in the phase that the set of votes
      determines, finalized exactly on the proposed hash, and holds back only votes its phase
      blocks. */
  lemma ArrivalOrderSettles(cfg: NodeConfig, says: Opinions, s: RuntimeState, p: SignedProposal,
                            arrivals: seq<Arrival>, now: nat)
    requires Waits(cfg, says, s, p, now) && s.deferred == [] && RoundArrivals(cfg, says, s.bft, arrivals, now)
    ensures var t := Drive(cfg, s, p, arrivals);
      && t.bft.phase == SettledPhase(cfg, s.bft, p.block.hash, VotesIn(arrivals))
      && t.bft.finalized == (if t.bft.phase == Finalized then Some(p.block.hash) else None)
      && Blocked(t, t.deferred) && AllFit(cfg, s.bft, says, t.deferred)
  {
    var round := s.bft;
    StartsEarly(cfg, says, s, p, now);
    DriveEndsLate(cfg, says, round, s, p, arrivals, now);
    LateIsSettled(cfg, says, p.block.hash, round, Drive(cfg, s, p, arrivals), VotesIn(arrivals));
  }

  lemma StartsEarly(cfg: NodeConfig, says: Opinions, s: RuntimeState, p: SignedProposal, now: nat)
    requires Waits(cfg, says, s, p, now) && s.deferred == []
    ensures Early(cfg, says, p, now, s.bft)(s, [])
  {
    var none: seq<Vote> := [];
    assert Held(cfg, says, s, none) && SameRound(s.bft, s.bft);
  }

  lemma DriveEndsLate(cfg: NodeConfig, says: Opinions, round: BftState, s: RuntimeState, p: SignedProposal,
                      arrivals: seq<Arrival>, now: nat)
    requires Early(cfg, says, p, now, round)(s, []) && RoundArrivals(cfg, says, round, arrivals, now)
    ensures Late(cfg, says, p.block.hash, round)(Drive(cfg, s, p, arrivals), VotesIn(arrivals))
  {
    DriverStages(cfg, says, p, now, round);
    FoldArrivals(Driver(cfg, p), Early(cfg, says, p, now, round), Late(cfg, says, p.block.hash, round),
                 TimelyFor(cfg, says, now, round), MAX_DEFERRED_VOTES, s, [], arrivals);
    assert [] + VotesIn(arrivals) == VotesIn(arrivals);
  }

  lemma LateIsSettled(cfg: NodeConfig, says: Opinions, x: Hash, round: BftState, t: RuntimeState, cast: seq<Vote>)
    requires Late(cfg, says, x, round)(t, cast)
    ensures t.bft.phase == SettledPhase(cfg, round, x, cast)
    ensures t.bft.finalized == (if t.bft.phase == Finalized then Some(x) else None)
    ensures Blocked(t, t.deferred) && AllFit(cfg, round, says, t.deferred)
  {
    SettledWhenBlocked(cfg, says, x, t, cast, t.deferred);
    FitSameRound(cfg, says, t.bft, round, t.deferred);
  }

  /** Confluence: a node that receives the same proposal and the same votes in different orders,
      at different times and however often ends in the same phase with the same finalized
      hash. */
  lemma Confluence(cfg: NodeConfig, says: Opinions, s: RuntimeState, p: SignedProposal, a: seq<Arrival>,
                   b: seq<Arrival>, now: nat)
    requires Waits(cfg, says, s, p, now) && s.deferred == []
    requires RoundArrivals(cfg, says, s.bft, a, now) && RoundArrivals(cfg, says, s.bft, b, now)
    requires forall v :: v in VotesIn(a) <==> v in VotesIn(b)
    ensures var x, y := Drive(cfg, s, p, a), Drive(cfg, s, p, b);
      x.bft.phase == y.bft.phase && x.bft.finalized == y.bft.finalized
  {
    ArrivalOrderSettles(cfg, says, s, p, a, now);
    ArrivalOrderSettles(cfg, says, s, p, b, now);
    var x := p.block.hash;
    assert Backers(VotesIn(a), VoteType.Prevote, x) == Backers(VotesIn(b), VoteType.Prevote, x);
    assert Backers(VotesIn(a), VoteType.Precommit, x) == Backers(VotesIn(b), VoteType.Precommit, x);
  }
}
