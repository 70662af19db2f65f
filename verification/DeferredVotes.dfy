/** The list of deferred votes on its own: it stays short and free of repetitions in every
    run, and a replay leaves nothing in it that the node could still use. */
module DeferredVotes {
  import opened Basics
  import opened Messages
  import opened Bft
  import opened Runtime
  import opened Safety
  import opened NodeSteps
  import opened Agreement

  // ---------- What a replay leaves ----------

  /** At this moment the local signer signs the precommit for the candidate block. */
  ghost predicate SignsPrecommit(cfg: NodeConfig, s: RuntimeState, now: nat) {
    s.pending.Some? ==>
      SignVote(cfg, now, s.pending.value.height, s.bft.round, VoteType.Precommit, s.pending.value.hash).Some?
  }

  /** A signed vote of a registered validator for the current round that only its phase keeps
      from being played. */
  ghost predicate TooEarly(cfg: NodeConfig, b: BftState, v: Vote) {
    && v.height == b.height && v.round == b.round
    && v.validator in b.validators && cfg.crypto.voteSigned(v)
    && !PhaseAccepts(b.phase, v.kind)
  }

  ghost predicate AllTooEarly(cfg: NodeConfig, b: BftState, votes: seq<Vote>) {
    forall v :: v in votes ==> TooEarly(cfg, b, v)
  }

  /** The vote alone is accepted and moves the node from prevote to precommit. */
  ghost predicate Completes(cfg: NodeConfig, b: BftState, v: Vote) {
    && b.phase == Phase.Prevote
    && Handle(cfg.crypto, b, v).1.Ok? && Handle(cfg.crypto, b, v).0.phase == Phase.Precommit
  }

  // ---------- One vote ----------

  /** The second state knows at least what the first knows and is otherwise like it. */
  ghost predicate Wiser(a: BftState, b: BftState) {
    && SamePosition(a, b) && b.phase == a.phase && b.votes == a.votes
    && (forall k :: k in a.history ==> k in b.history && b.history[k] == a.history[k])
  }

  /** A refused vote leaves at most a note in the history. */
  lemma RefusedMakesWiser(c: Crypto, b: BftState, v: Vote)
    requires Handle(c, b, v).1.Err?
    ensures Wiser(b, Handle(c, b, v).0)
  {
  }

  /** What a wiser state accepts, the other accepts, with the same effect on the phase. */
  lemma CompletesBefore(cfg: NodeConfig, a: BftState, b: BftState, v: Vote)
    requires Wiser(a, b) && Completes(cfg, b, v)
    ensures Completes(cfg, a, v)
  {
    SameCount(a, b, v);
  }

  lemma SameCount(a: BftState, b: BftState, v: Vote)
    requires Wiser(a, b)
    ensures var x, y := AddVote(Remember(a, v), v), AddVote(Remember(b, v), v);
      HasQuorum(x, v.kind, v.hash) <==> HasQuorum(y, v.kind, v.hash)
  {
    var x, y := AddVote(Remember(a, v), v), AddVote(Remember(b, v), v);
    assert VotersFor(x, v.kind, v.hash) == VotersFor(y, v.kind, v.hash);
  }

  lemma FinalizeFails(cfg: NodeConfig, u: RuntimeState)
    requires u.chain.HasTip()
    ensures var (t, r) := FinalizeNow(cfg, u); t.bft == u.bft && (r.Err? ==> !Deferable(r.error))
  {
  }

  lemma PrecommitFails(cfg: NodeConfig, u: RuntimeState, now: nat)
    requires u.pending.Some?
    ensures var (t, r) := PrecommitNow(cfg, u, now);
      && t.bft == u.bft && t.pending == u.pending && (r.Ok? <==> SignsPrecommit(cfg, u, now))
      && (r.Ok? ==> r.value.Some?) && (r.Err? ==> !Deferable(r.error))
  {
  }

  /** A node that an accepted vote takes to the precommit phase has a candidate block. */
  lemma CandidateAtHand(cfg: NodeConfig, J: Journals, s: RuntimeState, m: Vote, b: BftState, now: nat)
    requires NodeInv(cfg, J, s) && Judged(cfg, J, s, m, b, true)
    ensures b.phase == Phase.Precommit ==> s.pending.Some?
  {
    AcceptedVote(cfg, J, s, m, b, now);
    assert AfterVote(cfg, s, b, m, now).pending == s.pending;
  }

  /** Answering an accepted vote fails only for want of a signature or while finalizing. */
  lemma AnswerFails(cfg: NodeConfig, s: RuntimeState, m: Vote, b: BftState, now: nat)
    requires s.chain.HasTip() && SamePosition(s.bft, b) && (b.phase == Phase.Precommit ==> s.pending.Some?)
    ensures var (t, r) := Respond(cfg, s, b, Ok(()), m, now);
      && t.bft == b && (r.Err? ==> !Deferable(r.error))
      && (b.phase == Phase.Prevote ==> r.Ok?)
      && (b.phase == Phase.Precommit ==> (r.Ok? <==> SignsPrecommit(cfg, s, now)))
  {
    var u := AfterVote(cfg, s, b, m, now);
    assert u.pending == s.pending && u.bft == b && u.chain == s.chain;
    if b.phase == Phase.Precommit {
      PrecommitFails(cfg, u, now);
    } else if b.phase == Finalized {
      FinalizeFails(cfg, u);
    }
  }

  /** What receiving a vote can come to: the outcome is a failure or not, to be deferred or
      not, and leaves the given state. */
  ghost predicate Verdict(cfg: NodeConfig, s: RuntimeState, v: Vote, t: RuntimeState, failed: bool, deferred: bool,
                          now: nat) {
    && SamePosition(s.bft, t.bft)
    && (t.bft.phase == s.bft.phase || PhaseMoves(s.bft.phase, t.bft.phase))
    && (failed && deferred <==> TooEarly(cfg, s.bft, v))
    && (failed ==>
          || (Wiser(s.bft, t.bft) && t.pending == s.pending)
          || s.bft.phase == Phase.Precommit || s.bft.phase == Finalized
          || (Completes(cfg, s.bft, v) && !SignsPrecommit(cfg, s, now) && t.bft.phase == Phase.Precommit))
  }

  /** A vote is set aside for later exactly when it is too early. A vote that fails in any
      other way is forgotten but for a note, unless the node was past the prevotes already or
      the vote completes the prevotes while the signer refuses the precommit. */
  lemma VoteVerdict(cfg: NodeConfig, J: Journals, s: RuntimeState, v: Vote, now: nat)
    requires NodeInv(cfg, J, s) && Credible(cfg.crypto, J, v)
    ensures var (t, r) := ReceiveVote(cfg, s, v, now);
      Verdict(cfg, s, v, t, r.Err?, r.Err? && Deferable(r.error), now)
  {
    HandleJudges(cfg, J, s, v);
    var (b, handled) := Handle(cfg.crypto, s.bft, v);
    if handled.Ok? {
      CandidateAtHand(cfg, J, s, v, b, now);
      AnswerFails(cfg, s, v, b, now);
    } else {
      RefusedMakesWiser(cfg.crypto, s.bft, v);
    }
  }

  // ---------- One sweep ----------

  /** A vote of the list would complete the prevotes, another one waits for that, and the
      signer refuses the precommit. */
  ghost predicate Suspect(cfg: NodeConfig, s: RuntimeState, votes: seq<Vote>, now: nat) {
    && !SignsPrecommit(cfg, s, now)
    && (exists v :: v in votes && Completes(cfg, s.bft, v))
    && (exists w :: w in votes && TooEarly(cfg, s.bft, w))
  }

  /** Votes that are kept are waiting for the precommit phase, or for the proposal. */
  ghost predicate Parked(w: Sweep, votes: seq<Vote>)
    requires w.Sweep?
  {
    forall x :: x in w.remaining ==>
      x in votes && (x.kind == VoteType.Precommit || w.state.bft.phase == Propose)
  }

  /** Where a sweep that started in s stands as long as it has moved nothing. */
  ghost predicate Idle(cfg: NodeConfig, s: RuntimeState, votes: seq<Vote>, w: Sweep, now: nat)
    requires w.Sweep?
  {
    !w.progressed ==>
      || Suspect(cfg, s, votes, now)
      || (&& AllTooEarly(cfg, w.state.bft, w.remaining)
          && (w.state.bft.phase == Phase.Prevote ==> Wiser(s.bft, w.state.bft) && w.state.pending == s.pending))
  }

  lemma StillTooEarly(cfg: NodeConfig, b: BftState, c: BftState, votes: seq<Vote>)
    requires AllTooEarly(cfg, b, votes) && SamePosition(b, c)
    requires c.phase == b.phase || b.phase == Phase.Precommit || b.phase == Finalized
    ensures AllTooEarly(cfg, c, votes)
  {
    forall v | v in votes ensures TooEarly(cfg, c, v) {
      assert TooEarly(cfg, b, v);
    }
  }

  /** The vote that completes the prevotes against the signer makes the list suspect, unless
      nothing is waiting. */
  lemma CompletedIsSuspect(cfg: NodeConfig, s: RuntimeState, votes: seq<Vote>, w: Sweep, v: Vote, now: nat)
    requires w.Sweep? && v in votes && Parked(w, votes)
    requires AllTooEarly(cfg, w.state.bft, w.remaining) && Wiser(s.bft, w.state.bft) && w.state.pending == s.pending
    requires Completes(cfg, w.state.bft, v) && !SignsPrecommit(cfg, w.state, now)
    ensures w.remaining == [] || Suspect(cfg, s, votes, now)
  {
    CompletesBefore(cfg, s.bft, w.state.bft, v);
    if w.remaining != [] {
      var x := w.remaining[0];
      assert x in w.remaining && TooEarly(cfg, w.state.bft, x);
      assert x in votes && TooEarly(cfg, s.bft, x);
    }
  }

  lemma IdleAfterFailure(cfg: NodeConfig, s: RuntimeState, votes: seq<Vote>, w: Sweep, v: Vote, t: RuntimeState,
                         deferred: bool, now: nat)
    requires w.Sweep? && v in votes && Parked(w, votes) && Idle(cfg, s, votes, w, now)
    requires Verdict(cfg, w.state, v, t, true, deferred, now)
    ensures var kept := if deferred then w.remaining + [v] else w.remaining;
      Idle(cfg, s, votes, Sweep(t, kept, w.outbound, w.progressed), now)
  {
    if !w.progressed && !Suspect(cfg, s, votes, now) {
      var kept := if deferred then w.remaining + [v] else w.remaining;
      assert AllTooEarly(cfg, w.state.bft, kept);
      if w.state.bft.phase == Phase.Prevote && t.bft.phase != Phase.Prevote {
        assert !TooEarly(cfg, w.state.bft, v);
        CompletedIsSuspect(cfg, s, votes, w, v, now);
      } else {
        StillTooEarly(cfg, w.state.bft, t.bft, kept);
      }
    }
  }

  lemma ParkedAfter(cfg: NodeConfig, votes: seq<Vote>, w: Sweep, v: Vote, t: RuntimeState, failed: bool,
                    deferred: bool, now: nat)
    requires w.Sweep? && v in votes && Parked(w, votes) && w.state.bft.phase != Phase.Waiting
    requires Verdict(cfg, w.state, v, t, failed, deferred, now)
    ensures Parked(Sweep(t, if failed && deferred then w.remaining + [v] else w.remaining, w.outbound, true), votes)
  {
  }

  lemma SweepVoteIdle(cfg: NodeConfig, J: Journals, s: RuntimeState, votes: seq<Vote>, w: Sweep, v: Vote,
                      rest: seq<Vote>, now: nat)
    requires w.Sweep? && v in votes && SweepInv(cfg, J, w, [v] + rest)
    requires Parked(w, votes) && Idle(cfg, s, votes, w, now)
    ensures var x := SweepVote(cfg, w, v, now); x.Sweep? ==> Idle(cfg, s, votes, x, now)
  {
    assert v in [v] + rest;
    VoteVerdict(cfg, At(cfg, J, w.state), w.state, v, now);
    IdleAfter(cfg, s, votes, w, v, now);
  }

  lemma IdleAfter(cfg: NodeConfig, s: RuntimeState, votes: seq<Vote>, w: Sweep, v: Vote, now: nat)
    requires w.Sweep? && w.state.chain.HasTip() && v in votes && Parked(w, votes) && Idle(cfg, s, votes, w, now)
    requires var (t, r) := ReceiveVote(cfg, w.state, v, now);
      Verdict(cfg, w.state, v, t, r.Err?, r.Err? && Deferable(r.error), now)
    ensures var x := SweepVote(cfg, w, v, now); x.Sweep? ==> Idle(cfg, s, votes, x, now)
  {
    var (t, r) := ReceiveVote(cfg, w.state, v, now);
    if r.Err? {
      IdleAfterFailure(cfg, s, votes, w, v, t, Deferable(r.error), now);
    }
  }

  lemma SweepVoteParked(cfg: NodeConfig, J: Journals, votes: seq<Vote>, w: Sweep, v: Vote, rest: seq<Vote>, now: nat)
    requires w.Sweep? && v in votes && SweepInv(cfg, J, w, [v] + rest) && Parked(w, votes)
    ensures var x := SweepVote(cfg, w, v, now); x.Sweep? ==> Parked(x, votes)
  {
    assert v in [v] + rest;
    PlayVote(cfg, J, w.state, v, now);
    VoteVerdict(cfg, At(cfg, J, w.state), w.state, v, now);
    var (t, r) := ReceiveVote(cfg, w.state, v, now);
    ParkedAfter(cfg, votes, w, v, t, r.Err?, r.Err? && Deferable(r.error), now);
    if r.Ok? && r.value.Some? {
      VoteVerdict(cfg, At(cfg, J, t), t, r.value.value, now);
    }
    ParkedByVote(cfg, votes, w, v, now);
  }

  lemma ParkedByVote(cfg: NodeConfig, votes: seq<Vote>, w: Sweep, v: Vote, now: nat)
    requires w.Sweep? && w.state.chain.HasTip()
    requires var (t, r) := ReceiveVote(cfg, w.state, v, now);
      var kept := if r.Err? && Deferable(r.error) then w.remaining + [v] else w.remaining;
      && Parked(Sweep(t, kept, w.outbound, true), votes)
      && (r.Ok? && r.value.Some? ==>
            var u := ReceiveVote(cfg, t, r.value.value, now).0;
            u.bft.phase == t.bft.phase || PhaseMoves(t.bft.phase, u.bft.phase))
    ensures var x := SweepVote(cfg, w, v, now); x.Sweep? ==> Parked(x, votes)
  {
    var (t, r) := ReceiveVote(cfg, w.state, v, now);
    if r.Ok? && r.value.Some? {
      ParkedStays(votes, w, t, ReceiveVote(cfg, t, r.value.value, now).0);
    }
  }

  lemma ParkedStays(votes: seq<Vote>, w: Sweep, t: RuntimeState, u: RuntimeState)
    requires w.Sweep? && Parked(Sweep(t, w.remaining, w.outbound, true), votes)
    requires u.bft.phase == t.bft.phase || PhaseMoves(t.bft.phase, u.bft.phase)
    ensures Parked(Sweep(u, w.remaining, w.outbound, true), votes)
  {
  }

  lemma {:induction false} SweepVotesIdle(cfg: NodeConfig, J: Journals, s: RuntimeState, all: seq<Vote>, w: Sweep,
                                          votes: seq<Vote>, now: nat)
    requires w.Sweep? && SweepInv(cfg, J, w, votes) && (forall v :: v in votes ==> v in all)
    requires Parked(w, all) && Idle(cfg, s, all, w, now)
    ensures var x := SweepVotes(cfg, w, votes, now); x.Sweep? ==> Parked(x, all) && Idle(cfg, s, all, x, now)
    decreases |votes|
  {
    if votes != [] {
      assert [votes[0]] + votes[1..] == votes && votes[0] in votes;
      SweepVoteKeeps(cfg, J, w, votes[0], votes[1..], now);
      SweepVoteIdle(cfg, J, s, all, w, votes[0], votes[1..], now);
      SweepVoteParked(cfg, J, all, w, votes[0], votes[1..], now);
      var next := SweepVote(cfg, w, votes[0], now);
      if next.Sweep? {
        SweepVotesIdle(cfg, J, s, all, next, votes[1..], now);
      }
    }
  }

  // ---------- The replay ----------

  lemma StartSweep(cfg: NodeConfig, J: Journals, s: RuntimeState, outbound: seq<Vote>)
    requires cfg.me in J && NodeInv(cfg, At(cfg, J, s), s)
    ensures SweepInv(cfg, J, Sweep(s.(deferred := []), [], outbound, false), s.deferred)
  {
    WithDeferred(cfg, At(cfg, J, s), s, []);
    assert At(cfg, J, s.(deferred := [])) == At(cfg, J, s);
  }

  lemma NextSweep(cfg: NodeConfig, J: Journals, w: Sweep)
    requires w.Sweep? && SweepInv(cfg, J, w, [])
    ensures var u := w.state.(deferred := w.remaining); NodeInv(cfg, At(cfg, J, u), u)
  {
    var u := w.state.(deferred := w.remaining);
    WithDeferred(cfg, At(cfg, J, w.state), w.state, w.remaining);
    assert At(cfg, J, u) == At(cfg, J, w.state);
  }

  /** Votes that were parked cannot complete the prevotes. */
  lemma ParkedNotSuspect(cfg: NodeConfig, w: Sweep, votes: seq<Vote>, now: nat)
    requires w.Sweep? && Parked(w, votes)
    ensures !Suspect(cfg, w.state.(deferred := w.remaining), w.remaining, now)
  {
  }

  /** Whatever was deferred, stale, unregistered, unsigned or equivocating: a replay that
      succeeds leaves only votes that are too early for the phase the node is then in, unless
      the list is suspect. */
  lemma {:induction false} ReplayLeavesTooEarly(cfg: NodeConfig, J: Journals, s: RuntimeState, outbound: seq<Vote>,
                                                now: nat)
    requires cfg.me in J && NodeInv(cfg, At(cfg, J, s), s)
    ensures var (t, r) := ReplayDeferred(cfg, s, outbound, now);
      r.Ok? && !Suspect(cfg, s, s.deferred, now) ==> AllTooEarly(cfg, t.bft, t.deferred)
    decreases |s.deferred|
  {
    var start := Sweep(s.(deferred := []), [], outbound, false);
    StartSweep(cfg, J, s, outbound);
    SweepVotesKeeps(cfg, J, start, s.deferred, now);
    SweepVotesIdle(cfg, J, s, s.deferred, start, s.deferred, now);
    var w := SweepVotes(cfg, start, s.deferred, now);
    if w.Sweep? {
      NextSweep(cfg, J, w);
      if w.progressed {
        ParkedNotSuspect(cfg, w, s.deferred, now);
        ReplayLeavesTooEarly(cfg, J, w.state.(deferred := w.remaining), w.outbound, now);
      }
    }
  }

  // ---------- Exactly when a replay is clean ----------

  /** Replaying these votes leaves nothing behind that the node could still use. */
  ghost predicate CleanReplay(cfg: NodeConfig, s: RuntimeState, votes: seq<Vote>, now: nat)
    requires s.chain.HasTip()
  {
    var (t, r) := ReplayDeferred(cfg, s.(deferred := votes), [], now);
    r.Ok? ==> AllTooEarly(cfg, t.bft, t.deferred)
  }

  /** The signer refuses the precommit while one vote could complete the prevotes and another
      one could be waiting for that. */
  ghost predicate Vulnerable(cfg: NodeConfig, J: Journals, s: RuntimeState, now: nat) {
    && !SignsPrecommit(cfg, s, now)
    && (exists v :: Credible(cfg.crypto, J, v) && Completes(cfg, s.bft, v))
    && (exists w :: Credible(cfg.crypto, J, w) && TooEarly(cfg, s.bft, w))
  }

  lemma SafeReplayIsClean(cfg: NodeConfig, J: Journals, s: RuntimeState, votes: seq<Vote>, now: nat)
    requires NodeInv(cfg, J, s) && !Vulnerable(cfg, J, s, now) && AllCredible(cfg.crypto, J, votes)
    ensures CleanReplay(cfg, s, votes, now)
  {
    var u := s.(deferred := votes);
    WithDeferred(cfg, J, s, votes);
    AtSame(cfg, J, u);
    if Suspect(cfg, u, votes, now) {
      var v: Vote :| v in votes && Completes(cfg, u.bft, v);
      var w: Vote :| w in votes && TooEarly(cfg, u.bft, w);
      assert Credible(cfg.crypto, J, v) && Credible(cfg.crypto, J, w);
      assert Vulnerable(cfg, J, s, now);
    }
    ReplayLeavesTooEarly(cfg, J, u, [], now);
  }

  lemma EarlyIsParked(cfg: NodeConfig, w: Sweep, v: Vote, now: nat)
    requires w.Sweep? && w.state.chain.HasTip() && TooEarly(cfg, w.state.bft, v)
    ensures SweepVote(cfg, w, v, now) == Sweep(w.state, w.remaining + [v], w.outbound, w.progressed)
  {
    assert Handle(cfg.crypto, w.state.bft, v) == (w.state.bft, Err(PhaseMismatch));
    assert w.state.(bft := w.state.bft) == w.state;
  }

  lemma CompletionIsDropped(cfg: NodeConfig, J: Journals, w: Sweep, v: Vote, now: nat) returns (t: RuntimeState)
    requires w.Sweep? && NodeInv(cfg, J, w.state) && Credible(cfg.crypto, J, v)
    requires Completes(cfg, w.state.bft, v) && !SignsPrecommit(cfg, w.state, now)
    ensures SweepVote(cfg, w, v, now) == Sweep(t, w.remaining, w.outbound, w.progressed)
    ensures t.bft.phase == Phase.Precommit
  {
    t := ReceiveVote(cfg, w.state, v, now).0;
    HandleJudges(cfg, J, w.state, v);
    var b := Handle(cfg.crypto, w.state.bft, v).0;
    CandidateAtHand(cfg, J, w.state, v, b, now);
    AnswerFails(cfg, w.state, v, b, now);
  }

  lemma TwoVotes(cfg: NodeConfig, start: Sweep, w: Vote, v: Vote, now: nat, t: RuntimeState)
    requires start.Sweep? && start.state.chain.HasTip()
    requires var once := SweepVote(cfg, start, w, now);
      once.Sweep? && once.state.chain.HasTip() && SweepVote(cfg, once, v, now) == Sweep(t, [w], [], false)
    requires t.chain.HasTip()
    ensures SweepVotes(cfg, start, [w, v], now) == Sweep(t, [w], [], false)
  {
    var once := SweepVote(cfg, start, w, now);
    assert [w, v][1..] == [v] && [v][1..] == [];
    assert SweepVotes(cfg, once, [v], now) == SweepVotes(cfg, Sweep(t, [w], [], false), [], now);
  }

  /** The early vote, then the completing one: the replay succeeds and leaves the early vote,
      although the phase accepts it by then. */
  lemma PairIsLeft(cfg: NodeConfig, J: Journals, s: RuntimeState, w: Vote, v: Vote, now: nat)
    requires NodeInv(cfg, J, s) && !SignsPrecommit(cfg, s, now)
    requires Credible(cfg.crypto, J, v) && Completes(cfg, s.bft, v)
    requires Credible(cfg.crypto, J, w) && TooEarly(cfg, s.bft, w)
    ensures !CleanReplay(cfg, s, [w, v], now)
  {
    var u := s.(deferred := []);
    WithDeferred(cfg, J, s, []);
    var start := Sweep(u, [], [], false);
    EarlyIsParked(cfg, start, w, now);
    var once := Sweep(u, [w], [], false);
    assert [] + [w] == [w];
    var t := CompletionIsDropped(cfg, J, once, v, now);
    TwoVotes(cfg, start, w, v, now, t);
    assert s.(deferred := [w, v]).(deferred := []) == u;
    assert ReplayDeferred(cfg, s.(deferred := [w, v]), [], now) == (t.(deferred := [w]), Ok([]));
    assert w in [w] && !TooEarly(cfg, t.bft, w);
  }

  /** Every list of credible votes is replayed cleanly if and only if the signer signs the
      precommit, or no vote completes the prevotes now, or no vote waits for that. */
  lemma ReplayCleanIff(cfg: NodeConfig, J: Journals, s: RuntimeState, now: nat)
    requires NodeInv(cfg, J, s)
    ensures (forall votes :: AllCredible(cfg.crypto, J, votes) ==> CleanReplay(cfg, s, votes, now))
       <==> !Vulnerable(cfg, J, s, now)
  {
    if Vulnerable(cfg, J, s, now) {
      var v :| Credible(cfg.crypto, J, v) && Completes(cfg, s.bft, v);
      var w :| Credible(cfg.crypto, J, w) && TooEarly(cfg, s.bft, w);
      PairIsLeft(cfg, J, s, w, v, now);
      assert AllCredible(cfg.crypto, J, [w, v]);
    } else {
      forall votes | AllCredible(cfg.crypto, J, votes) ensures CleanReplay(cfg, s, votes, now) {
        SafeReplayIsClean(cfg, J, s, votes, now);
      }
    }
  }



  // ---------- Size and repetition ----------

  ghost predicate NoRepetition(votes: seq<Vote>) {
    forall i, j :: 0 <= i < j < |votes| ==> !SameStatement(votes[i], votes[j])
  }

  ghost predicate Bounded(votes: seq<Vote>) {
    |votes| <= MAX_DEFERRED_VOTES && NoRepetition(votes)
  }

  lemma DeferBounded(s: RuntimeState, v: Vote)
    requires Bounded(s.deferred)
    ensures Bounded(DeferVote(s, v).deferred)
  {
    if !KnownDeferred(s.deferred, v) {
      forall i | 0 <= i < |s.deferred| ensures !SameStatement(s.deferred[i], v) {
        assert s.deferred[i] in s.deferred;
      }
    }
  }

  lemma DropOne(a: seq<Vote>, v: Vote, b: seq<Vote>)
    requires Bounded(a + ([v] + b))
    ensures Bounded(a + b)
  {
    var all, less := a + ([v] + b), a + b;
    forall i, j | 0 <= i < j < |less| ensures !SameStatement(less[i], less[j]) {
      var k, m := if i < |a| then i else i + 1, if j < |a| then j else j + 1;
      assert all[k] == less[i] && all[m] == less[j];
    }
  }

  lemma SweepVoteBounded(cfg: NodeConfig, w: Sweep, v: Vote, rest: seq<Vote>, now: nat)
    requires w.Sweep? && w.state.chain.HasTip() && w.state.deferred == [] && Bounded(w.remaining + ([v] + rest))
    ensures var x := SweepVote(cfg, w, v, now); x.state.deferred == [] && (x.Sweep? ==> Bounded(x.remaining + rest))
  {
    DropOne(w.remaining, v, rest);
    assert (w.remaining + [v]) + rest == w.remaining + ([v] + rest);
  }

  lemma {:induction false} SweepVotesBounded(cfg: NodeConfig, w: Sweep, votes: seq<Vote>, now: nat)
    requires w.Sweep? && w.state.chain.HasTip() && w.state.deferred == [] && Bounded(w.remaining + votes)
    ensures var x := SweepVotes(cfg, w, votes, now); x.state.deferred == [] && (x.Sweep? ==> Bounded(x.remaining))
    decreases |votes|
  {
    if votes == [] {
      assert w.remaining + votes == w.remaining;
    } else {
      assert [votes[0]] + votes[1..] == votes;
      SweepVoteBounded(cfg, w, votes[0], votes[1..], now);
      var next := SweepVote(cfg, w, votes[0], now);
      if next.Sweep? {
        SweepVotesBounded(cfg, next, votes[1..], now);
      }
    }
  }

  lemma {:induction false} ReplayBounded(cfg: NodeConfig, s: RuntimeState, outbound: seq<Vote>, now: nat)
    requires s.chain.HasTip() && Bounded(s.deferred)
    ensures Bounded(ReplayDeferred(cfg, s, outbound, now).0.deferred)
    decreases |s.deferred|
  {
    var start := Sweep(s.(deferred := []), [], outbound, false);
    assert [] + s.deferred == s.deferred;
    SweepVotesBounded(cfg, start, s.deferred, now);
    var w := SweepVotes(cfg, start, s.deferred, now);
    if w.Sweep? && w.progressed {
      ReplayBounded(cfg, w.state.(deferred := w.remaining), w.outbound, now);
    }
  }

  lemma {:induction false} SyncAllDeferred(cfg: NodeConfig, s: RuntimeState, certs: seq<FinalityCertificate>,
                                           applied: nat, now: nat)
    requires s.chain.HasTip()
    ensures SyncAll(cfg, s, certs, applied, now).0.deferred == s.deferred
    decreases |certs|
  {
    if certs != [] {
      var (t, r) := SyncOne(cfg, s, certs[0], now);
      assert t.deferred == s.deferred;
      if r.Ok? {
        SyncAllDeferred(cfg, t, certs[1..], if r.value then applied + 1 else applied, now);
      }
    }
  }

  /** Deferring loses nothing but the oldest vote of a full list, and what the new vote says
      is then on the list. */
  lemma DeferLosesOldest(s: RuntimeState, v: Vote)
    ensures var t := DeferVote(s, v);
      && KnownDeferred(t.deferred, v)
      && (forall i :: 0 < i < |s.deferred| ==> s.deferred[i] in t.deferred)
      && (|s.deferred| < 1_024 ==> s.deferred <= t.deferred)
  {
    var t := DeferVote(s, v);
    if !KnownDeferred(s.deferred, v) {
      assert v in t.deferred;
      forall i | 0 < i < |s.deferred| ensures s.deferred[i] in t.deferred {
        assert s.deferred[i] == s.deferred[1..][i - 1];
      }
    }
  }

  /** Every call keeps at most 1,024 deferred votes, no two of them saying the same. */
  lemma StepBounded(cfg: NodeConfig, s: RuntimeState, input: Input, now: nat)
    requires s.chain.HasTip() && Bounded(s.deferred)
    ensures Bounded(Step(cfg, s, input, now).deferred)
  {
    match input
    case Defer(v) => DeferBounded(s, v);
    case ReplayVotes => ReplayBounded(cfg, s, [], now);
    case SyncCertificates(certs) => SyncAllDeferred(cfg, s, certs, 0, now);
    case _ =>
  }

  lemma MovedBounded(cfg: NodeConfig, s: RuntimeState, input: Input, now: nat, t: RuntimeState)
    requires Bounded(s.deferred) && MovesTo(cfg, s, input, now, t)
    ensures Bounded(t.deferred)
  {
    MovesToStep(cfg, s, input, now, t);
    StepBounded(cfg, s, input, now);
  }

  lemma NetStepBounded(n: NetConfig, a: Net, b: Net, id: Id)
    requires NetInv(n, a) && NetStep(n, a, b) && id in b
    ensures id in a && (Bounded(a[id].deferred) ==> Bounded(b[id].deferred))
  {
    var mover, input, now :| NodeMoves(n, a, b, mover, input, now);
    if mover == id && Bounded(a[id].deferred) {
      MovedBounded(n.nodes[id], a[id], input, now, b[id]);
    }
  }

  lemma StartBounded(n: NetConfig, run: seq<Net>, id: Id)
    requires IsRun(n, run) && id in run[0]
    ensures Bounded(run[0][id].deferred)
  {
    assert StartState(n, id, run[0][id]);
  }

  /** So it is in every state of every run. */
  lemma {:induction false} DeferredBounded(n: NetConfig, run: seq<Net>, i: nat, id: Id)
    requires Assumptions(n) && IsRun(n, run) && i < |run| && id in run[i]
    ensures Bounded(run[i][id].deferred)
  {
    if i == 0 {
      StartBounded(n, run, id);
    } else {
      RunStep(n, run, i);
      NetStepBounded(n, run[i - 1], run[i], id);
      DeferredBounded(n, run, i - 1, id);
    }
  }
}
