/** What a node in turn proposes, and that its peers take it (src/consensus_runtime.rs). */
module Proposals {
  import opened Basics
  import opened Messages
  import opened Ledger
  import opened Bft
  import opened Runtime
  import opened Agreement
  import opened Locks

  /** On every run a node that is not locked and proposes, proposes the block it was given,
      for the current round, in its own name and without a valid round. */
  lemma UnlockedProposesGiven(n: NetConfig, run: seq<Net>, i: nat, id: Id, block: Block, now: nat)
    requires Assumptions(n) && IsRun(n, run) && i < |run| && id in run[i]
    requires run[i][id].bft.lockedValue.None?
    ensures id in n.nodes
    ensures var s, r := run[i][id], MakeProposal(n.nodes[id], run[i][id], block, now);
      r.Ok? ==> r.value == SignedProposal(block.height, s.bft.round, id, None, block, r.value.signature)
  {
    RunInv(n, run, i);
    LockedIsValidOnRuns(n, run, i, id);
  }

  /** What a node puts forward: the locked block with its round, or else the given one. */
  function Candidate(s: RuntimeState, block: Block): (Block, Option<u32>) {
    if s.bft.lockedValue.Some? && s.validBlock.Some? then (s.validBlock.value, s.bft.lockedRound) else (block, None)
  }

  /** A node that keeps its locked block makes a proposal exactly when it is in the propose
      phase, it is its turn, and its signer signs; and the proposal is for its candidate. */
  lemma ProposesIff(cfg: NodeConfig, s: RuntimeState, block: Block, now: nat)
    requires LockIsValid(s.bft) && Ready(s)
    ensures var (chosen, validRound) := Candidate(s, block);
      var draft := SignedProposal(chosen.height, s.bft.round, cfg.me, validRound, chosen, "");
      var signature := cfg.signProposal(now, draft);
      var r := MakeProposal(cfg, s, block, now);
      && (r.Ok? <==>
            && s.bft.phase == Propose && IsProposer(s.bft, cfg.me)
            && signature.Some? && ProposalVerified(cfg.crypto, draft.(signature := signature.value)))
      && (r.Ok? ==> r.value == draft.(signature := signature.value))
  {
  }

  /** A node takes up a proposal exactly when the block extends its tip, is dated between the
      tip and half a minute from now, carries the right events, and comes verified from the
      proposer of this round without going against a lock. */
  lemma TakesProposalIff(cfg: NodeConfig, s: RuntimeState, p: SignedProposal, now: nat)
    requires s.chain.HasTip() && LockIsValid(s.bft)
    ensures var tip := s.chain.Tip();
      (s.bft.phase == Propose && ReceiveProposal(cfg, s, p, now).0.bft.phase == Phase.Prevote) <==>
        && p.block.height == tip.height + 1 && p.block.previousHash == tip.hash
        && tip.timestamp <= p.block.timestamp <= now + 30 && EventsFit(cfg, s.chain.executed, p.block)
        && p.height == s.bft.height && p.round == s.bft.round && s.bft.phase == Propose
        && IsProposer(s.bft, p.proposer) && p.block.hash != "" && ProposalVerified(cfg.crypto, p)
        && (s.bft.lockedValue == None || s.bft.lockedValue == Some(p.block.hash))
  {
    UnlockUnreachable(cfg.crypto, s.bft, p);
  }

  /** Two nodes stand in the propose phase of the same round. */
  predicate SameRound(a: BftState, b: BftState) {
    a.validators == b.validators && a.height == b.height && a.round == b.round && b.phase == Propose
  }

  lemma SameProposer(a: BftState, b: BftState, id: Id)
    requires SameRound(a, b) && IsProposer(a, id)
    ensures IsProposer(b, id)
  {
  }

  /** What one node proposes, any node in the same round that is not locked on something else
      accepts: the block becomes its candidate and a prevote for it is its answer. */
  lemma ProposalAccepted(x: NodeConfig, a: RuntimeState, y: NodeConfig, b: RuntimeState, block: Block, sent: nat,
                         now: nat)
    requires x.crypto == y.crypto && MakeProposal(x, a, block, sent).Ok? && SameRound(a.bft, b.bft)
    requires b.chain.HasTip()
    requires var p := MakeProposal(x, a, block, sent).value;
      && p.block.hash != "" && p.block.height == b.bft.height
      && Extends(b.chain.Tip(), p.block) && ScheduledBlockOk(y, b.chain, p.block, now)
      && (b.bft.lockedValue.Some? ==> b.bft.lockedValue.value == p.block.hash)
    ensures var p := MakeProposal(x, a, block, sent).value;
      var (t, r) := ReceiveProposal(y, b, p, now);
      && t.pending == Some(p.block) && t.bft == b.bft.(proposal := Some(p.block.hash), phase := Phase.Prevote)
      && r == match SignVote(y, now, b.bft.height, b.bft.round, VoteType.Prevote, p.block.hash)
              case None => Err(SignerFailed)
              case Some(v) => Ok(v)
  {
    SameProposer(a.bft, b.bft, x.me);
  }
}
