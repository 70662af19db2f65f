/** Voting power, the saturating two-thirds test of the state machine and the exact test
    of finality certificates. */
module Quorum {
  import opened Basics
  import opened Weights
  import opened Messages

  /** Validator tables accepted by `BftConsensus::new`, whose total power is a u64. */
  ghost predicate PowerTable(v: map<Id, nat>) {
    && v != map[]
    && (forall id :: id in v ==> 1 <= v[id] <= U64_MAX)
    && Total(v) <= U64_MAX
  }

  /** `power.saturating_mul(3) > total.saturating_mul(2)` in u64. */
  predicate SaturatingQuorum(power: nat, total: nat) {
    Min(3 * power, U64_MAX) > Min(2 * total, U64_MAX)
  }

  /** More than two thirds. */
  predicate ExactQuorum(power: nat, total: nat) {
    3 * power > 2 * total
  }

  /** The saturating test is never more generous than the exact one. */
  lemma SaturatingImpliesExact(power: nat, total: nat)
    requires SaturatingQuorum(power, total)
    ensures ExactQuorum(power, total)
  {
  }

  /** It is the exact test on every reachable power if and only if twice the total fits
      a u64; beyond that no vote count at all can reach a quorum. */
  lemma SaturatingIsExactIff(total: nat)
    requires 1 <= total <= U64_MAX
    ensures (forall power: nat :: power <= total ==> (SaturatingQuorum(power, total) <==> ExactQuorum(power, total)))
       <==> 2 * total <= U64_MAX
    ensures 2 * total > U64_MAX ==> forall power: nat :: !SaturatingQuorum(power, total)
  {
    if 2 * total > U64_MAX {
      assert ExactQuorum(total, total) && !SaturatingQuorum(total, total);
    }
  }

  ghost predicate IsQuorum(v: map<Id, nat>, voters: set<Id>) {
    ExactQuorum(Sum(v, voters), Total(v))
  }

  /** Two quorums share a validator outside any set that holds at most a third of the power. */
  lemma QuorumsShareHonest(v: map<Id, nat>, a: set<Id>, b: set<Id>, honest: set<Id>) returns (id: Id)
    requires IsQuorum(v, a) && IsQuorum(v, b)
    requires 3 * Sum(v, v.Keys - honest) <= Total(v)
    ensures id in a && id in b && id in honest && id in v
  {
    var x, y := a * v.Keys, b * v.Keys;
    SumOutside(v, a);
    SumOutside(v, b);
    SumOverlap(v, x, y);
    if x * y <= v.Keys - honest {
      SumMonotone(v, x * y, v.Keys - honest);
      assert false;
    }
    id :| id in x * y && id !in v.Keys - honest;
  }

  /** The power table of a validator list: `HashMap` collection, where a later duplicate wins. */
  function PowerMap(validators: seq<Validator>): map<Id, nat> {
    if validators == [] then map[]
    else
      var last := validators[|validators| - 1];
      PowerMap(validators[..|validators| - 1])[last.id := last.votingPower]
  }

  lemma {:induction false} PowerMapKeys(validators: seq<Validator>, id: Id)
    ensures id in PowerMap(validators) <==> exists i :: 0 <= i < |validators| && validators[i].id == id
  {
    if validators != [] {
      var n := |validators| - 1;
      PowerMapKeys(validators[..n], id);
      assert id in PowerMap(validators[..n]) ==> exists i :: 0 <= i < n && validators[..n][i].id == id;
      assert validators[n].id == id ==> id in PowerMap(validators);
    }
  }

  function ListPower(validators: seq<Validator>): nat {
    if validators == [] then 0
    else ListPower(validators[..|validators| - 1]) + validators[|validators| - 1].votingPower
  }

  ghost predicate DistinctIds(validators: seq<Validator>) {
    forall i, j :: 0 <= i < j < |validators| ==> validators[i].id != validators[j].id
  }

  /** Without duplicate ids the list total and the table total agree. */
  lemma {:induction false} ListPowerIsTotal(validators: seq<Validator>)
    requires DistinctIds(validators)
    ensures ListPower(validators) == Total(PowerMap(validators))
  {
    if validators != [] {
      var n := |validators| - 1;
      var init := validators[..n];
      ListPowerIsTotal(init);
      PowerMapKeys(init, validators[n].id);
      TotalUpdate(PowerMap(init), validators[n].id, validators[n].votingPower);
    }
  }

  // ---------- Finality certificates ----------

  predicate CertificateVote(c: Crypto, v: map<Id, nat>, cert: FinalityCertificate, vote: Vote) {
    && vote.height == cert.block.height
    && vote.round == cert.round
    && vote.kind == VoteType.Precommit
    && vote.hash == cert.block.hash
    && c.voteSigned(vote)
    && vote.validator in v
  }

  function Voters(votes: seq<Vote>): set<Id> {
    if votes == [] then {} else Voters(votes[..|votes| - 1]) + {votes[|votes| - 1].validator}
  }

  lemma {:induction false} VotersMembers(votes: seq<Vote>, id: Id)
    ensures id in Voters(votes) <==> exists v :: v in votes && v.validator == id
  {
    if votes != [] {
      var n := |votes| - 1;
      VotersMembers(votes[..n], id);
      assert votes == votes[..n] + [votes[n]];
    }
  }

  lemma VotersSnoc(votes: seq<Vote>, i: nat)
    requires i < |votes|
    ensures Voters(votes[..i + 1]) == Voters(votes[..i]) + {votes[i].validator}
  {
    assert votes[..i + 1] == votes[..i] + [votes[i]];
  }

  /** What a finality certificate certifies: a block that hashes correctly, and matching,
      signed precommits of registered validators holding more than two thirds of the power. */
  ghost predicate CertificateValid(c: Crypto, validators: seq<Validator>, cert: FinalityCertificate) {
    var v := PowerMap(validators);
    && cert.block.hash == CalculateHash(c, cert.block)
    && ListPower(validators) > 0
    && (forall vote :: vote in cert.precommits ==> CertificateVote(c, v, cert, vote))
    && ExactQuorum(Sum(v, Voters(cert.precommits)), ListPower(validators))
  }

  /** `FinalityCertificate::verify`: the loop keeps the set of counted voters and their power. */
  method VerifyCertificate(c: Crypto, validators: seq<Validator>, cert: FinalityCertificate) returns (ok: bool)
    ensures ok <==> CertificateValid(c, validators, cert)
  {
    if cert.block.hash != CalculateHash(c, cert.block) {
      return false;
    }
    var totalPower := ListPower(validators);
    if totalPower == 0 {
      return false;
    }
    var powers := PowerMap(validators);
    var voters: set<Id> := {};
    var signedPower := 0;
    for i := 0 to |cert.precommits|
      invariant forall j :: 0 <= j < i ==> CertificateVote(c, powers, cert, cert.precommits[j])
      invariant voters == Voters(cert.precommits[..i])
      invariant signedPower == Sum(powers, voters)
    {
      var vote := cert.precommits[i];
      assert vote in cert.precommits;
      if vote.height != cert.block.height || vote.round != cert.round
        || vote.kind != VoteType.Precommit || vote.hash != cert.block.hash
      {
        return false;
      }
      if !c.voteSigned(vote) || vote.validator !in powers {
        return false;
      }
      VotersSnoc(cert.precommits, i);
      SumAdd(powers, voters, vote.validator);
      if vote.validator !in voters {
        signedPower := signedPower + powers[vote.validator];
      }
      voters := voters + {vote.validator};
    }
    assert cert.precommits[..|cert.precommits|] == cert.precommits;
    ok := signedPower * 3 > totalPower * 2;
  }
}
