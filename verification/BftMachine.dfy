/** The mutable consensus object of the source, proved against the transitions of `Bft`. */
module BftMachine {
  import opened Basics
  import opened Weights
  import opened Sorting
  import opened Messages
  import opened Quorum
  import opened Bft

  // ---------- Proposer rotation ----------

  function Elements(s: seq<Id>): set<Id> {
    set x | x in s
  }

  ghost predicate Distinct(s: seq<Id>) {
    forall i, j :: 0 <= i < j < |s| ==> s[i] != s[j]
  }

  lemma {:induction false} DistinctCount(s: seq<Id>)
    requires Distinct(s)
    ensures |Elements(s)| == |s|
  {
    if s != [] {
      var n := |s| - 1;
      DistinctCount(s[..n]);
      assert s == s[..n] + [s[n]];
      assert Elements(s) == Elements(s[..n]) + {s[n]};
    }
  }

  lemma DistinctBag(s: seq<Id>, t: seq<Id>)
    requires Distinct(s) && multiset(s) == multiset(t)
    ensures Distinct(t)
  {
    forall i, j | 0 <= i < j < |t| ensures t[i] != t[j] {
      if t[i] == t[j] {
        assert t == t[..i] + [t[i]] + t[i + 1..j] + [t[j]] + t[j + 1..];
        assert multiset(s)[t[i]] >= 2;
        DistinctOnce(s, t[i]);
      }
    }
  }

  lemma {:induction false} DistinctOnce(s: seq<Id>, x: Id)
    requires Distinct(s)
    ensures multiset(s)[x] <= 1
  {
    if s != [] {
      var n := |s| - 1;
      DistinctOnce(s[..n], x);
      assert s == s[..n] + [s[n]];
      if x == s[n] {
        assert x !in s[..n];
      }
    }
  }

  lemma DistinctSnoc(s: seq<Id>, x: Id)
    requires Distinct(s) && x !in Elements(s)
    ensures Distinct(s + [x]) && Elements(s + [x]) == Elements(s) + {x}
  {
  }

  /** In a sorted list without repetition the position of an element is its rank. */
  lemma RankIsPosition(s: seq<Id>, k: nat)
    requires Distinct(s) && Sorted(TextLe, s) && k < |s|
    ensures Rank(Elements(s), s[k]) == k
  {
    TextOrder();
    var below := set q | q in Elements(s) && q != s[k] && TextLe(q, s[k]);
    forall q ensures q in below <==> q in Elements(s[..k]) {
      if q in below {
        var i :| 0 <= i < |s| && s[i] == q;
        assert i < k;
        assert s[..k][i] == q;
      }
      if q in s[..k] {
        var i :| 0 <= i < k && s[..k][i] == q;
        assert TextLe(s[i], s[k]);
      }
    }
    assert below == Elements(s[..k]);
    DistinctCount(s[..k]);
  }

  /** At most one validator may propose at each height and round. */
  lemma ProposerUnique(s: BftState, a: Id, b: Id)
    requires IsProposer(s, a) && IsProposer(s, b)
    ensures a == b
  {
    if a != b {
      TextOrder();
      var keys := s.validators.Keys;
      var lowA := set q | q in keys && q != a && TextLe(q, a);
      var lowB := set q | q in keys && q != b && TextLe(q, b);
      if TextLe(a, b) {
        assert lowA + {a} <= lowB;
        SubsetCount(lowA + {a}, lowB);
      } else {
        assert lowB + {b} <= lowA;
        SubsetCount(lowB + {b}, lowA);
      }
    }
  }

  lemma SubsetCount(a: set<Id>, b: set<Id>)
    requires a <= b
    ensures |a| <= |b|
  {
    assert |a| + |b - a| == |a + (b - a)|;
    assert a + (b - a) == b;
  }

  lemma OnlyProposer(s: BftState, id: Id)
    requires s.validators != map[] && IsProposer(s, id)
    ensures forall other :: IsProposer(s, other) ==> other == id
  {
    forall other | IsProposer(s, other) ensures other == id {
      ProposerUnique(s, other, id);
    }
  }

  lemma {:induction false} Enumerated(ids: set<Id>) returns (list: seq<Id>)
    ensures Distinct(list) && Elements(list) == ids
    decreases |ids|
  {
    if ids == {} {
      list := [];
    } else {
      var next :| next in ids;
      var rest := Enumerated(ids - {next});
      DistinctSnoc(rest, next);
      list := rest + [next];
    }
  }

  lemma SortedListing(list: seq<Id>)
    requires Distinct(list)
    ensures var sorted := Sort(TextLe, list);
      Distinct(sorted) && Sorted(TextLe, sorted) && Elements(sorted) == Elements(list) && |sorted| == |Elements(list)|
  {
    TextOrder();
    SortFacts(TextLe, list);
    DistinctBag(list, Sort(TextLe, list));
    DistinctCount(list);
  }

  ghost predicate SoleProposer(s: BftState, id: Id) {
    IsProposer(s, id) && forall other :: IsProposer(s, other) ==> other == id
  }

  /** Exactly one validator may propose at each height and round. */
  lemma OneProposer(s: BftState)
    requires s.validators != map[]
    ensures exists id :: SoleProposer(s, id)
  {
    var list := Enumerated(s.validators.Keys);
    SortedListing(list);
    var id := ProposerAt(s, Sort(TextLe, list));
    OnlyProposer(s, id);
    assert SoleProposer(s, id);
  }

  lemma ProposerAt(s: BftState, sorted: seq<Id>) returns (id: Id)
    requires sorted != [] && Distinct(sorted) && Sorted(TextLe, sorted)
    requires Elements(sorted) == s.validators.Keys && |sorted| == |s.validators|
    ensures IsProposer(s, id)
  {
    var k := (Max(s.height - 1, 0) + s.round) % |sorted|;
    id := sorted[k];
    RankIsPosition(sorted, k);
    assert id in Elements(sorted);
  }

  class BftConsensus {
    const crypto: Crypto
    const validators: map<Id, nat>
    const totalPower: nat
    var height: nat
    var round: u32
    var phase: Phase
    var proposal: Option<Hash>
    var votes: map<VoteKey, set<Id>>
    var history: map<HistoryKey, Hash>
    var messages: map<HistoryKey, Vote>
    var lockedValue: Option<Hash>
    var lockedRound: Option<u32>
    var validValue: Option<Hash>
    var validRound: Option<u32>
    var evidence: seq<DoubleVoteEvidence>
    var finalized: Option<Hash>

    ghost function View(): BftState
      reads this
    {
      BftState(validators, totalPower, height, round, phase, proposal, votes, history, messages,
               lockedValue, lockedRound, validValue, validRound, evidence, finalized)
    }

    constructor (crypto: Crypto, validators: map<Id, nat>, totalPower: nat)
      ensures this.crypto == crypto
      ensures View() == InitialState(validators, totalPower)
    {
      this.crypto := crypto;
      this.validators := validators;
      this.totalPower := totalPower;
      height, round, phase, proposal, finalized := 0, 0, Waiting, None, None;
      votes, history, messages, evidence := map[], map[], map[], [];
      lockedValue, lockedRound, validValue, validRound := None, None, None, None;
    }

    /** `BftConsensus::new`: rejects an empty list, a repeated id and a zero power. The total
        is a u64 sum, which wraps. */
    static method New(crypto: Crypto, list: seq<Validator>) returns (r: Result<BftConsensus, BftError>)
      ensures r.Ok? <==> list != [] && DistinctIds(list) && forall v :: v in list ==> v.votingPower > 0
      ensures r.Ok? ==> fresh(r.value) && r.value.crypto == crypto
      ensures r.Ok? ==> r.value.View() == InitialState(PowerMap(list), Total(PowerMap(list)) % (U64_MAX + 1))
      ensures r.Ok? && ListPower(list) <= U64_MAX ==>
        PowerTable(PowerMap(list)) && r.value.totalPower == Total(PowerMap(list))
      ensures r.Err? ==> r.error == InvalidValidators
    {
      if list == [] {
        return Err(InvalidValidators);
      }
      var table, sum := ReadTable(list);
      if table.None? {
        return Err(InvalidValidators);
      }
      ListPowerIsTotal(list);
      PowerMapKeys(list, list[0].id);
      var machine := new BftConsensus(crypto, table.value, sum % (U64_MAX + 1));
      r := Ok(machine);
    }

    /** Collects the powers and adds them up, refusing repeated ids and zero powers. */
    static method ReadTable(list: seq<Validator>) returns (table: Option<map<Id, nat>>, sum: nat)
      ensures table.Some? <==> DistinctIds(list) && forall v :: v in list ==> v.votingPower > 0
      ensures table.Some? ==> table.value == PowerMap(list) && sum == ListPower(list)
      ensures table.Some? ==> forall id :: id in table.value ==> 1 <= table.value[id] <= U64_MAX
    {
      var powers: map<Id, nat> := map[];
      sum := 0;
      for i := 0 to |list|
        invariant powers == PowerMap(list[..i])
        invariant sum == ListPower(list[..i])
        invariant DistinctIds(list[..i])
        invariant forall j :: 0 <= j < i ==> list[j].votingPower > 0
        invariant forall id :: id in powers ==> 1 <= powers[id] <= U64_MAX
      {
        var validator := list[i];
        PowerMapKeys(list[..i], validator.id);
        if validator.votingPower == 0 || validator.id in powers {
          assert validator in list;
          return None, sum;
        }
        assert list[..i + 1][..i] == list[..i];
        assert list[..i + 1] == list[..i] + [validator];
        powers := powers[validator.id := validator.votingPower];
        sum := sum + validator.votingPower;
      }
      assert list[..|list|] == list;
      table := Some(powers);
    }

    method StartRound(height: nat, round: u32) returns (r: Result<(), BftError>)
      modifies this
      ensures match Bft.StartRound(old(View()), height, round)
        case Ok(t) => r == Ok(()) && View() == t
        case Err(e) => r == Err(e) && View() == old(View())
    {
      if height < this.height || (height == this.height && round < this.round) {
        return Err(PastRound);
      }
      if height > this.height {
        ReleaseLock();
      }
      this.height := height;
      this.round := round;
      phase := Propose;
      proposal := None;
      votes := map[];
      finalized := None;
      r := Ok(());
    }

    method ReleaseLock()
      modifies this
      ensures View() == old(View()).(lockedValue := None, lockedRound := None, validValue := None, validRound := None)
    {
      lockedValue, lockedRound := None, None;
      validValue, validRound := None, None;
    }

    method OnTimeout() returns (r: Result<u32, BftError>)
      modifies this
      ensures match Bft.OnTimeout(old(View()))
        case Ok(t) => r == Ok(t.round) && View() == t
        case Err(e) => r == Err(e) && View() == old(View())
    {
      if round == U32_MAX {
        return Err(RoundOverflow);
      }
      var next := round + 1;
      var started := StartRound(height, next);
      match started {
        case Ok(_) => r := Ok(next);
        case Err(e) => r := Err(e);
      }
    }

    /** The validator ids in text order. */
    method SortedIds() returns (sorted: seq<Id>)
      ensures Distinct(sorted) && Sorted(TextLe, sorted) && Elements(sorted) == validators.Keys
      ensures |sorted| == |validators|
    {
      var ids := ListIds();
      SortedListing(ids);
      sorted := Sort(TextLe, ids);
    }

    /** The validator ids in the arbitrary order of the hash table. */
    method ListIds() returns (ids: seq<Id>)
      ensures Distinct(ids) && Elements(ids) == validators.Keys
    {
      ids := [];
      var todo := validators.Keys;
      while todo != {}
        invariant Distinct(ids)
        invariant Elements(ids) == validators.Keys - todo
        invariant todo <= validators.Keys
        decreases |todo|
      {
        var next :| next in todo;
        DistinctSnoc(ids, next);
        ids := ids + [next];
        todo := todo - {next};
      }
    }

    /** Sorts the validator ids and indexes by height and round. */
    method ExpectedProposer() returns (id: Id)
      requires validators != map[]
      ensures IsProposer(View(), id)
      ensures forall other :: IsProposer(View(), other) ==> other == id
    {
      var sorted := SortedIds();
      var k := (Max(height - 1, 0) + round) % |sorted|;
      id := sorted[k];
      RankIsPosition(sorted, k);
      assert id in Elements(sorted);
      OnlyProposer(View(), id);
    }

    method ProposeHash(proposer: Id, hash: Hash) returns (r: Result<(), BftError>)
      requires validators != map[]
      modifies this
      ensures match Bft.ProposeHash(old(View()), proposer, hash)
        case Ok(t) => r == Ok(()) && View() == t
        case Err(e) => r == Err(e) && View() == old(View())
    {
      if phase != Propose {
        return Err(NotProposePhase);
      }
      var expected := ExpectedProposer();
      if proposer != expected {
        return Err(WrongProposer);
      }
      if hash == "" {
        return Err(EmptyHash);
      }
      proposal := Some(hash);
      phase := Phase.Prevote;
      r := Ok(());
    }

    method HandleProposal(p: SignedProposal) returns (r: Result<(), BftError>)
      requires validators != map[]
      modifies this
      ensures match Bft.HandleProposal(crypto, old(View()), p)
        case Ok(t) => r == Ok(()) && View() == t
        case Err(e) => r == Err(e) && View() == old(View())
    {
      if p.height != height || p.round != round {
        return Err(WrongRound);
      }
      if p.proposer !in validators {
        return Err(NotRegistered);
      }
      if !ProposalVerified(crypto, p) {
        return Err(BadMessage);
      }
      if lockedValue.Some? && lockedValue.value != p.block.hash {
        var unlock := p.validRound.Some? && lockedRound.Some? && p.validRound.value >= lockedRound.value
          && validRound == p.validRound && validValue == Some(p.block.hash);
        if !unlock {
          return Err(Locked);
        }
      }
      r := ProposeHash(p.proposer, p.block.hash);
    }

    /** Adds up the power of the counted voters in any order. */
    method QuorumFor(kind: VoteType, hash: Hash) returns (ok: bool)
      ensures ok <==> HasQuorum(View(), kind, hash)
    {
      var todo := VotersIn(votes, kind, hash);
      var power := 0;
      while todo != {}
        invariant power + Sum(validators, todo) == Sum(validators, VotersIn(votes, kind, hash))
        decreases |todo|
      {
        var id :| id in todo;
        SumRemove(validators, todo, id);
        if id in validators {
          power := power + validators[id];
        }
        todo := todo - {id};
      }
      ok := Min(3 * power, U64_MAX) > Min(2 * totalPower, U64_MAX);
    }

    method Handle(m: Vote) returns (r: Result<(), BftError>)
      modifies this
      ensures (View(), r) == Bft.Handle(crypto, old(View()), m)
    {
      if m.height != height || m.round != round {
        return Err(WrongRound);
      }
      if m.validator !in validators {
        return Err(NotRegistered);
      }
      if !crypto.voteSigned(m) {
        return Err(BadMessage);
      }
      if !PhaseAccepts(phase, m.kind) {
        return Err(PhaseMismatch);
      }
      var key := KeyOf(m);
      if key in history && history[key] != m.hash {
        RecordConflict(m);
        return Err(DoubleVote);
      }
      if key !in history {
        history := history[key := m.hash];
        messages := messages[key := m];
      }
      assert View() == Bft.Remember(old(View()), m);
      if proposal != Some(m.hash) {
        return Err(NotProposed);
      }
      Count(m);
      r := Ok(());
    }

    method RecordConflict(m: Vote)
      modifies this`evidence
      ensures View() == Bft.RecordConflict(crypto, old(View()), m)
    {
      var key := KeyOf(m);
      if key in messages && EvidenceVerified(crypto, DoubleVoteEvidence(messages[key], m))
        && !KnownEvidence(evidence, key) {
        evidence := evidence + [DoubleVoteEvidence(messages[key], m)];
      }
    }

    method Count(m: Vote)
      modifies this
      ensures View() == Bft.Advance(Bft.AddVote(old(View()), m), m)
    {
      votes := votes[VoteKey(m.kind, m.hash) := VotersIn(votes, m.kind, m.hash) + {m.validator}];
      assert View() == Bft.AddVote(old(View()), m);
      var quorum := QuorumFor(m.kind, m.hash);
      if quorum && phase != Finalized {
        if m.kind == VoteType.Precommit {
          phase := Finalized;
          finalized := Some(m.hash);
        } else if phase == Phase.Prevote {
          Lock(m.hash);
        }
      }
    }

    method Lock(hash: Hash)
      modifies this
      ensures View() == old(View()).(
        validValue := Some(hash), validRound := Some(round),
        lockedValue := Some(hash), lockedRound := Some(round), phase := Phase.Precommit)
    {
      validValue, validRound := Some(hash), Some(round);
      lockedValue, lockedRound := Some(hash), Some(round);
      phase := Phase.Precommit;
    }

    method TakeEvidence() returns (taken: seq<DoubleVoteEvidence>)
      modifies this`evidence
      ensures taken == old(evidence) && View() == old(View()).(evidence := [])
    {
      taken := evidence;
      evidence := [];
    }
  }
}
