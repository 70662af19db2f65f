/** Whose turn it is (src/consensus.rs): the turn passes through the validators in text order,
    one step per round and one per height, and nobody is left out. */
module Rotation {
  import opened Basics
  import opened Sorting
  import opened Messages
  import opened Arithmetic
  import opened Bft
  import opened BftMachine

  ghost predicate Least(ids: set<Id>, id: Id) {
    id in ids && forall q :: q in ids ==> TextLe(id, q)
  }

  ghost predicate Greatest(ids: set<Id>, id: Id) {
    id in ids && forall q :: q in ids ==> TextLe(q, id)
  }

  /** The next id in text order, and the least one after the greatest. */
  ghost predicate Follows(ids: set<Id>, a: Id, b: Id) {
    && a in ids && b in ids
    && (if Greatest(ids, a) then Least(ids, b)
        else a != b && TextLe(a, b) && forall q :: q in ids && q != a && TextLe(a, q) ==> TextLe(b, q))
  }

  lemma FollowerUnique(ids: set<Id>, a: Id, b: Id, c: Id)
    requires Follows(ids, a, b) && Follows(ids, a, c)
    ensures b == c
  {
    TextOrder();
  }

  // ---------- Turns on a sorted list ----------

  ghost predicate Lists(sorted: seq<Id>, ids: set<Id>) {
    Distinct(sorted) && Sorted(TextLe, sorted) && Elements(sorted) == ids && |sorted| == |ids|
  }

  lemma SortedIds(ids: set<Id>) returns (sorted: seq<Id>)
    ensures Lists(sorted, ids)
  {
    var list := Enumerated(ids);
    SortedListing(list);
    sorted := Sort(TextLe, list);
  }

  /** How far the turn has moved on. */
  function Turn(s: BftState): nat {
    Max(s.height - 1, 0) + s.round
  }

  lemma ProposerInList(s: BftState, sorted: seq<Id>)
    requires s.validators != map[] && Lists(sorted, s.validators.Keys)
    ensures SoleProposer(s, sorted[Turn(s) % |sorted|])
  {
    var k := Turn(s) % |sorted|;
    RankIsPosition(sorted, k);
    assert sorted[k] in Elements(sorted);
    OnlyProposer(s, sorted[k]);
  }

  lemma LeastFirst(ids: set<Id>, sorted: seq<Id>)
    requires Lists(sorted, ids) && ids != {}
    ensures Least(ids, sorted[0])
  {
    TextOrder();
    forall q | q in ids ensures TextLe(sorted[0], q) {
      assert q in Elements(sorted);
      var i :| 0 <= i < |sorted| && sorted[i] == q;
    }
  }

  lemma NextInList(ids: set<Id>, sorted: seq<Id>, k: nat)
    requires Lists(sorted, ids) && k + 1 < |sorted|
    ensures Follows(ids, sorted[k], sorted[k + 1])
  {
    TextOrder();
    assert sorted[k] in Elements(sorted) && sorted[k + 1] in Elements(sorted);
    assert TextLe(sorted[k], sorted[k + 1]) && sorted[k] != sorted[k + 1];
    forall q | q in ids && q != sorted[k] && TextLe(sorted[k], q) ensures TextLe(sorted[k + 1], q) {
      assert q in Elements(sorted);
      var i :| 0 <= i < |sorted| && sorted[i] == q;
    }
  }

  lemma LastInList(ids: set<Id>, sorted: seq<Id>)
    requires Lists(sorted, ids) && ids != {}
    ensures Follows(ids, sorted[|sorted| - 1], sorted[0])
  {
    TextOrder();
    var last := sorted[|sorted| - 1];
    assert last in Elements(sorted);
    forall q | q in ids ensures TextLe(q, last) {
      assert q in Elements(sorted);
      var i :| 0 <= i < |sorted| && sorted[i] == q;
    }
    LeastFirst(ids, sorted);
  }

  lemma NextRemainder(turn: nat, n: nat)
    requires n > 0
    ensures (turn + 1) % n == if turn % n == n - 1 then 0 else turn % n + 1
  {
    var q := Quotient(turn, n);
    assert turn == q * n + turn % n;
    if turn % n == n - 1 {
      AddTimes(q, 1, n);
      RemainderIs(turn + 1, n, q + 1, 0);
    } else {
      RemainderIs(turn + 1, n, q, turn % n + 1);
    }
  }

  // ---------- The rotation ----------

  /** Rotation starts with the least id: at genesis and in round 0 of height 1. */
  lemma FirstProposer(s: BftState, id: Id)
    requires s.validators != map[] && s.height <= 1 && s.round == 0
    ensures SoleProposer(s, id) <==> Least(s.validators.Keys, id)
  {
    var sorted := SortedIds(s.validators.Keys);
    ProposerInList(s, sorted);
    RemainderIs(Turn(s), |sorted|, 0, 0);
    LeastFirst(s.validators.Keys, sorted);
    if Least(s.validators.Keys, id) {
      LeastUnique(s.validators.Keys, id, sorted[0]);
    }
  }

  lemma LeastUnique(ids: set<Id>, a: Id, b: Id)
    requires Least(ids, a) && Least(ids, b)
    ensures a == b
  {
    TextLeTotal(a, b);
  }

  lemma TurnPasses(s: BftState, t: BftState, a: Id, b: Id)
    requires t.validators == s.validators && Turn(t) == Turn(s) + 1 && SoleProposer(s, a)
    ensures SoleProposer(t, b) <==> Follows(s.validators.Keys, a, b)
  {
    var ids := s.validators.Keys;
    assert a in ids;
    var x, y := ConsecutiveProposers(s, t);
    SoleIsOne(s, a, x);
    if Follows(ids, a, b) {
      FollowerUnique(ids, a, b, y);
    }
    if SoleProposer(t, b) {
      SoleIsOne(t, b, y);
    }
  }

  lemma ConsecutiveProposers(s: BftState, t: BftState) returns (x: Id, y: Id)
    requires t.validators == s.validators && Turn(t) == Turn(s) + 1 && s.validators != map[]
    ensures SoleProposer(s, x) && SoleProposer(t, y) && Follows(s.validators.Keys, x, y)
  {
    var sorted := SortedIds(s.validators.Keys);
    var k, j := NextPosition(Turn(s), |sorted|);
    x, y := sorted[k], sorted[j];
    ProposerAtPosition(s, sorted, k);
    ProposerAtPosition(t, sorted, j);
    FollowsInList(s.validators.Keys, sorted, k, j);
  }

  /** The position of a turn is its remainder. */
  ghost predicate PositionOf(turn: nat, n: nat, k: nat) {
    k < n && exists q: nat :: turn == q * n + k
  }

  lemma NextPosition(turn: nat, n: nat) returns (k: nat, j: nat)
    requires n > 0
    ensures PositionOf(turn, n, k) && PositionOf(turn + 1, n, j) && j == if k == n - 1 then 0 else k + 1
  {
    k, j := turn % n, (turn + 1) % n;
    NextRemainder(turn, n);
    assert turn == Quotient(turn, n) * n + k && turn + 1 == Quotient(turn + 1, n) * n + j;
  }

  lemma ProposerAtPosition(s: BftState, sorted: seq<Id>, k: nat)
    requires s.validators != map[] && Lists(sorted, s.validators.Keys) && PositionOf(Turn(s), |sorted|, k)
    ensures SoleProposer(s, sorted[k])
  {
    ProposerInList(s, sorted);
    var q: nat :| Turn(s) == q * |sorted| + k;
    RemainderIs(Turn(s), |sorted|, q, k);
  }

  lemma SoleIsOne(s: BftState, a: Id, b: Id)
    requires SoleProposer(s, a) && SoleProposer(s, b)
    ensures a == b
  {
  }

  lemma FollowsInList(ids: set<Id>, sorted: seq<Id>, k: nat, j: nat)
    requires Lists(sorted, ids) && k < |sorted| && j == if k == |sorted| - 1 then 0 else k + 1
    ensures Follows(ids, sorted[k], sorted[j])
  {
    if k + 1 < |sorted| {
      NextInList(ids, sorted, k);
    } else {
      assert sorted[0] in Elements(sorted);
      LastInList(ids, sorted);
    }
  }

  /** A timeout hands the turn to the next validator in text order, after the last one to
      the first. */
  lemma TimeoutPassesTurn(s: BftState, t: BftState, a: Id, b: Id)
    requires OnTimeout(s) == Ok(t) && SoleProposer(s, a)
    ensures SoleProposer(t, b) <==> Follows(s.validators.Keys, a, b)
  {
    TurnPasses(s, t, a, b);
  }

  /** A new height starts one step further than the height before started. */
  lemma HeightPassesTurn(s: BftState, t: BftState, a: Id, b: Id)
    requires s.height >= 1 && StartRound(s, s.height + 1, 0) == Ok(t) && SoleProposer(s.(round := 0), a)
    ensures SoleProposer(t, b) <==> Follows(s.validators.Keys, a, b)
  {
    TurnPasses(s.(round := 0), t, a, b);
  }

  /** Turn numbers that leave the same remainder are a whole number of cycles apart. */
  lemma SameRemainder(a: nat, b: nat, n: nat)
    requires n > 0 && a <= b < a + n && a % n == b % n
    ensures a == b
  {
    var p, q := Quotient(a, n), Quotient(b, n);
    assert a == p * n + a % n && b == q * n + b % n;
    AddTimes(q, -p, n);
    if q > p {
      ScaleUp(1, q - p, n);
    } else {
      ScaleUp(q - p, 0, n);
    }
  }

  /** The turn number in a cycle that leaves a given remainder. */
  lemma RemainderReached(start: nat, n: nat, k: nat) returns (d: nat)
    requires k < n
    ensures d < n && (start + d) % n == k
  {
    var q := Quotient(start, n);
    assert start == q * n + start % n;
    if start % n <= k {
      d := k - start % n;
      RemainderIs(start + d, n, q, k);
    } else {
      d := k + n - start % n;
      AddTimes(q, 1, n);
      RemainderIs(start + d, n, q + 1, k);
    }
  }

  ghost predicate HasTurn(s: BftState, round: u32, id: Id) {
    SoleProposer(s.(round := round), id)
  }

  lemma TurnAt(s: BftState, sorted: seq<Id>, round: u32, k: nat)
    requires Lists(sorted, s.validators.Keys) && k < |sorted|
    ensures HasTurn(s, round, sorted[k]) <==> (Max(s.height - 1, 0) + round) % |sorted| == k
  {
    assert sorted[k] in Elements(sorted);
    var t := s.(round := round);
    ProposerInList(t, sorted);
    if Turn(t) % |sorted| != k {
      assert sorted[Turn(t) % |sorted|] != sorted[k];
    }
  }

  lemma TurnComes(s: BftState, sorted: seq<Id>, first: u32, k: nat) returns (r: u32)
    requires Lists(sorted, s.validators.Keys) && k < |sorted| && first + |sorted| - 1 <= U32_MAX
    ensures first <= r < first + |sorted| && HasTurn(s, r, sorted[k])
  {
    var d := RemainderReached(Max(s.height - 1, 0) + first, |sorted|, k);
    r := first + d;
    TurnAt(s, sorted, r, k);
  }

  /** A validator waits a whole cycle for its next turn. */
  lemma TurnsApart(s: BftState, id: Id, r: u32, q: u32)
    requires HasTurn(s, r, id) && HasTurn(s, q, id) && r <= q < r + |s.validators|
    ensures r == q
  {
    var sorted := SortedIds(s.validators.Keys);
    assert id in s.validators.Keys;
    assert id in Elements(sorted);
    var k: nat :| k < |sorted| && sorted[k] == id;
    TurnAt(s, sorted, r, k);
    TurnAt(s, sorted, q, k);
    SameRemainder(Max(s.height - 1, 0) + r, Max(s.height - 1, 0) + q, |sorted|);
  }

  ghost predicate TurnWithin(s: BftState, first: u32, id: Id, r: u32) {
    first <= r < first + |s.validators| && HasTurn(s, r, id)
  }

  /** Nobody is left out: in any |validators| consecutive rounds of a height every validator
      is the sole proposer of exactly one round. */
  lemma EveryoneOnce(s: BftState, first: u32, id: Id)
    requires id in s.validators && first + |s.validators| - 1 <= U32_MAX
    ensures exists r: u32 :: TurnWithin(s, first, id, r)
    ensures forall r: u32, q: u32 :: TurnWithin(s, first, id, r) && TurnWithin(s, first, id, q) ==> r == q
  {
    var sorted := SortedIds(s.validators.Keys);
    assert id in Elements(sorted);
    var k: nat :| k < |sorted| && sorted[k] == id;
    var r := TurnComes(s, sorted, first, k);
    assert TurnWithin(s, first, id, r);
    forall r: u32, q: u32 | TurnWithin(s, first, id, r) && TurnWithin(s, first, id, q) ensures r == q {
      TurnsApart(s, id, if r <= q then r else q, if r <= q then q else r);
    }
  }
}
